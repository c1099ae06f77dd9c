/**
 * Layouts. Every header version reads a fixed sequence of sections: runs of
 * 4-byte fields (`read_fmt`, `read_fourcc`, `read_source1_string(0)`), runs
 * of `n` identical integers (`ni`), fixed-width strings (`read_ascii_string`)
 * and skipped gaps (`skip`). A layout lists those sections as steps; one
 * interpreter reads any layout, one encoder writes it, and reading a layout
 * back from its own encoding yields the items that were written.
 */
module Layouts {
  import opened Results
  import opened ByteReader
  import opened Fields

  datatype Step =
    | Words(plan: seq<Field>)            // one `read_fmt` run, one field per word
    | Repeated(field: Field, count: nat) // `count` words of one field, as in `58i`
    | Text(width: nat)                   // `read_ascii_string(width)`
    | Gap(width: nat)                    // `skip(width)`

  /**
   * What one step reads. A gap keeps the bytes it passed over: the headers
   * discard them, and the encoder writes them back.
   */
  datatype Item =
    | WordsI(values: seq<Value>)
    | TextI(text: Bytes)
    | GapI(bytes: Bytes)

  /** The fields a run of words decodes, one per word. */
  function PlanOf(s: Step): (plan: seq<Field>)
    requires s.Words? || s.Repeated?
  {
    if s.Words? then s.plan else Repeat(s.field, s.count)
  }

  /** Bytes one step consumes. */
  function Width(s: Step): nat {
    match s
    case Words(plan) => 4 * |plan|
    case Repeated(_, count) => 4 * count
    case Text(width) => width
    case Gap(width) => width
  }

  /** Bytes the steps from index `k` on consume. */
  function LayoutWidth(steps: seq<Step>, k: nat): nat
    requires k <= |steps|
    decreases |steps| - k
  {
    if k == |steps| then 0 else Width(steps[k]) + LayoutWidth(steps, k + 1)
  }

  /** `item` has the shape `s` reads: one value per word, or one byte per byte of a gap. */
  predicate Shaped(item: Item, s: Step) {
    match s
    case Words(plan) => item.WordsI? && |item.values| == |plan|
    case Repeated(_, count) => item.WordsI? && |item.values| == count
    case Text(width) => item.TextI? && |item.text| <= width
    case Gap(width) => item.GapI? && |item.bytes| == width
  }

  /** `items` have the shapes of the steps from index `k` on, in order. */
  predicate ShapedFrom(items: seq<Item>, steps: seq<Step>, k: nat)
    requires k <= |steps|
  {
    |items| == |steps| - k && forall i :: 0 <= i < |items| ==> Shaped(items[i], steps[k + i])
  }

  /** `item` is something `s` can write and read back: fitting values, a NUL-free text that fits its field. */
  predicate Writable(item: Item, s: Step) {
    match s
    case Words(plan) => item.WordsI? && Conforms(item.values, plan)
    case Repeated(field, count) => item.WordsI? && Conforms(item.values, Repeat(field, count))
    case Text(width) => item.TextI? && |item.text| <= width && 0 !in item.text
    case Gap(width) => item.GapI? && |item.bytes| == width
  }

  /** Every item can be written by the step at the same index. */
  predicate AllWritable(items: seq<Item>, steps: seq<Step>) {
    |items| == |steps| && forall j :: 0 <= j < |steps| ==> Writable(items[j], steps[j])
  }

  /** What a step can write has the shape it reads. */
  lemma WritableShaped(items: seq<Item>, steps: seq<Step>)
    requires AllWritable(items, steps)
    ensures ShapedFrom(items, steps, 0)
  {
  }

  /** Items writable by two layouts are writable, back to back, by the two layouts back to back. */
  lemma AllWritableAppend(a: seq<Item>, la: seq<Step>, b: seq<Item>, lb: seq<Step>)
    requires AllWritable(a, la) && AllWritable(b, lb)
    ensures AllWritable(a + b, la + lb)
  {
  }

  /** From index `|a| + j` on, two layouts back to back are as wide as the second from `j` on. */
  lemma {:induction false} LayoutWidthShift(a: seq<Step>, b: seq<Step>, j: nat)
    requires j <= |b|
    ensures LayoutWidth(a + b, |a| + j) == LayoutWidth(b, j)
    decreases |b| - j
  {
    if j < |b| {
      assert (a + b)[|a| + j] == b[j];
      LayoutWidthShift(a, b, j + 1);
    }
  }

  lemma {:induction false} LayoutWidthAppendFrom(a: seq<Step>, b: seq<Step>, k: nat)
    requires k <= |a|
    ensures LayoutWidth(a + b, k) == LayoutWidth(a, k) + LayoutWidth(b, 0)
    decreases |a| - k
  {
    if k < |a| {
      assert (a + b)[k] == a[k];
      LayoutWidthAppendFrom(a, b, k + 1);
    } else {
      LayoutWidthShift(a, b, 0);
    }
  }

  /** Two layouts back to back are as wide as both together. */
  lemma LayoutWidthAppend(a: seq<Step>, b: seq<Step>)
    ensures LayoutWidth(a + b, 0) == LayoutWidth(a, 0) + LayoutWidth(b, 0)
  {
    LayoutWidthAppendFrom(a, b, 0);
  }

  // ---------------------------------------------------------------------------
  // Reading

  function ReadStep(data: Bytes, pos: nat, s: Step): (r: ReadResult<Item>)
    ensures r.Success? <==> pos + Width(s) <= |data|
    ensures r.Success? ==> r.value.next == pos + Width(s) && Shaped(r.value.value, s)
    ensures r.Failure? ==> r.error == Truncated
  {
    if s.Words? || s.Repeated? then
      var vs :- ReadFields(data, pos, PlanOf(s));
      Success(Parsed(WordsI(vs.value), vs.next))
    else
      var b :- ReadBytes(data, pos, Width(s));
      Success(Parsed(if s.Text? then TextI(UntilNul(b.value)) else GapI(b.value), b.next))
  }

  /** The steps from index `k` on, read in order from `pos`; walked by index like `ReadFieldsFrom`. */
  function ReadSteps(data: Bytes, pos: nat, steps: seq<Step>, k: nat): (r: ReadResult<seq<Item>>)
    requires k <= |steps|
    ensures r.Success? <==> pos + LayoutWidth(steps, k) <= |data|
    ensures r.Success? ==> r.value.next == pos + LayoutWidth(steps, k) && ShapedFrom(r.value.value, steps, k)
    ensures r.Failure? ==> r.error == Truncated
    decreases |steps| - k, data
  {
    if k == |steps| then
      if pos <= |data| then Success(Parsed([], pos)) else Failure(Truncated)
    else
      var first :- ReadStep(data, pos, steps[k]);
      var rest :- ReadSteps(data, first.next, steps, k + 1);
      Success(Parsed([first.value] + rest.value, rest.next))
  }

  /** A whole layout read from `pos`. */
  function ReadLayout(data: Bytes, pos: nat, steps: seq<Step>): (r: ReadResult<seq<Item>>)
    ensures r.Success? <==> pos + LayoutWidth(steps, 0) <= |data|
    ensures r.Success? ==> r.value.next == pos + LayoutWidth(steps, 0) && ShapedFrom(r.value.value, steps, 0)
    ensures r.Failure? ==> r.error == Truncated
  {
    ReadSteps(data, pos, steps, 0)
  }

  // ---------------------------------------------------------------------------
  // Writing

  function EncodeStep(s: Step, item: Item): (b: Bytes)
    requires Writable(item, s)
    ensures |b| == Width(s)
  {
    if s.Words? || s.Repeated? then EncodeFields(PlanOf(s), item.values)
    else if s.Text? then NulPadded(item.text, s.width)
    else item.bytes
  }

  /** The encodings of the items from index `k` on, back to back. */
  function EncodeSteps(steps: seq<Step>, items: seq<Item>, k: nat): (b: Bytes)
    requires AllWritable(items, steps) && k <= |steps|
    ensures |b| == LayoutWidth(steps, k)
    decreases |steps| - k, items
  {
    if k == |steps| then [] else EncodeStep(steps[k], items[k]) + EncodeSteps(steps, items, k + 1)
  }

  function EncodeLayout(steps: seq<Step>, items: seq<Item>): (b: Bytes)
    requires AllWritable(items, steps)
    ensures |b| == LayoutWidth(steps, 0)
  {
    EncodeSteps(steps, items, 0)
  }

  // ---------------------------------------------------------------------------
  // Round trip

  lemma ReadStepAt(data: Bytes, pos: nat, s: Step, item: Item)
    requires Writable(item, s)
    requires At(data, pos, EncodeStep(s, item))
    ensures ReadStep(data, pos, s) == Success(Parsed(item, pos + Width(s)))
  {
    if s.Words? || s.Repeated? {
      ReadFieldsAt(data, pos, PlanOf(s), item.values);
    } else {
      ReadBytesAt(data, pos, EncodeStep(s, item));
      if s.Text? {
        UntilNulPadded(item.text, s.width);
      }
    }
  }

  /** The encodings of the items from index `k` on sit one after another from `pos`. */
  predicate PlacedFrom(data: Bytes, pos: nat, steps: seq<Step>, items: seq<Item>, k: nat)
    requires AllWritable(items, steps) && k <= |steps|
    decreases |steps| - k
  {
    if k == |steps| then pos <= |data|
    else
      && At(data, pos, EncodeStep(steps[k], items[k]))
      && PlacedFrom(data, pos + Width(steps[k]), steps, items, k + 1)
  }

  lemma {:induction false} EncodedPlaced(data: Bytes, pos: nat, steps: seq<Step>, items: seq<Item>, k: nat)
    requires AllWritable(items, steps) && k <= |steps|
    requires At(data, pos, EncodeSteps(steps, items, k))
    ensures PlacedFrom(data, pos, steps, items, k)
    decreases |steps| - k
  {
    if k < |steps| {
      var first := EncodeStep(steps[k], items[k]);
      var rest := EncodeSteps(steps, items, k + 1);
      assert EncodeSteps(steps, items, k) == first + rest;
      AtAppend(data, pos, first, rest);
      EncodedPlaced(data, pos + Width(steps[k]), steps, items, k + 1);
    }
  }

  /** Each step from index `k` on reads its item, starting where the previous one ended. */
  predicate ReadsFrom(data: Bytes, pos: nat, steps: seq<Step>, items: seq<Item>, k: nat)
    requires |items| == |steps| && k <= |steps|
    decreases |steps| - k
  {
    if k == |steps| then pos <= |data|
    else
      && ReadStep(data, pos, steps[k]) == Success(Parsed(items[k], pos + Width(steps[k])))
      && ReadsFrom(data, pos + Width(steps[k]), steps, items, k + 1)
  }

  lemma {:induction false} PlacedReads(data: Bytes, pos: nat, steps: seq<Step>, items: seq<Item>, k: nat)
    requires AllWritable(items, steps) && k <= |steps|
    requires PlacedFrom(data, pos, steps, items, k)
    ensures ReadsFrom(data, pos, steps, items, k)
    decreases |steps| - k
  {
    if k < |steps| {
      ReadStepAt(data, pos, steps[k], items[k]);
      PlacedReads(data, pos + Width(steps[k]), steps, items, k + 1);
    }
  }

  /** The items from index `k` on, built the way `ReadSteps` builds its result. */
  function Suffix(items: seq<Item>, k: nat): seq<Item>
    requires k <= |items|
    decreases |items| - k
  {
    if k == |items| then [] else [items[k]] + Suffix(items, k + 1)
  }

  lemma {:induction false} SuffixIsSlice(items: seq<Item>, k: nat)
    requires k <= |items|
    ensures Suffix(items, k) == items[k..]
    decreases |items| - k
  {
    if k < |items| {
      SuffixIsSlice(items, k + 1);
      assert [items[k]] + items[k + 1..] == items[k..];
    }
  }

  lemma {:induction false} ReadStepsAt(data: Bytes, pos: nat, steps: seq<Step>, items: seq<Item>, k: nat)
    requires |items| == |steps| && k <= |steps|
    requires ReadsFrom(data, pos, steps, items, k)
    ensures ReadSteps(data, pos, steps, k) == Success(Parsed(Suffix(items, k), pos + LayoutWidth(steps, k)))
    decreases |steps| - k
  {
    if k < |steps| {
      var next := pos + Width(steps[k]);
      ReadStepsAt(data, next, steps, items, k + 1);
      assert ReadStep(data, pos, steps[k]) == Success(Parsed(items[k], next));
      assert Suffix(items, k) == [items[k]] + Suffix(items, k + 1);
    }
  }

  /** Each step reads its item from its place in the encoding of a layout. */
  lemma EncodedReads(data: Bytes, pos: nat, steps: seq<Step>, items: seq<Item>)
    requires AllWritable(items, steps)
    requires At(data, pos, EncodeLayout(steps, items))
    ensures ReadsFrom(data, pos, steps, items, 0)
  {
    EncodedPlaced(data, pos, steps, items, 0);
    PlacedReads(data, pos, steps, items, 0);
  }

  /** When each step reads its item in turn, the layout reads all of them. */
  lemma ReadsLayout(data: Bytes, pos: nat, steps: seq<Step>, items: seq<Item>)
    requires |items| == |steps| && ReadsFrom(data, pos, steps, items, 0)
    ensures ReadLayout(data, pos, steps) == Success(Parsed(items, pos + LayoutWidth(steps, 0)))
  {
    ReadStepsAt(data, pos, steps, items, 0);
    SuffixIsSlice(items, 0);
    assert items[0..] == items;
  }

  /** Reading a layout over its own encoding of writable items yields those items. */
  lemma ReadLayoutAt(data: Bytes, pos: nat, steps: seq<Step>, items: seq<Item>)
    requires AllWritable(items, steps)
    requires At(data, pos, EncodeLayout(steps, items))
    ensures ReadLayout(data, pos, steps) == Success(Parsed(items, pos + LayoutWidth(steps, 0)))
  {
    EncodedReads(data, pos, steps, items);
    ReadsLayout(data, pos, steps, items);
  }

  /** A layout written in front of anything reads back its items, and the rest follows it. */
  lemma LayoutThenAt(data: Bytes, pos: nat, steps: seq<Step>, items: seq<Item>, rest: Bytes)
    requires AllWritable(items, steps)
    requires At(data, pos, EncodeLayout(steps, items) + rest)
    ensures ReadLayout(data, pos, steps) == Success(Parsed(items, pos + LayoutWidth(steps, 0)))
    ensures At(data, pos + LayoutWidth(steps, 0), rest)
  {
    var e := EncodeLayout(steps, items);
    assert |e| == LayoutWidth(steps, 0);
    AtAppend(data, pos, e, rest);
    ReadLayoutAt(data, pos, steps, items);
  }

  /** A run of words followed by a layout, written back to back, reads back both. */
  lemma WordsThenLayoutAt(data: Bytes, pos: nat, plan: seq<Field>, vs: seq<Value>, steps: seq<Step>, items: seq<Item>)
    requires Conforms(vs, plan) && AllWritable(items, steps)
    requires At(data, pos, EncodeFields(plan, vs) + EncodeLayout(steps, items))
    ensures ReadFields(data, pos, plan) == Success(Parsed(vs, pos + 4 * |plan|))
    ensures ReadLayout(data, pos + 4 * |plan|, steps)
      == Success(Parsed(items, pos + 4 * |plan| + LayoutWidth(steps, 0)))
  {
    var words := EncodeFields(plan, vs);
    assert |words| == 4 * |plan|;
    AtAppend(data, pos, words, EncodeLayout(steps, items));
    ReadFieldsAt(data, pos, plan, vs);
    ReadLayoutAt(data, pos + |words|, steps, items);
  }
}
