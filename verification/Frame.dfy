/** The binary request that carries a capture into its fresh owner image. */
module Frame {
  import opened Ordered
  import opened Reduction
  import opened Words

  const HEADER := 72
  const LENGTH := 8
  const MAGIC: seq<byte> := [82, 68, 67, 65, 80, 48, 49, 0]
  const ROOT_SUFFIX := 22
  const NANOS := 1_000_000_000

  datatype Duration = Duration(seconds: nat, nanos: nat)

  datatype CaptureLimits = CaptureLimits(duration: Option<Duration>, traceBytes: Option<nat>, grace: Duration)

  datatype Request = Request(
    root: seq<byte>, name: seq<byte>, command: seq<seq<byte>>, selected: seq<seq<byte>>,
    environment: seq<seq<byte>>, limits: CaptureLimits, contract: Contract)

  // ---------- length-prefixed fields ----------

  function Field(value: seq<byte>): seq<byte> { Encode(|value|, LENGTH) + value }

  function Fields(values: seq<seq<byte>>): seq<byte> {
    if values == [] then [] else Field(values[0]) + Fields(values[1..])
  }

  predicate NulFree(value: seq<byte>) { 0 !in value }

  /** Read `count` fields from the front, with what is left; absent on a truncated field or a NUL. */
  function TakeFields(data: seq<byte>, count: nat): (r: Option<(seq<seq<byte>>, seq<byte>)>)
    ensures r.Some? ==> |r.value.0| == count && |r.value.1| <= |data|
  {
    if count == 0 then Some(([], data))
    else if |data| < LENGTH then None
    else
      var length := Decode(data[..LENGTH]);
      if length > |data| - LENGTH then None
      else
        var value := data[LENGTH..LENGTH + length];
        if !NulFree(value) then None
        else
          match TakeFields(data[LENGTH + length..], count - 1)
          case None => None
          case Some((values, rest)) => Some(([value] + values, rest))
  }

  predicate AllNulFree(values: seq<seq<byte>>) {
    forall i :: 0 <= i < |values| ==> NulFree(values[i]) && |values[i]| < Pow256(LENGTH)
  }

  lemma Slices(a: seq<byte>, b: seq<byte>, c: seq<byte>)
    ensures var s := a + b + c;
            s[..|a|] == a && s[|a|..|a| + |b|] == b && s[|a| + |b|..] == c
  {
  }

  /** One encoded field, then whatever follows. */
  lemma FieldTaken(value: seq<byte>, tail: seq<byte>, count: nat)
    requires NulFree(value) && |value| < Pow256(LENGTH)
    ensures TakeFields(Encode(|value|, LENGTH) + value + tail, count + 1) ==
            (match TakeFields(tail, count)
             case None => None
             case Some((values, rest)) => Some(([value] + values, rest)))
  {
    hide Encode;
    hide Decode;
    hide NulFree;
    hide Pow256;
    WordRoundTrip(|value|, LENGTH);
    Slices(Encode(|value|, LENGTH), value, tail);
  }

  lemma {:induction false} FieldsRoundTrip(values: seq<seq<byte>>, rest: seq<byte>)
    requires AllNulFree(values)
    ensures TakeFields(Fields(values) + rest, |values|) == Some((values, rest))
  {
    hide Encode;
    hide NulFree;
    hide Pow256;
    if values == [] {
      assert Fields(values) + rest == rest;
    } else {
      var first, tail := values[0], Fields(values[1..]) + rest;
      FieldsRoundTrip(values[1..], rest);
      FirstField(values, rest);
      hide Fields;
      hide TakeFields;
      hide AllNulFree;
      FieldTaken(first, tail, |values| - 1);
      assert values == [first] + values[1..];
    }
  }

  lemma FirstField(values: seq<seq<byte>>, rest: seq<byte>)
    requires values != []
    ensures Fields(values) + rest == Encode(|values[0]|, LENGTH) + values[0] + (Fields(values[1..]) + rest)
  {
    hide Encode;
    assert Fields(values) == Field(values[0]) + Fields(values[1..]);
    hide Fields;
  }

  /** The first of several fields that were read. */
  lemma FirstTaken(data: seq<byte>, count: nat) returns (value: seq<byte>, tail: seq<byte>)
    requires count > 0 && TakeFields(data, count).Some?
    ensures |data| >= LENGTH && data == data[..LENGTH] + (value + tail)
    ensures Encode(|value|, LENGTH) == data[..LENGTH] && NulFree(value) && |value| < Pow256(LENGTH)
    ensures TakeFields(tail, count - 1).Some?
    ensures TakeFields(data, count).value.0 == [value] + TakeFields(tail, count - 1).value.0
    ensures TakeFields(data, count).value.1 == TakeFields(tail, count - 1).value.1
  {
    hide Encode;
    hide Decode;
    hide NulFree;
    hide Pow256;
    var length := Decode(data[..LENGTH]);
    value, tail := data[LENGTH..LENGTH + length], data[LENGTH + length..];
    WordCanonical(data[..LENGTH]);
  }

  lemma {:induction false} FieldsCanonical(data: seq<byte>, count: nat)
    requires TakeFields(data, count).Some?
    ensures var (values, rest) := TakeFields(data, count).value; Fields(values) + rest == data && AllNulFree(values)
    decreases count
  {
    hide Encode;
    hide Decode;
    hide NulFree;
    hide Pow256;
    if count > 0 {
      var value, tail := FirstTaken(data, count);
      FieldsCanonical(tail, count - 1);
      var (after, rest) := TakeFields(tail, count - 1).value;
      hide TakeFields;
      FieldsCons(value, after, rest, tail);
    }
  }

  lemma FieldsCons(value: seq<byte>, after: seq<seq<byte>>, rest: seq<byte>, tail: seq<byte>)
    requires Fields(after) + rest == tail
    ensures Fields([value] + after) + rest == Encode(|value|, LENGTH) + (value + tail)
  {
    hide Encode;
    assert ([value] + after)[1..] == after;
    assert Fields([value] + after) == Field(value) + Fields(after);
  }

  lemma {:induction false} FieldsLength(values: seq<seq<byte>>)
    ensures |Fields(values)| >= LENGTH * |values|
  {
    if values != [] { FieldsLength(values[1..]); }
  }

  // ---------- the header ----------

  /** Widths of the little-endian words after the magic. */
  const WIDTHS: seq<nat> := [4, 4, 8, 1, 1, 2, 8, 4, 8, 8, 4, 4, 4, 4]

  // Word positions.
  const VERSION := 0
  const SIZE := 1
  const TOTAL := 2
  const CONTRACT := 3
  const FLAGS := 4
  const RESERVED := 5
  const SECONDS := 6
  const NANOSECONDS := 7
  const TRACE_BYTES := 8
  const GRACE_SECONDS := 9
  const GRACE_NANOS := 10
  const COMMANDS := 11
  const SELECTED := 12
  const VARIABLES := 13

  function Sum(widths: seq<nat>): nat { if widths == [] then 0 else widths[0] + Sum(widths[1..]) }

  predicate Fit(words: seq<nat>, widths: seq<nat>) {
    |words| == |widths| && forall i :: 0 <= i < |words| ==> words[i] < Pow256(widths[i])
  }

  function EncodeAll(words: seq<nat>, widths: seq<nat>): (s: seq<byte>)
    requires |words| == |widths|
    ensures |s| == Sum(widths)
  {
    if words == [] then [] else Encode(words[0], widths[0]) + EncodeAll(words[1..], widths[1..])
  }

  function DecodeAll(data: seq<byte>, widths: seq<nat>): (words: seq<nat>)
    requires Sum(widths) <= |data|
    ensures |words| == |widths|
    decreases |widths|
  {
    if widths == [] then []
    else [Decode(data[..widths[0]])] + DecodeAll(data[widths[0]..], widths[1..])
  }

  lemma {:induction false} WordsRoundTrip(words: seq<nat>, widths: seq<nat>, rest: seq<byte>)
    requires Fit(words, widths)
    ensures DecodeAll(EncodeAll(words, widths) + rest, widths) == words
    decreases |words|
  {
    if words != [] {
      var first, after := Encode(words[0], widths[0]), EncodeAll(words[1..], widths[1..]);
      WordsRoundTrip(words[1..], widths[1..], rest);
      WordRoundTrip(words[0], widths[0]);
      assert EncodeAll(words, widths) + rest == first + (after + rest);
      assert (first + (after + rest))[widths[0]..] == after + rest;
    }
  }

  lemma {:induction false} WordsCanonical(data: seq<byte>, widths: seq<nat>)
    requires Sum(widths) <= |data|
    ensures Fit(DecodeAll(data, widths), widths)
    ensures EncodeAll(DecodeAll(data, widths), widths) == data[..Sum(widths)]
    decreases |widths|
  {
    if widths != [] {
      var w, tail := widths[0], data[widths[0]..];
      WordsCanonical(tail, widths[1..]);
      WordCanonical(data[..w]);
      var words := DecodeAll(data, widths);
      assert words[1..] == DecodeAll(tail, widths[1..]);
      assert data[..Sum(widths)] == data[..w] + tail[..Sum(widths[1..])];
    }
  }

  lemma SumSplit(widths: seq<nat>, i: nat)
    requires 0 < i <= |widths|
    ensures Sum(widths[..i]) == widths[0] + Sum(widths[1..][..i - 1])
  {
    assert widths[..i][1..] == widths[1..][..i - 1];
  }

  /** Word `i` starts where the widths before it end. */
  lemma {:induction false} WordAt(data: seq<byte>, widths: seq<nat>, i: nat)
    requires Sum(widths) <= |data| && i < |widths|
    ensures Sum(widths[..i]) + widths[i] <= |data|
    ensures DecodeAll(data, widths)[i] == Decode(data[Sum(widths[..i])..Sum(widths[..i]) + widths[i]])
    decreases |widths|
  {
    hide Decode;
    if i == 0 {
      assert widths[..0] == [];
    } else {
      var w, tail := widths[0], data[widths[0]..];
      WordAt(tail, widths[1..], i - 1);
      SumSplit(widths, i);
      assert DecodeAll(data, widths)[i] == DecodeAll(tail, widths[1..])[i - 1];
      var at := Sum(widths[1..][..i - 1]);
      hide Sum;
      hide DecodeAll;
      SliceShift(data, w, at, widths[i]);
    }
  }

  lemma SumStep(widths: seq<nat>, i: nat)
    requires i < |widths|
    ensures Sum(widths[i..]) == widths[i] + Sum(widths[i + 1..])
  {
    assert widths[i..][1..] == widths[i + 1..];
  }

  lemma TailSum()
    ensures Sum(WIDTHS[7..]) == 36
  {
    hide Sum;
    SumStep(WIDTHS, 7);
    SumStep(WIDTHS, 8);
    SumStep(WIDTHS, 9);
    SumStep(WIDTHS, 10);
    SumStep(WIDTHS, 11);
    SumStep(WIDTHS, 12);
    SumStep(WIDTHS, 13);
    assert WIDTHS[14..] == [];
    EmptySum();
  }

  lemma HeaderSum()
    ensures |MAGIC| + Sum(WIDTHS) == HEADER
  {
    hide Sum;
    TailSum();
    SumStep(WIDTHS, 0);
    SumStep(WIDTHS, 1);
    SumStep(WIDTHS, 2);
    SumStep(WIDTHS, 3);
    SumStep(WIDTHS, 4);
    SumStep(WIDTHS, 5);
    SumStep(WIDTHS, 6);
    assert WIDTHS[0..] == WIDTHS;
  }

  lemma EmptySum()
    ensures Sum([]) == 0
  {
  }

  function FlagBits(limits: CaptureLimits): nat {
    (if limits.duration.Some? then 1 else 0) + (if limits.traceBytes.Some? then 2 else 0)
  }

  function OrZero(d: Option<Duration>): Duration { match d case Some(v) => v case None => Duration(0, 0) }

  function Bytes(n: Option<nat>): nat { match n case Some(v) => v case None => 0 }

  function HeaderWords(r: Request, total: nat): (words: seq<nat>)
    ensures |words| == |WIDTHS|
  {
    var duration := OrZero(r.limits.duration);
    [1, HEADER, total, if r.contract.TraceV1? then 1 else 0, FlagBits(r.limits), 0,
     duration.seconds, duration.nanos, Bytes(r.limits.traceBytes), r.limits.grace.seconds, r.limits.grace.nanos,
     |r.command|, |r.selected|, |r.environment|]
  }

  function Parts(r: Request): seq<seq<byte>> { [r.root, r.name] + r.selected + r.command + r.environment }

  function Total(r: Request): nat { HEADER + |Fields(Parts(r))| }

  /** The encoded frame. */
  function Written(r: Request): seq<byte> {
    MAGIC + EncodeAll(HeaderWords(r, Total(r)), WIDTHS) + Fields(Parts(r))
  }

  predicate ValidDuration(d: Duration) { d.seconds < Pow256(8) && d.nanos < NANOS }

  predicate ValidLimits(l: CaptureLimits) {
    && (l.duration.Some? ==> ValidDuration(l.duration.value)) && ValidDuration(l.grace)
    && (l.traceBytes.Some? ==> l.traceBytes.value < Pow256(8))
  }

  /** Values the writer can represent exactly, with the text its callers already hold. */
  predicate Valid(r: Request, utf8: seq<byte> -> bool) {
    && AllNulFree(Parts(r)) && TextValid(r, utf8) && ValidLimits(r.limits)
    && |r.command| < Pow256(4) && |r.selected| < Pow256(4) && |r.environment| < Pow256(4)
    && Total(r) < Pow256(8)
  }

  predicate TextValid(r: Request, utf8: seq<byte> -> bool) {
    utf8(r.name) && forall i :: 0 <= i < |r.selected| ==> utf8(r.selected[i])
  }

  // ---------- the reader ----------

  /** Fixed vocabulary, declared length, flags, durations and counts of a header. */
  predicate WordsAdmitted(w: seq<nat>, total: nat)
    requires |w| == |WIDTHS|
  {
    && w[VERSION] == 1 && w[SIZE] == HEADER && w[TOTAL] == total
    && w[CONTRACT] <= 1 && w[FLAGS] <= 3 && w[RESERVED] == 0
    && w[NANOSECONDS] < NANOS
    && (w[FLAGS] % 2 == 0 ==> w[SECONDS] == 0 && w[NANOSECONDS] == 0)
    && (w[FLAGS] / 2 == 0 ==> w[TRACE_BYTES] == 0)
    && w[GRACE_NANOS] < NANOS
    && w[COMMANDS] > 0
    && Count(w) <= (total - HEADER) / LENGTH
  }

  function Count(w: seq<nat>): nat
    requires |w| == |WIDTHS|
  {
    2 + w[COMMANDS] + w[SELECTED] + w[VARIABLES]
  }

  function LimitsIn(w: seq<nat>): CaptureLimits
    requires |w| == |WIDTHS|
  {
    CaptureLimits(if w[FLAGS] % 2 == 1 then Some(Duration(w[SECONDS], w[NANOSECONDS])) else None,
                  if w[FLAGS] / 2 == 1 then Some(w[TRACE_BYTES]) else None,
                  Duration(w[GRACE_SECONDS], w[GRACE_NANOS]))
  }

  function RequestIn(w: seq<nat>, values: seq<seq<byte>>): Request
    requires |w| == |WIDTHS| && |values| == Count(w)
  {
    var s, c := 2 + w[SELECTED], 2 + w[SELECTED] + w[COMMANDS];
    Request(values[0], values[1], values[s..c], values[2..s], values[c..], LimitsIn(w),
            if w[CONTRACT] == 1 then TraceV1 else StructuredV3)
  }

  function WordsIn(data: seq<byte>): (w: seq<nat>)
    requires |data| >= HEADER
    ensures |w| == |WIDTHS|
  {
    HeaderSum();
    DecodeAll(data[|MAGIC|..], WIDTHS)
  }

  /** Reading one whole sealed frame. */
  function Read(data: seq<byte>, utf8: seq<byte> -> bool): Option<Request> {
    if |data| < HEADER || data[..|MAGIC|] != MAGIC || !WordsAdmitted(WordsIn(data), |data|) then None
    else
      var w := WordsIn(data);
      match TakeFields(data[HEADER..], Count(w))
      case None => None
      case Some((values, rest)) =>
        if rest == [] && TextValid(RequestIn(w, values), utf8) then Some(RequestIn(w, values)) else None
  }

  /** Byte offsets of the header words. */
  const OFFSETS: seq<nat> := [8, 12, 16, 24, 25, 26, 28, 36, 40, 48, 56, 60, 64, 68]

  lemma {:induction false} PrefixSum(widths: seq<nat>, i: nat)
    requires i < |widths|
    ensures Sum(widths[..i + 1]) == Sum(widths[..i]) + widths[i]
    decreases i
  {
    if i == 0 {
      assert widths[..1][1..] == [] && widths[..0] == [];
    } else {
      PrefixSum(widths[1..], i - 1);
      assert widths[..i + 1][1..] == widths[1..][..i] && widths[..i][1..] == widths[1..][..i - 1];
    }
  }

  lemma {:induction false} OffsetsMatch(i: nat)
    requires i < |WIDTHS|
    ensures |MAGIC| + Sum(WIDTHS[..i]) == OFFSETS[i]
  {
    hide Sum;
    if i == 0 {
      assert WIDTHS[..0] == [];
      EmptySum();
    } else {
      OffsetsMatch(i - 1);
      PrefixSum(WIDTHS, i - 1);
    }
  }

  lemma SliceShift(data: seq<byte>, base: nat, at: nat, width: nat)
    requires base + at + width <= |data|
    ensures data[base..][at..at + width] == data[base + at..base + at + width]
  {
  }

  /** The reader takes every word from its fixed byte offset. */
  lemma WordsAtOffsets(data: seq<byte>, i: nat)
    requires |data| >= HEADER && i < |WIDTHS|
    ensures OFFSETS[i] + WIDTHS[i] <= |data|
    ensures WordsIn(data)[i] == Decode(data[OFFSETS[i]..OFFSETS[i] + WIDTHS[i]])
  {
    hide Decode;
    hide DecodeAll;
    hide Sum;
    HeaderSum();
    OffsetsMatch(i);
    WordAt(data[|MAGIC|..], WIDTHS, i);
    SliceShift(data, |MAGIC|, Sum(WIDTHS[..i]), WIDTHS[i]);
  }

  // ---------- the encoding is a bijection ----------

  lemma Powers()
    ensures Pow256(1) == 256 && Pow256(2) == 65536 && Pow256(4) == 0x1_0000_0000
    ensures Pow256(8) == 0x1_0000_0000_0000_0000
  {
    assert Pow256(3) == 256 * Pow256(2);
    assert Pow256(6) == 65536 * Pow256(4);
    assert Pow256(8) == 65536 * Pow256(6);
  }

  /** A valid request's header words fit their widths. */
  lemma HeaderFits(r: Request, utf8: seq<byte> -> bool)
    requires Valid(r, utf8)
    ensures Fit(HeaderWords(r, Total(r)), WIDTHS)
  {
    Powers();
    hide Pow256;
    hide Parts;
    hide Fields;
    hide AllNulFree;
    hide TextValid;
  }

  lemma Frames(magic: seq<byte>, words: seq<byte>, fields: seq<byte>)
    ensures var data := magic + words + fields;
            && data[..|magic|] == magic && data[|magic|..] == words + fields
            && data[|magic| + |words|..] == fields && |data| == |magic| + |words| + |fields|
  {
  }

  lemma WrittenParts(r: Request, utf8: seq<byte> -> bool)
    requires Valid(r, utf8)
    ensures |Written(r)| == Total(r) >= HEADER && Written(r)[..|MAGIC|] == MAGIC
    ensures WordsIn(Written(r)) == HeaderWords(r, Total(r))
    ensures Written(r)[HEADER..] == Fields(Parts(r))
  {
    HeaderFits(r, utf8);
    hide Valid;
    hide HeaderWords;
    hide Fields;
    hide Parts;
    hide Fit;
    HeaderSum();
    hide Sum;
    var words := HeaderWords(r, Total(r));
    WordsRoundTrip(words, WIDTHS, Fields(Parts(r)));
    Frames(MAGIC, EncodeAll(words, WIDTHS), Fields(Parts(r)));
    hide DecodeAll;
    hide EncodeAll;
  }

  function Optional(flag: bool, bit: nat): nat { if flag then bit else 0 }

  /** Word `i` of a written frame, at its own offset. */
  lemma WordWritten(r: Request, utf8: seq<byte> -> bool, i: nat, at: nat, width: nat, value: nat)
    requires Valid(r, utf8) && i < |WIDTHS| && OFFSETS[i] == at && WIDTHS[i] == width
    requires HeaderWords(r, Total(r))[i] == value
    ensures at + width <= |Written(r)| && Decode(Written(r)[at..at + width]) == value
  {
    hide *;
    WrittenParts(r, utf8);
    WordsAtOffsets(Written(r), i);
  }

  lemma MagicWritten(r: Request, utf8: seq<byte> -> bool)
    requires Valid(r, utf8)
    ensures |Written(r)| == Total(r) >= 72 && Written(r)[..8] == [82, 68, 67, 65, 80, 48, 49, 0]
  {
    WrittenParts(r, utf8);
    hide Written;
    hide Valid;
    hide Fields;
    hide Parts;
    assert |MAGIC| == 8 && MAGIC == [82, 68, 67, 65, 80, 48, 49, 0];
  }

  lemma SizesWritten(r: Request, utf8: seq<byte> -> bool)
    requires Valid(r, utf8)
    ensures var d := Written(r);
            |d| >= 24 && Decode(d[8..12]) == 1 && Decode(d[12..16]) == 72 && Decode(d[16..24]) == Total(r)
  {
    hide Decode;
    hide Written;
    hide Valid;
    hide Fields;
    hide Parts;
    hide Total;
    hide WordsIn;
    WordWritten(r, utf8, 0, 8, 4, 1);
    WordWritten(r, utf8, 1, 12, 4, 72);
    WordWritten(r, utf8, 2, 16, 8, Total(r));
  }

  lemma FlagsWritten(r: Request, utf8: seq<byte> -> bool)
    requires Valid(r, utf8)
    ensures var d := Written(r);
            && |d| >= 28
            && Decode(d[24..25]) == (if r.contract == TraceV1 then 1 else 0)
            && Decode(d[25..26]) == Optional(r.limits.duration.Some?, 1) + Optional(r.limits.traceBytes.Some?, 2)
            && Decode(d[26..28]) == 0
  {
    hide Decode;
    hide Written;
    hide Valid;
    hide Fields;
    hide Parts;
    hide Total;
    hide WordsIn;
    WordWritten(r, utf8, 3, 24, 1, if r.contract == TraceV1 then 1 else 0);
    WordWritten(r, utf8, 4, 25, 1, Optional(r.limits.duration.Some?, 1) + Optional(r.limits.traceBytes.Some?, 2));
    WordWritten(r, utf8, 5, 26, 2, 0);
  }

  /** A written frame opens with magic, version, header size, whole length, contract, flags and two reserved bytes,
      each at its offset and little-endian. */
  lemma FixedLayout(r: Request, utf8: seq<byte> -> bool)
    requires Valid(r, utf8)
    ensures var d := Written(r);
            && |d| >= 72 && d[..8] == [82, 68, 67, 65, 80, 48, 49, 0]
            && Decode(d[8..12]) == 1 && Decode(d[12..16]) == 72 && Decode(d[16..24]) == |d|
            && Decode(d[24..25]) == (if r.contract == TraceV1 then 1 else 0)
            && Decode(d[25..26]) == Optional(r.limits.duration.Some?, 1) + Optional(r.limits.traceBytes.Some?, 2)
            && Decode(d[26..28]) == 0
  {
    hide *;
    MagicWritten(r, utf8);
    SizesWritten(r, utf8);
    FlagsWritten(r, utf8);
  }

  /** Then the duration, the trace bytes, the grace, and how many parts of each kind follow; what is absent is
      zero. */
  lemma LimitLayout(r: Request, utf8: seq<byte> -> bool)
    requires Valid(r, utf8)
    ensures var d := Written(r);
            && |d| >= 72
            && Decode(d[28..36]) == (match r.limits.duration case Some(t) => t.seconds case None => 0)
            && Decode(d[36..40]) == (match r.limits.duration case Some(t) => t.nanos case None => 0)
            && Decode(d[40..48]) == (match r.limits.traceBytes case Some(n) => n case None => 0)
            && Decode(d[48..56]) == r.limits.grace.seconds && Decode(d[56..60]) == r.limits.grace.nanos
            && Decode(d[60..64]) == |r.command| && Decode(d[64..68]) == |r.selected| && Decode(d[68..72]) == |r.environment|
  {
    hide Decode;
    hide Written;
    hide Valid;
    hide Fields;
    hide Parts;
    hide Total;
    hide WordsIn;
    WordWritten(r, utf8, 6, 28, 8, match r.limits.duration case Some(t) => t.seconds case None => 0);
    WordWritten(r, utf8, 7, 36, 4, match r.limits.duration case Some(t) => t.nanos case None => 0);
    WordWritten(r, utf8, 8, 40, 8, match r.limits.traceBytes case Some(n) => n case None => 0);
    WordWritten(r, utf8, 9, 48, 8, r.limits.grace.seconds);
    WordWritten(r, utf8, 10, 56, 4, r.limits.grace.nanos);
    WordWritten(r, utf8, 11, 60, 4, |r.command|);
    WordWritten(r, utf8, 12, 64, 4, |r.selected|);
    WordWritten(r, utf8, 13, 68, 4, |r.environment|);
  }

  /** Then every part after its length: root, name, the selected names, the command, the environment. */
  lemma PayloadLayout(r: Request, utf8: seq<byte> -> bool)
    requires Valid(r, utf8)
    ensures var d := Written(r);
            && |d| >= 72
            && d[72..] == Encode(|r.root|, 8) + r.root + (Encode(|r.name|, 8) + r.name) +
                          (Fields(r.selected) + Fields(r.command) + Fields(r.environment))
  {
    hide *;
    PayloadIsParts(r, utf8);
    PartsInOrder(r);
  }

  lemma PayloadIsParts(r: Request, utf8: seq<byte> -> bool)
    requires Valid(r, utf8)
    ensures |Written(r)| >= 72 && Written(r)[72..] == Fields(Parts(r))
  {
    WrittenParts(r, utf8);
    hide Written;
    hide Valid;
    hide Fields;
    hide Parts;
  }

  lemma PartsInOrder(r: Request)
    ensures Fields(Parts(r)) == Encode(|r.root|, 8) + r.root + (Encode(|r.name|, 8) + r.name) +
                                (Fields(r.selected) + Fields(r.command) + Fields(r.environment))
  {
    hide Encode;
    hide Fields;
    var tail := r.selected + r.command + r.environment;
    assert Parts(r) == [r.root] + ([r.name] + tail);
    hide Parts;
    FieldsFirst(r.root, [r.name] + tail);
    FieldsFirst(r.name, tail);
    FieldsAppend(r.selected + r.command, r.environment);
    FieldsAppend(r.selected, r.command);
    PartsRegrouped(Encode(|r.root|, 8) + r.root, Encode(|r.name|, 8) + r.name, Fields(tail));
  }

  lemma FieldsFirst(value: seq<byte>, after: seq<seq<byte>>)
    ensures Fields([value] + after) == Encode(|value|, 8) + value + Fields(after)
  {
    assert ([value] + after)[1..] == after;
  }

  lemma {:induction false} FieldsAppend(a: seq<seq<byte>>, b: seq<seq<byte>>)
    ensures Fields(a + b) == Fields(a) + Fields(b)
  {
    hide Encode;
    if a == [] {
      assert a + b == b;
    } else {
      var first, rest := a[0], a[1..];
      assert a == [first] + rest && a + b == [first] + (rest + b);
      hide Fields;
      FieldsAppend(rest, b);
      FieldsFirst(first, rest + b);
      FieldsFirst(first, rest);
      PartsRegrouped(Encode(|first|, 8) + first, Fields(rest), Fields(b));
    }
  }

  lemma PartsRegrouped(a: seq<byte>, b: seq<byte>, c: seq<byte>)
    ensures a + (b + c) == a + b + c
  {
  }

  lemma RequestRestored(r: Request)
    ensures |Parts(r)| == Count(HeaderWords(r, Total(r)))
    ensures RequestIn(HeaderWords(r, Total(r)), Parts(r)) == r
  {
    hide Fields;
    var values := Parts(r);
    var s, c := 2 + |r.selected|, 2 + |r.selected| + |r.command|;
    assert values[2..s] == r.selected;
    assert values[s..c] == r.command;
    assert values[c..] == r.environment;
  }

  lemma HeaderAdmitted(r: Request, utf8: seq<byte> -> bool)
    requires Valid(r, utf8) && r.command != []
    ensures WordsAdmitted(HeaderWords(r, Total(r)), Total(r))
  {
    FieldsLength(Parts(r));
    RequestRestored(r);
    hide Fields;
    hide Parts;
    hide Pow256;
    hide AllNulFree;
    hide TextValid;
    hide RequestIn;
  }

  /** Reading a written request gives it back, for every valid request with a command. */
  lemma ReadsWhatIsWritten(r: Request, utf8: seq<byte> -> bool)
    requires Valid(r, utf8) && r.command != []
    ensures Read(Written(r), utf8) == Some(r)
  {
    WrittenParts(r, utf8);
    HeaderAdmitted(r, utf8);
    RequestRestored(r);
    FieldsRoundTrip(Parts(r), []);
    assert Fields(Parts(r)) + [] == Fields(Parts(r));
    assert TextValid(r, utf8);
    hide TextValid;
    hide Written;
    hide WordsIn;
    hide HeaderWords;
    hide Fields;
    hide TakeFields;
    hide WordsAdmitted;
    hide RequestIn;
    hide Count;
    hide AllNulFree;
  }

  lemma PartsOfRead(w: seq<nat>, values: seq<seq<byte>>)
    requires |w| == |WIDTHS| && |values| == Count(w)
    ensures Parts(RequestIn(w, values)) == values
    ensures |RequestIn(w, values).command| == w[COMMANDS] && |RequestIn(w, values).selected| == w[SELECTED]
    ensures |RequestIn(w, values).environment| == w[VARIABLES]
  {
    hide LimitsIn;
    var s, c := 2 + w[SELECTED], 2 + w[SELECTED] + w[COMMANDS];
    assert values == values[..2] + values[2..s] + values[s..c] + values[c..];
  }

  /** Admitted words are the ones the writer would produce: flags and absent values are canonical. */
  lemma WordsReproduced(w: seq<nat>, values: seq<seq<byte>>, total: nat)
    requires |w| == |WIDTHS| && WordsAdmitted(w, total) && |values| == Count(w)
    ensures HeaderWords(RequestIn(w, values), total) == w
  {
    PartsOfRead(w, values);
    hide Parts;
    hide Fields;
  }

  lemma FitLimits(w: seq<nat>, total: nat)
    requires |w| == |WIDTHS| && WordsAdmitted(w, total) && Fit(w, WIDTHS)
    ensures ValidLimits(LimitsIn(w)) && w[TOTAL] < Pow256(8)
    ensures w[COMMANDS] < Pow256(4) && w[SELECTED] < Pow256(4) && w[VARIABLES] < Pow256(4)
  {
    hide Pow256;
    assert w[SECONDS] < Pow256(WIDTHS[SECONDS]) && w[TRACE_BYTES] < Pow256(WIDTHS[TRACE_BYTES]);
    assert w[GRACE_SECONDS] < Pow256(WIDTHS[GRACE_SECONDS]) && w[TOTAL] < Pow256(WIDTHS[TOTAL]);
    assert w[COMMANDS] < Pow256(WIDTHS[COMMANDS]) && w[SELECTED] < Pow256(WIDTHS[SELECTED]);
    assert w[VARIABLES] < Pow256(WIDTHS[VARIABLES]);
  }

  lemma Rejoin(data: seq<byte>, from: nat, to: nat)
    requires from <= to <= |data|
    ensures data[from..][..to - from] == data[from..to]
    ensures data[..to] == data[..from] + data[from..to] && data == data[..to] + data[to..]
  {
  }

  lemma HeaderBytes(data: seq<byte>)
    requires |data| >= HEADER && data[..|MAGIC|] == MAGIC
    ensures Fit(WordsIn(data), WIDTHS) && MAGIC + EncodeAll(WordsIn(data), WIDTHS) == data[..HEADER]
  {
    HeaderSum();
    hide Sum;
    hide Fit;
    WordsCanonical(data[|MAGIC|..], WIDTHS);
    hide DecodeAll;
    hide EncodeAll;
    Rejoin(data, |MAGIC|, HEADER);
  }

  lemma RebuiltBytes(data: seq<byte>, r: Request, words: seq<nat>, values: seq<seq<byte>>)
    requires |data| >= HEADER && |words| == |WIDTHS|
    requires HeaderWords(r, |data|) == words && Parts(r) == values
    requires MAGIC + EncodeAll(words, WIDTHS) == data[..HEADER] && Fields(values) == data[HEADER..]
    ensures Total(r) == |data| && Written(r) == data
  {
    hide HeaderWords;
    hide Parts;
    hide EncodeAll;
    hide Fields;
    Rejoin(data, 0, HEADER);
    assert Total(r) == |data|;
    assert Written(r) == data[..HEADER] + data[HEADER..];
  }

  /** Every accepted frame is exactly what the writer produces for the request it holds. */
  lemma AcceptedIsCanonical(data: seq<byte>, utf8: seq<byte> -> bool)
    requires Read(data, utf8).Some?
    ensures var r := Read(data, utf8).value; Valid(r, utf8) && r.command != [] && Written(r) == data
  {
    hide WordsIn;
    hide TakeFields;
    hide Fields;
    hide Parts;
    hide EncodeAll;
    hide HeaderWords;
    hide Pow256;
    hide AllNulFree;
    hide TextValid;
    hide ValidLimits;
    hide Fit;
    hide Written;
    hide Total;
    var w := WordsIn(data);
    var (values, rest) := TakeFields(data[HEADER..], Count(w)).value;
    var r := RequestIn(w, values);
    HeaderBytes(data);
    FieldsCanonical(data[HEADER..], Count(w));
    assert Fields(values) + [] == Fields(values);
    PartsOfRead(w, values);
    WordsReproduced(w, values, |data|);
    FitLimits(w, |data|);
    RebuiltBytes(data, r, w, values);
  }

  lemma {:induction false} DecodePrefix(data: seq<byte>, more: seq<byte>, widths: seq<nat>)
    requires Sum(widths) <= |data|
    ensures DecodeAll(data + more, widths) == DecodeAll(data, widths)
    decreases |widths|
  {
    if widths != [] {
      DecodePrefix(data[widths[0]..], more, widths[1..]);
      assert (data + more)[widths[0]..] == data[widths[0]..] + more;
      assert (data + more)[..widths[0]] == data[..widths[0]];
    }
  }

  /** No accepted frame is a proper prefix or extension of another. */
  lemma AcceptedFramesDoNotExtend(data: seq<byte>, more: seq<byte>, utf8: seq<byte> -> bool)
    requires Read(data, utf8).Some? && Read(data + more, utf8).Some?
    ensures more == []
  {
    hide TakeFields;
    hide DecodeAll;
    hide Decode;
    HeaderSum();
    hide Sum;
    assert (data + more)[|MAGIC|..] == data[|MAGIC|..] + more;
    DecodePrefix(data[|MAGIC|..], more, WIDTHS);
    assert WordsIn(data + more) == WordsIn(data);
  }

  // ---------- the writer and reader, as they run ----------

  const WORD_MAX := 0x1_0000_0000_0000_0000

  predicate NoNul(parts: seq<seq<byte>>) { forall i :: 0 <= i < |parts| ==> NulFree(parts[i]) }

  /** What makes a request writable at all. */
  predicate Writable(r: Request, bound: nat) {
    && NoNul(Parts(r))
    && Total(r) <= bound && Total(r) < WORD_MAX
    && |r.command| < 0x1_0000_0000 && |r.selected| < 0x1_0000_0000 && |r.environment| < 0x1_0000_0000
  }

  lemma FieldsNext(values: seq<seq<byte>>, k: nat)
    requires k < |values|
    ensures Fields(values[..k + 1]) == Fields(values[..k]) + Field(values[k])
  {
    hide Encode;
    assert values[..k + 1] == values[..k] + [values[k]];
    FieldsAppend(values[..k], [values[k]]);
    assert Fields([values[k]]) == Field(values[k]) + [];
  }

  /** Sum the frame length, refusing a NUL on the way. */
  method CheckedTotal(parts: seq<seq<byte>>) returns (total: Option<nat>)
    ensures total == (if NoNul(parts) then Some(HEADER + |Fields(parts)|) else None)
  {
    hide Encode;
    hide Fields;
    hide NulFree;
    NoFields();
    var sum := HEADER;
    var k := 0;
    while k < |parts|
      invariant 0 <= k <= |parts| && sum == HEADER + |Fields(parts[..k])|
      invariant forall i :: 0 <= i < k ==> NulFree(parts[i])
    {
      if !NulFree(parts[k]) { return None; }
      FieldsNext(parts, k);
      sum := sum + LENGTH + |parts[k]|;
      k := k + 1;
    }
    assert parts[..k] == parts;
    total := Some(sum);
  }

  lemma NoFields()
    ensures Fields([]) == []
  {
  }

  /** Write every part behind its length. */
  method WriteFields(header: seq<byte>, parts: seq<seq<byte>>) returns (bytes: seq<byte>)
    ensures bytes == header + Fields(parts)
  {
    hide Encode;
    hide Fields;
    NoFields();
    bytes := header;
    var k := 0;
    while k < |parts|
      invariant 0 <= k <= |parts| && bytes == header + Fields(parts[..k])
    {
      FieldsNext(parts, k);
      bytes := bytes + Encode(|parts[k]|, LENGTH);
      bytes := bytes + parts[k];
      assert bytes == header + (Fields(parts[..k]) + Field(parts[k]));
      k := k + 1;
    }
    assert parts[..k] == parts;
  }

  /** Check every part and the budget before writing anything, then write header and fields. */
  method WriteRequest(r: Request, bound: nat) returns (output: Option<seq<byte>>)
    ensures output == (if Writable(r, bound) then Some(Written(r)) else None)
  {
    hide HeaderWords;
    hide EncodeAll;
    hide Parts;
    hide Fields;
    hide NoNul;
    var total := CheckedTotal(Parts(r));
    if total.None? { return None; }
    assert total.value == Total(r);
    if total.value > bound || total.value >= WORD_MAX { return None; }
    if |r.command| >= 0x1_0000_0000 || |r.selected| >= 0x1_0000_0000 || |r.environment| >= 0x1_0000_0000 { return None; }
    var header := MAGIC + EncodeAll(HeaderWords(r, total.value), WIDTHS);
    var bytes := WriteFields(header, Parts(r));
    assert bytes == Written(r);
    output := Some(bytes);
  }

  /** Fields read so far and fields still to come make up the whole. */
  ghost predicate Resumes(data: seq<byte>, count: nat, values: seq<seq<byte>>, rest: seq<byte>)
    requires |values| <= count
  {
    TakeFields(data, count) ==
    (match TakeFields(rest, count - |values|)
     case None => None
     case Some((more, left)) => Some((values + more, left)))
  }

  lemma ResumesNext(data: seq<byte>, count: nat, values: seq<seq<byte>>, rest: seq<byte>)
    requires |values| < count && Resumes(data, count, values, rest)
    ensures |rest| < LENGTH || Decode(rest[..LENGTH]) > |rest| - LENGTH ==> TakeFields(data, count).None?
    ensures |rest| >= LENGTH && Decode(rest[..LENGTH]) <= |rest| - LENGTH ==>
              var n := Decode(rest[..LENGTH]);
              if NulFree(rest[LENGTH..LENGTH + n])
              then Resumes(data, count, values + [rest[LENGTH..LENGTH + n]], rest[LENGTH + n..])
              else TakeFields(data, count).None?
  {
    hide Decode;
    hide NulFree;
    if |rest| >= LENGTH && Decode(rest[..LENGTH]) <= |rest| - LENGTH {
      var n := Decode(rest[..LENGTH]);
      match TakeFields(rest[LENGTH + n..], count - |values| - 1)
      case None =>
      case Some((more, left)) =>
        assert values + ([rest[LENGTH..LENGTH + n]] + more) == values + [rest[LENGTH..LENGTH + n]] + more;
    }
  }

  /** Read one field from the stream, charging its length and then its bytes to the budget. */
  method ReadField(input: seq<byte>, remaining: nat) returns (value: Option<seq<byte>>, rest: seq<byte>, left: nat)
    requires remaining == |input|
    ensures left == |rest|
    ensures value.None? <==>
              |input| < LENGTH || Decode(input[..LENGTH]) > |input| - LENGTH ||
              !NulFree(input[LENGTH..LENGTH + Decode(input[..LENGTH])])
    ensures value.Some? ==>
              value.value == input[LENGTH..LENGTH + Decode(input[..LENGTH])] &&
              rest == input[LENGTH + Decode(input[..LENGTH])..]
  {
    hide Decode;
    hide NulFree;
    rest, left := input, remaining;
    if left < LENGTH { return None, rest, left; }
    var length := Decode(rest[..LENGTH]);
    rest, left := rest[LENGTH..], left - LENGTH;
    if length > left { return None, rest, left; }
    var bytes := rest[..length];
    rest, left := rest[length..], left - length;
    assert bytes == input[LENGTH..LENGTH + length] && rest == input[LENGTH + length..];
    value := if NulFree(bytes) then Some(bytes) else None;
  }

  /** Read every counted field; the budget is what is left of the stream and never underflows. */
  method ReadFields(data: seq<byte>, count: nat) returns (r: Option<seq<seq<byte>>>, left: nat)
    ensures r.None? <==> TakeFields(data, count).None?
    ensures r.Some? ==> r.value == TakeFields(data, count).value.0 && left == |TakeFields(data, count).value.1|
  {
    hide Decode;
    hide NulFree;
    hide Resumes;
    var values: seq<seq<byte>> := [];
    var rest := data;
    left := |data|;
    StartsWhole(data, count);
    while |values| < count
      invariant |values| <= count && left == |rest|
      invariant Resumes(data, count, values, rest)
      decreases count - |values|
    {
      ResumesNext(data, count, values, rest);
      var value;
      value, rest, left := ReadField(rest, left);
      if value.None? { return None, left; }
      values := values + [value.value];
    }
    AllRead(data, count, values, rest);
    r := Some(values);
  }

  lemma AllRead(data: seq<byte>, count: nat, values: seq<seq<byte>>, rest: seq<byte>)
    requires |values| == count && Resumes(data, count, values, rest)
    ensures TakeFields(data, count) == Some((values, rest))
  {
    assert values + [] == values;
  }

  lemma StartsWhole(data: seq<byte>, count: nat)
    ensures Resumes(data, count, [], data)
  {
    match TakeFields(data, count)
    case None =>
    case Some((more, left)) => assert [] + more == more;
  }

  /** Decode a sealed frame within its budget. */
  method ReadRequest(data: seq<byte>, bound: nat, utf8: seq<byte> -> bool) returns (r: Option<Request>)
    ensures r == (if |data| <= bound then Read(data, utf8) else None)
  {
    hide TakeFields;
    hide DecodeAll;
    if |data| < HEADER || |data| > bound { return None; }
    if data[..|MAGIC|] != MAGIC { return None; }
    var w := WordsIn(data);
    if !WordsAdmitted(w, |data|) { return None; }
    var fields, left := ReadFields(data[HEADER..], Count(w));
    if fields.None? || left != 0 { return None; }
    var request := RequestIn(w, fields.value);
    if !TextValid(request, utf8) { return None; }
    r := Some(request);
  }

  // ---------- the kernel-derived budget ----------

  function Factor(pointer: nat): nat
    requires pointer > 0
  {
    (LENGTH + pointer - 1) / pointer + 1
  }

  /** Absent when the kernel values are unusable or the product does not fit a machine word. */
  function RequestBound(argMax: nat, pointer: nat): Option<nat> {
    if argMax == 0 || pointer == 0 then None
    else
      var bound := argMax * Factor(pointer) + HEADER + 2 * LENGTH + ROOT_SUFFIX;
      if bound >= WORD_MAX then None else Some(bound)
  }

  /** What the kernel charged for the strings of the invoking image. */
  function Charged(values: seq<seq<byte>>, pointer: nat): nat {
    if values == [] then 0 else |values[0]| + 1 + pointer + Charged(values[1..], pointer)
  }

  lemma {:induction false} ChargeCovers(values: seq<seq<byte>>, pointer: nat, times: nat)
    requires times >= 1 && times * pointer >= LENGTH
    ensures |Fields(values)| <= times * Charged(values, pointer)
  {
    hide Encode;
    if values != [] {
      ChargeCovers(values[1..], pointer, times);
      var size, rest := |values[0]|, Charged(values[1..], pointer);
      Spread(times, size, pointer, rest);
    }
  }

  lemma Spread(times: nat, size: nat, pointer: nat, rest: nat)
    requires times >= 1 && times * pointer >= LENGTH
    ensures LENGTH + size + times * rest <= times * (size + 1 + pointer + rest)
  {
    assert times * (size + 1 + pointer + rest) == times * size + times + times * pointer + times * rest;
    assert times * size >= size;
  }

  lemma RoundedUp(pointer: nat)
    requires pointer > 0
    ensures Factor(pointer) >= 2 && (Factor(pointer) - 1) * pointer >= LENGTH
  {
    var n := LENGTH + pointer - 1;
    assert n == n / pointer * pointer + n % pointer;
  }

  /** The budget always suffices: if name, selectors, command and environment were passed through the
      kernel and the root is at most one such string with the default suffix, the frame fits. */
  lemma BoundSuffices(r: Request, argMax: nat, pointer: nat)
    requires RequestBound(argMax, pointer).Some?
    requires Charged([r.name] + r.selected + r.command + r.environment, pointer) <= argMax
    requires |r.root| <= argMax + ROOT_SUFFIX
    ensures Total(r) <= RequestBound(argMax, pointer).value
  {
    hide Encode;
    var others := [r.name] + r.selected + r.command + r.environment;
    var times := Factor(pointer) - 1;
    RoundedUp(pointer);
    ChargeCovers(others, pointer, times);
    assert Parts(r)[1..] == others && Parts(r)[0] == r.root;
    assert |Fields(Parts(r))| == LENGTH + |r.root| + |Fields(others)|;
    Monotone(times, Charged(others, pointer), argMax);
    assert argMax * Factor(pointer) == times * argMax + argMax;
  }

  lemma Monotone(times: nat, a: nat, b: nat)
    requires a <= b
    ensures times * a <= times * b
  {
  }
}
