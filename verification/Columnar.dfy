// The columnar part codec for event records (crates/ehdb-l0/src/columnar.rs).
//
// Text is handled as bytes with the UTF-8 test given; the execution bloom is an opaque byte
// string with its own parser given.

/** Unsigned LEB128 (section 7.6 of DWARF 5) for 64-bit values. */
module Leb128 {
  import opened Basics
  import opened Bytes
  import opened Powers

  datatype VarintError = Truncated | Overflow

  function Varint(v: nat): seq<byte> {
    if v < 128 then [v as byte] else [(128 + v % 128) as byte] + Varint(v / 128)
  }

  /** Seven more bits at `shift`; bits shifted past 64 are lost, as in a `u64`. The bits are
      disjoint from those already read, so adding them is or-ing them in. */
  function Or(acc: nat, b: byte, shift: nat): nat { acc + (b as nat % 128) * Pow2(shift) % U64_SPAN }

  /** Value and remaining bytes. */
  function Read(bytes: seq<byte>, shift: nat, acc: nat): Result<(nat, seq<byte>), VarintError>
    decreases |bytes|
  {
    if bytes == [] then Err(Truncated)
    else
      var acc' := Or(acc, bytes[0], shift);
      if bytes[0] < 128 then Ok((acc', bytes[1..]))
      else if shift + 7 >= 64 then Err(Overflow)
      else Read(bytes[1..], shift + 7, acc')
  }

  // --- the loops -------------------------------------------------------------------------------

  method WriteUvarint(v: nat) returns (out: seq<byte>)
    ensures out == Varint(v)
  {
    out := [];
    var left := v;
    while true
      invariant Varint(v) == out + Varint(left)
      decreases left
    {
      var low := left % 128;
      var high := left / 128;
      if high == 0 {
        out := out + [low as byte];
        return;
      }
      out := out + [(128 + low) as byte];
      left := high;
    }
  }

  method ReadUvarint(bytes: seq<byte>, start: nat) returns (r: Result<nat, VarintError>, pos: nat)
    requires start <= |bytes|
    ensures pos <= |bytes|
    ensures Read(bytes[start..], 0, 0) == if r.Ok? then Ok((r.value, bytes[pos..])) else Err(r.error)
  {
    var result, shift := 0, 0;
    pos := start;
    while true
      invariant start <= pos <= |bytes|
      invariant Read(bytes[start..], 0, 0) == Read(bytes[pos..], shift, result)
      decreases |bytes| - pos
    {
      if pos == |bytes| { return Err(Truncated), pos; }
      var b := bytes[pos];
      pos := pos + 1;
      result := Or(result, b, shift);
      if b < 128 { return Ok(result), pos; }
      if shift + 7 >= 64 { return Err(Overflow), pos; }
      shift := shift + 7;
    }
  }

  // --- the round trip -----------------------------------------------------------------------------

  /** A value that fits above `shift` is stored there whole. */
  lemma {:induction false} FitsAbove(v: nat, shift: nat)
    requires shift <= 64 && v < Pow2(64 - shift)
    ensures v * Pow2(shift) < U64_SPAN
  {
    var p, q := Pow2(64 - shift), Pow2(shift);
    assert p * q == U64_SPAN by {
      Pow2Add(64 - shift, shift);
      Pow2Facts();
    }
  }

  lemma {:induction false} ShiftLeaves(v: nat, shift: nat)
    requires shift < 64 && v < Pow2(64 - shift) && v >= 128
    ensures shift + 7 < 64 && v / 128 < Pow2(64 - shift - 7)
  {
    if 64 - shift <= 7 { Pow2Monotone(64 - shift, 7); }
    Pow2Add(7, 64 - shift - 7);
  }

  lemma {:induction false} OrIs(acc: nat, b: byte, shift: nat, d: nat)
    requires b as nat % 128 == d && d * Pow2(shift) < U64_SPAN
    ensures Or(acc, b, shift) == acc + d * Pow2(shift)
  { }

  lemma {:induction false} ReadLast(v: nat, rest: seq<byte>, shift: nat, acc: nat)
    requires v < 128 && v * Pow2(shift) < U64_SPAN
    ensures Read(Varint(v) + rest, shift, acc) == Ok((acc + v * Pow2(shift), rest))
  { }

  lemma {:induction false} ReadNext(v: nat, rest: seq<byte>, shift: nat, acc: nat)
    requires v >= 128 && shift + 7 < 64 && (v % 128) * Pow2(shift) < U64_SPAN
    ensures Read(Varint(v) + rest, shift, acc) ==
            Read(Varint(v / 128) + rest, shift + 7, acc + (v % 128) * Pow2(shift))
  {
    var b := (128 + v % 128) as byte;
    var bytes := Varint(v) + rest;
    assert bytes[0] == b && bytes[1..] == Varint(v / 128) + rest;
    OrIs(acc, b, shift, v % 128);
  }

  lemma {:induction false} LowPartSmaller(v: nat, q: nat)
    ensures (v % 128) * q <= v * q
  { }

  /** Low seven bits and the rest, each at its place, make up the value. */
  lemma {:induction false} Recombined(v: nat, shift: nat)
    ensures (v % 128) * Pow2(shift) + (v / 128) * Pow2(shift + 7) == v * Pow2(shift)
  {
    Pow2Add(7, shift);
  }

  lemma {:induction false} ReadsVarint(v: nat, rest: seq<byte>, shift: nat, acc: nat)
    requires shift < 64 && v < Pow2(64 - shift)
    ensures Read(Varint(v) + rest, shift, acc) == Ok((acc + v * Pow2(shift), rest))
    decreases v
  {
    FitsAbove(v, shift);
    if v < 128 {
      ReadLast(v, rest, shift, acc);
    } else {
      ShiftLeaves(v, shift);
      LowPartSmaller(v, Pow2(shift));
      ReadNext(v, rest, shift, acc);
      var low, high := (v % 128) * Pow2(shift), (v / 128) * Pow2(shift + 7);
      assert low + high == v * Pow2(shift) by { Recombined(v, shift); }
      ReadsVarint(v / 128, rest, shift + 7, acc + low);
    }
  }

  lemma {:induction false} SmallMod(n: nat)
    requires n < U64_SPAN
    ensures n % U64_SPAN == n
  { }

  /** Every `u64` reads back, whatever follows it. */
  lemma {:induction false} VarintRoundTrip(v: nat, rest: seq<byte>)
    requires v <= U64_MAX
    ensures Read(Varint(v) + rest, 0, 0) == Ok((v, rest))
  {
    Pow2Facts();
    ReadsVarint(v, rest, 0, 0);
  }

  // --- what is refused ------------------------------------------------------------------------------

  ghost predicate Continue(bytes: seq<byte>, n: nat) { n <= |bytes| && forall i | 0 <= i < n :: bytes[i] >= 128 }

  lemma {:induction false} ReadErrs(bytes: seq<byte>, j: nat, acc: nat)
    requires j < 10
    ensures Read(bytes, 7 * j, acc) == Err(Truncated) <==> |bytes| < 10 - j && Continue(bytes, |bytes|)
    ensures Read(bytes, 7 * j, acc) == Err(Overflow) <==> Continue(bytes, 10 - j)
    decreases |bytes|
  {
    if bytes != [] && bytes[0] >= 128 && j < 9 {
      ReadErrs(bytes[1..], j + 1, Or(acc, bytes[0], 7 * j));
      ContinueTail(bytes, 10 - j);
      ContinueTail(bytes, |bytes|);
    }
  }

  lemma {:induction false} ContinueTail(bytes: seq<byte>, n: nat)
    requires bytes != [] && bytes[0] >= 128 && n > 0
    ensures Continue(bytes, n) <==> Continue(bytes[1..], n - 1)
  {
    if Continue(bytes[1..], n - 1) {
      forall i | 0 <= i < n ensures bytes[i] >= 128 { if i > 0 { assert bytes[i] == bytes[1..][i - 1]; } }
    }
  }

  /** A varint is refused exactly when its last byte is missing or it goes on past the tenth. */
  lemma {:induction false} VarintRefusedIff(bytes: seq<byte>)
    ensures Read(bytes, 0, 0) == Err(Truncated) <==> |bytes| < 10 && Continue(bytes, |bytes|)
    ensures Read(bytes, 0, 0) == Err(Overflow) <==> Continue(bytes, 10)
  {
    ReadErrs(bytes, 0, 0);
  }
}

module Columnar {
  import opened Basics
  import opened Bytes
  import opened Leb128

  const COLUMNAR_MAGIC: nat := 0xE5DB_C010
  const COLUMNAR_VERSION: nat := 1
  const FIXED_HEADER_LEN: nat := 82

  type Text = seq<byte>

  datatype EventRecord = EventRecord(
    sequence: nat, execution: Text, transaction: Text, payload: Text,
    eventId: Option<Text>, commitHlc: Option<nat>)

  datatype Field = GlobalSequence | ExecutionId | TransactionId | Payload

  function Index(f: Field): nat {
    match f
    case GlobalSequence => 0
    case ExecutionId => 1
    case TransactionId => 2
    case Payload => 3
  }

  datatype Column = Sequences(values: seq<nat>) | Strings(texts: seq<Text>)

  datatype ColumnarError =
    | TruncatedHeader | BadMagic | BadVersion | TruncatedBloom | BadBloom
    | SpanOutOfRange | BadVarint(why: VarintError) | TruncatedStrings | NotUtf8

  type Decoded<T> = Result<T, ColumnarError>

  /** What the codec takes from elsewhere: the UTF-8 test, and the bloom's bytes and parser. */
  datatype Env = Env(utf8: Text -> bool, bloomOf: seq<EventRecord> -> seq<byte>, bloomOk: seq<byte> -> bool)

  // --- the sequence column -------------------------------------------------------------------------

  ghost predicate Rises(seqs: seq<nat>, prev: nat) {
    seqs != [] ==> prev <= seqs[0] <= U64_MAX && Rises(seqs[1..], seqs[0])
  }

  function SeqColumn(seqs: seq<nat>, prev: nat): seq<byte>
    requires Rises(seqs, prev)
  {
    if seqs == [] then [] else Varint(seqs[0] - prev) + SeqColumn(seqs[1..], seqs[0])
  }

  function ReadSeqs(bytes: seq<byte>, count: nat, acc: nat): (r: Decoded<seq<nat>>)
    ensures r.Ok? ==> |r.value| == count
    decreases count
  {
    if count == 0 then Ok([])
    else match Read(bytes, 0, 0)
      case Err(e) => Err(BadVarint(e))
      case Ok((delta, rest)) =>
        var next := (acc + delta) % U64_SPAN;
        match ReadSeqs(rest, count - 1, next)
        case Err(e) => Err(e)
        case Ok(more) => Ok([next] + more)
  }

  lemma {:induction false} SeqsRoundTrip(seqs: seq<nat>, prev: nat, rest: seq<byte>)
    requires Rises(seqs, prev)
    ensures ReadSeqs(SeqColumn(seqs, prev) + rest, |seqs|, prev) == Ok(seqs)
    decreases |seqs|
  {
    if seqs != [] {
      SeqsRoundTrip(seqs[1..], seqs[0], rest);
      ReadsOneSeq(seqs[0], prev, SeqColumn(seqs[1..], seqs[0]) + rest, seqs[1..]);
      SeqColumnFirst(seqs, prev, rest);
      assert seqs == [seqs[0]] + seqs[1..];
    }
  }

  lemma {:induction false} SeqColumnFirst(seqs: seq<nat>, prev: nat, rest: seq<byte>)
    requires seqs != [] && Rises(seqs, prev)
    ensures SeqColumn(seqs, prev) + rest == Varint(seqs[0] - prev) + (SeqColumn(seqs[1..], seqs[0]) + rest)
  { }

  lemma {:induction false} ReadsOneSeq(n: nat, prev: nat, more: seq<byte>, rest: seq<nat>)
    requires prev <= n <= U64_MAX && ReadSeqs(more, |rest|, n) == Ok(rest)
    ensures ReadSeqs(Varint(n - prev) + more, |rest| + 1, prev) == Ok([n] + rest)
  {
    VarintRoundTrip(n - prev, more);
    SmallMod(n);
  }

  method EncodeSeqColumn(seqs: seq<nat>) returns (out: seq<byte>)
    requires Rises(seqs, 0)
    ensures out == SeqColumn(seqs, 0)
  {
    out := [];
    var prev: nat := 0;
    for i := 0 to |seqs|
      invariant Rises(seqs[i..], prev)
      invariant SeqColumn(seqs, 0) == out + SeqColumn(seqs[i..], prev)
    {
      assert seqs[i..][0] == seqs[i] && seqs[i..][1..] == seqs[i + 1..];
      var delta := WriteUvarint(seqs[i] - prev);
      assert out + (delta + SeqColumn(seqs[i + 1..], seqs[i])) == out + delta + SeqColumn(seqs[i + 1..], seqs[i]);
      out := out + delta;
      prev := seqs[i];
    }
  }

  ghost function After<T>(done: seq<T>, rest: Decoded<seq<T>>): Decoded<seq<T>> {
    if rest.Ok? then Ok(done + rest.value) else rest
  }

  lemma {:induction false} AfterOne<T>(done: seq<T>, x: T, rest: Decoded<seq<T>>)
    ensures After(done, After([x], rest)) == After(done + [x], rest)
  {
    if rest.Ok? { assert done + ([x] + rest.value) == done + [x] + rest.value; }
  }

  method DecodeSeqColumn(bytes: seq<byte>, count: nat) returns (r: Decoded<seq<nat>>)
    ensures r == ReadSeqs(bytes, count, 0)
  {
    var pos, acc := 0, 0;
    var out: seq<nat> := [];
    ghost var whole := ReadSeqs(bytes, count, 0);
    assert bytes[0..] == bytes && (whole.Ok? ==> [] + whole.value == whole.value);
    for i := 0 to count
      invariant 0 <= pos <= |bytes| && acc >= 0
      invariant whole == After(out, ReadSeqs(bytes[pos..], count - i, acc))
    {
      ghost var left := bytes[pos..];
      var delta, next := ReadUvarint(bytes, pos);
      if delta.Err? { return Err(BadVarint(delta.error)); }
      acc := (acc + delta.value) % U64_SPAN;
      AfterOne(out, acc, ReadSeqs(bytes[next..], count - i - 1, acc));
      out := out + [acc];
      pos := next;
    }
    assert out + [] == out;
    return Ok(out);
  }

  // --- a text column ---------------------------------------------------------------------------------

  function StrColumn(values: seq<Text>): seq<byte> {
    if values == [] then [] else Varint(|values[0]|) + values[0] + StrColumn(values[1..])
  }

  function ReadStrs(utf8: Text -> bool, bytes: seq<byte>, count: nat): (r: Decoded<seq<Text>>)
    ensures r.Ok? ==> |r.value| == count
    decreases count
  {
    if count == 0 then Ok([])
    else match Read(bytes, 0, 0)
      case Err(e) => Err(BadVarint(e))
      case Ok((len, rest)) =>
        if len > |rest| then Err(TruncatedStrings)
        else if !utf8(rest[..len]) then Err(NotUtf8)
        else match ReadStrs(utf8, rest[len..], count - 1)
          case Err(e) => Err(e)
          case Ok(more) => Ok([rest[..len]] + more)
  }

  ghost predicate Texts(utf8: Text -> bool, values: seq<Text>) {
    forall i | 0 <= i < |values| :: utf8(values[i]) && |values[i]| <= U64_MAX
  }

  lemma {:induction false} StrsRoundTrip(utf8: Text -> bool, values: seq<Text>, rest: seq<byte>)
    requires Texts(utf8, values)
    ensures ReadStrs(utf8, StrColumn(values) + rest, |values|) == Ok(values)
    decreases |values|
  {
    if values != [] {
      StrsRoundTrip(utf8, values[1..], rest);
      ReadsOneText(utf8, values[0], StrColumn(values[1..]) + rest, values[1..]);
      StrColumnFirst(values, rest);
      assert values == [values[0]] + values[1..];
    }
  }

  lemma {:induction false} StrColumnFirst(values: seq<Text>, rest: seq<byte>)
    requires values != []
    ensures StrColumn(values) + rest == Varint(|values[0]|) + (values[0] + (StrColumn(values[1..]) + rest))
  { }

  lemma {:induction false} ReadsOneText(utf8: Text -> bool, v: Text, more: seq<byte>, rest: seq<Text>)
    requires utf8(v) && |v| <= U64_MAX && ReadStrs(utf8, more, |rest|) == Ok(rest)
    ensures ReadStrs(utf8, Varint(|v|) + (v + more), |rest| + 1) == Ok([v] + rest)
  {
    VarintRoundTrip(|v|, v + more);
  }

  method EncodeStrColumn(values: seq<Text>) returns (out: seq<byte>)
    ensures out == StrColumn(values)
  {
    out := [];
    for i := 0 to |values|
      invariant StrColumn(values) == out + StrColumn(values[i..])
    {
      assert values[i..][0] == values[i] && values[i..][1..] == values[i + 1..];
      var len := WriteUvarint(|values[i]|);
      ghost var more := StrColumn(values[i + 1..]);
      assert out + (len + values[i] + more) == out + len + values[i] + more;
      out := out + len;
      out := out + values[i];
    }
  }

  lemma {:induction false} ReadsOneStr(utf8: Text -> bool, bytes: seq<byte>, pos: nat, len: nat, at: nat, n: nat)
    requires n > 0 && pos <= |bytes| && at + len <= |bytes| && utf8(bytes[at..at + len])
    requires Read(bytes[pos..], 0, 0) == Ok((len, bytes[at..]))
    ensures ReadStrs(utf8, bytes[pos..], n) ==
            After([bytes[at..at + len]], ReadStrs(utf8, bytes[at + len..], n - 1))
  {
    assert bytes[at..][..len] == bytes[at..at + len] && bytes[at..][len..] == bytes[at + len..];
  }

  method DecodeStrColumn(utf8: Text -> bool, bytes: seq<byte>, count: nat) returns (r: Decoded<seq<Text>>)
    ensures r == ReadStrs(utf8, bytes, count)
  {
    var pos := 0;
    var out: seq<Text> := [];
    ghost var whole := ReadStrs(utf8, bytes, count);
    assert bytes[0..] == bytes && (whole.Ok? ==> [] + whole.value == whole.value);
    for i := 0 to count
      invariant 0 <= pos <= |bytes|
      invariant whole == After(out, ReadStrs(utf8, bytes[pos..], count - i))
    {
      var len, at := ReadUvarint(bytes, pos);
      if len.Err? { return Err(BadVarint(len.error)); }
      var end := at + len.value;
      if end > |bytes| { return Err(TruncatedStrings); }
      var text := bytes[at..end];
      assert bytes[at..][..len.value] == text;
      if !utf8(text) { return Err(NotUtf8); }
      ReadsOneStr(utf8, bytes, pos, len.value, at, count - i);
      AfterOne(out, text, ReadStrs(utf8, bytes[end..], count - i - 1));
      out := out + [text];
      pos := end;
    }
    assert out + [] == out;
    return Ok(out);
  }

  // --- the header --------------------------------------------------------------------------------------

  /** Magic, version, record count, offset and length of four columns, bloom length. */
  const WIDTHS: seq<nat> := [4, 2, 8, 8, 8, 8, 8, 8, 8, 8, 8, 4]

  function TotalWidth(widths: seq<nat>): nat {
    if widths == [] then 0 else widths[0] + TotalWidth(widths[1..])
  }

  function PackFields(values: seq<nat>, widths: seq<nat>): (b: seq<byte>)
    requires |values| == |widths|
    ensures |b| == TotalWidth(widths)
  {
    if values == [] then [] else LeBytes(values[0], widths[0]) + PackFields(values[1..], widths[1..])
  }

  function UnpackFields(bytes: seq<byte>, widths: seq<nat>): (v: seq<nat>)
    requires |bytes| >= TotalWidth(widths)
    ensures |v| == |widths|
  {
    if widths == [] then []
    else [LeValue(bytes[..widths[0]])] + UnpackFields(bytes[widths[0]..], widths[1..])
  }

  ghost predicate FieldsFit(values: seq<nat>, widths: seq<nat>)
    requires |values| == |widths|
  {
    forall i | 0 <= i < |values| :: values[i] < Pow256(widths[i])
  }

  lemma {:induction false} FieldsRoundTrip(values: seq<nat>, widths: seq<nat>, rest: seq<byte>)
    requires |values| == |widths| && FieldsFit(values, widths)
    ensures UnpackFields(PackFields(values, widths) + rest, widths) == values
    decreases |values|
  {
    if values != [] {
      FieldsRoundTrip(values[1..], widths[1..], rest);
      UnpackFirst(values, widths, rest);
    }
  }

  lemma {:induction false} UnpackFirst(values: seq<nat>, widths: seq<nat>, rest: seq<byte>)
    requires |values| == |widths| > 0 && values[0] < Pow256(widths[0])
    ensures UnpackFields(PackFields(values, widths) + rest, widths) ==
            [values[0]] + UnpackFields(PackFields(values[1..], widths[1..]) + rest, widths[1..])
  {
    FirstField(values, widths, rest);
    LeRoundTrip(values[0], widths[0]);
  }

  lemma {:induction false} FirstField(values: seq<nat>, widths: seq<nat>, rest: seq<byte>)
    requires |values| == |widths| > 0
    ensures var bytes := PackFields(values, widths) + rest;
            && bytes[..widths[0]] == LeBytes(values[0], widths[0])
            && bytes[widths[0]..] == PackFields(values[1..], widths[1..]) + rest
  { }

  lemma {:induction false} WidthOfHeader()
    ensures TotalWidth(WIDTHS) == FIXED_HEADER_LEN
  { }

  datatype ColumnSpan = ColumnSpan(offset: nat, len: nat)

  datatype ColumnarHeader = ColumnarHeader(count: nat, columns: seq<ColumnSpan>, bloom: seq<byte>)

  /** The fixed fields read off the front of a part. */
  function HeaderFields(bytes: seq<byte>): (v: seq<nat>)
    requires |bytes| >= FIXED_HEADER_LEN
    ensures |v| == 12
  {
    WidthOfHeader();
    UnpackFields(bytes, WIDTHS)
  }

  function DecodeHeader(env: Env, bytes: seq<byte>): (r: Decoded<ColumnarHeader>)
    ensures r.Ok? ==> |r.value.columns| == 4
  {
    if |bytes| < FIXED_HEADER_LEN then Err(TruncatedHeader) else HeaderOf(env, HeaderFields(bytes), bytes)
  }

  /** The header with fields `v`, its bloom taken from behind them. */
  function HeaderOf(env: Env, v: seq<nat>, bytes: seq<byte>): (r: Decoded<ColumnarHeader>)
    requires |v| == 12
    ensures r.Ok? ==> |r.value.columns| == 4
  {
    if v[0] != COLUMNAR_MAGIC then Err(BadMagic)
    else if v[1] != COLUMNAR_VERSION then Err(BadVersion)
    else if FIXED_HEADER_LEN + v[11] > |bytes| then Err(TruncatedBloom)
    else
      var bloom := bytes[FIXED_HEADER_LEN..FIXED_HEADER_LEN + v[11]];
      if !env.bloomOk(bloom) then Err(BadBloom)
      else
        Ok(ColumnarHeader(
          v[2],
          [ColumnSpan(v[3], v[4]), ColumnSpan(v[5], v[6]), ColumnSpan(v[7], v[8]), ColumnSpan(v[9], v[10])],
          bloom))
  }

  function Slice(bytes: seq<byte>, span: ColumnSpan): Decoded<seq<byte>> {
    if span.offset + span.len > |bytes| then Err(SpanOutOfRange)
    else Ok(bytes[span.offset..span.offset + span.len])
  }

  function ReadSeqColumn(bytes: seq<byte>, h: ColumnarHeader): (r: Decoded<seq<nat>>)
    requires |h.columns| == 4
    ensures r.Ok? ==> |r.value| == h.count
  {
    match Slice(bytes, h.columns[Index(GlobalSequence)])
    case Err(e) => Err(e)
    case Ok(col) => ReadSeqs(col, h.count, 0)
  }

  function ReadStrColumn(env: Env, bytes: seq<byte>, h: ColumnarHeader, f: Field): (r: Decoded<seq<Text>>)
    requires |h.columns| == 4
    ensures r.Ok? ==> |r.value| == h.count
  {
    match Slice(bytes, h.columns[Index(f)])
    case Err(e) => Err(e)
    case Ok(col) => ReadStrs(env.utf8, col, h.count)
  }

  function ProjectColumn(env: Env, bytes: seq<byte>, f: Field): Decoded<Column> {
    match DecodeHeader(env, bytes)
    case Err(e) => Err(e)
    case Ok(h) =>
      if f == GlobalSequence then
        match ReadSeqColumn(bytes, h) case Err(e) => Err(e) case Ok(vs) => Ok(Sequences(vs))
      else
        match ReadStrColumn(env, bytes, h, f) case Err(e) => Err(e) case Ok(vs) => Ok(Strings(vs))
  }

  function Rows(seqs: seq<nat>, execs: seq<Text>, txns: seq<Text>, payloads: seq<Text>): seq<EventRecord>
    requires |seqs| == |execs| == |txns| == |payloads|
  {
    seq(|seqs|, i requires 0 <= i < |seqs| => EventRecord(seqs[i], execs[i], txns[i], payloads[i], None, None))
  }

  function DecodeColumnar(env: Env, bytes: seq<byte>): Decoded<seq<EventRecord>> {
    match DecodeHeader(env, bytes)
    case Err(e) => Err(e)
    case Ok(h) =>
      match ReadSeqColumn(bytes, h) case Err(e) => Err(e) case Ok(seqs) =>
      match ReadStrColumn(env, bytes, h, ExecutionId) case Err(e) => Err(e) case Ok(execs) =>
      match ReadStrColumn(env, bytes, h, TransactionId) case Err(e) => Err(e) case Ok(txns) =>
      match ReadStrColumn(env, bytes, h, Payload) case Err(e) => Err(e) case Ok(payloads) =>
      Ok(Rows(seqs, execs, txns, payloads))
  }

  // --- projection agrees with full decoding -----------------------------------------------------------

  function Seqs(rs: seq<EventRecord>): seq<nat> { seq(|rs|, i requires 0 <= i < |rs| => rs[i].sequence) }

  function TextOf(r: EventRecord, f: Field): Text {
    if f == ExecutionId then r.execution else if f == TransactionId then r.transaction else r.payload
  }

  function TextsOf(rs: seq<EventRecord>, f: Field): seq<Text> { seq(|rs|, i requires 0 <= i < |rs| => TextOf(rs[i], f)) }

  function ColumnOf(rs: seq<EventRecord>, f: Field): Column {
    if f == GlobalSequence then Sequences(Seqs(rs)) else Strings(TextsOf(rs, f))
  }

  lemma {:induction false} RowsColumns(seqs: seq<nat>, execs: seq<Text>, txns: seq<Text>, payloads: seq<Text>)
    requires |seqs| == |execs| == |txns| == |payloads|
    ensures var rs := Rows(seqs, execs, txns, payloads);
            && Seqs(rs) == seqs && TextsOf(rs, ExecutionId) == execs
            && TextsOf(rs, TransactionId) == txns && TextsOf(rs, Payload) == payloads
  { }

  /** Whatever the bytes, if they decode then each projection is that field of the records. */
  lemma {:induction false} ProjectionAgrees(env: Env, bytes: seq<byte>, f: Field)
    ensures var r := DecodeColumnar(env, bytes);
            r.Ok? ==> ProjectColumn(env, bytes, f) == Ok(ColumnOf(r.value, f))
  {
    var r := DecodeColumnar(env, bytes);
    if r.Ok? {
      var h := DecodeHeader(env, bytes).value;
      RowsColumns(ReadSeqColumn(bytes, h).value, ReadStrColumn(env, bytes, h, ExecutionId).value,
                  ReadStrColumn(env, bytes, h, TransactionId).value, ReadStrColumn(env, bytes, h, Payload).value);
    }
  }

  // --- encoding ----------------------------------------------------------------------------------------

  /** The four column bodies in disk order, the payload last. */
  function Columns(rs: seq<EventRecord>): (c: seq<seq<byte>>)
    requires Rises(Seqs(rs), 0)
    ensures |c| == 4
  {
    [SeqColumn(Seqs(rs), 0), StrColumn(TextsOf(rs, ExecutionId)), StrColumn(TextsOf(rs, TransactionId)),
     StrColumn(TextsOf(rs, Payload))]
  }

  /** Spans laid end to end from `start`. */
  function SpansFrom(cols: seq<seq<byte>>, start: nat): (s: seq<ColumnSpan>)
    ensures |s| == |cols|
  {
    if cols == [] then [] else [ColumnSpan(start, |cols[0]|)] + SpansFrom(cols[1..], start + |cols[0]|)
  }

  function Joined(cols: seq<seq<byte>>): seq<byte> {
    if cols == [] then [] else cols[0] + Joined(cols[1..])
  }

  function FieldValues(count: nat, s: seq<ColumnSpan>, bloomLen: nat): (v: seq<nat>)
    requires |s| == 4
    ensures |v| == 12
  {
    [COLUMNAR_MAGIC, COLUMNAR_VERSION, count, s[0].offset, s[0].len, s[1].offset, s[1].len,
     s[2].offset, s[2].len, s[3].offset, s[3].len, bloomLen]
  }

  function Head(count: nat, s: seq<ColumnSpan>, bloom: seq<byte>): seq<byte>
    requires |s| == 4
  {
    PackFields(FieldValues(count, s, |bloom|), WIDTHS) + bloom
  }

  function EncodedFrom(cols: seq<seq<byte>>, count: nat, bloom: seq<byte>): seq<byte>
    requires |cols| == 4
  {
    Head(count, SpansFrom(cols, FIXED_HEADER_LEN + |bloom|), bloom) + Joined(cols)
  }

  function EncodeColumnar(env: Env, rs: seq<EventRecord>): seq<byte>
    requires Rises(Seqs(rs), 0)
  {
    EncodedFrom(Columns(rs), |rs|, env.bloomOf(rs))
  }

  // --- reading back what was encoded --------------------------------------------------------------------

  /** Column `i` lies where its span says, and nothing lies between columns. */
  lemma {:induction false} SlicesBack(head: seq<byte>, cols: seq<seq<byte>>, tail: seq<byte>, i: nat)
    requires i < |cols|
    ensures Slice(head + (Joined(cols) + tail), SpansFrom(cols, |head|)[i]) == Ok(cols[i])
    decreases |cols|
  {
    var bytes := head + (Joined(cols) + tail);
    var first, more := cols[0], Joined(cols[1..]) + tail;
    assert bytes == head + first + more;
    if i == 0 {
    } else {
      SlicesBack(head + first, cols[1..], tail, i - 1);
    }
  }

  lemma {:induction false} SpansBounded(cols: seq<seq<byte>>, start: nat, i: nat)
    requires i < |cols|
    ensures var s := SpansFrom(cols, start)[i];
            start <= s.offset && s.offset + s.len <= start + |Joined(cols)| && s.len == |cols[i]|
    decreases |cols|
  {
    if i > 0 { SpansBounded(cols[1..], start + |cols[0]|, i - 1); }
  }

  /** The spans tile the bytes behind the header: each starts where the last ended, the first
      right behind the bloom, and the last, the payload's, ends the part. */
  lemma {:induction false} SpansTile(cols: seq<seq<byte>>, start: nat, i: nat)
    requires i < |cols|
    ensures SpansFrom(cols, start)[0].offset == start
    ensures i + 1 < |cols| ==>
              SpansFrom(cols, start)[i + 1].offset == SpansFrom(cols, start)[i].offset + SpansFrom(cols, start)[i].len
    ensures i + 1 == |cols| ==>
              SpansFrom(cols, start)[i].offset + SpansFrom(cols, start)[i].len == start + |Joined(cols)|
    decreases |cols|
  {
    if i > 0 { SpansTile(cols[1..], start + |cols[0]|, i - 1); }
    else if |cols| > 1 { SpansTile(cols[1..], start + |cols[0]|, 0); }
  }

  lemma {:induction false} FieldsOfHeadFit(count: nat, s: seq<ColumnSpan>, bloomLen: nat)
    requires |s| == 4 && count < U64_SPAN && bloomLen < 0x1_0000_0000
    requires forall i | 0 <= i < 4 :: s[i].offset < U64_SPAN && s[i].len < U64_SPAN
    ensures FieldsFit(FieldValues(count, s, bloomLen), WIDTHS)
  { }

  lemma {:induction false} HeadReadsBack(env: Env, count: nat, s: seq<ColumnSpan>, bloom: seq<byte>, rest: seq<byte>)
    requires |s| == 4 && count < U64_SPAN && |bloom| < 0x1_0000_0000 && env.bloomOk(bloom)
    requires forall i | 0 <= i < 4 :: s[i].offset < U64_SPAN && s[i].len < U64_SPAN
    ensures DecodeHeader(env, Head(count, s, bloom) + rest) == Ok(ColumnarHeader(count, s, bloom))
  {
    var v := FieldValues(count, s, |bloom|);
    FieldsOfHeadFit(count, s, |bloom|);
    HeadFieldsBack(v, bloom, rest);
    DecodesFields(env, Head(count, s, bloom) + rest, count, s, bloom);
  }

  lemma {:induction false} HeadFieldsBack(v: seq<nat>, bloom: seq<byte>, rest: seq<byte>)
    requires |v| == 12 && FieldsFit(v, WIDTHS)
    ensures var bytes := PackFields(v, WIDTHS) + bloom + rest;
            && FIXED_HEADER_LEN + |bloom| <= |bytes| && HeaderFields(bytes) == v
            && bytes[FIXED_HEADER_LEN..FIXED_HEADER_LEN + |bloom|] == bloom
  {
    var fixed := PackFields(v, WIDTHS);
    FieldsRoundTrip(v, WIDTHS, bloom + rest);
    assert fixed + bloom + rest == fixed + (bloom + rest);
  }

  lemma {:induction false} DecodesFields(env: Env, bytes: seq<byte>, count: nat, s: seq<ColumnSpan>, bloom: seq<byte>)
    requires |s| == 4 && FIXED_HEADER_LEN + |bloom| <= |bytes| && env.bloomOk(bloom)
    requires HeaderFields(bytes) == FieldValues(count, s, |bloom|)
    requires bytes[FIXED_HEADER_LEN..FIXED_HEADER_LEN + |bloom|] == bloom
    ensures DecodeHeader(env, bytes) == Ok(ColumnarHeader(count, s, bloom))
  {
    var v := HeaderFields(bytes);
    assert s == [ColumnSpan(v[3], v[4]), ColumnSpan(v[5], v[6]), ColumnSpan(v[7], v[8]), ColumnSpan(v[9], v[10])];
  }

  /** What the encoder is given: ascending sequences, UTF-8 text, a bloom its parser accepts,
      and a part that can be addressed. */
  ghost predicate Encodable(env: Env, rs: seq<EventRecord>) {
    && Rises(Seqs(rs), 0)
    && Texts(env.utf8, TextsOf(rs, ExecutionId)) && Texts(env.utf8, TextsOf(rs, TransactionId))
    && Texts(env.utf8, TextsOf(rs, Payload))
    && env.bloomOk(env.bloomOf(rs)) && |env.bloomOf(rs)| < 0x1_0000_0000
    && |rs| < U64_SPAN && |EncodeColumnar(env, rs)| < U64_SPAN
  }

  lemma {:induction false} EncodedHeader(env: Env, rs: seq<EventRecord>)
    requires Encodable(env, rs)
    ensures var start := FIXED_HEADER_LEN + |env.bloomOf(rs)|;
            && DecodeHeader(env, EncodeColumnar(env, rs))
               == Ok(ColumnarHeader(|rs|, SpansFrom(Columns(rs), start), env.bloomOf(rs)))
            && |EncodeColumnar(env, rs)| == start + |Joined(Columns(rs))|
  {
    var cols, bloom := Columns(rs), env.bloomOf(rs);
    var s := SpansFrom(cols, FIXED_HEADER_LEN + |bloom|);
    forall i | 0 <= i < 4 ensures s[i].offset < U64_SPAN && s[i].len < U64_SPAN {
      SpansBounded(cols, FIXED_HEADER_LEN + |bloom|, i);
    }
    HeadReadsBack(env, |rs|, s, bloom, Joined(cols));
  }

  lemma {:induction false} HeadLen(count: nat, s: seq<ColumnSpan>, bloom: seq<byte>)
    requires |s| == 4
    ensures |Head(count, s, bloom)| == FIXED_HEADER_LEN + |bloom|
  { }

  lemma {:induction false} ColumnAt(cols: seq<seq<byte>>, count: nat, bloom: seq<byte>, i: nat)
    requires |cols| == 4 && i < 4
    ensures Slice(EncodedFrom(cols, count, bloom), SpansFrom(cols, FIXED_HEADER_LEN + |bloom|)[i]) == Ok(cols[i])
  {
    var spans := SpansFrom(cols, FIXED_HEADER_LEN + |bloom|);
    HeadLen(count, spans, bloom);
    SlicesBack(Head(count, spans, bloom), cols, [], i);
    assert Joined(cols) + [] == Joined(cols);
  }

  lemma {:induction false} EncodedColumn(env: Env, rs: seq<EventRecord>, f: Field)
    requires Encodable(env, rs)
    ensures Slice(EncodeColumnar(env, rs), SpansFrom(Columns(rs), FIXED_HEADER_LEN + |env.bloomOf(rs)|)[Index(f)])
            == Ok(Columns(rs)[Index(f)])
  {
    var cols, bloom := Columns(rs), env.bloomOf(rs);
    assert EncodeColumnar(env, rs) == EncodedFrom(cols, |rs|, bloom);
    ColumnAt(cols, |rs|, bloom, Index(f));
  }

  lemma {:induction false} EncodedSeqs(env: Env, rs: seq<EventRecord>, h: ColumnarHeader)
    requires Encodable(env, rs) && DecodeHeader(env, EncodeColumnar(env, rs)) == Ok(h)
    ensures ReadSeqColumn(EncodeColumnar(env, rs), h) == Ok(Seqs(rs))
  {
    EncodedHeader(env, rs);
    EncodedColumn(env, rs, GlobalSequence);
    var col := SeqColumn(Seqs(rs), 0);
    SeqsRoundTrip(Seqs(rs), 0, []);
    assert col + [] == col;
  }

  lemma {:induction false} EncodedTexts(env: Env, rs: seq<EventRecord>, h: ColumnarHeader, f: Field)
    requires Encodable(env, rs) && DecodeHeader(env, EncodeColumnar(env, rs)) == Ok(h) && f != GlobalSequence
    ensures ReadStrColumn(env, EncodeColumnar(env, rs), h, f) == Ok(TextsOf(rs, f))
  {
    EncodedHeader(env, rs);
    EncodedColumn(env, rs, f);
    var col := StrColumn(TextsOf(rs, f));
    StrsRoundTrip(env.utf8, TextsOf(rs, f), []);
    assert col + [] == col;
  }

  /** A record as it comes back: the two fields the layout has no column for are gone. */
  function Cleared(rs: seq<EventRecord>): seq<EventRecord> {
    seq(|rs|, i requires 0 <= i < |rs| => rs[i].(eventId := None, commitHlc := None))
  }

  lemma {:induction false} RowsAreCleared(rs: seq<EventRecord>)
    ensures Rows(Seqs(rs), TextsOf(rs, ExecutionId), TextsOf(rs, TransactionId), TextsOf(rs, Payload)) == Cleared(rs)
  { }

  /** Decoding an encoded part gives back the records, less `event_id` and `commit_hlc`. */
  lemma {:induction false} ColumnarRoundTrip(env: Env, rs: seq<EventRecord>)
    requires Encodable(env, rs)
    ensures DecodeColumnar(env, EncodeColumnar(env, rs)) == Ok(Cleared(rs))
  {
    EncodedHeader(env, rs);
    var h := DecodeHeader(env, EncodeColumnar(env, rs)).value;
    EncodedSeqs(env, rs, h);
    EncodedTexts(env, rs, h, ExecutionId);
    EncodedTexts(env, rs, h, TransactionId);
    EncodedTexts(env, rs, h, Payload);
    RowsAreCleared(rs);
  }

  /** The spans of an encoded part tile it from the header to the end, payload last. */
  lemma {:induction false} EncodedSpansTile(env: Env, rs: seq<EventRecord>, i: nat)
    requires Encodable(env, rs) && i < 4
    ensures DecodeHeader(env, EncodeColumnar(env, rs)).Ok?
    ensures var h := DecodeHeader(env, EncodeColumnar(env, rs)).value;
            && h.columns[0].offset == FIXED_HEADER_LEN + |h.bloom|
            && (i < 3 ==> h.columns[i + 1].offset == h.columns[i].offset + h.columns[i].len)
            && (i == 3 ==> h.columns[i].offset + h.columns[i].len == |EncodeColumnar(env, rs)|)
  {
    EncodedHeader(env, rs);
    SpansTile(Columns(rs), FIXED_HEADER_LEN + |env.bloomOf(rs)|, i);
  }

  /** Reading a small column never depends on the payload column: a part that has only its
      front, up to where the payload starts, followed by anything at all projects alike. */
  lemma {:induction false} ProjectionSkipsPayload(env: Env, rs: seq<EventRecord>, f: Field, junk: seq<byte>)
    requires Encodable(env, rs) && f != Payload
    ensures DecodeHeader(env, EncodeColumnar(env, rs)).Ok?
    ensures var bytes := EncodeColumnar(env, rs);
            var cut := DecodeHeader(env, bytes).value.columns[Index(Payload)].offset;
            cut <= |bytes| && ProjectColumn(env, bytes[..cut] + junk, f) == Ok(ColumnOf(rs, f))
  {
    var part, h := FrontPart(env, rs, f, junk);
    ProjectsFront(env, rs, f, part, h);
  }

  lemma {:induction false} FrontPart(env: Env, rs: seq<EventRecord>, f: Field, junk: seq<byte>)
    returns (part: seq<byte>, h: ColumnarHeader)
    requires Encodable(env, rs) && f != Payload
    ensures DecodeHeader(env, EncodeColumnar(env, rs)) == Ok(h) && |h.columns| == 4 && h.count == |rs|
    ensures h.columns[3].offset <= |EncodeColumnar(env, rs)|
    ensures part == EncodeColumnar(env, rs)[..h.columns[3].offset] + junk
    ensures DecodeHeader(env, part) == Ok(h)
    ensures Slice(part, h.columns[Index(f)]) == Ok(Columns(rs)[Index(f)])
  {
    var cols, bloom := Columns(rs), env.bloomOf(rs);
    var spans := SpansFrom(cols, FIXED_HEADER_LEN + |bloom|);
    h := ColumnarHeader(|rs|, spans, bloom);
    EncodedHeader(env, rs);
    FrontColumn(cols, |rs|, bloom, junk, Index(f));
    FrontHeader(env, rs, Joined(cols[..3]) + junk);
    part := Head(|rs|, spans, bloom) + (Joined(cols[..3]) + junk);
  }

  lemma {:induction false} FrontColumn(cols: seq<seq<byte>>, count: nat, bloom: seq<byte>, junk: seq<byte>, i: nat)
    requires |cols| == 4 && i < 3
    ensures var bytes, spans := EncodedFrom(cols, count, bloom), SpansFrom(cols, FIXED_HEADER_LEN + |bloom|);
            && spans[3].offset <= |bytes|
            && bytes[..spans[3].offset] + junk == Head(count, spans, bloom) + (Joined(cols[..3]) + junk)
            && Slice(bytes[..spans[3].offset] + junk, spans[i]) == Ok(cols[i])
  {
    var spans := SpansFrom(cols, FIXED_HEADER_LEN + |bloom|);
    HeadLen(count, spans, bloom);
    FrontOf(Head(count, spans, bloom), cols, junk, i);
  }

  lemma {:induction false} FrontOf(head: seq<byte>, cols: seq<seq<byte>>, junk: seq<byte>, i: nat)
    requires |cols| == 4 && i < 3
    ensures var bytes, spans := head + Joined(cols), SpansFrom(cols, |head|);
            && spans[3].offset <= |bytes|
            && bytes[..spans[3].offset] + junk == head + (Joined(cols[..3]) + junk)
            && Slice(bytes[..spans[3].offset] + junk, spans[i]) == Ok(cols[i])
  {
    FrontKeepsColumns(cols, |head|);
    SlicesBack(head, cols[..3], junk, i);
  }

  lemma {:induction false} FrontHeader(env: Env, rs: seq<EventRecord>, rest: seq<byte>)
    requires Encodable(env, rs)
    ensures var bloom := env.bloomOf(rs);
            var spans := SpansFrom(Columns(rs), FIXED_HEADER_LEN + |bloom|);
            DecodeHeader(env, Head(|rs|, spans, bloom) + rest) == Ok(ColumnarHeader(|rs|, spans, bloom))
  {
    var bloom := env.bloomOf(rs);
    var start := FIXED_HEADER_LEN + |bloom|;
    var spans := SpansFrom(Columns(rs), start);
    forall i | 0 <= i < 4 ensures spans[i].offset < U64_SPAN && spans[i].len < U64_SPAN {
      SpansBounded(Columns(rs), start, i);
    }
    HeadReadsBack(env, |rs|, spans, bloom, rest);
  }

  lemma {:induction false} FrontKeepsColumns(cols: seq<seq<byte>>, start: nat)
    requires |cols| == 4
    ensures SpansFrom(cols, start)[3].offset == start + |Joined(cols[..3])|
    ensures Joined(cols[..3]) <= Joined(cols)
    ensures SpansFrom(cols, start)[..3] == SpansFrom(cols[..3], start)
  {
    JoinedSplit(cols[..3], cols[3..]);
    assert cols[..3] + cols[3..] == cols;
    SpansSplit(cols[..3], cols[3..], start);
  }

  lemma {:induction false} JoinedSplit(a: seq<seq<byte>>, b: seq<seq<byte>>)
    ensures Joined(a + b) == Joined(a) + Joined(b)
    decreases |a|
  {
    if a == [] {
      assert a + b == b;
    } else {
      assert (a + b)[1..] == a[1..] + b;
      JoinedSplit(a[1..], b);
    }
  }

  lemma {:induction false} SpansSplit(a: seq<seq<byte>>, b: seq<seq<byte>>, start: nat)
    ensures SpansFrom(a + b, start) == SpansFrom(a, start) + SpansFrom(b, start + |Joined(a)|)
    decreases |a|
  {
    if a == [] {
      assert a + b == b;
    } else {
      assert (a + b)[1..] == a[1..] + b;
      SpansSplit(a[1..], b, start + |a[0]|);
    }
  }

  lemma {:induction false} ProjectsFront(env: Env, rs: seq<EventRecord>, f: Field, bytes: seq<byte>, h: ColumnarHeader)
    requires Encodable(env, rs) && f != Payload && DecodeHeader(env, bytes) == Ok(h) && h.count == |rs|
    requires |h.columns| == 4 && Slice(bytes, h.columns[Index(f)]) == Ok(Columns(rs)[Index(f)])
    ensures ProjectColumn(env, bytes, f) == Ok(ColumnOf(rs, f))
  {
    var col := Columns(rs)[Index(f)];
    assert col + [] == col;
    if f == GlobalSequence {
      SeqsRoundTrip(Seqs(rs), 0, []);
    } else {
      StrsRoundTrip(env.utf8, TextsOf(rs, f), []);
    }
  }

  // --- what is refused ----------------------------------------------------------------------------------

  lemma {:induction false} RepacksFields(bytes: seq<byte>, widths: seq<nat>)
    requires |bytes| >= TotalWidth(widths)
    ensures PackFields(UnpackFields(bytes, widths), widths) == bytes[..TotalWidth(widths)]
    decreases |widths|
  {
    if widths != [] {
      var w := widths[0];
      LeBytesOfValue(bytes[..w]);
      RepacksFields(bytes[w..], widths[1..]);
      assert bytes[..w] + bytes[w..][..TotalWidth(widths[1..])] == bytes[..TotalWidth(widths)];
    }
  }

  lemma {:induction false} RepacksHeader(bytes: seq<byte>)
    requires |bytes| >= FIXED_HEADER_LEN
    ensures PackFields(HeaderFields(bytes), WIDTHS) == bytes[..FIXED_HEADER_LEN]
  {
    WidthOfHeader();
    RepacksFields(bytes, WIDTHS);
  }

  lemma {:induction false} FieldsAccepted(env: Env, v: seq<nat>, bytes: seq<byte>, h: ColumnarHeader)
    requires |v| == 12 && HeaderOf(env, v, bytes) == Ok(h)
    ensures |h.columns| == 4 && FieldValues(h.count, h.columns, |h.bloom|) == v && env.bloomOk(h.bloom)
    ensures FIXED_HEADER_LEN + |h.bloom| <= |bytes| && h.bloom == bytes[FIXED_HEADER_LEN..FIXED_HEADER_LEN + |h.bloom|]
  { }

  lemma {:induction false} HeadIsPrefix(h: ColumnarHeader, v: seq<nat>, bytes: seq<byte>)
    requires |h.columns| == 4 && |v| == 12 && FieldValues(h.count, h.columns, |h.bloom|) == v
    requires FIXED_HEADER_LEN + |h.bloom| <= |bytes| && h.bloom == bytes[FIXED_HEADER_LEN..FIXED_HEADER_LEN + |h.bloom|]
    requires PackFields(v, WIDTHS) == bytes[..FIXED_HEADER_LEN]
    ensures Head(h.count, h.columns, h.bloom) <= bytes
  {
    assert bytes[..FIXED_HEADER_LEN] + h.bloom == bytes[..FIXED_HEADER_LEN + |h.bloom|];
  }

  /** Whatever the bytes, a header that is accepted is the one the encoder writes for what was
      read from it: magic, version, count, spans and bloom, and nothing in between. */
  lemma {:induction false} HeaderReencodes(env: Env, bytes: seq<byte>, h: ColumnarHeader)
    requires DecodeHeader(env, bytes) == Ok(h)
    ensures |h.columns| == 4 && Head(h.count, h.columns, h.bloom) <= bytes && env.bloomOk(h.bloom)
  {
    FieldsAccepted(env, HeaderFields(bytes), bytes, h);
    RepacksHeader(bytes);
    HeadIsPrefix(h, HeaderFields(bytes), bytes);
  }

  lemma {:induction false} UnpacksPrefix(a: seq<byte>, rest: seq<byte>, widths: seq<nat>)
    requires |a| >= TotalWidth(widths)
    ensures UnpackFields(a + rest, widths) == UnpackFields(a, widths)
    decreases |widths|
  {
    if widths != [] {
      var w := widths[0];
      assert (a + rest)[..w] == a[..w] && (a + rest)[w..] == a[w..] + rest;
      UnpacksPrefix(a[w..], rest, widths[1..]);
    }
  }

  lemma {:induction false} FieldsOfPrefix(a: seq<byte>, rest: seq<byte>)
    requires |a| >= FIXED_HEADER_LEN
    ensures HeaderFields(a + rest) == HeaderFields(a)
  {
    WidthOfHeader();
    UnpacksPrefix(a, rest, WIDTHS);
  }

  lemma {:induction false} SameHeaderOf(env: Env, v: seq<nat>, a: seq<byte>, rest: seq<byte>)
    requires |v| == 12 && HeaderOf(env, v, a).Ok?
    ensures HeaderOf(env, v, a + rest) == HeaderOf(env, v, a)
  {
    var n := FIXED_HEADER_LEN + v[11];
    assert (a + rest)[FIXED_HEADER_LEN..n] == a[FIXED_HEADER_LEN..n];
  }

  /** What follows an accepted header does not change it. */
  lemma {:induction false} HeaderOfPrefix(env: Env, a: seq<byte>, rest: seq<byte>)
    requires DecodeHeader(env, a).Ok?
    ensures DecodeHeader(env, a + rest) == DecodeHeader(env, a)
  {
    FieldsOfPrefix(a, rest);
    SameHeaderOf(env, HeaderFields(a), a, rest);
  }

  /** An encoded part that was cut short anywhere is never decoded. */
  lemma {:induction false} CutPartRefused(env: Env, rs: seq<EventRecord>, cut: nat)
    requires Encodable(env, rs) && cut < |EncodeColumnar(env, rs)|
    ensures DecodeColumnar(env, EncodeColumnar(env, rs)[..cut]).Err?
  {
    var bytes := EncodeColumnar(env, rs);
    var part := bytes[..cut];
    var r := DecodeHeader(env, part);
    if r.Ok? {
      SameHeaderCut(env, bytes, cut);
      EncodedSpansTile(env, rs, 3);
      PayloadMissing(env, part, r.value);
    }
  }

  lemma {:induction false} SameHeaderCut(env: Env, bytes: seq<byte>, cut: nat)
    requires cut <= |bytes| && DecodeHeader(env, bytes[..cut]).Ok?
    ensures DecodeHeader(env, bytes) == DecodeHeader(env, bytes[..cut])
  {
    HeaderOfPrefix(env, bytes[..cut], bytes[cut..]);
    assert bytes[..cut] + bytes[cut..] == bytes;
  }

  lemma {:induction false} PayloadMissing(env: Env, part: seq<byte>, h: ColumnarHeader)
    requires DecodeHeader(env, part) == Ok(h) && |h.columns| == 4
    requires h.columns[Index(Payload)].offset + h.columns[Index(Payload)].len > |part|
    ensures DecodeColumnar(env, part).Err?
  {
    assert ReadStrColumn(env, part, h, Payload).Err?;
  }
}
