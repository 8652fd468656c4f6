// Reading and repairing an append-only line journal (crates/ehdb-core/src/journal.rs).

module Journal {
  import opened Basics
  import opened Bytes

  const LF: byte := 10
  const CR: byte := 13

  predicate IsAsciiSpace(b: byte) { b == 32 || b == 9 || b == LF || b == 12 || b == CR }

  predicate BlankLine(line: seq<byte>) { forall i | 0 <= i < |line| :: IsAsciiSpace(line[i]) }

  /** What the record decoder says of a line: a record, cut short, or wrong content. */
  datatype Decode<T> = Good(value: T) | Short | Bad

  datatype TailRepair = TailRepair(truncateTo: Option<nat>, appendNewline: bool)

  const NO_REPAIR := TailRepair(None, false)

  /** Records with their line numbers from 1, torn tails skipped, and the repair due. */
  datatype JournalRead<T> = JournalRead(entries: seq<(nat, T)>, torn: nat, repair: TailRepair)

  /** The number of the line that made the journal unreadable. */
  type ReadResult<T> = Result<JournalRead<T>, nat>

  // --- lines ---------------------------------------------------------------------------------

  /** Up to and including the next newline, or to the end. */
  function LineLen(bytes: seq<byte>): (n: nat)
    ensures n <= |bytes| && (bytes != [] ==> n > 0)
  {
    if bytes == [] then 0 else if bytes[0] == LF then 1 else 1 + LineLen(bytes[1..])
  }

  function TrimNewline(buf: seq<byte>): seq<byte> {
    var line := if buf != [] && buf[|buf| - 1] == LF then buf[..|buf| - 1] else buf;
    if line != [] && line[|line| - 1] == CR then line[..|line| - 1] else line
  }

  /** The file as `read_until` hands it out: each line with its newline, the last as it is. */
  function Lines(bytes: seq<byte>): seq<seq<byte>>
    decreases |bytes|
  {
    if bytes == [] then [] else [bytes[..LineLen(bytes)]] + Lines(bytes[LineLen(bytes)..])
  }

  // --- specification ----------------------------------------------------------------------------

  /** What one line does to the read: nothing, a record, a possible torn tail, or an error
      naming the line at fault. */
  datatype Judgement<T> = Skip | Take(value: T) | Tear | Fail(line: nat)

  function Judge<T>(decode: seq<byte> -> Decode<T>, buf: seq<byte>, count: nat, torn: Option<(nat, nat)>): Judgement<T> {
    var line := TrimNewline(buf);
    if BlankLine(line) then Skip
    else if torn.Some? then Fail(torn.value.0)
    else match decode(line)
      case Bad => Fail(count + 1)
      case Short => Tear
      case Good(v) => Take(v)
  }

  /** How far the read has come: records found, a line that may be a torn tail as (number,
      offset), the byte and line reached; or the line it stopped at. */
  datatype Progress<T> = Going(entries: seq<(nat, T)>, torn: Option<(nat, nat)>, at: nat, count: nat) | Stuck(line: nat)

  function Step<T>(decode: seq<byte> -> Decode<T>, p: Progress<T>, buf: seq<byte>): Progress<T> {
    if p.Stuck? then p
    else
      var q := p.(at := p.at + |buf|, count := p.count + 1);
      match Judge(decode, buf, p.count, p.torn)
      case Skip => q
      case Fail(n) => Stuck(n)
      case Tear => q.(torn := Some((p.count + 1, p.at)))
      case Take(v) => q.(entries := p.entries + [(p.count + 1, v)])
  }

  function ScanAll<T>(decode: seq<byte> -> Decode<T>, p: Progress<T>, lines: seq<seq<byte>>): Progress<T>
    decreases |lines|
  {
    if lines == [] then p else ScanAll(decode, Step(decode, p, lines[0]), lines[1..])
  }

  /** A missing file reads as empty. */
  function ReadSpec<T>(decode: seq<byte> -> Decode<T>, file: Option<seq<byte>>): ReadResult<T> {
    if file.None? then Ok(JournalRead([], 0, NO_REPAIR))
    else
      var bytes := file.value;
      match ScanAll(decode, Going([], None, 0, 0), Lines(bytes))
      case Stuck(n) => Err(n)
      case Going(entries, torn, _, _) =>
        Ok(JournalRead(entries,
                       if torn.Some? then 1 else 0,
                       if torn.Some? then TailRepair(Some(torn.value.1), false)
                       else TailRepair(None, bytes != [] && bytes[|bytes| - 1] != LF)))
  }

  // --- the loop and the repair -------------------------------------------------------------------

  lemma {:induction false} NextOfLines(rest: seq<byte>, lines: seq<seq<byte>>)
    requires rest != [] && lines == Lines(rest)
    ensures lines != [] && lines[0] == rest[..LineLen(rest)] && lines[1..] == Lines(rest[LineLen(rest)..])
  { }

  lemma {:induction false} StuckStays<T>(decode: seq<byte> -> Decode<T>, p: Progress<T>, lines: seq<seq<byte>>)
    requires p.Stuck?
    ensures ScanAll(decode, p, lines) == p
    decreases |lines|
  {
    if lines != [] { StuckStays(decode, p, lines[1..]); }
  }

  /** The body of the read loop. */
  method TakeLine<T>(decode: seq<byte> -> Decode<T>, buf: seq<byte>, entries: seq<(nat, T)>, torn: Option<(nat, nat)>,
                     start: nat, index: nat) returns (p: Progress<T>)
    ensures p == Step(decode, Going(entries, torn, start, index), buf)
  {
    var line := TrimNewline(buf);
    if BlankLine(line) { return Going(entries, torn, start + |buf|, index + 1); }
    if torn.Some? { return Stuck(torn.value.0); }
    match decode(line)
    case Bad => return Stuck(index + 1);
    case Short => return Going(entries, Some((index + 1, start)), start + |buf|, index + 1);
    case Good(v) => return Going(entries + [(index + 1, v)], torn, start + |buf|, index + 1);
  }

  /** The read loop: offset, line count, torn line and entries as they go. */
  method ScanJournal<T>(decode: seq<byte> -> Decode<T>, bytes: seq<byte>) returns (r: Progress<T>)
    ensures r == ScanAll(decode, Going([], None, 0, 0), Lines(bytes))
  {
    var rest := bytes;
    r := Going([], None, 0, 0);
    ghost var lines := Lines(bytes);
    ghost var whole := ScanAll(decode, r, lines);
    while rest != []
      invariant r.Going? && lines == Lines(rest) && whole == ScanAll(decode, r, lines)
      decreases |rest|
    {
      var buf := rest[..LineLen(rest)];
      NextOfLines(rest, lines);
      r := TakeLine(decode, buf, r.entries, r.torn, r.at, r.count);
      rest := rest[|buf|..];
      lines := lines[1..];
      if r.Stuck? {
        StuckStays(decode, r, lines);
        return;
      }
    }
  }

  method ReadJsonl<T>(decode: seq<byte> -> Decode<T>, file: Option<seq<byte>>) returns (r: ReadResult<T>)
    ensures r == ReadSpec(decode, file)
  {
    if file.None? { return Ok(JournalRead([], 0, NO_REPAIR)); }
    var bytes := file.value;
    var scan := ScanJournal(decode, bytes);
    if scan.Stuck? { return Err(scan.line); }
    if scan.torn.Some? { return Ok(JournalRead(scan.entries, 1, TailRepair(Some(scan.torn.value.1), false))); }
    var unended := bytes != [] && bytes[|bytes| - 1] != LF;
    return Ok(JournalRead(scan.entries, 0, TailRepair(None, unended)));
  }

  function Repaired(bytes: seq<byte>, repair: TailRepair): seq<byte> {
    if repair.truncateTo.Some? then bytes[..Min(repair.truncateTo.value, |bytes|)]
    else if repair.appendNewline then bytes + [LF]
    else bytes
  }

  class JournalFile {
    var bytes: seq<byte>

    /** Truncate or complete the last line, once; a second call does nothing. */
    method Apply(repair: TailRepair) returns (left: TailRepair)
      requires repair.truncateTo.Some? ==> repair.truncateTo.value <= |bytes|
      modifies this
      ensures bytes == Repaired(old(bytes), repair) && left == NO_REPAIR
    {
      if repair.truncateTo.Some? {
        bytes := bytes[..repair.truncateTo.value];
      } else if repair.appendNewline {
        bytes := bytes + [LF];
      }
      return NO_REPAIR;
    }
  }

  // --- nothing acknowledged is dropped, whatever the file holds ----------------------------------

  /** The lines that are not blank, as (number, trimmed content). */
  function Written(lines: seq<seq<byte>>, count: nat): seq<(nat, seq<byte>)>
    decreases |lines|
  {
    if lines == [] then []
    else
      var line := TrimNewline(lines[0]);
      (if BlankLine(line) then [] else [(count + 1, line)]) + Written(lines[1..], count + 1)
  }

  ghost predicate Decodes<T>(decode: seq<byte> -> Decode<T>, line: (nat, seq<byte>), entry: (nat, T)) {
    entry.0 == line.0 && decode(line.1) == Good(entry.1)
  }

  /** `entries` are the decoded `lines`, all but a last one that was cut short. */
  ghost predicate Accounts<T>(decode: seq<byte> -> Decode<T>, lines: seq<(nat, seq<byte>)>, entries: seq<(nat, T)>, torn: bool) {
    && |lines| == |entries| + (if torn then 1 else 0)
    && (forall i | 0 <= i < |entries| :: Decodes(decode, lines[i], entries[i]))
    && (torn ==> decode(lines[|lines| - 1].1) == Short)
  }

  /** The lines written so far, with one more looked at. */
  function Looked(seen: seq<(nat, seq<byte>)>, buf: seq<byte>, count: nat): seq<(nat, seq<byte>)> {
    if BlankLine(TrimNewline(buf)) then seen else seen + [(count + 1, TrimNewline(buf))]
  }

  /** All lines seen are accounted for, and the torn one, if any, is the last of them. */
  ghost predicate Following<T>(decode: seq<byte> -> Decode<T>, p: Progress<T>, seen: seq<(nat, seq<byte>)>) {
    && p.Going? && Accounts(decode, seen, p.entries, p.torn.Some?)
    && (p.torn.Some? ==> p.torn.value.0 == seen[|seen| - 1].0)
  }

  lemma {:induction false} StepFollows<T>(decode: seq<byte> -> Decode<T>, p: Progress<T>, seen: seq<(nat, seq<byte>)>, buf: seq<byte>)
    requires Following(decode, p, seen) && Step(decode, p, buf).Going?
    ensures Following(decode, Step(decode, p, buf), Looked(seen, buf, p.count))
  { }

  lemma {:induction false} LookedWritten(seen: seq<(nat, seq<byte>)>, lines: seq<seq<byte>>, count: nat)
    requires lines != []
    ensures seen + Written(lines, count) == Looked(seen, lines[0], count) + Written(lines[1..], count + 1)
  {
    var line, rest := TrimNewline(lines[0]), Written(lines[1..], count + 1);
    if BlankLine(line) {
      assert [] + rest == rest;
    } else {
      assert seen + ([(count + 1, line)] + rest) == seen + [(count + 1, line)] + rest;
    }
  }

  /** Whatever was accounted for so far, each further line is accounted for too. */
  lemma {:induction false} ScanAccounts<T>(decode: seq<byte> -> Decode<T>, p: Progress<T>, seen: seq<(nat, seq<byte>)>,
                                           lines: seq<seq<byte>>)
    requires Following(decode, p, seen)
    ensures var r := ScanAll(decode, p, lines);
            r.Going? ==> Accounts(decode, seen + Written(lines, p.count), r.entries, r.torn.Some?)
    decreases |lines|
  {
    if lines == [] {
      assert seen + [] == seen;
    } else {
      var q := Step(decode, p, lines[0]);
      LookedWritten(seen, lines, p.count);
      if q.Going? {
        StepFollows(decode, p, seen, lines[0]);
        ScanAccounts(decode, q, Looked(seen, lines[0], p.count), lines[1..]);
      } else {
        StuckStays(decode, q, lines[1..]);
      }
    }
  }

  /** A read that succeeds returns every line that holds anything, in order and decoded, except
      at most one cut short at the end, which it counts. */
  lemma {:induction false} ReadDropsNothing<T>(decode: seq<byte> -> Decode<T>, bytes: seq<byte>)
    ensures var r := ReadSpec(decode, Some(bytes));
            r.Ok? ==> r.value.torn <= 1 && Accounts(decode, Written(Lines(bytes), 0), r.value.entries, r.value.torn == 1)
  {
    ScanAccounts<T>(decode, Going([], None, 0, 0), [], Lines(bytes));
  }

  /** A line that ends the read: wrong content, or cut short with more written after it. */
  ghost predicate AtFault<T(!new)>(decode: seq<byte> -> Decode<T>, lines: seq<(nat, seq<byte>)>, i: nat)
    requires i < |lines|
  {
    decode(lines[i].1) == Bad || (decode(lines[i].1) == Short && i + 1 < |lines|)
  }

  ghost predicate FirstAtFault<T(!new)>(decode: seq<byte> -> Decode<T>, lines: seq<(nat, seq<byte>)>, i: nat)
    requires i < |lines|
  {
    AtFault(decode, lines, i) && forall j | 0 <= j < i :: !AtFault(decode, lines, j)
  }

  /** The step that fails names the first line at fault, whatever follows it. */
  lemma {:induction false} StepFails<T(!new)>(decode: seq<byte> -> Decode<T>, p: Progress<T>, seen: seq<(nat, seq<byte>)>,
                                              buf: seq<byte>, more: seq<(nat, seq<byte>)>) returns (i: nat)
    requires Following(decode, p, seen) && Step(decode, p, buf).Stuck?
    ensures var all := Looked(seen, buf, p.count) + more;
            i < |all| && FirstAtFault(decode, all, i) && Step(decode, p, buf) == Stuck(all[i].0)
  {
    var all := Looked(seen, buf, p.count) + more;
    i := if p.torn.Some? then |seen| - 1 else |seen|;
    assert all[..|seen|] == seen;
    forall j | 0 <= j < i ensures !AtFault(decode, all, j) {
      assert all[j] == seen[j] && Decodes(decode, seen[j], p.entries[j]);
    }
  }

  lemma {:induction false} ScanFailsAt<T(!new)>(decode: seq<byte> -> Decode<T>, p: Progress<T>, seen: seq<(nat, seq<byte>)>,
                                                lines: seq<seq<byte>>) returns (i: nat)
    requires Following(decode, p, seen) && ScanAll(decode, p, lines).Stuck?
    ensures var all := seen + Written(lines, p.count);
            i < |all| && FirstAtFault(decode, all, i) && ScanAll(decode, p, lines) == Stuck(all[i].0)
    decreases |lines|
  {
    var q := Step(decode, p, lines[0]);
    LookedWritten(seen, lines, p.count);
    if q.Going? {
      StepFollows(decode, p, seen, lines[0]);
      i := ScanFailsAt(decode, q, Looked(seen, lines[0], p.count), lines[1..]);
    } else {
      StuckStays(decode, q, lines[1..]);
      i := StepFails(decode, p, seen, lines[0], Written(lines[1..], p.count + 1));
    }
  }

  lemma {:induction false} FaultlessIfAccounted<T(!new)>(decode: seq<byte> -> Decode<T>, lines: seq<(nat, seq<byte>)>,
                                                         r: JournalRead<T>, i: nat)
    requires Accounts(decode, lines, r.entries, r.torn == 1) && i < |lines|
    ensures !AtFault(decode, lines, i)
  {
    if i < |r.entries| { assert Decodes(decode, lines[i], r.entries[i]); }
  }

  /** A read fails if and only if some line that holds anything is at fault, and it names the
      first. So blank lines are no fault wherever they stand. */
  lemma {:induction false} ReadFailsIff<T(!new)>(decode: seq<byte> -> Decode<T>, bytes: seq<byte>) returns (i: nat)
    ensures var r := ReadSpec(decode, Some(bytes)); var lines := Written(Lines(bytes), 0);
            if r.Ok? then forall j: nat | j < |lines| :: !AtFault(decode, lines, j)
            else i < |lines| && FirstAtFault(decode, lines, i) && r.error == lines[i].0
  {
    i := 0;
    var p: Progress<T> := Going([], None, 0, 0);
    var lines := Written(Lines(bytes), 0);
    if ScanAll(decode, p, Lines(bytes)).Stuck? {
      i := ScanFailsAt(decode, p, [], Lines(bytes));
      assert [] + lines == lines;
    } else {
      ReadDropsNothing(decode, bytes);
      forall j: nat | j < |lines| ensures !AtFault(decode, lines, j) {
        FaultlessIfAccounted(decode, lines, ReadSpec(decode, Some(bytes)).value, j);
      }
    }
  }

  /** A file that is missing, empty or blank holds no record, and reading it is no error. */
  lemma {:induction false} NothingWrittenReadsEmpty<T(!new)>(decode: seq<byte> -> Decode<T>, file: Option<seq<byte>>)
    requires file.Some? ==> Written(Lines(file.value), 0) == []
    ensures var r := ReadSpec(decode, file);
            r.Ok? && r.value.entries == [] && r.value.torn == 0 && r.value.repair.truncateTo.None?
    ensures file.None? || file == Some([]) ==> ReadSpec(decode, file).value.repair == NO_REPAIR
  {
    if file.Some? {
      var i := ReadFailsIff(decode, file.value);
      ReadDropsNothing(decode, file.value);
    }
  }

  // --- rounds of append, crash, read and repair --------------------------------------------------

  datatype Codec<!T> = Codec(encode: T -> seq<byte>, decode: seq<byte> -> Decode<T>)

  ghost predicate OneLine(e: seq<byte>) { forall i | 0 <= i < |e| :: e[i] != LF && e[i] != CR }

  /** Encodings are single lines that start with a printing byte and decode to what was
      encoded; cut anywhere, the decoder asks for more input. */
  ghost predicate EncodesWell<T>(c: Codec<T>, v: T) {
    var e := c.encode(v);
    && e != [] && !IsAsciiSpace(e[0]) && OneLine(e)
    && c.decode(e) == Good(v)
    && (forall n | 0 < n < |e| :: c.decode(e[..n]) == Short)
  }

  ghost predicate Lawful<T(!new)>(c: Codec<T>) { forall v :: EncodesWell(c, v) }

  function File<T>(c: Codec<T>, vs: seq<T>): seq<byte> {
    if vs == [] then [] else c.encode(vs[0]) + [LF] + File(c, vs[1..])
  }

  function Numbered<T>(vs: seq<T>, lines: nat): seq<(nat, T)> {
    seq(|vs|, i requires 0 <= i < |vs| => (lines + 1 + i, vs[i]))
  }

  lemma {:induction false} LineLenEnded(e: seq<byte>, rest: seq<byte>)
    requires OneLine(e)
    ensures LineLen(e + [LF] + rest) == |e| + 1
  {
    var b := e + [LF] + rest;
    if e != [] {
      assert b[1..] == e[1..] + [LF] + rest && b[0] == e[0];
      LineLenEnded(e[1..], rest);
    }
  }

  lemma {:induction false} LineLenOpen(e: seq<byte>)
    requires OneLine(e)
    ensures LineLen(e) == |e|
  {
    if e != [] { LineLenOpen(e[1..]); }
  }

  lemma {:induction false} EndedLine(e: seq<byte>, more: seq<byte>)
    requires OneLine(e)
    ensures Lines(e + [LF] + more) == [e + [LF]] + Lines(more)
  {
    LineLenEnded(e, more);
  }

  lemma {:induction false} OpenLine(e: seq<byte>)
    requires OneLine(e) && e != []
    ensures Lines(e) == [e]
  {
    LineLenOpen(e);
    assert e[..|e|] == e && e[|e|..] == [];
  }

  /** The lines of whole records. */
  function RecordLines<T>(c: Codec<T>, vs: seq<T>): seq<seq<byte>> {
    if vs == [] then [] else [c.encode(vs[0]) + [LF]] + RecordLines(c, vs[1..])
  }

  lemma {:induction false} LinesOfFile<T(!new)>(c: Codec<T>, vs: seq<T>, tail: seq<byte>)
    requires Lawful(c)
    ensures Lines(File(c, vs) + tail) == RecordLines(c, vs) + Lines(tail)
    decreases |vs|
  {
    if vs == [] {
      assert File(c, vs) + tail == tail;
    } else {
      var e, more := c.encode(vs[0]), File(c, vs[1..]);
      assert EncodesWell(c, vs[0]);
      assert File(c, vs) + tail == e + [LF] + (more + tail);
      EndedLine(e, more + tail);
      LinesOfFile(c, vs[1..], tail);
    }
  }

  /** One whole record read. */
  lemma {:induction false} StepRecord<T(!new)>(c: Codec<T>, p: Progress<T>, v: T, line: seq<byte>)
    requires Lawful(c) && p.Going? && p.torn.None? && (line == c.encode(v) || line == c.encode(v) + [LF])
    ensures Step(c.decode, p, line) == Going(p.entries + [(p.count + 1, v)], None, p.at + |line|, p.count + 1)
  {
    assert EncodesWell(c, v);
  }

  /** The progress made by reading whole records. */
  function Past<T>(c: Codec<T>, p: Progress<T>, vs: seq<T>): Progress<T>
    requires p.Going?
  {
    Going(p.entries + Numbered(vs, p.count), None, p.at + |File(c, vs)|, p.count + |vs|)
  }

  lemma {:induction false} PastNone<T>(c: Codec<T>, p: Progress<T>)
    requires p.Going? && p.torn.None?
    ensures Past(c, p, []) == p
  { }

  lemma {:induction false} PastFirst<T>(c: Codec<T>, p: Progress<T>, vs: seq<T>)
    requires p.Going? && vs != []
    ensures Past(c, p, vs) ==
            Past(c, Going(p.entries + [(p.count + 1, vs[0])], None, p.at + |c.encode(vs[0])| + 1, p.count + 1), vs[1..])
  { }

  /** Reading over whole records collects them and goes on behind them. */
  lemma {:induction false} ScanRecords<T(!new)>(c: Codec<T>, p: Progress<T>, vs: seq<T>, more: seq<seq<byte>>)
    requires Lawful(c) && p.Going? && p.torn.None?
    ensures ScanAll(c.decode, p, RecordLines(c, vs) + more) == ScanAll(c.decode, Past(c, p, vs), more)
    decreases |vs|
  {
    if vs == [] {
      assert RecordLines(c, vs) + more == more;
      PastNone(c, p);
    } else {
      RecordsStep(c, p, vs, more);
      var q := Going(p.entries + [(p.count + 1, vs[0])], None, p.at + |c.encode(vs[0])| + 1, p.count + 1);
      ScanRecords(c, q, vs[1..], more);
      PastFirst(c, p, vs);
    }
  }

  lemma {:induction false} RecordsStep<T(!new)>(c: Codec<T>, p: Progress<T>, vs: seq<T>, more: seq<seq<byte>>)
    requires Lawful(c) && p.Going? && p.torn.None? && vs != []
    ensures ScanAll(c.decode, p, RecordLines(c, vs) + more) ==
            ScanAll(c.decode, Going(p.entries + [(p.count + 1, vs[0])], None, p.at + |c.encode(vs[0])| + 1, p.count + 1),
                    RecordLines(c, vs[1..]) + more)
  {
    var line := c.encode(vs[0]) + [LF];
    var lines := RecordLines(c, vs) + more;
    assert lines[0] == line && lines[1..] == RecordLines(c, vs[1..]) + more;
    StepRecord(c, p, vs[0], line);
  }

  /** A crash during an append leaves the first `cut` bytes of the record's line. */
  function Partial<T>(c: Codec<T>, v: T, cut: nat): seq<byte> {
    var line := c.encode(v) + [LF];
    line[..Min(cut, |line|)]
  }

  predicate Complete<T>(c: Codec<T>, v: T, cut: nat) { cut >= |c.encode(v)| }

  predicate Torn<T>(c: Codec<T>, v: T, cut: nat) { 0 < cut < |c.encode(v)| }

  /** The tail as the reader sees it. */
  lemma {:induction false} ScanPartial<T(!new)>(c: Codec<T>, p: Progress<T>, v: T, cut: nat)
    requires Lawful(c) && p.Going? && p.torn.None?
    ensures var r := ScanAll(c.decode, p, Lines(Partial(c, v, cut)));
            && r.Going?
            && r.entries == p.entries + (if Complete(c, v, cut) then [(p.count + 1, v)] else [])
            && r.torn == if Torn(c, v, cut) then Some((p.count + 1, p.at)) else None
  {
    var e, tail := c.encode(v), Partial(c, v, cut);
    assert EncodesWell(c, v);
    if Torn(c, v, cut) {
      assert tail == e[..cut];
      OpenLine(tail);
      ScanSingle(c.decode, p, tail);
    } else if cut == |e| {
      assert tail == e;
      OpenLine(e);
    } else if cut > |e| {
      assert tail == e + [LF] == e + [LF] + [];
      EndedLine(e, []);
      StepRecord(c, p, v, e + [LF]);
    }
  }

  lemma {:induction false} ScanSingle<T>(decode: seq<byte> -> Decode<T>, p: Progress<T>, line: seq<byte>)
    ensures ScanAll(decode, p, [line]) == Step(decode, p, line)
  { }

  /** What the next read must say after whole records and one cut append. */
  function Expected<T>(c: Codec<T>, vs: seq<T>, v: T, cut: nat): JournalRead<T> {
    JournalRead(Numbered(if Complete(c, v, cut) then vs + [v] else vs, 0),
                if Torn(c, v, cut) then 1 else 0,
                if Torn(c, v, cut) then TailRepair(Some(|File(c, vs)|), false)
                else TailRepair(None, cut == |c.encode(v)|))
  }

  lemma {:induction false} FileEnds<T>(c: Codec<T>, vs: seq<T>)
    ensures File(c, vs) != [] ==> File(c, vs)[|File(c, vs)| - 1] == LF
  {
    if vs != [] {
      FileEnds(c, vs[1..]);
    }
  }

  lemma {:induction false} FileSnoc<T>(c: Codec<T>, vs: seq<T>, v: T)
    ensures File(c, vs + [v]) == File(c, vs) + (c.encode(v) + [LF])
    decreases |vs|
  {
    if vs == [] {
    } else {
      assert (vs + [v])[1..] == vs[1..] + [v];
      FileSnoc(c, vs[1..], v);
    }
  }

  lemma {:induction false} NumberedSnoc<T>(vs: seq<T>, v: T, lines: nat)
    ensures Numbered(vs + [v], lines) == Numbered(vs, lines) + [(lines + |vs| + 1, v)]
  { }

  /** Whether the last byte left is a newline. */
  lemma {:induction false} LastByteLeft<T(!new)>(c: Codec<T>, vs: seq<T>, v: T, cut: nat)
    requires Lawful(c) && !Torn(c, v, cut)
    ensures var bytes := File(c, vs) + Partial(c, v, cut);
            (bytes != [] && bytes[|bytes| - 1] != LF) <==> cut == |c.encode(v)|
  {
    assert EncodesWell(c, v);
    FileEnds(c, vs);
  }

  lemma {:induction false} ScanAfterCut<T(!new)>(c: Codec<T>, vs: seq<T>, v: T, cut: nat)
    requires Lawful(c)
    ensures var r := ScanAll(c.decode, Going([], None, 0, 0), Lines(File(c, vs) + Partial(c, v, cut)));
            && r.Going? && r.entries == Expected(c, vs, v, cut).entries
            && r.torn == if Torn(c, v, cut) then Some((|vs| + 1, |File(c, vs)|)) else None
  {
    var p: Progress<T> := Going([], None, 0, 0);
    var q := Past(c, p, vs);
    LinesOfFile(c, vs, Partial(c, v, cut));
    ScanRecords(c, p, vs, Lines(Partial(c, v, cut)));
    ScanPartial(c, q, v, cut);
    NumberedSnoc(vs, v, 0);
  }

  lemma {:induction false} ReadsAfterCut<T(!new)>(c: Codec<T>, vs: seq<T>, v: T, cut: nat)
    requires Lawful(c)
    ensures ReadSpec(c.decode, Some(File(c, vs) + Partial(c, v, cut))) == Ok(Expected(c, vs, v, cut))
  {
    ScanAfterCut(c, vs, v, cut);
    if !Torn(c, v, cut) { LastByteLeft(c, vs, v, cut); }
  }

  /** The repair leaves whole records only: all that were complete, nothing of a torn one. */
  lemma {:induction false} RepairLeavesRecords<T(!new)>(c: Codec<T>, vs: seq<T>, v: T, cut: nat)
    requires Lawful(c)
    ensures Repaired(File(c, vs) + Partial(c, v, cut), Expected(c, vs, v, cut).repair) ==
            File(c, if Complete(c, v, cut) then vs + [v] else vs)
  {
    var tail := Partial(c, v, cut);
    assert EncodesWell(c, v);
    FileSnoc(c, vs, v);
    if Torn(c, v, cut) {
      assert (File(c, vs) + tail)[..|File(c, vs)|] == File(c, vs);
    }
  }

  /** One process life: read, repair, append a record, die after `cut` bytes of it. */
  datatype Round<T> = Round(record: T, cut: nat)

  function Live<T>(c: Codec<T>, bytes: seq<byte>, r: Round<T>): Result<seq<byte>, nat> {
    match ReadSpec(c.decode, Some(bytes))
    case Err(n) => Err(n)
    case Ok(read) => Ok(Repaired(bytes, read.repair) + Partial(c, r.record, r.cut))
  }

  function Lives<T>(c: Codec<T>, bytes: seq<byte>, rounds: seq<Round<T>>): Result<seq<byte>, nat>
    decreases |rounds|
  {
    if rounds == [] then Ok(bytes)
    else match Live(c, bytes, rounds[0])
      case Err(n) => Err(n)
      case Ok(next) => Lives(c, next, rounds[1..])
  }

  /** The records whose bytes were all written. */
  function Survivors<T>(c: Codec<T>, rounds: seq<Round<T>>): seq<T> {
    if rounds == [] then []
    else (if Complete(c, rounds[0].record, rounds[0].cut) then [rounds[0].record] else []) + Survivors(c, rounds[1..])
  }

  /** The records on file once an append has been cut and repaired. */
  function Kept<T>(c: Codec<T>, vs: seq<T>, r: Round<T>): seq<T> {
    if Complete(c, r.record, r.cut) then vs + [r.record] else vs
  }

  lemma {:induction false} LiveStep<T(!new)>(c: Codec<T>, vs: seq<T>, last: Round<T>, r: Round<T>)
    requires Lawful(c)
    ensures Live(c, File(c, vs) + Partial(c, last.record, last.cut), r) ==
            Ok(File(c, Kept(c, vs, last)) + Partial(c, r.record, r.cut))
  {
    ReadsAfterCut(c, vs, last.record, last.cut);
    RepairLeavesRecords(c, vs, last.record, last.cut);
  }

  lemma {:induction false} SurvivorsStep<T>(c: Codec<T>, vs: seq<T>, r: Round<T>, rounds: seq<Round<T>>)
    ensures vs + Survivors(c, [r] + rounds) == Kept(c, vs, r) + Survivors(c, rounds)
  { }

  lemma {:induction false} LivesFrom<T(!new)>(c: Codec<T>, vs: seq<T>, last: Round<T>, rounds: seq<Round<T>>)
    returns (final: seq<byte>)
    requires Lawful(c)
    ensures Lives(c, File(c, vs) + Partial(c, last.record, last.cut), rounds) == Ok(final)
    ensures var end := if rounds == [] then last else rounds[|rounds| - 1];
            var r := ReadSpec(c.decode, Some(final));
            && r.Ok? && r.value.entries == Numbered(vs + Survivors(c, [last] + rounds), 0)
            && r.value.torn == (if Torn(c, end.record, end.cut) then 1 else 0)
    decreases |rounds|
  {
    SurvivorsStep(c, vs, last, rounds);
    if rounds == [] {
      final := File(c, vs) + Partial(c, last.record, last.cut);
      ReadsAfterCut(c, vs, last.record, last.cut);
      assert Kept(c, vs, last) + [] == Kept(c, vs, last);
    } else {
      LiveStep(c, vs, last, rounds[0]);
      final := LivesFrom(c, Kept(c, vs, last), rounds[0], rounds[1..]);
      assert [rounds[0]] + rounds[1..] == rounds;
    }
  }

  /** Any number of lives, each dying anywhere in its append: the journal stays readable, the
      next read returns exactly the records whose bytes were all written, numbered by line,
      and counts a torn tail exactly when the last append was cut inside its record. */
  lemma {:induction false} RoundsLoseNothing<T(!new)>(c: Codec<T>, rounds: seq<Round<T>>)
    requires Lawful(c) && rounds != []
    ensures var end := rounds[|rounds| - 1];
            var bytes := Lives(c, [], rounds);
            && bytes.Ok?
            && var r := ReadSpec(c.decode, Some(bytes.value));
               && r.Ok? && r.value.entries == Numbered(Survivors(c, rounds), 0)
               && r.value.torn == (if Torn(c, end.record, end.cut) then 1 else 0)
  {
    var first := rounds[0];
    var final := LivesFrom(c, [], first, rounds[1..]);
    assert [] + Survivors(c, rounds) == Survivors(c, rounds);
  }

  /** A record's line may end in a newline, with or without a carriage return, or not at all. */
  lemma {:induction false} LineEndings<T(!new)>(c: Codec<T>, p: Progress<T>, v: T, end: seq<byte>)
    requires Lawful(c) && p.Going? && p.torn.None? && end in {[], [LF], [CR], [CR, LF]}
    ensures Step(c.decode, p, c.encode(v) + end) ==
            Going(p.entries + [(p.count + 1, v)], None, p.at + |c.encode(v)| + |end|, p.count + 1)
  {
    assert EncodesWell(c, v);
    Trims(c.encode(v), end);
  }

  lemma {:induction false} Trims(e: seq<byte>, end: seq<byte>)
    requires e != [] && OneLine(e) && end in {[], [LF], [CR], [CR, LF]}
    ensures TrimNewline(e + end) == e
  {
    if end == [CR, LF] { assert (e + end)[..|e| + 1] == e + [CR]; }
  }
}
