/** The journal file: classification of arbitrary contents, recovery, and appending. */
module ExecutionJournal {
  import opened JournalRecords
  import opened JsonTree
  import opened Sequences
  import opened Text
  import opened Wrappers

  // ----- lines

  function LineEnd(raw: Bytes): (k: nat)
    ensures k <= |raw| && OneLine(raw[..k]) && (k < |raw| ==> raw[k] == '\n' || raw[k] == '\r')
  {
    if raw == "" || raw[0] == '\n' || raw[0] == '\r' then 0
    else
      var k := LineEnd(raw[1..]);
      assert raw[..k + 1] == [raw[0]] + raw[1..][..k];
      k + 1
  }

  /** Where the next line starts, given that this one ends at `k`. */
  function NextLine(raw: Bytes, k: nat): (n: nat)
    requires k < |raw|
    ensures k < n <= |raw|
  {
    if raw[k] == '\r' && k + 1 < |raw| && raw[k + 1] == '\n' then k + 2 else k + 1
  }

  /** `bytes.splitlines`: breaks at line feed, carriage return, or the pair of them. */
  function SplitLines(raw: Bytes): seq<Bytes>
    decreases |raw|
  {
    var k := LineEnd(raw);
    if raw == "" then []
    else if k == |raw| then [raw]
    else [raw[..k]] + SplitLines(raw[NextLine(raw, k)..])
  }

  predicate EndsLine(raw: Bytes) {
    raw != "" && raw[|raw| - 1] == '\n'
  }

  lemma {:induction false} LineEndIs(raw: Bytes, k: nat)
    requires k <= |raw| && OneLine(raw[..k]) && (k < |raw| ==> raw[k] == '\n' || raw[k] == '\r')
    ensures LineEnd(raw) == k
    decreases k
  {
    if k > 0 {
      assert raw[0] == raw[..k][0];
      assert raw[1..][..k - 1] == raw[..k][1..];
      LineEndIs(raw[1..], k - 1);
    }
  }

  /** A complete line in front comes out as the first line. */
  lemma SplitFirst(line: Bytes, rest: Bytes)
    requires OneLine(line)
    ensures SplitLines(line + "\n" + rest) == [line] + SplitLines(rest)
  {
    var raw := line + "\n" + rest;
    assert raw[..|line|] == line && raw[|line|] == '\n';
    LineEndIs(raw, |line|);
    assert raw[NextLine(raw, |line|)..] == rest;
  }

  /** In complete text the first line ends before the text does, and what follows it is complete. */
  lemma FirstLineEnds(raw: Bytes)
    requires EndsLine(raw)
    ensures var k := LineEnd(raw); k < |raw| && var rest := raw[NextLine(raw, k)..]; rest == "" || EndsLine(rest)
  {
    assert raw[..|raw|] == raw && raw[|raw| - 1] in raw;
  }

  lemma LineEndConcat(raw: Bytes, more: Bytes)
    requires LineEnd(raw) < |raw|
    ensures LineEnd(raw + more) == LineEnd(raw)
  {
    assert (raw + more)[..LineEnd(raw)] == raw[..LineEnd(raw)];
    LineEndIs(raw + more, LineEnd(raw));
  }

  lemma SplitStep(raw: Bytes, more: Bytes) returns (head: seq<Bytes>, rest: Bytes)
    requires EndsLine(raw)
    ensures |rest| < |raw| && (rest == "" || EndsLine(rest))
    ensures SplitLines(raw) == head + SplitLines(rest)
    ensures SplitLines(raw + more) == head + SplitLines(rest + more)
  {
    FirstLineEnds(raw);
    LineEndConcat(raw, more);
    var k := LineEnd(raw);
    var next := NextLine(raw, k);
    head, rest := [raw[..k]], raw[next..];
    assert (raw + more)[..k] == raw[..k] && (raw + more)[next..] == rest + more;
  }

  /** Splitting is additive where one part ends in a line feed. */
  lemma {:induction false} SplitConcat(raw: Bytes, more: Bytes)
    requires raw == "" || EndsLine(raw)
    ensures SplitLines(raw + more) == SplitLines(raw) + SplitLines(more)
    decreases |raw|
  {
    if raw == "" {
      assert raw + more == more;
    } else {
      var head, rest := SplitStep(raw, more);
      SplitConcat(rest, more);
      Associates(head, SplitLines(rest), SplitLines(more));
    }
  }

  // ----- _verify_integrity_unlocked

  datatype Status = VALID | EMPTY | CORRUPTED | TRUNCATED | INVALID_SEQUENCE | HASH_MISMATCH

  datatype Integrity = Integrity(status: Status, count: nat)

  datatype LineCheck = Accepted(record: JournalRecord) | Refused(status: Status)

  /** `v.get("sequence_number") == i`, where Python lets True equal 1. */
  predicate IsNumber(v: Json, i: int) {
    v == Num(i) || (v == Bool(true) && i == 1)
  }

  /** One iteration of the loop, for line `|parsed| + 1`. */
  function CheckLine(p: Platform, line: Bytes, parsed: seq<JournalRecord>): LineCheck {
    match p.loads(line)
    case Some(Obj(d)) => CheckDict(p, d, parsed)
    case _ => Refused(CORRUPTED)
  }

  function CheckDict(p: Platform, d: Dict, parsed: seq<JournalRecord>): LineCheck {
    CheckRead(d, parsed, FromDict(p, d))
  }

  /** `read` is the record that the object is read as, if it is one. */
  function CheckRead(d: Dict, parsed: seq<JournalRecord>, read: Option<JournalRecord>): LineCheck {
    if !IsNumber(Get(d, SEQUENCE_NUMBER), |parsed| + 1) then Refused(INVALID_SEQUENCE)
    else if Get(d, PREVIOUS_RECORD_HASH) != Str(LastHash(parsed)) then Refused(HASH_MISMATCH)
    else
      match read
      case None => Refused(HASH_MISMATCH)
      case Some(r) =>
        var required := Required(r.recordType);
        if Get(r.payload, required[0]) != Str(r.entityId) || exists k :: k in required && k !in r.payload
        then Refused(CORRUPTED) else Accepted(r)
  }

  datatype Scan = Scanned(records: seq<JournalRecord>) | Stopped(integrity: Integrity)

  function ScanLines(p: Platform, lines: seq<Bytes>, parsed: seq<JournalRecord>): Scan
    decreases |lines|
  {
    if lines == [] then Scanned(parsed)
    else
      match CheckLine(p, lines[0], parsed)
      case Refused(status) => Stopped(Integrity(status, |parsed|))
      case Accepted(r) => ScanLines(p, lines[1..], parsed + [r])
  }

  function Classify(p: Platform, raw: Bytes): Integrity {
    if raw == "" then Integrity(EMPTY, 0)
    else if !EndsLine(raw) then Integrity(TRUNCATED, 0)
    else
      match ScanLines(p, SplitLines(raw), [])
      case Stopped(integrity) => integrity
      case Scanned(records) => Integrity(if NoDuplicates(records) then VALID else CORRUPTED, |records|)
  }

  /** The loop of the program, on the bytes it has read. */
  method VerifyIntegrityUnlocked(p: Platform, raw: Bytes) returns (r: Integrity)
    ensures r == Classify(p, raw)
    ensures exists records :: IsClassified(p, raw, records, r)
  {
    EveryFileIsClassified(p, raw);
    if raw == "" {
      return Integrity(EMPTY, 0);
    }
    if raw[|raw| - 1] != '\n' {
      return Integrity(TRUNCATED, 0);
    }
    var parsed := [];
    var lines := SplitLines(raw);
    for i := 0 to |lines|
      invariant |parsed| == i && ScanLines(p, lines, []) == ScanLines(p, lines[i..], parsed)
    {
      assert lines[i..][0] == lines[i] && lines[i..][1..] == lines[i + 1..];
      match CheckLine(p, lines[i], parsed) {
        case Refused(status) => return Integrity(status, |parsed|);
        case Accepted(record) => parsed := parsed + [record];
      }
    }
    if NoDuplicates(parsed) {
      return Integrity(VALID, |parsed|);
    }
    return Integrity(CORRUPTED, |parsed|);
  }

  /** The lines parse, one by one, to these records. */
  ghost predicate Reads(p: Platform, lines: seq<Bytes>, records: seq<JournalRecord>) {
    && |lines| == |records|
    && forall i {:trigger ReadsAt(p, lines, records, i)} :: 0 <= i < |lines| ==> ReadsAt(p, lines, records, i)
  }

  ghost predicate ReadsAt(p: Platform, lines: seq<Bytes>, records: seq<JournalRecord>, i: int)
    requires |lines| == |records| && 0 <= i < |lines|
  {
    p.loads(lines[i]).Some? && p.loads(lines[i]).value.Obj?
      && FromDict(p, p.loads(lines[i]).value.fields) == Some(records[i])
  }

  /** A line is accepted after `parsed` exactly when it reads as a linked record. */
  lemma AcceptedIffLinked(p: Platform, line: Bytes, parsed: seq<JournalRecord>, r: JournalRecord)
    ensures CheckLine(p, line, parsed) == Accepted(r)
      <==> ReadsAt(p, [line], [r], 0) && Linked(p, parsed + [r], |parsed|)
  {
    assert (parsed + [r])[..|parsed|] == parsed;
    match p.loads(line) {
      case Some(Obj(d)) => FromDictFields(p, d);
      case _ =>
    }
  }

  lemma FromDictFields(p: Platform, d: Dict)
    ensures var r := FromDict(p, d); r.Some? ==>
      && Get(d, SEQUENCE_NUMBER) == Num(r.value.sequence)
      && Get(d, PREVIOUS_RECORD_HASH) == Str(r.value.previousHash)
      && RecordOk(p, r.value)
  {
  }

  /** Lines end at a line feed, at a carriage return, or at the two together; the last may end with the text. */
  lemma SplitBreaks(line: Bytes, rest: Bytes)
    requires OneLine(line)
    ensures SplitLines(line + "\n" + rest) == [line] + SplitLines(rest)
    ensures SplitLines(line + "\r\n" + rest) == [line] + SplitLines(rest)
    ensures !("\n" <= rest) ==> SplitLines(line + "\r" + rest) == [line] + SplitLines(rest)
    ensures SplitLines(line) == if line == "" then [] else [line]
  {
    SplitFirst(line, rest);
    var k := |line|;
    var crlf, cr := line + "\r\n" + rest, line + "\r" + rest;
    assert crlf[..k] == line && crlf[k] == '\r' && crlf[k + 1] == '\n' && crlf[k + 2..] == rest;
    LineEndIs(crlf, k);
    assert cr[..k] == line && cr[k] == '\r' && cr[k + 1..] == rest;
    LineEndIs(cr, k);
    assert line[..k] == line;
    LineEndIs(line, k);
  }

  /** The scan succeeds exactly on lines that read as a chain continuing `parsed`. */
  lemma {:induction false} ScanSound(p: Platform, lines: seq<Bytes>, parsed: seq<JournalRecord>)
    requires Chain(p, parsed) && ScanLines(p, lines, parsed).Scanned?
    ensures var all := ScanLines(p, lines, parsed).records;
      |all| == |parsed| + |lines| && parsed <= all && Chain(p, all) && Reads(p, lines, all[|parsed|..])
    decreases |lines|
  {
    if lines != [] {
      var r := CheckLine(p, lines[0], parsed).record;
      AcceptedIffLinked(p, lines[0], parsed, r);
      ChainAppend(p, parsed, r);
      ScanSound(p, lines[1..], parsed + [r]);
      var all := ScanLines(p, lines, parsed).records;
      assert all[|parsed|] == (parsed + [r])[|parsed|];
      ReadsCons(p, lines, all[|parsed|..]);
    }
  }

  /** Lines read as records if the first does and the others do. */
  lemma ReadsCons(p: Platform, lines: seq<Bytes>, records: seq<JournalRecord>)
    requires lines != [] && |lines| == |records|
    requires ReadsAt(p, [lines[0]], [records[0]], 0) && Reads(p, lines[1..], records[1..])
    ensures Reads(p, lines, records)
  {
    forall i | 0 <= i < |lines| ensures ReadsAt(p, lines, records, i) {
      assert i > 0 ==> ReadsAt(p, lines[1..], records[1..], i - 1);
    }
  }

  lemma ReadsSplit(p: Platform, lines: seq<Bytes>, records: seq<JournalRecord>)
    requires lines != [] && Reads(p, lines, records)
    ensures ReadsAt(p, [lines[0]], [records[0]], 0) && Reads(p, lines[1..], records[1..])
  {
    assert ReadsAt(p, lines, records, 0);
    forall i | 0 <= i < |lines[1..]| ensures ReadsAt(p, lines[1..], records[1..], i) {
      assert ReadsAt(p, lines, records, i + 1);
    }
  }

  /** The scan steps over one line that reads as the next record of a chain. */
  lemma ScanStep(p: Platform, lines: seq<Bytes>, parsed: seq<JournalRecord>, r: JournalRecord)
    requires lines != [] && ReadsAt(p, [lines[0]], [r], 0) && Chain(p, parsed + [r])
    ensures ScanLines(p, lines, parsed) == ScanLines(p, lines[1..], parsed + [r])
  {
    assert (parsed + [r])[..|parsed|] == parsed && Linked(p, parsed + [r], |parsed|);
    AcceptedIffLinked(p, lines[0], parsed, r);
  }

  lemma {:induction false} ScanComplete(p: Platform, lines: seq<Bytes>, all: seq<JournalRecord>, n: nat)
    requires n <= |all| && Chain(p, all) && Reads(p, lines, all[n..])
    ensures ScanLines(p, lines, all[..n]) == Scanned(all)
    decreases |lines|
  {
    if lines == [] {
      assert all[..n] == all;
    } else {
      ReadsSplit(p, lines, all[n..]);
      ChainPrefix(p, all, n + 1);
      assert all[..n + 1] == all[..n] + [all[n]] && all[n..][1..] == all[n + 1..];
      ScanStep(p, lines, all[..n], all[n]);
      ScanComplete(p, lines[1..], all, n + 1);
    }
  }

  /** The file holds exactly these records, one parseable line each, the last line complete. */
  ghost predicate Holds(p: Platform, raw: Bytes, records: seq<JournalRecord>) {
    (raw == "" || EndsLine(raw)) && Reads(p, SplitLines(raw), records)
  }

  lemma ValidSound(p: Platform, raw: Bytes) returns (records: seq<JournalRecord>)
    requires Classify(p, raw).status.VALID?
    ensures records != [] && Holds(p, raw, records) && WellFormed(p, records) && Classify(p, raw).count == |records|
    ensures ScanLines(p, SplitLines(raw), []) == Scanned(records)
  {
    var lines := SplitLines(raw);
    StopStatus(p, lines, []);
    records := ScanLines(p, lines, []).records;
    ScanSound(p, lines, []);
    assert records[0..] == records;
  }

  lemma ValidComplete(p: Platform, raw: Bytes, records: seq<JournalRecord>)
    requires records != [] && Holds(p, raw, records) && Chain(p, records)
    ensures Classify(p, raw) == Integrity(if NoDuplicates(records) then VALID else CORRUPTED, |records|)
  {
    assert records[..0] == [] && records[0..] == records;
    ScanComplete(p, SplitLines(raw), records, 0);
  }

  // ----- which status, and why

  /** Why an object is not the next record after these, by its members in the order of the checks: not numbered on;
      not linked to the last record; not a record at all; or not naming its entity. */
  ghost predicate ObjectOffends(p: Platform, d: Dict, before: seq<JournalRecord>, status: Status) {
    if !IsNumbered(d, |before| + 1) then status == INVALID_SEQUENCE
    else if !IsLinked(d, if before == [] then "" else before[|before| - 1].recordHash) then status == HASH_MISMATCH
    else if !SpellsRecord(p, d) then status == HASH_MISMATCH
    else SpellsStrayRecord(p, d) && status == CORRUPTED
  }

  predicate IsNumbered(d: Dict, n: int) {
    SEQUENCE_NUMBER in d && (d[SEQUENCE_NUMBER] == Num(n) || (n == 1 && d[SEQUENCE_NUMBER] == Bool(true)))
  }

  predicate IsLinked(d: Dict, last: string) {
    PREVIOUS_RECORD_HASH in d && d[PREVIOUS_RECORD_HASH] == Str(last)
  }

  ghost predicate SpellsStrayRecord(p: Platform, d: Dict) {
    exists r :: Spells(p, d, r) && IsRecord(p, r) && !PayloadMatches(r)
  }

  ghost predicate SpellsRecord(p: Platform, d: Dict) {
    exists r :: Spells(p, d, r) && IsRecord(p, r)
  }

  /** A line that is no object offends as well. */
  ghost predicate Offends(p: Platform, line: Bytes, before: seq<JournalRecord>, status: Status) {
    match p.loads(line)
    case Some(Obj(d)) => ObjectOffends(p, d, before, status)
    case _ => status == CORRUPTED
  }

  lemma ReadOrNotARecord(p: Platform, d: Dict)
    ensures FromDict(p, d).Some? <==> SpellsRecord(p, d)
    ensures FromDict(p, d).Some? ==> Spells(p, d, FromDict(p, d).value) && IsRecord(p, FromDict(p, d).value)
  {
    forall r ensures FromDict(p, d) == Some(r) <==> Spells(p, d, r) && IsRecord(p, r) {
      FromDictExactly(p, d, r);
    }
  }

  lemma CheckReadIs(d: Dict, before: seq<JournalRecord>, read: Option<JournalRecord>)
    ensures CheckRead(d, before, read) ==
      if !IsNumbered(d, |before| + 1) then Refused(INVALID_SEQUENCE)
      else if !IsLinked(d, if before == [] then "" else before[|before| - 1].recordHash) then Refused(HASH_MISMATCH)
      else if read.None? then Refused(HASH_MISMATCH)
      else if PayloadMatches(read.value) then Accepted(read.value) else Refused(CORRUPTED)
  {
    if read.Some? {
      RequiredMatches(read.value);
    }
  }

  lemma RefusedObject(p: Platform, d: Dict, before: seq<JournalRecord>, read: Option<JournalRecord>)
    requires read.Some? <==> SpellsRecord(p, d)
    requires read.Some? ==> Spells(p, d, read.value) && IsRecord(p, read.value)
    requires CheckRead(d, before, read).Refused?
    ensures ObjectOffends(p, d, before, CheckRead(d, before, read).status)
  {
    CheckReadIs(d, before, read);
  }

  lemma RefusedOffends(p: Platform, line: Bytes, before: seq<JournalRecord>)
    requires CheckLine(p, line, before).Refused?
    ensures Offends(p, line, before, CheckLine(p, line, before).status)
  {
    match p.loads(line) {
      case Some(Obj(d)) =>
        ReadOrNotARecord(p, d);
        RefusedObject(p, d, before, FromDict(p, d));
      case _ =>
    }
  }

  /** The check of the loop against the list of required keys is the match of the payload. */
  lemma RequiredMatches(r: JournalRecord)
    ensures var required := Required(r.recordType);
      PayloadMatches(r) <==>
      Get(r.payload, required[0]) == Str(r.entityId) && forall k :: k in required ==> k in r.payload
  {
    assert Required(r.recordType)[1] in Required(r.recordType) && Required(r.recordType)[2] in Required(r.recordType);
  }

  /** The first lines are a chain of these records. */
  ghost predicate Begins(p: Platform, lines: seq<Bytes>, records: seq<JournalRecord>) {
    |records| <= |lines| && Reads(p, lines[..|records|], records) && Chain(p, records)
  }

  /** The scan ends with these records, or on the line after them. */
  predicate ScanEnds(p: Platform, lines: seq<Bytes>, records: seq<JournalRecord>, scan: Scan) {
    if |records| < |lines| then
      var check := CheckLine(p, lines[|records|], records);
      check.Refused? && scan == Stopped(Integrity(check.status, |records|))
    else scan == Scanned(records)
  }

  lemma {:induction false} ScanFinds(p: Platform, lines: seq<Bytes>, n: nat, parsed: seq<JournalRecord>)
    returns (all: seq<JournalRecord>)
    requires n == |parsed| && Begins(p, lines, parsed)
    ensures Begins(p, lines, all) && ScanEnds(p, lines, all, ScanLines(p, lines[n..], parsed))
    decreases |lines| - n
  {
    all := parsed;
    if n < |lines| {
      ScanNext(p, lines, n, parsed);
      if CheckLine(p, lines[n], parsed).Accepted? {
        var r := AcceptedContinues(p, lines, n, parsed);
        all := ScanFinds(p, lines, n + 1, parsed + [r]);
      }
    }
  }

  lemma AcceptedContinues(p: Platform, lines: seq<Bytes>, n: nat, parsed: seq<JournalRecord>)
    returns (r: JournalRecord)
    requires n == |parsed| < |lines| && Begins(p, lines, parsed) && CheckLine(p, lines[n], parsed).Accepted?
    ensures CheckLine(p, lines[n], parsed) == Accepted(r) && Begins(p, lines, parsed + [r])
  {
    r := CheckLine(p, lines[n], parsed).record;
    AcceptedIffLinked(p, lines[n], parsed, r);
    LinkedContinues(p, lines, n, parsed, r);
  }

  lemma LinkedContinues(p: Platform, lines: seq<Bytes>, n: nat, parsed: seq<JournalRecord>, r: JournalRecord)
    requires n == |parsed| < |lines| && Begins(p, lines, parsed)
    requires ReadsAt(p, [lines[n]], [r], 0) && Linked(p, parsed + [r], |parsed|)
    ensures Begins(p, lines, parsed + [r])
  {
    ChainAppend(p, parsed, r);
    ReadsAppend(p, lines[..n], parsed, lines[n], r);
    assert lines[..n + 1] == lines[..n] + [lines[n]];
  }

  lemma ScanNext(p: Platform, lines: seq<Bytes>, n: nat, parsed: seq<JournalRecord>)
    requires n < |lines|
    ensures ScanLines(p, lines[n..], parsed) ==
      match CheckLine(p, lines[n], parsed)
      case Refused(status) => Stopped(Integrity(status, |parsed|))
      case Accepted(r) => ScanLines(p, lines[n + 1..], parsed + [r])
  {
    assert lines[n..][0] == lines[n] && lines[n..][1..] == lines[n + 1..];
  }

  ghost predicate Alike(a: JournalRecord, b: JournalRecord) {
    a.recordId == b.recordId || (a.recordType == b.recordType && a.entityId == b.entityId)
  }

  ghost predicate NoTwoAlike(records: seq<JournalRecord>) {
    forall i, j :: 0 <= i < j < |records| ==> !Alike(records[i], records[j])
  }

  lemma {:induction false} EntitiesOf(records: seq<JournalRecord>, t: RecordType, id: string)
    ensures id in EntityIds(records, t)
      <==> exists k :: 0 <= k < |records| && records[k].recordType == t && records[k].entityId == id
    decreases |records|
  {
    if records != [] {
      EntitiesOf(records[..|records| - 1], t, id);
    }
  }

  /** No two records of this type are about the same entity. */
  ghost predicate Apart(records: seq<JournalRecord>, t: RecordType) {
    forall i, j :: 0 <= i < j < |records| && records[i].recordType == records[j].recordType == t ==>
      records[i].entityId != records[j].entityId
  }

  lemma ApartAppend(records: seq<JournalRecord>, t: RecordType)
    requires records != []
    ensures var init, last := records[..|records| - 1], records[|records| - 1];
      Apart(records, t) <==>
        && Apart(init, t)
        && (last.recordType == t ==>
              !exists k :: 0 <= k < |init| && init[k].recordType == t && init[k].entityId == last.entityId)
  {
  }

  lemma {:induction false} DifferentEntities(records: seq<JournalRecord>, t: RecordType)
    ensures AllDifferent(EntityIds(records, t)) <==> Apart(records, t)
    decreases |records|
  {
    if records != [] {
      var init, last := records[..|records| - 1], records[|records| - 1];
      DifferentEntities(init, t);
      EntitiesOf(init, t, last.entityId);
      DifferentAppend(EntityIds(init, t), last.entityId);
      ApartAppend(records, t);
    }
  }

  lemma DifferentAppend(ids: seq<string>, id: string)
    ensures AllDifferent(ids + [id]) <==> AllDifferent(ids) && id !in ids
  {
    var all := ids + [id];
    if id in ids {
      var k :| 0 <= k < |ids| && ids[k] == id;
      assert all[k] == all[|ids|];
    }
    assert forall i :: 0 <= i < |ids| ==> all[i] == ids[i];
  }

  /** The duplicates that the loop looks for are records with one identifier, or of one type and entity. */
  lemma NoDuplicatesIff(records: seq<JournalRecord>)
    ensures NoDuplicates(records) <==> NoTwoAlike(records)
  {
    DifferentEntities(records, AUTHORIZATION);
    DifferentEntities(records, EXECUTION);
    assert AllDifferent(RecordIds(records))
      <==> forall i, j :: 0 <= i < j < |records| ==> records[i].recordId != records[j].recordId by {
      assert forall i :: 0 <= i < |records| ==> RecordIds(records)[i] == records[i].recordId;
    }
  }

  /** The classification of a file by the first thing that is wrong with it, where these are the records before. */
  ghost predicate IsClassified(p: Platform, raw: Bytes, records: seq<JournalRecord>, r: Integrity) {
    var lines := SplitLines(raw);
    if raw == "" then r == Integrity(EMPTY, 0)
    else if raw[|raw| - 1] != '\n' then r == Integrity(TRUNCATED, 0)
    else
      && Begins(p, lines, records) && r.count == |records|
      && if |records| < |lines| then Offends(p, lines[|records|], records, r.status)
         else r.status == if NoTwoAlike(records) then VALID else CORRUPTED
  }

  lemma ClassifiedByFirstOffence(p: Platform, raw: Bytes) returns (records: seq<JournalRecord>)
    ensures IsClassified(p, raw, records, Classify(p, raw))
  {
    records := [];
    if EndsLine(raw) {
      var lines := SplitLines(raw);
      assert lines[0..] == lines && lines[..0] == [];
      records := ScanFinds(p, lines, 0, []);
      if |records| < |SplitLines(raw)| {
        RefusedOffends(p, SplitLines(raw)[|records|], records);
      } else {
        NoDuplicatesIff(records);
      }
    }
  }

  lemma EveryFileIsClassified(p: Platform, raw: Bytes)
    ensures exists records :: IsClassified(p, raw, records, Classify(p, raw))
  {
    var records := ClassifiedByFirstOffence(p, raw);
  }

  /** VALID is reported exactly for files that hold a non-empty well-formed journal. */
  lemma ValidIff(p: Platform, raw: Bytes)
    ensures Classify(p, raw).status.VALID? <==>
      exists records :: records != [] && Holds(p, raw, records) && WellFormed(p, records)
  {
    if Classify(p, raw).status.VALID? {
      var records := ValidSound(p, raw);
    }
    forall records | records != [] && Holds(p, raw, records) && WellFormed(p, records)
      ensures Classify(p, raw).status.VALID?
    {
      ValidComplete(p, raw, records);
    }
  }

  lemma StopStatus(p: Platform, lines: seq<Bytes>, parsed: seq<JournalRecord>)
    ensures var s := ScanLines(p, lines, parsed);
      s.Stopped? ==> !s.integrity.status.VALID? && !s.integrity.status.EMPTY?
    decreases |lines|
  {
  }

  // ----- recovery and append

  datatype Policy = Policy(rejectDuplicates: bool, allowEmptyJournal: bool, maximumRecordBytes: nat, version: string)

  datatype Recovery = IntegrityError | Recovered(records: seq<JournalRecord>, nextSequence: int, lastHash: string)

  /** `_recover_unlocked`; re-reading a VALID file yields the records of the verifying scan. */
  function Recover(p: Platform, policy: Policy, raw: Bytes): Recovery {
    match Classify(p, raw).status
    case EMPTY => if policy.allowEmptyJournal then Recovered([], 1, "") else IntegrityError
    case VALID =>
      var scan := ScanLines(p, SplitLines(raw), []);
      if scan.Scanned? then Recovered(scan.records, |scan.records| + 1, LastHash(scan.records)) else IntegrityError
    case _ => IntegrityError
  }

  datatype Entry = Entry(recordType: RecordType, entityId: string, timestamp: string, payload: Dict)

  function MakeRecord(p: Platform, policy: Policy, entry: Entry, sequence: int, lastHash: string): JournalRecord {
    var draft := JournalRecord(sequence, "", entry.recordType, entry.entityId, entry.timestamp, entry.payload,
                               lastHash, "", policy.version, CURRENT_VERSION, map[]);
    draft.(recordId := RecordId(p, draft), recordHash := RecordHash(p, draft))
  }

  function Line(p: Platform, r: JournalRecord): Bytes {
    p.dumps(Obj(ToDict(r))) + "\n"
  }

  datatype AppendError = IntegrityFailure | DuplicateEntity | DuplicateRecord | InvalidRecord | RecordTooLong

  datatype Preparation = Ready(record: JournalRecord, line: Bytes) | Rejected(error: AppendError)

  /** Everything `_append` decides before it writes. */
  function Prepare(p: Platform, policy: Policy, raw: Bytes, entry: Entry): Preparation {
    match Recover(p, policy, raw)
    case IntegrityError => Rejected(IntegrityFailure)
    case Recovered(records, nextSequence, lastHash) =>
      if policy.rejectDuplicates && entry.entityId in EntityIds(records, entry.recordType)
        then Rejected(DuplicateEntity)
      else
        var r := MakeRecord(p, policy, entry, nextSequence, lastHash);
        if r.recordId in RecordIds(records) then Rejected(DuplicateRecord)
        else if !RecordOk(p, r) then Rejected(InvalidRecord)
        else if |Line(p, r)| > policy.maximumRecordBytes then Rejected(RecordTooLong)
        else Ready(r, Line(p, r))
  }

  /** The file holds these records and they form a journal that recovery accepts; empty files hold none. */
  ghost predicate Journal(p: Platform, raw: Bytes, records: seq<JournalRecord>) {
    Holds(p, raw, records) && WellFormed(p, records) && (raw == "" <==> records == [])
  }

  lemma ScanOfJournal(p: Platform, raw: Bytes, records: seq<JournalRecord>)
    requires Holds(p, raw, records) && Chain(p, records)
    ensures ScanLines(p, SplitLines(raw), []) == Scanned(records)
  {
    assert records[..0] == [] && records[0..] == records;
    ScanComplete(p, SplitLines(raw), records, 0);
  }

  /** Recovery of a journal returns its records, and fails only on an empty file that policy forbids. */
  lemma RecoveryOfJournal(p: Platform, policy: Policy, raw: Bytes, records: seq<JournalRecord>)
    requires Journal(p, raw, records)
    ensures Recover(p, policy, raw) ==
      if records == [] && !policy.allowEmptyJournal then IntegrityError
      else Recovered(records, |records| + 1, LastHash(records))
  {
    if records != [] {
      ValidComplete(p, raw, records);
      ScanOfJournal(p, raw, records);
    }
  }

  /** Recovery succeeds on nothing but journals. */
  lemma RecoveredIsJournal(p: Platform, policy: Policy, raw: Bytes) returns (records: seq<JournalRecord>)
    requires Recover(p, policy, raw).Recovered?
    ensures Journal(p, raw, records) && records == Recover(p, policy, raw).records
  {
    StopStatus(p, SplitLines(raw), []);
    if raw == "" {
      records := [];
    } else {
      records := ValidSound(p, raw);
    }
  }

  /** Files that both verify and end in the same record hash tell the same history, or their texts exhibit a
      collision of the digest. */
  lemma ValidFilesCommit(p: Platform, policy: Policy, f: Bytes, g: Bytes) returns (a: Bytes, b: Bytes)
    requires p.Faithful() && Classify(p, f).status.VALID? && Classify(p, g).status.VALID?
    ensures Recover(p, policy, f).Recovered? && Recover(p, policy, g).Recovered?
    ensures Recover(p, policy, f).lastHash == Recover(p, policy, g).lastHash ==>
      SameHistory(Recover(p, policy, f).records, Recover(p, policy, g).records)
        || (a != b && p.digest(a) == p.digest(b))
  {
    var xs := ValidSound(p, f);
    var ys := ValidSound(p, g);
    RecoveryOfJournal(p, policy, f, xs);
    RecoveryOfJournal(p, policy, g, ys);
    a, b := "", "";
    if LastHash(xs) == LastHash(ys) {
      a, b := LastHashCommits(p, xs, ys);
    }
  }

  /** The record that is about to be written continues the journal with the entry's content. */
  ghost predicate Continues(p: Platform, records: seq<JournalRecord>, entry: Entry, r: JournalRecord) {
    && RecordOk(p, r) && r.recordId !in RecordIds(records)
    && r.sequence == |records| + 1 && r.previousHash == LastHash(records)
    && r.recordType == entry.recordType && r.entityId == entry.entityId
    && r.timestamp == entry.timestamp && r.payload == entry.payload
  }

  lemma ReadyContinues(p: Platform, policy: Policy, raw: Bytes, records: seq<JournalRecord>, entry: Entry)
    requires Journal(p, raw, records) && Prepare(p, policy, raw, entry).Ready?
    ensures var ready := Prepare(p, policy, raw, entry);
      && Continues(p, records, entry, ready.record)
      && ready.record.policyVersion == policy.version && ready.record.journalVersion == "execution_journal_v1"
      && ready.record.metadata == map[]
      && ready.line == p.dumps(Obj(ToDict(ready.record))) + "\n" && |ready.line| <= policy.maximumRecordBytes
      && (policy.rejectDuplicates ==> entry.entityId !in EntityIds(records, entry.recordType))
  {
    RecoveryOfJournal(p, policy, raw, records);
  }

  // ----- which appends go through

  /** The record that an entry would become after these. */
  function Drafted(p: Platform, policy: Policy, records: seq<JournalRecord>, entry: Entry): JournalRecord {
    MakeRecord(p, policy, entry, |records| + 1, LastHash(records))
  }

  predicate Acceptable(p: Platform, policy: Policy, records: seq<JournalRecord>, entry: Entry) {
    && (records == [] ==> policy.allowEmptyJournal)
    && (policy.rejectDuplicates ==> entry.entityId !in EntityIds(records, entry.recordType))
    && p.readTime(entry.timestamp) == Some(entry.timestamp) && Freezable(Obj(entry.payload))
    && !IsBlank(entry.entityId) && !IsBlank(policy.version)
    && |Line(p, Drafted(p, policy, records, entry))| <= policy.maximumRecordBytes
  }

  lemma DraftIsOk(p: Platform, policy: Policy, records: seq<JournalRecord>, entry: Entry)
    requires p.Faithful() && Chain(p, records)
    ensures RecordOk(p, Drafted(p, policy, records, entry)) <==>
      && p.readTime(entry.timestamp) == Some(entry.timestamp) && Freezable(Obj(entry.payload))
      && !IsBlank(entry.entityId) && !IsBlank(policy.version)
  {
    if records != [] {
      ChainAt(p, records, |records| - 1);
    }
    assert !IsBlank(CURRENT_VERSION) by {
      assert CURRENT_VERSION[0] == 'e';
    }
  }

  /** The identifier of a new record is new, or the digest collides. */
  lemma IdIsNew(p: Platform, records: seq<JournalRecord>, r: JournalRecord) returns (a: Bytes, b: Bytes)
    requires p.Faithful() && Chain(p, records) && r.sequence == |records| + 1 && r.recordId == RecordId(p, r)
    ensures r.recordId !in RecordIds(records) || (a != b && p.digest(a) == p.digest(b))
  {
    a, b := "", "";
    if r.recordId in RecordIds(records) {
      var k :| 0 <= k < |records| && RecordIds(records)[k] == r.recordId;
      ChainAt(p, records, k);
      IdTextsDiffer(p, records[k], r);
      a, b := p.dumps(IdBase(p, records[k])), p.dumps(IdBase(p, r));
    }
  }

  /** On a journal an append goes through exactly for an acceptable entry, or two different texts have the same
      digest. */
  lemma ReadyIffAcceptable(p: Platform, policy: Policy, raw: Bytes, records: seq<JournalRecord>, entry: Entry)
    returns (a: Bytes, b: Bytes)
    requires p.Faithful() && Journal(p, raw, records)
    ensures (Prepare(p, policy, raw, entry).Ready? <==> Acceptable(p, policy, records, entry))
      || (a != b && p.digest(a) == p.digest(b))
  {
    RecoveryOfJournal(p, policy, raw, records);
    DraftIsOk(p, policy, records, entry);
    a, b := IdIsNew(p, records, Drafted(p, policy, records, entry));
  }

  /** Why an append to a journal is refused: the file, then the entity, then the record's own fields, then its length;
      or two different texts have the same digest. */
  lemma RefusalReason(p: Platform, policy: Policy, raw: Bytes, records: seq<JournalRecord>, entry: Entry)
    returns (a: Bytes, b: Bytes)
    requires p.Faithful() && Journal(p, raw, records) && !Acceptable(p, policy, records, entry)
    ensures Prepare(p, policy, raw, entry) == Rejected(
              if records == [] && !policy.allowEmptyJournal then IntegrityFailure
              else if policy.rejectDuplicates && entry.entityId in EntityIds(records, entry.recordType)
                then DuplicateEntity
              else if p.readTime(entry.timestamp) != Some(entry.timestamp) || !Freezable(Obj(entry.payload))
                      || IsBlank(entry.entityId) || IsBlank(policy.version) then InvalidRecord
              else RecordTooLong)
            || (a != b && p.digest(a) == p.digest(b))
  {
    RecoveryOfJournal(p, policy, raw, records);
    DraftIsOk(p, policy, records, entry);
    a, b := IdIsNew(p, records, Drafted(p, policy, records, entry));
  }

  lemma ReadsAppend(p: Platform, lines: seq<Bytes>, records: seq<JournalRecord>, text: Bytes, r: JournalRecord)
    requires Reads(p, lines, records) && ReadsAt(p, [text], [r], 0)
    ensures Reads(p, lines + [text], records + [r])
  {
    forall i | 0 <= i < |lines| + 1 ensures ReadsAt(p, lines + [text], records + [r], i) {
      assert i < |lines| ==> ReadsAt(p, lines, records, i);
    }
  }

  /** A record's line is one line that reads back as the record. */
  lemma LineReads(p: Platform, r: JournalRecord)
    requires p.Faithful() && RecordOk(p, r)
    ensures var text := p.dumps(Obj(ToDict(r)));
      OneLine(text) && SplitLines(Line(p, r)) == [text] && ReadsAt(p, [text], [r], 0)
  {
    var text := p.dumps(Obj(ToDict(r)));
    assert p.loads(text) == Some(Obj(ToDict(r)));
    DictRoundTrip(p, r);
    SplitFirst(text, "");
    assert text + "\n" + "" == Line(p, r);
  }

  /** Writing a record's line after complete lines adds exactly that record to what the file holds. */
  lemma LineAddsRecord(p: Platform, raw: Bytes, records: seq<JournalRecord>, r: JournalRecord)
    requires p.Faithful() && Holds(p, raw, records) && RecordOk(p, r)
    ensures Holds(p, raw + Line(p, r), records + [r])
  {
    LineReads(p, r);
    SplitConcat(raw, Line(p, r));
    ReadsAppend(p, SplitLines(raw), records, p.dumps(Obj(ToDict(r))), r);
  }

  lemma NoDuplicatesAppend(records: seq<JournalRecord>, r: JournalRecord)
    requires NoDuplicates(records) && r.recordId !in RecordIds(records)
    ensures NoDuplicates(records + [r]) <==> r.entityId !in EntityIds(records, r.recordType)
  {
    var all := records + [r];
    assert all[..|records|] == records;
    assert RecordIds(all) == RecordIds(records) + [r.recordId];
    var ids := EntityIds(records, r.recordType);
    assert EntityIds(all, r.recordType) == ids + [r.entityId];
    if r.entityId in ids {
      var k :| 0 <= k < |ids| && ids[k] == r.entityId;
      assert EntityIds(all, r.recordType)[k] == EntityIds(all, r.recordType)[|ids|];
    }
  }

  lemma {:induction false} ScanConcat(p: Platform, lines: seq<Bytes>, more: seq<Bytes>, parsed: seq<JournalRecord>)
    ensures ScanLines(p, lines + more, parsed) == match ScanLines(p, lines, parsed)
                                                   case Stopped(i) => Stopped(i)
                                                   case Scanned(records) => ScanLines(p, more, records)
    decreases |lines|
  {
    if lines == [] {
      assert lines + more == more;
    } else {
      assert (lines + more)[1..] == lines[1..] + more;
      match CheckLine(p, lines[0], parsed) {
        case Refused(_) =>
        case Accepted(r) => ScanConcat(p, lines[1..], more, parsed + [r]);
      }
    }
  }

  lemma CheckOwnRead(d: Dict, records: seq<JournalRecord>, r: JournalRecord)
    requires Get(d, SEQUENCE_NUMBER) == Num(|records| + 1) && Get(d, PREVIOUS_RECORD_HASH) == Str(LastHash(records))
    ensures CheckRead(d, records, Some(r)) == if PayloadMatches(r) then Accepted(r) else Refused(CORRUPTED)
  {
  }

  lemma CheckOwnLine(p: Platform, records: seq<JournalRecord>, r: JournalRecord)
    requires p.Faithful() && RecordOk(p, r) && r.sequence == |records| + 1 && r.previousHash == LastHash(records)
    ensures CheckLine(p, p.dumps(Obj(ToDict(r))), records)
         == if PayloadMatches(r) then Accepted(r) else Refused(CORRUPTED)
  {
    assert p.loads(p.dumps(Obj(ToDict(r)))) == Some(Obj(ToDict(r)));
    DictRoundTrip(p, r);
    FromDictFields(p, ToDict(r));
    CheckOwnRead(ToDict(r), records, r);
  }

  lemma LineIsOneLine(p: Platform, r: JournalRecord)
    requires p.Faithful()
    ensures SplitLines(Line(p, r)) == [p.dumps(Obj(ToDict(r)))] && EndsLine(Line(p, r))
  {
    var text := p.dumps(Obj(ToDict(r)));
    assert OneLine(text);
    SplitFirst(text, "");
    assert text + "\n" + "" == Line(p, r);
  }

  /** How a file is classified once a continuing record's line has been added to it. */
  lemma ClassifyAppended(p: Platform, raw: Bytes, records: seq<JournalRecord>, r: JournalRecord)
    requires p.Faithful() && Holds(p, raw, records) && Chain(p, records)
    requires RecordOk(p, r) && r.sequence == |records| + 1 && r.previousHash == LastHash(records)
    ensures Classify(p, raw + Line(p, r)) ==
      if !PayloadMatches(r) then Integrity(CORRUPTED, |records|)
      else Integrity(if NoDuplicates(records + [r]) then VALID else CORRUPTED, |records| + 1)
  {
    LineIsOneLine(p, r);
    SplitConcat(raw, Line(p, r));
    ScanOfJournal(p, raw, records);
    var text := p.dumps(Obj(ToDict(r)));
    ScanConcat(p, SplitLines(raw), [text], []);
    CheckOwnLine(p, records, r);
    ScanOne(p, text, records);
  }

  lemma ScanOne(p: Platform, text: Bytes, parsed: seq<JournalRecord>)
    ensures ScanLines(p, [text], parsed) == match CheckLine(p, text, parsed)
                                            case Refused(status) => Stopped(Integrity(status, |parsed|))
                                            case Accepted(r) => Scanned(parsed + [r])
  {
    assert [text][1..] == [];
  }

  /** An append adds one record to the journal. The file stays VALID exactly when the payload names its
      entity as its record type requires and the entity is new; otherwise it has become CORRUPTED. */
  lemma AppendEffect(p: Platform, policy: Policy, raw: Bytes, records: seq<JournalRecord>, entry: Entry)
    requires p.Faithful() && Journal(p, raw, records) && Prepare(p, policy, raw, entry).Ready?
    ensures var ready := Prepare(p, policy, raw, entry);
      && Holds(p, raw + ready.line, records + [ready.record]) && Continues(p, records, entry, ready.record)
      && Classify(p, raw + ready.line).status ==
           (if PayloadMatches(ready.record) && entry.entityId !in EntityIds(records, entry.recordType) then VALID
            else CORRUPTED)
  {
    ReadyContinues(p, policy, raw, records, entry);
    var r := Prepare(p, policy, raw, entry).record;
    LineAddsRecord(p, raw, records, r);
    ClassifyAppended(p, raw, records, r);
    NoDuplicatesAppend(records, r);
  }

  function EntryOf(r: JournalRecord): Entry {
    Entry(r.recordType, r.entityId, r.timestamp, r.payload)
  }

  lemma EntityIsKnown(records: seq<JournalRecord>, k: nat)
    requires k < |records|
    ensures records[k].entityId in EntityIds(records, records[k].recordType)
    decreases |records|
  {
    if k < |records| - 1 {
      EntityIsKnown(records[..|records| - 1], k);
    }
  }

  /** Where duplicates are not rejected, recording the content of any record once more goes through, length
      permitting, and leaves a CORRUPTED file, or two different texts have the same digest. */
  lemma RepeatCorrupts(p: Platform, policy: Policy, raw: Bytes, records: seq<JournalRecord>, k: nat)
    returns (a: Bytes, b: Bytes)
    requires p.Faithful() && Journal(p, raw, records) && k < |records|
    requires !policy.rejectDuplicates && !IsBlank(policy.version)
    requires |Line(p, Drafted(p, policy, records, EntryOf(records[k])))| <= policy.maximumRecordBytes
    ensures var prepared := Prepare(p, policy, raw, EntryOf(records[k]));
      || (prepared.Ready? && Classify(p, raw + prepared.line).status.CORRUPTED?)
      || (a != b && p.digest(a) == p.digest(b))
  {
    var entry := EntryOf(records[k]);
    assert Linked(p, records, k);
    assert Acceptable(p, policy, records, entry);
    a, b := ReadyIffAcceptable(p, policy, raw, records, entry);
    if Prepare(p, policy, raw, entry).Ready? {
      AppendEffect(p, policy, raw, records, entry);
      EntityIsKnown(records, k);
    }
  }

  /** Appending keeps the journal well-formed exactly under the same condition. */
  lemma AppendKeepsJournal(p: Platform, raw: Bytes, records: seq<JournalRecord>, entry: Entry, r: JournalRecord)
    requires p.Faithful() && Journal(p, raw, records) && Continues(p, records, entry, r)
    ensures Journal(p, raw + Line(p, r), records + [r])
      <==> PayloadMatches(r) && entry.entityId !in EntityIds(records, entry.recordType)
  {
    LineAddsRecord(p, raw, records, r);
    assert (records + [r])[..|records|] == records;
    ChainAppend(p, records, r);
    NoDuplicatesAppend(records, r);
  }

  /** Before and after, the file is a journal, and it has grown by this record. */
  ghost predicate Extends(p: Platform, before: Bytes, after: Bytes, r: JournalRecord) {
    exists records :: Journal(p, before, records) && Journal(p, after, records + [r])
  }

  /** Where duplicates are rejected, a committed record whose payload matches extends the journal. */
  lemma CommittedExtends(p: Platform, policy: Policy, raw: Bytes, entry: Entry)
    requires Prepare(p, policy, raw, entry).Ready?
    ensures var ready := Prepare(p, policy, raw, entry);
      p.Faithful() && policy.rejectDuplicates && PayloadMatches(ready.record) ==>
        Extends(p, raw, raw + ready.line, ready.record)
  {
    if p.Faithful() && policy.rejectDuplicates && PayloadMatches(Prepare(p, policy, raw, entry).record) {
      var records := RecoveredIsJournal(p, policy, raw);
      ReadyContinues(p, policy, raw, records, entry);
      AppendKeepsJournal(p, raw, records, entry, Prepare(p, policy, raw, entry).record);
    }
  }

  // ----- JsonlExecutionJournal over its storage

  datatype AppendReport = Committed(record: JournalRecord) | Failed(error: AppendError) | IncompleteAppend

  class JsonlExecutionJournal {
    const platform: Platform
    const policy: Policy
    var file: Bytes

    constructor (platform: Platform, policy: Policy, file: Bytes)
      ensures this.platform == platform && this.policy == policy && this.file == file
    {
      this.platform, this.policy, this.file := platform, policy, file;
    }

    method VerifyIntegrity() returns (r: Integrity)
      ensures r == Classify(platform, file) && exists records :: IsClassified(platform, file, records, r)
    {
      r := VerifyIntegrityUnlocked(platform, file);
    }

    /** One append under the lock, when the operating system takes `accepted` bytes of the write. */
    method Append(entry: Entry, accepted: nat) returns (r: AppendReport)
      modifies this
      ensures var ready := Prepare(platform, policy, old(file), entry);
        match ready
        case Rejected(error) => r == Failed(error) && file == old(file)
        case Ready(record, line) =>
          if accepted < |line| then r == IncompleteAppend && file == old(file) + line[..accepted]
          else r == Committed(record) && file == old(file) + line
      ensures platform.Faithful() && policy.rejectDuplicates && r.Committed? && PayloadMatches(r.record)
        ==> Extends(platform, old(file), file, r.record)
    {
      var prepared := Prepare(platform, policy, file, entry);
      match prepared {
        case Rejected(error) => r := Failed(error);
        case Ready(record, line) =>
          CommittedExtends(platform, policy, file, entry);
          var written := if accepted < |line| then accepted else |line|;
          file := file + line[..written];
          r := if written != |line| then IncompleteAppend else Committed(record);
      }
    }
  }

  /** An execution that was filled, acknowledged, or found to be a duplicate. */
  predicate Counts(r: JournalRecord) {
    && r.recordType.EXECUTION? && STATUS in r.payload && AUTHORIZATION_ID in r.payload
    && (r.payload[STATUS] == Str("FILLED") || r.payload[STATUS] == Str("ACKNOWLEDGED")
        || r.payload[STATUS] == Str("DUPLICATE"))
  }

  /** Rebuilding the paper broker's memory: the authorizations of the executions that were filled, acknowledged or
      found to be duplicates, each once. */
  method UsedAuthorizations(records: seq<JournalRecord>) returns (ids: seq<Json>)
    requires forall r :: r in records ==> PayloadMatches(r)
    ensures forall i, j :: 0 <= i < j < |ids| ==> ids[i] != ids[j]
    ensures forall v :: v in ids <==>
      exists k :: 0 <= k < |records| && Counts(records[k]) && records[k].payload[AUTHORIZATION_ID] == v
  {
    ids := [];
    for i := 0 to |records|
      invariant forall i, j :: 0 <= i < j < |ids| ==> ids[i] != ids[j]
      invariant forall v :: v in ids <==>
        exists k :: 0 <= k < i && Counts(records[k]) && records[k].payload[AUTHORIZATION_ID] == v
    {
      var r := records[i];
      assert PayloadMatches(r);
      if r.recordType.EXECUTION? && Get(r.payload, STATUS) in {Str("FILLED"), Str("ACKNOWLEDGED"), Str("DUPLICATE")} {
        var id := r.payload[AUTHORIZATION_ID];
        if id !in ids {
          ids := ids + [id];
        }
      }
    }
  }
}
