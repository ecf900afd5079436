/** Any number of writers on one journal file, with exclusive locking, torn writes and crashes. */
module JournalWriters {
  import opened Wrappers
  import opened JsonTree
  import opened JournalRecords
  import opened ExecutionJournal

  /** Where a writer stands inside `_append`. */
  datatype Writer =
    | Idle
    | Waiting(entry: Entry)
    | Holding(entry: Entry)
    | Poised(entry: Entry, record: JournalRecord, line: Bytes)
    | Finished

  datatype World = World(file: Bytes, lock: Option<int>, writers: map<int, Writer>)

  datatype Action =
    | Request(writer: int, wanted: Entry)
    | Acquire(writer: int)
    | Recover(writer: int)
    | Write(writer: int)
    | TornWrite(writer: int, accepted: nat)
    | Release(writer: int)
    | Crash(writer: int)

  /** What `append_authorization` and `append_execution` pass on: the payload carries the entity's own
      identifier and the keys of its record type. */
  predicate IsProjection(entry: Entry) {
    && Get(entry.payload, Required(entry.recordType)[0]) == Str(entry.entityId)
    && forall k :: k in Required(entry.recordType) ==> k in entry.payload
  }

  function At(s: World, w: int): Writer {
    if w in s.writers then s.writers[w] else Idle
  }

  function Move(s: World, w: int, to: Writer): World {
    s.(writers := s.writers[w := to])
  }

  /** Leaving the `with` block, whether normally, by an exception or by the death of the process. */
  function Leave(s: World, w: int): World {
    Move(s, w, Idle).(lock := if s.lock == Some(w) then None else s.lock)
  }

  function AfterRecover(s: World, w: int, preparation: Preparation): World
    requires At(s, w).Holding?
  {
    match preparation
    case Rejected(_) => Leave(s, w)
    case Ready(record, line) => Move(s, w, Poised(At(s, w).entry, record, line))
  }

  /** One atomic step; an action that is not enabled changes nothing. */
  function Next(p: Platform, policy: Policy, locking: bool, s: World, a: Action): World {
    match a
    case Request(w, entry) => if At(s, w).Idle? && IsProjection(entry) then Move(s, w, Waiting(entry)) else s
    case Acquire(w) =>
      if !At(s, w).Waiting? || (locking && s.lock.Some?) then s
      else Move(s, w, Holding(At(s, w).entry)).(lock := if locking then Some(w) else s.lock)
    case Recover(w) =>
      if !At(s, w).Holding? then s
      else AfterRecover(s, w, Prepare(p, policy, s.file, At(s, w).entry))
    case Write(w) => if !At(s, w).Poised? then s else Move(s, w, Finished).(file := s.file + At(s, w).line)
    case TornWrite(w, n) =>
      if !At(s, w).Poised? || n >= |At(s, w).line| then s else Leave(s, w).(file := s.file + At(s, w).line[..n])
    case Release(w) => if At(s, w).Finished? then Leave(s, w) else s
    case Crash(w) => Leave(s, w)
  }

  function Run(p: Platform, policy: Policy, locking: bool, s: World, actions: seq<Action>): World
    decreases |actions|
  {
    if actions == [] then s else Run(p, policy, locking, Next(p, policy, locking, s, actions[0]), actions[1..])
  }

  /** The file is the encoding of a journal followed by an unterminated tail, empty unless a write was torn. */
  ghost predicate FileIs(p: Platform, file: Bytes, records: seq<JournalRecord>, tail: Bytes) {
    && |tail| <= |file| && file[|file| - |tail|..] == tail && OneLine(tail)
    && Journal(p, file[..|file| - |tail|], records)
  }

  ghost predicate WriterOk(p: Platform, s: World, records: seq<JournalRecord>, tail: Bytes, w: int) {
    && (At(s, w).Holding? || At(s, w).Poised? || At(s, w).Finished? ==> s.lock == Some(w))
    && (At(s, w).Waiting? || At(s, w).Holding? || At(s, w).Poised? ==> IsProjection(At(s, w).entry))
    && (At(s, w).Poised? ==>
          && tail == "" && At(s, w).line == Line(p, At(s, w).record)
          && Continues(p, records, At(s, w).entry, At(s, w).record)
          && At(s, w).entry.entityId !in EntityIds(records, At(s, w).entry.recordType))
  }

  ghost predicate Safe(p: Platform, s: World, records: seq<JournalRecord>, tail: Bytes) {
    && FileIs(p, s.file, records, tail)
    && forall w {:trigger WriterOk(p, s, records, tail, w)} :: WriterOk(p, s, records, tail, w)
  }

  /** What the status of a file with a known journal part and tail is. */
  lemma StatusOfFile(p: Platform, policy: Policy, file: Bytes, records: seq<JournalRecord>, tail: Bytes)
    requires FileIs(p, file, records, tail)
    ensures Classify(p, file).status == if tail != "" then TRUNCATED else if records == [] then EMPTY else VALID
    ensures tail != "" ==> ExecutionJournal.Recover(p, policy, file) == IntegrityError
    ensures tail != "" ==> forall entry :: Prepare(p, policy, file, entry) == Rejected(IntegrityFailure)
  {
    if tail == "" {
      assert file[..|file|] == file;
      if records != [] {
        ValidComplete(p, file, records);
      }
    } else {
      assert file[|file| - 1] == tail[|tail| - 1];
    }
  }

  lemma TornTail(p: Platform, file: Bytes, records: seq<JournalRecord>, r: JournalRecord, n: nat)
    requires p.Faithful() && Journal(p, file, records) && n < |Line(p, r)|
    ensures FileIs(p, file + Line(p, r)[..n], records, Line(p, r)[..n])
  {
    var text := p.dumps(Obj(ToDict(r)));
    assert OneLine(text);
    var tail := Line(p, r)[..n];
    assert forall i :: 0 <= i < n ==> tail[i] == text[i];
    assert (file + tail)[..|file|] == file;
  }

  /** A step of one writer leaves the others as they were, so only its own entry needs checking. */
  lemma Assemble(p: Platform, s: World, s': World, w: int, records: seq<JournalRecord>, tail: Bytes,
                 records': seq<JournalRecord>, tail': Bytes)
    requires Safe(p, s, records, tail)
    requires FileIs(p, s'.file, records', tail') && WriterOk(p, s', records', tail', w)
    requires forall v :: v != w ==> At(s', v) == At(s, v)
    requires s'.lock == s.lock || (s.lock.None? && s'.lock == Some(w)) || (s.lock == Some(w) && s'.lock.None?)
    requires s.lock == Some(w) || (records' == records && tail' == tail)
    ensures Safe(p, s', records', tail')
  {
    forall v ensures WriterOk(p, s', records', tail', v) {
      assert WriterOk(p, s, records, tail, v);
    }
  }

  /** A successful preparation means an untorn file and a record that continues its journal. */
  ghost predicate Sane(p: Platform, records: seq<JournalRecord>, tail: Bytes, entry: Entry, preparation: Preparation) {
    preparation.Ready? ==>
      && tail == "" && preparation.line == Line(p, preparation.record)
      && Continues(p, records, entry, preparation.record)
      && entry.entityId !in EntityIds(records, entry.recordType)
  }

  lemma PreparationIsSane(p: Platform, policy: Policy, file: Bytes, records: seq<JournalRecord>, tail: Bytes,
                          entry: Entry)
    requires policy.rejectDuplicates && FileIs(p, file, records, tail)
    ensures Sane(p, records, tail, entry, Prepare(p, policy, file, entry))
  {
    StatusOfFile(p, policy, file, records, tail);
    if Prepare(p, policy, file, entry).Ready? {
      assert file[..|file|] == file;
      ReadyContinues(p, policy, file, records, entry);
    }
  }

  lemma AfterRecoverKeepsSafe(p: Platform, s: World, w: int, records: seq<JournalRecord>, tail: Bytes,
                              preparation: Preparation)
    requires Safe(p, s, records, tail) && At(s, w).Holding? && Sane(p, records, tail, At(s, w).entry, preparation)
    ensures Safe(p, AfterRecover(s, w, preparation), records, tail)
  {
    assert WriterOk(p, s, records, tail, w);
    Assemble(p, s, AfterRecover(s, w, preparation), w, records, tail, records, tail);
  }

  lemma WholeFileIs(p: Platform, file: Bytes, records: seq<JournalRecord>)
    ensures FileIs(p, file, records, "") <==> Journal(p, file, records)
  {
    assert file[..|file|] == file && file[|file|..] == "";
  }

  /** A prepared line of a projection extends a journal without a tail to another one. */
  lemma LineKeepsFile(p: Platform, file: Bytes, records: seq<JournalRecord>, entry: Entry, r: JournalRecord)
    requires p.Faithful() && FileIs(p, file, records, "") && IsProjection(entry) && Continues(p, records, entry, r)
    requires entry.entityId !in EntityIds(records, entry.recordType)
    ensures FileIs(p, file + Line(p, r), records + [r], "")
  {
    WholeFileIs(p, file, records);
    ProjectionMatches(entry, r);
    AppendKeepsJournal(p, file, records, entry, r);
    WholeFileIs(p, file + Line(p, r), records + [r]);
  }

  lemma WriteKeepsSafe(p: Platform, policy: Policy, s: World, w: int, records: seq<JournalRecord>, tail: Bytes)
    requires p.Faithful() && Safe(p, s, records, tail) && At(s, w).Poised?
    ensures tail == "" && Safe(p, Next(p, policy, true, s, Write(w)), records + [At(s, w).record], "")
  {
    assert WriterOk(p, s, records, tail, w);
    var s' := Next(p, policy, true, s, Write(w));
    LineKeepsFile(p, s.file, records, At(s, w).entry, At(s, w).record);
    Assemble(p, s, s', w, records, tail, records + [At(s, w).record], "");
  }

  lemma ProjectionMatches(entry: Entry, r: JournalRecord)
    requires IsProjection(entry)
    requires r.recordType == entry.recordType && r.entityId == entry.entityId && r.payload == entry.payload
    ensures PayloadMatches(r)
  {
  }

  lemma TornKeepsSafe(p: Platform, policy: Policy, s: World, w: int, n: nat, records: seq<JournalRecord>, tail: Bytes)
    returns (tail': Bytes)
    requires p.Faithful() && Safe(p, s, records, tail) && At(s, w).Poised? && n < |At(s, w).line|
    ensures tail == "" && Safe(p, Next(p, policy, true, s, TornWrite(w, n)), records, tail')
  {
    assert WriterOk(p, s, records, tail, w);
    assert s.file[..|s.file|] == s.file;
    TornTail(p, s.file, records, At(s, w).record, n);
    tail' := At(s, w).line[..n];
    Assemble(p, s, Next(p, policy, true, s, TornWrite(w, n)), w, records, tail, records, tail');
  }

  /** Each step keeps the invariant, only ever adds to the journal, and leaves a torn file alone. */
  lemma StepKeepsSafe(p: Platform, policy: Policy, s: World, a: Action, records: seq<JournalRecord>, tail: Bytes)
    returns (records': seq<JournalRecord>, tail': Bytes)
    requires p.Faithful() && policy.rejectDuplicates && Safe(p, s, records, tail)
    ensures Safe(p, Next(p, policy, true, s, a), records', tail') && records <= records'
    ensures tail != "" ==> records' == records && tail' == tail && Next(p, policy, true, s, a).file == s.file
  {
    records', tail' := records, tail;
    var w := a.writer;
    match a {
      case Recover(_) =>
        if At(s, w).Holding? {
          PreparationIsSane(p, policy, s.file, records, tail, At(s, w).entry);
          AfterRecoverKeepsSafe(p, s, w, records, tail, Prepare(p, policy, s.file, At(s, w).entry));
        }
      case Write(_) =>
        if At(s, w).Poised? {
          WriteKeepsSafe(p, policy, s, w, records, tail);
          records' := records + [At(s, w).record];
        }
      case TornWrite(_, n) =>
        if At(s, w).Poised? && n < |At(s, w).line| {
          tail' := TornKeepsSafe(p, policy, s, w, n, records, tail);
        }
      case _ =>
        assert WriterOk(p, s, records, tail, w);
        Assemble(p, s, Next(p, policy, true, s, a), w, records, tail, records, tail);
    }
  }

  /** Over every interleaving of any number of writers, with torn writes and crashes anywhere. */
  lemma {:induction false} RunKeepsSafe(p: Platform, policy: Policy, s: World, actions: seq<Action>,
                                        records: seq<JournalRecord>, tail: Bytes)
    returns (records': seq<JournalRecord>, tail': Bytes)
    requires p.Faithful() && policy.rejectDuplicates && Safe(p, s, records, tail)
    ensures Safe(p, Run(p, policy, true, s, actions), records', tail') && records <= records'
    ensures tail != "" ==> records' == records && tail' == tail && Run(p, policy, true, s, actions).file == s.file
    decreases |actions|
  {
    if actions == [] {
      records', tail' := records, tail;
    } else {
      records', tail' := StepKeepsSafe(p, policy, s, actions[0], records, tail);
      records', tail' := RunKeepsSafe(p, policy, Next(p, policy, true, s, actions[0]), actions[1..], records', tail');
    }
  }

  /** What every reachable file looks like to a reader, and that a torn file is final: from then on no
      recovery and no append succeeds, so no part of the history is ever dropped or overwritten. */
  lemma ReachableFiles(p: Platform, policy: Policy, s: World, actions: seq<Action>, later: seq<Action>)
    requires p.Faithful() && policy.rejectDuplicates && s == World("", None, map[])
    ensures var file := Run(p, policy, true, s, actions).file;
      && Classify(p, file).status in {EMPTY, VALID, TRUNCATED}
      && file <= Run(p, policy, true, s, actions + later).file
      && (Classify(p, file).status.TRUNCATED? ==>
            && Run(p, policy, true, s, actions + later).file == file
            && ExecutionJournal.Recover(p, policy, file) == IntegrityError
            && forall entry :: Prepare(p, policy, file, entry) == Rejected(IntegrityFailure))
  {
    assert Safe(p, s, [], "");
    var records, tail := RunKeepsSafe(p, policy, s, actions, [], "");
    var mid := Run(p, policy, true, s, actions);
    StatusOfFile(p, policy, mid.file, records, tail);
    RunConcat(p, policy, true, s, actions, later);
    var records', tail' := RunKeepsSafe(p, policy, mid, later, records, tail);
    FileOnlyGrows(p, policy, true, mid, later);
  }

  /** No authorization and no execution identifier is ever recorded twice. */
  lemma NoIdentifierTwice(p: Platform, policy: Policy, actions: seq<Action>)
    returns (records: seq<JournalRecord>, tail: Bytes)
    requires p.Faithful() && policy.rejectDuplicates
    ensures FileIs(p, Run(p, policy, true, World("", None, map[]), actions).file, records, tail)
    ensures forall i, j :: 0 <= i < j < |records| && records[i].recordType == records[j].recordType
                           ==> records[i].entityId != records[j].entityId
  {
    var s := World("", None, map[]);
    assert Safe(p, s, [], "");
    records, tail := RunKeepsSafe(p, policy, s, actions, [], "");
    forall i, j | 0 <= i < j < |records| && records[i].recordType == records[j].recordType
      ensures records[i].entityId != records[j].entityId
    {
      SameTypeDiffers(records, i, j);
    }
  }

  /** Positions of a record's identifier in the list of its type grow with the position of the record. */
  lemma {:induction false} IdPosition(records: seq<JournalRecord>, t: RecordType, i: nat) returns (k: nat)
    requires i < |records| && records[i].recordType == t
    ensures k == |EntityIds(records[..i], t)| && k < |EntityIds(records, t)|
    ensures EntityIds(records, t)[k] == records[i].entityId
    decreases |records|
  {
    var init := records[..|records| - 1];
    if i == |records| - 1 {
      k := |EntityIds(init, t)|;
    } else {
      assert init[..i] == records[..i];
      k := IdPosition(init, t, i);
    }
  }

  lemma SameTypeDiffers(records: seq<JournalRecord>, i: nat, j: nat)
    requires NoDuplicates(records) && i < j < |records| && records[i].recordType == records[j].recordType
    ensures records[i].entityId != records[j].entityId
  {
    var t := records[i].recordType;
    var k := IdPosition(records, t, i);
    var k' := IdPosition(records, t, j);
    assert records[..j][..i] == records[..i];
    var k'' := IdPosition(records[..j], t, i);
    assert k == k'' < k';
  }

  lemma {:induction false} RunConcat(p: Platform, policy: Policy, locking: bool, s: World, a: seq<Action>,
                                     b: seq<Action>)
    ensures Run(p, policy, locking, s, a + b) == Run(p, policy, locking, Run(p, policy, locking, s, a), b)
    decreases |a|
  {
    if a == [] {
      assert a + b == b;
    } else {
      assert (a + b)[0] == a[0] && (a + b)[1..] == a[1..] + b;
      RunConcat(p, policy, locking, Next(p, policy, locking, s, a[0]), a[1..], b);
    }
  }

  lemma {:induction false} FileOnlyGrows(p: Platform, policy: Policy, locking: bool, s: World, actions: seq<Action>)
    ensures s.file <= Run(p, policy, locking, s, actions).file
    decreases |actions|
  {
    if actions != [] {
      FileOnlyGrows(p, policy, locking, Next(p, policy, locking, s, actions[0]), actions[1..]);
    }
  }

  // ----- a writer that nothing comes between

  /** The three steps up to the prepared line. */
  ghost function Prepared(p: Platform, policy: Policy, s: World, w: int, entry: Entry): World {
    var requested := Next(p, policy, true, s, Request(w, entry));
    Next(p, policy, true, Next(p, policy, true, requested, Acquire(w)), Recover(w))
  }

  /** From a free lock an idle writer that is not interrupted prepares its line under the lock, or has its entry
      refused and leaves everything as it was. */
  lemma PreparesAlone(p: Platform, policy: Policy, s: World, w: int, entry: Entry)
    requires At(s, w).Idle? && s.lock.None? && IsProjection(entry)
    ensures var s' := Prepared(p, policy, s, w, entry);
      && s'.file == s.file
      && match Prepare(p, policy, s.file, entry)
         case Rejected(_) => s'.lock.None? && At(s', w).Idle?
         case Ready(record, line) => s'.lock == Some(w) && At(s', w) == Poised(entry, record, line)
  {
    var s1 := Next(p, policy, true, s, Request(w, entry));
    assert At(s1, w) == Waiting(entry) && s1.lock.None? && s1.file == s.file;
    var s2 := Next(p, policy, true, s1, Acquire(w));
    assert At(s2, w) == Holding(entry) && s2.lock == Some(w) && s2.file == s.file;
    assert Prepared(p, policy, s, w, entry) == AfterRecover(s2, w, Prepare(p, policy, s.file, entry));
  }

  /** A writer with a prepared line writes it whole and then gives up the lock, or tears it and gives up at once. */
  lemma WritesAlone(p: Platform, policy: Policy, s: World, w: int, n: nat)
    requires At(s, w).Poised? && s.lock == Some(w)
    ensures var written := Next(p, policy, true, s, Write(w));
      var released := Next(p, policy, true, written, Release(w));
      && written.file == s.file + At(s, w).line && written.lock == Some(w)
      && released.file == written.file && released.lock.None? && At(released, w).Idle?
    ensures n < |At(s, w).line| ==>
      var torn := Next(p, policy, true, s, TornWrite(w, n));
      torn.file == s.file + At(s, w).line[..n] && torn.lock.None? && At(torn, w).Idle?
  {
  }

  /** A writer that dies leaves the file and the other writers alone, is idle when it comes back, and holds the lock no
      more; it takes no lock away from another. */
  lemma CrashesAlone(p: Platform, policy: Policy, locking: bool, s: World, w: int, other: int)
    ensures var s' := Next(p, policy, locking, s, Crash(w));
      && s'.file == s.file && At(s', w).Idle? && (other != w ==> At(s', other) == At(s, other))
      && s'.lock == if s.lock == Some(w) then None else s.lock
  {
  }

  // ----- why the lock is needed

  /** Two records prepared against the same journal cannot both be written: the second repeats a sequence number. */
  lemma StaleWriteBreaksSequence(p: Platform, raw: Bytes, records: seq<JournalRecord>,
                                 first: Entry, r1: JournalRecord, second: Entry, r2: JournalRecord)
    requires p.Faithful() && Journal(p, raw, records) && IsProjection(first)
    requires Continues(p, records, first, r1) && Continues(p, records, second, r2)
    ensures Classify(p, raw + Line(p, r1) + Line(p, r2)) == Integrity(INVALID_SEQUENCE, |records| + 1)
  {
    ProjectionMatches(first, r1);
    LineAddsRecord(p, raw, records, r1);
    assert (records + [r1])[..|records|] == records;
    ChainAppend(p, records, r1);
    StaleAppended(p, raw + Line(p, r1), records + [r1], r2);
  }

  lemma StaleAppended(p: Platform, raw: Bytes, records: seq<JournalRecord>, r: JournalRecord)
    requires p.Faithful() && Holds(p, raw, records) && Chain(p, records) && r.sequence == |records|
    ensures Classify(p, raw + Line(p, r)) == Integrity(INVALID_SEQUENCE, |records|)
  {
    ScanOfJournal(p, raw, records);
    LineIsOneLine(p, r);
    SplitConcat(raw, Line(p, r));
    var text := p.dumps(Obj(ToDict(r)));
    StaleLine(p, records, r);
    ScanConcat(p, SplitLines(raw), [text], []);
    ScanOne(p, text, records);
  }

  lemma WrongSequence(p: Platform, d: Dict, parsed: seq<JournalRecord>, n: int)
    requires Get(d, SEQUENCE_NUMBER) == Num(n) && n != |parsed| + 1
    ensures CheckDict(p, d, parsed) == Refused(INVALID_SEQUENCE)
  {
  }

  lemma StaleLine(p: Platform, parsed: seq<JournalRecord>, r: JournalRecord)
    requires p.Faithful() && r.sequence == |parsed|
    ensures CheckLine(p, p.dumps(Obj(ToDict(r))), parsed) == Refused(INVALID_SEQUENCE)
  {
    var d := ToDict(r);
    WrongSequence(p, d, parsed, r.sequence);
    assert p.loads(p.dumps(Obj(d))) == Some(Obj(d));
  }

  lemma RunCons(p: Platform, policy: Policy, locking: bool, s: World, a: Action, rest: seq<Action>)
    ensures Run(p, policy, locking, s, [a] + rest) == Run(p, policy, locking, Next(p, policy, locking, s, a), rest)
  {
    assert ([a] + rest)[1..] == rest;
  }

  function Overlap(first: Entry, second: Entry): seq<Action> {
    [Request(1, first)] + ([Request(2, second)] + ([Acquire(1)] + ([Acquire(2)] +
    ([Recover(1)] + ([Recover(2)] + ([Write(1)] + ([Write(2)] + [])))))))
  }

  lemma RecoverReady(p: Platform, policy: Policy, s: World, w: int, preparation: Preparation)
    requires At(s, w).Holding? && preparation == Prepare(p, policy, s.file, At(s, w).entry) && preparation.Ready?
    ensures Next(p, policy, false, s, Recover(w))
      == Move(s, w, Poised(At(s, w).entry, preparation.record, preparation.line))
  {
  }

  lemma OverlapEntersBoth(p: Platform, policy: Policy, raw: Bytes, first: Entry, second: Entry, rest: seq<Action>)
    requires IsProjection(first) && IsProjection(second)
    ensures Run(p, policy, false, World(raw, None, map[]),
                [Request(1, first)] + ([Request(2, second)] + ([Acquire(1)] + ([Acquire(2)] + rest))))
         == Run(p, policy, false, World(raw, None, map[1 := Holding(first), 2 := Holding(second)]), rest)
  {
    var s0 := World(raw, None, map[]);
    var s1 := Move(s0, 1, Waiting(first));
    var s2 := Move(s1, 2, Waiting(second));
    var s3 := Move(s2, 1, Holding(first));
    RunCons(p, policy, false, s0, Request(1, first), [Request(2, second)] + ([Acquire(1)] + ([Acquire(2)] + rest)));
    RunCons(p, policy, false, s1, Request(2, second), [Acquire(1)] + ([Acquire(2)] + rest));
    RunCons(p, policy, false, s2, Acquire(1), [Acquire(2)] + rest);
    RunCons(p, policy, false, s3, Acquire(2), rest);
    assert Move(s3, 2, Holding(second)).writers == map[1 := Holding(first), 2 := Holding(second)];
  }

  lemma OverlapWritesBoth(p: Platform, policy: Policy, raw: Bytes, first: Entry, second: Entry, one: Preparation,
                          two: Preparation)
    requires IsProjection(first) && IsProjection(second)
    requires one == Prepare(p, policy, raw, first) && two == Prepare(p, policy, raw, second) && one.Ready? && two.Ready?
    ensures Run(p, policy, false, World(raw, None, map[]), Overlap(first, second)).file == raw + one.line + two.line
  {
    var writes := [Write(1)] + ([Write(2)] + []);
    OverlapEntersBoth(p, policy, raw, first, second, [Recover(1)] + ([Recover(2)] + writes));
    var s4 := World(raw, None, map[1 := Holding(first), 2 := Holding(second)]);
    var s5 := Move(s4, 1, Poised(first, one.record, one.line));
    var s6 := Move(s5, 2, Poised(second, two.record, two.line));
    RecoverReady(p, policy, s4, 1, one);
    RecoverReady(p, policy, s5, 2, two);
    RunCons(p, policy, false, s4, Recover(1), [Recover(2)] + writes);
    RunCons(p, policy, false, s5, Recover(2), writes);
    BothWrites(p, policy, s6, writes);
  }

  lemma BothWrites(p: Platform, policy: Policy, s: World, writes: seq<Action>)
    requires At(s, 1).Poised? && At(s, 2).Poised? && writes == [Write(1)] + ([Write(2)] + [])
    ensures Run(p, policy, false, s, writes).file == s.file + At(s, 1).line + At(s, 2).line
  {
    RunCons(p, policy, false, s, Write(1), [Write(2)] + []);
    RunCons(p, policy, false, Next(p, policy, false, s, Write(1)), Write(2), []);
  }

  /** With locking switched off, two writers that overlap destroy a valid journal. */
  lemma WithoutLockOverlapCorrupts(p: Platform, policy: Policy, raw: Bytes, records: seq<JournalRecord>, first: Entry,
                                   second: Entry)
    requires p.Faithful() && Journal(p, raw, records) && IsProjection(first) && IsProjection(second)
    requires Prepare(p, policy, raw, first).Ready? && Prepare(p, policy, raw, second).Ready?
    ensures Classify(p, Run(p, policy, false, World(raw, None, map[]), Overlap(first, second)).file).status
      == INVALID_SEQUENCE
  {
    var one, two := Prepare(p, policy, raw, first), Prepare(p, policy, raw, second);
    ReadyContinues(p, policy, raw, records, first);
    ReadyContinues(p, policy, raw, records, second);
    OverlapWritesBoth(p, policy, raw, first, second, one, two);
    StaleWriteBreaksSequence(p, raw, records, first, one.record, second, two.record);
  }
}
