/** The durable registry shared by any number of processes, and the protocol that they run on it. */
module AuthorizationRegistry {
  import opened Wrappers
  import opened Text
  import opened Authorization

  datatype Row = Row(payload: Payload, consumedAt: Option<Timestamp>, revokedAt: Option<Timestamp>)
  datatype EvidenceRow = EvidenceRow(revokedAt: Option<Timestamp>, supersededAt: Option<Timestamp>)
  datatype Db = Db(authorizations: map<string, Row>, evidence: map<string, EvidenceRow>)

  datatype Column = REVOKED_AT | SUPERSEDED_AT

  function Known(p: Platform, db: Db, id: string): Option<Authorization> {
    if id in db.authorizations then FromPayload(p, db.authorizations[id].payload) else None
  }

  predicate ApprovalClear(db: Db, approvalId: string) {
    approvalId in db.evidence ==> db.evidence[approvalId].revokedAt.None? && db.evidence[approvalId].supersededAt.None?
  }

  predicate EvidenceClear(db: Db, a: Authorization) {
    ApprovalClear(db, a.riskApprovalId) && ApprovalClear(db, a.complianceApprovalId)
  }

  predicate RowAllows(db: Db, a: Authorization)
    requires a.authorizationId in db.authorizations
  {
    var row := db.authorizations[a.authorizationId];
    row.revokedAt.None? && (a.singleUse ==> row.consumedAt.None?)
  }

  predicate Unmarked(row: EvidenceRow) {
    row.revokedAt.None? && row.supersededAt.None?
  }

  /** Everything that must hold at one instant for `a` to authorize `i` at time `now`: it is stored as it is, not
      revoked, not used before if that is to happen once, neither piece of evidence is revoked or superseded, and it
      is an authorization of this intent at this time. */
  predicate Consumable(p: Platform, db: Db, i: Intent, a: Authorization, now: Timestamp) {
    && a.authorizationId in db.authorizations
    && FromPayload(p, db.authorizations[a.authorizationId].payload) == Some(a)
    && db.authorizations[a.authorizationId].revokedAt.None?
    && !(a.singleUse && db.authorizations[a.authorizationId].consumedAt.Some?)
    && (a.riskApprovalId in db.evidence ==> Unmarked(db.evidence[a.riskApprovalId]))
    && (a.complianceApprovalId in db.evidence ==> Unmarked(db.evidence[a.complianceApprovalId]))
    && Authorizes(p, a, i, now)
  }

  lemma ConsumableParts(p: Platform, db: Db, i: Intent, a: Authorization, now: Timestamp)
    ensures Consumable(p, db, i, a, now) <==>
      && Known(p, db, a.authorizationId) == Some(a) && RowAllows(db, a) && EvidenceClear(db, a)
      && ValidForConsumption(p, i, a, now)
  {
    ConsumesExactly(p, i, a, now);
  }

  function Inserted(p: Platform, db: Db, a: Authorization): Db {
    db.(authorizations := db.authorizations[a.authorizationId := Row(ToPayload(p, a), None, None)])
  }

  function Consumed(db: Db, a: Authorization, now: Timestamp): Db {
    if a.singleUse && a.authorizationId in db.authorizations
    then
      var row := db.authorizations[a.authorizationId];
      db.(authorizations := db.authorizations[a.authorizationId := row.(consumedAt := Some(now))])
    else db
  }

  function Revoked(db: Db, id: string, when: Timestamp): Db {
    if id in db.authorizations
    then db.(authorizations := db.authorizations[id := db.authorizations[id].(revokedAt := Some(when))])
    else db
  }

  /** INSERT ... ON CONFLICT DO UPDATE: one column is set, the other kept, or NULL in a new row. */
  function Marked(db: Db, approvalId: string, column: Column, when: Timestamp): Db {
    var row := if approvalId in db.evidence then db.evidence[approvalId] else EvidenceRow(None, None);
    var row' := match column
                case REVOKED_AT => row.(revokedAt := Some(when))
                case SUPERSEDED_AT => row.(supersededAt := Some(when));
    db.(evidence := db.evidence[approvalId := row'])
  }

  datatype Outcome = Ok | ValueError

  class AuthorizationRegistry {
    const platform: Platform
    var db: Db

    constructor (platform: Platform)
      ensures this.platform == platform && db == Db(map[], map[])
    {
      this.platform := platform;
      db := Db(map[], map[]);
    }

    /** Inserts an authorization that agrees with the request; a second one under the same identity is refused by
        the primary key. */
    method Issue(r: Request) returns (outcome: Outcome)
      modifies this
      ensures outcome.Ok? <==> Issuable(platform, r) && r.authorizationId !in old(db).authorizations
      ensures outcome.Ok? ==> exists a ::
        Agrees(platform, r, a) &&
        db == Db(old(db).authorizations[r.authorizationId := Row(ToPayload(platform, a), None, None)], old(db).evidence)
      ensures !outcome.Ok? ==> db == old(db)
    {
      BuildsExactly(platform, r);
      var built := Build(platform, r);
      if built.None? || built.value.authorizationId in db.authorizations {
        return ValueError;
      }
      db := Inserted(platform, db, built.value);
      return Ok;
    }

    /** Without a timestamp the issue time of the stored authorization is recorded. */
    method Revoke(id: string, timestamp: Option<Timestamp>) returns (outcome: Outcome)
      modifies this
      ensures var rows := old(db).authorizations;
        var known := if id in rows then FromPayload(platform, rows[id].payload) else None;
        var when := if timestamp.Some? || known.None? then timestamp else Some(known.value.issuedAt);
        && (outcome.Ok? <==> known.Some? && when.value.Aware?)
        && db == if outcome.Ok? then Db(rows[id := rows[id].(revokedAt := when)], old(db).evidence) else old(db)
    {
      var known := Known(platform, db, id);
      if known.None? {
        return ValueError;
      }
      var when := if timestamp.Some? then timestamp.value else known.value.issuedAt;
      if !when.Aware? {
        return ValueError;
      }
      db := Revoked(db, id, when);
      return Ok;
    }

    /** Sets one mark of the evidence and keeps the other. */
    method SetEvidence(approvalId: string, column: Column, when: Timestamp) returns (outcome: Outcome)
      modifies this
      ensures outcome.Ok? <==> !IsBlank(approvalId) && when.Aware?
      ensures outcome.Ok? ==> exists row ::
        IsMarked(old(db), approvalId, column, when, row) &&
        db == Db(old(db).authorizations, old(db).evidence[approvalId := row])
      ensures !outcome.Ok? ==> db == old(db)
    {
      if IsBlank(approvalId) || !when.Aware? {
        return ValueError;
      }
      db := Marked(db, approvalId, column, when);
      assert IsMarked(old(db), approvalId, column, when, db.evidence[approvalId]);
      return Ok;
    }

    /** The transaction commits exactly when everything it needs holds at its start, and rolls back otherwise. */
    method Consume(i: Intent, a: Authorization, now: Timestamp) returns (outcome: Outcome)
      modifies this
      ensures outcome.Ok? <==> Consumable(platform, old(db), i, a, now)
      ensures var rows := old(db).authorizations; var id := a.authorizationId;
        db == if outcome.Ok? && a.singleUse
              then Db(rows[id := rows[id].(consumedAt := Some(now))], old(db).evidence) else old(db)
    {
      ConsumableParts(platform, db, i, a, now);
      if !ValidForConsumption(platform, i, a, now) {
        return ValueError;
      }
      var known := Known(platform, db, a.authorizationId);
      if known != Some(a) || !EvidenceClear(db, a) {
        return ValueError;
      }
      var row := db.authorizations[a.authorizationId];
      if row.revokedAt.Some? || (a.singleUse && row.consumedAt.Some?) {
        return ValueError;
      }
      if a.singleUse {
        var rowcount := 0;
        if row.consumedAt.None? && row.revokedAt.None? {
          db := db.(authorizations := db.authorizations[a.authorizationId := row.(consumedAt := Some(now))]);
          rowcount := 1;
        }
        if rowcount != 1 {
          return ValueError;
        }
      }
      return Ok;
    }

    /** Alone on the registry, the unlocked check accepts exactly what `Consume` would. */
    method ValidateKnown(i: Intent, a: Authorization, now: Timestamp) returns (outcome: Outcome)
      ensures outcome.Ok? <==> Consumable(platform, db, i, a, now)
    {
      ConsumableParts(platform, db, i, a, now);
      if Known(platform, db, a.authorizationId) != Some(a) {
        return ValueError;
      }
      var row := db.authorizations[a.authorizationId];
      if row.revokedAt.Some? || (a.singleUse && row.consumedAt.Some?) || !EvidenceClear(db, a) {
        return ValueError;
      }
      return if ValidForConsumption(platform, i, a, now) then Ok else ValueError;
    }
  }

  /** The evidence row has this column set to this time and the other as it was, or empty if there was none. */
  predicate IsMarked(db: Db, approvalId: string, column: Column, when: Timestamp, row: EvidenceRow) {
    match column
    case REVOKED_AT =>
      && row.revokedAt == Some(when)
      && row.supersededAt == if approvalId in db.evidence then db.evidence[approvalId].supersededAt else None
    case SUPERSEDED_AT =>
      && row.supersededAt == Some(when)
      && row.revokedAt == if approvalId in db.evidence then db.evidence[approvalId].revokedAt else None
  }

  // ----- interleavings

  /** A `validate_known` call under way: it reads the payload, the row and the two evidence rows one by one.
      `began` counts the steps before its first read and `readAt` those before its read of the row, when the
      registry was as `seen`. */
  datatype Check = Check(use: Use, stage: Stage, seen: Db, began: nat, readAt: nat)
  datatype Stage = KNOWN | ROW | RISK

  datatype Use = Use(intent: Intent, authorization: Authorization, now: Timestamp)
  /** A check that passed; `ended` counts the steps before its last read. */
  datatype Pass = Pass(use: Use, seen: Db, process: int, began: nat, readAt: nat, ended: nat)

  /** The number of steps taken, the shared registry, the calls under way, and a record of what has succeeded. */
  datatype World = World(
    steps: nat, db: Db, checks: map<int, Check>, revokers: map<int, (string, Timestamp)>,
    issued: map<string, Request>, uses: seq<Use>, passes: seq<Pass>)

  datatype Action =
    | IssueAction(request: Request)
    | ConsumeAction(use: Use)
    | RevokeRead(process: int, id: string, when: Timestamp)
    | RevokeWrite(process: int)
    | EvidenceAction(approvalId: string, column: Column, when: Timestamp)
    | CheckKnown(process: int, use: Use)
    | CheckStep(process: int)

  function Forget<T>(m: map<int, T>, k: int): map<int, T> {
    map x | x in m && x != k :: m[x]
  }

  datatype Progress = Continue(check: Check) | Stop | Finish(pass: Pass)

  /** The next read of a `validate_known` call of process `w`; the last one is followed by the checks on its
      arguments. */
  ghost function Advance(p: Platform, s: World, w: int, c: Check): Progress {
    var a := c.use.authorization;
    match c.stage
    case KNOWN =>
      if a.authorizationId in s.db.authorizations && RowAllows(s.db, a)
      then Continue(c.(stage := ROW, seen := s.db, readAt := s.steps)) else Stop
    case ROW => if ApprovalClear(s.db, a.riskApprovalId) then Continue(c.(stage := RISK)) else Stop
    case RISK =>
      if ApprovalClear(s.db, a.complianceApprovalId) && ValidForConsumption(p, c.use.intent, a, c.use.now)
      then Finish(Pass(c.use, c.seen, w, c.began, c.readAt, s.steps)) else Stop
  }

  predicate CanUse(p: Platform, db: Db, u: Use) {
    Consumable(p, db, u.intent, u.authorization, u.now)
  }

  /** What an atomic step of some process does; a failing call changes nothing that is recorded here. */
  ghost function Effect(p: Platform, s: World, action: Action): World {
    match action
    case IssueAction(r) =>
      if Build(p, r).Some? && r.authorizationId !in s.db.authorizations
      then s.(db := Inserted(p, s.db, Build(p, r).value), issued := s.issued[r.authorizationId := r]) else s
    case ConsumeAction(u) =>
      if CanUse(p, s.db, u) then s.(db := Consumed(s.db, u.authorization, u.now), uses := s.uses + [u]) else s
    case RevokeRead(w, id, when) =>
      if Known(p, s.db, id).Some? && when.Aware? then s.(revokers := s.revokers[w := (id, when)]) else s
    case RevokeWrite(w) =>
      if w in s.revokers
      then s.(db := Revoked(s.db, s.revokers[w].0, s.revokers[w].1), revokers := Forget(s.revokers, w)) else s
    case EvidenceAction(id, column, when) =>
      if !IsBlank(id) && when.Aware? then s.(db := Marked(s.db, id, column, when)) else s
    case CheckKnown(w, u) =>
      if Known(p, s.db, u.authorization.authorizationId) == Some(u.authorization)
      then s.(checks := s.checks[w := Check(u, KNOWN, s.db, s.steps, s.steps)]) else s
    case CheckStep(w) =>
      if w !in s.checks then s
      else
        match Advance(p, s, w, s.checks[w])
        case Continue(c) => s.(checks := s.checks[w := c])
        case Stop => s.(checks := Forget(s.checks, w))
        case Finish(k) => s.(checks := Forget(s.checks, w), passes := s.passes + [k])
  }

  ghost function Next(p: Platform, s: World, action: Action): World {
    Effect(p, s, action).(steps := s.steps + 1)
  }

  ghost function Run(p: Platform, s: World, actions: seq<Action>): World
    decreases |actions|
  {
    if actions == [] then s else Run(p, Next(p, s, actions[0]), actions[1..])
  }

  const EMPTY := Db(map[], map[])

  ghost const START := World(0, EMPTY, map[], map[], map[], [], [])

  // ----- marks are never cleared

  predicate RowLater(old_: Row, new_: Row) {
    new_.payload == old_.payload && (old_.consumedAt.Some? ==> new_.consumedAt.Some?)
      && (old_.revokedAt.Some? ==> new_.revokedAt.Some?)
  }

  predicate EvidenceLater(old_: EvidenceRow, new_: EvidenceRow) {
    (old_.revokedAt.Some? ==> new_.revokedAt.Some?) && (old_.supersededAt.Some? ==> new_.supersededAt.Some?)
  }

  /** `b` may be a later state of the registry than `a`: nothing stored was altered and no mark was cleared. */
  ghost predicate Later(a: Db, b: Db) {
    && (forall id :: id in a.authorizations ==>
          id in b.authorizations && RowLater(a.authorizations[id], b.authorizations[id]))
    && (forall id :: id in a.evidence ==> id in b.evidence && EvidenceLater(a.evidence[id], b.evidence[id]))
  }

  lemma LaterReflexive(db: Db)
    ensures Later(db, db)
  {
  }

  lemma LaterTransitive(a: Db, b: Db, c: Db)
    requires Later(a, b) && Later(b, c)
    ensures Later(a, c)
  {
  }

  lemma InsertedIsLater(p: Platform, db: Db, a: Authorization)
    requires a.authorizationId !in db.authorizations
    ensures Later(db, Inserted(p, db, a))
  {
  }

  lemma ConsumedIsLater(db: Db, a: Authorization, now: Timestamp)
    ensures Later(db, Consumed(db, a, now))
  {
  }

  lemma RevokedIsLater(db: Db, id: string, when: Timestamp)
    ensures Later(db, Revoked(db, id, when))
  {
  }

  lemma MarkedIsLater(db: Db, approvalId: string, column: Column, when: Timestamp)
    ensures Later(db, Marked(db, approvalId, column, when))
  {
  }

  lemma StepIsLater(p: Platform, s: World, action: Action)
    ensures Later(s.db, Next(p, s, action).db)
  {
    match action {
      case IssueAction(r) =>
        if Build(p, r).Some? && r.authorizationId !in s.db.authorizations {
          InsertedIsLater(p, s.db, Build(p, r).value);
        } else {
          LaterReflexive(s.db);
        }
      case ConsumeAction(u) =>
        LaterReflexive(s.db);
        ConsumedIsLater(s.db, u.authorization, u.now);
      case RevokeWrite(w) =>
        LaterReflexive(s.db);
        if w in s.revokers {
          RevokedIsLater(s.db, s.revokers[w].0, s.revokers[w].1);
        }
      case EvidenceAction(id, column, when) =>
        LaterReflexive(s.db);
        MarkedIsLater(s.db, id, column, when);
      case _ =>
        LaterReflexive(s.db);
        assert Next(p, s, action).db == s.db;
    }
  }

  lemma {:induction false} MarksAreNeverCleared(p: Platform, s: World, actions: seq<Action>)
    ensures Later(s.db, Run(p, s, actions).db)
    decreases |actions|
  {
    if actions != [] {
      StepIsLater(p, s, actions[0]);
      MarksAreNeverCleared(p, Next(p, s, actions[0]), actions[1..]);
      LaterTransitive(s.db, Next(p, s, actions[0]).db, Run(p, s, actions).db);
    }
  }

  /** Evidence that is clear now was clear at every earlier time. */
  lemma ClearWasClear(a: Db, b: Db, approvalId: string)
    requires Later(a, b) && ApprovalClear(b, approvalId)
    ensures ApprovalClear(a, approvalId)
  {
  }

  // ----- the invariant

  /** The stored row is what issuing its recorded request produced. */
  ghost predicate RowIssued(p: Platform, db: Db, issued: map<string, Request>, id: string) {
    && id in db.authorizations && id in issued && issued[id].authorizationId == id
    && Build(p, issued[id]).Some? && db.authorizations[id].payload == ToPayload(p, Build(p, issued[id]).value)
  }

  ghost predicate UseOk(p: Platform, db: Db, u: Use) {
    && Known(p, db, u.authorization.authorizationId) == Some(u.authorization)
    && (u.authorization.singleUse ==> db.authorizations[u.authorization.authorizationId].consumedAt.Some?)
    && ValidForConsumption(p, u.intent, u.authorization, u.now)
  }

  ghost predicate CheckOk(p: Platform, db: Db, c: Check) {
    var a := c.use.authorization;
    && Known(p, db, a.authorizationId) == Some(a) && Later(c.seen, db)
    && (c.stage.ROW? || c.stage.RISK? ==> Known(p, c.seen, a.authorizationId) == Some(a) && RowAllows(c.seen, a))
    && (c.stage.RISK? ==> ApprovalClear(c.seen, a.riskApprovalId))
  }

  ghost predicate PassOk(p: Platform, db: Db, k: Pass) {
    Later(k.seen, db) && CanUse(p, k.seen, k.use)
  }

  ghost predicate SameSingleUse(a: Use, b: Use) {
    a.authorization.authorizationId == b.authorization.authorizationId
      && (a.authorization.singleUse || b.authorization.singleUse)
  }

  ghost predicate UsedOnce(uses: seq<Use>) {
    forall i, j :: 0 <= i < j < |uses| ==> !SameSingleUse(uses[i], uses[j])
  }

  ghost predicate RowsOk(p: Platform, db: Db, issued: map<string, Request>) {
    forall id {:trigger RowIssued(p, db, issued, id)} :: id in db.authorizations ==> RowIssued(p, db, issued, id)
  }

  ghost predicate UsesOk(p: Platform, db: Db, uses: seq<Use>) {
    forall u {:trigger UseOk(p, db, u)} :: u in uses ==> UseOk(p, db, u)
  }

  ghost predicate ChecksOk(p: Platform, db: Db, checks: map<int, Check>) {
    forall w {:trigger checks[w]} :: w in checks ==> CheckOk(p, db, checks[w])
  }

  ghost predicate PassesOk(p: Platform, db: Db, passes: seq<Pass>) {
    forall k {:trigger PassOk(p, db, k)} :: k in passes ==> PassOk(p, db, k)
  }

  ghost predicate Inv(p: Platform, s: World) {
    && RowsOk(p, s.db, s.issued) && UsesOk(p, s.db, s.uses) && UsedOnce(s.uses)
    && ChecksOk(p, s.db, s.checks) && PassesOk(p, s.db, s.passes)
  }

  lemma KnownPersists(p: Platform, a: Db, b: Db, id: string)
    requires Later(a, b) && Known(p, a, id).Some?
    ensures Known(p, b, id) == Known(p, a, id)
  {
  }

  lemma UsesPersist(p: Platform, a: Db, b: Db, uses: seq<Use>)
    requires UsesOk(p, a, uses) && Later(a, b)
    ensures UsesOk(p, b, uses)
  {
    forall u | u in uses ensures UseOk(p, b, u) {
      assert UseOk(p, a, u);
      KnownPersists(p, a, b, u.authorization.authorizationId);
    }
  }

  lemma ChecksPersist(p: Platform, a: Db, b: Db, checks: map<int, Check>)
    requires ChecksOk(p, a, checks) && Later(a, b)
    ensures ChecksOk(p, b, checks)
  {
    forall w | w in checks ensures CheckOk(p, b, checks[w]) {
      assert CheckOk(p, a, checks[w]);
      KnownPersists(p, a, b, checks[w].use.authorization.authorizationId);
      LaterTransitive(checks[w].seen, a, b);
    }
  }

  lemma PassesPersist(p: Platform, a: Db, b: Db, passes: seq<Pass>)
    requires PassesOk(p, a, passes) && Later(a, b)
    ensures PassesOk(p, b, passes)
  {
    forall k | k in passes ensures PassOk(p, b, k) {
      assert PassOk(p, a, k);
      LaterTransitive(k.seen, a, b);
    }
  }

  /** Marking rows changes nothing that issued them. */
  lemma RowsPersist(p: Platform, a: Db, b: Db, issued: map<string, Request>)
    requires RowsOk(p, a, issued) && Later(a, b) && b.authorizations.Keys == a.authorizations.Keys
    ensures RowsOk(p, b, issued)
  {
    forall id | id in b.authorizations ensures RowIssued(p, b, issued, id) {
      assert RowIssued(p, a, issued, id);
    }
  }

  lemma IssuedRows(p: Platform, db: Db, issued: map<string, Request>, r: Request)
    requires RowsOk(p, db, issued) && Build(p, r).Some? && r.authorizationId !in db.authorizations
    ensures RowsOk(p, Inserted(p, db, Build(p, r).value), issued[r.authorizationId := r])
  {
    var db', issued' := Inserted(p, db, Build(p, r).value), issued[r.authorizationId := r];
    forall id | id in db'.authorizations ensures RowIssued(p, db', issued', id) {
      if id != r.authorizationId {
        assert RowIssued(p, db, issued, id);
      }
    }
  }

  lemma EverythingPersists(p: Platform, s: World, db: Db)
    requires Inv(p, s) && Later(s.db, db)
    ensures UsesOk(p, db, s.uses) && ChecksOk(p, db, s.checks) && PassesOk(p, db, s.passes)
    ensures db.authorizations.Keys == s.db.authorizations.Keys ==> RowsOk(p, db, s.issued)
  {
    UsesPersist(p, s.db, db, s.uses);
    ChecksPersist(p, s.db, db, s.checks);
    PassesPersist(p, s.db, db, s.passes);
    if db.authorizations.Keys == s.db.authorizations.Keys {
      RowsPersist(p, s.db, db, s.issued);
    }
  }

  /** An earlier use of a single-use authorization has left its mark, so it cannot be consumable again. */
  lemma UsesExtend(p: Platform, db: Db, uses: seq<Use>, u: Use)
    requires UsesOk(p, db, uses) && UsedOnce(uses) && CanUse(p, db, u)
    ensures UsedOnce(uses + [u])
  {
    forall i | 0 <= i < |uses| ensures !SameSingleUse(uses[i], u) {
      assert UseOk(p, db, uses[i]);
    }
  }

  lemma UseKeepsInv(p: Platform, s: World, u: Use)
    requires Inv(p, s) && CanUse(p, s.db, u)
    ensures Inv(p, s.(db := Consumed(s.db, u.authorization, u.now), uses := s.uses + [u]))
  {
    var db := Consumed(s.db, u.authorization, u.now);
    ConsumedIsLater(s.db, u.authorization, u.now);
    EverythingPersists(p, s, db);
    KnownPersists(p, s.db, db, u.authorization.authorizationId);
    UsesExtend(p, s.db, s.uses, u);
    assert UseOk(p, db, u);
  }

  /** A read that goes well leaves a sound check, or a pass that one single state justifies. */
  lemma AdvanceOk(p: Platform, s: World, w: int, c: Check)
    requires CheckOk(p, s.db, c)
    ensures match Advance(p, s, w, c)
            case Continue(c') => CheckOk(p, s.db, c')
            case Stop => true
            case Finish(k) => PassOk(p, s.db, k)
  {
    LaterReflexive(s.db);
    if c.stage.ROW? && ApprovalClear(s.db, c.use.authorization.riskApprovalId) {
      ClearWasClear(c.seen, s.db, c.use.authorization.riskApprovalId);
    }
    if c.stage.RISK? && ApprovalClear(s.db, c.use.authorization.complianceApprovalId) {
      ClearWasClear(c.seen, s.db, c.use.authorization.complianceApprovalId);
    }
  }

  lemma IssueKeepsInv(p: Platform, s: World, r: Request)
    requires Inv(p, s) && Build(p, r).Some? && r.authorizationId !in s.db.authorizations
    ensures Inv(p, s.(db := Inserted(p, s.db, Build(p, r).value), issued := s.issued[r.authorizationId := r]))
  {
    InsertedIsLater(p, s.db, Build(p, r).value);
    EverythingPersists(p, s, Inserted(p, s.db, Build(p, r).value));
    IssuedRows(p, s.db, s.issued, r);
  }

  lemma RevokeKeepsInv(p: Platform, s: World, id: string, when: Timestamp, revokers: map<int, (string, Timestamp)>)
    requires Inv(p, s)
    ensures Inv(p, s.(db := Revoked(s.db, id, when), revokers := revokers))
  {
    RevokedIsLater(s.db, id, when);
    EverythingPersists(p, s, Revoked(s.db, id, when));
  }

  lemma MarkKeepsInv(p: Platform, s: World, id: string, column: Column, when: Timestamp)
    requires Inv(p, s)
    ensures Inv(p, s.(db := Marked(s.db, id, column, when)))
  {
    MarkedIsLater(s.db, id, column, when);
    EverythingPersists(p, s, Marked(s.db, id, column, when));
  }

  lemma CheckKnownKeepsInv(p: Platform, s: World, w: int, u: Use)
    requires Inv(p, s) && Known(p, s.db, u.authorization.authorizationId) == Some(u.authorization)
    ensures Inv(p, s.(checks := s.checks[w := Check(u, KNOWN, s.db, s.steps, s.steps)]))
  {
    LaterReflexive(s.db);
  }

  /** The three ways in which a step of a check changes the world. */
  lemma ChecksReplaced(p: Platform, s: World, w: int, c: Check)
    requires Inv(p, s) && CheckOk(p, s.db, c)
    ensures Inv(p, s.(checks := s.checks[w := c]))
  {
  }

  lemma ChecksForgotten(p: Platform, s: World, w: int)
    requires Inv(p, s)
    ensures Inv(p, s.(checks := Forget(s.checks, w)))
  {
  }

  lemma PassAdded(p: Platform, s: World, k: Pass)
    requires Inv(p, s) && PassOk(p, s.db, k)
    ensures Inv(p, s.(passes := s.passes + [k]))
  {
  }

  lemma CheckStepKeepsInv(p: Platform, s: World, w: int)
    requires Inv(p, s) && w in s.checks
    ensures Inv(p, Effect(p, s, CheckStep(w)))
  {
    var c := s.checks[w];
    AdvanceOk(p, s, w, c);
    match Advance(p, s, w, c) {
      case Continue(c') => ChecksReplaced(p, s, w, c');
      case Stop => ChecksForgotten(p, s, w);
      case Finish(k) =>
        ChecksForgotten(p, s, w);
        PassAdded(p, s.(checks := Forget(s.checks, w)), k);
    }
  }

  lemma EffectKeepsInv(p: Platform, s: World, action: Action)
    requires Inv(p, s)
    ensures Inv(p, Effect(p, s, action))
  {
    match action {
      case IssueAction(r) =>
        if Build(p, r).Some? && r.authorizationId !in s.db.authorizations {
          IssueKeepsInv(p, s, r);
        }
      case ConsumeAction(u) =>
        if CanUse(p, s.db, u) {
          UseKeepsInv(p, s, u);
        }
      case RevokeRead(_, _, _) =>
      case RevokeWrite(w) =>
        if w in s.revokers {
          RevokeKeepsInv(p, s, s.revokers[w].0, s.revokers[w].1, Forget(s.revokers, w));
        }
      case EvidenceAction(id, column, when) =>
        MarkKeepsInv(p, s, id, column, when);
      case CheckKnown(w, u) =>
        if Known(p, s.db, u.authorization.authorizationId) == Some(u.authorization) {
          CheckKnownKeepsInv(p, s, w, u);
        }
      case CheckStep(w) =>
        if w in s.checks {
          CheckStepKeepsInv(p, s, w);
        }
    }
  }

  lemma StepKeepsInv(p: Platform, s: World, action: Action)
    requires Inv(p, s)
    ensures Inv(p, Next(p, s, action))
  {
    EffectKeepsInv(p, s, action);
  }

  lemma {:induction false} RunKeepsInv(p: Platform, s: World, actions: seq<Action>)
    requires Inv(p, s)
    ensures Inv(p, Run(p, s, actions))
    decreases |actions|
  {
    if actions != [] {
      StepKeepsInv(p, s, actions[0]);
      RunKeepsInv(p, Next(p, s, actions[0]), actions[1..]);
    }
  }

  // ----- what every interleaving guarantees

  /** A single-use authorization is used at most once, whatever the processes do and in whatever order. */
  lemma AtMostOneUse(p: Platform, actions: seq<Action>, i: nat, j: nat)
    requires i < j < |Run(p, START, actions).uses|
    requires Run(p, START, actions).uses[i].authorization.authorizationId
      == Run(p, START, actions).uses[j].authorization.authorizationId
    ensures !Run(p, START, actions).uses[j].authorization.singleUse
      && !Run(p, START, actions).uses[i].authorization.singleUse
  {
    RunKeepsInv(p, START, actions);
    assert !SameSingleUse(Run(p, START, actions).uses[i], Run(p, START, actions).uses[j]);
  }

  /** What the row of `id` stores: an authorization that agrees with the request it was issued for. */
  ghost predicate RowStores(p: Platform, db: Db, id: string, r: Request, a: Authorization) {
    && id in db.authorizations && r.authorizationId == id && Issuable(p, r) && Agrees(p, r, a)
    && db.authorizations[id].payload == ToPayload(p, a)
  }

  /** Every row of every reachable registry stores what was requested, and reads back as that if at all. */
  lemma RowsCarryRequests(p: Platform, actions: seq<Action>, id: string) returns (a: Authorization)
    requires p.Faithful() && id in Run(p, START, actions).db.authorizations
    ensures var s := Run(p, START, actions);
      && id in s.issued && RowStores(p, s.db, id, s.issued[id], a)
      && FromPayload(p, s.db.authorizations[id].payload) == if p.NumbersRead(a.order) then Some(a) else None
  {
    var s := Run(p, START, actions);
    RunKeepsInv(p, START, actions);
    assert RowIssued(p, s.db, s.issued, id);
    BuildsExactly(p, s.issued[id]);
    a := Build(p, s.issued[id]).value;
    PayloadRoundTrip(p, a);
  }

  /** An authorization that was requested for a single use is used at most once: two uses of one identity exclude
      it, whatever the processes do. */
  lemma RequestedOnceUsedOnce(p: Platform, actions: seq<Action>, i: nat, j: nat)
    requires p.Faithful() && i < j < |Run(p, START, actions).uses|
    requires Run(p, START, actions).uses[i].authorization.authorizationId
      == Run(p, START, actions).uses[j].authorization.authorizationId
    ensures var s := Run(p, START, actions); var id := s.uses[i].authorization.authorizationId;
      id in s.issued && !s.issued[id].singleUse
  {
    var s := Run(p, START, actions);
    var id := s.uses[i].authorization.authorizationId;
    AtMostOneUse(p, actions, i, j);
    RunKeepsInv(p, START, actions);
    assert s.uses[i] in s.uses && UseOk(p, s.db, s.uses[i]);
    var a := RowsCarryRequests(p, actions, id);
  }

  // ----- what the steps do

  /** What a step writes, row by row: exactly the calls that meet their conditions change the registry, and only
      the row that they are for. */
  lemma StepWrites(p: Platform, s: World, action: Action)
    ensures var db := Next(p, s, action).db;
      match action
      case IssueAction(r) =>
        if Issuable(p, r) && r.authorizationId !in s.db.authorizations then
          && r.authorizationId in db.authorizations && db.evidence == s.db.evidence
          && var row := db.authorizations[r.authorizationId];
             && row.consumedAt.None? && row.revokedAt.None?
             && (exists a :: Agrees(p, r, a) && row.payload == ToPayload(p, a))
             && db.authorizations == s.db.authorizations[r.authorizationId := row]
        else db == s.db
      case ConsumeAction(u) =>
        var rows, id := s.db.authorizations, u.authorization.authorizationId;
        db == if Consumable(p, s.db, u.intent, u.authorization, u.now) && u.authorization.singleUse
              then Db(rows[id := rows[id].(consumedAt := Some(u.now))], s.db.evidence) else s.db
      case RevokeWrite(w) =>
        var rows := s.db.authorizations;
        db == if w in s.revokers && s.revokers[w].0 in rows
              then Db(rows[s.revokers[w].0 := rows[s.revokers[w].0].(revokedAt := Some(s.revokers[w].1))],
                      s.db.evidence)
              else s.db
      case EvidenceAction(id, column, when) =>
        if IsBlank(id) || !when.Aware? then db == s.db
        else
          exists row :: IsMarked(s.db, id, column, when, row)
                        && db == Db(s.db.authorizations, s.db.evidence[id := row])
      case _ => db == s.db
  {
    match action {
      case IssueAction(r) => BuildsExactly(p, r);
      case EvidenceAction(id, column, when) =>
        var row := Marked(s.db, id, column, when).evidence[id];
        assert IsMarked(s.db, id, column, when, row);
      case _ =>
    }
  }

  /** A revocation that nothing comes between marks the row of a known authorization, and no other row. */
  lemma RevocationAlone(p: Platform, s: World, w: int, id: string, when: Timestamp)
    requires id in s.db.authorizations && FromPayload(p, s.db.authorizations[id].payload).Some? && when.Aware?
    ensures var rows := s.db.authorizations;
      Next(p, Next(p, s, RevokeRead(w, id, when)), RevokeWrite(w)).db
        == Db(rows[id := rows[id].(revokedAt := Some(when))], s.db.evidence)
  {
    StepWrites(p, Next(p, s, RevokeRead(w, id, when)), RevokeWrite(w));
  }

  /** Since `s` the registry and the passes are as they were, and the check of process `w` stands at `stage`, or is
      over if there is none. */
  predicate Checking(s: World, now: World, w: int, u: Use, stage: Option<Stage>) {
    && now.db == s.db && now.passes == s.passes && (w in now.checks <==> stage.Some?)
    && (stage.Some? ==> now.checks[w].use == u && now.checks[w].stage == stage.value)
  }

  lemma CheckBegins(p: Platform, s: World, w: int, u: Use)
    requires w !in s.checks
    ensures Checking(s, Next(p, s, CheckKnown(w, u)), w, u,
                     if Known(p, s.db, u.authorization.authorizationId) == Some(u.authorization) then Some(KNOWN)
                     else None)
  {
  }

  lemma CheckGoesOn(p: Platform, s: World, now: World, w: int, u: Use, stage: Option<Stage>)
    requires Checking(s, now, w, u, stage) && stage != Some(RISK)
    requires u.authorization.authorizationId in s.db.authorizations || stage.None?
    ensures var a := u.authorization;
      Checking(s, Next(p, now, CheckStep(w)), w, u,
               if stage == Some(KNOWN) && RowAllows(s.db, a) then Some(ROW)
               else if stage == Some(ROW) && ApprovalClear(s.db, a.riskApprovalId) then Some(RISK) else None)
  {
  }

  lemma CheckEnds(p: Platform, s: World, now: World, w: int, u: Use)
    requires Checking(s, now, w, u, Some(RISK))
    ensures var end := Next(p, now, CheckStep(w));
      && end.db == s.db && w !in end.checks
      && if ApprovalClear(s.db, u.authorization.complianceApprovalId)
            && ValidForConsumption(p, u.intent, u.authorization, u.now)
         then |end.passes| == |s.passes| + 1 && s.passes <= end.passes && end.passes[|s.passes|].use == u
         else end.passes == s.passes
  {
  }

  /** A check that nothing comes between passes exactly if the authorization is consumable. */
  lemma CheckAlone(p: Platform, s: World, w: int, u: Use)
    requires w !in s.checks
    ensures var s1 := Next(p, s, CheckKnown(w, u));
      var s4 := Next(p, Next(p, Next(p, s1, CheckStep(w)), CheckStep(w)), CheckStep(w));
      && s4.db == s.db && w !in s4.checks
      && (if Consumable(p, s.db, u.intent, u.authorization, u.now)
          then |s4.passes| == |s.passes| + 1 && s.passes <= s4.passes && s4.passes[|s.passes|].use == u
          else s4.passes == s.passes)
  {
    var a := u.authorization;
    ConsumableParts(p, s.db, u.intent, a, u.now);
    var s1 := Next(p, s, CheckKnown(w, u));
    CheckBegins(p, s, w, u);
    var stage := if Known(p, s.db, a.authorizationId) == Some(a) then Some(KNOWN) else None;
    CheckGoesOn(p, s, s1, w, u, stage);
    var s2 := Next(p, s1, CheckStep(w));
    stage := if stage.Some? && RowAllows(s.db, a) then Some(ROW) else None;
    CheckGoesOn(p, s, s2, w, u, stage);
    var s3 := Next(p, s2, CheckStep(w));
    stage := if stage.Some? && ApprovalClear(s.db, a.riskApprovalId) then Some(RISK) else None;
    if stage.Some? {
      CheckEnds(p, s, s3, w, u);
    } else {
      CheckGoesOn(p, s, s3, w, u, stage);
    }
  }

  // ----- runs and their last step

  lemma {:induction false} RunLast(p: Platform, s: World, actions: seq<Action>)
    requires actions != []
    ensures Run(p, s, actions) == Next(p, Run(p, s, actions[..|actions| - 1]), actions[|actions| - 1])
    decreases |actions|
  {
    if |actions| > 1 {
      RunLast(p, Next(p, s, actions[0]), actions[1..]);
      assert actions[1..][..|actions| - 2] == actions[..|actions| - 1][1..];
    }
  }

  lemma RunAppend(p: Platform, s: World, actions: seq<Action>, action: Action)
    ensures Run(p, s, actions + [action]) == Next(p, Run(p, s, actions), action)
  {
    RunLast(p, s, actions + [action]);
    assert (actions + [action])[..|actions|] == actions;
  }

  /** The recorded requests are those of issue calls of the run. */
  lemma {:induction false} RequestsAreIssueCalls(p: Platform, actions: seq<Action>, id: string)
    requires id in Run(p, START, actions).issued
    ensures exists n :: 0 <= n < |actions| && actions[n] == IssueAction(Run(p, START, actions).issued[id])
    decreases |actions|
  {
    if actions != [] {
      var before, last := actions[..|actions| - 1], actions[|actions| - 1];
      RunLast(p, START, actions);
      if last != IssueAction(Run(p, START, actions).issued[id]) {
        IssuedBefore(p, Run(p, START, before), last, id);
        RequestsAreIssueCalls(p, before, id);
        var n :| 0 <= n < |before| && before[n] == IssueAction(Run(p, START, before).issued[id]);
        assert actions[n] == before[n];
      }
    }
  }

  lemma IssuedBefore(p: Platform, s: World, action: Action, id: string)
    requires id in Next(p, s, action).issued && action != IssueAction(Next(p, s, action).issued[id])
    ensures id in s.issued && Next(p, s, action).issued[id] == s.issued[id]
  {
  }

  /** Step `n` of the run is a consume call for `u`, and everything it needs holds when it is taken. */
  ghost predicate UsedAt(p: Platform, actions: seq<Action>, n: nat, u: Use) {
    n < |actions| && actions[n] == ConsumeAction(u) && CanUse(p, Run(p, START, actions[..n]).db, u)
  }

  ghost predicate UsedIn(p: Platform, actions: seq<Action>, u: Use) {
    exists n: nat :: UsedAt(p, actions, n, u)
  }

  /** `action` is a consume call for `u` that meets everything it needs. */
  predicate Uses(p: Platform, db: Db, action: Action, u: Use) {
    action == ConsumeAction(u) && CanUse(p, db, u)
  }

  /** Used in a run means used before its last step or at it. */
  lemma UsedBeforeOrLast(p: Platform, before: seq<Action>, action: Action, u: Use)
    ensures UsedIn(p, before + [action], u) <==> UsedIn(p, before, u) || Uses(p, Run(p, START, before).db, action, u)
  {
    var actions := before + [action];
    assert actions[..|before|] == before;
    forall n: nat | n < |before| ensures UsedAt(p, before, n, u) <==> UsedAt(p, actions, n, u) {
      assert actions[..n] == before[..n];
    }
    assert UsedAt(p, actions, |before|, u) <==> Uses(p, Run(p, START, before).db, action, u);
    if n: nat :| UsedAt(p, before, n, u) {
      assert UsedAt(p, actions, n, u);
    }
  }

  lemma UsesOfStep(p: Platform, s: World, action: Action)
    ensures Next(p, s, action).uses ==
      s.uses + if action.ConsumeAction? && CanUse(p, s.db, action.use) then [action.use] else []
  {
  }

  lemma UsesOfLastStep(p: Platform, before: seq<Action>, action: Action, u: Use)
    ensures u in Run(p, START, before + [action]).uses <==>
      u in Run(p, START, before).uses || Uses(p, Run(p, START, before).db, action, u)
  {
    RunAppend(p, START, before, action);
    UsesOfStep(p, Run(p, START, before), action);
  }

  /** The uses of a run are exactly its consume calls that met a registry in which the authorization was known
      and unrevoked, unused if it is single-use, its evidence clear, and all of it valid for the intent. */
  lemma {:induction false} UsesAreConsumeCalls(p: Platform, actions: seq<Action>, u: Use)
    ensures u in Run(p, START, actions).uses <==> UsedIn(p, actions, u)
    decreases |actions|
  {
    if actions != [] {
      var before, action := actions[..|actions| - 1], actions[|actions| - 1];
      assert actions == before + [action];
      UsesAreConsumeCalls(p, before, u);
      UsesOfLastStep(p, before, action, u);
      UsedBeforeOrLast(p, before, action, u);
    }
  }

  // ----- revocation, evidence marks and single use bind every later step

  /** What stands in the way of `a` stays in its way, because marks are never cleared. */
  predicate Barred(db: Db, a: Authorization) {
    || (a.authorizationId in db.authorizations && !RowAllows(db, a))
    || !EvidenceClear(db, a)
  }

  lemma BarredStaysBarred(a: Db, b: Db, authorization: Authorization)
    requires Later(a, b) && Barred(a, authorization)
    ensures Barred(b, authorization)
  {
    if EvidenceClear(b, authorization) {
      ClearWasClear(a, b, authorization.riskApprovalId);
      ClearWasClear(a, b, authorization.complianceApprovalId);
    }
  }

  /** From any state in which `a` is revoked, or its evidence revoked or superseded, or a single use of it
      spent, no continuation by any processes uses it again. */
  lemma {:induction false} NoUseOnceBarred(p: Platform, s: World, later: seq<Action>, a: Authorization)
    requires Barred(s.db, a)
    ensures s.uses <= Run(p, s, later).uses
    ensures forall i :: |s.uses| <= i < |Run(p, s, later).uses| ==> Run(p, s, later).uses[i].authorization != a
    decreases |later|
  {
    if later != [] {
      var s' := Next(p, s, later[0]);
      UsesOfStep(p, s, later[0]);
      StepIsLater(p, s, later[0]);
      BarredStaysBarred(s.db, s'.db, a);
      NoUseOnceBarred(p, s', later[1..], a);
    }
  }

  /** Each of the three calls bars from the step on at which it takes effect. */
  lemma CallsBar(p: Platform, s: World, action: Action, a: Authorization)
    requires match action
             case RevokeWrite(w) =>
               w in s.revokers && s.revokers[w].0 == a.authorizationId && a.authorizationId in s.db.authorizations
             case EvidenceAction(id, _, when) =>
               !IsBlank(id) && when.Aware? && (id == a.riskApprovalId || id == a.complianceApprovalId)
             case ConsumeAction(u) => u.authorization == a && a.singleUse && CanUse(p, s.db, u)
             case _ => false
    ensures Barred(Next(p, s, action).db, a)
  {
  }

  /** The evidence an authorization was issued on was approved for exactly the intent now being executed,
      agrees with it in all eight order fields, and is still in its validity period. */
  ghost predicate InForce(p: Platform, e: Evidence, i: Intent, now: Timestamp) {
    && e.approved && !e.revoked && !e.superseded
    && e.intentId == i.intentId && e.intentDigest == p.intentDigest(i) && e.order == i.order
    && Within(e.issuedAt, now, e.expiresAt)
  }

  lemma IssuedEvidenceInForce(p: Platform, r: Request, a: Authorization, i: Intent, now: Timestamp)
    requires Build(p, r) == Some(a) && ValidForConsumption(p, i, a, now)
    ensures InForce(p, r.risk, i, now) && InForce(p, r.compliance, i, now)
    ensures a.riskApprovalId == r.risk.approvalId && a.riskApprovalDigest == p.evidenceDigest(r.risk)
    ensures a.complianceApprovalId == r.compliance.approvalId
      && a.complianceApprovalDigest == p.evidenceDigest(r.compliance)
  {
  }

  /** Every successful consume rests on risk and compliance evidence that is still in force. Neither digest
      needs to be collision-free: the order fields are compared one by one. */
  lemma UsesRestOnEvidence(p: Platform, actions: seq<Action>, u: Use)
    requires p.Faithful() && u in Run(p, START, actions).uses
    ensures var s := Run(p, START, actions); var id := u.authorization.authorizationId;
      && id in s.issued && Agrees(p, s.issued[id], u.authorization)
      && InForce(p, s.issued[id].risk, u.intent, u.now) && InForce(p, s.issued[id].compliance, u.intent, u.now)
  {
    RunKeepsInv(p, START, actions);
    var s := Run(p, START, actions);
    var id := u.authorization.authorizationId;
    assert UseOk(p, s.db, u) && RowIssued(p, s.db, s.issued, id);
    var built := Build(p, s.issued[id]).value;
    BuildsExactly(p, s.issued[id]);
    PayloadRoundTrip(p, built);
    IssuedEvidenceInForce(p, s.issued[id], built, u.intent, u.now);
  }

  // ----- an unlocked check against the run around it

  /** The check began with its own step, and its row was read by a later step of its own, in state `seen`. */
  ghost predicate CheckTimed(p: Platform, actions: seq<Action>, w: int, c: Check) {
    && c.began < |actions| && actions[c.began] == CheckKnown(w, c.use)
    && (!c.stage.KNOWN? ==> RowReadAt(p, actions, w, c.began, c.readAt, c.seen))
  }

  ghost predicate RowReadAt(p: Platform, actions: seq<Action>, w: int, began: nat, readAt: nat, seen: Db) {
    began < readAt < |actions| && actions[readAt] == CheckStep(w) && seen == Run(p, START, actions[..readAt]).db
  }

  ghost predicate PassTimed(p: Platform, actions: seq<Action>, k: Pass) {
    && RowReadAt(p, actions, k.process, k.began, k.readAt, k.seen) && k.readAt < k.ended < |actions|
    && actions[k.began] == CheckKnown(k.process, k.use) && actions[k.ended] == CheckStep(k.process)
  }

  ghost predicate Timed(p: Platform, actions: seq<Action>, s: World) {
    && s.steps == |actions|
    && (forall w {:trigger s.checks[w]} :: w in s.checks ==> CheckTimed(p, actions, w, s.checks[w]))
    && (forall k {:trigger PassTimed(p, actions, k)} :: k in s.passes ==> PassTimed(p, actions, k))
  }

  lemma RowReadExtends(p: Platform, actions: seq<Action>, action: Action, w: int, began: nat, readAt: nat, seen: Db)
    requires RowReadAt(p, actions, w, began, readAt, seen)
    ensures RowReadAt(p, actions + [action], w, began, readAt, seen)
  {
    assert (actions + [action])[..readAt] == actions[..readAt];
  }

  lemma CheckTimedExtends(p: Platform, actions: seq<Action>, action: Action, w: int, c: Check)
    requires CheckTimed(p, actions, w, c)
    ensures CheckTimed(p, actions + [action], w, c)
  {
    if !c.stage.KNOWN? {
      RowReadExtends(p, actions, action, w, c.began, c.readAt, c.seen);
    }
  }

  lemma TimedExtends(p: Platform, actions: seq<Action>, action: Action, s: World)
    requires Timed(p, actions, s)
    ensures Timed(p, actions + [action], s.(steps := s.steps + 1))
  {
    forall w | w in s.checks ensures CheckTimed(p, actions + [action], w, s.checks[w]) {
      CheckTimedExtends(p, actions, action, w, s.checks[w]);
    }
    forall k | k in s.passes ensures PassTimed(p, actions + [action], k) {
      assert PassTimed(p, actions, k);
      RowReadExtends(p, actions, action, k.process, k.began, k.readAt, k.seen);
    }
  }

  lemma AdvanceTimed(p: Platform, actions: seq<Action>, s: World, w: int, c: Check)
    requires Timed(p, actions, s) && s == Run(p, START, actions) && CheckTimed(p, actions, w, c)
    ensures match Advance(p, s, w, c)
            case Continue(c') => CheckTimed(p, actions + [CheckStep(w)], w, c')
            case Stop => true
            case Finish(k) => PassTimed(p, actions + [CheckStep(w)], k)
  {
    assert (actions + [CheckStep(w)])[..|actions|] == actions;
    CheckTimedExtends(p, actions, CheckStep(w), w, c);
  }

  /** A step that starts, advances or ends no check leaves all checks and passes as they are. */
  lemma OtherStepsKeepChecks(p: Platform, s: World, action: Action)
    requires !action.CheckKnown? && !action.CheckStep?
    ensures Next(p, s, action).checks == s.checks && Next(p, s, action).passes == s.passes
  {
  }

  lemma CheckKnownTimed(p: Platform, actions: seq<Action>, s: World, w: int, u: Use)
    requires Timed(p, actions, s) && s == Run(p, START, actions)
    ensures Timed(p, actions + [CheckKnown(w, u)], Next(p, s, CheckKnown(w, u)))
  {
    TimedExtends(p, actions, CheckKnown(w, u), s);
  }

  lemma CheckStepTimed(p: Platform, actions: seq<Action>, s: World, w: int)
    requires Timed(p, actions, s) && s == Run(p, START, actions)
    ensures Timed(p, actions + [CheckStep(w)], Next(p, s, CheckStep(w)))
  {
    TimedExtends(p, actions, CheckStep(w), s);
    if w in s.checks {
      AdvanceTimed(p, actions, s, w, s.checks[w]);
    }
  }

  lemma StepTimed(p: Platform, actions: seq<Action>, s: World, action: Action)
    requires Timed(p, actions, s) && s == Run(p, START, actions)
    ensures Timed(p, actions + [action], Next(p, s, action))
  {
    match action {
      case CheckKnown(w, u) => CheckKnownTimed(p, actions, s, w, u);
      case CheckStep(w) => CheckStepTimed(p, actions, s, w);
      case _ =>
        TimedExtends(p, actions, action, s);
        OtherStepsKeepChecks(p, s, action);
    }
  }

  /** The indices that checks and passes carry are those of their own steps. */
  lemma {:induction false} RunTimed(p: Platform, actions: seq<Action>)
    ensures Timed(p, actions, Run(p, START, actions))
    decreases |actions|
  {
    if actions != [] {
      var before, last := actions[..|actions| - 1], actions[|actions| - 1];
      RunTimed(p, before);
      AppendedTimed(p, before, last);
      assert before + [last] == actions;
    }
  }

  lemma AppendedTimed(p: Platform, actions: seq<Action>, action: Action)
    requires Timed(p, actions, Run(p, START, actions))
    ensures Timed(p, actions + [action], Run(p, START, actions + [action]))
  {
    StepTimed(p, actions, Run(p, START, actions), action);
    RunAppend(p, START, actions, action);
  }

  /** `validate_known` reads the registry in separate steps, yet whenever it succeeds there was one state after
      its first read and before its last, the one at its read of the row, in which all it checks held together. */
  lemma UnlockedCheckIsAtomic(p: Platform, actions: seq<Action>, k: Pass)
    requires k in Run(p, START, actions).passes
    ensures k.began < k.readAt < k.ended < |actions|
    ensures actions[k.began] == CheckKnown(k.process, k.use)
    ensures actions[k.readAt] == CheckStep(k.process) && actions[k.ended] == CheckStep(k.process)
    ensures CanUse(p, Run(p, START, actions[..k.readAt]).db, k.use)
  {
    RunKeepsInv(p, START, actions);
    assert PassOk(p, Run(p, START, actions).db, k);
    RunTimed(p, actions);
    assert PassTimed(p, actions, k);
  }

  /** A check that passed does not authorize later: one action later the same authorization may be unusable. */
  lemma PassedCheckCanBeOvertaken(p: Platform, s: World, u: Use)
    requires CanUse(p, s.db, u) && !IsBlank(u.authorization.riskApprovalId)
    ensures !CanUse(p, Next(p, s, EvidenceAction(u.authorization.riskApprovalId, REVOKED_AT, u.now)).db, u)
  {
    CallsBar(p, s, EvidenceAction(u.authorization.riskApprovalId, REVOKED_AT, u.now), u.authorization);
  }
}
