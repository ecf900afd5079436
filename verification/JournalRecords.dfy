/** Journal records, their hashes, and the file lines that hold them. A byte string is a `string` whose
    characters are its bytes. */
module JournalRecords {
  import opened JsonTree
  import opened Text
  import opened Wrappers

  predicate SpelledOut(name: string) {
    name in ["sequence_number", "record_id", "record_type", "entity_id", "timestamp", "payload", "payload_hash",
             "previous_record_hash", "record_hash", "policy_version", "journal_version", "metadata",
             "authorization_id", "execution_id", "request_fingerprint", "proposal_id", "status"]
  }

  type OtherName = name: string | !SpelledOut(name) witness ""

  /** Object member names. The names that the program spells out are constructors of their own, which makes
      them evidently different from each other; OTHER stands for every further name. */
  datatype Key =
    // journal records and their payloads
    | SEQUENCE_NUMBER | RECORD_ID | RECORD_TYPE | ENTITY_ID | TIMESTAMP | PAYLOAD | PAYLOAD_HASH
    | PREVIOUS_RECORD_HASH | RECORD_HASH | POLICY_VERSION | JOURNAL_VERSION | METADATA
    | AUTHORIZATION_ID | EXECUTION_ID | REQUEST_FINGERPRINT | PROPOSAL_ID | STATUS
    | OTHER(text: OtherName)

  type Json = Tree<Key>

  type Dict = map<Key, Json>

  function Get(d: Dict, key: Key): Json {
    if key in d then d[key] else Null
  }

  /** Accepted by `freeze_json_mapping`: no member name is blank, at any depth. */
  predicate Freezable(v: Json) {
    match v
    case Arr(items) => forall i :: 0 <= i < |items| ==> Freezable(items[i])
    case Obj(fields) => forall k :: k in fields ==> (k.OTHER? ==> !IsBlank(k.text)) && Freezable(fields[k])
    case _ => true
  }

  type Bytes = string

  datatype RecordType = AUTHORIZATION | EXECUTION

  /** What the journal borrows from its platform: the canonical JSON encoder and parser, SHA-256, and the
      reading of a timestamp into its canonical UTC text. */
  datatype Platform = Platform(
    dumps: Json -> Bytes,
    loads: Bytes -> Option<Json>,
    digest: Bytes -> string,
    readTime: string -> Option<string>)
  {
    /** The parser reads back what the encoder writes, the encoder writes no line break, digests are never
        blank, and canonical timestamps are stable. Nothing is said about digests being distinct. */
    ghost predicate Faithful() {
      && (forall v :: loads(dumps(v)) == Some(v))
      && (forall v :: OneLine(dumps(v)))
      && (forall x :: !IsBlank(digest(x)))
      && (forall t {:trigger readTime(t)} :: readTime(t).Some? ==> readTime(readTime(t).value) == readTime(t))
    }
  }

  predicate OneLine(line: Bytes) {
    '\n' !in line && '\r' !in line
  }

  datatype JournalRecord = JournalRecord(
    sequence: int, recordId: string, recordType: RecordType, entityId: string, timestamp: string,
    payload: Dict, previousHash: string, recordHash: string,
    policyVersion: string, journalVersion: string, metadata: Dict)

  const CURRENT_VERSION := "execution_journal_v1"

  function TypeText(t: RecordType): string {
    match t case AUTHORIZATION => "AUTHORIZATION" case EXECUTION => "EXECUTION"
  }

  function ReadType(j: Json): Option<RecordType> {
    if j == Str("AUTHORIZATION") then Some(AUTHORIZATION)
    else if j == Str("EXECUTION") then Some(EXECUTION)
    else None
  }

  function HashBase(r: JournalRecord): Json {
    Obj(map[SEQUENCE_NUMBER := Num(r.sequence), RECORD_TYPE := Str(TypeText(r.recordType)),
            ENTITY_ID := Str(r.entityId), TIMESTAMP := Str(r.timestamp), PAYLOAD := Obj(r.payload),
            PREVIOUS_RECORD_HASH := Str(r.previousHash), POLICY_VERSION := Str(r.policyVersion),
            JOURNAL_VERSION := Str(r.journalVersion)])
  }

  function RecordHash(p: Platform, r: JournalRecord): string {
    p.digest(p.dumps(HashBase(r)))
  }

  function IdBase(p: Platform, r: JournalRecord): Json {
    Obj(map[
      RECORD_TYPE := Str(TypeText(r.recordType)), ENTITY_ID := Str(r.entityId),
      TIMESTAMP := Str(r.timestamp), PAYLOAD_HASH := Str(p.digest(p.dumps(Obj(r.payload)))),
      PREVIOUS_RECORD_HASH := Str(r.previousHash), SEQUENCE_NUMBER := Num(r.sequence)])
  }

  function RecordId(p: Platform, r: JournalRecord): string {
    p.digest(p.dumps(IdBase(p, r)))
  }

  /** The checks of the record's constructor. */
  predicate RecordOk(p: Platform, r: JournalRecord) {
    && r.sequence >= 1
    && !IsBlank(r.recordId) && !IsBlank(r.entityId) && !IsBlank(r.recordHash)
    && !IsBlank(r.policyVersion) && !IsBlank(r.journalVersion)
    && p.readTime(r.timestamp) == Some(r.timestamp)
    && Freezable(Obj(r.payload)) && Freezable(Obj(r.metadata))
    && (r.sequence == 1 ==> r.previousHash == "")
    && (r.sequence > 1 ==> r.previousHash != "")
    && r.recordId == RecordId(p, r)
    && r.recordHash == RecordHash(p, r)
  }

  const REQUIRED_KEYS: set<Key> := {
    SEQUENCE_NUMBER, RECORD_ID, RECORD_TYPE, ENTITY_ID, TIMESTAMP, PAYLOAD,
    PREVIOUS_RECORD_HASH, RECORD_HASH, POLICY_VERSION}
  const OPTIONAL_KEYS: set<Key> := {JOURNAL_VERSION, METADATA}

  function ToDict(r: JournalRecord): Dict {
    map[SEQUENCE_NUMBER := Num(r.sequence), RECORD_ID := Str(r.recordId),
        RECORD_TYPE := Str(TypeText(r.recordType)), ENTITY_ID := Str(r.entityId),
        TIMESTAMP := Str(r.timestamp), PAYLOAD := Obj(r.payload),
        PREVIOUS_RECORD_HASH := Str(r.previousHash), RECORD_HASH := Str(r.recordHash),
        POLICY_VERSION := Str(r.policyVersion), JOURNAL_VERSION := Str(r.journalVersion),
        METADATA := Obj(r.metadata)]
  }

  /** The keyword arguments of the constructor, or None for unknown, missing or ill-typed ones. */
  function ReadFields(p: Platform, d: Dict): Option<JournalRecord> {
    if !(REQUIRED_KEYS <= d.Keys <= REQUIRED_KEYS + OPTIONAL_KEYS) then None else
    var journalVersion := if JOURNAL_VERSION in d then d[JOURNAL_VERSION] else Str(CURRENT_VERSION);
    var metadata := if METADATA in d then d[METADATA] else Obj(map[]);
    var recordType := ReadType(d[RECORD_TYPE]);
    if d[SEQUENCE_NUMBER].Num? && d[RECORD_ID].Str? && recordType.Some? && d[ENTITY_ID].Str?
       && d[TIMESTAMP].Str? && d[PAYLOAD].Obj? && d[PREVIOUS_RECORD_HASH].Str? && d[RECORD_HASH].Str?
       && d[POLICY_VERSION].Str? && journalVersion.Str? && metadata.Obj?
       && p.readTime(d[TIMESTAMP].s).Some?
    then
      Some(JournalRecord(
        d[SEQUENCE_NUMBER].n, d[RECORD_ID].s, recordType.value, d[ENTITY_ID].s,
        p.readTime(d[TIMESTAMP].s).value, d[PAYLOAD].fields, d[PREVIOUS_RECORD_HASH].s, d[RECORD_HASH].s,
        d[POLICY_VERSION].s, journalVersion.s, metadata.fields))
    else None
  }

  /** None where `from_dict` raises: bad fields or a failing constructor check. */
  function FromDict(p: Platform, d: Dict): Option<JournalRecord> {
    match ReadFields(p, d)
    case Some(r) => if RecordOk(p, r) then Some(r) else None
    case None => None
  }

  predicate MustBeThere(k: Key) {
    || k.SEQUENCE_NUMBER? || k.RECORD_ID? || k.RECORD_TYPE? || k.ENTITY_ID? || k.TIMESTAMP? || k.PAYLOAD?
    || k.PREVIOUS_RECORD_HASH? || k.RECORD_HASH? || k.POLICY_VERSION?
  }

  /** The members that a record must have are there, and at most the version and the metadata besides. */
  ghost predicate HasMembers(d: Dict) {
    && (forall k :: MustBeThere(k) ==> k in d)
    && (forall k :: k in d ==> MustBeThere(k) || k.JOURNAL_VERSION? || k.METADATA?)
  }

  lemma MembersAreKeys(d: Dict)
    ensures HasMembers(d) <==> REQUIRED_KEYS <= d.Keys <= REQUIRED_KEYS + OPTIONAL_KEYS
  {
    assert forall k :: k in REQUIRED_KEYS <==> MustBeThere(k);
  }

  /** The members spell the record: each has its field's value, the time is read into its canonical form, and the
      two optional ones have defaults. */
  ghost predicate Spells(p: Platform, d: Dict, r: JournalRecord) {
    && HasMembers(d)
    && d[SEQUENCE_NUMBER] == Num(r.sequence) && d[RECORD_ID] == Str(r.recordId)
    && d[RECORD_TYPE] == Str(match r.recordType case AUTHORIZATION => "AUTHORIZATION" case EXECUTION => "EXECUTION")
    && d[ENTITY_ID] == Str(r.entityId) && d[PAYLOAD] == Obj(r.payload)
    && d[TIMESTAMP].Str? && p.readTime(d[TIMESTAMP].s) == Some(r.timestamp)
    && d[PREVIOUS_RECORD_HASH] == Str(r.previousHash) && d[RECORD_HASH] == Str(r.recordHash)
    && d[POLICY_VERSION] == Str(r.policyVersion)
    && (if JOURNAL_VERSION in d then d[JOURNAL_VERSION] == Str(r.journalVersion)
        else r.journalVersion == "execution_journal_v1")
    && (if METADATA in d then d[METADATA] == Obj(r.metadata) else r.metadata == map[])
  }

  /** A record that can exist: numbered from one, no text blank, no member name blank, linked to a record before it
      unless it is the first, and carrying the identifier and hash of its content. */
  predicate IsRecord(p: Platform, r: JournalRecord) {
    && r.sequence > 0 && (r.sequence == 1 <==> r.previousHash == "")
    && !IsBlank(r.entityId) && !IsBlank(r.policyVersion) && !IsBlank(r.journalVersion)
    && !IsBlank(r.recordId) && !IsBlank(r.recordHash)
    && p.readTime(r.timestamp) == Some(r.timestamp)
    && Freezable(Obj(r.payload)) && Freezable(Obj(r.metadata))
    && r.recordId == RecordId(p, r) && r.recordHash == RecordHash(p, r)
  }

  lemma FieldsSpell(p: Platform, d: Dict, r: JournalRecord)
    ensures ReadFields(p, d) == Some(r) <==> Spells(p, d, r)
  {
    MembersAreKeys(d);
    if HasMembers(d) {
      TypeSpells(d[RECORD_TYPE], r.recordType);
    }
  }

  lemma TypeSpells(j: Json, t: RecordType)
    ensures ReadType(j) == Some(t)
      <==> j == Str(match t case AUTHORIZATION => "AUTHORIZATION" case EXECUTION => "EXECUTION")
  {
    assert "AUTHORIZATION"[0] == 'A' && "EXECUTION"[0] == 'E';
  }

  /** A dictionary is read as a record exactly when it spells one that can exist. */
  lemma FromDictExactly(p: Platform, d: Dict, r: JournalRecord)
    ensures FromDict(p, d) == Some(r) <==> Spells(p, d, r) && IsRecord(p, r)
  {
    FieldsSpell(p, d, r);
  }

  lemma DictKeys(r: JournalRecord)
    ensures ToDict(r).Keys == REQUIRED_KEYS + OPTIONAL_KEYS
  {
  }

  ghost predicate HoldsFields(d: Dict, r: JournalRecord) {
    && d.Keys == REQUIRED_KEYS + OPTIONAL_KEYS
    && d[SEQUENCE_NUMBER] == Num(r.sequence) && d[RECORD_ID] == Str(r.recordId)
    && d[RECORD_TYPE] == Str(TypeText(r.recordType)) && d[ENTITY_ID] == Str(r.entityId)
    && d[TIMESTAMP] == Str(r.timestamp) && d[PAYLOAD] == Obj(r.payload)
    && d[PREVIOUS_RECORD_HASH] == Str(r.previousHash) && d[RECORD_HASH] == Str(r.recordHash)
    && d[POLICY_VERSION] == Str(r.policyVersion) && d[JOURNAL_VERSION] == Str(r.journalVersion)
    && d[METADATA] == Obj(r.metadata)
  }

  lemma DictHoldsFields(r: JournalRecord)
    ensures HoldsFields(ToDict(r), r)
  {
    DictKeys(r);
  }

  lemma HeldFieldsRead(p: Platform, d: Dict, r: JournalRecord)
    requires p.readTime(r.timestamp) == Some(r.timestamp) && HoldsFields(d, r)
    ensures ReadFields(p, d) == Some(r)
  {
    assert ReadType(Str(TypeText(r.recordType))) == Some(r.recordType);
  }

  lemma FieldsRoundTrip(p: Platform, r: JournalRecord)
    requires p.readTime(r.timestamp) == Some(r.timestamp)
    ensures ReadFields(p, ToDict(r)) == Some(r)
  {
    DictHoldsFields(r);
    HeldFieldsRead(p, ToDict(r), r);
  }

  /** A record survives being written to its dictionary and read back. */
  lemma DictRoundTrip(p: Platform, r: JournalRecord)
    requires RecordOk(p, r)
    ensures FromDict(p, ToDict(r)) == Some(r)
  {
    FieldsRoundTrip(p, r);
  }

  /** The keys that the payload of a record type must carry, the entity's own first. */
  function Required(t: RecordType): seq<Key> {
    match t
    case AUTHORIZATION => [AUTHORIZATION_ID, REQUEST_FINGERPRINT, PROPOSAL_ID]
    case EXECUTION => [EXECUTION_ID, AUTHORIZATION_ID, PROPOSAL_ID]
  }

  /** The payload names its own entity and refers to what its record type refers to. */
  predicate PayloadMatches(r: JournalRecord) {
    && PROPOSAL_ID in r.payload && AUTHORIZATION_ID in r.payload
    && match r.recordType
       case AUTHORIZATION => r.payload[AUTHORIZATION_ID] == Str(r.entityId) && REQUEST_FINGERPRINT in r.payload
       case EXECUTION => EXECUTION_ID in r.payload && r.payload[EXECUTION_ID] == Str(r.entityId)
  }

  function LastHash(records: seq<JournalRecord>): string {
    if records == [] then "" else records[|records| - 1].recordHash
  }

  function EntityIds(records: seq<JournalRecord>, t: RecordType): seq<string> {
    if records == [] then []
    else
      var rest := EntityIds(records[..|records| - 1], t);
      var r := records[|records| - 1];
      if r.recordType == t then rest + [r.entityId] else rest
  }

  function RecordIds(records: seq<JournalRecord>): seq<string> {
    seq(|records|, i requires 0 <= i < |records| => records[i].recordId)
  }

  /** `len(ids) == len(set(ids))`. */
  predicate AllDifferent(ids: seq<string>) {
    forall i, j :: 0 <= i < j < |ids| ==> ids[i] != ids[j]
  }

  predicate NoDuplicates(records: seq<JournalRecord>) {
    && AllDifferent(RecordIds(records))
    && AllDifferent(EntityIds(records, AUTHORIZATION))
    && AllDifferent(EntityIds(records, EXECUTION))
  }

  /** Record `i` is the successor of the records before it. */
  predicate Linked(p: Platform, records: seq<JournalRecord>, i: nat)
    requires i < |records|
  {
    && records[i].sequence == i + 1
    && records[i].previousHash == LastHash(records[..i])
    && RecordOk(p, records[i])
    && PayloadMatches(records[i])
  }

  ghost predicate Chain(p: Platform, records: seq<JournalRecord>) {
    forall i {:trigger Linked(p, records, i)} :: 0 <= i < |records| ==> Linked(p, records, i)
  }

  /** A well-formed journal: an unbroken chain in which nothing occurs twice. */
  ghost predicate WellFormed(p: Platform, records: seq<JournalRecord>) {
    Chain(p, records) && NoDuplicates(records)
  }

  lemma ChainPrefix(p: Platform, records: seq<JournalRecord>, n: nat)
    requires Chain(p, records) && n <= |records|
    ensures Chain(p, records[..n])
  {
    forall i | 0 <= i < n ensures Linked(p, records[..n], i) {
      assert Linked(p, records, i);
      assert records[..n][..i] == records[..i];
    }
  }

  lemma ChainAppend(p: Platform, records: seq<JournalRecord>, r: JournalRecord)
    requires Chain(p, records)
    ensures Chain(p, records + [r]) <==> Linked(p, records + [r], |records|)
  {
    if Linked(p, records + [r], |records|) {
      forall i | 0 <= i < |records| + 1 ensures Linked(p, records + [r], i) {
        if i < |records| {
          LinkedKept(p, records, r, i);
        }
      }
    }
  }

  lemma LinkedKept(p: Platform, records: seq<JournalRecord>, r: JournalRecord, i: nat)
    requires i < |records| && Linked(p, records, i)
    ensures Linked(p, records + [r], i)
  {
    assert (records + [r])[..i] == records[..i];
  }

  // ----- the hash chain commits to the whole history

  /** Everything the record hash covers; `metadata` is outside it. */
  predicate SameHashedContent(a: JournalRecord, b: JournalRecord) {
    && a.sequence == b.sequence && a.recordType == b.recordType && a.entityId == b.entityId
    && a.timestamp == b.timestamp && a.payload == b.payload && a.previousHash == b.previousHash
    && a.policyVersion == b.policyVersion && a.journalVersion == b.journalVersion
  }

  predicate SameHistory(xs: seq<JournalRecord>, ys: seq<JournalRecord>) {
    |xs| == |ys| && forall i :: 0 <= i < |xs| ==> SameHashedContent(xs[i], ys[i]) && xs[i].recordId == ys[i].recordId
  }

  lemma HashBaseInjective(a: JournalRecord, b: JournalRecord)
    requires HashBase(a) == HashBase(b)
    ensures SameHashedContent(a, b)
  {
    var x, y := HashBase(a).fields, HashBase(b).fields;
    assert x[SEQUENCE_NUMBER] == y[SEQUENCE_NUMBER] && x[RECORD_TYPE] == y[RECORD_TYPE];
    assert x[ENTITY_ID] == y[ENTITY_ID] && x[TIMESTAMP] == y[TIMESTAMP];
    assert x[PAYLOAD] == y[PAYLOAD] && x[PREVIOUS_RECORD_HASH] == y[PREVIOUS_RECORD_HASH];
    assert x[POLICY_VERSION] == y[POLICY_VERSION] && x[JOURNAL_VERSION] == y[JOURNAL_VERSION];
  }

  lemma SameHashOrCollision(p: Platform, x: JournalRecord, y: JournalRecord) returns (a: Bytes, b: Bytes)
    requires p.Faithful() && RecordHash(p, x) == RecordHash(p, y)
    ensures SameHashedContent(x, y) || (a != b && p.digest(a) == p.digest(b))
  {
    a, b := p.dumps(HashBase(x)), p.dumps(HashBase(y));
    if a == b {
      assert p.loads(a) == Some(HashBase(x)) && p.loads(b) == Some(HashBase(y));
      HashBaseInjective(x, y);
    }
  }

  lemma IdBaseInjective(p: Platform, a: JournalRecord, b: JournalRecord)
    requires IdBase(p, a) == IdBase(p, b)
    ensures a.sequence == b.sequence && a.recordType == b.recordType && a.entityId == b.entityId
      && a.timestamp == b.timestamp && a.previousHash == b.previousHash
    ensures p.digest(p.dumps(Obj(a.payload))) == p.digest(p.dumps(Obj(b.payload)))
  {
    var x, y := IdBase(p, a).fields, IdBase(p, b).fields;
    assert x[SEQUENCE_NUMBER] == y[SEQUENCE_NUMBER] && x[RECORD_TYPE] == y[RECORD_TYPE];
    assert x[ENTITY_ID] == y[ENTITY_ID] && x[TIMESTAMP] == y[TIMESTAMP];
    assert x[PAYLOAD_HASH] == y[PAYLOAD_HASH] && x[PREVIOUS_RECORD_HASH] == y[PREVIOUS_RECORD_HASH];
  }

  /** Records with the same identifier agree on everything but the versions, or exhibit a collision. */
  lemma SameIdOrCollision(p: Platform, x: JournalRecord, y: JournalRecord) returns (a: Bytes, b: Bytes)
    requires p.Faithful() && RecordId(p, x) == RecordId(p, y)
    ensures (x.sequence == y.sequence && x.recordType == y.recordType && x.entityId == y.entityId
             && x.timestamp == y.timestamp && x.previousHash == y.previousHash && x.payload == y.payload)
            || (a != b && p.digest(a) == p.digest(b))
  {
    a, b := p.dumps(IdBase(p, x)), p.dumps(IdBase(p, y));
    if a == b {
      assert p.loads(a) == Some(IdBase(p, x)) && p.loads(b) == Some(IdBase(p, y));
      IdBaseInjective(p, x, y);
      a, b := p.dumps(Obj(x.payload)), p.dumps(Obj(y.payload));
      assert p.loads(a) == Some(Obj(x.payload)) && p.loads(b) == Some(Obj(y.payload));
    }
  }

  lemma IdTextsDiffer(p: Platform, x: JournalRecord, y: JournalRecord)
    requires p.Faithful() && x.sequence != y.sequence
    ensures p.dumps(IdBase(p, x)) != p.dumps(IdBase(p, y))
  {
    assert IdBase(p, x).fields[SEQUENCE_NUMBER] != IdBase(p, y).fields[SEQUENCE_NUMBER];
    assert p.loads(p.dumps(IdBase(p, x))) == Some(IdBase(p, x));
    assert p.loads(p.dumps(IdBase(p, y))) == Some(IdBase(p, y));
  }

  /** What a chain says about the record at one position. */
  lemma ChainAt(p: Platform, records: seq<JournalRecord>, i: nat)
    requires Chain(p, records) && i < |records|
    ensures records[i].sequence == i + 1 && records[i].previousHash == LastHash(records[..i])
    ensures records[i].recordHash == RecordHash(p, records[i]) && records[i].recordId == RecordId(p, records[i])
    ensures !IsBlank(records[i].recordHash)
  {
    assert Linked(p, records, i);
  }

  /** Two journals that are well-formed chains with the same last record hash either tell the same history
      or exhibit two different texts with the same SHA-256 digest. No property of the digest is assumed. */
  lemma {:induction false} LastHashCommits(p: Platform, xs: seq<JournalRecord>, ys: seq<JournalRecord>)
    returns (a: Bytes, b: Bytes)
    requires p.Faithful() && Chain(p, xs) && Chain(p, ys) && xs != [] && ys != []
    requires LastHash(xs) == LastHash(ys)
    ensures SameHistory(xs, ys) || (a != b && p.digest(a) == p.digest(b))
    decreases |xs|
  {
    var m, n := |xs| - 1, |ys| - 1;
    ChainAt(p, xs, m);
    ChainAt(p, ys, n);
    a, b := SameHashOrCollision(p, xs[m], ys[n]);
    if SameHashedContent(xs[m], ys[n]) && m > 0 {
      ChainPrefix(p, xs, m);
      ChainPrefix(p, ys, n);
      a, b := LastHashCommits(p, xs[..m], ys[..n]);
      assert SameHistory(xs[..m], ys[..n]) ==> SameHistory(xs, ys) by {
        assert forall i :: 0 <= i < m ==> xs[..m][i] == xs[i] && (i < n ==> ys[..n][i] == ys[i]);
      }
    }
  }
}
