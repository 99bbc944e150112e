/** The finding store of clousec/models.py: a collection of findings keyed by
  * (service, resource id, issue, region), with an OPEN/RESOLVED lifecycle. */
module Models {
  import opened Wrappers

  /** An abstract timestamp; the source reads the clock, the model takes it as a parameter. */
  type Time = int

  datatype Status = Open | Resolved

  /** The five descriptive fields every stored finding carries. */
  datatype Finding = Finding(service: string, resourceId: string, issue: string, severity: string, region: string)

  /** The identity of a finding. `generate_finding_id` hashes exactly these four
    * fields and the collection has a unique index on them; severity is not part of it. */
  datatype Key = Key(service: string, resourceId: string, issue: string, region: string)

  function KeyOf(f: Finding): Key {
    Key(f.service, f.resourceId, f.issue, f.region)
  }

  /** A stored document. Fields that a write path never sets are `None`
    * (`resolved_at: None` and an absent `resolved_at` are not told apart). */
  datatype Record = Record(
    finding: Finding,
    status: Option<Status>,
    firstSeen: Option<Time>,
    lastSeen: Option<Time>,
    resolvedAt: Option<Time>,
    timestamp: Option<Time>)

  type Store = map<Key, Record>

  /** The severity strings and the region the scanners write. */
  const Medium := "MEDIUM"
  const High := "HIGH"
  const Critical := "CRITICAL"
  const GlobalRegion := "global"

  /** The unique index: every record sits under the key made of its own fields. */
  ghost predicate KeysMatch(m: Store) {
    forall k :: k in m ==> KeyOf(m[k].finding) == k
  }

  /** `upsert_finding`: `$set` the fields, status OPEN and last_seen; `$setOnInsert`
    * first_seen and resolved_at only when the key is new. */
  function AfterUpsert(m: Store, f: Finding, now: Time): (m': Store)
    ensures KeyOf(f) in m' && m'.Keys == m.Keys + {KeyOf(f)}
    ensures m'[KeyOf(f)].finding == f
    ensures m'[KeyOf(f)].status == Some(Open) && m'[KeyOf(f)].lastSeen == Some(now)
    ensures KeyOf(f) !in m ==>
              m'[KeyOf(f)].firstSeen == Some(now) && m'[KeyOf(f)].resolvedAt == None
              && m'[KeyOf(f)].timestamp == None
    ensures KeyOf(f) in m ==>
              m'[KeyOf(f)].firstSeen == m[KeyOf(f)].firstSeen
              && m'[KeyOf(f)].resolvedAt == m[KeyOf(f)].resolvedAt
              && m'[KeyOf(f)].timestamp == m[KeyOf(f)].timestamp
    ensures forall k :: k in m && k != KeyOf(f) ==> m'[k] == m[k]
    ensures KeysMatch(m) ==> KeysMatch(m')
  {
    var k := KeyOf(f);
    if k in m then
      m[k := m[k].(finding := f, status := Some(Open), lastSeen := Some(now))]
    else
      m[k := Record(f, Some(Open), Some(now), Some(now), None, None)]
  }

  /** `resolve_finding`: the filter also requires status OPEN and there is no
    * upsert, so a missing or non-open record is left as it is. */
  function AfterResolve(m: Store, k: Key, now: Time): (m': Store)
    ensures m'.Keys == m.Keys
    ensures k in m && m[k].status == Some(Open) ==>
              m'[k] == m[k].(status := Some(Resolved), resolvedAt := Some(now))
    ensures !(k in m && m[k].status == Some(Open)) ==> m' == m
    ensures forall j :: j in m && j != k ==> m'[j] == m[j]
    ensures k in m' ==> m'[k].status != Some(Open)
    ensures KeysMatch(m) ==> KeysMatch(m')
  {
    if k in m && m[k].status == Some(Open) then
      m[k := m[k].(status := Some(Resolved), resolvedAt := Some(now))]
    else
      m
  }

  /** The EC2 scanner's `update_one(filter by the four key fields, {"$set": finding}, upsert=True)`:
    * the five fields and `timestamp` are written; status and the lifecycle times are not. */
  function AfterSet(m: Store, f: Finding, now: Time): (m': Store)
    ensures KeyOf(f) in m' && m'.Keys == m.Keys + {KeyOf(f)}
    ensures m'[KeyOf(f)].finding == f && m'[KeyOf(f)].timestamp == Some(now)
    ensures KeyOf(f) !in m ==>
              m'[KeyOf(f)].status == None && m'[KeyOf(f)].firstSeen == None
              && m'[KeyOf(f)].lastSeen == None && m'[KeyOf(f)].resolvedAt == None
    ensures KeyOf(f) in m ==>
              m'[KeyOf(f)] == m[KeyOf(f)].(finding := f, timestamp := Some(now))
    ensures forall k :: k in m && k != KeyOf(f) ==> m'[k] == m[k]
    ensures KeysMatch(m) ==> KeysMatch(m')
  {
    var k := KeyOf(f);
    if k in m then
      m[k := m[k].(finding := f, timestamp := Some(now))]
    else
      m[k := Record(f, None, None, None, None, Some(now))]
  }

  /** A second resolve of the same key changes nothing. */
  lemma ResolveIdempotent(m: Store, k: Key, t1: Time, t2: Time)
    ensures AfterResolve(AfterResolve(m, k, t1), k, t2) == AfterResolve(m, k, t1)
  {
  }

  /** A re-upsert that differs only in severity updates the one record in place. */
  lemma UpsertSeverityInPlace(m: Store, f: Finding, severity: string, t1: Time, t2: Time)
    ensures var m1 := AfterUpsert(m, f, t1);
            var m2 := AfterUpsert(m1, f.(severity := severity), t2);
            m2.Keys == m1.Keys
            && m2[KeyOf(f)].finding.severity == severity
            && m2[KeyOf(f)].firstSeen == m1[KeyOf(f)].firstSeen
  {
    assert KeyOf(f.(severity := severity)) == KeyOf(f);
  }

  /** Upsert then resolve with the same fields: the record ends RESOLVED at the
    * second time, and keeps a first_seen. */
  lemma UpsertThenResolve(m: Store, f: Finding, t1: Time, t2: Time)
    ensures var m2 := AfterResolve(AfterUpsert(m, f, t1), KeyOf(f), t2);
            KeyOf(f) in m2
            && m2[KeyOf(f)].status == Some(Resolved)
            && m2[KeyOf(f)].resolvedAt == Some(t2)
            && m2[KeyOf(f)].finding == f
            && (KeyOf(f) !in m ==> m2[KeyOf(f)].firstSeen == Some(t1))
            && (KeyOf(f) in m ==> m2[KeyOf(f)].firstSeen == m[KeyOf(f)].firstSeen)
  {
  }

  /** Reopening a resolved finding keeps its old resolved_at: `$setOnInsert` never
    * touches an existing record. */
  lemma ReopenKeepsResolvedAt(m: Store, f: Finding, t1: Time, t2: Time, t3: Time)
    ensures var m3 := AfterUpsert(AfterResolve(AfterUpsert(m, f, t1), KeyOf(f), t2), f, t3);
            m3[KeyOf(f)].status == Some(Open) && m3[KeyOf(f)].resolvedAt == Some(t2)
  {
  }

  /** One write to the store, as the scanners issue them. */
  datatype Op =
    | UpsertOp(f: Finding)            // upsert_finding
    | ResolveOp(k: Key)               // resolve_finding
    | SetOp(f: Finding)               // update_one by the four key fields with $set

  function OpKey(op: Op): Key {
    match op
    case UpsertOp(f) => KeyOf(f)
    case ResolveOp(k) => k
    case SetOp(f) => KeyOf(f)
  }

  function Apply(m: Store, op: Op, now: Time): Store {
    match op
    case UpsertOp(f) => AfterUpsert(m, f, now)
    case ResolveOp(k) => AfterResolve(m, k, now)
    case SetOp(f) => AfterSet(m, f, now)
  }

  /** The store after the writes `ops`, performed in order. Defined from the last
    * write backwards, so that a loop issuing one more write extends it by one step. */
  function ApplyOps(m: Store, ops: seq<Op>, now: Time): Store
    decreases |ops|
  {
    if ops == [] then m else Apply(ApplyOps(m, ops[..|ops| - 1], now), ops[|ops| - 1], now)
  }

  lemma ApplyOpsSnoc(m: Store, ops: seq<Op>, op: Op, now: Time)
    ensures ApplyOps(m, ops + [op], now) == Apply(ApplyOps(m, ops, now), op, now)
  {
    assert (ops + [op])[..|ops|] == ops;
  }

  /** Performing `a` then `b` is performing `a + b`. */
  lemma {:induction false} ApplyOpsAppend(m: Store, a: seq<Op>, b: seq<Op>, now: Time)
    ensures ApplyOps(m, a + b, now) == ApplyOps(ApplyOps(m, a, now), b, now)
    decreases |b|
  {
    if b == [] {
      assert a + b == a;
    } else {
      var b' := b[..|b| - 1];
      assert a + b == (a + b') + [b[|b| - 1]];
      ApplyOpsSnoc(m, a + b', b[|b| - 1], now);
      ApplyOpsAppend(m, a, b', now);
    }
  }

  /** Every write keeps the unique index. */
  lemma {:induction false} ApplyOpsKeysMatch(m: Store, ops: seq<Op>, now: Time)
    requires KeysMatch(m)
    ensures KeysMatch(ApplyOps(m, ops, now))
    decreases |ops|
  {
    if ops != [] {
      ApplyOpsKeysMatch(m, ops[..|ops| - 1], now);
    }
  }

  /** Writes to other keys leave a key's record (and its absence) alone. */
  lemma {:induction false} ApplyOpsFrame(m: Store, ops: seq<Op>, k: Key, now: Time)
    requires forall i :: 0 <= i < |ops| ==> OpKey(ops[i]) != k
    ensures var m' := ApplyOps(m, ops, now);
            (k in m' <==> k in m) && (k in m ==> m'[k] == m[k])
    decreases |ops|
  {
    if ops != [] {
      ApplyOpsFrame(m, ops[..|ops| - 1], k, now);
    }
  }

  /** A key written by exactly one of the writes ends as that single write leaves it. */
  lemma ApplyOpsSingleWriter(m: Store, ops: seq<Op>, i: nat, now: Time)
    requires i < |ops|
    requires forall j :: 0 <= j < |ops| && j != i ==> OpKey(ops[j]) != OpKey(ops[i])
    ensures var k := OpKey(ops[i]);
            var m' := ApplyOps(m, ops, now);
            var mi := Apply(ApplyOps(m, ops[..i], now), ops[i], now);
            (k in m' <==> k in mi) && (k in mi ==> m'[k] == mi[k])
            && ((k in m' <==> k in Apply(m, ops[i], now)) && (k in m' ==> m'[k] == Apply(m, ops[i], now)[k]))
  {
    var k := OpKey(ops[i]);
    assert ops == ops[..i] + [ops[i]] + ops[i + 1..];
    ApplyOpsFrame(m, ops[..i], k, now);
    ApplyOpsSnoc(m, ops[..i], ops[i], now);
    ApplyOpsAppend(m, ops[..i] + [ops[i]], ops[i + 1..], now);
    ApplyOpsFrame(ApplyOps(m, ops[..i] + [ops[i]], now), ops[i + 1..], k, now);
    ApplyOneAgrees(ApplyOps(m, ops[..i], now), m, ops[i], now);
  }

  /** A write's effect on its own key depends only on the record previously under that key. */
  lemma ApplyOneAgrees(m1: Store, m2: Store, op: Op, now: Time)
    requires OpKey(op) in m1 <==> OpKey(op) in m2
    requires OpKey(op) in m1 ==> m1[OpKey(op)] == m2[OpKey(op)]
    ensures var k := OpKey(op); var a := Apply(m1, op, now); var b := Apply(m2, op, now);
            (k in a <==> k in b) && (k in a ==> a[k] == b[k])
  {
  }

  /** The last upsert or `$set` of a key decides the severity it is left with;
    * resolves in between do not change it. */
  function LastWrittenSeverity(ops: seq<Op>, k: Key): Option<string>
    decreases |ops|
  {
    if ops == [] then None
    else
      var op := ops[|ops| - 1];
      if !op.ResolveOp? && OpKey(op) == k then Some(op.f.severity)
      else LastWrittenSeverity(ops[..|ops| - 1], k)
  }

  lemma {:induction false} LastWriteWins(m: Store, ops: seq<Op>, k: Key, now: Time)
    requires LastWrittenSeverity(ops, k).Some?
    ensures var m' := ApplyOps(m, ops, now);
            k in m' && m'[k].finding.severity == LastWrittenSeverity(ops, k).value
    decreases |ops|
  {
    var op := ops[|ops| - 1];
    if !(!op.ResolveOp? && OpKey(op) == k) {
      LastWriteWins(m, ops[..|ops| - 1], k, now);
    }
  }

  /** The store as a mutable collection, as the scanners use it. */
  class FindingStore {
    var records: Store

    ghost predicate Valid()
      reads this
    {
      KeysMatch(records)
    }

    constructor ()
      ensures Valid() && records == map[]
    {
      records := map[];
    }

    /** `upsert_finding(service, resource_id, issue, severity, region)` at time `now`. */
    method UpsertFinding(service: string, resourceId: string, issue: string, severity: string, region: string, now: Time)
      requires Valid()
      modifies this
      ensures Valid()
      ensures records == AfterUpsert(old(records), Finding(service, resourceId, issue, severity, region), now)
    {
      var f := Finding(service, resourceId, issue, severity, region);
      var k := KeyOf(f);
      if k in records {
        records := records[k := records[k].(finding := f, status := Some(Open), lastSeen := Some(now))];
      } else {
        records := records[k := Record(f, Some(Open), Some(now), Some(now), None, None)];
      }
    }

    /** `resolve_finding(service, resource_id, issue, region)` at time `now`. */
    method ResolveFinding(service: string, resourceId: string, issue: string, region: string, now: Time)
      requires Valid()
      modifies this
      ensures Valid()
      ensures records == AfterResolve(old(records), Key(service, resourceId, issue, region), now)
    {
      var k := Key(service, resourceId, issue, region);
      if k in records && records[k].status == Some(Open) {
        records := records[k := records[k].(status := Some(Resolved), resolvedAt := Some(now))];
      }
    }

    /** `update_one` filtered by the four key fields of `f`, `$set` to `f` and `timestamp`, upsert on. */
    method SetByKeyFields(f: Finding, now: Time)
      requires Valid()
      modifies this
      ensures Valid()
      ensures records == AfterSet(old(records), f, now)
    {
      var k := KeyOf(f);
      if k in records {
        records := records[k := records[k].(finding := f, timestamp := Some(now))];
      } else {
        records := records[k := Record(f, None, None, None, None, Some(now))];
      }
    }
  }
}
