/** The role check of clousec/scanners/iam_scanner.py. Policy documents are abstract
  * inputs: the documents of the role's attached policies, in listing order. */
module IamScanner {
  import opened Wrappers
  import opened Models

  /** A JSON value of `Action` or `Resource`: a single string or a list of strings. */
  datatype PolicyValue = Text(s: string) | Items(items: seq<string>)

  /** A policy statement; each of its three fields may be absent. */
  datatype Statement = Statement(effect: Option<string>, action: Option<PolicyValue>, resource: Option<PolicyValue>)

  datatype PolicyDocument = PolicyDocument(statement: Option<seq<Statement>>)

  const IamService := "IAM"
  const PermissiveIssue := "Overly permissive IAM policy"
  const Wildcard := "*"

  function Statements(doc: PolicyDocument): seq<Statement> {
    doc.statement.GetOr([])
  }

  /** An Allow statement whose Action or Resource is exactly the string "*". */
  predicate PermissiveStatement(st: Statement) {
    st.effect == Some("Allow") && (st.action == Some(Text(Wildcard)) || st.resource == Some(Text(Wildcard)))
  }

  predicate OverlyPermissive(doc: PolicyDocument) {
    exists i :: 0 <= i < |Statements(doc)| && PermissiveStatement(Statements(doc)[i])
  }

  /** `is_policy_overly_permissive(policy_doc)`: the loop with early return. */
  method IsPolicyOverlyPermissive(doc: PolicyDocument) returns (b: bool)
    ensures b == OverlyPermissive(doc)
    ensures doc.statement == None || doc.statement == Some([]) ==> !b
  {
    var statements := match doc.statement case None => [] case Some(ss) => ss;
    assert statements == Statements(doc);
    var i := 0;
    while i < |statements|
      invariant 0 <= i <= |statements|
      invariant forall j :: 0 <= j < i ==> !PermissiveStatement(statements[j])
    {
      var st := statements[i];
      if st.effect == Some("Allow") {
        if st.action == Some(Text(Wildcard)) || st.resource == Some(Text(Wildcard)) {
          return true;
        }
      }
      i := i + 1;
    }
    return false;
  }

  /** Only Allow statements matter: a document whose statements all have another
    * (or no) Effect is never overly permissive. */
  lemma NonAllowNeverPermissive(doc: PolicyDocument)
    requires forall i :: 0 <= i < |Statements(doc)| ==> Statements(doc)[i].effect != Some("Allow")
    ensures !OverlyPermissive(doc)
  {
  }

  /** The comparison is with the string "*": a list, even `["*"]`, does not match. */
  lemma ListWildcardDoesNotMatch(items: seq<string>)
    ensures !PermissiveStatement(Statement(Some("Allow"), Some(Items(items)), Some(Items(items))))
  {
  }

  function RoleKey(roleName: string): Key {
    Key(IamService, roleName, PermissiveIssue, GlobalRegion)
  }

  function RoleFinding(roleName: string): Finding {
    Finding(IamService, roleName, PermissiveIssue, Critical, GlobalRegion)
  }

  /** The writes of `scan_role(role_name)`: one upsert per overly permissive document. */
  function RoleOps(roleName: string, docs: seq<PolicyDocument>): seq<Op>
    decreases |docs|
  {
    if docs == [] then []
    else RoleOps(roleName, docs[..|docs| - 1])
         + (if OverlyPermissive(docs[|docs| - 1]) then [UpsertOp(RoleFinding(roleName))] else [])
  }

  /** `scan_role(role_name)`, all writes stamped with `now`. */
  method ScanRole(store: FindingStore, roleName: string, docs: seq<PolicyDocument>, now: Time)
    requires store.Valid()
    modifies store
    ensures store.Valid()
    ensures store.records == ApplyOps(old(store.records), RoleOps(roleName, docs), now)
  {
    ghost var m0 := store.records;
    ghost var written: seq<Op> := [];
    var i := 0;
    assert RoleOps(roleName, docs[..0]) == [] by { assert docs[..0] == []; }
    while i < |docs|
      invariant 0 <= i <= |docs|
      invariant store.Valid()
      invariant written == RoleOps(roleName, docs[..i])
      invariant store.records == ApplyOps(m0, written, now)
    {
      var policyDoc := docs[i];
      ghost var step := if OverlyPermissive(policyDoc) then [UpsertOp(RoleFinding(roleName))] else [];
      ghost var next := written + step;
      assert docs[..i + 1][..i] == docs[..i];
      assert next == RoleOps(roleName, docs[..i + 1]);
      var permissive := IsPolicyOverlyPermissive(policyDoc);
      if permissive {
        store.UpsertFinding(IamService, roleName, PermissiveIssue, Critical, GlobalRegion, now);
        ApplyOpsSnoc(m0, written, UpsertOp(RoleFinding(roleName)), now);
      } else {
        assert next == written;
      }
      written := next;
      i := i + 1;
    }
    assert docs[..i] == docs;
  }

  /** Every write of `scan_role` is the same CRITICAL upsert: it never resolves. */
  lemma {:induction false} RoleOpsAreUpserts(roleName: string, docs: seq<PolicyDocument>)
    ensures forall i :: 0 <= i < |RoleOps(roleName, docs)| ==> RoleOps(roleName, docs)[i] == UpsertOp(RoleFinding(roleName))
    ensures RoleOps(roleName, docs) == [] <==> forall j :: 0 <= j < |docs| ==> !OverlyPermissive(docs[j])
    decreases |docs|
  {
    if docs != [] {
      var init := docs[..|docs| - 1];
      RoleOpsAreUpserts(roleName, init);
      var a := RoleOps(roleName, init);
      var b: seq<Op> := if OverlyPermissive(docs[|docs| - 1]) then [UpsertOp(RoleFinding(roleName))] else [];
      forall i | 0 <= i < |a + b| ensures (a + b)[i] == UpsertOp(RoleFinding(roleName)) {
        if i < |a| { assert (a + b)[i] == a[i]; } else { assert (a + b)[i] == b[i - |a|]; }
      }
      if forall j :: 0 <= j < |init| ==> !OverlyPermissive(init[j]) {
        assert a == [];
      }
    }
  }

  /** After `scan_role`: if some attached policy is overly permissive, the role has exactly
    * one OPEN CRITICAL record, seen at `now`; otherwise the store is unchanged.
    * No other key is touched either way. */
  lemma {:induction false} ScanRoleEffect(m: Store, roleName: string, docs: seq<PolicyDocument>, now: Time)
    ensures (exists j :: 0 <= j < |docs| && OverlyPermissive(docs[j])) ==>
              var m' := ApplyOps(m, RoleOps(roleName, docs), now);
              RoleKey(roleName) in m' && m'.Keys == m.Keys + {RoleKey(roleName)}
              && m'[RoleKey(roleName)].status == Some(Open)
              && m'[RoleKey(roleName)].finding == RoleFinding(roleName)
              && m'[RoleKey(roleName)].lastSeen == Some(now)
    ensures (forall j :: 0 <= j < |docs| ==> !OverlyPermissive(docs[j])) ==>
              ApplyOps(m, RoleOps(roleName, docs), now) == m
    ensures forall k :: k in m && k != RoleKey(roleName) ==>
              k in ApplyOps(m, RoleOps(roleName, docs), now) && ApplyOps(m, RoleOps(roleName, docs), now)[k] == m[k]
  {
    var ops := RoleOps(roleName, docs);
    RoleOpsAreUpserts(roleName, docs);
    if ops != [] {
      RepeatedUpsert(m, ops, RoleFinding(roleName), now);
    }
  }

  /** The same upsert repeated: one record under its key, OPEN, last seen `now`. */
  lemma {:induction false} RepeatedUpsert(m: Store, ops: seq<Op>, f: Finding, now: Time)
    requires ops != []
    requires forall i :: 0 <= i < |ops| ==> ops[i] == UpsertOp(f)
    ensures KeyOf(f) in ApplyOps(m, ops, now) && ApplyOps(m, ops, now).Keys == m.Keys + {KeyOf(f)}
    ensures ApplyOps(m, ops, now)[KeyOf(f)].status == Some(Open)
    ensures ApplyOps(m, ops, now)[KeyOf(f)].finding == f
    ensures ApplyOps(m, ops, now)[KeyOf(f)].lastSeen == Some(now)
    ensures forall k :: k in m && k != KeyOf(f) ==> ApplyOps(m, ops, now)[k] == m[k]
    decreases |ops|
  {
    if |ops| > 1 {
      RepeatedUpsert(m, ops[..|ops| - 1], f, now);
    }
  }
}
