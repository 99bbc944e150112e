/** The bucket checks of clousec/scanners/s3_scanner.py. Each AWS response is an
  * abstract input that is either the returned value or a ClientError. */
module S3Scanner {
  import opened Wrappers
  import opened Text
  import Seqs
  import opened Models

  /** The outcome of one AWS call. */
  datatype Call<T> = Returned(value: T) | ClientError

  /** An ACL grant; `Grantee` and its `URI` may be absent from the response. */
  datatype Grantee = Grantee(uri: Option<string>)
  datatype Grant = Grant(grantee: Option<Grantee>)
  datatype Acl = Acl(grants: Option<seq<Grant>>)

  /** What the four calls of one `scan_bucket` return. */
  datatype BucketResponses = BucketResponses(
    policyIsPublic: Call<bool>,          // get_bucket_policy_status: PolicyStatus.IsPublic
    acl: Call<Acl>,                      // get_bucket_acl
    publicAccessBlock: Call<seq<bool>>,  // get_public_access_block: the configuration's values
    encryption: Call<()>)                // get_bucket_encryption: only success matters

  const S3Service := "S3"
  const PolicyIssue := "Public bucket policy"
  const AclIssue := "Public ACL enabled"
  const BpaIssue := "Block Public Access disabled"
  const EncryptionIssue := "S3 bucket not encrypted"
  const AllUsersSuffix := "AllUsers"

  /** `grant.get("Grantee", {}).get("URI", "")` */
  function GranteeUri(g: Grant): string {
    match g.grantee
    case None => ""
    case Some(grantee) => grantee.uri.GetOr("")
  }

  /** The `any(...)` over `acl.get("Grants", [])`. */
  function AclIsPublic(acl: Acl): (r: bool)
    ensures r <==> exists i :: 0 <= i < |acl.grants.GetOr([])|
                               && EndsWith(GranteeUri(acl.grants.GetOr([])[i]), AllUsersSuffix)
    ensures acl.grants == None ==> !r
  {
    Seqs.Any(acl.grants.GetOr([]), (g: Grant) => EndsWith(GranteeUri(g), AllUsersSuffix))
  }

  /** A grant without a grantee, or a grantee without a URI, never counts as public. */
  lemma MissingUriNotPublic(g: Grant)
    requires g.grantee == None || g.grantee.value.uri == None
    ensures !EndsWith(GranteeUri(g), AllUsersSuffix)
  {
  }

  /** `is_public`: a ClientError counts as not public. */
  function PolicyPublic(r: BucketResponses): bool {
    match r.policyIsPublic
    case Returned(b) => b
    case ClientError => false
  }

  /** `public_acl`: a ClientError counts as not public. */
  function AclPublic(r: BucketResponses): bool {
    match r.acl
    case Returned(a) => AclIsPublic(a)
    case ClientError => false
  }

  /** `not all(config.values())` on a returned configuration; a ClientError is ignored. */
  function BpaDisabled(r: BucketResponses): bool {
    match r.publicAccessBlock
    case Returned(config) => !(forall i :: 0 <= i < |config| ==> config[i])
    case ClientError => false
  }

  function S3Key(bucket: string, issue: string): Key {
    Key(S3Service, bucket, issue, GlobalRegion)
  }

  function S3Finding(bucket: string, issue: string, severity: string): Finding {
    Finding(S3Service, bucket, issue, severity, GlobalRegion)
  }

  /** The policy check's write: upsert HIGH when public, resolve otherwise. */
  function PolicyOp(bucket: string, r: BucketResponses): (op: Op)
    ensures OpKey(op) == S3Key(bucket, PolicyIssue)
    ensures op.UpsertOp? <==> PolicyPublic(r)
    ensures op.UpsertOp? ==> op.f.severity == High
    ensures !op.SetOp?
  {
    if PolicyPublic(r) then UpsertOp(S3Finding(bucket, PolicyIssue, High))
    else ResolveOp(S3Key(bucket, PolicyIssue))
  }

  /** The ACL check's write: upsert HIGH when public, resolve otherwise. */
  function AclOp(bucket: string, r: BucketResponses): (op: Op)
    ensures OpKey(op) == S3Key(bucket, AclIssue)
    ensures op.UpsertOp? <==> AclPublic(r)
    ensures op.UpsertOp? ==> op.f.severity == High
    ensures !op.SetOp?
  {
    if AclPublic(r) then UpsertOp(S3Finding(bucket, AclIssue, High))
    else ResolveOp(S3Key(bucket, AclIssue))
  }

  /** The Block Public Access check's writes: one HIGH upsert or nothing, never a resolve. */
  function BpaOps(bucket: string, r: BucketResponses): (ops: seq<Op>)
    ensures |ops| == (if BpaDisabled(r) then 1 else 0)
    ensures forall i :: 0 <= i < |ops| ==> OpKey(ops[i]) == S3Key(bucket, BpaIssue)
                                           && ops[i].UpsertOp? && ops[i].f.severity == High
  {
    if BpaDisabled(r) then [UpsertOp(S3Finding(bucket, BpaIssue, High))] else []
  }

  /** The encryption check's write: a returned configuration resolves, a ClientError upserts MEDIUM. */
  function EncryptionOp(bucket: string, r: BucketResponses): (op: Op)
    ensures OpKey(op) == S3Key(bucket, EncryptionIssue)
    ensures op.UpsertOp? <==> r.encryption.ClientError?
    ensures op.UpsertOp? ==> op.f.severity == Medium
    ensures !op.SetOp?
  {
    match r.encryption
    case Returned(_) => ResolveOp(S3Key(bucket, EncryptionIssue))
    case ClientError => UpsertOp(S3Finding(bucket, EncryptionIssue, Medium))
  }

  /** The four issue texts differ (they have different lengths). */
  lemma IssuesDistinct()
    ensures |PolicyIssue| == 20 && |AclIssue| == 18 && |BpaIssue| == 28 && |EncryptionIssue| == 23
  {
  }

  /** The writes one `scan_bucket(bucket)` issues, in order. */
  function ScanBucketOps(bucket: string, r: BucketResponses): (ops: seq<Op>)
    ensures |ops| == 3 || |ops| == 4
    ensures |ops| == 4 <==> BpaDisabled(r)
    ensures forall i :: 0 <= i < |ops| ==> OpKey(ops[i]).service == S3Service
                                           && OpKey(ops[i]).resourceId == bucket
                                           && OpKey(ops[i]).region == GlobalRegion
    ensures OpKey(ops[0]).issue == PolicyIssue && OpKey(ops[1]).issue == AclIssue
    ensures |ops| == 4 ==> OpKey(ops[2]).issue == BpaIssue
    ensures OpKey(ops[|ops| - 1]).issue == EncryptionIssue
    ensures forall i, j :: 0 <= i < j < |ops| ==> OpKey(ops[i]) != OpKey(ops[j])
    ensures forall i :: 0 <= i < |ops| ==> !ops[i].SetOp?
    ensures forall i :: 0 <= i < |ops| && OpKey(ops[i]).issue == BpaIssue ==> ops[i].UpsertOp?
  {
    IssuesDistinct();
    [PolicyOp(bucket, r), AclOp(bucket, r)] + BpaOps(bucket, r) + [EncryptionOp(bucket, r)]
  }

  /** The scan's writes, performed one check at a time. */
  lemma ScanBucketSteps(m: Store, bucket: string, r: BucketResponses, now: Time)
    ensures var m1 := Apply(m, PolicyOp(bucket, r), now);
            var m2 := Apply(m1, AclOp(bucket, r), now);
            var m3 := ApplyOps(m2, BpaOps(bucket, r), now);
            ApplyOps(m, ScanBucketOps(bucket, r), now) == Apply(m3, EncryptionOp(bucket, r), now)
  {
    var p, a, b, e := PolicyOp(bucket, r), AclOp(bucket, r), BpaOps(bucket, r), EncryptionOp(bucket, r);
    ApplyOpsSnoc(m, [], p, now);
    assert [] + [p] == [p];
    ApplyOpsSnoc(m, [p], a, now);
    assert [p] + [a] == [p, a];
    ApplyOpsAppend(m, [p, a], b, now);
    ApplyOpsSnoc(m, [p, a] + b, e, now);
  }

  /** `scan_bucket(bucket_name)`, all writes stamped with `now`. */
  method ScanBucket(store: FindingStore, bucketName: string, r: BucketResponses, now: Time)
    requires store.Valid()
    modifies store
    ensures store.Valid()
    ensures store.records == ApplyOps(old(store.records), ScanBucketOps(bucketName, r), now)
  {
    ghost var m0 := store.records;
    var region := GlobalRegion;

    // public bucket policy
    var isPublic: bool;
    match r.policyIsPublic {
      case Returned(b) => isPublic := b;
      case ClientError => isPublic := false;
    }
    if isPublic {
      store.UpsertFinding(S3Service, bucketName, PolicyIssue, High, region, now);
    } else {
      store.ResolveFinding(S3Service, bucketName, PolicyIssue, region, now);
    }
    ghost var m1 := store.records;
    assert m1 == Apply(m0, PolicyOp(bucketName, r), now);

    // public ACL
    var publicAcl: bool;
    match r.acl {
      case Returned(acl) => publicAcl := AclIsPublic(acl);
      case ClientError => publicAcl := false;
    }
    if publicAcl {
      store.UpsertFinding(S3Service, bucketName, AclIssue, High, region, now);
    } else {
      store.ResolveFinding(S3Service, bucketName, AclIssue, region, now);
    }
    ghost var m2 := store.records;
    assert m2 == Apply(m1, AclOp(bucketName, r), now);

    // Block Public Access
    match r.publicAccessBlock {
      case Returned(config) =>
        if !(forall i :: 0 <= i < |config| ==> config[i]) {
          store.UpsertFinding(S3Service, bucketName, BpaIssue, High, region, now);
          ApplyOpsSnoc(m2, [], BpaOps(bucketName, r)[0], now);
          assert [] + [BpaOps(bucketName, r)[0]] == BpaOps(bucketName, r);
        }
      case ClientError =>
    }
    ghost var m3 := store.records;
    assert m3 == ApplyOps(m2, BpaOps(bucketName, r), now);

    // encryption
    match r.encryption {
      case Returned(_) =>
        store.ResolveFinding(S3Service, bucketName, EncryptionIssue, region, now);
      case ClientError =>
        store.UpsertFinding(S3Service, bucketName, EncryptionIssue, Medium, region, now);
    }
    assert store.records == Apply(m3, EncryptionOp(bucketName, r), now);
    ScanBucketSteps(m0, bucketName, r, now);
  }

  /** The store after one scan of `bucket`, from store `m`. */
  function AfterScan(m: Store, bucket: string, r: BucketResponses, now: Time): Store {
    ApplyOps(m, ScanBucketOps(bucket, r), now)
  }

  /** The index of the write for `issue` among a scan's writes. */
  function IndexOfIssue(bucket: string, r: BucketResponses, issue: string): (i: nat)
    requires issue in {PolicyIssue, AclIssue, EncryptionIssue} || (issue == BpaIssue && BpaDisabled(r))
    ensures i < |ScanBucketOps(bucket, r)| && OpKey(ScanBucketOps(bucket, r)[i]).issue == issue
  {
    if issue == PolicyIssue then 0
    else if issue == AclIssue then 1
    else if issue == BpaIssue then 2
    else |ScanBucketOps(bucket, r)| - 1
  }

  /** After a scan, the record of the check for `issue` is exactly what its one write made of it. */
  lemma ScanWritesOnce(m: Store, bucket: string, r: BucketResponses, issue: string, now: Time)
    requires issue in {PolicyIssue, AclIssue, EncryptionIssue} || (issue == BpaIssue && BpaDisabled(r))
    ensures var ops := ScanBucketOps(bucket, r);
            var op := ops[IndexOfIssue(bucket, r, issue)];
            var m' := AfterScan(m, bucket, r, now);
            OpKey(op) == S3Key(bucket, issue)
            && (S3Key(bucket, issue) in m' <==> S3Key(bucket, issue) in Apply(m, op, now))
            && (S3Key(bucket, issue) in m' ==> m'[S3Key(bucket, issue)] == Apply(m, op, now)[S3Key(bucket, issue)])
  {
    var ops := ScanBucketOps(bucket, r);
    var i := IndexOfIssue(bucket, r, issue);
    ApplyOpsSingleWriter(m, ops, i, now);
  }

  /** Public policy: an OPEN HIGH finding iff the policy status says public;
    * otherwise (ClientError included) no OPEN record for that check remains. */
  lemma {:induction false} PolicyCheckEffect(m: Store, bucket: string, r: BucketResponses, now: Time)
    ensures var k := S3Key(bucket, PolicyIssue); var m' := AfterScan(m, bucket, r, now);
            (PolicyPublic(r) ==> k in m' && m'[k].status == Some(Open) && m'[k].finding.severity == High)
            && (!PolicyPublic(r) ==> (k in m' <==> k in m) && (k in m' ==> m'[k].status != Some(Open)))
  {
    ScanWritesOnce(m, bucket, r, PolicyIssue, now);
  }

  /** Public ACL: the same two-way rule as the policy check, on the ACL grants. */
  lemma {:induction false} AclCheckEffect(m: Store, bucket: string, r: BucketResponses, now: Time)
    ensures var k := S3Key(bucket, AclIssue); var m' := AfterScan(m, bucket, r, now);
            (AclPublic(r) ==> k in m' && m'[k].status == Some(Open) && m'[k].finding.severity == High)
            && (!AclPublic(r) ==> (k in m' <==> k in m) && (k in m' ==> m'[k].status != Some(Open)))
  {
    ScanWritesOnce(m, bucket, r, AclIssue, now);
  }

  /** Block Public Access: an OPEN HIGH finding when some setting is off; otherwise
    * the record (or its absence) is left untouched -- this check never resolves. */
  lemma {:induction false} BpaCheckEffect(m: Store, bucket: string, r: BucketResponses, now: Time)
    ensures var k := S3Key(bucket, BpaIssue); var m' := AfterScan(m, bucket, r, now);
            (BpaDisabled(r) ==> k in m' && m'[k].status == Some(Open) && m'[k].finding.severity == High)
            && (!BpaDisabled(r) ==> (k in m' <==> k in m) && (k in m ==> m'[k] == m[k]))
  {
    var k := S3Key(bucket, BpaIssue);
    if BpaDisabled(r) {
      ScanWritesOnce(m, bucket, r, BpaIssue, now);
    } else {
      var ops := ScanBucketOps(bucket, r);
      assert forall i :: 0 <= i < |ops| ==> OpKey(ops[i]) != k;
      ApplyOpsFrame(m, ops, k, now);
    }
  }

  /** Encryption: a returned configuration resolves; a ClientError opens a MEDIUM finding. */
  lemma {:induction false} EncryptionCheckEffect(m: Store, bucket: string, r: BucketResponses, now: Time)
    ensures var k := S3Key(bucket, EncryptionIssue); var m' := AfterScan(m, bucket, r, now);
            (r.encryption.ClientError? ==> k in m' && m'[k].status == Some(Open) && m'[k].finding.severity == Medium)
            && (r.encryption.Returned? ==> (k in m' <==> k in m) && (k in m' ==> m'[k].status != Some(Open)))
  {
    ScanWritesOnce(m, bucket, r, EncryptionIssue, now);
  }

  /** A scan of one bucket touches only that bucket's four S3 "global" keys. */
  lemma {:induction false} ScanFrame(m: Store, bucket: string, r: BucketResponses, k: Key, now: Time)
    requires k.service != S3Service || k.resourceId != bucket || k.region != GlobalRegion
             || k.issue !in {PolicyIssue, AclIssue, BpaIssue, EncryptionIssue}
    ensures var m' := AfterScan(m, bucket, r, now);
            (k in m' <==> k in m) && (k in m ==> m'[k] == m[k])
  {
    var ops := ScanBucketOps(bucket, r);
    assert forall i :: 0 <= i < |ops| ==> OpKey(ops[i]) != k;
    ApplyOpsFrame(m, ops, k, now);
  }
}
