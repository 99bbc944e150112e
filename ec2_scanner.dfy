/** The security-group scan of clousec/scanners/ec2_scanner.py. The regions and the
  * `describe_security_groups` responses are abstract inputs. */
module Ec2Scanner {
  import opened Wrappers
  import opened Models

  datatype IpRange = IpRange(cidrIp: Option<string>)

  /** An ingress permission; `IpRanges`, `FromPort` and `ToPort` may be absent. */
  datatype Permission = Permission(ipRanges: Option<seq<IpRange>>, fromPort: Option<int>, toPort: Option<int>)

  datatype SecurityGroup = SecurityGroup(groupId: string, ipPermissions: Option<seq<Permission>>)

  /** One region's name and the security groups it reports. */
  datatype RegionScan = RegionScan(region: string, groups: seq<SecurityGroup>)

  const Ec2Service := "EC2"
  const OpenToWorldIssue := "Security group open to world"
  const WorldCidr := "0.0.0.0/0"
  const SensitivePorts: set<int> := {22, 3389}

  function Ranges(p: Permission): seq<IpRange> {
    p.ipRanges.GetOr([])
  }

  /** Some IP range of the permission is exactly 0.0.0.0/0. */
  predicate WorldOpen(p: Permission) {
    exists i :: 0 <= i < |Ranges(p)| && Ranges(p)[i].cidrIp == Some(WorldCidr)
  }

  /** `is_world_open(permission)`: the loop with early return. */
  method IsWorldOpen(p: Permission) returns (b: bool)
    ensures b == WorldOpen(p)
    ensures p.ipRanges == None || p.ipRanges == Some([]) ==> !b
  {
    var ranges := match p.ipRanges case None => [] case Some(rs) => rs;
    assert ranges == Ranges(p);
    var i := 0;
    while i < |ranges|
      invariant 0 <= i <= |ranges|
      invariant forall j :: 0 <= j < i ==> ranges[j].cidrIp != Some(WorldCidr)
    {
      if ranges[i].cidrIp == Some(WorldCidr) {
        return true;
      }
      i := i + 1;
    }
    return false;
  }

  /** The severity `scan_security_groups` computes for a world-open permission:
    * MEDIUM, then HIGH for a sensitive from-port, then CRITICAL for the full range 0-65535. */
  function RuleSeverity(fromPort: Option<int>, toPort: Option<int>): (s: string)
    ensures s == Medium || s == High || s == Critical
    ensures s == Critical <==> fromPort == Some(0) && toPort == Some(65535)
    ensures s == High <==> fromPort.Some? && fromPort.value in SensitivePorts
    ensures s == Medium <==> !(fromPort.Some? && fromPort.value in SensitivePorts)
                             && !(fromPort == Some(0) && toPort == Some(65535))
  {
    var s0 := Medium;
    var s1 := if fromPort.Some? && fromPort.value in SensitivePorts then High else s0;
    if fromPort == Some(0) && toPort == Some(65535) then Critical else s1
  }

  function GroupKey(region: string, groupId: string): Key {
    Key(Ec2Service, groupId, OpenToWorldIssue, region)
  }

  /** The write for one permission of group `groupId` in `region`: none unless world-open. */
  function PermissionOps(region: string, groupId: string, p: Permission): (ops: seq<Op>)
    ensures |ops| == (if WorldOpen(p) then 1 else 0)
    ensures forall i :: 0 <= i < |ops| ==>
              ops[i] == SetOp(Finding(Ec2Service, groupId, OpenToWorldIssue, RuleSeverity(p.fromPort, p.toPort), region))
  {
    if WorldOpen(p) then
      [SetOp(Finding(Ec2Service, groupId, OpenToWorldIssue, RuleSeverity(p.fromPort, p.toPort), region))]
    else []
  }

  /** The writes for the permissions `ps` of one group, in order. */
  function PermissionsOps(region: string, groupId: string, ps: seq<Permission>): seq<Op>
    decreases |ps|
  {
    if ps == [] then []
    else PermissionsOps(region, groupId, ps[..|ps| - 1]) + PermissionOps(region, groupId, ps[|ps| - 1])
  }

  /** A group's writes all go to its one key, at most one per permission. */
  lemma {:induction false} PermissionsOpsKeys(region: string, groupId: string, ps: seq<Permission>)
    ensures |PermissionsOps(region, groupId, ps)| <= |ps|
    ensures forall i :: 0 <= i < |PermissionsOps(region, groupId, ps)| ==>
              PermissionsOps(region, groupId, ps)[i].SetOp?
              && OpKey(PermissionsOps(region, groupId, ps)[i]) == GroupKey(region, groupId)
    decreases |ps|
  {
    if ps != [] {
      PermissionsOpsKeys(region, groupId, ps[..|ps| - 1]);
    }
  }

  function Permissions(sg: SecurityGroup): seq<Permission> {
    sg.ipPermissions.GetOr([])
  }

  /** The writes for the groups `gs` of one region, in order. */
  function GroupsOps(region: string, gs: seq<SecurityGroup>): seq<Op>
    decreases |gs|
  {
    if gs == [] then []
    else GroupsOps(region, gs[..|gs| - 1]) + PermissionsOps(region, gs[|gs| - 1].groupId, Permissions(gs[|gs| - 1]))
  }

  /** The writes of a whole scan, region by region. */
  function ScanOps(rs: seq<RegionScan>): seq<Op>
    decreases |rs|
  {
    if rs == [] then []
    else ScanOps(rs[..|rs| - 1]) + GroupsOps(rs[|rs| - 1].region, rs[|rs| - 1].groups)
  }

  /** Every write of a region's scan is a `$set` to an EC2 "open to world" key of that region. */
  lemma {:induction false} GroupsOpsKeys(region: string, gs: seq<SecurityGroup>)
    ensures forall i :: 0 <= i < |GroupsOps(region, gs)| ==>
              GroupsOps(region, gs)[i].SetOp?
              && OpKey(GroupsOps(region, gs)[i]).service == Ec2Service
              && OpKey(GroupsOps(region, gs)[i]).issue == OpenToWorldIssue
              && OpKey(GroupsOps(region, gs)[i]).region == region
    decreases |gs|
  {
    if gs != [] {
      GroupsOpsKeys(region, gs[..|gs| - 1]);
      var g := gs[|gs| - 1];
      PermissionsOpsKeys(region, g.groupId, Permissions(g));
      var a: seq<Op>, b: seq<Op> := GroupsOps(region, gs[..|gs| - 1]), PermissionsOps(region, g.groupId, Permissions(g));
      forall i | 0 <= i < |a + b|
        ensures (a + b)[i].SetOp? && OpKey((a + b)[i]).service == Ec2Service
                && OpKey((a + b)[i]).issue == OpenToWorldIssue && OpKey((a + b)[i]).region == region
      {
        if i < |a| { assert (a + b)[i] == a[i]; } else { assert (a + b)[i] == b[i - |a|]; }
      }
    }
  }

  /** Every write of a scan is a `$set` to an EC2 "open to world" key, so it can never
    * touch a record of the S3 or IAM scanners. */
  lemma {:induction false} ScanOpsKeys(rs: seq<RegionScan>)
    ensures forall i :: 0 <= i < |ScanOps(rs)| ==>
              ScanOps(rs)[i].SetOp?
              && OpKey(ScanOps(rs)[i]).service == Ec2Service
              && OpKey(ScanOps(rs)[i]).issue == OpenToWorldIssue
    decreases |rs|
  {
    if rs != [] {
      ScanOpsKeys(rs[..|rs| - 1]);
      GroupsOpsKeys(rs[|rs| - 1].region, rs[|rs| - 1].groups);
      var a: seq<Op>, b: seq<Op> := ScanOps(rs[..|rs| - 1]), GroupsOps(rs[|rs| - 1].region, rs[|rs| - 1].groups);
      forall i | 0 <= i < |a + b|
        ensures (a + b)[i].SetOp? && OpKey((a + b)[i]).service == Ec2Service
                && OpKey((a + b)[i]).issue == OpenToWorldIssue
      {
        if i < |a| { assert (a + b)[i] == a[i]; } else { assert (a + b)[i] == b[i - |a|]; }
      }
    }
  }

  lemma PermissionsOpsSnoc(region: string, groupId: string, ps: seq<Permission>, k: nat)
    requires k < |ps|
    ensures PermissionsOps(region, groupId, ps[..k + 1])
         == PermissionsOps(region, groupId, ps[..k]) + PermissionOps(region, groupId, ps[k])
  {
    assert ps[..k + 1][..k] == ps[..k];
  }

  lemma GroupsOpsSnoc(region: string, gs: seq<SecurityGroup>, j: nat)
    requires j < |gs|
    ensures GroupsOps(region, gs[..j + 1])
         == GroupsOps(region, gs[..j]) + PermissionsOps(region, gs[j].groupId, Permissions(gs[j]))
  {
    assert gs[..j + 1][..j] == gs[..j];
  }

  lemma ScanOpsSnoc(rs: seq<RegionScan>, i: nat)
    requires i < |rs|
    ensures ScanOps(rs[..i + 1]) == ScanOps(rs[..i]) + GroupsOps(rs[i].region, rs[i].groups)
  {
    assert rs[..i + 1][..i] == rs[..i];
  }

  /** One more write after `done` is one more step of the store. */
  lemma ApplyStep(m0: Store, done: seq<Op>, more: seq<Op>, now: Time)
    requires |more| <= 1
    ensures ApplyOps(m0, done + more, now)
         == if more == [] then ApplyOps(m0, done, now) else Apply(ApplyOps(m0, done, now), more[0], now)
  {
    if more == [] {
      assert done + more == done;
    } else {
      assert more == [more[0]];
      ApplyOpsSnoc(m0, done, more[0], now);
    }
  }

  /** The body of `scan_security_groups` for one group `sg` of `region`: the loop over
    * its permissions, grading and writing each world-open one. */
  method ScanGroup(store: FindingStore, region: string, sg: SecurityGroup, now: Time)
    requires store.Valid()
    modifies store
    ensures store.Valid()
    ensures store.records == ApplyOps(old(store.records), PermissionsOps(region, sg.groupId, Permissions(sg)), now)
  {
    ghost var m0 := store.records;
    ghost var written: seq<Op> := [];
    var sgId := sg.groupId;
    var perms := match sg.ipPermissions case None => [] case Some(ps) => ps;
    assert perms == Permissions(sg);
    var k := 0;
    assert PermissionsOps(region, sgId, perms[..0]) == [] by { assert perms[..0] == []; }
    while k < |perms|
      invariant 0 <= k <= |perms|
      invariant store.Valid()
      invariant written == PermissionsOps(region, sgId, perms[..k])
      invariant store.records == ApplyOps(m0, written, now)
    {
      var perm := perms[k];
      var fromPort := perm.fromPort;
      var toPort := perm.toPort;
      PermissionsOpsSnoc(region, sgId, perms, k);
      ghost var step := PermissionOps(region, sgId, perm);
      ghost var next := written + step;
      assert next == PermissionsOps(region, sgId, perms[..k + 1]);
      ApplyStep(m0, written, step, now);
      var open := IsWorldOpen(perm);
      if open {
        var severity := Medium;
        if fromPort.Some? && fromPort.value in SensitivePorts {
          severity := High;
        }
        if fromPort == Some(0) && toPort == Some(65535) {
          severity := Critical;
        }
        assert severity == RuleSeverity(fromPort, toPort);
        var finding := Finding(Ec2Service, sgId, OpenToWorldIssue, severity, region);
        assert step == [SetOp(finding)];
        store.SetByKeyFields(finding, now);
      } else {
        assert step == [];
      }
      written := next;
      k := k + 1;
    }
    assert perms[..k] == perms;
  }

  /** The body of `scan_security_groups` for one region: the loop over its groups. */
  method ScanRegion(store: FindingStore, rs: RegionScan, now: Time)
    requires store.Valid()
    modifies store
    ensures store.Valid()
    ensures store.records == ApplyOps(old(store.records), GroupsOps(rs.region, rs.groups), now)
  {
    ghost var m0 := store.records;
    ghost var written: seq<Op> := [];
    var region := rs.region;
    var groups := rs.groups;
    var j := 0;
    assert GroupsOps(region, groups[..0]) == [] by { assert groups[..0] == []; }
    while j < |groups|
      invariant 0 <= j <= |groups|
      invariant store.Valid()
      invariant written == GroupsOps(region, groups[..j])
      invariant store.records == ApplyOps(m0, written, now)
    {
      var sg := groups[j];
      ghost var step := PermissionsOps(region, sg.groupId, Permissions(sg));
      ghost var next := written + step;
      GroupsOpsSnoc(region, groups, j);
      assert next == GroupsOps(region, groups[..j + 1]);
      ApplyOpsAppend(m0, written, step, now);
      ScanGroup(store, region, sg, now);
      written := next;
      j := j + 1;
    }
    assert groups[..j] == groups;
  }

  /** `scan_security_groups()` over the given regions' responses, all writes stamped with `now`. */
  method ScanSecurityGroups(store: FindingStore, regions: seq<RegionScan>, now: Time)
    requires store.Valid()
    modifies store
    ensures store.Valid()
    ensures store.records == ApplyOps(old(store.records), ScanOps(regions), now)
  {
    ghost var m0 := store.records;
    ghost var written: seq<Op> := [];
    var i := 0;
    while i < |regions|
      invariant 0 <= i <= |regions|
      invariant store.Valid()
      invariant written == ScanOps(regions[..i])
      invariant store.records == ApplyOps(m0, written, now)
    {
      ghost var step := GroupsOps(regions[i].region, regions[i].groups);
      ghost var next := written + step;
      ScanOpsSnoc(regions, i);
      assert next == ScanOps(regions[..i + 1]);
      ApplyOpsAppend(m0, written, step, now);
      ScanRegion(store, regions[i], now);
      written := next;
      i := i + 1;
    }
    assert regions[..i] == regions;
  }

  /** The last world-open permission of a list, if any. */
  function LastWorldOpen(ps: seq<Permission>): Option<Permission>
    decreases |ps|
  {
    if ps == [] then None
    else if WorldOpen(ps[|ps| - 1]) then Some(ps[|ps| - 1])
    else LastWorldOpen(ps[..|ps| - 1])
  }

  lemma {:induction false} PermissionsOpsLastSeverity(region: string, groupId: string, ps: seq<Permission>)
    ensures var ops := PermissionsOps(region, groupId, ps);
            LastWrittenSeverity(ops, GroupKey(region, groupId))
              == match LastWorldOpen(ps)
                 case None => None
                 case Some(p) => Some(RuleSeverity(p.fromPort, p.toPort))
    ensures ps != [] && LastWorldOpen(ps) == None ==> PermissionsOps(region, groupId, ps) == []
    decreases |ps|
  {
    if ps != [] {
      var init := ps[..|ps| - 1];
      var last := ps[|ps| - 1];
      PermissionsOpsLastSeverity(region, groupId, init);
      var a := PermissionsOps(region, groupId, init);
      var b := PermissionOps(region, groupId, last);
      if !WorldOpen(last) {
        assert a + b == a;
      } else {
        assert (a + b)[..|a + b| - 1] == a;
      }
    }
  }

  /** One group, several world-open rules: the store holds one record for the group
    * in that region, with the severity of the LAST world-open rule (not the highest);
    * a group with no world-open rule writes nothing. */
  lemma GroupScanSeverity(m: Store, region: string, sg: SecurityGroup, now: Time)
    ensures var m' := ApplyOps(m, PermissionsOps(region, sg.groupId, Permissions(sg)), now);
            var k := GroupKey(region, sg.groupId);
            match LastWorldOpen(Permissions(sg))
            case None => m' == m
            case Some(p) => k in m' && m'[k].finding.severity == RuleSeverity(p.fromPort, p.toPort)
                            && m'.Keys == m.Keys + {k}
  {
    var ps := Permissions(sg);
    var ops := PermissionsOps(region, sg.groupId, ps);
    var k := GroupKey(region, sg.groupId);
    PermissionsOpsLastSeverity(region, sg.groupId, ps);
    match LastWorldOpen(ps)
    case None =>
    case Some(p) =>
      PermissionsOpsKeys(region, sg.groupId, ps);
      LastWriteWins(m, ops, k, now);
      SameKeyOpsKeys(m, ops, k, now);
  }

  /** A non-empty sequence of `$set` writes to key `k` has a last write to `k`. */
  lemma LastWrittenNonEmpty(ops: seq<Op>, k: Key)
    requires ops != []
    requires forall i :: 0 <= i < |ops| ==> ops[i].SetOp? && OpKey(ops[i]) == k
    ensures LastWrittenSeverity(ops, k).Some?
  {
  }

  /** Writes that all go to `k` add at most the key `k`. */
  lemma {:induction false} SameKeyOpsKeys(m: Store, ops: seq<Op>, k: Key, now: Time)
    requires ops != []
    requires forall i :: 0 <= i < |ops| ==> ops[i].SetOp? && OpKey(ops[i]) == k
    ensures ApplyOps(m, ops, now).Keys == m.Keys + {k}
    decreases |ops|
  {
    if |ops| > 1 {
      SameKeyOpsKeys(m, ops[..|ops| - 1], k, now);
    }
  }

  /** Two world-open rules on one group, the full port range first and then port 80:
    * the record ends MEDIUM although a CRITICAL rule was seen. */
  lemma LastRuleNotMaximum(m: Store, region: string, groupId: string, now: Time)
    ensures var world := Some([IpRange(Some(WorldCidr))]);
            var sg := SecurityGroup(groupId, Some([Permission(world, Some(0), Some(65535)),
                                                   Permission(world, Some(80), Some(80))]));
            var m' := ApplyOps(m, PermissionsOps(region, groupId, Permissions(sg)), now);
            GroupKey(region, groupId) in m' && m'[GroupKey(region, groupId)].finding.severity == Medium
  {
    var world := Some([IpRange(Some(WorldCidr))]);
    var p1 := Permission(world, Some(0), Some(65535));
    var p2 := Permission(world, Some(80), Some(80));
    var sg := SecurityGroup(groupId, Some([p1, p2]));
    assert WorldOpen(p2) by { assert Ranges(p2)[0].cidrIp == Some(WorldCidr); }
    assert [p1, p2][..1] == [p1];
    assert LastWorldOpen([p1, p2]) == Some(p2);
    GroupScanSeverity(m, region, sg, now);
  }
}
