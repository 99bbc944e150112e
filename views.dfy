/** The correlation every findings page of the dashboard performs: the fetched
  * findings narrowed to one service, joined to the inventory entities by plain
  * string equality of `resource_id` and the entity's name, and classified by
  * case-sensitive substring tests on the issue text. */
module Views {
  import opened Wrappers
  import opened Seqs
  import opened Text
  import opened Models

  /** The entities of `GET /inventory`, each list as it can be absent from the payload. */
  datatype Instance = Instance(instanceId: string, state: string, instanceType: string, region: string)
  datatype GroupEntry = GroupEntry(groupId: string, groupName: string, region: string)
  datatype Bucket = Bucket(bucketName: string, region: Option<string>)
  datatype User = User(userName: string)
  datatype Role = Role(roleName: string)
  datatype Inventory = Inventory(
    ec2Instances: Option<seq<Instance>>,
    securityGroups: Option<seq<GroupEntry>>,
    s3Buckets: Option<seq<Bucket>>,
    iamUsers: Option<seq<User>>,
    iamRoles: Option<seq<Role>>)

  /** `findings.filter(f => f.service === service)`. */
  function OfService(fs: seq<Finding>, service: string): (r: seq<Finding>)
    ensures SubsequenceOf(r, fs)
    ensures forall i :: 0 <= i < |r| ==> r[i].service == service && r[i] in fs
    ensures forall i :: 0 <= i < |fs| && fs[i].service == service ==> fs[i] in r
    ensures |r| <= |fs|
  {
    var r := Filter(fs, (f: Finding) => f.service == service);
    assert forall i :: 0 <= i < |r| ==> r[i] in r;
    r
  }

  /** `findings.filter(f => f.resource_id === id)`: the issues of one entity. */
  function IssuesFor(fs: seq<Finding>, id: string): (r: seq<Finding>)
    ensures SubsequenceOf(r, fs)
    ensures forall i :: 0 <= i < |r| ==> r[i].resourceId == id && r[i] in fs
    ensures forall i :: 0 <= i < |fs| && fs[i].resourceId == id ==> fs[i] in r
    ensures r == [] <==> forall i :: 0 <= i < |fs| ==> fs[i].resourceId != id
  {
    var r := Filter(fs, (f: Finding) => f.resourceId == id);
    assert forall i :: 0 <= i < |r| ==> r[i] in r;
    r
  }

  /** Issues of one service for one entity: narrowing by service and by
    * resource id commute, so the page's two-step join is a single filter. */
  lemma {:induction false} IssuesOfServiceCommute(fs: seq<Finding>, service: string, id: string)
    ensures IssuesFor(OfService(fs, service), id) == OfService(IssuesFor(fs, id), service)
    decreases |fs|
  {
    if fs != [] {
      IssuesOfServiceCommute(fs[1..], service, id);
    }
  }

  /** An entity has an issue of one service exactly when some fetched finding
    * of that service names it. */
  lemma HasFindingOfService(fs: seq<Finding>, service: string, id: string)
    ensures HasFindingFor(OfService(fs, service), id)
        <==> exists j :: 0 <= j < |fs| && fs[j].service == service && fs[j].resourceId == id
  {
    var s := OfService(fs, service);
    if HasFindingFor(s, id) {
      var k :| 0 <= k < |s| && s[k].resourceId == id;
      assert s[k] in s;
    }
    if exists j :: 0 <= j < |fs| && fs[j].service == service && fs[j].resourceId == id {
      var j :| 0 <= j < |fs| && fs[j].service == service && fs[j].resourceId == id;
      var k :| 0 <= k < |s| && s[k] == fs[j];
    }
  }

  /** `findings.some(f => f.resource_id === id)`: the entity has an issue. */
  function HasFindingFor(fs: seq<Finding>, id: string): (r: bool)
    ensures r <==> exists i :: 0 <= i < |fs| && fs[i].resourceId == id
    ensures r <==> IssuesFor(fs, id) != []
  {
    AnyIffFilterNonEmpty(fs, (f: Finding) => f.resourceId == id);
    Any(fs, (f: Finding) => f.resourceId == id)
  }

  /** `issues.some(f => f.issue.includes(word))`. */
  function AnyIssueContains(fs: seq<Finding>, word: string): (r: bool)
    ensures r <==> exists i :: 0 <= i < |fs| && Contains(fs[i].issue, word)
  {
    Any(fs, (f: Finding) => Contains(f.issue, word))
  }

  /** The issue texts, in order: what a card or row lists. */
  function IssueTexts(fs: seq<Finding>): (r: seq<string>)
    ensures |r| == |fs|
    ensures forall i :: 0 <= i < |fs| ==> r[i] == fs[i].issue
    decreases |fs|
  {
    if fs == [] then [] else [fs[0].issue] + IssueTexts(fs[1..])
  }

  /** The "<severity> RISK" badge: the severity of the FIRST issue, shown only when there is one. */
  function Badge(issues: seq<Finding>): (r: Option<string>)
    ensures r.Some? <==> issues != []
    ensures r.Some? ==> r.value == issues[0].severity
  {
    if issues == [] then None else Some(issues[0].severity)
  }

  /** The badge is not the worst severity: a MEDIUM issue listed before a
    * CRITICAL one makes the badge MEDIUM. */
  lemma BadgeIsFirstNotWorst(a: Finding, b: Finding)
    requires a.severity == "MEDIUM" && b.severity == "CRITICAL"
    ensures Badge([a, b]) == Some("MEDIUM")
    ensures Badge([b, a]) == Some("CRITICAL")
  {
  }

  /** The badge depends on the order of the fetched findings, not only on their set. */
  lemma BadgeDependsOnlyOnFirst(x: seq<Finding>, y: seq<Finding>)
    requires x != [] && y != [] && x[0].severity == y[0].severity
    ensures Badge(x) == Badge(y)
  {
  }

  /** The sub-list of `entities` with at least one issue, in inventory order.
    * `name` is the entity's join key. */
  function Problematic<E>(entities: seq<E>, name: E -> string, fs: seq<Finding>): (r: seq<E>)
    ensures SubsequenceOf(r, entities)
    ensures |r| <= |entities|
    ensures forall i :: 0 <= i < |r| ==> r[i] in entities && IssuesFor(fs, name(r[i])) != []
    ensures forall i :: 0 <= i < |entities| && IssuesFor(fs, name(entities[i])) != [] ==> entities[i] in r
    ensures r == entities <==> forall i :: 0 <= i < |entities| ==> HasFindingFor(fs, name(entities[i]))
  {
    var r := Filter(entities, e => HasFindingFor(fs, name(e)));
    assert forall i :: 0 <= i < |r| ==> r[i] in r;
    r
  }

  /** The tab value that selects the problematic list. */
  const ProblematicTab := "problematic"

  /** The tab selector: the problematic list under 'problematic', the full list under any other tab. */
  function ByTab<E>(tab: string, problematic: seq<E>, all: seq<E>): (r: seq<E>)
    ensures tab == ProblematicTab ==> r == problematic
    ensures tab != ProblematicTab ==> r == all
  {
    if tab == ProblematicTab then problematic else all
  }

  /** A list of the inventory, empty when the inventory is null or lacks it (`inventory?.key || []`). */
  function ListOrEmpty<T>(l: Option<seq<T>>): (r: seq<T>)
    ensures l.None? ==> r == []
    ensures l.Some? ==> r == l.value
  {
    l.GetOr([])
  }
}
