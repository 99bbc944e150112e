/** The EC2 page of the dashboard (frontend/src/pages/Ec2Page.jsx): host cards
  * for the instances and rows for the security groups, each joined to the open
  * EC2 findings by resource id. */
module Ec2Page {
  import opened Wrappers
  import opened Text
  import opened Models
  import opened Views
  import Ec2Scanner

  const HostsTab := "hosts"
  const ImdsWord := "IMDSv1"
  const PublicIpWord := "public IP"
  const UnencryptedWord := "Unencrypted"

  /** The `SecurityLED` value. */
  datatype Led = Vulnerable | Secure

  /** VULNERABLE exactly when some issue text contains `word`. */
  function LedFor(findings: seq<Finding>, word: string): (r: Led)
    ensures r == Vulnerable <==> exists i :: 0 <= i < |findings| && Contains(findings[i].issue, word)
  {
    if AnyIssueContains(findings, word) then Vulnerable else Secure
  }

  /** What one `HostCard` shows. */
  datatype HostCard = HostCard(
    instanceId: string,
    hasIssues: bool,
    badge: Option<string>,
    border: string,
    imds: Led, gateway: Led, ebs: Led,
    running: bool)

  /** The card of `instance`, given the findings whose resource id is its instance id. */
  function HostCardOf(findings: seq<Finding>, instance: Instance): (c: HostCard)
    ensures c.instanceId == instance.instanceId
    ensures c.hasIssues <==> findings != []
    ensures c.badge.Some? <==> c.hasIssues
    ensures c.badge.Some? ==> c.badge.value == findings[0].severity
    ensures c.border == (if c.hasIssues then "border-red-900/20" else "border-white/5")
    ensures c.imds == LedFor(findings, ImdsWord)
    ensures c.gateway == LedFor(findings, PublicIpWord)
    ensures c.ebs == LedFor(findings, UnencryptedWord)
    ensures c.running <==> instance.state == "running"
  {
    var hasIssues := |findings| > 0;
    HostCard(
      instance.instanceId,
      hasIssues,
      Badge(findings),
      if hasIssues then "border-red-900/20" else "border-white/5",
      LedFor(findings, ImdsWord), LedFor(findings, PublicIpWord), LedFor(findings, UnencryptedWord),
      instance.state == "running")
  }

  /** What one `NetworkRow` shows. */
  datatype NetworkRow = NetworkRow(groupName: string, groupId: string, hasIssues: bool, issues: seq<string>, shielded: bool)

  function NetworkRowOf(findings: seq<Finding>, sg: GroupEntry): (row: NetworkRow)
    ensures row.groupId == sg.groupId && row.groupName == sg.groupName
    ensures row.hasIssues <==> findings != []
    ensures |row.issues| == |findings|
    ensures forall i :: 0 <= i < |findings| ==> row.issues[i] == findings[i].issue
    ensures row.shielded <==> row.issues == []
  {
    var hasIssues := |findings| > 0;
    NetworkRow(sg.groupName, sg.groupId, hasIssues, IssueTexts(findings), !hasIssues)
  }

  /** One card per instance, each given its own findings. */
  function HostCards(findings: seq<Finding>, instances: seq<Instance>): (r: seq<HostCard>)
    ensures |r| == |instances|
    ensures forall i :: 0 <= i < |instances| ==> r[i] == HostCardOf(IssuesFor(findings, instances[i].instanceId), instances[i])
    decreases |instances|
  {
    if instances == [] then []
    else [HostCardOf(IssuesFor(findings, instances[0].instanceId), instances[0])] + HostCards(findings, instances[1..])
  }

  /** One row per security group, each given its own findings. */
  function NetworkRows(findings: seq<Finding>, groups: seq<GroupEntry>): (r: seq<NetworkRow>)
    ensures |r| == |groups|
    ensures forall i :: 0 <= i < |groups| ==> r[i] == NetworkRowOf(IssuesFor(findings, groups[i].groupId), groups[i])
    decreases |groups|
  {
    if groups == [] then []
    else [NetworkRowOf(IssuesFor(findings, groups[0].groupId), groups[0])] + NetworkRows(findings, groups[1..])
  }

  /** The result of evaluating a JSX list expression: nothing (an `undefined` child),
    * a list of elements, or a thrown `TypeError`. */
  datatype Rendered<T> = NothingRendered | Elements(items: seq<T>) | TypeError

  /** `inventory?.ec2_instances.map(...)` as written: the optional chain stops only
    * at a null inventory, so an inventory without `ec2_instances` throws. */
  function HostsAsWritten(findings: seq<Finding>, inventory: Option<Inventory>): (r: Rendered<HostCard>)
    ensures r.NothingRendered? <==> inventory.None?
    ensures r.TypeError? <==> inventory.Some? && inventory.value.ec2Instances.None?
    ensures r.Elements? ==> |r.items| == |inventory.value.ec2Instances.value|
    ensures r.Elements? ==> forall i :: 0 <= i < |r.items| ==>
              r.items[i] == HostCardOf(IssuesFor(findings, inventory.value.ec2Instances.value[i].instanceId),
                                       inventory.value.ec2Instances.value[i])
  {
    match inventory
    case None => NothingRendered
    case Some(inv) =>
      match inv.ec2Instances
      case None => TypeError
      case Some(instances) => Elements(HostCards(findings, instances))
  }

  /** `inventory?.security_groups.map(...)` as written. */
  function NetworkAsWritten(findings: seq<Finding>, inventory: Option<Inventory>): (r: Rendered<NetworkRow>)
    ensures r.NothingRendered? <==> inventory.None?
    ensures r.TypeError? <==> inventory.Some? && inventory.value.securityGroups.None?
    ensures r.Elements? ==> |r.items| == |inventory.value.securityGroups.value|
    ensures r.Elements? ==> forall i :: 0 <= i < |r.items| ==>
              r.items[i] == NetworkRowOf(IssuesFor(findings, inventory.value.securityGroups.value[i].groupId),
                                         inventory.value.securityGroups.value[i])
  {
    match inventory
    case None => NothingRendered
    case Some(inv) =>
      match inv.securityGroups
      case None => TypeError
      case Some(groups) => Elements(NetworkRows(findings, groups))
  }

  /** An inventory object that lacks the EC2 lists (`{}` in JSON) makes both tabs throw. */
  lemma MissingListThrows(findings: seq<Finding>)
    ensures HostsAsWritten(findings, Some(Inventory(None, None, None, None, None))) == TypeError
    ensures NetworkAsWritten(findings, Some(Inventory(None, None, None, None, None))) == TypeError
  {
  }

  function Instances(inventory: Option<Inventory>): seq<Instance> {
    match inventory
    case None => []
    case Some(inv) => ListOrEmpty(inv.ec2Instances)
  }

  function Groups(inventory: Option<Inventory>): seq<GroupEntry> {
    match inventory
    case None => []
    case Some(inv) => ListOrEmpty(inv.securityGroups)
  }

  /** The host cards with a missing list read as empty, as the S3 and IAM pages
    * do (`inventory?.ec2_instances || []`): one card per instance, never a throw. */
  function Hosts(findings: seq<Finding>, inventory: Option<Inventory>): (r: seq<HostCard>)
    ensures |r| == |Instances(inventory)|
    ensures forall i :: 0 <= i < |r| ==> r[i] == HostCardOf(IssuesFor(findings, Instances(inventory)[i].instanceId), Instances(inventory)[i])
    ensures HostsAsWritten(findings, inventory).Elements? ==> HostsAsWritten(findings, inventory).items == r
    ensures HostsAsWritten(findings, inventory).NothingRendered? ==> r == []
  {
    HostCards(findings, Instances(inventory))
  }

  /** The network rows with a missing list read as empty. */
  function Network(findings: seq<Finding>, inventory: Option<Inventory>): (r: seq<NetworkRow>)
    ensures |r| == |Groups(inventory)|
    ensures forall i :: 0 <= i < |r| ==> r[i] == NetworkRowOf(IssuesFor(findings, Groups(inventory)[i].groupId), Groups(inventory)[i])
    ensures NetworkAsWritten(findings, inventory).Elements? ==> NetworkAsWritten(findings, inventory).items == r
    ensures NetworkAsWritten(findings, inventory).NothingRendered? ==> r == []
  {
    NetworkRows(findings, Groups(inventory))
  }

  /** The corrected page never throws and differs from the page as written only
    * where that one throws. */
  lemma CorrectedAgreesUnlessThrown(findings: seq<Finding>, inventory: Option<Inventory>)
    ensures HostsAsWritten(findings, inventory) != TypeError ==>
              Hosts(findings, inventory) == (if inventory.None? then [] else HostsAsWritten(findings, inventory).items)
    ensures HostsAsWritten(findings, inventory) == TypeError <==> inventory.Some? && inventory.value.ec2Instances.None?
    ensures HostsAsWritten(findings, inventory) == TypeError ==> Hosts(findings, inventory) == []
  {
  }

  /** The page: the tab shows the host cards or the network rows, both over the
    * fetched findings narrowed to EC2. */
  datatype PageView = HostsView(cards: seq<HostCard>) | NetworkView(rows: seq<NetworkRow>)

  function Page(tab: string, fetched: seq<Finding>, inventory: Option<Inventory>): (v: PageView)
    ensures tab == HostsTab ==> v == HostsView(Hosts(OfService(fetched, Ec2Scanner.Ec2Service), inventory))
    ensures tab != HostsTab ==> v == NetworkView(Network(OfService(fetched, Ec2Scanner.Ec2Service), inventory))
  {
    var findings := OfService(fetched, Ec2Scanner.Ec2Service);
    if tab == HostsTab then HostsView(Hosts(findings, inventory)) else NetworkView(Network(findings, inventory))
  }

  /** A host card only ever sees EC2 findings naming its instance, in fetched order. */
  lemma {:induction false} HostFindingsAreOwn(fetched: seq<Finding>, instance: Instance)
    ensures IssuesFor(OfService(fetched, Ec2Scanner.Ec2Service), instance.instanceId) == OfService(IssuesFor(fetched, instance.instanceId), Ec2Scanner.Ec2Service)
    ensures forall f :: f in IssuesFor(OfService(fetched, Ec2Scanner.Ec2Service), instance.instanceId) ==>
              f in fetched && f.service == Ec2Scanner.Ec2Service && f.resourceId == instance.instanceId
  {
    IssuesOfServiceCommute(fetched, Ec2Scanner.Ec2Service, instance.instanceId);
    var r := IssuesFor(OfService(fetched, Ec2Scanner.Ec2Service), instance.instanceId);
    forall f | f in r ensures f in fetched && f.service == Ec2Scanner.Ec2Service && f.resourceId == instance.instanceId {
      var i :| 0 <= i < |r| && r[i] == f;
      var s := OfService(fetched, Ec2Scanner.Ec2Service);
      var k :| 0 <= k < |s| && s[k] == f;
    }
  }

  /** The EC2 scanner's issue text lights none of the host LEDs: a card whose
    * findings all come from the security-group scan shows every LED SECURE. */
  lemma ScannerIssueLightsNoLed(findings: seq<Finding>, instance: Instance)
    requires forall i :: 0 <= i < |findings| ==> findings[i].issue == Ec2Scanner.OpenToWorldIssue
    ensures HostCardOf(findings, instance).imds == Secure
    ensures HostCardOf(findings, instance).gateway == Secure
    ensures HostCardOf(findings, instance).ebs == Secure
  {
    var s := Ec2Scanner.OpenToWorldIssue;
    assert forall i :: 0 <= i < |s| ==> s[i] != 'I' && s[i] != 'b' && s[i] != 'U';
    Absent(s, ImdsWord, 'I');
    Absent(s, PublicIpWord, 'b');
    Absent(s, UnencryptedWord, 'U');
  }
}
