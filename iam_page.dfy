/** The IAM page of the dashboard (frontend/src/pages/IAMPage.jsx): roles and
  * users of the inventory as one entity list, joined to the open IAM findings. */
module IamPage {
  import opened Wrappers
  import opened Seqs
  import opened Text
  import opened Models
  import opened Views
  import IamScanner

  datatype EntityType = RoleType | UserType

  /** `{ ...r, name: r.role_name, type: 'ROLE' }` and its user counterpart. */
  datatype Entity = Entity(name: string, entityType: EntityType)

  function EntityName(e: Entity): string {
    e.name
  }

  function RoleEntities(roles: seq<Role>): (r: seq<Entity>)
    ensures |r| == |roles|
    ensures forall i :: 0 <= i < |roles| ==> r[i] == Entity(roles[i].roleName, RoleType)
    decreases |roles|
  {
    if roles == [] then [] else [Entity(roles[0].roleName, RoleType)] + RoleEntities(roles[1..])
  }

  function UserEntities(users: seq<User>): (r: seq<Entity>)
    ensures |r| == |users|
    ensures forall i :: 0 <= i < |users| ==> r[i] == Entity(users[i].userName, UserType)
    decreases |users|
  {
    if users == [] then [] else [Entity(users[0].userName, UserType)] + UserEntities(users[1..])
  }

  function Roles(inventory: Option<Inventory>): seq<Role> {
    match inventory
    case None => []
    case Some(inv) => ListOrEmpty(inv.iamRoles)
  }

  function Users(inventory: Option<Inventory>): seq<User> {
    match inventory
    case None => []
    case Some(inv) => ListOrEmpty(inv.iamUsers)
  }

  /** `allEntities`: every role, then every user, a missing list counting as empty. */
  function AllEntities(inventory: Option<Inventory>): (r: seq<Entity>)
    ensures |r| == |Roles(inventory)| + |Users(inventory)|
    ensures forall i :: 0 <= i < |Roles(inventory)| ==> r[i] == Entity(Roles(inventory)[i].roleName, RoleType)
    ensures forall j :: 0 <= j < |Users(inventory)| ==> r[|Roles(inventory)| + j] == Entity(Users(inventory)[j].userName, UserType)
    ensures inventory.None? ==> r == []
  {
    RoleEntities(Roles(inventory)) + UserEntities(Users(inventory))
  }

  /** An entity is a role exactly when it sits among the first `#roles`
    * positions: all roles come before all users. */
  lemma EntityTypeByPosition(inventory: Option<Inventory>, i: nat)
    requires i < |AllEntities(inventory)|
    ensures AllEntities(inventory)[i].entityType == RoleType <==> i < |Roles(inventory)|
  {
    var k := |Roles(inventory)|;
    if i >= k {
      assert AllEntities(inventory)[k + (i - k)].entityType == UserType;
    }
  }

  /** `problematicEntities`. */
  function ProblematicEntities(findings: seq<Finding>, inventory: Option<Inventory>): (r: seq<Entity>)
    ensures SubsequenceOf(r, AllEntities(inventory))
    ensures |r| <= |AllEntities(inventory)|
    ensures forall i :: 0 <= i < |r| ==> r[i] in AllEntities(inventory) && HasFindingFor(OfService(findings, IamScanner.IamService), r[i].name)
    ensures forall i :: 0 <= i < |AllEntities(inventory)| ==>
              HasFindingFor(OfService(findings, IamScanner.IamService), AllEntities(inventory)[i].name) ==> AllEntities(inventory)[i] in r
  {
    Problematic(AllEntities(inventory), EntityName, OfService(findings, IamScanner.IamService))
  }

  /** `displayList`. */
  function DisplayList(tab: string, findings: seq<Finding>, inventory: Option<Inventory>): (r: seq<Entity>)
    ensures tab == ProblematicTab ==> r == ProblematicEntities(findings, inventory)
    ensures tab != ProblematicTab ==> r == AllEntities(inventory)
  {
    ByTab(tab, ProblematicEntities(findings, inventory), AllEntities(inventory))
  }

  /** The `StatusMetric` value. */
  datatype Metric = Stable | Permissive

  /** What one entity card shows. */
  datatype EntityCard = EntityCard(
    name: string,
    entityType: EntityType,
    vulnerable: bool,
    badge: Option<string>,
    issues: seq<string>,
    border: string,
    wildcardCheck: Metric,
    governance: Metric)

  /** The card of `entity`, given the IAM findings. */
  function CardOf(iamFindings: seq<Finding>, entity: Entity): (c: EntityCard)
    ensures c.name == entity.name && c.entityType == entity.entityType
    ensures c.vulnerable <==> HasFindingFor(iamFindings, entity.name)
    ensures c.badge == Badge(IssuesFor(iamFindings, entity.name))
    ensures c.issues == IssueTexts(IssuesFor(iamFindings, entity.name))
    ensures c.border == (if c.vulnerable then "border-purple-500/20" else "border-white/5")
    ensures c.wildcardCheck == Stable <==> forall i :: 0 <= i < |c.issues| ==> !Contains(c.issues[i], IamScanner.Wildcard)
    ensures c.governance == Stable <==> !c.vulnerable
  {
    var entityIssues := IssuesFor(iamFindings, entity.name);
    var isVulnerable := |entityIssues| > 0;
    EntityCard(
      entity.name,
      entity.entityType,
      isVulnerable,
      Badge(entityIssues),
      IssueTexts(entityIssues),
      if isVulnerable then "border-purple-500/20" else "border-white/5",
      if AnyIssueContains(entityIssues, IamScanner.Wildcard) then Permissive else Stable,
      if !isVulnerable then Stable else Permissive)
  }

  function Cards(iamFindings: seq<Finding>, entities: seq<Entity>): (r: seq<EntityCard>)
    ensures |r| == |entities|
    ensures forall i :: 0 <= i < |entities| ==> r[i] == CardOf(iamFindings, entities[i])
    decreases |entities|
  {
    if entities == [] then [] else [CardOf(iamFindings, entities[0])] + Cards(iamFindings, entities[1..])
  }

  /** The grid: a placeholder when the displayed list is empty, the cards otherwise. */
  datatype Grid = Placeholder | CardGrid(cards: seq<EntityCard>)

  datatype PageView = PageView(problematicCount: nat, totalCount: nat, grid: Grid)

  function Page(tab: string, findings: seq<Finding>, inventory: Option<Inventory>): (v: PageView)
    ensures v.problematicCount == |ProblematicEntities(findings, inventory)|
    ensures v.totalCount == |AllEntities(inventory)| == |Roles(inventory)| + |Users(inventory)|
    ensures v.problematicCount <= v.totalCount
    ensures v.grid == Placeholder <==> DisplayList(tab, findings, inventory) == []
    ensures v.grid.CardGrid? ==> |v.grid.cards| == |DisplayList(tab, findings, inventory)|
    ensures v.grid.CardGrid? ==> forall i :: 0 <= i < |v.grid.cards| ==>
              v.grid.cards[i] == CardOf(OfService(findings, IamScanner.IamService), DisplayList(tab, findings, inventory)[i])
  {
    var iamFindings := OfService(findings, IamScanner.IamService);
    var displayList := DisplayList(tab, findings, inventory);
    PageView(|ProblematicEntities(findings, inventory)|, |AllEntities(inventory)|,
             if |displayList| > 0 then CardGrid(Cards(iamFindings, displayList)) else Placeholder)
  }

  /** With no IAM finding the 'problematic' tab shows the placeholder, and with an
    * empty inventory every tab does. */
  lemma PlaceholderCases(tab: string, findings: seq<Finding>, inventory: Option<Inventory>)
    ensures (forall i :: 0 <= i < |findings| ==> findings[i].service != IamScanner.IamService) ==> Page(ProblematicTab, findings, inventory).grid == Placeholder
    ensures Roles(inventory) == [] && Users(inventory) == [] ==> Page(tab, findings, inventory).grid == Placeholder
  {
    if forall i :: 0 <= i < |findings| ==> findings[i].service != IamScanner.IamService {
      assert OfService(findings, IamScanner.IamService) == [];
    }
  }

  /** The scanner's only IAM issue text has no "*", so for entities whose issues
    * all come from the scanner Wildcard_Check stays STABLE while Governance
    * turns PERMISSIVE. */
  lemma ScannerIssueNeverTripsWildcard(iamFindings: seq<Finding>, entity: Entity)
    requires forall i :: 0 <= i < |iamFindings| ==> iamFindings[i].issue == IamScanner.PermissiveIssue
    ensures CardOf(iamFindings, entity).wildcardCheck == Stable
    ensures CardOf(iamFindings, entity).governance == Stable <==> !HasFindingFor(iamFindings, entity.name)
  {
    assert forall i :: 0 <= i < |IamScanner.PermissiveIssue| ==> IamScanner.PermissiveIssue[i] != '*';
    Absent(IamScanner.PermissiveIssue, IamScanner.Wildcard, '*');
    var c := CardOf(iamFindings, entity);
    var issues := IssuesFor(iamFindings, entity.name);
    forall i | 0 <= i < |c.issues| ensures !Contains(c.issues[i], IamScanner.Wildcard) {
      assert c.issues[i] == issues[i].issue;
      assert issues[i] in iamFindings;
    }
  }
}
