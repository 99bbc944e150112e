/** The S3 page of the dashboard (frontend/src/pages/S3Page.jsx): buckets of the
  * inventory joined to the open S3 findings, and the card drawn for each. */
module S3Page {
  import opened Wrappers
  import opened Seqs
  import opened Text
  import opened Models
  import opened Views
  import S3Scanner

  /** `allBuckets`. */
  function AllBuckets(inventory: Option<Inventory>): (r: seq<Bucket>)
    ensures inventory.None? || inventory.value.s3Buckets.None? ==> r == []
    ensures inventory.Some? && inventory.value.s3Buckets.Some? ==> r == inventory.value.s3Buckets.value
  {
    match inventory
    case None => []
    case Some(inv) => ListOrEmpty(inv.s3Buckets)
  }

  function BucketName(b: Bucket): string {
    b.bucketName
  }

  /** `problematicBuckets`: the buckets some S3 finding names, in inventory order. */
  function ProblematicBuckets(findings: seq<Finding>, inventory: Option<Inventory>): (r: seq<Bucket>)
    ensures SubsequenceOf(r, AllBuckets(inventory))
    ensures |r| <= |AllBuckets(inventory)|
    ensures forall i :: 0 <= i < |r| ==> r[i] in AllBuckets(inventory) && HasFindingFor(OfService(findings, S3Scanner.S3Service), r[i].bucketName)
    ensures forall i :: 0 <= i < |AllBuckets(inventory)| ==>
              HasFindingFor(OfService(findings, S3Scanner.S3Service), AllBuckets(inventory)[i].bucketName) ==> AllBuckets(inventory)[i] in r
  {
    Problematic(AllBuckets(inventory), BucketName, OfService(findings, S3Scanner.S3Service))
  }

  /** A bucket is problematic exactly when some fetched S3 finding names it. */
  lemma ProblematicIffNamed(findings: seq<Finding>, inventory: Option<Inventory>, b: Bucket)
    requires b in AllBuckets(inventory)
    ensures b in ProblematicBuckets(findings, inventory)
        <==> exists j :: 0 <= j < |findings| && findings[j].service == S3Scanner.S3Service && findings[j].resourceId == b.bucketName
  {
    HasFindingOfService(findings, S3Scanner.S3Service, b.bucketName);
    var all := AllBuckets(inventory);
    var r := ProblematicBuckets(findings, inventory);
    var n :| 0 <= n < |all| && all[n] == b;
    if b in r {
      var i :| 0 <= i < |r| && r[i] == b;
    }
  }

  /** `displayList`. */
  function DisplayList(tab: string, findings: seq<Finding>, inventory: Option<Inventory>): (r: seq<Bucket>)
    ensures tab == ProblematicTab ==> r == ProblematicBuckets(findings, inventory)
    ensures tab != ProblematicTab ==> r == AllBuckets(inventory)
  {
    ByTab(tab, ProblematicBuckets(findings, inventory), AllBuckets(inventory))
  }

  /** `getBorderColor(issues)`: decided by the first issue alone. */
  function BorderColor(issues: seq<Finding>): (r: string)
    ensures r == "border-white/5" <==> issues == []
    ensures r == "border-red-500/20" <==> issues != [] && issues[0].severity == "CRITICAL"
    ensures r == "border-orange-500/20" <==> issues != [] && issues[0].severity == "HIGH"
    ensures r == "border-yellow-500/20" <==> issues != [] && issues[0].severity != "CRITICAL" && issues[0].severity != "HIGH"
  {
    if |issues| == 0 then "border-white/5"
    else
      var topSev := issues[0].severity;
      if topSev == "CRITICAL" then "border-red-500/20"
      else if topSev == "HIGH" then "border-orange-500/20"
      else "border-yellow-500/20"
  }

  /** Two issue lists with the same first severity get the same border, whatever follows. */
  lemma BorderColorFirstOnly(x: seq<Finding>, y: seq<Finding>)
    requires x != [] && y != [] && x[0].severity == y[0].severity
    ensures BorderColor(x) == BorderColor(y)
  {
  }

  /** A CRITICAL issue behind a HIGH one does not turn the border red. */
  lemma BorderColorIgnoresLaterCritical(a: Finding, b: Finding)
    requires a.severity == "HIGH" && b.severity == "CRITICAL"
    ensures BorderColor([a, b]) == "border-orange-500/20"
  {
  }

  /** The `StatusItem` value. */
  datatype Flag = Stable | Breached

  /** STABLE exactly when no issue text contains `word`. */
  function FlagFor(issues: seq<Finding>, word: string): (r: Flag)
    ensures r == Stable <==> forall i :: 0 <= i < |issues| ==> !Contains(issues[i].issue, word)
  {
    if AnyIssueContains(issues, word) then Breached else Stable
  }

  /** What one bucket card shows. */
  datatype BucketCard = BucketCard(
    name: string,
    node: string,
    vulnerable: bool,
    badge: Option<string>,
    issues: seq<string>,
    border: string,
    bpa: Flag, acl: Flag, policy: Flag, encrypt: Flag)

  const BpaWord := "Block Public Access"
  const AclWord := "ACL"
  const PolicyWord := "policy"
  const EncryptWord := "encrypted"

  /** `bucket.region || 'GLOBAL'`: the `||` falls back on an absent region and
    * on the empty string alike. */
  function NodeLabel(region: Option<string>): string {
    match region
    case None => "GLOBAL"
    case Some(name) => if name == "" then "GLOBAL" else name
  }

  /** The card of `bucket`, given the S3 findings: its issues are the
    * findings naming it, and every field is read off that list. */
  function CardOf(s3Findings: seq<Finding>, bucket: Bucket): (c: BucketCard)
    ensures c.name == bucket.bucketName
    ensures c.node == (if bucket.region.None? || bucket.region.value == "" then "GLOBAL" else bucket.region.value)
    ensures c.node != ""
    ensures c.vulnerable <==> HasFindingFor(s3Findings, bucket.bucketName)
    ensures c.badge == Badge(IssuesFor(s3Findings, bucket.bucketName))
    ensures c.issues == IssueTexts(IssuesFor(s3Findings, bucket.bucketName))
    ensures c.border == BorderColor(IssuesFor(s3Findings, bucket.bucketName))
    ensures c.bpa == FlagFor(IssuesFor(s3Findings, bucket.bucketName), BpaWord)
    ensures c.acl == FlagFor(IssuesFor(s3Findings, bucket.bucketName), AclWord)
    ensures c.policy == FlagFor(IssuesFor(s3Findings, bucket.bucketName), PolicyWord)
    ensures c.encrypt == FlagFor(IssuesFor(s3Findings, bucket.bucketName), EncryptWord)
  {
    var bucketIssues := IssuesFor(s3Findings, bucket.bucketName);
    var isVulnerable := |bucketIssues| > 0;
    BucketCard(
      bucket.bucketName,
      NodeLabel(bucket.region),
      isVulnerable,
      Badge(bucketIssues),
      IssueTexts(bucketIssues),
      BorderColor(bucketIssues),
      FlagFor(bucketIssues, BpaWord), FlagFor(bucketIssues, AclWord),
      FlagFor(bucketIssues, PolicyWord), FlagFor(bucketIssues, EncryptWord))
  }

  /** One card per displayed bucket, in order. */
  function Cards(s3Findings: seq<Finding>, buckets: seq<Bucket>): (r: seq<BucketCard>)
    ensures |r| == |buckets|
    ensures forall i :: 0 <= i < |buckets| ==> r[i] == CardOf(s3Findings, buckets[i])
    decreases |buckets|
  {
    if buckets == [] then [] else [CardOf(s3Findings, buckets[0])] + Cards(s3Findings, buckets[1..])
  }

  /** The page: the two tab counts and the cards of the displayed list. */
  datatype PageView = PageView(problematicCount: nat, totalCount: nat, cards: seq<BucketCard>)

  function Page(tab: string, findings: seq<Finding>, inventory: Option<Inventory>): (v: PageView)
    ensures v.problematicCount <= v.totalCount == |AllBuckets(inventory)|
    ensures v.problematicCount == |ProblematicBuckets(findings, inventory)|
    ensures |v.cards| == |DisplayList(tab, findings, inventory)|
    ensures forall i :: 0 <= i < |v.cards| ==> v.cards[i] == CardOf(OfService(findings, S3Scanner.S3Service), DisplayList(tab, findings, inventory)[i])
  {
    var s3Findings := OfService(findings, S3Scanner.S3Service);
    PageView(|ProblematicBuckets(findings, inventory)|, |AllBuckets(inventory)|,
             Cards(s3Findings, DisplayList(tab, findings, inventory)))
  }

  /** On the 'problematic' tab every card is vulnerable and carries a badge; on
    * any other tab the cards are those of all buckets, and a card is vulnerable
    * exactly when its bucket is problematic. */
  lemma ProblematicCardsVulnerable(findings: seq<Finding>, inventory: Option<Inventory>, tab: string)
    ensures forall c :: c in Page(ProblematicTab, findings, inventory).cards ==> c.vulnerable && c.badge.Some?
    ensures tab != ProblematicTab ==> |Page(tab, findings, inventory).cards| == |AllBuckets(inventory)|
    ensures tab != ProblematicTab ==> forall i :: 0 <= i < |AllBuckets(inventory)| ==>
      (Page(tab, findings, inventory).cards[i].vulnerable <==> AllBuckets(inventory)[i] in ProblematicBuckets(findings, inventory))
  {
    var v := Page(ProblematicTab, findings, inventory);
    forall c | c in v.cards ensures c.vulnerable && c.badge.Some? {
      var i :| 0 <= i < |v.cards| && v.cards[i] == c;
    }
  }

  /** The policy finding breaches POLICY and no other flag. */
  lemma PolicyIssueFlags()
    ensures Contains(S3Scanner.PolicyIssue, PolicyWord) && !Contains(S3Scanner.PolicyIssue, BpaWord)
      && !Contains(S3Scanner.PolicyIssue, AclWord) && !Contains(S3Scanner.PolicyIssue, EncryptWord)
  {
    OnlyKeyword(S3Scanner.PolicyIssue, PolicyWord, 14, BpaWord, 'B', AclWord, 'A', EncryptWord, 'n');
  }

  /** The ACL finding breaches ACL and no other flag. */
  lemma AclIssueFlags()
    ensures Contains(S3Scanner.AclIssue, AclWord) && !Contains(S3Scanner.AclIssue, BpaWord)
      && !Contains(S3Scanner.AclIssue, PolicyWord) && !Contains(S3Scanner.AclIssue, EncryptWord)
  {
    OnlyKeyword(S3Scanner.AclIssue, AclWord, 7, BpaWord, 'B', PolicyWord, 'y', EncryptWord, 'r');
  }

  /** The Block Public Access finding breaches BPA and no other flag. */
  lemma BpaIssueFlags()
    ensures Contains(S3Scanner.BpaIssue, BpaWord) && !Contains(S3Scanner.BpaIssue, AclWord)
      && !Contains(S3Scanner.BpaIssue, PolicyWord) && !Contains(S3Scanner.BpaIssue, EncryptWord)
  {
    OnlyKeyword(S3Scanner.BpaIssue, BpaWord, 0, AclWord, 'L', PolicyWord, 'y', EncryptWord, 'n');
  }

  /** The encryption finding breaches ENCRYPT and no other flag. */
  lemma EncryptionIssueFlags()
    ensures Contains(S3Scanner.EncryptionIssue, EncryptWord) && !Contains(S3Scanner.EncryptionIssue, BpaWord)
      && !Contains(S3Scanner.EncryptionIssue, AclWord) && !Contains(S3Scanner.EncryptionIssue, PolicyWord)
  {
    OnlyKeyword(S3Scanner.EncryptionIssue, EncryptWord, 14, BpaWord, 'B', AclWord, 'A', PolicyWord, 'l');
  }
}
