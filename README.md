# ClouSec finding store, scanners and dashboard views in Dafny

ClouSec scans an AWS account for misconfigurations. It keeps the results in a MongoDB
collection of findings and shows them on a React dashboard. This project models two parts
of it.

**The backend.**
- `clousec/models.py` is a finding store. Each finding is keyed by (service, resource id,
  issue, region) and moves between OPEN and RESOLVED.
- Three scanners turn AWS responses into writes to that store:
  - the S3 bucket checks;
  - the EC2 security-group scan;
  - the IAM role-policy check.

**The frontend.**
- The S3, IAM and EC2 pages join the fetched findings to the inventory by resource id.
- They build a "problematic" list and a full list, take a badge, and derive status flags from
  substrings of the issue text.
- The risk globe counts findings per region and sizes one ring per known region.

## How the model is organised

| file | module | models |
|---|---|---|
| `wrappers.dfy` | `Wrappers` | the `Option` type |
| `seqs.dfy` | `Seqs` | `Array.prototype.filter` / `some` as an order-preserving `Filter` and `Any` |
| `text.dfy` | `Text` | `String.prototype.includes` and Python's `str.endswith` |
| `models.dfy` | `Models` | the store: `AfterUpsert`, `AfterResolve`, `AfterSet`, the class `FindingStore`, write sequences `ApplyOps` |
| `s3_scanner.dfy` | `S3Scanner` | `scan_bucket` |
| `ec2_scanner.dfy` | `Ec2Scanner` | `is_world_open`, `scan_security_groups` |
| `iam_scanner.dfy` | `IamScanner` | `is_policy_overly_permissive`, `scan_role` |
| `views.dfy` | `Views` | the joins all three pages share |
| `s3_page.dfy` | `S3Page` | `S3Page.jsx` |
| `iam_page.dfy` | `IamPage` | `IAMPage.jsx` |
| `ec2_page.dfy` | `Ec2Page` | `Ec2Page.jsx` |
| `risk_globe.dfy` | `RiskGlobe` | `RiskGlobe.jsx` |

**Store.** The collection is a `map<Key, Record>`.
- `Key` is the 4-tuple that `generate_finding_id` hashes and that the unique index covers.
- The SHA-256 id is taken to be injective. For every record that carries a `finding_id`
  (all those written by `upsert_finding`), filtering by `finding_id` and filtering by the four
  fields therefore select the same record. Records written by the EC2 scan have no
  `finding_id`; see "## Left out".
- Record fields a write path never sets are `None`.

**Store writes.** Each operation is a pure function of the old store.
- The class `FindingStore` holds the map in a field.
- Its methods `UpsertFinding`, `ResolveFinding` and `SetByKeyFields` update the map in place.
  Each one's contract is `records == AfterX(old(records), …)`.

**Scanners.** Each scanner is an imperative method that issues its writes in source order.
- Each method is proved equal to folding a write list over the old store:
  `ApplyOps(old(store.records), ScanXOps(…), now)`.
- Lemmas about that list state which record each check leaves.

**Frontend.** The page logic is pure functions over finding and inventory sequences.
- A finding is the same five-string record the backend writes.
- `RiskGlobe`'s `forEach` count is a method with a loop, proved against its specification
  functions.

## Model

| member | source | states |
|---|---|---|
| Models.AfterUpsert | clousec/models.py:6-29 | New key: the record is OPEN, with first_seen = last_seen = now and no resolved_at. Existing key: the five fields are overwritten, status becomes OPEN and last_seen becomes now, while first_seen and resolved_at are kept. Every other key is unchanged, and the unique-key invariant is preserved. |
| Models.AfterResolve | clousec/models.py:32-43 | Only an existing OPEN record changes: it becomes RESOLVED with resolved_at = now. A missing or non-OPEN key leaves the store equal to the old one, so nothing is ever inserted. Afterwards the key is never OPEN; the key set is unchanged. |
| Models.AfterSet | clousec/scanners/ec2_scanner.py:56-65 | `$set` with upsert on: the five fields and timestamp are written. An inserted record has no status and no lifecycle times; an existing one keeps them. Other keys are unchanged. |
| Models.ResolveIdempotent | clousec/models.py:36 | A second resolve of the same key is a no-op. |
| Models.UpsertSeverityInPlace | clousec/models.py:7 | Re-upserting with only a different severity keeps the key set and updates that one record, keeping first_seen. |
| Models.UpsertThenResolve | clousec/models.py:6-43 | Upsert then resolve leaves the record RESOLVED at the second time, with the finding's fields and a first_seen: the upsert's for a new key, the old one otherwise. |
| Models.ReopenKeepsResolvedAt | clousec/models.py:23-26 | Upsert, resolve, upsert gives an OPEN record that still carries the old resolved_at. |
| Models.ApplyOpsAppend | clousec/models.py:11-43 | Performing writes `a` then `b` is performing `a + b`. |
| Models.ApplyOpsKeysMatch | clousec/models.py:12 | Any write sequence preserves the unique-key invariant. |
| Models.ApplyOpsFrame | clousec/models.py:12 | Writes to other keys leave a key's record, and its absence, unchanged. |
| Models.ApplyOpsSingleWriter | clousec/models.py:11-43 | A key written by exactly one write in a sequence ends as that one write leaves it, applied to the initial store. |
| Models.LastWriteWins | clousec/models.py:14-19 | After a write sequence, a key's severity is that of its last upsert or `$set`. |
| Models.FindingStore.constructor | clousec/models.py:11 | The store starts empty and valid. |
| Models.FindingStore.UpsertFinding | clousec/models.py:6-29 | The new map is `AfterUpsert` of the old one; validity is kept. |
| Models.FindingStore.ResolveFinding | clousec/models.py:32-43 | The new map is `AfterResolve` of the old one; validity is kept. |
| Models.FindingStore.SetByKeyFields | clousec/scanners/ec2_scanner.py:56-65 | The new map is `AfterSet` of the old one; validity is kept. |
| S3Scanner.AclIsPublic | clousec/scanners/s3_scanner.py:38-41 | True iff some grant's Grantee URI ends with "AllUsers". An absent Grants list gives false. |
| S3Scanner.MissingUriNotPublic | clousec/scanners/s3_scanner.py:39 | A grant with no Grantee, or with no URI, reads as "" and never matches. |
| S3Scanner.PolicyOp | clousec/scanners/s3_scanner.py:14-31 | The policy check upserts HIGH iff IsPublic was returned true, and resolves otherwise, ClientError included. The write is on (S3, bucket, "Public bucket policy", global). |
| S3Scanner.AclOp | clousec/scanners/s3_scanner.py:36-56 | Upsert HIGH iff the ACL is public; otherwise resolve. A ClientError counts as not public. |
| S3Scanner.BpaOps | clousec/scanners/s3_scanner.py:61-71 | One write, to the bucket's BPA key, iff a returned configuration has some false value; otherwise nothing. An empty configuration and a ClientError give nothing. |
| S3Scanner.EncryptionOp | clousec/scanners/s3_scanner.py:76-88 | A returned encryption configuration resolves; a ClientError upserts MEDIUM. |
| S3Scanner.ScanBucketOps | clousec/scanners/s3_scanner.py:8-88 | A scan issues 3 or 4 writes, 4 iff BPA is disabled, in the order policy, ACL, BPA, encryption. All are on service S3, the bucket and region "global", with pairwise distinct keys. None is a `$set`, and the BPA write is always an upsert. |
| S3Scanner.ScanBucket | clousec/scanners/s3_scanner.py:8-88 | The imperative scan, with its local flags and try/except branches, leaves exactly `ApplyOps(old, ScanBucketOps(..), now)`; validity is kept. |
| S3Scanner.ScanWritesOnce | clousec/scanners/s3_scanner.py:14-88 | After a scan, each check's record is exactly what that check's single write made of the old record. |
| S3Scanner.PolicyCheckEffect | clousec/scanners/s3_scanner.py:14-31 | After a scan: if public, the record is OPEN and HIGH. If not public, no record is created and none is left OPEN. |
| S3Scanner.AclCheckEffect | clousec/scanners/s3_scanner.py:36-56 | The same two-way rule for the ACL check. |
| S3Scanner.BpaCheckEffect | clousec/scanners/s3_scanner.py:61-71 | If BPA is disabled, the record is OPEN and HIGH. Otherwise the record, or its absence, is untouched: this check never resolves. |
| S3Scanner.EncryptionCheckEffect | clousec/scanners/s3_scanner.py:76-88 | A ClientError leaves an OPEN MEDIUM record. A returned configuration creates nothing and leaves no OPEN record. |
| S3Scanner.ScanFrame | clousec/scanners/s3_scanner.py:9 | A bucket scan changes only that bucket's four S3 "global" keys. |
| Ec2Scanner.IsWorldOpen | clousec/scanners/ec2_scanner.py:10-15 | The loop with early return gives true iff some IpRanges entry has CidrIp exactly "0.0.0.0/0". Absent or empty IpRanges gives false. |
| Ec2Scanner.RuleSeverity | clousec/scanners/ec2_scanner.py:39-45 | Always MEDIUM, HIGH or CRITICAL. CRITICAL iff the ports are 0 to 65535, since that check runs last. HIGH iff the from-port is 22 or 3389. MEDIUM otherwise. |
| Ec2Scanner.PermissionOps | clousec/scanners/ec2_scanner.py:37-65 | A permission that is not world-open writes nothing. A world-open one writes one `$set` of (EC2, group id, "Security group open to world", its severity, region). |
| Ec2Scanner.PermissionsOpsKeys | clousec/scanners/ec2_scanner.py:33-65 | A group's writes number at most its permissions, and all are `$set`s to the group's one key. |
| Ec2Scanner.GroupsOpsKeys | clousec/scanners/ec2_scanner.py:30-65 | Every write of a region is a `$set` to an EC2 "open to world" key in that region. |
| Ec2Scanner.ScanOpsKeys | clousec/scanners/ec2_scanner.py:18-69 | Every write of the scan is a `$set` to an EC2 "open to world" key, so the scan never resolves. |
| Ec2Scanner.ScanGroup | clousec/scanners/ec2_scanner.py:33-65 | The permission loop, which reassigns `severity` step by step, leaves `ApplyOps(old, PermissionsOps(..), now)`. |
| Ec2Scanner.ScanRegion | clousec/scanners/ec2_scanner.py:30-65 | The group loop leaves `ApplyOps(old, GroupsOps(..), now)`. |
| Ec2Scanner.ScanSecurityGroups | clousec/scanners/ec2_scanner.py:18-69 | The region loop leaves `ApplyOps(old, ScanOps(regions), now)`; validity is kept. |
| Ec2Scanner.PermissionsOpsLastSeverity | clousec/scanners/ec2_scanner.py:33-65 | The last severity written to a group's key is that of its last world-open permission. With no world-open permission there is no write. |
| Ec2Scanner.GroupScanSeverity | clousec/scanners/ec2_scanner.py:33-65 | After a group is scanned, the store holds one record for it, carrying the LAST world-open rule's severity. With no world-open rule the store is unchanged. |
| Ec2Scanner.LastRuleNotMaximum | clousec/scanners/ec2_scanner.py:39-65 | A full-range rule followed by a port-80 rule leaves the record MEDIUM, not CRITICAL. |
| IamScanner.IsPolicyOverlyPermissive | clousec/scanners/iam_scanner.py:8-16 | The loop with early return gives true iff some statement has Effect "Allow" and an Action or Resource equal to "*". An absent or empty Statement gives false. |
| IamScanner.NonAllowNeverPermissive | clousec/scanners/iam_scanner.py:12 | Statements whose Effect is not "Allow" never make a policy permissive. |
| IamScanner.ListWildcardDoesNotMatch | clousec/scanners/iam_scanner.py:13 | A list value, even `["*"]`, is not equal to "*". |
| IamScanner.ScanRole | clousec/scanners/iam_scanner.py:19-39 | The policy loop leaves `ApplyOps(old, RoleOps(role, docs), now)`: one CRITICAL upsert per permissive policy. |
| IamScanner.RoleOpsAreUpserts | clousec/scanners/iam_scanner.py:32-39 | Every write of `scan_role` is the same upsert, so it never resolves. There are no writes iff no attached policy is permissive. |
| IamScanner.ScanRoleEffect | clousec/scanners/iam_scanner.py:19-39 | If some policy is permissive, the role's one record is OPEN, CRITICAL and last seen now, and it is the only key added. Otherwise the store is unchanged. Other keys are unchanged either way. |
| Seqs.Filter | frontend/src/pages/S3Page.jsx:12 | `filter` returns an order-preserving subsequence of the input. It holds exactly the elements that pass, and equals the input iff all pass. |
| Seqs.FilterAppend | frontend/src/pages/S3Page.jsx:60 | Filtering a concatenation filters each part. |
| Seqs.FilterPartition | frontend/src/pages/S3Page.jsx:16-20 | The elements kept by a predicate plus those kept by its negation make up the whole list. |
| Seqs.Any | frontend/src/pages/S3Page.jsx:17 | `some` holds iff some element passes. |
| Seqs.AnyIffFilterNonEmpty | frontend/src/pages/S3Page.jsx:17-61 | `some(p)` holds iff `filter(p)` is non-empty. |
| Text.ContainsIff | frontend/src/pages/S3Page.jsx:119-122 | `includes` holds iff the keyword occurs at some offset. The test is case-sensitive, and "" always occurs. |
| Text.ContainsCharsIn | frontend/src/pages/S3Page.jsx:119-122 | Every character of an occurring keyword occurs in the text. |
| Text.EndsWith | clousec/scanners/s3_scanner.py:39 | `endswith` holds only if the text is some prefix followed by the suffix. |
| Text.EndsWithConcat | clousec/scanners/s3_scanner.py:39 | Any text followed by the suffix ends with it; nothing shorter than the suffix does. |
| Views.OfService | frontend/src/pages/S3Page.jsx:12 | The service filter, also used at IAMPage.jsx:12 and Ec2Page.jsx:21. Its result is an ordered subsequence of the fetched findings, all of that service, containing every fetched finding of that service. |
| Views.IssuesFor | frontend/src/pages/S3Page.jsx:60 | An entity's issues are the ordered subsequence of findings naming it. The list is empty iff no finding names it. |
| Views.IssuesOfServiceCommute | frontend/src/pages/Ec2Page.jsx:21-71 | Narrowing by service and by resource id commute. |
| Views.HasFindingFor | frontend/src/pages/S3Page.jsx:17 | `some(resource_id === name)` holds iff some finding names the entity, iff its issue list is non-empty. |
| Views.HasFindingOfService | frontend/src/pages/S3Page.jsx:12-18 | An entity has an issue of a service iff some fetched finding of that service names it. |
| Views.AnyIssueContains | frontend/src/pages/S3Page.jsx:119 | True iff some issue text contains the word. |
| Views.IssueTexts | frontend/src/pages/S3Page.jsx:100-107 | The listed issue texts, one per issue, in order. |
| Views.Badge | frontend/src/pages/S3Page.jsx:85-88 | The badge is shown iff there is an issue, and it shows the FIRST issue's severity. |
| Views.BadgeIsFirstNotWorst | frontend/src/pages/IAMPage.jsx:84 | A MEDIUM issue ahead of a CRITICAL one gives a MEDIUM badge. |
| Views.BadgeDependsOnlyOnFirst | frontend/src/pages/Ec2Page.jsx:111 | Lists with the same first severity give the same badge. |
| Views.Problematic | frontend/src/pages/S3Page.jsx:16-18 | The problematic list is an ordered subsequence of the entities. It holds exactly the entities that have an issue, and equals the full list iff all do. |
| Views.ByTab | frontend/src/pages/S3Page.jsx:20 | The 'problematic' tab gives the problematic list; any other tab gives the full list. |
| Views.ListOrEmpty | frontend/src/pages/S3Page.jsx:13 | `list \|\| []`: a missing list is empty; a present one is kept. |
| S3Page.AllBuckets | frontend/src/pages/S3Page.jsx:13 | Empty when the inventory is null or lacks `s3_buckets`; the inventory's list otherwise. |
| S3Page.ProblematicBuckets | frontend/src/pages/S3Page.jsx:16-18 | An ordered subsequence of all buckets, no longer than it. It holds exactly the buckets that an S3 finding names. |
| S3Page.ProblematicIffNamed | frontend/src/pages/S3Page.jsx:16-18 | A bucket is problematic iff some fetched S3 finding has its name as resource_id. |
| S3Page.DisplayList | frontend/src/pages/S3Page.jsx:20 | The problematic buckets under 'problematic'; all buckets under any other tab. |
| S3Page.BorderColor | frontend/src/pages/S3Page.jsx:23-29 | white iff there are no issues. Otherwise red iff the first severity is CRITICAL, orange iff HIGH, yellow iff anything else. |
| S3Page.BorderColorFirstOnly | frontend/src/pages/S3Page.jsx:25 | Issue lists with the same first severity get the same border. |
| S3Page.BorderColorIgnoresLaterCritical | frontend/src/pages/S3Page.jsx:25 | HIGH followed by CRITICAL gives orange. |
| S3Page.FlagFor | frontend/src/pages/S3Page.jsx:119-122 | A flag is STABLE iff no issue text contains its word. |
| S3Page.CardOf | frontend/src/pages/S3Page.jsx:60-123 | A card's fields all come from that bucket's issue list: vulnerable iff a finding names the bucket, the first-issue badge and border, the texts in order, and the four flags on "Block Public Access", "ACL", "policy" and "encrypted". The node is the bucket's region, and falls back to "GLOBAL" when the region is absent or empty, so it is never blank. |
| S3Page.Cards | frontend/src/pages/S3Page.jsx:59-126 | One card per displayed bucket, in order. |
| S3Page.Page | frontend/src/pages/S3Page.jsx:46-59 | The tab counts are the problematic and total lengths, with problematic ≤ total. There is one card per entry of the displayed list. |
| S3Page.ProblematicCardsVulnerable | frontend/src/pages/S3Page.jsx:16-61 | Every card on the 'problematic' tab is vulnerable and has a badge. On the other tab, a card is vulnerable iff its bucket is problematic. |
| S3Page.PolicyIssueFlags | frontend/src/pages/S3Page.jsx:121 | "Public bucket policy" breaches POLICY and no other flag. |
| S3Page.AclIssueFlags | frontend/src/pages/S3Page.jsx:120 | "Public ACL enabled" breaches ACL and no other flag. |
| S3Page.BpaIssueFlags | frontend/src/pages/S3Page.jsx:119 | "Block Public Access disabled" breaches BPA and no other flag. |
| S3Page.EncryptionIssueFlags | frontend/src/pages/S3Page.jsx:122 | "S3 bucket not encrypted" breaches ENCRYPT and no other flag. |
| IamPage.RoleEntities | frontend/src/pages/IAMPage.jsx:16 | One ROLE entity per role, named by role_name, in order. |
| IamPage.UserEntities | frontend/src/pages/IAMPage.jsx:17 | One USER entity per user, named by user_name, in order. |
| IamPage.AllEntities | frontend/src/pages/IAMPage.jsx:15-18 | The roles then the users: the length is #roles + #users, and a missing list counts as empty. |
| IamPage.EntityTypeByPosition | frontend/src/pages/IAMPage.jsx:15-18 | An entity is a ROLE iff its position is below #roles, so all roles precede all users. |
| IamPage.ProblematicEntities | frontend/src/pages/IAMPage.jsx:21-23 | An ordered subsequence of all entities, holding exactly those that an IAM finding names. |
| IamPage.DisplayList | frontend/src/pages/IAMPage.jsx:25 | Follows the tab. |
| IamPage.CardOf | frontend/src/pages/IAMPage.jsx:56-114 | vulnerable iff a finding names the entity. The badge is the first issue's severity and the texts are in order. The border is purple iff vulnerable. Wildcard_Check is STABLE iff no issue contains "*", and Governance is STABLE iff the entity is not vulnerable. |
| IamPage.Cards | frontend/src/pages/IAMPage.jsx:55-122 | One card per displayed entity, in order. |
| IamPage.Page | frontend/src/pages/IAMPage.jsx:42-127 | The tab counts are the problematic and total lengths, the total being #roles + #users. The placeholder is shown iff the displayed list is empty; otherwise there is one card per entity. |
| IamPage.PlaceholderCases | frontend/src/pages/IAMPage.jsx:123-127 | With no IAM finding, the 'problematic' tab shows the placeholder. With no roles and no users, every tab does. |
| IamPage.ScannerIssueNeverTripsWildcard | frontend/src/pages/IAMPage.jsx:113-114 | For entities whose issues are all the scanner's "Overly permissive IAM policy", Wildcard_Check stays STABLE, and Governance is PERMISSIVE iff the entity has an issue. |
| Ec2Page.LedFor | frontend/src/pages/Ec2Page.jsx:118-120 | An LED is VULNERABLE iff some issue text contains its word. |
| Ec2Page.HostCardOf | frontend/src/pages/Ec2Page.jsx:93-125 | hasIssues iff the list is non-empty. The badge is shown iff hasIssues and is the first finding's severity. The LEDs test "IMDSv1", "public IP" and "Unencrypted". The state pill is green iff the state is "running". |
| Ec2Page.NetworkRowOf | frontend/src/pages/Ec2Page.jsx:151-170 | The row lists every finding's issue, in order. SHIELDED iff there is none. |
| Ec2Page.HostCards | frontend/src/pages/Ec2Page.jsx:67-72 | One card per instance, each given the ordered sub-list of findings with its instance_id. |
| Ec2Page.NetworkRows | frontend/src/pages/Ec2Page.jsx:77-82 | One row per security group, each given the ordered sub-list with its group_id. |
| Ec2Page.HostsAsWritten | frontend/src/pages/Ec2Page.jsx:67-73 | The host list as written: nothing is rendered iff the inventory is null. A TypeError is raised iff the inventory is present without `ec2_instances`. Otherwise there is one card per instance, over that instance's findings. |
| Ec2Page.NetworkAsWritten | frontend/src/pages/Ec2Page.jsx:77-83 | The same for the security groups: null inventory renders nothing, a missing `security_groups` throws, otherwise one row per group. |
| Ec2Page.MissingListThrows | frontend/src/pages/Ec2Page.jsx:67 | With the code as written, an inventory lacking the EC2 lists makes both tabs throw. |
| Ec2Page.Hosts | frontend/src/pages/Ec2Page.jsx:67-73 | Corrected host list: one card per instance, where a missing list is empty. It agrees with the as-written result whenever that one renders. |
| Ec2Page.Network | frontend/src/pages/Ec2Page.jsx:77-83 | Corrected group list: the same, for the security groups. |
| Ec2Page.CorrectedAgreesUnlessThrown | frontend/src/pages/Ec2Page.jsx:67 | The as-written list throws iff the inventory is present without `ec2_instances`; in that case the corrected list is empty. Otherwise the two agree. |
| Ec2Page.Page | frontend/src/pages/Ec2Page.jsx:21-86 | The 'hosts' tab shows the host cards and any other tab the network rows, both over the fetched findings narrowed to EC2. The page is built on the corrected lists `Hosts` and `Network` of "## Findings", which treat a missing list as empty; the code as written throws there (`HostsAsWritten`, `NetworkAsWritten`). |
| Ec2Page.HostFindingsAreOwn | frontend/src/pages/Ec2Page.jsx:71 | A host card sees only fetched EC2 findings naming its instance, in fetched order. |
| Ec2Page.ScannerIssueLightsNoLed | frontend/src/pages/Ec2Page.jsx:118-120 | The EC2 scanner's issue text, "Security group open to world", lights none of the three host LEDs. |
| RiskGlobe.RegionsInOrderFacts | frontend/src/components/RiskGlobe.jsx:25 | The key order of `counts` lists each region once, and exactly the regions that have a finding. |
| RiskGlobe.CountInPositive | frontend/src/components/RiskGlobe.jsx:20-23 | A region's count is positive iff some finding is in it. |
| RiskGlobe.CountByRegion | frontend/src/components/RiskGlobe.jsx:20-23 | The `forEach` loop gives keys in first-occurrence order, and each key maps to the number of findings in that region. |
| RiskGlobe.CountsSumToLength | frontend/src/components/RiskGlobe.jsx:20-23 | The counts of the listed regions sum to the number of findings. |
| RiskGlobe.MaxR | frontend/src/components/RiskGlobe.jsx:28 | min(5·count, 20): never above 20, 5·count for count ≤ 4, and 20 from 4 on. |
| RiskGlobe.MaxRMonotone | frontend/src/components/RiskGlobe.jsx:28 | The radius is monotone in the count. |
| RiskGlobe.Entries | frontend/src/components/RiskGlobe.jsx:25-30 | One ring object per counts entry, in key order. |
| RiskGlobe.RingData | frontend/src/components/RiskGlobe.jsx:19-32 | The memoised computation, a counting loop then map and filter, equals `Rings(findings)`. |
| RiskGlobe.FilterEntries | frontend/src/components/RiskGlobe.jsx:25-31 | Building the rings and then dropping those without coordinates is the same as building rings for the regions the table knows. |
| RiskGlobe.RingsAreKept | frontend/src/components/RiskGlobe.jsx:25-31 | The rings are exactly one per region that has a finding and a table entry, in first-occurrence order, each sized by that region's count. |
| RiskGlobe.KeptFacts | frontend/src/components/RiskGlobe.jsx:6-31 | The ringed regions are distinct, and they are exactly the table regions that have a finding: at most one ring per region. |
| RiskGlobe.TableSize | frontend/src/components/RiskGlobe.jsx:6-12 | The coordinate table has five entries. |
| RiskGlobe.AtMostFiveRings | frontend/src/components/RiskGlobe.jsx:6-31 | There are never more rings than table entries, i.e. 5. |
| RiskGlobe.RingShape | frontend/src/components/RiskGlobe.jsx:26-31 | Every ring has the colour 'rgb(239, 68, 68)', propagationSpeed 1, repeatPeriod 1000, coordinates, and a radius between 5 and 20. No findings give no rings. |

## Left out

- MongoDB, boto3, Flask and axios are left out: the calls themselves, connections, the index
  setup in `clousec/utils/db.py` and network failures. AWS responses and fetched JSON are
  input values, and a `ClientError` is the `ClientError` variant of the response.
- The clock is a parameter `now`. One call of a scanner stamps all its writes with the same
  `now`; the source reads the clock at each write.
- SHA-256 in `clousec/utils/hash.py` is not modelled. The key tuple stands for the hash, treated
  as collision-free. The `:`-joined raw string is ambiguous when a field contains ":", and that
  ambiguity is not modelled either.
- A JSON `null` and an absent field are not told apart; both are `None`.
- Models.AfterUpsert: on a key that holds a record written by the EC2 scan, which has no
  `finding_id`, it reopens that record in place. MongoDB's `update_one` filtered by
  `finding_id` would match nothing there and its insert would clash with the unique index.
  No scanner reaches this, because the EC2 scan and `upsert_finding` never write the same
  service.
- An exception the source does not catch is not modelled. Examples: a missing
  `PolicyStatus`, or a missing `GroupId`. Those paths would end the scan early.
- IamScanner.IsPolicyOverlyPermissive: a `Statement` that is a single object rather than a
  list is not modelled. Python would iterate over the dictionary's keys there.
- Ec2Scanner.IsWorldOpen: only `IpRanges` is inspected, like the source. IPv6 ranges are not
  modelled.
- The regions list, the security groups and the attached policies are passed in as already
  fetched. `get_all_regions`, `get_inventory` and the pagination of the AWS list calls are not
  part of this model.
- React is not modelled: rendering, styling, animation, the `loading` early return,
  `useState` (the tab is a parameter) and the refresh effect. The `Object.entries` key order
  is modelled only for the non-numeric keys that region names are.
- `toUpperCase` on the instance state, the `key` props and the `delay` values are not
  modelled.
- RiskGlobe.CountByRegion: a region named like an array index, or like an inherited property
  (`__proto__`, `toString`), behaves specially on a JavaScript object. Region strings are
  taken to be plain keys.
- RiskGlobe.Entry: latitudes and longitudes are integers in hundredths of a degree, which is
  exact for the two-decimal table. The camera and auto-rotation are not modelled.
- Dashboard.jsx, Sidebar.jsx, Layout.jsx, FindingCard.jsx, ServicePage.jsx and App.jsx are
  presentation only and not part of this model.
- `backend/app.py` imports `scan_s3_buckets`, which `s3_scanner.py` does not define. Its
  `/findings` route also ignores `?status=OPEN` and returns every record. The pages are
  therefore modelled over whatever list is fetched.

Behaviour of the code worth knowing:
- The badge and the S3 border take the severity of the first finding in fetched order, not
  the highest (`Views.BadgeIsFirstNotWorst`, `S3Page.BorderColorIgnoresLaterCritical`).
  Entities are joined to their findings by a plain `filter` per entity.
- Every scanner writes a region ("global" for S3 and IAM).
- Records written by the EC2 scan carry no `status`, `finding_id` or lifecycle times, only
  `timestamp` (`Models.AfterSet`). Such records are never resolved (`Ec2Scanner.ScanOpsKeys`).
  For the last world-open rule of a group, see `Ec2Scanner.LastRuleNotMaximum`.

## Findings

| source | as written | input that shows it | evidently intended | confidence | as-written member | corrected member |
|---|---|---|---|---|---|---|
| frontend/src/pages/Ec2Page.jsx:67 | `inventory?.ec2_instances.map(…)` and `inventory?.security_groups.map(…)` (line 77): the optional chain guards only a null inventory, so an inventory object without one of these lists throws a TypeError | inventory `{}`, any findings | a missing list renders as empty, as S3Page.jsx:13 and IAMPage.jsx:16-17 do with `\|\| []` | not executed; low: the backend's `get_inventory` always supplies both keys | Ec2Page.HostsAsWritten, shown by Ec2Page.MissingListThrows | Ec2Page.Hosts and Ec2Page.Network, proved by Ec2Page.CorrectedAgreesUnlessThrown |
