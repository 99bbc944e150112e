/** The rings of the risk globe (frontend/src/components/RiskGlobe.jsx): the open
  * findings counted per region, one ring per counted region that the coordinate
  * table knows, its radius growing with the count up to a cap. */
module RiskGlobe {
  import opened Wrappers
  import opened Seqs
  import opened Models

  /** A position in hundredths of a degree; every entry of the table has two decimals. */
  datatype Coord = Coord(latE2: int, lngE2: int)

  /** `REGION_COORDS`. */
  const RegionCoords: map<string, Coord> := map[
    "us-east-1" := Coord(3792, -7802),
    "us-west-2" := Coord(4583, -11970),
    "ap-south-1" := Coord(1907, 7287),
    "eu-west-1" := Coord(5314, -769),
    "ap-northeast-1" := Coord(3567, 13965)]

  const RingColor := "rgb(239, 68, 68)"
  const CapRadius := 20

  /** One entry of `ringData`; `lat`/`lng` are absent when the spread of
    * `REGION_COORDS[region]` contributed nothing. */
  datatype Ring = Ring(lat: Option<int>, lng: Option<int>, color: string, maxR: int, propagationSpeed: int, repeatPeriod: int)

  /** The number of findings located in `region`. */
  function CountIn(fs: seq<Finding>, region: string): nat
    decreases |fs|
  {
    if fs == [] then 0
    else CountIn(fs[..|fs| - 1], region) + (if fs[|fs| - 1].region == region then 1 else 0)
  }

  /** The regions of `fs` in order of first occurrence: the key order of the
    * `counts` object, whose keys are all non-numeric strings. */
  function RegionsInOrder(fs: seq<Finding>): seq<string>
    decreases |fs|
  {
    if fs == [] then []
    else
      var seen := RegionsInOrder(fs[..|fs| - 1]);
      if fs[|fs| - 1].region in seen then seen else seen + [fs[|fs| - 1].region]
  }

  ghost predicate Distinct<T>(s: seq<T>) {
    forall i, j :: 0 <= i < j < |s| ==> s[i] != s[j]
  }

  /** Each counted region is listed once, and exactly the regions with a finding are listed. */
  lemma {:induction false} RegionsInOrderFacts(fs: seq<Finding>)
    ensures Distinct(RegionsInOrder(fs))
    ensures forall r :: r in RegionsInOrder(fs) <==> CountIn(fs, r) > 0
    decreases |fs|
  {
    if fs != [] {
      RegionsInOrderFacts(fs[..|fs| - 1]);
    }
  }

  /** A region has a positive count exactly when some finding is located in it. */
  lemma {:induction false} CountInPositive(fs: seq<Finding>, region: string)
    ensures CountIn(fs, region) > 0 <==> exists i :: 0 <= i < |fs| && fs[i].region == region
    decreases |fs|
  {
    if fs != [] {
      var p := fs[..|fs| - 1];
      CountInPositive(p, region);
      if exists i :: 0 <= i < |p| && p[i].region == region {
        var i :| 0 <= i < |p| && p[i].region == region;
        assert fs[i] == p[i];
      }
      if exists i :: 0 <= i < |fs| && fs[i].region == region {
        var i :| 0 <= i < |fs| && fs[i].region == region;
        if i < |p| {
          assert p[i] == fs[i];
        }
      }
    }
  }

  /** The `forEach` that fills `counts`. A JavaScript object keeps its string keys
    * in insertion order; `order` records that order next to the map. */
  method CountByRegion(fs: seq<Finding>) returns (order: seq<string>, counts: map<string, nat>)
    ensures order == RegionsInOrder(fs)
    ensures forall r :: r in counts <==> r in order
    ensures forall r :: r in counts ==> counts[r] == CountIn(fs, r)
  {
    order := [];
    counts := map[];
    var i := 0;
    while i < |fs|
      invariant 0 <= i <= |fs|
      invariant order == RegionsInOrder(fs[..i])
      invariant forall r :: r in counts <==> r in order
      invariant forall r :: r in counts ==> counts[r] == CountIn(fs[..i], r)
    {
      var f := fs[i];
      assert fs[..i + 1][..i] == fs[..i];
      RegionsInOrderFacts(fs[..i]);
      var previous := if f.region in counts then counts[f.region] else 0;
      if f.region !in counts {
        order := order + [f.region];
      }
      counts := counts[f.region := previous + 1];
      i := i + 1;
    }
    assert fs[..i] == fs;
  }

  /** `Math.min(count * 5, 20)`. */
  function MaxR(count: int): (r: int)
    ensures r <= CapRadius
    ensures r == 5 * count || r == CapRadius
    ensures count <= 4 ==> r == 5 * count
    ensures count >= 4 ==> r == CapRadius
  {
    if count * 5 < CapRadius then count * 5 else CapRadius
  }

  /** A larger count never gives a smaller ripple. */
  lemma MaxRMonotone(a: int, b: int)
    requires a <= b
    ensures MaxR(a) <= MaxR(b)
  {
  }

  /** The ring object built for one `[region, count]` entry. */
  function Entry(region: string, count: nat): Ring {
    Ring(
      if region in RegionCoords then Some(RegionCoords[region].latE2) else None,
      if region in RegionCoords then Some(RegionCoords[region].lngE2) else None,
      RingColor, MaxR(count), 1, 1000)
  }

  /** `Object.entries(counts).map(...)`. */
  function Entries(order: seq<string>, counts: map<string, nat>): (r: seq<Ring>)
    requires forall r :: r in order ==> r in counts
    ensures |r| == |order|
    ensures forall i :: 0 <= i < |order| ==> r[i] == Entry(order[i], counts[order[i]])
    decreases |order|
  {
    if order == [] then [] else [Entry(order[0], counts[order[0]])] + Entries(order[1..], counts)
  }

  function HasLat(d: Ring): bool {
    d.lat.Some?
  }

  /** `.filter(d => d.lat !== undefined)`. */
  function RingsOf(order: seq<string>, counts: map<string, nat>): seq<Ring>
    requires forall r :: r in order ==> r in counts
  {
    Filter(Entries(order, counts), HasLat)
  }

  /** The counts object as a map. */
  function CountsOf(fs: seq<Finding>): map<string, nat> {
    map r | r in RegionsInOrder(fs) :: CountIn(fs, r)
  }

  /** `ringData` for `fs`. */
  function Rings(fs: seq<Finding>): seq<Ring> {
    RingsOf(RegionsInOrder(fs), CountsOf(fs))
  }

  /** The `useMemo` body: the counting loop, then the pure map and filter. */
  method RingData(fs: seq<Finding>) returns (rings: seq<Ring>)
    ensures rings == Rings(fs)
  {
    var order, counts := CountByRegion(fs);
    assert counts == CountsOf(fs);
    rings := RingsOf(order, counts);
  }

  function InCoords(region: string): bool {
    region in RegionCoords
  }

  /** Mapping then dropping entries without coordinates is mapping the regions
    * the table knows. */
  lemma {:induction false} FilterEntries(order: seq<string>, counts: map<string, nat>)
    requires forall r :: r in order ==> r in counts
    ensures Filter(Entries(order, counts), HasLat) == Entries(Filter(order, InCoords), counts)
    decreases |order|
  {
    if order != [] {
      FilterEntries(order[1..], counts);
      assert Entries(order, counts)[1..] == Entries(order[1..], counts);
      if InCoords(order[0]) {
        assert Filter(order, InCoords)[1..] == Filter(order[1..], InCoords);
      }
    }
  }

  /** The regions that get a ring: those with a finding and an entry in the table, in first-occurrence order. */
  function Kept(fs: seq<Finding>): seq<string> {
    Filter(RegionsInOrder(fs), InCoords)
  }

  /** The rings are exactly one ring per kept region, sized by that region's count. */
  lemma RingsAreKept(fs: seq<Finding>)
    ensures |Rings(fs)| == |Kept(fs)|
    ensures forall i :: 0 <= i < |Kept(fs)| ==> Rings(fs)[i] == Entry(Kept(fs)[i], CountIn(fs, Kept(fs)[i]))
  {
    var order := RegionsInOrder(fs);
    FilterEntries(order, CountsOf(fs));
    assert forall i :: 0 <= i < |Kept(fs)| ==> Kept(fs)[i] in Kept(fs);
  }

  /** A filtered distinct list is distinct. */
  lemma {:induction false} FilterDistinct<T>(s: seq<T>, p: T -> bool)
    requires Distinct(s)
    ensures Distinct(Filter(s, p))
    decreases |s|
  {
    if s != [] {
      FilterDistinct(s[1..], p);
      var r := Filter(s, p);
      if p(s[0]) {
        forall j | 0 < j < |r| ensures r[0] != r[j] {
          assert r[j] in Filter(s[1..], p);
          var k :| 0 <= k < |s[1..]| && s[1..][k] == r[j];
          assert s[k + 1] == r[j];
        }
      }
    }
  }

  /** A list without repetitions has as many elements as its set. */
  lemma {:induction false} DistinctCard<T>(s: seq<T>)
    requires Distinct(s)
    ensures |set x | x in s| == |s|
    decreases |s|
  {
    if s != [] {
      DistinctCard(s[1..]);
      assert (set x | x in s) == {s[0]} + (set x | x in s[1..]);
      assert s[0] !in (set x | x in s[1..]);
    }
  }

  /** Every kept region is listed once, and the kept regions are exactly the
    * regions of the table that have a finding. */
  lemma KeptFacts(fs: seq<Finding>)
    ensures Distinct(Kept(fs))
    ensures forall r :: r in Kept(fs) <==> r in RegionCoords && CountIn(fs, r) > 0
  {
    RegionsInOrderFacts(fs);
    FilterDistinct(RegionsInOrder(fs), InCoords);
  }

  /** `REGION_COORDS` has five entries. */
  lemma TableSize()
    ensures |RegionCoords| == 5
  {
    assert RegionCoords.Keys == {"us-east-1", "us-west-2", "ap-south-1", "eu-west-1", "ap-northeast-1"};
  }

  /** At most one ring per region, so never more rings than table entries. */
  lemma AtMostFiveRings(fs: seq<Finding>)
    ensures |Rings(fs)| <= |RegionCoords| == 5
  {
    KeptFacts(fs);
    RingsAreKept(fs);
    TableSize();
    var k := Kept(fs);
    DistinctCard(k);
    var ks := set x | x in k;
    assert ks <= RegionCoords.Keys;
    SubsetCard(ks, RegionCoords.Keys);
  }

  lemma SubsetCard<T>(a: set<T>, b: set<T>)
    requires a <= b
    ensures |a| <= |b|
  {
    assert b == a + (b - a);
    assert a * (b - a) == {};
  }

  /** Every ring has the fixed color and timing, coordinates, and a radius between 5 and 20. */
  lemma RingShape(fs: seq<Finding>)
    ensures forall d :: d in Rings(fs) ==>
              d.color == RingColor && d.propagationSpeed == 1 && d.repeatPeriod == 1000
              && d.lat.Some? && d.lng.Some? && 5 <= d.maxR <= CapRadius
    ensures fs == [] ==> Rings(fs) == []
  {
    RingsAreKept(fs);
    KeptFacts(fs);
    forall d | d in Rings(fs)
      ensures d.color == RingColor && d.propagationSpeed == 1 && d.repeatPeriod == 1000
              && d.lat.Some? && d.lng.Some? && 5 <= d.maxR <= CapRadius
    {
      var i :| 0 <= i < |Rings(fs)| && Rings(fs)[i] == d;
      assert Kept(fs)[i] in Kept(fs);
    }
  }

  /** The counts of the listed regions add up to the number of findings:
    * every finding is counted once. */
  function SumCounts(order: seq<string>, fs: seq<Finding>): nat
    decreases |order|
  {
    if order == [] then 0 else SumCounts(order[..|order| - 1], fs) + CountIn(fs, order[|order| - 1])
  }

  /** The number of times `r` is listed. */
  function Occurrences(order: seq<string>, r: string): nat
    decreases |order|
  {
    if order == [] then 0 else Occurrences(order[..|order| - 1], r) + (if order[|order| - 1] == r then 1 else 0)
  }

  lemma {:induction false} OccurrencesDistinct(order: seq<string>, r: string)
    requires Distinct(order)
    ensures Occurrences(order, r) == (if r in order then 1 else 0)
    decreases |order|
  {
    if order != [] {
      var init := order[..|order| - 1];
      assert Distinct(init);
      OccurrencesDistinct(init, r);
      if order[|order| - 1] == r {
        assert r !in init;
      } else if r in order {
        var i :| 0 <= i < |order| && order[i] == r;
        assert init[i] == r;
      }
    }
  }

  /** One more finding adds one to the sum for every listing of its region. */
  lemma {:induction false} SumCountsSnoc(order: seq<string>, fs: seq<Finding>, f: Finding)
    ensures SumCounts(order, fs + [f]) == SumCounts(order, fs) + Occurrences(order, f.region)
    decreases |order|
  {
    assert (fs + [f])[..|fs|] == fs;
    if order != [] {
      SumCountsSnoc(order[..|order| - 1], fs, f);
    }
  }

  lemma {:induction false} CountsSumToLength(fs: seq<Finding>)
    ensures SumCounts(RegionsInOrder(fs), fs) == |fs|
    decreases |fs|
  {
    if fs != [] {
      var p := fs[..|fs| - 1];
      var f := fs[|fs| - 1];
      assert fs == p + [f];
      CountsSumToLength(p);
      RegionsInOrderFacts(p);
      var order := RegionsInOrder(p);
      SumCountsSnoc(order, p, f);
      OccurrencesDistinct(order, f.region);
      if f.region !in order {
        var order' := order + [f.region];
        assert order'[..|order'| - 1] == order;
        assert CountIn(p, f.region) == 0;
      }
    }
  }
}
