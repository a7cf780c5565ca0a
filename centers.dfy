/** The counts of the centers map (src/components/dashboard/CentersMapSection.tsx): how many
    centers there are, how many are operational, per phase and per type, and how many distinct
    regions they cover. Statuses, types and phases are strings as read from the data, which
    need not keep to the values the TypeScript types name. The map, the markers and the detail
    panel are presentation and are not part of this model. */
module Centers {
  import opened Wrappers
  import opened Seqs
  import opened Text

  datatype Center = Center(id: string, name: string, kind: string, region: string,
                           status: string, phase: string)

  function StatusOf(c: Center): string { c.status }
  function KindOf(c: Center): string { c.kind }
  function PhaseOf(c: Center): string { c.phase }
  function RegionOf(c: Center): string { c.region }

  function Regions(centers: seq<Center>): (rs: seq<string>)
    ensures |rs| == |centers| && forall i :: 0 <= i < |centers| ==> rs[i] == centers[i].region
  {
    seq(|centers|, i requires 0 <= i < |centers| => centers[i].region)
  }

  datatype CenterStats = CenterStats(total: nat, operational: nat, nonOperational: nat,
                                     phaseI: nat, phaseII: nat, universities: nat,
                                     schools: nat, mairies: nat, regions: nat)

  /** `centerStats` with the two status counts beside it. */
  function Stats(centers: seq<Center>): (r: CenterStats)
    ensures r.total == |centers|
    ensures r.operational == CountOf(centers, StatusOf, "Operational")
    ensures r.nonOperational == CountOf(centers, StatusOf, "Non-Operational")
    ensures r.phaseI == CountOf(centers, PhaseOf, "Phase I") && r.phaseII == CountOf(centers, PhaseOf, "Phase II")
    ensures r.universities == CountOf(centers, KindOf, "University")
    ensures r.schools == CountOf(centers, KindOf, "School") && r.mairies == CountOf(centers, KindOf, "Mairie")
    ensures r.regions <= r.total
    ensures r.regions == |Dedup(Regions(centers))|
    ensures r.regions == 0 <==> centers == []
  {
    var regions := Dedup(Regions(centers));
    assert centers != [] ==> regions != [] by {
      if centers != [] {
        DedupMembers(Regions(centers));
        assert Regions(centers)[0] in regions;
      }
    }
    CenterStats(|centers|, CountOf(centers, StatusOf, "Operational"), CountOf(centers, StatusOf, "Non-Operational"),
                CountOf(centers, PhaseOf, "Phase I"), CountOf(centers, PhaseOf, "Phase II"),
                CountOf(centers, KindOf, "University"), CountOf(centers, KindOf, "School"),
                CountOf(centers, KindOf, "Mairie"), |regions|)
  }

  lemma SumCountsOfTwo<T, K>(s: seq<T>, key: T -> K, a: K, b: K)
    ensures SumCounts(s, key, [a, b]) == CountOf(s, key, a) + CountOf(s, key, b)
  {
    assert [a, b][1..] == [b];
    assert [b][1..] == [];
    assert SumCounts(s, key, [b]) == CountOf(s, key, b) + SumCounts(s, key, []);
  }

  lemma SumCountsOfThree<T, K>(s: seq<T>, key: T -> K, a: K, b: K, c: K)
    ensures SumCounts(s, key, [a, b, c]) == CountOf(s, key, a) + CountOf(s, key, b) + CountOf(s, key, c)
  {
    assert [a, b, c][1..] == [b, c];
    SumCountsOfTwo(s, key, b, c);
  }

  /** Operational and non-operational centers add up to the total exactly when every status is
      one of the two. */
  lemma StatusCountsCoverTotal(centers: seq<Center>)
    ensures Stats(centers).operational + Stats(centers).nonOperational <= Stats(centers).total
    ensures Stats(centers).operational + Stats(centers).nonOperational == Stats(centers).total
            <==> forall i :: 0 <= i < |centers| ==> centers[i].status in ["Operational", "Non-Operational"]
  {
    var vs := ["Operational", "Non-Operational"];
    assert Distinct(vs) by {
      assert vs[0][0] != vs[1][0];
    }
    CountsPartition(centers, StatusOf, vs);
    SumCountsOfTwo(centers, StatusOf, vs[0], vs[1]);
    NoneOutside(centers, StatusOf, vs);
  }

  /** Universities, schools and mairies add up to the total exactly when every type is one of
      the three. */
  lemma KindCountsCoverTotal(centers: seq<Center>)
    ensures Stats(centers).universities + Stats(centers).schools + Stats(centers).mairies <= Stats(centers).total
    ensures Stats(centers).universities + Stats(centers).schools + Stats(centers).mairies == Stats(centers).total
            <==> forall i :: 0 <= i < |centers| ==> centers[i].kind in ["University", "School", "Mairie"]
  {
    var vs := ["University", "School", "Mairie"];
    assert Distinct(vs) by {
      assert vs[0][0] != vs[1][0] && vs[0][0] != vs[2][0] && vs[1][0] != vs[2][0];
    }
    CountsPartition(centers, KindOf, vs);
    SumCountsOfThree(centers, KindOf, vs[0], vs[1], vs[2]);
    NoneOutside(centers, KindOf, vs);
  }

  /** The two phases never count more centers than there are. */
  lemma PhaseCountsAtMostTotal(centers: seq<Center>)
    ensures Stats(centers).phaseI + Stats(centers).phaseII <= Stats(centers).total
  {
    var vs := ["Phase I", "Phase II"];
    assert Distinct(vs) by {
      assert |vs[0]| != |vs[1]|;
    }
    CountsPartition(centers, PhaseOf, vs);
    SumCountsOfTwo(centers, PhaseOf, vs[0], vs[1]);
  }

  /** Distinct elements are as many as the set they form. */
  lemma {:induction false} DistinctCardinality(s: seq<string>)
    requires Distinct(s)
    ensures |set x | x in s| == |s|
    decreases |s|
  {
    if s != [] {
      var init, last := s[..|s| - 1], s[|s| - 1];
      assert Distinct(init) by {
        forall i, j | 0 <= i < j < |init|
          ensures init[i] != init[j]
        {
          assert init[i] == s[i] && init[j] == s[j];
        }
      }
      assert last !in init by {
        forall j | 0 <= j < |init|
          ensures init[j] != last
        {
          assert init[j] == s[j];
        }
      }
      DistinctCardinality(init);
      assert s == init + [last];
      assert (set x | x in s) == (set x | x in init) + {last};
    }
  }

  /** The region count is the number of different region strings. */
  lemma RegionsAreDistinctStrings(centers: seq<Center>)
    ensures Stats(centers).regions == |set c | c in centers :: c.region|
  {
    var rs := Dedup(Regions(centers));
    DedupMembers(Regions(centers));
    DistinctCardinality(rs);
    assert (set x | x in rs) == (set c | c in centers :: c.region) by {
      forall x | x in rs
        ensures x in (set c | c in centers :: c.region)
      {
        var i :| 0 <= i < |Regions(centers)| && Regions(centers)[i] == x;
        assert centers[i] in centers;
      }
      forall c | c in centers
        ensures c.region in rs
      {
        var i :| 0 <= i < |centers| && centers[i] == c;
        assert Regions(centers)[i] == c.region;
      }
    }
  }

  /** The operational bar's width in percent; a map without centers divides by zero, which the
      browser renders as no width (`None`). */
  function OperationalWidth(stats: CenterStats): (w: Option<real>)
    ensures w.None? <==> stats.total == 0
    ensures stats.operational <= stats.total && w.Some? ==> 0.0 <= w.value <= 100.0
    ensures stats.operational == stats.total && w.Some? ==> w.value == 100.0
  {
    if stats.total == 0 then None
    else Some(stats.operational as real / stats.total as real * 100.0)
  }

  /** On the map's own counts the bar is full exactly when every center is operational. */
  lemma OperationalWidthOfCenters(centers: seq<Center>)
    requires centers != []
    ensures OperationalWidth(Stats(centers)).Some?
    ensures 0.0 <= OperationalWidth(Stats(centers)).value <= 100.0
    ensures OperationalWidth(Stats(centers)).value == 100.0
            <==> forall i :: 0 <= i < |centers| ==> centers[i].status == "Operational"
  {
    var st := Stats(centers);
    AllOperationalCount(centers);
    if st.operational < st.total {
      ShareBelowWhole(st.operational as real, st.total as real);
    }
  }

  /** Every center is operational exactly when the operational count is the total. */
  lemma AllOperationalCount(centers: seq<Center>)
    ensures CountOf(centers, StatusOf, "Operational") == |centers|
            <==> forall i :: 0 <= i < |centers| ==> centers[i].status == "Operational"
  {
    var p := Is(StatusOf, "Operational");
    if forall i :: 0 <= i < |centers| ==> centers[i].status == "Operational" {
      forall x | x in centers
        ensures p(x)
      {
        var i :| 0 <= i < |centers| && centers[i] == x;
        assert StatusOf(x) == "Operational";
        assert p(x) == (StatusOf(x) == "Operational");
      }
      FilterAll(centers, p);
    } else {
      var i :| 0 <= i < |centers| && centers[i].status != "Operational";
      assert StatusOf(centers[i]) != "Operational";
      assert p(centers[i]) == (StatusOf(centers[i]) == "Operational");
      FilterCountBelow(centers, p, i);
    }
  }

  lemma ShareBelowWhole(part: real, whole: real)
    requires 0.0 <= part < whole
    ensures part / whole * 100.0 < 100.0
  {
    assert part / whole < 1.0;
  }

  /** An element the filter drops makes the filter shorter than its input. */
  lemma {:induction false} FilterCountBelow<T>(s: seq<T>, p: T -> bool, i: int)
    requires 0 <= i < |s| && !p(s[i])
    ensures |Filter(s, p)| < |s|
    decreases |s|
  {
    if i == 0 {
      FilterIsSubsequence(s[1..], p);
    } else {
      FilterCountBelow(s[1..], p, i - 1);
    }
  }
}
