/** `analyze_geographic_distribution` and `calculate_risk_by_region`
    (backend/app.py): nodes are grouped by region (`'Unknown'` when a node has
    none); per region the backend counts the nodes, counts them per type, and
    averages a risk derived from the reputation. All three tables list the
    regions in the order they are first met. */
module Geography {
  import opened Entities
  import opened Dicts
  import Seqs
  import Grouping
  import RiskAnalysis

  /** `node.get('region', 'Unknown')` */
  function RegionOf(node: Node): string
  {
    if node.region.Some? then node.region.value else "Unknown"
  }

  /** `node['type']` */
  function KindOf(node: Node): string
  {
    node.kind
  }

  /** `node => region(node) == r` */
  function InRegion(r: string): Node -> bool
  {
    Grouping.KeyIs(RegionOf, r)
  }

  /** A `defaultdict(int)` of counts. */
  type Tally = seq<(string, nat)>

  /** `region_types` after the loop has seen `nodes`. */
  function TypesSpec(nodes: seq<Node>): seq<(string, Tally)>
  {
    if |nodes| == 0 then []
    else
      var d := TypesSpec(nodes[..|nodes| - 1]);
      var x := nodes[|nodes| - 1];
      var inner := Get(d, RegionOf(x), []);
      Put(d, RegionOf(x), Put(inner, x.kind, Get(inner, x.kind, 0) + 1))
  }

  /** The nodes of region `r`, collected from the end as the loop sees them. */
  function RegionNodes(nodes: seq<Node>, r: string): seq<Node>
  {
    if |nodes| == 0 then []
    else
      var n := |nodes| - 1;
      RegionNodes(nodes[..n], r) + (if RegionOf(nodes[n]) == r then [nodes[n]] else [])
  }

  /** Collected from the end they are the region's filter. */
  lemma {:induction false} RegionNodesFilter(nodes: seq<Node>, r: string)
    ensures RegionNodes(nodes, r) == Seqs.Filter(nodes, InRegion(r))
  {
    if |nodes| > 0 {
      var n := |nodes| - 1;
      RegionNodesFilter(nodes[..n], r);
      Seqs.FilterSnoc(nodes, n, InRegion(r));
      assert nodes[..n + 1] == nodes;
      assert InRegion(r)(nodes[n]) == (RegionOf(nodes[n]) == r);
    }
  }

  /** The type table of a region is the tally of types over that region's nodes
      alone. */
  lemma TypesOfRegion(nodes: seq<Node>, r: string)
    ensures Get(TypesSpec(nodes), r, []) == Grouping.TallySpec(Seqs.Filter(nodes, InRegion(r)), KindOf)
  {
    TypesOfRegionNodes(nodes, r);
    RegionNodesFilter(nodes, r);
  }

  lemma {:induction false} TypesOfRegionNodes(nodes: seq<Node>, r: string)
    ensures Get(TypesSpec(nodes), r, []) == Grouping.TallySpec(RegionNodes(nodes, r), KindOf)
  {
    if |nodes| > 0 {
      var n := |nodes| - 1;
      var f := RegionNodes(nodes[..n], r);
      TypesOfRegionNodes(nodes[..n], r);
      if RegionOf(nodes[n]) == r {
        assert RegionNodes(nodes, r) == f + [nodes[n]];
        TypesStepHere(nodes, r, f);
      } else {
        assert f + [] == f;
        assert RegionNodes(nodes, r) == f;
        TypesStepElsewhere(nodes, r);
      }
    }
  }

  /** A node of region `r` is counted under its type in `r`'s table. */
  lemma TypesStepHere(nodes: seq<Node>, r: string, f: seq<Node>)
    requires |nodes| > 0 && RegionOf(nodes[|nodes| - 1]) == r
    requires Get(TypesSpec(nodes[..|nodes| - 1]), r, []) == Grouping.TallySpec(f, KindOf)
    ensures Get(TypesSpec(nodes), r, []) == Grouping.TallySpec(f + [nodes[|nodes| - 1]], KindOf)
  {
    var x := nodes[|nodes| - 1];
    var d := TypesSpec(nodes[..|nodes| - 1]);
    var inner := Get(d, r, []);
    GetPutSame(d, r, Put(inner, x.kind, Get(inner, x.kind, 0) + 1), []);
    Grouping.TallySnoc(f, x, KindOf);
  }

  /** A node elsewhere leaves `r`'s table as it was. */
  lemma TypesStepElsewhere(nodes: seq<Node>, r: string)
    requires |nodes| > 0 && RegionOf(nodes[|nodes| - 1]) != r
    ensures Get(TypesSpec(nodes), r, []) == Get(TypesSpec(nodes[..|nodes| - 1]), r, [])
  {
    var x := nodes[|nodes| - 1];
    var d := TypesSpec(nodes[..|nodes| - 1]);
    var inner := Get(d, RegionOf(x), []);
    GetPutOther(d, RegionOf(x), Put(inner, x.kind, Get(inner, x.kind, 0) + 1), r, []);
  }

  /** `region_types` lists the regions in the order `region_count` does. */
  lemma {:induction false} TypesKeys(nodes: seq<Node>)
    ensures Keys(TypesSpec(nodes)) == Keys(Grouping.TallySpec(nodes, RegionOf))
  {
    if |nodes| > 0 {
      var n := |nodes| - 1;
      var d, t := TypesSpec(nodes[..n]), Grouping.TallySpec(nodes[..n], RegionOf);
      var x := nodes[n];
      var inner := Get(d, RegionOf(x), []);
      TypesKeys(nodes[..n]);
      PutSameKeys(d, t, RegionOf(x), Put(inner, x.kind, Get(inner, x.kind, 0) + 1), Get(t, RegionOf(x), 0) + 1);
    }
  }

  /** `(1 - reputation) * 100` */
  function NodeRisk(node: Node): real
  {
    (1.0 - RiskAnalysis.Reputation(node)) * 100.0
  }

  datatype RegionRisk = RegionRisk(avgRisk: real, nodeCount: nat)

  /** The closing comprehension over `region_risk.items()`. Every group holds at
      least one risk, so the mean is defined. */
  function Summarize(groups: seq<(string, seq<real>)>): seq<(string, RegionRisk)>
    requires forall i :: 0 <= i < |groups| ==> |groups[i].1| > 0
  {
    seq(|groups|, i requires 0 <= i < |groups| =>
      (groups[i].0, RegionRisk(Seqs.Sum(groups[i].1) / |groups[i].1| as real, |groups[i].1|)))
  }

  /** `calculate_risk_by_region(nodes)` */
  function RiskByRegion(nodes: seq<Node>): seq<(string, RegionRisk)>
  {
    Grouping.GroupsAllNonEmpty(nodes, RegionOf, NodeRisk);
    Summarize(Grouping.GroupSpec(nodes, RegionOf, NodeRisk))
  }

  /** The grouping loop followed by the comprehension. */
  method CalculateRiskByRegion(nodes: seq<Node>) returns (r: seq<(string, RegionRisk)>)
    ensures r == RiskByRegion(nodes)
  {
    var groups := Grouping.GroupBy(nodes, RegionOf, NodeRisk);
    Grouping.GroupsAllNonEmpty(nodes, RegionOf, NodeRisk);
    r := Summarize(groups);
  }

  /** Each region's entry counts that region's nodes (as `region_count` does) and
      holds the mean of their risks. */
  lemma RiskByRegionMeaning(nodes: seq<Node>, i: nat)
    requires i < |RiskByRegion(nodes)|
    ensures var e := RiskByRegion(nodes)[i];
      var members := Seqs.Filter(nodes, InRegion(e.0));
      e.1.nodeCount == |members| > 0
      && e.1.avgRisk == Seqs.Sum(Seqs.Map(members, NodeRisk)) / |members| as real
      && Get(Grouping.TallySpec(nodes, RegionOf), e.0, 0) == e.1.nodeCount
  {
    var g := Grouping.GroupSpec(nodes, RegionOf, NodeRisk);
    Grouping.GroupsAllNonEmpty(nodes, RegionOf, NodeRisk);
    var r := g[i].0;
    Grouping.GroupSpecUnique(nodes, RegionOf, NodeRisk);
    Grouping.FirstOccurrence(g, i);
    assert Get(g, r, []) == g[i].1;
    Grouping.GroupSpecGet(nodes, RegionOf, NodeRisk, r);
    Grouping.TallyGet(nodes, RegionOf, r);
  }

  /** The regions of the risk table are those of `region_count`, in the same
      order, and they are exactly the regions some node is in. */
  lemma RiskByRegionKeys(nodes: seq<Node>, r: string)
    ensures Keys(RiskByRegion(nodes)) == Keys(Grouping.TallySpec(nodes, RegionOf))
    ensures r in Keys(RiskByRegion(nodes)) <==> exists j :: 0 <= j < |nodes| && RegionOf(nodes[j]) == r
  {
    var g := Grouping.GroupSpec(nodes, RegionOf, NodeRisk);
    Grouping.GroupsAllNonEmpty(nodes, RegionOf, NodeRisk);
    assert Keys(Summarize(g)) == Keys(g);
    Grouping.TallyKeys(nodes, RegionOf, NodeRisk);
    Grouping.GroupSpecKeys(nodes, RegionOf, NodeRisk, r);
  }

  /** With reputations in [0, 1], every regional average risk lies in [0, 100]. */
  lemma RegionRiskBounds(nodes: seq<Node>, i: nat)
    requires forall j :: 0 <= j < |nodes| ==> 0.0 <= RiskAnalysis.Reputation(nodes[j]) <= 1.0
    requires i < |RiskByRegion(nodes)|
    ensures 0.0 <= RiskByRegion(nodes)[i].1.avgRisk <= 100.0
  {
    var e := RiskByRegion(nodes)[i];
    var members := Seqs.Filter(nodes, InRegion(e.0));
    RiskByRegionMeaning(nodes, i);
    var risks := Seqs.Map(members, NodeRisk);
    forall j | 0 <= j < |risks| ensures 0.0 <= risks[j] <= 100.0 {
      assert members[j] in nodes;
    }
    Seqs.MeanBounds(risks, 100.0);
  }

  /** What `analyze_geographic_distribution` returns. */
  datatype Distribution = Distribution(
    regionDistribution: Tally,
    regionTypes: seq<(string, Tally)>,
    riskByRegion: seq<(string, RegionRisk)>)

  /** `analyze_geographic_distribution(nodes)`: one loop fills both counters. */
  method AnalyzeGeographicDistribution(nodes: seq<Node>) returns (g: Distribution)
    ensures g.regionDistribution == Grouping.TallySpec(nodes, RegionOf)
    ensures g.regionTypes == TypesSpec(nodes)
    ensures g.riskByRegion == RiskByRegion(nodes)
  {
    var counts: Tally := [];
    var types: seq<(string, Tally)> := [];
    var i := 0;
    while i < |nodes|
      invariant 0 <= i <= |nodes|
      invariant counts == Grouping.TallySpec(nodes[..i], RegionOf)
      invariant types == TypesSpec(nodes[..i])
    {
      assert nodes[..i + 1][..i] == nodes[..i];
      var node := nodes[i];
      var region := RegionOf(node);
      counts := Put(counts, region, Get(counts, region, 0) + 1);
      var inner := Get(types, region, []);
      types := Put(types, region, Put(inner, node.kind, Get(inner, node.kind, 0) + 1));
      i := i + 1;
    }
    assert nodes[..|nodes|] == nodes;
    var risk := CalculateRiskByRegion(nodes);
    g := Distribution(counts, types, risk);
  }

  /** The three tables agree: they list the same regions in the same order, a
      region is listed iff some node is in it, its count is its number of nodes,
      and its type table counts, per type, the nodes of that region. */
  lemma DistributionMeaning(nodes: seq<Node>, r: string, kind: string)
    ensures var counts := Grouping.TallySpec(nodes, RegionOf);
      Keys(TypesSpec(nodes)) == Keys(counts) && Keys(RiskByRegion(nodes)) == Keys(counts)
      && (r in Keys(counts) <==> exists j :: 0 <= j < |nodes| && RegionOf(nodes[j]) == r)
      && Get(counts, r, 0) == Seqs.Count(nodes, InRegion(r))
      && Get(Get(TypesSpec(nodes), r, []), kind, 0)
        == Seqs.Count(Seqs.Filter(nodes, InRegion(r)), Grouping.KeyIs(KindOf, kind))
  {
    TypesKeys(nodes);
    RiskByRegionKeys(nodes, r);
    Grouping.TallyGet(nodes, RegionOf, r);
    TypesOfRegion(nodes, r);
    Grouping.TallyGet(Seqs.Filter(nodes, InRegion(r)), KindOf, kind);
  }
}
