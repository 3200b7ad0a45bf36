/** `calculate_network_metrics` and `get_top_central_nodes` (backend/app.py):
    the net money flow per address, the degree centrality of every node, the
    most central nodes and the summary numbers of the network. */
module NetworkMetrics {
  import opened Wrappers
  import opened Entities
  import opened Dicts
  import Seqs
  import Sorting
  import NetworkGraph
  import Patterns
  import Gini

  /** A numeric dictionary keyed by address. */
  type Ledger = seq<(string, real)>

  /** `tx['target'] == w` */
  function ReceivedBy(w: string): Transaction -> bool
  {
    (tx: Transaction) => tx.target == w
  }

  /** `tx['source'] == w` */
  function SentBy(w: string): Transaction -> bool
  {
    (tx: Transaction) => tx.source == w
  }

  // ---------------------------------------------------------------- money flow

  /** One step of the loop over a `defaultdict(float)`: the source is debited,
      then the target is credited. */
  function ApplyTx(flow: Ledger, tx: Transaction): Ledger
  {
    var debited := Put(flow, tx.source, Get(flow, tx.source, 0.0) - tx.amount);
    Put(debited, tx.target, Get(debited, tx.target, 0.0) + tx.amount)
  }

  /** `money_flow` after the loop. */
  function FlowSpec(txs: seq<Transaction>): Ledger
  {
    if |txs| == 0 then [] else ApplyTx(FlowSpec(txs[..|txs| - 1]), txs[|txs| - 1])
  }

  method MoneyFlow(txs: seq<Transaction>) returns (flow: Ledger)
    ensures flow == FlowSpec(txs)
  {
    flow := [];
    var i := 0;
    while i < |txs|
      invariant 0 <= i <= |txs|
      invariant flow == FlowSpec(txs[..i])
    {
      assert txs[..i + 1][..i] == txs[..i];
      var tx := txs[i];
      flow := Put(flow, tx.source, Get(flow, tx.source, 0.0) - tx.amount);
      flow := Put(flow, tx.target, Get(flow, tx.target, 0.0) + tx.amount);
      i := i + 1;
    }
    assert txs[..|txs|] == txs;
  }

  /** One step keeps the keys distinct and the total unchanged. */
  lemma ApplyTxConserves(flow: Ledger, tx: Transaction)
    requires UniqueKeys(flow)
    ensures UniqueKeys(ApplyTx(flow, tx))
    ensures SumValues(ApplyTx(flow, tx)) == SumValues(flow)
  {
    var debit := Get(flow, tx.source, 0.0) - tx.amount;
    var debited := Put(flow, tx.source, debit);
    var credit := Get(debited, tx.target, 0.0) + tx.amount;
    SumValuesPut(flow, tx.source, debit);
    PutKeepsUnique(flow, tx.source, debit);
    SumValuesPut(debited, tx.target, credit);
    PutKeepsUnique(debited, tx.target, credit);
  }

  /** One step moves the amount from the source's entry to the target's. */
  lemma ApplyTxGet(flow: Ledger, tx: Transaction, w: string)
    ensures Get(ApplyTx(flow, tx), w, 0.0)
      == Get(flow, w, 0.0) + (if tx.target == w then tx.amount else 0.0) - (if tx.source == w then tx.amount else 0.0)
  {
    var debit := Get(flow, tx.source, 0.0) - tx.amount;
    var debited := Put(flow, tx.source, debit);
    var credit := Get(debited, tx.target, 0.0) + tx.amount;
    if w == tx.source {
      GetPutSame(flow, w, debit, 0.0);
    } else {
      GetPutOther(flow, tx.source, debit, w, 0.0);
    }
    if w == tx.target {
      GetPutSame(debited, w, credit, 0.0);
    } else {
      GetPutOther(debited, tx.target, credit, w, 0.0);
    }
  }

  /** Every amount is debited once and credited once, so the flows of all
      addresses add up to 0 (and the ledger is a dictionary: no key twice). */
  lemma {:induction false} FlowConserved(txs: seq<Transaction>)
    ensures UniqueKeys(FlowSpec(txs))
    ensures SumValues(FlowSpec(txs)) == 0.0
  {
    if |txs| > 0 {
      FlowConserved(txs[..|txs| - 1]);
      ApplyTxConserves(FlowSpec(txs[..|txs| - 1]), txs[|txs| - 1]);
    }
  }

  /** The flow of an address is what it received minus what it sent. */
  lemma {:induction false} FlowIsNet(txs: seq<Transaction>, w: string)
    ensures Get(FlowSpec(txs), w, 0.0)
      == Volume(Seqs.Filter(txs, ReceivedBy(w))) - Volume(Seqs.Filter(txs, SentBy(w)))
  {
    if |txs| > 0 {
      var n := |txs| - 1;
      FlowIsNet(txs[..n], w);
      ApplyTxGet(FlowSpec(txs[..n]), txs[n], w);
      VolumeOfFilterSnoc(txs, ReceivedBy(w));
      VolumeOfFilterSnoc(txs, SentBy(w));
    }
  }

  /** Filtering one more transaction adds its amount when it passes. */
  lemma VolumeOfFilterSnoc(txs: seq<Transaction>, p: Transaction -> bool)
    requires |txs| > 0
    ensures var n := |txs| - 1;
      Volume(Seqs.Filter(txs, p)) == Volume(Seqs.Filter(txs[..n], p)) + (if p(txs[n]) then txs[n].amount else 0.0)
  {
    var n := |txs| - 1;
    Seqs.FilterSnoc(txs, n, p);
    assert txs[..n + 1] == txs;
    var last := if p(txs[n]) then [txs[n]] else [];
    VolumeAppend(Seqs.Filter(txs[..n], p), last);
    if p(txs[n]) {
      assert last[..0] == [];
    }
  }

  /** The addresses with a flow entry are exactly those that sent or received. */
  lemma {:induction false} FlowKeys(txs: seq<Transaction>, w: string)
    ensures w in Keys(FlowSpec(txs)) <==> exists i :: 0 <= i < |txs| && (txs[i].source == w || txs[i].target == w)
  {
    if |txs| > 0 {
      var n := |txs| - 1;
      var pre := txs[..n];
      var g := FlowSpec(pre);
      var tx := txs[n];
      FlowKeys(pre, w);
      var debited := Put(g, tx.source, Get(g, tx.source, 0.0) - tx.amount);
      KeysAfterPut(g, tx.source, Get(g, tx.source, 0.0) - tx.amount, w);
      KeysAfterPut(debited, tx.target, Get(debited, tx.target, 0.0) + tx.amount, w);
      EndpointSnoc(txs, pre, w);
    }
  }

  lemma EndpointSnoc(txs: seq<Transaction>, pre: seq<Transaction>, w: string)
    requires |txs| > 0 && pre == txs[..|txs| - 1]
    ensures (exists i :: 0 <= i < |txs| && (txs[i].source == w || txs[i].target == w))
      <==> (txs[|txs| - 1].source == w || txs[|txs| - 1].target == w
        || exists i :: 0 <= i < |pre| && (pre[i].source == w || pre[i].target == w))
  {
    if exists i :: 0 <= i < |txs| && (txs[i].source == w || txs[i].target == w) {
      var i :| 0 <= i < |txs| && (txs[i].source == w || txs[i].target == w);
      if i < |pre| {
        assert pre[i] == txs[i];
      }
    }
    if exists i :: 0 <= i < |pre| && (pre[i].source == w || pre[i].target == w) {
      var i :| 0 <= i < |pre| && (pre[i].source == w || pre[i].target == w);
      assert txs[i] == pre[i];
    }
  }

  // -------------------------------------------------------- degree centrality

  /** `in_degree + out_degree` */
  function Degree(txs: seq<Transaction>, id: string): (d: nat)
    ensures d <= 2 * |txs|
  {
    Seqs.Count(txs, ReceivedBy(id)) + Seqs.Count(txs, SentBy(id))
  }

  /** `(in_degree + out_degree) / len(transactions) if transactions else 0` */
  function Centrality(txs: seq<Transaction>, id: string): (c: real)
    ensures 0.0 <= c <= 2.0
    ensures |txs| == 0 ==> c == 0.0
  {
    if |txs| > 0 then
      RatioAtMostTwo(Degree(txs, id), |txs|);
      Degree(txs, id) as real / |txs| as real
    else 0.0
  }

  lemma RatioAtMostTwo(a: nat, b: nat)
    requires 0 < b && a <= 2 * b
    ensures 0.0 <= a as real / b as real <= 2.0
  {
    assert a as real <= 2.0 * b as real;
  }

  /** `degree_centrality` after the loop over the nodes. */
  function CentralitySpec(txs: seq<Transaction>, nodes: seq<Node>): Ledger
  {
    if |nodes| == 0 then []
    else
      var id := nodes[|nodes| - 1].id;
      Put(CentralitySpec(txs, nodes[..|nodes| - 1]), id, Centrality(txs, id))
  }

  method DegreeCentrality(txs: seq<Transaction>, nodes: seq<Node>) returns (centrality: Ledger)
    ensures centrality == CentralitySpec(txs, nodes)
  {
    centrality := [];
    var i := 0;
    while i < |nodes|
      invariant 0 <= i <= |nodes|
      invariant centrality == CentralitySpec(txs, nodes[..i])
    {
      assert nodes[..i + 1][..i] == nodes[..i];
      var nodeId := nodes[i].id;
      var inDegree := Seqs.Count(txs, ReceivedBy(nodeId));
      var outDegree := Seqs.Count(txs, SentBy(nodeId));
      var value := if |txs| > 0 then (inDegree + outDegree) as real / |txs| as real else 0.0;
      centrality := Put(centrality, nodeId, value);
      i := i + 1;
    }
    assert nodes[..|nodes|] == nodes;
  }

  /** Every node's entry is its centrality (a repeated id is written twice with
      the same value). */
  lemma {:induction false} CentralityGet(txs: seq<Transaction>, nodes: seq<Node>, i: nat)
    requires i < |nodes|
    ensures Get(CentralitySpec(txs, nodes), nodes[i].id, 0.0) == Centrality(txs, nodes[i].id)
  {
    var n := |nodes| - 1;
    var pre := CentralitySpec(txs, nodes[..n]);
    var id := nodes[n].id;
    if id == nodes[i].id {
      GetPutSame(pre, id, Centrality(txs, id), 0.0);
    } else {
      GetPutOther(pre, id, Centrality(txs, id), nodes[i].id, 0.0);
      CentralityGet(txs, nodes[..n], i);
    }
  }

  /** The keys are exactly the node ids. */
  lemma {:induction false} CentralityKeys(txs: seq<Transaction>, nodes: seq<Node>, k: string)
    ensures k in Keys(CentralitySpec(txs, nodes)) <==> exists i :: 0 <= i < |nodes| && nodes[i].id == k
  {
    if |nodes| > 0 {
      var n := |nodes| - 1;
      var pre := nodes[..n];
      CentralityKeys(txs, pre, k);
      KeysAfterPut(CentralitySpec(txs, pre), nodes[n].id, Centrality(txs, nodes[n].id), k);
      if exists i :: 0 <= i < |nodes| && nodes[i].id == k {
        var i :| 0 <= i < |nodes| && nodes[i].id == k;
        if i < n {
          assert pre[i].id == k;
        }
      }
      if exists i :: 0 <= i < |pre| && pre[i].id == k {
        var i :| 0 <= i < |pre| && pre[i].id == k;
        assert nodes[i].id == k;
      }
    }
  }

  lemma {:induction false} CentralityUnique(txs: seq<Transaction>, nodes: seq<Node>)
    ensures UniqueKeys(CentralitySpec(txs, nodes))
  {
    if |nodes| > 0 {
      var n := |nodes| - 1;
      CentralityUnique(txs, nodes[..n]);
      PutKeepsUnique(CentralitySpec(txs, nodes[..n]), nodes[n].id, Centrality(txs, nodes[n].id));
    }
  }

  // ----------------------------------------------------------- top central

  /** One entry of `get_top_central_nodes` (the centrality is not rounded). */
  datatype CentralNode = CentralNode(id: string, name: string, centrality: real, kind: string)

  /** The sort key of `reverse=True` on the value. */
  function Descending(item: (string, real)): real
  {
    -item.1
  }

  /** `next((n for n in nodes if n['id'] == node_id), None)`, then the entry when
      a node was found. */
  function EntryFor(nodes: seq<Node>): ((string, real)) -> Option<CentralNode>
  {
    (item: (string, real)) =>
      match NetworkGraph.FindNode(nodes, item.0)
      case None => None
      case Some(k) => Some(CentralNode(item.0, nodes[k].name, item.1, nodes[k].kind))
  }

  lemma EntryForMeaning(nodes: seq<Node>, item: (string, real))
    ensures var e := EntryFor(nodes)(item);
      (e.Some? <==> exists k :: 0 <= k < |nodes| && nodes[k].id == item.0)
      && (e.Some? ==>
        e.value.id == item.0 && e.value.centrality == item.1
        && exists k :: 0 <= k < |nodes| && nodes[k].id == item.0 && nodes[k].name == e.value.name && nodes[k].kind == e.value.kind)
  {
    var f := NetworkGraph.FindNode(nodes, item.0);
    if f.Some? {
      var k := f.value;
      assert nodes[k].id == item.0;
    }
  }

  /** `get_top_central_nodes(centrality_dict, nodes, top_n)`: the `top_n` largest
      values, largest first, keeping those whose id is a node. */
  function TopCentral(centrality: Ledger, nodes: seq<Node>, topN: nat): seq<CentralNode>
  {
    Seqs.Collect(Seqs.Take(Sorting.SortBy(centrality, Descending), topN), EntryFor(nodes))
  }

  /** At most `top_n` entries, in non-increasing order of centrality, each naming
      a node and carrying that key's value from the dictionary; an entry naming
      a node that is not listed is no larger than any listed one. */
  lemma TopCentralMeaning(centrality: Ledger, nodes: seq<Node>, topN: nat)
    ensures var r := TopCentral(centrality, nodes, topN);
      |r| <= topN && |r| <= |centrality|
      && (forall i, j :: 0 <= i < j < |r| ==> r[i].centrality >= r[j].centrality)
      && forall i :: 0 <= i < |r| ==>
        (r[i].id, r[i].centrality) in centrality
        && exists k :: 0 <= k < |nodes| && nodes[k].id == r[i].id
    ensures var r := TopCentral(centrality, nodes, topN);
      forall x, k :: x in centrality && 0 <= k < |nodes| && nodes[k].id == x.0 ==>
        (exists i :: 0 <= i < |r| && r[i].id == x.0 && r[i].centrality == x.1)
        || forall i :: 0 <= i < |r| ==> x.1 <= r[i].centrality
  {
    TopCentralUnlisted(centrality, nodes, topN);
    var sorted := Sorting.SortBy(centrality, Descending);
    var top := Seqs.Take(sorted, topN);
    var r := TopCentral(centrality, nodes, topN);
    forall i, j | 0 <= i < j < |r| ensures r[i].centrality >= r[j].centrality {
      Seqs.CollectOrdered(top, EntryFor(nodes), i, j);
      var a, b :| 0 <= a < b < |top| && EntryFor(nodes)(top[a]) == Some(r[i]) && EntryFor(nodes)(top[b]) == Some(r[j]);
      EntryForMeaning(nodes, top[a]);
      EntryForMeaning(nodes, top[b]);
      assert top[a] == sorted[a] && top[b] == sorted[b];
      assert Descending(sorted[a]) <= Descending(sorted[b]);
    }
    forall i | 0 <= i < |r|
      ensures (r[i].id, r[i].centrality) in centrality
      ensures exists k :: 0 <= k < |nodes| && nodes[k].id == r[i].id
    {
      Seqs.CollectOrigin(top, EntryFor(nodes), i);
      var a :| 0 <= a < |top| && EntryFor(nodes)(top[a]) == Some(r[i]);
      EntryForMeaning(nodes, top[a]);
      assert top[a] == sorted[a];
      Sorting.SortedElementFromInput(centrality, Descending, a);
      assert top[a] == (r[i].id, r[i].centrality);
    }
  }

  lemma TopCentralUnlisted(centrality: Ledger, nodes: seq<Node>, topN: nat)
    ensures var r := TopCentral(centrality, nodes, topN);
      forall x, k :: x in centrality && 0 <= k < |nodes| && nodes[k].id == x.0 ==>
        (exists i :: 0 <= i < |r| && r[i].id == x.0 && r[i].centrality == x.1)
        || forall i :: 0 <= i < |r| ==> x.1 <= r[i].centrality
  {
    var r := TopCentral(centrality, nodes, topN);
    forall x, k | x in centrality && 0 <= k < |nodes| && nodes[k].id == x.0
      ensures (exists i :: 0 <= i < |r| && r[i].id == x.0 && r[i].centrality == x.1)
        || forall i :: 0 <= i < |r| ==> x.1 <= r[i].centrality
    {
      TopCentralLeftOut(centrality, nodes, topN, x, k);
    }
  }

  /** An entry naming a node is listed unless every listed entry is at least as large. */
  lemma TopCentralLeftOut(centrality: Ledger, nodes: seq<Node>, topN: nat, x: (string, real), k: nat)
    requires x in centrality && k < |nodes| && nodes[k].id == x.0
    ensures var r := TopCentral(centrality, nodes, topN);
      (exists i :: 0 <= i < |r| && r[i].id == x.0 && r[i].centrality == x.1)
      || forall i :: 0 <= i < |r| ==> x.1 <= r[i].centrality
  {
    var sorted := Sorting.SortBy(centrality, Descending);
    var top := Seqs.Take(sorted, topN);
    var r := TopCentral(centrality, nodes, topN);
    Sorting.SortedPrefixLeast(centrality, Descending, |top|, x);
    EntryForMeaning(nodes, x);
    if x in top {
      var j :| 0 <= j < |top| && top[j] == x;
      var e := EntryFor(nodes)(x).value;
      Seqs.CollectMember(top, EntryFor(nodes), e);
      var i :| 0 <= i < |r| && r[i] == e;
    } else {
      forall i | 0 <= i < |r| ensures x.1 <= r[i].centrality {
        Seqs.CollectOrigin(top, EntryFor(nodes), i);
        var a :| 0 <= a < |top| && EntryFor(nodes)(top[a]) == Some(r[i]);
        EntryForMeaning(nodes, top[a]);
        assert top[a] == sorted[a];
        assert Descending(sorted[a]) <= Descending(x);
      }
    }
  }


  // ------------------------------------------------------------- the summary

  /** The dictionary `calculate_network_metrics` returns. */
  datatype Metrics = Metrics(
    totalNodes: nat,
    totalEdges: nat,
    totalVolume: real,
    avgTransactionValue: real,
    networkDensity: real,
    clusteringCoefficient: real,
    giniCoefficient: real,
    topCentralNodes: seq<CentralNode>,
    moneyFlowAnalysis: Ledger,
    suspiciousPatterns: Patterns.Patterns)

  /** `total_volume / len(transactions) if transactions else 0` */
  function AverageValue(txs: seq<Transaction>): (avg: real)
    ensures |txs| == 0 ==> avg == 0.0
    ensures |txs| > 0 ==> avg * |txs| as real == Volume(txs)
  {
    if |txs| > 0 then Volume(txs) / |txs| as real else 0.0
  }

  /** `len(transactions) / (len(nodes) * (len(nodes) - 1)) if len(nodes) > 1 else 0`:
      the edge count over the number of ordered node pairs. */
  function Density(nodeCount: nat, edgeCount: nat): (d: real)
    ensures nodeCount <= 1 ==> d == 0.0
    ensures nodeCount > 1 ==> d >= 0.0 && d * (nodeCount * (nodeCount - 1)) as real == edgeCount as real
  {
    if nodeCount > 1 then
      PairsPositive(nodeCount);
      edgeCount as real / (nodeCount * (nodeCount - 1)) as real
    else 0.0
  }

  lemma PairsPositive(n: nat)
    requires n > 1
    ensures n * (n - 1) > 0
  {
  }

  /** `calculate_network_metrics(nodes, transactions)`. The clustering
      coefficient is a random draw in the source and is passed in. */
  method CalculateNetworkMetrics(nodes: seq<Node>, txs: seq<Transaction>, clustering: real) returns (m: Metrics)
    ensures m.totalNodes == |nodes| && m.totalEdges == |txs|
    ensures m.totalVolume == Volume(txs) && m.avgTransactionValue == AverageValue(txs)
    ensures m.networkDensity == Density(|nodes|, |txs|)
    ensures m.clusteringCoefficient == clustering
    ensures m.moneyFlowAnalysis == FlowSpec(txs) && SumValues(m.moneyFlowAnalysis) == 0.0
    ensures m.giniCoefficient == if |m.moneyFlowAnalysis| > 0 then Gini.GiniSpec(Values(m.moneyFlowAnalysis)) else 0.0
    ensures m.topCentralNodes == TopCentral(CentralitySpec(txs, nodes), nodes, 3)
    ensures m.suspiciousPatterns == Patterns.PatternsSpec(txs, nodes)
  {
    var totalVolume := Volume(txs);
    var avg := AverageValue(txs);
    var flow := MoneyFlow(txs);
    FlowConserved(txs);
    var balances := Values(flow);
    var gini := 0.0;
    if |balances| > 0 {
      gini := Gini.CalculateGini(balances);
    }
    var centrality := DegreeCentrality(txs, nodes);
    var top := TopCentral(centrality, nodes, 3);
    var patterns := Patterns.DetectSuspiciousPatterns(txs, nodes);
    m := Metrics(|nodes|, |txs|, totalVolume, avg, Density(|nodes|, |txs|), clustering, gini, top, flow, patterns);
  }
}
