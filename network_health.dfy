/** `calculate_network_health` (backend/app.py): a 0-100 score, half from the
    share of unflagged transactions and half from the mean node reputation, and
    a three-way level read off it (a high score is a low risk). The backend
    divides by the number of transactions and by the number of nodes, so an
    empty side raises. */
module NetworkHealth {
  import opened Wrappers
  import opened Entities
  import Seqs
  import RiskAnalysis

  /** `sum(1 for tx in transactions if tx.get('isFlagged', False)) / len(transactions)` */
  function FlaggedRatio(txs: seq<Transaction>): real
    requires |txs| > 0
  {
    Seqs.Count(txs, Flagged) as real / |txs| as real
  }

  /** `sum(node.get('reputation', 0.5) for node in nodes) / len(nodes)` */
  function AverageReputation(nodes: seq<Node>): real
    requires |nodes| > 0
  {
    Seqs.Sum(Seqs.Map(nodes, RiskAnalysis.Reputation)) / |nodes| as real
  }

  /** `(1 - flagged_ratio) * 50 + avg_reputation * 50` */
  function HealthScore(flaggedRatio: real, avgReputation: real): real
  {
    (1.0 - flaggedRatio) * 50.0 + avgReputation * 50.0
  }

  /** `'LOW'` above 70, `'MEDIUM'` above 40, else `'HIGH'`. */
  function HealthLevel(score: real): RiskAnalysis.RiskLevel
  {
    if score > 70.0 then RiskAnalysis.Low
    else if score > 40.0 then RiskAnalysis.Medium
    else RiskAnalysis.High
  }

  datatype Health = Health(healthScore: real, flaggedRatio: real, avgReputation: real, riskLevel: RiskAnalysis.RiskLevel)

  /** `calculate_network_health(data)`; the flagged ratio is reported as a
      percentage. Both divisions are integer-by-integer when their side is
      empty, which raises `ZeroDivisionError('division by zero')`. */
  function CalculateNetworkHealth(data: Dataset): (r: Result<Health, string>)
    ensures r.Failure? <==> |data.transactions| == 0 || |data.nodes| == 0
    ensures r.Failure? ==> r.error == "division by zero"
  {
    var txs, nodes := data.transactions, data.nodes;
    if |txs| == 0 || |nodes| == 0 then Failure("division by zero")
    else
      var fr := FlaggedRatio(txs);
      var avg := AverageReputation(nodes);
      var score := HealthScore(fr, avg);
      Success(Health(score, fr * 100.0, avg, HealthLevel(score)))
  }

  /** The flagged ratio is a fraction: 0 exactly when nothing is flagged and 1
      exactly when everything is. */
  lemma FlaggedRatioBounds(txs: seq<Transaction>)
    requires |txs| > 0
    ensures 0.0 <= FlaggedRatio(txs) <= 1.0
    ensures FlaggedRatio(txs) == 0.0 <==> forall i :: 0 <= i < |txs| ==> !txs[i].isFlagged
    ensures FlaggedRatio(txs) == 1.0 <==> forall i :: 0 <= i < |txs| ==> txs[i].isFlagged
  {
    var f := Seqs.Filter(txs, Flagged);
    RatioFacts(|f|, |txs|);
    if forall i :: 0 <= i < |txs| ==> !txs[i].isFlagged {
      Seqs.FilterNonePass(txs, Flagged);
    }
    if |f| == 0 {
      forall i | 0 <= i < |txs| ensures !txs[i].isFlagged {
        if txs[i].isFlagged {
          assert false;
        }
      }
    }
    if forall i :: 0 <= i < |txs| ==> txs[i].isFlagged {
      Seqs.FilterAllPass(txs, Flagged);
    }
    if |f| == |txs| {
      AllKept(txs, Flagged);
    }
  }

  /** A count out of `n` over `n` is a fraction, 0 or 1 only at the ends. */
  lemma RatioFacts(c: int, n: int)
    requires 0 <= c <= n && n > 0
    ensures var q := c as real / n as real;
      0.0 <= q <= 1.0 && (q == 0.0 <==> c == 0) && (q == 1.0 <==> c == n)
  {
    var q := c as real / n as real;
    assert q * n as real == c as real;
  }

  /** A filter that keeps as many elements as there are keeps them all. */
  lemma {:induction false} AllKept<T>(s: seq<T>, p: T -> bool)
    requires |Seqs.Filter(s, p)| == |s|
    ensures forall i :: 0 <= i < |s| ==> p(s[i])
  {
    if |s| > 0 {
      assert Seqs.Filter(s, p) == (if p(s[0]) then [s[0]] else []) + Seqs.Filter(s[1..], p);
      assert |Seqs.Filter(s[1..], p)| <= |s[1..]|;
      AllKept(s[1..], p);
      assert forall i :: 1 <= i < |s| ==> s[i] == s[1..][i - 1];
    }
  }

  /** With reputations in [0, 1] the mean reputation lies in [0, 1]. */
  lemma AverageReputationBounds(nodes: seq<Node>)
    requires |nodes| > 0
    requires forall j :: 0 <= j < |nodes| ==> 0.0 <= RiskAnalysis.Reputation(nodes[j]) <= 1.0
    ensures 0.0 <= AverageReputation(nodes) <= 1.0
  {
    var s := Seqs.Map(nodes, RiskAnalysis.Reputation);
    Seqs.MeanBounds(s, 1.0);
  }

  /** With reputations in [0, 1] the score lies in [0, 100] and the reported
      flagged percentage in [0, 100]. */
  lemma HealthBounds(data: Dataset)
    requires forall j :: 0 <= j < |data.nodes| ==> 0.0 <= RiskAnalysis.Reputation(data.nodes[j]) <= 1.0
    ensures var r := CalculateNetworkHealth(data);
      r.Success? ==>
        0.0 <= r.value.healthScore <= 100.0 && 0.0 <= r.value.flaggedRatio <= 100.0
        && 0.0 <= r.value.avgReputation <= 1.0
  {
    if |data.transactions| > 0 && |data.nodes| > 0 {
      FlaggedRatioBounds(data.transactions);
      AverageReputationBounds(data.nodes);
    }
  }

  /** More flagged transactions never raise the score, better reputation never
      lowers it. */
  lemma HealthScoreMonotone(fr1: real, fr2: real, avg1: real, avg2: real)
    requires fr1 <= fr2 && avg2 <= avg1
    ensures HealthScore(fr2, avg2) <= HealthScore(fr1, avg1)
  {
  }

  /** The level is a step function of the score: a higher score never means a
      higher risk. */
  lemma HealthLevelMonotone(s1: real, s2: real)
    requires s1 <= s2
    ensures HealthLevel(s2) == RiskAnalysis.High ==> HealthLevel(s1) == RiskAnalysis.High
    ensures HealthLevel(s1) == RiskAnalysis.Low ==> HealthLevel(s2) == RiskAnalysis.Low
  {
  }

  /** A network with nothing flagged is low-risk exactly when its mean
      reputation is above 0.4; one with everything flagged scores at most 50
      and is never low-risk. */
  lemma HealthExtremes(data: Dataset)
    requires |data.transactions| > 0 && |data.nodes| > 0
    requires forall j :: 0 <= j < |data.nodes| ==> 0.0 <= RiskAnalysis.Reputation(data.nodes[j]) <= 1.0
    ensures var r := CalculateNetworkHealth(data);
      r.Success?
      && ((forall i :: 0 <= i < |data.transactions| ==> !data.transactions[i].isFlagged) ==>
            (r.value.riskLevel == RiskAnalysis.Low <==> r.value.avgReputation > 0.4))
      && ((forall i :: 0 <= i < |data.transactions| ==> data.transactions[i].isFlagged) ==>
            r.value.healthScore <= 50.0 && r.value.riskLevel != RiskAnalysis.Low)
  {
    FlaggedRatioBounds(data.transactions);
    AverageReputationBounds(data.nodes);
  }
}
