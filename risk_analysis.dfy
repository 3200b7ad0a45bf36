/** The scoring body of `analyze_risk` and `generate_risk_recommendations`
    (backend/app.py): an additive score over fixed factor weights, capped at 100,
    a three-way level, and recommendations per level. The address is looked up
    among the nodes first; an unknown address is an error. */
module RiskAnalysis {
  import opened Wrappers
  import opened Entities
  import Seqs
  import Text
  import NetworkGraph
  import Patterns

  /** `node_info.get('reputation', 0.5)` */
  function Reputation(node: Node): real
  {
    if node.reputation.Some? then node.reputation.value else 0.5
  }

  function ReputationWeight(rep: real): nat
  {
    if rep < 0.3 then 40 else if rep < 0.6 then 20 else 0
  }

  /** `node_info['type'] in ['unknown', 'mixer', 'phishing']` */
  predicate HighRiskKind(kind: string)
  {
    kind == "unknown" || kind == "mixer" || kind == "phishing"
  }

  function KindWeight(kind: string): nat
  {
    if HighRiskKind(kind) then 50 else 0
  }

  function BlacklistWeight(address: string): nat
  {
    if address in Patterns.Blacklisted then 60 else 0
  }

  function Involves(address: string): Transaction -> bool
  {
    (tx: Transaction) => tx.source == address || tx.target == address
  }

  /** `addr_transactions`: the transactions sent or received by the address. */
  function AddressTransactions(txs: seq<Transaction>, address: string): seq<Transaction>
  {
    Seqs.Filter(txs, Involves(address))
  }

  /** `tx['amount'] > ALERT_THRESHOLDS['large_transaction']` (strictly above,
      unlike the pattern rule). */
  predicate AboveLarge(tx: Transaction)
  {
    tx.amount > Patterns.LargeTransaction
  }

  /** The uncapped score: the sum of the five factor weights. */
  function RawScore(node: Node, address: string, addrTxs: seq<Transaction>): nat
  {
    ReputationWeight(Reputation(node)) + KindWeight(node.kind) + BlacklistWeight(address)
    + 10 * Seqs.Count(addrTxs, AboveLarge) + 15 * Seqs.Count(addrTxs, Flagged)
  }

  /** `min(risk_score, 100)` */
  function Cap(score: nat): nat
  {
    if score < 100 then score else 100
  }

  function ReputationFactor(rep: real): seq<string>
  {
    if rep < 0.3 then ["Low reputation score"] else if rep < 0.6 then ["Medium reputation score"] else []
  }

  function KindFactor(kind: string): seq<string>
  {
    if HighRiskKind(kind) then ["High-risk node type: " + kind] else []
  }

  function BlacklistFactor(address: string): seq<string>
  {
    if address in Patterns.Blacklisted then ["Blacklisted address: " + Patterns.Blacklisted[address].kind] else []
  }

  /** `f'{n} high-value transactions'` and `f'{n} flagged transactions'`, only
      when `n > 0`. */
  function CountFactor(n: nat, what: string): seq<string>
  {
    if n > 0 then [Text.NatToString(n) + what] else []
  }

  /** The factor messages of the triggered factors, in the order they are checked. */
  function Factors(node: Node, address: string, addrTxs: seq<Transaction>): seq<string>
  {
    ReputationFactor(Reputation(node)) + KindFactor(node.kind) + BlacklistFactor(address)
    + CountFactor(Seqs.Count(addrTxs, AboveLarge), " high-value transactions")
    + CountFactor(Seqs.Count(addrTxs, Flagged), " flagged transactions")
  }

  /** The `risk_score +=` / `risk_factors.append` sequence. */
  method ScoreAddress(node: Node, address: string, addrTxs: seq<Transaction>) returns (score: nat, factors: seq<string>)
    ensures score == Cap(RawScore(node, address, addrTxs))
    ensures factors == Factors(node, address, addrTxs)
  {
    score := 0;
    factors := [];
    var reputation := Reputation(node);
    if reputation < 0.3 {
      score := score + 40;
      factors := factors + ["Low reputation score"];
    } else if reputation < 0.6 {
      score := score + 20;
      factors := factors + ["Medium reputation score"];
    }
    assert score == ReputationWeight(reputation) && factors == ReputationFactor(reputation);
    if HighRiskKind(node.kind) {
      score := score + 50;
      factors := factors + ["High-risk node type: " + node.kind];
    }
    assert score == ReputationWeight(reputation) + KindWeight(node.kind);
    assert factors == ReputationFactor(reputation) + KindFactor(node.kind);
    if address in Patterns.Blacklisted {
      score := score + 60;
      factors := factors + ["Blacklisted address: " + Patterns.Blacklisted[address].kind];
    }
    ghost var s3, f3 := score, factors;
    assert s3 == ReputationWeight(reputation) + KindWeight(node.kind) + BlacklistWeight(address);
    assert f3 == ReputationFactor(reputation) + KindFactor(node.kind) + BlacklistFactor(address);
    var highValue := Seqs.Filter(addrTxs, AboveLarge);
    if |highValue| > 0 {
      score := score + |highValue| * 10;
      factors := factors + [Text.NatToString(|highValue|) + " high-value transactions"];
    }
    ghost var s4, f4 := score, factors;
    assert s4 == s3 + 10 * |highValue| && f4 == f3 + CountFactor(|highValue|, " high-value transactions");
    var flagged := Seqs.Filter(addrTxs, Flagged);
    if |flagged| > 0 {
      score := score + |flagged| * 15;
      factors := factors + [Text.NatToString(|flagged|) + " flagged transactions"];
    }
    assert score == s4 + 15 * |flagged| && factors == f4 + CountFactor(|flagged|, " flagged transactions");
    score := if score < 100 then score else 100;
  }

  datatype RiskLevel = High | Medium | Low

  /** `'HIGH'` from 70, `'MEDIUM'` from 40, else `'LOW'`. */
  function Level(score: int): RiskLevel
  {
    if score >= 70 then High else if score >= 40 then Medium else Low
  }

  function LevelName(level: RiskLevel): string
  {
    match level
    case High => "HIGH"
    case Medium => "MEDIUM"
    case Low => "LOW"
  }

  /** `risk_color` per level. */
  function LevelColor(level: RiskLevel): string
  {
    match level
    case High => "#ef4444"
    case Medium => "#f59e0b"
    case Low => "#10b981"
  }

  /** `generate_risk_recommendations(risk_score, risk_factors)`; the factors are
      not consulted. */
  function Recommendations(score: int): seq<string>
  {
    if score >= 70 then
      ["Evitar cualquier transacción con esta dirección", "Reportar actividad sospechosa a las autoridades",
       "Implementar monitoreo continuo", "Considerar congelar fondos relacionados"]
    else if score >= 40 then
      ["Realizar due diligence adicional", "Implementar límites de transacción",
       "Monitorear actividad futura", "Requerir documentación adicional"]
    else
      ["Continuar monitoreo rutinario", "Mantener registros de transacciones", "Revisar periódicamente"]
  }

  datatype TxSummary = TxSummary(total: nat, flagged: nat, highValue: nat, totalVolume: real)

  datatype RiskReport = RiskReport(
    address: string,
    riskScore: nat,
    riskLevel: RiskLevel,
    riskColor: string,
    riskFactors: seq<string>,
    nodeInfo: Node,
    summary: TxSummary,
    recommendations: seq<string>)

  /** The report for an address whose node is `node`. */
  function ReportFor(txs: seq<Transaction>, node: Node, address: string): RiskReport
  {
    var addrTxs := AddressTransactions(txs, address);
    var score := Cap(RawScore(node, address, addrTxs));
    RiskReport(address, score, Level(score), LevelColor(Level(score)), Factors(node, address, addrTxs), node,
      TxSummary(|addrTxs|, Seqs.Count(addrTxs, Flagged), Seqs.Count(addrTxs, AboveLarge), Volume(addrTxs)),
      Recommendations(score))
  }

  /** `analyze_risk` for `address`: the first node with that id is scored; with
      no such node the answer is the 404 error. */
  method AnalyzeRisk(txs: seq<Transaction>, nodes: seq<Node>, address: string) returns (r: Result<RiskReport, string>)
    ensures r.Failure? <==> forall i :: 0 <= i < |nodes| ==> nodes[i].id != address
    ensures r.Failure? ==> r.error == "Address not found"
    ensures r.Success? ==>
      var k := NetworkGraph.FindNode(nodes, address);
      k.Some? && r.value == ReportFor(txs, nodes[k.value], address)
  {
    var k := NetworkGraph.FindNode(nodes, address);
    if k.None? {
      return Failure("Address not found");
    }
    var node := nodes[k.value];
    var addrTxs := AddressTransactions(txs, address);
    var score, factors := ScoreAddress(node, address, addrTxs);
    var flagged := Seqs.Filter(addrTxs, Flagged);
    var highValue := Seqs.Filter(addrTxs, AboveLarge);
    var level := Level(score);
    var color := LevelColor(level);
    r := Success(RiskReport(address, score, level, color, factors, node,
      TxSummary(|addrTxs|, |flagged|, |highValue|, Volume(addrTxs)), Recommendations(score)));
  }

  /** The score lies in [0, 100]; below the cap it is exactly the sum of the
      factor weights. */
  lemma ScoreBounds(txs: seq<Transaction>, node: Node, address: string)
    ensures var r := ReportFor(txs, node, address);
      var raw := RawScore(node, address, AddressTransactions(txs, address));
      0 <= r.riskScore <= 100
      && (raw <= 100 ==> r.riskScore == raw)
      && (raw > 100 ==> r.riskScore == 100)
  {
  }

  /** Each factor alone sets a floor under the score: 60 for a blacklisted
      address, 50 for an unknown, mixer or phishing node, 40 for a reputation
      below 0.3; a blacklisted high-risk node always scores 100. */
  lemma ScoreFloors(txs: seq<Transaction>, node: Node, address: string)
    ensures var s := ReportFor(txs, node, address).riskScore;
      (address in Patterns.Blacklisted ==> s >= 60)
      && (HighRiskKind(node.kind) ==> s >= 50)
      && (Reputation(node) < 0.3 ==> s >= 40)
      && (address in Patterns.Blacklisted && HighRiskKind(node.kind) ==> s == 100)
  {
    var a := AddressTransactions(txs, address);
    CapFloors(RawScore(node, address, a), BlacklistWeight(address), KindWeight(node.kind), ReputationWeight(Reputation(node)));
  }

  lemma CapFloors(raw: nat, blacklist: nat, kind: nat, rep: nat)
    requires blacklist + kind + rep <= raw
    ensures blacklist >= 60 ==> Cap(raw) >= 60
    ensures kind >= 50 ==> Cap(raw) >= 50
    ensures rep >= 40 ==> Cap(raw) >= 40
    ensures blacklist + kind >= 100 ==> Cap(raw) == 100
  {
  }

  /** A node with reputation at least 0.6, of an ordinary kind, not blacklisted,
      and with no large or flagged transaction scores 0 and is LOW. */
  lemma CleanAddress(txs: seq<Transaction>, node: Node, address: string)
    requires Reputation(node) >= 0.6 && !HighRiskKind(node.kind) && address !in Patterns.Blacklisted
    requires forall i :: 0 <= i < |txs| && Involves(address)(txs[i]) ==> !AboveLarge(txs[i]) && !Flagged(txs[i])
    ensures var r := ReportFor(txs, node, address);
      r.riskScore == 0 && r.riskLevel == Low && r.riskFactors == [] && |r.recommendations| == 3
  {
    var a := AddressTransactions(txs, address);
    Seqs.FilterNonePass(a, AboveLarge);
    Seqs.FilterNonePass(a, Flagged);
  }

  /** More large or flagged transactions for the same node never lower the score. */
  lemma ScoreMonotone(node: Node, address: string, a: seq<Transaction>, b: seq<Transaction>)
    requires Seqs.Count(a, AboveLarge) <= Seqs.Count(b, AboveLarge)
    requires Seqs.Count(a, Flagged) <= Seqs.Count(b, Flagged)
    ensures Cap(RawScore(node, address, a)) <= Cap(RawScore(node, address, b))
  {
  }

  /** The level follows the thresholds 70 and 40. */
  lemma LevelThresholds(score: int)
    ensures Level(score) == High <==> score >= 70
    ensures Level(score) == Medium <==> 40 <= score < 70
    ensures Level(score) == Low <==> score < 40
  {
  }

  /** The recommendations come in tiers of 4, 4 and 3 on the level's thresholds,
      and the high tier starts by advising against any transaction. */
  lemma RecommendationTiers(score: int)
    ensures |Recommendations(score)| == (if Level(score) == Low then 3 else 4)
    ensures Level(score) == High ==> Recommendations(score)[0] == "Evitar cualquier transacción con esta dirección"
  {
  }

  /** The summary counts the address's transactions: all of them involve it,
      every ledger transaction involving it is counted, flagged and high-value
      ones are among them, and the volume is theirs. */
  lemma SummaryMeaning(txs: seq<Transaction>, node: Node, address: string)
    ensures var r := ReportFor(txs, node, address);
      var a := AddressTransactions(txs, address);
      r.summary.total == |a| && r.summary.flagged <= r.summary.total && r.summary.highValue <= r.summary.total
      && r.summary.totalVolume == Volume(a)
      && (forall i :: 0 <= i < |a| ==> a[i] in txs && (a[i].source == address || a[i].target == address))
      && (forall i :: 0 <= i < |txs| && (txs[i].source == address || txs[i].target == address) ==> txs[i] in a)
  {
    var a := AddressTransactions(txs, address);
    forall i | 0 <= i < |txs| && (txs[i].source == address || txs[i].target == address) ensures txs[i] in a {
      assert Involves(address)(txs[i]);
    }
  }

  /** One factor message per triggered factor: the blacklist message names the
      listed type, and there are never more than five. */
  lemma FactorsMeaning(node: Node, address: string, addrTxs: seq<Transaction>)
    ensures var f := Factors(node, address, addrTxs);
      |f| <= 5
      && (address in Patterns.Blacklisted ==> "Blacklisted address: " + Patterns.Blacklisted[address].kind in f)
      && (HighRiskKind(node.kind) ==> "High-risk node type: " + node.kind in f)
      && (RawScore(node, address, addrTxs) == 0 <==> f == [])
  {
  }
}
