/** `generate_alerts` (backend/app.py): one alert per rapid-burst, high-value and
    blacklist finding, in that order, numbered `alert_1`, `alert_2`, … by the
    length of the list at the moment each is appended. */
module AlertGeneration {
  import opened Entities
  import Text
  import Patterns

  /** `f"alert_{len(alerts)+1}"` when the list has `n - 1` alerts. */
  function AlertId(n: nat): string
  {
    "alert_" + Text.NatToString(n)
  }

  function RapidData(e: Patterns.RapidEntry): map<string, Scalar>
  {
    map["wallet" := Str(e.wallet), "count" := Num(e.count as real),
        "timeWindow" := Num(e.timeWindow), "totalAmount" := Num(e.totalAmount)]
  }

  function HighValueData(e: Patterns.HighValueEntry): map<string, Scalar>
  {
    map["id" := Str(e.id), "amount" := Num(e.amount), "source" := Str(e.source), "target" := Str(e.target)]
  }

  function BlacklistData(e: Patterns.BlacklistEntry): map<string, Scalar>
  {
    map["transaction" := Str(e.transaction), "blacklistedAddress" := Str(e.blacklistedAddress),
        "type" := Str(e.kind), "severity" := Str(e.severity)]
  }

  function RapidAlert(e: Patterns.RapidEntry, id: string, now: int): Alert
  {
    Alert(id, "rapid_transactions", "high", "Actividad de Transacciones Rápidas Detectada", now, RapidData(e))
  }

  function LargeAlert(e: Patterns.HighValueEntry, id: string, now: int): Alert
  {
    Alert(id, "large_transaction", "medium", "Transacción de Alto Valor", now, HighValueData(e))
  }

  function BlacklistAlert(e: Patterns.BlacklistEntry, id: string, now: int): Alert
  {
    Alert(id, "blacklisted_activity", e.severity, "Actividad con Dirección en Lista Negra", now, BlacklistData(e))
  }

  /** How many alerts the findings produce. */
  function AlertCount(p: Patterns.Patterns): nat
  {
    |p.rapid| + |p.highValue| + |p.blacklisted|
  }

  /** The alert at position `i`: the rapid block first, then high value, then
      blacklist. */
  function AlertAt(p: Patterns.Patterns, i: nat, now: int): Alert
    requires i < AlertCount(p)
  {
    var r, h := |p.rapid|, |p.highValue|;
    if i < r then RapidAlert(p.rapid[i], AlertId(i + 1), now)
    else if i < r + h then LargeAlert(p.highValue[i - r], AlertId(i + 1), now)
    else BlacklistAlert(p.blacklisted[i - r - h], AlertId(i + 1), now)
  }

  function AlertsSpec(p: Patterns.Patterns, now: int): (r: seq<Alert>)
    ensures |r| == AlertCount(p)
  {
    seq(AlertCount(p), i requires 0 <= i < AlertCount(p) => AlertAt(p, i, now))
  }

  /** The three loops over the findings. */
  method AlertsFor(p: Patterns.Patterns, now: int) returns (alerts: seq<Alert>)
    ensures alerts == AlertsSpec(p, now)
  {
    alerts := [];
    var i := 0;
    while i < |p.rapid|
      invariant 0 <= i <= |p.rapid| && |alerts| == i
      invariant forall k :: 0 <= k < |alerts| ==> alerts[k] == AlertAt(p, k, now)
    {
      Appended(p, now, alerts, RapidAlert(p.rapid[i], AlertId(|alerts| + 1), now));
      alerts := alerts + [RapidAlert(p.rapid[i], AlertId(|alerts| + 1), now)];
      i := i + 1;
    }
    i := 0;
    while i < |p.highValue|
      invariant 0 <= i <= |p.highValue| && |alerts| == |p.rapid| + i
      invariant forall k :: 0 <= k < |alerts| ==> alerts[k] == AlertAt(p, k, now)
    {
      Appended(p, now, alerts, LargeAlert(p.highValue[i], AlertId(|alerts| + 1), now));
      alerts := alerts + [LargeAlert(p.highValue[i], AlertId(|alerts| + 1), now)];
      i := i + 1;
    }
    i := 0;
    while i < |p.blacklisted|
      invariant 0 <= i <= |p.blacklisted| && |alerts| == |p.rapid| + |p.highValue| + i
      invariant forall k :: 0 <= k < |alerts| ==> alerts[k] == AlertAt(p, k, now)
    {
      Appended(p, now, alerts, BlacklistAlert(p.blacklisted[i], AlertId(|alerts| + 1), now));
      alerts := alerts + [BlacklistAlert(p.blacklisted[i], AlertId(|alerts| + 1), now)];
      i := i + 1;
    }
  }

  /** Appending the alert that belongs at the end keeps every alert in place. */
  lemma Appended(p: Patterns.Patterns, now: int, alerts: seq<Alert>, a: Alert)
    requires |alerts| < AlertCount(p) && a == AlertAt(p, |alerts|, now)
    requires forall k :: 0 <= k < |alerts| ==> alerts[k] == AlertAt(p, k, now)
    ensures forall k :: 0 <= k < |alerts| + 1 ==> (alerts + [a])[k] == AlertAt(p, k, now)
  {
  }

  /** `generate_alerts(transactions, nodes)`; `now` is `int(time.time())`. */
  method GenerateAlerts(txs: seq<Transaction>, nodes: seq<Node>, now: int) returns (alerts: seq<Alert>)
    ensures alerts == AlertsSpec(Patterns.PatternsSpec(txs, nodes), now)
  {
    var p := Patterns.DetectSuspiciousPatterns(txs, nodes);
    alerts := AlertsFor(p, now);
  }

  /** One alert per finding, numbered `alert_1` … `alert_k` in list order, so no
      two alerts share an id; all carry the same timestamp. */
  lemma AlertsNumbered(p: Patterns.Patterns, now: int)
    ensures var a := AlertsSpec(p, now);
      |a| == |p.rapid| + |p.highValue| + |p.blacklisted|
      && (forall i :: 0 <= i < |a| ==> a[i].id == AlertId(i + 1) && a[i].timestamp == now)
      && UniqueAlertIds(a)
  {
    var a := AlertsSpec(p, now);
    forall i | 0 <= i < |a| ensures a[i].id == AlertId(i + 1) && a[i].timestamp == now {
      AlertStamp(p, now, i);
    }
    forall i, j | 0 <= i < j < |a| ensures a[i].id != a[j].id {
      Text.PrefixedNumbersDistinct("alert_", i + 1, j + 1);
    }
  }

  lemma AlertStamp(p: Patterns.Patterns, now: int, i: nat)
    requires i < AlertCount(p)
    ensures AlertsSpec(p, now)[i].id == AlertId(i + 1) && AlertsSpec(p, now)[i].timestamp == now
  {
    assert AlertsSpec(p, now)[i] == AlertAt(p, i, now);
  }

  /** The blocks: rapid findings give high-severity `rapid_transactions` alerts,
      high-value findings medium `large_transaction` alerts, and blacklist
      findings `blacklisted_activity` alerts with the listed address's
      severity; each alert carries its finding as data. */
  lemma AlertBlocks(p: Patterns.Patterns, now: int, i: nat)
    requires i < AlertCount(p)
    ensures var a := AlertsSpec(p, now)[i];
      var r, h := |p.rapid|, |p.highValue|;
      (i < r ==> a.kind == "rapid_transactions" && a.severity == "high" && a.data == RapidData(p.rapid[i]))
      && (r <= i < r + h ==>
        a.kind == "large_transaction" && a.severity == "medium" && a.data == HighValueData(p.highValue[i - r]))
      && (r + h <= i ==>
        a.kind == "blacklisted_activity" && a.severity == p.blacklisted[i - r - h].severity
        && a.data == BlacklistData(p.blacklisted[i - r - h]))
  {
  }

  /** The severity of a blacklist alert is that of the address the finding
      named in the blacklist. */
  lemma BlacklistAlertSeverity(txs: seq<Transaction>, nodes: seq<Node>, now: int, i: nat)
    requires var p := Patterns.PatternsSpec(txs, nodes);
      |p.rapid| + |p.highValue| <= i < AlertCount(p)
    ensures var p := Patterns.PatternsSpec(txs, nodes);
      var e := p.blacklisted[i - |p.rapid| - |p.highValue|];
      e.blacklistedAddress in Patterns.Blacklisted
      && AlertsSpec(p, now)[i].severity == Patterns.Blacklisted[e.blacklistedAddress].severity
  {
    var p := Patterns.PatternsSpec(txs, nodes);
    var k := i - |p.rapid| - |p.highValue|;
    Patterns.BlacklistRule(txs);
    var f := Patterns.Seqs.Filter(txs, Patterns.IsBlacklistedTx);
    Patterns.BlacklistHitMeaning(f[k]);
  }
}
