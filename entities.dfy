/** The records the dashboard and the analytics service exchange: nodes,
    transactions, the links drawn between them, and alerts. */
module Entities {
  import opened Wrappers
  import Seqs

  /** A participant. `kind` is the source's `type` field ("exchange", "wallet",
      "contract", "pool", "unknown", "mixer", "phishing"); `region` and
      `reputation` exist only on the analytics service's nodes (`None` when the
      record has no such key). */
  datatype Node = Node(
    id: string,
    name: string,
    isCritical: bool,
    kind: string,
    region: Option<string>,
    reputation: Option<real>)

  /** A directed transfer of `amount` from `source` to `target`. */
  datatype Transaction = Transaction(
    id: string,
    source: string,
    target: string,
    amount: real,
    timestamp: real,
    isFlagged: bool)

  /** The drawable edge derived one-to-one from a transaction. */
  datatype Link = Link(source: string, target: string, transaction: Transaction)

  /** A value inside an alert's free-form `data` bag. */
  datatype Scalar = Str(s: string) | Num(n: real)

  /** An alert as the frontend receives it (JSON) and the service produces it. */
  datatype Alert = Alert(
    id: string,
    kind: string,
    severity: string,
    title: string,
    timestamp: int,
    data: map<string, Scalar>)

  /** What one load of the dashboard holds. */
  datatype Dataset = Dataset(nodes: seq<Node>, links: seq<Link>, transactions: seq<Transaction>)

  /** `tx => tx.isFlagged` (`tx.get('isFlagged', False)` in the backend). */
  predicate Flagged(tx: Transaction)
  {
    tx.isFlagged
  }

  /** The total amount moved by `txs` (`reduce((sum, tx) => sum + tx.amount, 0)`). */
  function Volume(txs: seq<Transaction>): real
  {
    if |txs| == 0 then 0.0 else Volume(txs[..|txs| - 1]) + txs[|txs| - 1].amount
  }

  lemma {:induction false} VolumeAppend(a: seq<Transaction>, b: seq<Transaction>)
    ensures Volume(a + b) == Volume(a) + Volume(b)
  {
    if |b| == 0 {
      assert a + b == a;
    } else {
      assert (a + b)[..|a + b| - 1] == a + b[..|b| - 1];
      VolumeAppend(a, b[..|b| - 1]);
    }
  }

  lemma {:induction false} VolumeNonNegative(txs: seq<Transaction>)
    requires forall i :: 0 <= i < |txs| ==> txs[i].amount >= 0.0
    ensures Volume(txs) >= 0.0
  {
    if |txs| > 0 {
      VolumeNonNegative(txs[..|txs| - 1]);
    }
  }

  /** `alerts.filter(alert => alert.id !== alertId)`, the dismissal used both by
      the alert panel and by the page that owns the alert feed. */
  function RemoveAlert(alerts: seq<Alert>, alertId: string): (r: seq<Alert>)
  {
    Seqs.Filter(alerts, (a: Alert) => a.id != alertId)
  }

  /** Dismissal removes exactly the alerts carrying that id and keeps the rest
      in their original order. */
  lemma RemoveAlertExactly(alerts: seq<Alert>, alertId: string)
    ensures forall a :: a in RemoveAlert(alerts, alertId) <==> a in alerts && a.id != alertId
    ensures Seqs.IsSubsequence(RemoveAlert(alerts, alertId), alerts)
  {
    var r := RemoveAlert(alerts, alertId);
    forall a | a in alerts && a.id != alertId ensures a in r {
      var i :| 0 <= i < |alerts| && alerts[i] == a;
    }
    forall a | a in r ensures a in alerts && a.id != alertId {
      var i :| 0 <= i < |r| && r[i] == a;
    }
    Seqs.FilterIsSubsequence(alerts, (a: Alert) => a.id != alertId);
  }

  /** Dismissing an id no alert carries changes nothing. */
  lemma RemoveAbsentAlert(alerts: seq<Alert>, alertId: string)
    requires forall i :: 0 <= i < |alerts| ==> alerts[i].id != alertId
    ensures RemoveAlert(alerts, alertId) == alerts
  {
    Seqs.FilterAllPass(alerts, (a: Alert) => a.id != alertId);
  }

  ghost predicate UniqueAlertIds(alerts: seq<Alert>)
  {
    forall i, j :: 0 <= i < j < |alerts| ==> alerts[i].id != alerts[j].id
  }

  /** With unique ids, dismissing a present id removes exactly one alert. */
  lemma {:induction false} RemovePresentAlert(alerts: seq<Alert>, alertId: string)
    requires UniqueAlertIds(alerts)
    requires exists i :: 0 <= i < |alerts| && alerts[i].id == alertId
    ensures |RemoveAlert(alerts, alertId)| == |alerts| - 1
  {
    var p := (a: Alert) => a.id != alertId;
    if alerts[0].id == alertId {
      assert RemoveAlert(alerts, alertId) == Seqs.Filter(alerts[1..], p);
      RemoveAbsentAlert(alerts[1..], alertId);
    } else {
      var i :| 0 <= i < |alerts| && alerts[i].id == alertId;
      assert alerts[1..][i - 1].id == alertId;
      RemovePresentAlert(alerts[1..], alertId);
    }
  }
}
