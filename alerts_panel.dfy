/** The floating alert panel (src/components/AlertsPanel.jsx): a local copy of
    the alert feed that the user can dismiss from or clear, a severity filter and
    a minimised flag. The filtered list and the per-severity counts are derived
    on every render and never written back. */
module AlertsPanel {
  import opened Wrappers
  import opened Entities
  import Seqs

  /** `filteredAlerts`: everything for `'all'`, else the alerts of that severity. */
  function FilterBySeverity(alerts: seq<Alert>, filter: string): (r: seq<Alert>)
  {
    if filter == "all" then alerts
    else Seqs.Filter(alerts, (a: Alert) => a.severity == filter)
  }

  /** The filter shows the whole list for `'all'`; for any other value exactly
      the alerts of that severity, in their order. */
  lemma FilterBySeverityExactly(alerts: seq<Alert>, filter: string)
    ensures filter == "all" ==> FilterBySeverity(alerts, filter) == alerts
    ensures filter != "all" ==>
      forall a :: a in FilterBySeverity(alerts, filter) <==> a in alerts && a.severity == filter
    ensures Seqs.IsSubsequence(FilterBySeverity(alerts, filter), alerts)
  {
    if filter == "all" {
      Seqs.SubsequenceReflexive(alerts);
    } else {
      var p := (a: Alert) => a.severity == filter;
      var r := FilterBySeverity(alerts, filter);
      forall a | a in alerts && a.severity == filter ensures a in r {
        var i :| 0 <= i < |alerts| && alerts[i] == a;
      }
      forall a | a in r ensures a in alerts && a.severity == filter {
        var i :| 0 <= i < |r| && r[i] == a;
      }
      Seqs.FilterIsSubsequence(alerts, p);
    }
  }

  /** `alerts.filter(a => a.severity === severity).length` */
  function CountSeverity(alerts: seq<Alert>, severity: string): nat
  {
    Seqs.Count(alerts, (a: Alert) => a.severity == severity)
  }

  /** `alertCounts` */
  datatype AlertCounts = AlertCounts(high: nat, medium: nat, low: nat)

  function CountAlerts(alerts: seq<Alert>): AlertCounts
  {
    AlertCounts(CountSeverity(alerts, "high"), CountSeverity(alerts, "medium"), CountSeverity(alerts, "low"))
  }

  /** An alert is one of the three counted severities. */
  predicate Counted(a: Alert)
  {
    a.severity == "high" || a.severity == "medium" || a.severity == "low"
  }

  /** The three counts never exceed the list, and they add up to it exactly when
      no alert carries a fourth severity (those are shown but not counted). */
  lemma {:induction false} CountsAtMostTotal(alerts: seq<Alert>)
    ensures var c := CountAlerts(alerts);
      c.high + c.medium + c.low == |alerts| - Seqs.Count(alerts, (a: Alert) => !Counted(a))
    ensures var c := CountAlerts(alerts); c.high + c.medium + c.low <= |alerts|
  {
    if |alerts| > 0 {
      CountsAtMostTotal(alerts[1..]);
      assert Seqs.Count(alerts, (a: Alert) => !Counted(a))
        == (if Counted(alerts[0]) then 0 else 1) + Seqs.Count(alerts[1..], (a: Alert) => !Counted(a));
      assert CountSeverity(alerts, "high") == (if alerts[0].severity == "high" then 1 else 0) + CountSeverity(alerts[1..], "high");
      assert CountSeverity(alerts, "medium") == (if alerts[0].severity == "medium" then 1 else 0) + CountSeverity(alerts[1..], "medium");
      assert CountSeverity(alerts, "low") == (if alerts[0].severity == "low" then 1 else 0) + CountSeverity(alerts[1..], "low");
    }
  }

  /** What a dismissal reports to the owner: `onAlertAction('dismiss', id)`. */
  datatype AlertAction = AlertAction(action: string, alertId: string)

  /** The panel's three `useState` slots. */
  class Panel {
    var alerts: seq<Alert>
    var filter: string
    var isMinimized: bool

    /** `useState(initialAlerts)`, `useState('all')`, `useState(false)`. */
    constructor(initialAlerts: seq<Alert>)
      ensures alerts == initialAlerts && filter == "all" && !isMinimized
    {
      alerts := initialAlerts;
      filter := "all";
      isMinimized := false;
    }

    /** The effect on a new `alerts` prop: the local list is replaced wholesale,
        so earlier local dismissals are forgotten. */
    method Seed(initialAlerts: seq<Alert>)
      modifies this
      ensures alerts == initialAlerts
      ensures filter == old(filter) && isMinimized == old(isMinimized)
    {
      alerts := initialAlerts;
    }

    /** `handleDismiss(alertId)`: drop every alert with that id, then report the
        dismissal when the owner passed `onAlertAction`. */
    method Dismiss(alertId: string, hasCallback: bool) returns (report: Option<AlertAction>)
      modifies this
      ensures alerts == RemoveAlert(old(alerts), alertId)
      ensures forall a :: a in alerts <==> a in old(alerts) && a.id != alertId
      ensures Seqs.IsSubsequence(alerts, old(alerts))
      ensures (forall i :: 0 <= i < |old(alerts)| ==> old(alerts)[i].id != alertId) ==> alerts == old(alerts)
      ensures UniqueAlertIds(old(alerts)) && (exists i :: 0 <= i < |old(alerts)| && old(alerts)[i].id == alertId)
        ==> |alerts| == |old(alerts)| - 1
      ensures report == (if hasCallback then Some(AlertAction("dismiss", alertId)) else None)
      ensures filter == old(filter) && isMinimized == old(isMinimized)
    {
      RemoveAlertExactly(alerts, alertId);
      if forall i :: 0 <= i < |alerts| ==> alerts[i].id != alertId {
        RemoveAbsentAlert(alerts, alertId);
      }
      if UniqueAlertIds(alerts) && exists i :: 0 <= i < |alerts| && alerts[i].id == alertId {
        RemovePresentAlert(alerts, alertId);
      }
      alerts := RemoveAlert(alerts, alertId);
      if hasCallback {
        report := Some(AlertAction("dismiss", alertId));
      } else {
        report := None;
      }
    }

    /** "Limpiar todas": `setAlerts([])`. Nothing is reported to the owner, so the
        page's own list keeps the alerts. */
    method ClearAll()
      modifies this
      ensures alerts == []
      ensures filter == old(filter) && isMinimized == old(isMinimized)
    {
      alerts := [];
    }

    /** A severity button: `setFilter(severity)`. */
    method SetFilter(severity: string)
      modifies this
      ensures filter == severity
      ensures alerts == old(alerts) && isMinimized == old(isMinimized)
    {
      filter := severity;
    }

    /** The minimise button and the bell that restores the panel. */
    method SetMinimized(minimized: bool)
      modifies this
      ensures isMinimized == minimized
      ensures alerts == old(alerts) && filter == old(filter)
    {
      isMinimized := minimized;
    }

    /** The list the panel shows. */
    function FilteredAlerts(): seq<Alert>
      reads this
    {
      FilterBySeverity(alerts, filter)
    }

    /** The numbers on the severity buttons. */
    function Counts(): AlertCounts
      reads this
    {
      CountAlerts(alerts)
    }
  }
}
