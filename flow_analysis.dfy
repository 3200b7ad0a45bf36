/** `analyze_money_flow` and `calculate_flow_concentration` (backend/app.py):
    inflow and outflow per address, the net flow, the five largest receivers and
    senders, and a Herfindahl-style concentration index of each side. */
module FlowAnalysis {
  import opened Wrappers
  import opened Entities
  import opened Dicts
  import Seqs
  import Sorting
  import NetworkMetrics

  type Ledger = NetworkMetrics.Ledger

  /** `d[k] += amount` on a `defaultdict(float)`. */
  function Credit(d: Ledger, k: string, amount: real): Ledger
  {
    Put(d, k, Get(d, k, 0.0) + amount)
  }

  /** `inflow` after the loop: each transaction credits its target. */
  function InflowSpec(txs: seq<Transaction>): Ledger
  {
    if |txs| == 0 then [] else Credit(InflowSpec(txs[..|txs| - 1]), txs[|txs| - 1].target, txs[|txs| - 1].amount)
  }

  /** `outflow` after the loop: each transaction credits its source. */
  function OutflowSpec(txs: seq<Transaction>): Ledger
  {
    if |txs| == 0 then [] else Credit(OutflowSpec(txs[..|txs| - 1]), txs[|txs| - 1].source, txs[|txs| - 1].amount)
  }

  method AccumulateFlows(txs: seq<Transaction>) returns (inflow: Ledger, outflow: Ledger)
    ensures inflow == InflowSpec(txs) && outflow == OutflowSpec(txs)
  {
    inflow, outflow := [], [];
    var i := 0;
    while i < |txs|
      invariant 0 <= i <= |txs|
      invariant inflow == InflowSpec(txs[..i]) && outflow == OutflowSpec(txs[..i])
    {
      assert txs[..i + 1][..i] == txs[..i];
      var tx := txs[i];
      outflow := Credit(outflow, tx.source, tx.amount);
      inflow := Credit(inflow, tx.target, tx.amount);
      i := i + 1;
    }
    assert txs[..|txs|] == txs;
  }

  lemma CreditGet(d: Ledger, k: string, amount: real, w: string)
    ensures Get(Credit(d, k, amount), w, 0.0) == Get(d, w, 0.0) + (if k == w then amount else 0.0)
  {
    if k == w {
      GetPutSame(d, k, Get(d, k, 0.0) + amount, 0.0);
    } else {
      GetPutOther(d, k, Get(d, k, 0.0) + amount, w, 0.0);
    }
  }

  /** An address's inflow is the volume it received. */
  lemma {:induction false} InflowIsReceived(txs: seq<Transaction>, w: string)
    ensures Get(InflowSpec(txs), w, 0.0) == Volume(Seqs.Filter(txs, NetworkMetrics.ReceivedBy(w)))
  {
    if |txs| > 0 {
      var n := |txs| - 1;
      InflowIsReceived(txs[..n], w);
      CreditGet(InflowSpec(txs[..n]), txs[n].target, txs[n].amount, w);
      NetworkMetrics.VolumeOfFilterSnoc(txs, NetworkMetrics.ReceivedBy(w));
    }
  }

  /** An address's outflow is the volume it sent. */
  lemma {:induction false} OutflowIsSent(txs: seq<Transaction>, w: string)
    ensures Get(OutflowSpec(txs), w, 0.0) == Volume(Seqs.Filter(txs, NetworkMetrics.SentBy(w)))
  {
    if |txs| > 0 {
      var n := |txs| - 1;
      OutflowIsSent(txs[..n], w);
      CreditGet(OutflowSpec(txs[..n]), txs[n].source, txs[n].amount, w);
      NetworkMetrics.VolumeOfFilterSnoc(txs, NetworkMetrics.SentBy(w));
    }
  }

  lemma ExistsSnoc(txs: seq<Transaction>, pre: seq<Transaction>, p: Transaction -> bool)
    requires |txs| > 0 && pre == txs[..|txs| - 1]
    ensures (exists i :: 0 <= i < |txs| && p(txs[i]))
      <==> (p(txs[|txs| - 1]) || exists i :: 0 <= i < |pre| && p(pre[i]))
  {
    if exists i :: 0 <= i < |txs| && p(txs[i]) {
      var i :| 0 <= i < |txs| && p(txs[i]);
      if i < |pre| {
        assert pre[i] == txs[i];
      }
    }
    if exists i :: 0 <= i < |pre| && p(pre[i]) {
      var i :| 0 <= i < |pre| && p(pre[i]);
      assert txs[i] == pre[i];
    }
  }

  /** The inflow has an entry exactly for the addresses that received. */
  lemma {:induction false} InflowKeys(txs: seq<Transaction>, w: string)
    ensures w in Keys(InflowSpec(txs)) <==> exists i :: 0 <= i < |txs| && NetworkMetrics.ReceivedBy(w)(txs[i])
  {
    if |txs| > 0 {
      var n := |txs| - 1;
      var g := InflowSpec(txs[..n]);
      InflowKeys(txs[..n], w);
      KeysAfterPut(g, txs[n].target, Get(g, txs[n].target, 0.0) + txs[n].amount, w);
      ExistsSnoc(txs, txs[..n], NetworkMetrics.ReceivedBy(w));
    }
  }

  /** The outflow has an entry exactly for the addresses that sent. */
  lemma {:induction false} OutflowKeys(txs: seq<Transaction>, w: string)
    ensures w in Keys(OutflowSpec(txs)) <==> exists i :: 0 <= i < |txs| && NetworkMetrics.SentBy(w)(txs[i])
  {
    if |txs| > 0 {
      var n := |txs| - 1;
      var g := OutflowSpec(txs[..n]);
      OutflowKeys(txs[..n], w);
      KeysAfterPut(g, txs[n].source, Get(g, txs[n].source, 0.0) + txs[n].amount, w);
      ExistsSnoc(txs, txs[..n], NetworkMetrics.SentBy(w));
    }
  }

  /** Both sides are dictionaries and each adds up to the total volume: what
      flows in is what flows out. */
  lemma FlowTotals(txs: seq<Transaction>)
    ensures UniqueKeys(InflowSpec(txs)) && UniqueKeys(OutflowSpec(txs))
    ensures SumValues(InflowSpec(txs)) == Volume(txs) && SumValues(OutflowSpec(txs)) == Volume(txs)
  {
    InflowTotal(txs);
    OutflowTotal(txs);
  }

  lemma CreditTotal(d: Ledger, k: string, amount: real)
    requires UniqueKeys(d)
    ensures UniqueKeys(Credit(d, k, amount)) && SumValues(Credit(d, k, amount)) == SumValues(d) + amount
  {
    SumValuesPut(d, k, Get(d, k, 0.0) + amount);
    PutKeepsUnique(d, k, Get(d, k, 0.0) + amount);
  }

  lemma {:induction false} InflowTotal(txs: seq<Transaction>)
    ensures UniqueKeys(InflowSpec(txs)) && SumValues(InflowSpec(txs)) == Volume(txs)
  {
    if |txs| > 0 {
      var n := |txs| - 1;
      InflowTotal(txs[..n]);
      CreditTotal(InflowSpec(txs[..n]), txs[n].target, txs[n].amount);
      assert InflowSpec(txs) == Credit(InflowSpec(txs[..n]), txs[n].target, txs[n].amount);
      assert Volume(txs) == Volume(txs[..n]) + txs[n].amount;
    }
  }

  lemma {:induction false} OutflowTotal(txs: seq<Transaction>)
    ensures UniqueKeys(OutflowSpec(txs)) && SumValues(OutflowSpec(txs)) == Volume(txs)
  {
    if |txs| > 0 {
      var n := |txs| - 1;
      OutflowTotal(txs[..n]);
      CreditTotal(OutflowSpec(txs[..n]), txs[n].source, txs[n].amount);
      assert OutflowSpec(txs) == Credit(OutflowSpec(txs[..n]), txs[n].source, txs[n].amount);
      assert Volume(txs) == Volume(txs[..n]) + txs[n].amount;
    }
  }

  // ------------------------------------------------------------- net flow

  /** Reading `d[k]` on a `defaultdict(float)` inserts a missing key with 0.0. */
  function Touch(d: Ledger, k: string): Ledger
  {
    if k in Keys(d) then d else d + [(k, 0.0)]
  }

  /** The dictionary after the net-flow loop has read every address of `order`. */
  function TouchAll(d: Ledger, order: seq<string>): Ledger
  {
    if |order| == 0 then d else Touch(TouchAll(d, order[..|order| - 1]), order[|order| - 1])
  }

  /** `net_flow` after the loop, for the dictionaries as they were before it. */
  function NetSpec(order: seq<string>, inflow: Ledger, outflow: Ledger): Ledger
  {
    if |order| == 0 then []
    else
      var a := order[|order| - 1];
      Put(NetSpec(order[..|order| - 1], inflow, outflow), a, Get(inflow, a, 0.0) - Get(outflow, a, 0.0))
  }

  /** A read inserts a zero, which reads like the missing key did; the other
      entries, the total and the distinctness of keys are untouched. */
  lemma TouchMeaning(d: Ledger, k: string, w: string)
    ensures Get(Touch(d, k), w, 0.0) == Get(d, w, 0.0)
    ensures w in Keys(Touch(d, k)) <==> w in Keys(d) || w == k
    ensures SumValues(Touch(d, k)) == SumValues(d)
    ensures UniqueKeys(d) ==> UniqueKeys(Touch(d, k))
  {
    if k !in Keys(d) {
      GetAppend(d, [(k, 0.0)], w, 0.0);
      GetMeaning(d, w, 0.0);
      assert Keys(d + [(k, 0.0)]) == Keys(d) + [k];
      assert (d + [(k, 0.0)])[..|d|] == d;
      TouchNewUnique(d, k);
    }
  }

  lemma TouchNewUnique(d: Ledger, k: string)
    requires k !in Keys(d)
    ensures UniqueKeys(d) ==> UniqueKeys(d + [(k, 0.0)])
  {
    if UniqueKeys(d) {
      forall i | 0 <= i < |d| ensures d[i].0 != k {
        assert Keys(d)[i] == d[i].0;
      }
    }
  }

  lemma {:induction false} TouchAllGet(d: Ledger, order: seq<string>, w: string)
    ensures Get(TouchAll(d, order), w, 0.0) == Get(d, w, 0.0)
  {
    if |order| > 0 {
      var n := |order| - 1;
      TouchAllGet(d, order[..n], w);
      TouchMeaning(TouchAll(d, order[..n]), order[n], w);
    }
  }

  /** After the loop each dictionary has an entry for its own addresses and for
      every address of `order`, keeps its total and stays a dictionary. */
  lemma {:induction false} TouchAllMeaning(d: Ledger, order: seq<string>, w: string)
    ensures w in Keys(TouchAll(d, order)) <==> w in Keys(d) || w in order
    ensures SumValues(TouchAll(d, order)) == SumValues(d)
    ensures UniqueKeys(d) ==> UniqueKeys(TouchAll(d, order))
  {
    if |order| > 0 {
      var n := |order| - 1;
      TouchAllMeaning(d, order[..n], w);
      TouchMeaning(TouchAll(d, order[..n]), order[n], w);
      assert order == order[..n] + [order[n]];
    }
  }

  /** The net flow of an address of `order` is its inflow minus its outflow. */
  lemma {:induction false} NetSpecGet(order: seq<string>, inflow: Ledger, outflow: Ledger, a: string)
    requires a in order
    ensures Get(NetSpec(order, inflow, outflow), a, 0.0) == Get(inflow, a, 0.0) - Get(outflow, a, 0.0)
  {
    var n := |order| - 1;
    var pre := NetSpec(order[..n], inflow, outflow);
    var b := order[n];
    var v := Get(inflow, b, 0.0) - Get(outflow, b, 0.0);
    if b == a {
      GetPutSame(pre, b, v, 0.0);
    } else {
      assert order == order[..n] + [b];
      NetSpecGet(order[..n], inflow, outflow, a);
      GetPutOther(pre, b, v, a, 0.0);
    }
  }

  ghost predicate Distinct(order: seq<string>)
  {
    forall i, j :: 0 <= i < j < |order| ==> order[i] != order[j]
  }

  /** Over distinct addresses the net flow lists exactly those, in that order. */
  lemma {:induction false} NetSpecKeys(order: seq<string>, inflow: Ledger, outflow: Ledger)
    requires Distinct(order)
    ensures Keys(NetSpec(order, inflow, outflow)) == order
  {
    if |order| > 0 {
      var n := |order| - 1;
      var b := order[n];
      assert Distinct(order[..n]);
      NetSpecKeys(order[..n], inflow, outflow);
      assert b !in order[..n];
      KeysOfNewPut(NetSpec(order[..n], inflow, outflow), b, Get(inflow, b, 0.0) - Get(outflow, b, 0.0));
      assert order == order[..n] + [b];
    }
  }

  lemma KeysOfNewPut(d: Ledger, k: string, v: real)
    requires k !in Keys(d)
    ensures Keys(Put(d, k, v)) == Keys(d) + [k]
  {
    PutMeaning(d, k, v);
    assert Keys(d + [(k, v)]) == Keys(d) + [k];
  }

  /** `for addr in all_addresses: net_flow[addr] = inflow[addr] - outflow[addr]`;
      `order` is the iteration order of the set. */
  method NetFlow(order: seq<string>, inflow0: Ledger, outflow0: Ledger) returns (net: Ledger, inflow: Ledger, outflow: Ledger)
    ensures net == NetSpec(order, inflow0, outflow0)
    ensures inflow == TouchAll(inflow0, order) && outflow == TouchAll(outflow0, order)
  {
    net, inflow, outflow := [], inflow0, outflow0;
    var i := 0;
    while i < |order|
      invariant 0 <= i <= |order|
      invariant net == NetSpec(order[..i], inflow0, outflow0)
      invariant inflow == TouchAll(inflow0, order[..i]) && outflow == TouchAll(outflow0, order[..i])
    {
      assert order[..i + 1][..i] == order[..i];
      var addr := order[i];
      TouchAllGet(inflow0, order[..i], addr);
      TouchAllGet(outflow0, order[..i], addr);
      var received := Get(inflow, addr, 0.0);
      inflow := Touch(inflow, addr);
      var sent := Get(outflow, addr, 0.0);
      outflow := Touch(outflow, addr);
      net := Put(net, addr, received - sent);
      i := i + 1;
    }
    assert order[..|order|] == order;
  }

  // ----------------------------------------------------------- concentration

  /** `calculate_flow_concentration`'s result: the plain `0` when a side is
      empty, otherwise the three indices. */
  datatype Concentration = NoFlow | Indices(inflowConcentration: real, outflowConcentration: real, avgConcentration: real)

  /** `sum((amount / total) ** 2 for amount in d.values())` */
  function Herfindahl(d: Ledger, total: real): real
    requires total != 0.0
  {
    if |d| == 0 then 0.0
    else Herfindahl(d[..|d| - 1], total) + (d[|d| - 1].1 / total) * (d[|d| - 1].1 / total)
  }

  /** A non-empty side whose total is 0 raises `ZeroDivisionError`. */
  function FlowConcentration(inflow: Ledger, outflow: Ledger): Result<Concentration, string>
  {
    var totalIn, totalOut := SumValues(inflow), SumValues(outflow);
    if |inflow| == 0 || |outflow| == 0 then Success(NoFlow)
    else if totalIn == 0.0 || totalOut == 0.0 then Failure("float division by zero")
    else
      var ci, co := Herfindahl(inflow, totalIn), Herfindahl(outflow, totalOut);
      Success(Indices(ci, co, (ci + co) / 2.0))
  }

  lemma DivAdd(a: real, b: real, t: real)
    requires t > 0.0
    ensures (a + b) / t == a / t + b / t
  {
  }

  lemma SquareOfSum(a: real, b: real)
    requires a >= 0.0 && b >= 0.0
    ensures a * a + b * b <= (a + b) * (a + b)
  {
    assert (a + b) * (a + b) == a * a + 2.0 * (a * b) + b * b;
    assert a * b >= 0.0;
  }

  ghost predicate NonNegative(d: Ledger)
  {
    forall i :: 0 <= i < |d| ==> d[i].1 >= 0.0
  }

  lemma {:induction false} SumValuesNonNegative(d: Ledger)
    requires NonNegative(d)
    ensures SumValues(d) >= 0.0
  {
    if |d| > 0 {
      SumValuesNonNegative(d[..|d| - 1]);
    }
  }

  /** With non-negative amounts the sum of squared shares is at most the
      square of the summed shares. */
  lemma {:induction false} HerfindahlAtMostSquare(d: Ledger, total: real)
    requires total > 0.0 && NonNegative(d)
    ensures 0.0 <= Herfindahl(d, total) <= (SumValues(d) / total) * (SumValues(d) / total)
  {
    if |d| > 0 {
      var pre := d[..|d| - 1];
      var x := d[|d| - 1].1;
      HerfindahlAtMostSquare(pre, total);
      SumValuesNonNegative(pre);
      var a, b := SumValues(pre) / total, x / total;
      DivAdd(SumValues(pre), x, total);
      SquareOfSum(a, b);
      assert b * b >= 0.0;
    }
  }

  /** With non-negative amounts every index lies in [0, 1]; a side with a
      single address has index 1. */
  lemma ConcentrationBounds(inflow: Ledger, outflow: Ledger)
    requires NonNegative(inflow) && NonNegative(outflow)
    ensures var r := FlowConcentration(inflow, outflow);
      r.Success? && r.value.Indices? ==>
        0.0 <= r.value.inflowConcentration <= 1.0 && 0.0 <= r.value.outflowConcentration <= 1.0
        && 0.0 <= r.value.avgConcentration <= 1.0
        && (|inflow| == 1 ==> r.value.inflowConcentration == 1.0)
        && (|outflow| == 1 ==> r.value.outflowConcentration == 1.0)
  {
    var r := FlowConcentration(inflow, outflow);
    if r.Success? && r.value.Indices? {
      var ti, to := SumValues(inflow), SumValues(outflow);
      SumValuesNonNegative(inflow);
      SumValuesNonNegative(outflow);
      HerfindahlAtMostSquare(inflow, ti);
      HerfindahlAtMostSquare(outflow, to);
      SelfShare(ti);
      SelfShare(to);
      if |inflow| == 1 {
        assert inflow[..0] == [];
      }
      if |outflow| == 1 {
        assert outflow[..0] == [];
      }
    }
  }

  lemma SelfShare(t: real)
    requires t != 0.0
    ensures (t / t) * (t / t) == 1.0
  {
  }

  /** The concentration is `NoFlow` exactly for an empty side, an error
      exactly for a non-empty side whose total is 0. */
  lemma ConcentrationCases(inflow: Ledger, outflow: Ledger)
    ensures FlowConcentration(inflow, outflow) == Success(NoFlow) <==> |inflow| == 0 || |outflow| == 0
    ensures FlowConcentration(inflow, outflow).Failure? <==>
      |inflow| > 0 && |outflow| > 0 && (SumValues(inflow) == 0.0 || SumValues(outflow) == 0.0)
  {
  }

  // ----------------------------------------------------------------- report

  /** `sorted(d.items(), key=amount, reverse=True)[:5]` */
  function TopFive(d: Ledger): Ledger
  {
    Seqs.Take(Sorting.SortBy(d, NetworkMetrics.Descending), 5)
  }

  /** At most five entries, largest amount first, each an entry of `d`; an
      entry of `d` that is not listed is no larger than any listed one. */
  lemma TopFiveMeaning(d: Ledger)
    ensures var t := TopFive(d);
      |t| == (if |d| <= 5 then |d| else 5)
      && (forall i, j :: 0 <= i < j < |t| ==> t[i].1 >= t[j].1)
      && (forall i :: 0 <= i < |t| ==> t[i] in d)
    ensures var t := TopFive(d);
      forall x :: x in d ==> x in t || forall i :: 0 <= i < |t| ==> x.1 <= t[i].1
  {
    forall x | x in d ensures x in TopFive(d) || forall i :: 0 <= i < |TopFive(d)| ==> x.1 <= TopFive(d)[i].1 {
      Sorting.SortedPrefixLeast(d, NetworkMetrics.Descending, |TopFive(d)|, x);
    }
    var sorted := Sorting.SortBy(d, NetworkMetrics.Descending);
    var t := TopFive(d);
    forall i, j | 0 <= i < j < |t| ensures t[i].1 >= t[j].1 {
      assert NetworkMetrics.Descending(sorted[i]) <= NetworkMetrics.Descending(sorted[j]);
    }
    forall i | 0 <= i < |t| ensures t[i] in d {
      Sorting.SortedElementFromInput(d, NetworkMetrics.Descending, i);
    }
  }

  datatype FlowReport = FlowReport(
    totalVolume: real,
    topReceivers: Ledger,
    topSenders: Ledger,
    netFlow: Ledger,
    flowConcentration: Concentration)

  /** `order` enumerates the set of all addresses that sent or received. */
  ghost predicate EnumeratesAddresses(txs: seq<Transaction>, order: seq<string>)
  {
    Distinct(order)
    && forall a :: a in order <==> exists i :: 0 <= i < |txs| && (txs[i].source == a || txs[i].target == a)
  }

  /** `analyze_money_flow(transactions)`; `order` is the iteration order of
      `set(inflow.keys()) | set(outflow.keys())`. The whole call raises when
      the transactions are non-empty but their amounts add up to 0. */
  method AnalyzeMoneyFlow(txs: seq<Transaction>, order: seq<string>) returns (r: Result<FlowReport, string>)
    requires EnumeratesAddresses(txs, order)
    ensures r.Success? <==> |txs| == 0 || Volume(txs) != 0.0
    ensures |txs| == 0 ==> r == Success(FlowReport(0.0, [], [], [], NoFlow))
    ensures r.Success? ==>
      var f := r.value;
      var inflow, outflow := TouchAll(InflowSpec(txs), order), TouchAll(OutflowSpec(txs), order);
      f.totalVolume == Volume(txs)
      && Keys(f.netFlow) == order
      && (forall a :: a in order ==>
            (Get(f.netFlow, a, 0.0)
             == Volume(Seqs.Filter(txs, NetworkMetrics.ReceivedBy(a))) - Volume(Seqs.Filter(txs, NetworkMetrics.SentBy(a)))))
      && f.topReceivers == TopFive(inflow) && f.topSenders == TopFive(outflow)
      && FlowConcentration(inflow, outflow) == Success(f.flowConcentration)
  {
    var inflow0, outflow0 := AccumulateFlows(txs);
    var net, inflow, outflow := NetFlow(order, inflow0, outflow0);
    var conc := FlowConcentration(inflow, outflow);
    FlowSides(txs, order);
    if conc.Failure? {
      return Failure(conc.error);
    }
    NetSpecKeys(order, inflow0, outflow0);
    forall a | a in order
      ensures Get(net, a, 0.0)
        == Volume(Seqs.Filter(txs, NetworkMetrics.ReceivedBy(a))) - Volume(Seqs.Filter(txs, NetworkMetrics.SentBy(a)))
    {
      NetSpecGet(order, inflow0, outflow0, a);
      InflowIsReceived(txs, a);
      OutflowIsSent(txs, a);
    }
    r := Success(FlowReport(Volume(txs), TopFive(inflow), TopFive(outflow), net, conc.value));
  }

  /** After the net-flow loop both sides hold every address; they are empty
      exactly when there are no transactions, and each totals the volume. */
  lemma FlowSides(txs: seq<Transaction>, order: seq<string>)
    requires EnumeratesAddresses(txs, order)
    ensures var inflow, outflow := TouchAll(InflowSpec(txs), order), TouchAll(OutflowSpec(txs), order);
      (|inflow| == 0 <==> |txs| == 0) && (|outflow| == 0 <==> |txs| == 0)
      && SumValues(inflow) == Volume(txs) && SumValues(outflow) == Volume(txs)
      && (|txs| == 0 ==> inflow == [] && outflow == [] && order == [])
  {
    if |txs| == 0 {
      NothingListed(order);
    } else {
      assert txs[0].target in order;
      InflowSide(txs, order);
      OutflowSide(txs, order);
    }
  }

  lemma HeadListed(order: seq<string>)
    requires order != []
    ensures order[0] in order
  {
  }

  lemma NothingListed(order: seq<string>)
    requires forall a :: a !in order
    ensures order == []
  {
    if order != [] {
      HeadListed(order);
      assert false;
    }
  }

  lemma InflowSide(txs: seq<Transaction>, order: seq<string>)
    requires |txs| > 0 && txs[0].target in order
    ensures |TouchAll(InflowSpec(txs), order)| > 0 && SumValues(TouchAll(InflowSpec(txs), order)) == Volume(txs)
  {
    InflowTotal(txs);
    TouchAllMeaning(InflowSpec(txs), order, txs[0].target);
  }

  lemma OutflowSide(txs: seq<Transaction>, order: seq<string>)
    requires |txs| > 0 && txs[0].target in order
    ensures |TouchAll(OutflowSpec(txs), order)| > 0 && SumValues(TouchAll(OutflowSpec(txs), order)) == Volume(txs)
  {
    OutflowTotal(txs);
    TouchAllMeaning(OutflowSpec(txs), order, txs[0].target);
  }

  /** Each listed receiver's amount is what it received, and each sender's what
      it sent. */
  lemma TopAmounts(txs: seq<Transaction>, order: seq<string>, i: nat)
    ensures var t := TopFive(TouchAll(InflowSpec(txs), order));
      i < |t| ==> t[i].1 == Volume(Seqs.Filter(txs, NetworkMetrics.ReceivedBy(t[i].0)))
    ensures var t := TopFive(TouchAll(OutflowSpec(txs), order));
      i < |t| ==> t[i].1 == Volume(Seqs.Filter(txs, NetworkMetrics.SentBy(t[i].0)))
  {
    FlowTotals(txs);
    var din, dout := TouchAll(InflowSpec(txs), order), TouchAll(OutflowSpec(txs), order);
    var ti, to := TopFive(din), TopFive(dout);
    TopFiveMeaning(din);
    TopFiveMeaning(dout);
    if i < |ti| {
      TouchAllMeaning(InflowSpec(txs), order, ti[i].0);
      MemberGet(din, ti[i], 0.0);
      TouchAllGet(InflowSpec(txs), order, ti[i].0);
      InflowIsReceived(txs, ti[i].0);
    }
    if i < |to| {
      TouchAllMeaning(OutflowSpec(txs), order, to[i].0);
      MemberGet(dout, to[i], 0.0);
      TouchAllGet(OutflowSpec(txs), order, to[i].0);
      OutflowIsSent(txs, to[i].0);
    }
  }
}
