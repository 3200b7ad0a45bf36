/** `detect_suspicious_patterns` (backend/app.py): the rapid-burst rule, the
    high-value rule, the blacklist rule and the mixer rule, each a loop over the
    transactions that appends one entry per hit. */
module Patterns {
  import opened Wrappers
  import opened Entities
  import opened Dicts
  import Seqs
  import Sorting
  import Grouping

  /** `ALERT_THRESHOLDS['large_transaction']` */
  const LargeTransaction: real := 100.0
  /** `ALERT_THRESHOLDS['rapid_transactions']` */
  const RapidCount: nat := 5
  /** `time_window`, in seconds. */
  const RapidWindow: real := 600.0

  /** One entry of `BLACKLISTED_ADDRESSES`. */
  datatype BlacklistInfo = BlacklistInfo(kind: string, severity: string, description: string)

  /** `BLACKLISTED_ADDRESSES` */
  const Blacklisted: map<string, BlacklistInfo> := map[
    "0x112233" := BlacklistInfo("ransomware", "high", "Known ransomware wallet"),
    "0x998877" := BlacklistInfo("mixer", "medium", "Cryptocurrency mixer"),
    "0x556644" := BlacklistInfo("phishing", "high", "Phishing scam wallet")]

  datatype RapidEntry = RapidEntry(wallet: string, count: nat, timeWindow: real, totalAmount: real)
  datatype HighValueEntry = HighValueEntry(id: string, amount: real, source: string, target: string)
  datatype BlacklistEntry = BlacklistEntry(transaction: string, blacklistedAddress: string, kind: string, severity: string)
  datatype MixerEntry = MixerEntry(transaction: string, mixerAddress: string, amount: real)

  /** The `patterns` dictionary (its `circularTransactions` list is always empty
      and is not represented). */
  datatype Patterns = Patterns(
    rapid: seq<RapidEntry>,
    highValue: seq<HighValueEntry>,
    mixer: seq<MixerEntry>,
    blacklisted: seq<BlacklistEntry>)

  // ---------------------------------------------------------------- rapid rule

  function Timestamp(tx: Transaction): real
  {
    tx.timestamp
  }

  /** `window_txs[-1]['timestamp'] - window_txs[0]['timestamp']` for the window at `i`. */
  function Span(s: seq<Transaction>, i: nat): real
    requires i + RapidCount <= |s|
  {
    s[i + RapidCount - 1].timestamp - s[i].timestamp
  }

  /** The first window start at or after `from` whose five transactions span at
      most ten minutes. */
  function FirstWindow(s: seq<Transaction>, from: nat): (r: Option<nat>)
    ensures r.Some? ==>
      from <= r.value && r.value + RapidCount <= |s| && Span(s, r.value) <= RapidWindow
      && forall j :: from <= j < r.value ==> Span(s, j) > RapidWindow
    ensures r.None? ==> forall j :: from <= j && j + RapidCount <= |s| ==> Span(s, j) > RapidWindow
    decreases |s| - from
  {
    if from + RapidCount > |s| then None
    else if Span(s, from) <= RapidWindow then Some(from)
    else FirstWindow(s, from + 1)
  }

  /** The `for i in range(...)` loop with its `break`. */
  method FindWindow(s: seq<Transaction>) returns (r: Option<nat>)
    ensures r == FirstWindow(s, 0)
  {
    var i := 0;
    while i + RapidCount <= |s|
      invariant 0 <= i
      invariant FirstWindow(s, i) == FirstWindow(s, 0)
      decreases |s| - i
    {
      if Span(s, i) <= RapidWindow {
        return Some(i);
      }
      i := i + 1;
    }
    return None;
  }

  /** The entry for the first qualifying window of an already time-sorted list. */
  function WindowEntry(wallet: string, sorted: seq<Transaction>): (r: Option<RapidEntry>)
    ensures r.Some? ==> r.value.wallet == wallet && r.value.count == RapidCount
    ensures r.Some? <==> FirstWindow(sorted, 0).Some?
  {
    match FirstWindow(sorted, 0)
    case None => None
    case Some(k) => Some(RapidEntry(wallet, RapidCount, Span(sorted, k), Volume(sorted[k..k + RapidCount])))
  }

  /** A reported window: five consecutive transactions of the sorted list, at most
      ten minutes apart end to end, with their total, and preceded by no such
      window. */
  lemma WindowEntryMeaning(wallet: string, sorted: seq<Transaction>)
    requires WindowEntry(wallet, sorted).Some?
    ensures var r := WindowEntry(wallet, sorted).value;
      exists k :: 0 <= k && k + RapidCount <= |sorted|
        && r.timeWindow == Span(sorted, k) && r.timeWindow <= RapidWindow
        && r.totalAmount == Volume(sorted[k..k + RapidCount])
        && forall j :: 0 <= j < k ==> Span(sorted, j) > RapidWindow
  {
    var k := FirstWindow(sorted, 0).value;
    assert WindowEntry(wallet, sorted).value == RapidEntry(wallet, RapidCount, Span(sorted, k), Volume(sorted[k..k + RapidCount]));
  }

  /** What one wallet's outgoing list contributes: nothing below five
      transactions, else the first qualifying window of the time-sorted list. */
  function RapidFor(wallet: string, walletTxs: seq<Transaction>): (r: Option<RapidEntry>)
    ensures r.Some? ==> r.value.wallet == wallet && r.value.count == RapidCount
    ensures r.Some? <==> |walletTxs| >= RapidCount && FirstWindow(Sorting.SortBy(walletTxs, Timestamp), 0).Some?
  {
    if |walletTxs| >= RapidCount then WindowEntry(wallet, Sorting.SortBy(walletTxs, Timestamp))
    else None
  }

  /** One `(wallet, wallet_txs)` item of `tx_by_wallet`. */
  function RapidOf(group: (string, seq<Transaction>)): (r: Option<RapidEntry>)
    ensures r.Some? ==> r.value.wallet == group.0
  {
    RapidFor(group.0, group.1)
  }

  /** `patterns['rapidTransactions']` after the loop over `tx_by_wallet.items()`. */
  function RapidSpec(groups: seq<(string, seq<Transaction>)>): seq<RapidEntry>
  {
    Seqs.Collect(groups, RapidOf)
  }

  /** The loop over the wallets. */
  method DetectRapid(groups: seq<(string, seq<Transaction>)>) returns (rapid: seq<RapidEntry>)
    ensures rapid == RapidSpec(groups)
  {
    rapid := [];
    var g := 0;
    while g < |groups|
      invariant 0 <= g <= |groups|
      invariant rapid == RapidSpec(groups[..g])
    {
      assert groups[..g + 1][..g] == groups[..g];
      var wallet, walletTxs := groups[g].0, groups[g].1;
      if |walletTxs| >= RapidCount {
        var sorted := Sorting.SortBy(walletTxs, Timestamp);
        var k := FindWindow(sorted);
        if k.Some? {
          var start := k.value;
          assert RapidOf(groups[g]) == WindowEntry(wallet, sorted);
          rapid := rapid + [RapidEntry(wallet, RapidCount, Span(sorted, start), Volume(sorted[start..start + RapidCount]))];
        }
      }
      g := g + 1;
    }
    assert groups[..|groups|] == groups;
  }

  /** A wallet has a rapid entry iff its group yields one. */
  lemma RapidWallets(groups: seq<(string, seq<Transaction>)>, w: string)
    ensures (exists i :: 0 <= i < |RapidSpec(groups)| && RapidSpec(groups)[i].wallet == w)
      <==> (exists j :: 0 <= j < |groups| && groups[j].0 == w && RapidOf(groups[j]).Some?)
  {
    var c := RapidSpec(groups);
    if exists i :: 0 <= i < |c| && c[i].wallet == w {
      var i :| 0 <= i < |c| && c[i].wallet == w;
      RapidWalletOrigin(groups, i);
    }
    if exists j :: 0 <= j < |groups| && groups[j].0 == w && RapidOf(groups[j]).Some? {
      var j :| 0 <= j < |groups| && groups[j].0 == w && RapidOf(groups[j]).Some?;
      RapidWalletListed(groups, j);
    }
  }

  lemma RapidWalletOrigin(groups: seq<(string, seq<Transaction>)>, i: nat)
    requires i < |RapidSpec(groups)|
    ensures exists j :: 0 <= j < |groups| && groups[j].0 == RapidSpec(groups)[i].wallet && RapidOf(groups[j]).Some?
  {
    Seqs.CollectOrigin(groups, RapidOf, i);
    var a :| 0 <= a < |groups| && RapidOf(groups[a]) == Some(RapidSpec(groups)[i]);
    assert groups[a].0 == RapidSpec(groups)[i].wallet;
  }

  lemma RapidWalletListed(groups: seq<(string, seq<Transaction>)>, j: nat)
    requires j < |groups| && RapidOf(groups[j]).Some?
    ensures exists i :: 0 <= i < |RapidSpec(groups)| && RapidSpec(groups)[i].wallet == groups[j].0
  {
    var e := RapidOf(groups[j]).value;
    Seqs.CollectMember(groups, RapidOf, e);
    var i :| 0 <= i < |RapidSpec(groups)| && RapidSpec(groups)[i] == e;
  }

  /** With distinct group keys (as a dictionary has), no wallet is reported twice. */
  lemma RapidOnePerWallet(groups: seq<(string, seq<Transaction>)>)
    requires UniqueKeys(groups)
    ensures forall i, j :: 0 <= i < j < |RapidSpec(groups)| ==> RapidSpec(groups)[i].wallet != RapidSpec(groups)[j].wallet
  {
    var c := RapidSpec(groups);
    forall i, j | 0 <= i < j < |c| ensures c[i].wallet != c[j].wallet {
      Seqs.CollectOrdered(groups, RapidOf, i, j);
    }
  }

  /** `tx => tx` as the grouped value. */
  function Itself(tx: Transaction): Transaction
  {
    tx
  }

  /** `tx['source']` as the group key. */
  function SourceOf(tx: Transaction): string
  {
    tx.source
  }

  /** `tx_by_wallet` */
  function TxByWallet(txs: seq<Transaction>): seq<(string, seq<Transaction>)>
  {
    Grouping.GroupSpec(txs, SourceOf, Itself)
  }

  lemma MapItself(s: seq<Transaction>)
    ensures Seqs.Map(s, Itself) == s
  {
  }

  /** The rapid rule in terms of the transactions: wallet `w` is reported iff the
      list of the transactions it sent yields an entry, that is (RapidFor) iff it
      sent at least five and some five consecutive ones, in time order, span at
      most ten minutes; and the entry reported for `w` is that one. */
  lemma RapidRule(txs: seq<Transaction>, w: string)
    ensures var sent := Seqs.Filter(txs, Grouping.KeyIs(SourceOf, w));
      var rapid := RapidSpec(TxByWallet(txs));
      (exists i :: 0 <= i < |rapid| && rapid[i].wallet == w) <==> RapidFor(w, sent).Some?
    ensures var sent := Seqs.Filter(txs, Grouping.KeyIs(SourceOf, w));
      var rapid := RapidSpec(TxByWallet(txs));
      forall i :: 0 <= i < |rapid| && rapid[i].wallet == w ==> RapidFor(w, sent) == Some(rapid[i])
  {
    RapidReported(txs, w);
    RapidEntries(txs, w);
  }

  lemma RapidEntries(txs: seq<Transaction>, w: string)
    ensures var sent := Seqs.Filter(txs, Grouping.KeyIs(SourceOf, w));
      var rapid := RapidSpec(TxByWallet(txs));
      forall i :: 0 <= i < |rapid| && rapid[i].wallet == w ==> RapidFor(w, sent) == Some(rapid[i])
  {
    forall i | 0 <= i < |RapidSpec(TxByWallet(txs))| && RapidSpec(TxByWallet(txs))[i].wallet == w
      ensures RapidFor(w, Seqs.Filter(txs, Grouping.KeyIs(SourceOf, w))) == Some(RapidSpec(TxByWallet(txs))[i])
    {
      RapidEntryOf(txs, w, i);
    }
  }

  lemma RapidReported(txs: seq<Transaction>, w: string)
    ensures var sent := Seqs.Filter(txs, Grouping.KeyIs(SourceOf, w));
      var rapid := RapidSpec(TxByWallet(txs));
      (exists i :: 0 <= i < |rapid| && rapid[i].wallet == w) <==> RapidFor(w, sent).Some?
  {
    var sent := Seqs.Filter(txs, Grouping.KeyIs(SourceOf, w));
    var groups := TxByWallet(txs);
    Grouping.GroupSpecUnique(txs, SourceOf, Itself);
    Grouping.GroupSpecGet(txs, SourceOf, Itself, w);
    Grouping.GroupSpecKeys(txs, SourceOf, Itself, w);
    MapItself(sent);
    RapidWallets(groups, w);
    if exists j :: 0 <= j < |groups| && groups[j].0 == w {
      var j :| 0 <= j < |groups| && groups[j].0 == w;
      Grouping.FirstOccurrence(groups, j);
      assert groups[j].1 == sent;
      assert RapidOf(groups[j]) == RapidFor(w, sent);
      forall j' | 0 <= j' < |groups| && groups[j'].0 == w ensures j' == j {
      }
    } else {
      assert w !in Keys(groups);
      GetMeaning(groups, w, []);
    }
  }

  /** A reported entry for `w` is the one its sent transactions yield. */
  lemma RapidEntryOf(txs: seq<Transaction>, w: string, i: nat)
    requires i < |RapidSpec(TxByWallet(txs))| && RapidSpec(TxByWallet(txs))[i].wallet == w
    ensures RapidFor(w, Seqs.Filter(txs, Grouping.KeyIs(SourceOf, w))) == Some(RapidSpec(TxByWallet(txs))[i])
  {
    var groups := TxByWallet(txs);
    var sent := Seqs.Filter(txs, Grouping.KeyIs(SourceOf, w));
    Seqs.CollectOrigin(groups, RapidOf, i);
    var a :| 0 <= a < |groups| && RapidOf(groups[a]) == Some(RapidSpec(groups)[i]);
    assert groups[a].0 == w;
    Grouping.GroupSpecUnique(txs, SourceOf, Itself);
    Grouping.GroupSpecGet(txs, SourceOf, Itself, w);
    Grouping.FirstOccurrence(groups, a);
    MapItself(sent);
    assert groups[a].1 == sent;
  }

  /** No wallet is reported twice by the rapid rule. */
  lemma RapidOncePerWallet(txs: seq<Transaction>)
    ensures var rapid := RapidSpec(TxByWallet(txs));
      forall i, j :: 0 <= i < j < |rapid| ==> rapid[i].wallet != rapid[j].wallet
  {
    Grouping.GroupSpecUnique(txs, SourceOf, Itself);
    RapidOnePerWallet(TxByWallet(txs));
  }

  // ----------------------------------------------------------- high-value rule

  /** `tx['amount'] >= ALERT_THRESHOLDS['large_transaction']` */
  predicate IsHighValue(tx: Transaction)
  {
    tx.amount >= LargeTransaction
  }

  function HighValueOf(tx: Transaction): HighValueEntry
  {
    HighValueEntry(tx.id, tx.amount, tx.source, tx.target)
  }

  function HighValueSpec(txs: seq<Transaction>): seq<HighValueEntry>
  {
    Seqs.Map(Seqs.Filter(txs, IsHighValue), HighValueOf)
  }

  /** A transaction of the list is reported as high-value iff its amount is at
      least 100. */
  lemma HighValueRule(txs: seq<Transaction>, tx: Transaction)
    requires tx in txs
    ensures HighValueOf(tx) in HighValueSpec(txs) <==> tx.amount >= LargeTransaction
  {
    var f := Seqs.Filter(txs, IsHighValue);
    if tx.amount >= LargeTransaction {
      var i :| 0 <= i < |txs| && txs[i] == tx;
      var k :| 0 <= k < |f| && f[k] == tx;
      assert HighValueSpec(txs)[k] == HighValueOf(tx);
    }
    if HighValueOf(tx) in HighValueSpec(txs) {
      var k :| 0 <= k < |HighValueSpec(txs)| && HighValueSpec(txs)[k] == HighValueOf(tx);
      assert f[k].amount == tx.amount;
    }
  }

  // ------------------------------------------------------------ blacklist rule

  predicate IsBlacklistedTx(tx: Transaction)
  {
    tx.source in Blacklisted || tx.target in Blacklisted
  }

  /** The entry for a blacklisted transaction; the source is reported when both
      ends are listed. */
  function BlacklistHit(tx: Transaction): (e: BlacklistEntry)
    requires IsBlacklistedTx(tx)
  {
    var a := if tx.source in Blacklisted then tx.source else tx.target;
    BlacklistEntry(tx.id, a, Blacklisted[a].kind, Blacklisted[a].severity)
  }

  lemma BlacklistHitMeaning(tx: Transaction)
    requires IsBlacklistedTx(tx)
    ensures var e := BlacklistHit(tx);
      e.transaction == tx.id
      && e.blacklistedAddress in Blacklisted
      && (e.blacklistedAddress == tx.source || e.blacklistedAddress == tx.target)
      && (tx.source in Blacklisted ==> e.blacklistedAddress == tx.source)
      && e.kind == Blacklisted[e.blacklistedAddress].kind
      && e.severity == Blacklisted[e.blacklistedAddress].severity
  {
  }

  function BlacklistSpec(txs: seq<Transaction>): seq<BlacklistEntry>
  {
    if |txs| == 0 then []
    else
      var last := txs[|txs| - 1];
      BlacklistSpec(txs[..|txs| - 1]) + (if IsBlacklistedTx(last) then [BlacklistHit(last)] else [])
  }

  /** One entry per transaction touching a listed address, in order. */
  lemma {:induction false} BlacklistRule(txs: seq<Transaction>)
    ensures var f := Seqs.Filter(txs, IsBlacklistedTx);
      |BlacklistSpec(txs)| == |f|
      && forall i :: 0 <= i < |f| ==> IsBlacklistedTx(f[i]) && BlacklistSpec(txs)[i] == BlacklistHit(f[i])
  {
    if |txs| > 0 {
      var n := |txs| - 1;
      var last := txs[n];
      BlacklistRule(txs[..n]);
      Seqs.FilterSnoc(txs, n, IsBlacklistedTx);
      assert txs[..n + 1] == txs;
      var f := Seqs.Filter(txs, IsBlacklistedTx);
      var g := Seqs.Filter(txs[..n], IsBlacklistedTx);
      var spec := BlacklistSpec(txs);
      var prior := BlacklistSpec(txs[..n]);
      assert f == g + (if IsBlacklistedTx(last) then [last] else []);
      assert spec == prior + (if IsBlacklistedTx(last) then [BlacklistHit(last)] else []);
      forall i | 0 <= i < |f| ensures IsBlacklistedTx(f[i]) && spec[i] == BlacklistHit(f[i]) {
        if i < |g| {
          assert f[i] == g[i] && spec[i] == prior[i];
        }
      }
    }
  }

  // ---------------------------------------------------------------- mixer rule

  predicate IsMixerNode(n: Node)
  {
    n.kind == "mixer"
  }

  function NodeId(n: Node): string
  {
    n.id
  }

  /** `mixer_nodes` */
  function MixerIds(nodes: seq<Node>): seq<string>
  {
    Seqs.Map(Seqs.Filter(nodes, IsMixerNode), NodeId)
  }

  lemma MixerIdsExactly(nodes: seq<Node>, a: string)
    ensures a in MixerIds(nodes) <==> exists i :: 0 <= i < |nodes| && nodes[i].id == a && nodes[i].kind == "mixer"
  {
    Seqs.MapFilterMember(nodes, IsMixerNode, NodeId, a);
  }

  function MixerOf(mixers: seq<string>): Transaction -> MixerEntry
  {
    (tx: Transaction) => MixerEntry(tx.id, if tx.source in mixers then tx.source else tx.target, tx.amount)
  }

  function TouchesMixer(mixers: seq<string>): Transaction -> bool
  {
    (tx: Transaction) => tx.source in mixers || tx.target in mixers
  }

  function MixerSpec(txs: seq<Transaction>, nodes: seq<Node>): seq<MixerEntry>
  {
    var mixers := MixerIds(nodes);
    Seqs.Map(Seqs.Filter(txs, TouchesMixer(mixers)), MixerOf(mixers))
  }

  /** Mixer activity is reported for exactly the transactions with an end at a
      node of type `mixer`, naming the source when it is one and the target
      otherwise. */
  lemma MixerRule(txs: seq<Transaction>, nodes: seq<Node>)
    ensures var f := Seqs.Filter(txs, TouchesMixer(MixerIds(nodes)));
      var m := MixerSpec(txs, nodes);
      |m| == |f|
      && (forall tx :: tx in f <==> tx in txs && (tx.source in MixerIds(nodes) || tx.target in MixerIds(nodes)))
      && forall i :: 0 <= i < |f| ==>
        m[i].transaction == f[i].id && m[i].amount == f[i].amount && m[i].mixerAddress in MixerIds(nodes)
        && (f[i].source in MixerIds(nodes) ==> m[i].mixerAddress == f[i].source)
        && (f[i].source !in MixerIds(nodes) ==> m[i].mixerAddress == f[i].target)
  {
    var mixers := MixerIds(nodes);
    var p := TouchesMixer(mixers);
    var f := Seqs.Filter(txs, p);
    forall tx | tx in txs && p(tx) ensures tx in f {
      var i :| 0 <= i < |txs| && txs[i] == tx;
    }
    forall tx | tx in f ensures tx in txs && p(tx) {
      var i :| 0 <= i < |f| && f[i] == tx;
    }
  }

  // --------------------------------------------------------------- all rules

  function PatternsSpec(txs: seq<Transaction>, nodes: seq<Node>): Patterns
  {
    Patterns(RapidSpec(TxByWallet(txs)), HighValueSpec(txs), MixerSpec(txs, nodes), BlacklistSpec(txs))
  }

  /** The high-value loop. */
  method DetectHighValue(txs: seq<Transaction>) returns (highValue: seq<HighValueEntry>)
    ensures highValue == HighValueSpec(txs)
  {
    highValue := [];
    var i := 0;
    while i < |txs|
      invariant 0 <= i <= |txs|
      invariant highValue == HighValueSpec(txs[..i])
    {
      Seqs.FilterSnoc(txs, i, IsHighValue);
      Seqs.MapAppend(Seqs.Filter(txs[..i], IsHighValue), if IsHighValue(txs[i]) then [txs[i]] else [], HighValueOf);
      if txs[i].amount >= LargeTransaction {
        highValue := highValue + [HighValueOf(txs[i])];
      }
      i := i + 1;
    }
    assert txs[..|txs|] == txs;
  }

  /** The blacklist loop. */
  method DetectBlacklisted(txs: seq<Transaction>) returns (blacklisted: seq<BlacklistEntry>)
    ensures blacklisted == BlacklistSpec(txs)
  {
    blacklisted := [];
    var i := 0;
    while i < |txs|
      invariant 0 <= i <= |txs|
      invariant blacklisted == BlacklistSpec(txs[..i])
    {
      assert txs[..i + 1][..i] == txs[..i];
      var tx := txs[i];
      if tx.source in Blacklisted || tx.target in Blacklisted {
        var address := if tx.source in Blacklisted then tx.source else tx.target;
        blacklisted := blacklisted + [BlacklistEntry(tx.id, address, Blacklisted[address].kind, Blacklisted[address].severity)];
      }
      i := i + 1;
    }
    assert txs[..|txs|] == txs;
  }

  /** The mixer loop, over the list of mixer ids. */
  method DetectMixer(txs: seq<Transaction>, mixers: seq<string>) returns (mixer: seq<MixerEntry>)
    ensures mixer == Seqs.Map(Seqs.Filter(txs, TouchesMixer(mixers)), MixerOf(mixers))
  {
    mixer := [];
    var i := 0;
    while i < |txs|
      invariant 0 <= i <= |txs|
      invariant mixer == Seqs.Map(Seqs.Filter(txs[..i], TouchesMixer(mixers)), MixerOf(mixers))
    {
      Seqs.FilterSnoc(txs, i, TouchesMixer(mixers));
      Seqs.MapAppend(Seqs.Filter(txs[..i], TouchesMixer(mixers)),
        if TouchesMixer(mixers)(txs[i]) then [txs[i]] else [], MixerOf(mixers));
      var tx := txs[i];
      if tx.source in mixers || tx.target in mixers {
        mixer := mixer + [MixerEntry(tx.id, if tx.source in mixers then tx.source else tx.target, tx.amount)];
      }
      i := i + 1;
    }
    assert txs[..|txs|] == txs;
  }

  /** `detect_suspicious_patterns(transactions, nodes)` */
  method DetectSuspiciousPatterns(txs: seq<Transaction>, nodes: seq<Node>) returns (p: Patterns)
    ensures p == PatternsSpec(txs, nodes)
  {
    var byWallet := Grouping.GroupBy(txs, SourceOf, Itself);
    var rapid := DetectRapid(byWallet);
    var highValue := DetectHighValue(txs);
    var blacklisted := DetectBlacklisted(txs);
    var mixers := MixerIds(nodes);
    var mixer := DetectMixer(txs, mixers);
    p := Patterns(rapid, highValue, mixer, blacklisted);
  }
}
