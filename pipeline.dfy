/** The dashboard page's derived views (src/App.jsx): the search filter, the
    wallet filter, the headline statistics, the pie-chart slices and the alert
    badge. All are recomputed from the page state on every render. */
module Pipeline {
  import opened Wrappers
  import opened Entities
  import Seqs
  import Text

  /** The search test: the query, lower-cased, occurs in the lower-cased source,
      target or id. */
  predicate MatchesQuery(tx: Transaction, query: string)
  {
    var q := Text.Lower(query);
    Text.Contains(Text.Lower(tx.source), q)
      || Text.Contains(Text.Lower(tx.target), q)
      || Text.Contains(Text.Lower(tx.id), q)
  }

  /** `transactions.filter(tx => ...includes(searchQuery.toLowerCase()))` */
  function TextFilter(txs: seq<Transaction>, query: string): seq<Transaction>
  {
    Seqs.Filter(txs, (tx: Transaction) => MatchesQuery(tx, query))
  }

  /** `filteredTransactions`: nothing before the data is loaded. */
  function FilteredTransactions(data: Option<Dataset>, query: string): (r: seq<Transaction>)
    ensures data.None? ==> r == []
    ensures data.Some? ==> r == TextFilter(data.value.transactions, query)
  {
    match data
    case None => []
    case Some(d) => TextFilter(d.transactions, query)
  }

  /** A transaction survives the search iff the query occurs in its source, target
      or id, ignoring ASCII case, and the survivors keep their order. */
  lemma TextFilterExactly(txs: seq<Transaction>, query: string)
    ensures forall tx :: tx in TextFilter(txs, query) <==> tx in txs && MatchesQuery(tx, query)
    ensures Seqs.IsSubsequence(TextFilter(txs, query), txs)
  {
    var r := TextFilter(txs, query);
    forall tx | tx in txs && MatchesQuery(tx, query) ensures tx in r {
      var i :| 0 <= i < |txs| && txs[i] == tx;
    }
    forall tx | tx in r ensures tx in txs && MatchesQuery(tx, query) {
      var i :| 0 <= i < |r| && r[i] == tx;
    }
    Seqs.FilterIsSubsequence(txs, (tx: Transaction) => MatchesQuery(tx, query));
  }

  /** The empty search keeps every transaction. */
  lemma EmptyQueryKeepsAll(txs: seq<Transaction>)
    ensures TextFilter(txs, "") == txs
  {
    forall tx | tx in txs ensures MatchesQuery(tx, "") {
      Text.ContainsEmpty(Text.Lower(tx.source));
    }
    Seqs.FilterAllPass(txs, (tx: Transaction) => MatchesQuery(tx, ""));
  }

  /** Searching the search result again with the same query changes nothing. */
  lemma TextFilterIdempotent(txs: seq<Transaction>, query: string)
    ensures TextFilter(TextFilter(txs, query), query) == TextFilter(txs, query)
  {
    Seqs.FilterIdempotent(txs, (tx: Transaction) => MatchesQuery(tx, query));
  }

  /** `tx.source === selectedWallet || tx.target === selectedWallet` */
  predicate TouchesWallet(tx: Transaction, wallet: string)
  {
    tx.source == wallet || tx.target == wallet
  }

  /** JavaScript truthiness of `selectedWallet`: `null` and `''` are falsy. */
  predicate WalletSelected(wallet: Option<string>)
  {
    wallet.Some? && wallet.value != ""
  }

  /** `filteredTransactionsByWallet`, applied to the search result. */
  function WalletFilter(txs: seq<Transaction>, wallet: Option<string>): (r: seq<Transaction>)
  {
    if WalletSelected(wallet) then Seqs.Filter(txs, (tx: Transaction) => TouchesWallet(tx, wallet.value))
    else txs
  }

  /** With a wallet selected, the detail list holds exactly the searched
      transactions that touch it (exact, case-sensitive comparison), in order;
      with none, it is the search result itself. */
  lemma WalletFilterExactly(txs: seq<Transaction>, wallet: Option<string>)
    ensures WalletSelected(wallet) ==>
      forall tx :: tx in WalletFilter(txs, wallet) <==> tx in txs && TouchesWallet(tx, wallet.value)
    ensures !WalletSelected(wallet) ==> WalletFilter(txs, wallet) == txs
    ensures Seqs.IsSubsequence(WalletFilter(txs, wallet), txs)
  {
    if WalletSelected(wallet) {
      var w := wallet.value;
      var r := WalletFilter(txs, wallet);
      forall tx | tx in txs && TouchesWallet(tx, w) ensures tx in r {
        var i :| 0 <= i < |txs| && txs[i] == tx;
      }
      forall tx | tx in r ensures tx in txs && TouchesWallet(tx, w) {
        var i :| 0 <= i < |r| && r[i] == tx;
      }
      Seqs.FilterIsSubsequence(txs, (tx: Transaction) => TouchesWallet(tx, w));
    } else {
      Seqs.SubsequenceReflexive(txs);
    }
  }

  /** The four headline numbers. */
  datatype Stats = Stats(totalVolume: real, totalTransactions: nat, avgTransaction: real, flaggedCount: nat)

  /** `stats`: computed over the search result (not the wallet-filtered list). */
  function ComputeStats(data: Option<Dataset>, query: string): (s: Stats)
    ensures data.None? ==> s == Stats(0.0, 0, 0.0, 0)
    ensures data.Some? ==>
      var txs := FilteredTransactions(data, query);
      s.totalVolume == Volume(txs)
      && s.totalTransactions == |txs|
      && s.avgTransaction == (if |txs| > 0 then Volume(txs) / |txs| as real else 0.0)
      && s.flaggedCount == Seqs.Count(txs, Flagged)
      && s.flaggedCount <= s.totalTransactions
  {
    match data
    case None => Stats(0.0, 0, 0.0, 0)
    case Some(_) =>
      var txs := FilteredTransactions(data, query);
      Stats(
        Volume(txs),
        |txs|,
        if |txs| > 0 then Volume(txs) / |txs| as real else 0.0,
        Seqs.Count(txs, Flagged))
  }

  /** One slice of the legitimate/suspicious pie chart. */
  datatype Slice = Slice(name: string, value: int)

  /** `chartData`: no slices before the data is loaded. */
  function ChartData(data: Option<Dataset>, query: string): (r: seq<Slice>)
    ensures data.None? ==> r == []
    ensures data.Some? ==>
      |r| == 2 && r[0].value >= 0 && r[1].value >= 0
      && r[0].value + r[1].value == |FilteredTransactions(data, query)|
      && r[1].value == ComputeStats(data, query).flaggedCount
  {
    if data.None? then []
    else
      var s := ComputeStats(data, query);
      [Slice("Legítimas", |FilteredTransactions(data, query)| - s.flaggedCount),
       Slice("Sospechosas", s.flaggedCount)]
  }

  /** The bell badge: hidden for an empty list, `9+` above nine, else the count. */
  function AlertBadge(alertCount: nat): (r: Option<string>)
    ensures r.None? <==> alertCount == 0
    ensures alertCount > 9 ==> r == Some("9+")
    ensures 0 < alertCount <= 9 ==> r.Some? && |r.value| == 1 && r.value[0] as int - '0' as int == alertCount
  {
    if alertCount > 0 then
      (if alertCount > 9 then Some("9+") else Some(Text.NatToString(alertCount)))
    else None
  }
}
