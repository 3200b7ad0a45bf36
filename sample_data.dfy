/** The fixed demonstration network the dashboard loads
    (src/utils/blockchainDataGenerator.js): eight nodes, ten transactions and
    one link per transaction. `now` is the load time in seconds; each
    timestamp lies a fixed offset before it. The generator reads the clock
    again for every timestamp; the model takes all of those readings to be
    the same instant. */
module SampleData {
  import opened Wrappers
  import opened Entities
  import Seqs
  import Pipeline
  import NetworkGraph

  function Nodes(): seq<Node>
  {
    [ Node("0x1a2b3c", "Exchange Hub", true, "exchange", None, None),
      Node("0x4d5e6f", "Whale Wallet", true, "wallet", None, None),
      Node("0x7g8h9i", "DAO Treasury", false, "contract", None, None),
      Node("0xjklmno", "Miner Pool A", true, "pool", None, None),
      Node("0xpqrstu", "Retail Wallet 1", false, "wallet", None, None),
      Node("0xvwxyz0", "Token Project", false, "contract", None, None),
      Node("0x112233", "Unknown Source", true, "unknown", None, None),
      Node("0x445566", "Market Maker", false, "exchange", None, None) ]
  }

  function Transactions(now: real): seq<Transaction>
  {
    [ Transaction("tx_001", "0x1a2b3c", "0x4d5e6f", 125.5, now - 3600.0, false),
      Transaction("tx_002", "0x4d5e6f", "0x7g8h9i", 89.2, now - 3000.0, false),
      Transaction("tx_003", "0x7g8h9i", "0xjklmno", 45.1, now - 2400.0, false),
      Transaction("tx_004", "0xjklmno", "0xpqrstu", 12.3, now - 1800.0, false),
      Transaction("tx_005", "0xpqrstu", "0xvwxyz0", 8.7, now - 1200.0, false),
      Transaction("tx_006", "0xvwxyz0", "0x1a2b3c", 25.0, now - 600.0, false),
      Transaction("tx_007", "0x112233", "0x4d5e6f", 200.0, now - 300.0, true),
      Transaction("tx_008", "0x4d5e6f", "0x445566", 150.0, now - 150.0, true),
      Transaction("tx_009", "0x445566", "0x112233", 180.0, now, true),
      Transaction("tx_010", "0x1a2b3c", "0xpqrstu", 5.5, now - 900.0, false) ]
  }

  /** `transactions.map(tx => ({ source: tx.source, target: tx.target, transaction: tx }))` */
  function LinksOf(txs: seq<Transaction>): (links: seq<Link>)
    ensures |links| == |txs|
    ensures forall i :: 0 <= i < |txs| ==>
      links[i].source == txs[i].source && links[i].target == txs[i].target && links[i].transaction == txs[i]
  {
    Seqs.Map(txs, (tx: Transaction) => Link(tx.source, tx.target, tx))
  }

  /** `generateBlockchainData()` */
  function Generate(now: real): Dataset
  {
    var txs := Transactions(now);
    Dataset(Nodes(), LinksOf(txs), txs)
  }

  /** The node ids are pairwise distinct, and so are the transaction ids. */
  lemma IdsUnique(now: real)
    ensures NetworkGraph.UniqueNodeIds(Generate(now).nodes)
    ensures var txs := Generate(now).transactions;
      forall i, j :: 0 <= i < j < |txs| ==> txs[i].id != txs[j].id
  {
    NodeIdsUnique();
    TransactionIdsUnique(now);
  }

  lemma NodeIdsUnique()
    ensures NetworkGraph.UniqueNodeIds(Nodes())
  {
  }

  lemma TransactionIdsUnique(now: real)
    ensures var txs := Transactions(now);
      forall i, j :: 0 <= i < j < |txs| ==> txs[i].id != txs[j].id
  {
  }

  /** Every endpoint of every link is a node, so the graph can draw all links. */
  lemma LinksResolve(now: real)
    ensures var d := Generate(now);
      forall i :: 0 <= i < |d.links| ==> NetworkGraph.Resolves(d.nodes, d.links[i])
  {
    var d := Generate(now);
    var n := d.nodes;
    forall i | 0 <= i < |d.links| ensures NetworkGraph.Resolves(n, d.links[i]) {
      var l := d.links[i];
      assert exists k :: 0 <= k < |n| && n[k].id == l.source by {
        if l.source == n[0].id { assert n[0].id == l.source; }
        else if l.source == n[1].id { assert n[1].id == l.source; }
        else if l.source == n[2].id { assert n[2].id == l.source; }
        else if l.source == n[3].id { assert n[3].id == l.source; }
        else if l.source == n[4].id { assert n[4].id == l.source; }
        else if l.source == n[5].id { assert n[5].id == l.source; }
        else if l.source == n[6].id { assert n[6].id == l.source; }
        else { assert n[7].id == l.source; }
      }
      assert exists k :: 0 <= k < |n| && n[k].id == l.target by {
        if l.target == n[0].id { assert n[0].id == l.target; }
        else if l.target == n[1].id { assert n[1].id == l.target; }
        else if l.target == n[2].id { assert n[2].id == l.target; }
        else if l.target == n[3].id { assert n[3].id == l.target; }
        else if l.target == n[4].id { assert n[4].id == l.target; }
        else if l.target == n[5].id { assert n[5].id == l.target; }
        else if l.target == n[6].id { assert n[6].id == l.target; }
        else { assert n[7].id == l.target; }
      }
    }
  }

  /** So the drawing of the generated network never fails. */
  lemma GraphDrawable(unit: real -> NetworkGraph.Point, now: real, selected: Option<string>)
    ensures var d := Generate(now);
      NetworkGraph.DrawLinks(unit, d.nodes, d.links, selected).Some?
  {
    LinksResolve(now);
  }

  /** All amounts are positive, and exactly tx_007, tx_008 and tx_009 are flagged. */
  lemma AmountsAndFlags(now: real)
    ensures var txs := Generate(now).transactions;
      (forall i :: 0 <= i < |txs| ==> txs[i].amount > 0.0)
      && (forall i :: 0 <= i < |txs| ==> (txs[i].isFlagged <==> 6 <= i <= 8))
      && Seqs.Filter(txs, Flagged) == txs[6..9]
  {
    var txs := Generate(now).transactions;
    PositiveAmounts(now);
    FlagsOfTen(now);
    FlaggedBlock(txs);
  }

  lemma PositiveAmounts(now: real)
    ensures var txs := Transactions(now);
      forall i :: 0 <= i < |txs| ==> txs[i].amount > 0.0
  {
    var txs := Transactions(now);
    forall i | 0 <= i < |txs| ensures txs[i].amount > 0.0 {
      if i < 5 {
        assert txs[i] in txs[..5];
      } else {
        assert txs[i] in txs[5..];
      }
    }
  }

  lemma FlagsOfTen(now: real)
    ensures var txs := Transactions(now);
      forall i :: 0 <= i < |txs| ==> (txs[i].isFlagged <==> 6 <= i <= 8)
  {
    var txs := Transactions(now);
    forall i | 0 <= i < |txs| ensures txs[i].isFlagged <==> 6 <= i <= 8 {
      if i < 6 {
        assert txs[i] in txs[..6];
      } else if i < 9 {
        assert txs[i] in txs[6..9];
      } else {
        assert txs[i] == txs[9];
      }
    }
  }

  /** Ten transactions of which exactly those at 6, 7 and 8 are flagged. */
  lemma FlaggedBlock(txs: seq<Transaction>)
    requires |txs| == 10
    requires forall i :: 0 <= i < |txs| ==> (txs[i].isFlagged <==> 6 <= i <= 8)
    ensures Seqs.Filter(txs, Flagged) == txs[6..9]
  {
    var p := Flagged;
    FlaggedSuffix(txs);
    FilterFrom(txs, 5, p);
    FilterFrom(txs, 4, p);
    FilterFrom(txs, 3, p);
    FilterFrom(txs, 2, p);
    FilterFrom(txs, 1, p);
    FilterFrom(txs, 0, p);
    assert txs[0..] == txs;
  }

  /** The last four when exactly the first three are flagged. */
  lemma FlaggedSuffix(txs: seq<Transaction>)
    requires |txs| == 10
    requires forall i :: 0 <= i < |txs| ==> (txs[i].isFlagged <==> 6 <= i <= 8)
    ensures Seqs.Filter(txs[6..], Flagged) == txs[6..9]
  {
    var p := Flagged;
    assert txs[10..] == [];
    FilterFrom(txs, 9, p);
    FilterFrom(txs, 8, p);
    FilterFrom(txs, 7, p);
    FilterFrom(txs, 6, p);
  }

  /** Filtering a suffix, one element at a time. */
  lemma FilterFrom<T>(s: seq<T>, k: nat, p: T -> bool)
    requires k < |s|
    ensures Seqs.Filter(s[k..], p) == (if p(s[k]) then [s[k]] else []) + Seqs.Filter(s[k + 1..], p)
  {
    assert s[k..][1..] == s[k + 1..];
  }

  /** The volume of ten transactions, written out. */
  lemma VolumeOfTen(txs: seq<Transaction>)
    requires |txs| == 10
    ensures Volume(txs) == txs[0].amount + txs[1].amount + txs[2].amount + txs[3].amount + txs[4].amount
      + txs[5].amount + txs[6].amount + txs[7].amount + txs[8].amount + txs[9].amount
  {
    assert txs[..1][..0] == txs[..0];
    assert Volume(txs[..1]) == Volume(txs[..0]) + txs[0].amount;
    assert txs[..2][..1] == txs[..1];
    assert Volume(txs[..2]) == Volume(txs[..1]) + txs[1].amount;
    assert txs[..3][..2] == txs[..2];
    assert Volume(txs[..3]) == Volume(txs[..2]) + txs[2].amount;
    assert txs[..4][..3] == txs[..3];
    assert Volume(txs[..4]) == Volume(txs[..3]) + txs[3].amount;
    assert txs[..5][..4] == txs[..4];
    assert Volume(txs[..5]) == Volume(txs[..4]) + txs[4].amount;
    assert txs[..6][..5] == txs[..5];
    assert Volume(txs[..6]) == Volume(txs[..5]) + txs[5].amount;
    assert txs[..7][..6] == txs[..6];
    assert Volume(txs[..7]) == Volume(txs[..6]) + txs[6].amount;
    assert txs[..8][..7] == txs[..7];
    assert Volume(txs[..8]) == Volume(txs[..7]) + txs[7].amount;
    assert txs[..9][..8] == txs[..8];
    assert Volume(txs[..9]) == Volume(txs[..8]) + txs[8].amount;
    assert txs[..10][..9] == txs[..9];
    assert Volume(txs[..10]) == Volume(txs[..9]) + txs[9].amount;
    assert txs[..10] == txs;
  }

  /** The total the generated transactions move. */
  lemma GeneratedVolume(now: real)
    ensures Volume(Generate(now).transactions) == 841.3
  {
    VolumeOfTen(Generate(now).transactions);
  }

  /** The numbers the page computes from any ten transactions of that volume,
      three of them flagged. */
  lemma StatsFromTotals(d: Dataset)
    requires Pipeline.TextFilter(d.transactions, "") == d.transactions
    requires |d.transactions| == 10 && Volume(d.transactions) == 841.3
    requires Seqs.Count(d.transactions, Flagged) == 3
    ensures Pipeline.ComputeStats(Some(d), "") == Pipeline.Stats(841.3, 10, 84.13, 3)
  {
    var s := Pipeline.ComputeStats(Some(d), "");
    assert Pipeline.FilteredTransactions(Some(d), "") == d.transactions;
    assert s.avgTransaction == 841.3 / 10.0;
  }

  /** The headline numbers for the empty search over the generated data. */
  lemma DefaultStats(now: real)
    ensures Pipeline.ComputeStats(Some(Generate(now)), "") == Pipeline.Stats(841.3, 10, 84.13, 3)
  {
    var d := Generate(now);
    Pipeline.EmptyQueryKeepsAll(d.transactions);
    GeneratedVolume(now);
    AmountsAndFlags(now);
    StatsFromTotals(d);
  }
}
