/** `trace_funds` (backend/app.py): a breadth-first walk over the outgoing
    transactions of each address, bounded by a maximum depth, that records
    every path it extends; then the paths sorted by amount, the ten largest,
    and a summary. */
module FundTracing {
  import opened Entities
  import Seqs
  import Sorting

  /** One record of `traced_paths`; `transactions` holds only the last hop's
      transaction, as the source writes it. */
  datatype TracedPath = TracedPath(path: seq<string>, depth: int, totalAmount: real, transactions: seq<Transaction>)

  /** A queue entry `(node, path, depth, total_amount)`. */
  datatype Pending = Pending(node: string, path: seq<string>, depth: int, total: real)

  function SentFrom(w: string): Transaction -> bool
  {
    (tx: Transaction) => tx.source == w
  }

  /** `graph[w]`: the transactions leaving `w`, in ledger order. */
  function Outgoing(txs: seq<Transaction>, w: string): (out: seq<Transaction>)
    ensures forall i :: 0 <= i < |out| ==> out[i] in txs && out[i].source == w
  {
    Seqs.Filter(txs, SentFrom(w))
  }

  /** Consecutive addresses of `path` are joined by a ledger transaction, and
      `total` is the sum of those transactions' amounts. */
  ghost predicate IsWalk(txs: seq<Transaction>, path: seq<string>, total: real)
    decreases |path|
  {
    if |path| <= 1 then |path| == 1 && total == 0.0
    else exists tx :: (tx in txs && tx.source == path[|path| - 2] && tx.target == path[|path| - 1]
                       && IsWalk(txs, path[..|path| - 1], total - tx.amount))
  }

  /** What every queue entry satisfies. */
  ghost predicate PendingValid(txs: seq<Transaction>, start: string, p: Pending)
  {
    p.depth >= 0 && |p.path| == p.depth + 1 && p.path[0] == start && p.path[|p.path| - 1] == p.node
    && IsWalk(txs, p.path, p.total)
  }

  /** What every traced path satisfies: it starts at `start`, has `depth` hops
      with 1 <= depth <= maxDepth, is a walk of the ledger whose amounts add up
      to `totalAmount`, and names its last hop's transaction. */
  ghost predicate Traced(txs: seq<Transaction>, start: string, maxDepth: int, t: TracedPath)
  {
    1 <= t.depth <= maxDepth && |t.path| == t.depth + 1 && t.path[0] == start
    && IsWalk(txs, t.path, t.totalAmount)
    && |t.transactions| == 1 && t.transactions[0] in txs
    && t.transactions[0].source == t.path[|t.path| - 2] && t.transactions[0].target == t.path[|t.path| - 1]
  }

  ghost predicate AllTraced(txs: seq<Transaction>, start: string, maxDepth: int, ts: seq<TracedPath>)
  {
    forall i :: 0 <= i < |ts| ==> Traced(txs, start, maxDepth, ts[i])
  }

  /** What every queue entry satisfies, with its depth at most `bound`. */
  ghost predicate QueueOk(txs: seq<Transaction>, start: string, bound: int, q: seq<Pending>)
  {
    forall i :: 0 <= i < |q| ==> PendingValid(txs, start, q[i]) && q[i].depth <= bound
  }

  lemma QueueStep(txs: seq<Transaction>, start: string, bound: int, q: seq<Pending>, added: seq<Pending>)
    requires |q| > 0 && QueueOk(txs, start, bound, q) && QueueOk(txs, start, bound, added)
    ensures QueueOk(txs, start, bound, q[1..] + added)
  {
    var r := q[1..] + added;
    forall i | 0 <= i < |r| ensures PendingValid(txs, start, r[i]) && r[i].depth <= bound {
      if i < |q| - 1 {
        assert r[i] == q[i + 1];
      } else {
        assert r[i] == added[i - |q| + 1];
      }
    }
  }

  /** The record appended when `item` is extended along `tx`. */
  function HopFrom(item: Pending): Transaction -> TracedPath
  {
    (tx: Transaction) => TracedPath(item.path + [tx.target], item.depth + 1, item.total + tx.amount, [tx])
  }

  function Root(start: string): Pending
  {
    Pending(start, [start], 0, 0.0)
  }

  /** The first level: one path per transaction leaving the start address. */
  function FirstHops(txs: seq<Transaction>, start: string): seq<TracedPath>
  {
    Seqs.Map(Outgoing(txs, start), HopFrom(Root(start)))
  }

  lemma WalkExtend(txs: seq<Transaction>, path: seq<string>, total: real, tx: Transaction)
    requires IsWalk(txs, path, total) && |path| >= 1
    requires tx in txs && tx.source == path[|path| - 1]
    ensures IsWalk(txs, path + [tx.target], total + tx.amount)
  {
    var np := path + [tx.target];
    assert np[..|np| - 1] == path;
    assert total + tx.amount - tx.amount == total;
  }

  /** The queue holds depths in non-decreasing order, at most one apart. */
  ghost predicate Layered(q: seq<Pending>)
  {
    (forall i, j :: 0 <= i < j < |q| ==> q[i].depth <= q[j].depth)
    && (forall i :: 0 <= i < |q| ==> q[i].depth <= q[0].depth + 1)
  }

  function AtDepth(d: int): Pending -> bool
  {
    (p: Pending) => p.depth == d
  }

  /** How many levels at most remain below the front of the queue. */
  function FrontRank(q: seq<Pending>, bound: int): nat
  {
    if |q| == 0 || q[0].depth > bound then 0 else bound + 1 - q[0].depth
  }

  /** How many entries share the front entry's depth. */
  function FrontCount(q: seq<Pending>): nat
  {
    if |q| == 0 then 0 else Seqs.Count(q, AtDepth(q[0].depth))
  }

  /** Popping the front and pushing entries one level deeper keeps the queue
      layered and lowers the measure `(FrontRank, FrontCount)`. */
  lemma QueueProgress(q: seq<Pending>, pushed: seq<Pending>, bound: int)
    requires |q| > 0 && Layered(q)
    requires forall i :: 0 <= i < |q| ==> q[i].depth <= bound
    requires forall i :: 0 <= i < |pushed| ==> pushed[i].depth == q[0].depth + 1 <= bound
    ensures Layered(q[1..] + pushed)
    ensures var r := q[1..] + pushed;
      FrontRank(r, bound) < FrontRank(q, bound)
      || (FrontRank(r, bound) == FrontRank(q, bound) && FrontCount(r) < FrontCount(q))
  {
    QueueLayered(q, pushed);
    var d := q[0].depth;
    var r := q[1..] + pushed;
    if |r| > 0 {
      assert r[0].depth >= d by {
        if |q| > 1 { assert r[0] == q[1]; } else { assert r[0] == pushed[0]; }
      }
      if r[0].depth == d {
        CountFront(q, pushed);
      }
    }
  }

  /** Popping the front and pushing entries one level deeper keeps the queue
      layered. */
  lemma QueueLayered(q: seq<Pending>, pushed: seq<Pending>)
    requires |q| > 0 && Layered(q)
    requires forall i :: 0 <= i < |pushed| ==> pushed[i].depth == q[0].depth + 1
    ensures Layered(q[1..] + pushed)
  {
    var d := q[0].depth;
    var r := q[1..] + pushed;
    forall i | 0 <= i < |r| ensures d <= r[i].depth <= d + 1 {
      if i < |q| - 1 { assert r[i] == q[i + 1]; } else { assert r[i] == pushed[i - |q| + 1]; }
    }
    forall i, j | 0 <= i < j < |r| ensures r[i].depth <= r[j].depth {
      if j < |q| - 1 {
        assert r[i] == q[i + 1] && r[j] == q[j + 1];
      } else {
        assert r[j] == pushed[j - |q| + 1];
      }
    }
  }

  /** Popping the front leaves one entry fewer at the front's depth. */
  lemma CountFront(q: seq<Pending>, pushed: seq<Pending>)
    requires |q| > 0
    requires forall i :: 0 <= i < |pushed| ==> pushed[i].depth == q[0].depth + 1
    ensures Seqs.Count(q[1..] + pushed, AtDepth(q[0].depth)) + 1 == Seqs.Count(q, AtDepth(q[0].depth))
  {
    var p := AtDepth(q[0].depth);
    assert q == [q[0]] + q[1..];
    Seqs.FilterAppend([q[0]], q[1..], p);
    Seqs.FilterAppend(q[1..], pushed, p);
    Seqs.FilterNonePass(pushed, p);
  }

  /** The queue half of the loop invariant of `TracePaths`; `started` is false
      only before the first entry is taken from the queue. */
  ghost predicate QueueInv(txs: seq<Transaction>, start: string, maxDepth: int, bound: int,
                           queue: seq<Pending>, started: bool)
  {
    QueueOk(txs, start, bound, queue) && Layered(queue)
    && (maxDepth >= 1 && !started ==> queue == [Root(start)])
  }

  /** The record half of the loop invariant of `TracePaths`. */
  ghost predicate RecordsInv(txs: seq<Transaction>, start: string, maxDepth: int,
                             traced: seq<TracedPath>, started: bool)
  {
    AllTraced(txs, start, maxDepth, traced)
    && (maxDepth <= 0 ==> traced == [])
    && (maxDepth >= 1 && !started ==> traced == [])
    && (maxDepth >= 1 && started ==>
         |FirstHops(txs, start)| <= |traced| && traced[..|FirstHops(txs, start)|] == FirstHops(txs, start))
  }

  /** One turn of the loop keeps the queue valid and layered and lowers the
      measure. */
  lemma QueueTurn(txs: seq<Transaction>, start: string, maxDepth: int, bound: int, q: seq<Pending>,
                  started: bool, added: seq<Pending>)
    requires bound == (if maxDepth > 0 then maxDepth else 0)
    requires |q| > 0 && QueueInv(txs, start, maxDepth, bound, q, started)
    requires q[0].depth >= maxDepth ==> added == []
    requires q[0].depth < maxDepth ==>
      (forall i :: 0 <= i < |added| ==> added[i].depth == q[0].depth + 1)
      && QueueOk(txs, start, bound, added)
    ensures QueueInv(txs, start, maxDepth, bound, q[1..] + added, true)
    ensures var r := q[1..] + added;
      FrontRank(r, bound) < FrontRank(q, bound)
      || (FrontRank(r, bound) == FrontRank(q, bound) && FrontCount(r) < FrontCount(q))
  {
    QueueStep(txs, start, bound, q, added);
    assert forall i :: 0 <= i < |q| ==> q[i].depth <= bound;
    QueueProgress(q, added, bound);
  }

  /** One turn of the loop keeps the records traced and, from the first turn
      on, headed by the first level. */
  lemma RecordsTurn(txs: seq<Transaction>, start: string, maxDepth: int, item: Pending,
                    before: seq<TracedPath>, started: bool, traced: seq<TracedPath>)
    requires RecordsInv(txs, start, maxDepth, before, started) && item.depth >= 0
    requires maxDepth >= 1 && !started ==> item == Root(start)
    requires item.depth >= maxDepth ==> traced == before
    requires item.depth < maxDepth ==>
      AllTraced(txs, start, maxDepth, traced)
      && |before| <= |traced| && traced[..|before|] == before
      && (item.depth < 2 ==> traced == before + Seqs.Map(Outgoing(txs, item.node), HopFrom(item)))
    ensures RecordsInv(txs, start, maxDepth, traced, true)
  {
    var first := FirstHops(txs, start);
    if maxDepth >= 1 && !started {
      assert before == [] && [] + traced == traced;
    } else if maxDepth >= 1 {
      assert traced[..|first|] == traced[..|before|][..|first|];
    }
  }

  /** The breadth-first loop: every recorded path is a walk from `start` of at
      most `maxDepth` hops; with `maxDepth <= 0` nothing is recorded, and
      otherwise the first paths recorded are the start's own outgoing
      transactions, in ledger order. */
  method TracePaths(txs: seq<Transaction>, start: string, maxDepth: int) returns (traced: seq<TracedPath>)
    ensures AllTraced(txs, start, maxDepth, traced)
    ensures maxDepth <= 0 ==> traced == []
    ensures maxDepth >= 1 ==>
      |FirstHops(txs, start)| <= |traced| && traced[..|FirstHops(txs, start)|] == FirstHops(txs, start)
  {
    var bound := if maxDepth > 0 then maxDepth else 0;
    traced := [];
    var visited: set<string> := {};
    var queue := [Root(start)];
    ghost var started := false;
    while |queue| > 0
      invariant QueueInv(txs, start, maxDepth, bound, queue, started)
      invariant RecordsInv(txs, start, maxDepth, traced, started)
      decreases FrontRank(queue, bound), FrontCount(queue)
    {
      ghost var q0, before := queue, traced;
      var item := queue[0];
      queue := queue[1..];
      var added: seq<Pending> := [];
      if item.depth < maxDepth {
        traced, added := Expand(txs, start, maxDepth, bound, item, visited, traced);
        queue := queue + added;
        visited := visited + {item.node};
      } else {
        assert queue == queue + added;
      }
      QueueTurn(txs, start, maxDepth, bound, q0, started, added);
      RecordsTurn(txs, start, maxDepth, item, before, started, traced);
      started := true;
    }
  }

  /** `neighbor not in visited or current_depth < 2`: whether the edge `tx` is
      followed from `item`. */
  function Taken(item: Pending, visited: set<string>): Transaction -> bool
  {
    (tx: Transaction) => tx.target !in visited || item.depth < 2
  }

  /** The queue entry for the path that follows `tx` from `item`. */
  function QueueFrom(item: Pending): Transaction -> Pending
  {
    (tx: Transaction) =>
      var hop := HopFrom(item)(tx);
      Pending(tx.target, hop.path, hop.depth, hop.totalAmount)
  }

  /** The paths recorded for the edges among `out` followed from `item`, in order. */
  function Hops(item: Pending, visited: set<string>, out: seq<Transaction>): seq<TracedPath>
  {
    if |out| == 0 then []
    else
      var tx := out[|out| - 1];
      Hops(item, visited, out[..|out| - 1]) + (if Taken(item, visited)(tx) then [HopFrom(item)(tx)] else [])
  }

  /** The queue entries for the edges among `out` followed from `item`, in order. */
  function Queued(item: Pending, visited: set<string>, out: seq<Transaction>): seq<Pending>
  {
    if |out| == 0 then []
    else
      var tx := out[|out| - 1];
      Queued(item, visited, out[..|out| - 1]) + (if Taken(item, visited)(tx) then [QueueFrom(item)(tx)] else [])
  }

  /** `Hops` and `Queued` are the followed edges mapped to paths and to queue entries. */
  lemma FollowedMapped(item: Pending, visited: set<string>, out: seq<Transaction>)
    ensures var taken := Seqs.Filter(out, Taken(item, visited));
      Hops(item, visited, out) == Seqs.Map(taken, HopFrom(item))
      && Queued(item, visited, out) == Seqs.Map(taken, QueueFrom(item))
  {
    HopsMapped(item, visited, out);
    QueuedMapped(item, visited, out);
  }

  lemma {:induction false} HopsMapped(item: Pending, visited: set<string>, out: seq<Transaction>)
    ensures Hops(item, visited, out) == Seqs.Map(Seqs.Filter(out, Taken(item, visited)), HopFrom(item))
  {
    if |out| > 0 {
      var n := |out| - 1;
      var p := Taken(item, visited);
      assert Hops(item, visited, out) == Hops(item, visited, out[..n]) + (if p(out[n]) then [HopFrom(item)(out[n])] else []);
      HopsMapped(item, visited, out[..n]);
      Seqs.FilterSnoc(out, n, p);
      assert out[..n + 1] == out;
      var prior := Seqs.Filter(out[..n], p);
      var extra := if p(out[n]) then [out[n]] else [];
      assert Seqs.Filter(out, p) == prior + extra;
      Seqs.MapAppend(prior, extra, HopFrom(item));
      assert Seqs.Map(extra, HopFrom(item)) == (if p(out[n]) then [HopFrom(item)(out[n])] else []);
    }
  }

  lemma {:induction false} QueuedMapped(item: Pending, visited: set<string>, out: seq<Transaction>)
    ensures Queued(item, visited, out) == Seqs.Map(Seqs.Filter(out, Taken(item, visited)), QueueFrom(item))
  {
    if |out| > 0 {
      var n := |out| - 1;
      var p := Taken(item, visited);
      assert Queued(item, visited, out) == Queued(item, visited, out[..n]) + (if p(out[n]) then [QueueFrom(item)(out[n])] else []);
      QueuedMapped(item, visited, out[..n]);
      Seqs.FilterSnoc(out, n, p);
      assert out[..n + 1] == out;
      var prior := Seqs.Filter(out[..n], p);
      var extra := if p(out[n]) then [out[n]] else [];
      assert Seqs.Filter(out, p) == prior + extra;
      Seqs.MapAppend(prior, extra, QueueFrom(item));
      assert Seqs.Map(extra, QueueFrom(item)) == (if p(out[n]) then [QueueFrom(item)(out[n])] else []);
    }
  }

  /** `for edge in graph[current_node]`: each outgoing transaction whose target
      is unvisited, or any of them below depth 2, yields a recorded path, in
      ledger order, and exactly those paths are queued when they are still
      shorter than `maxDepth`. */
  method Expand(txs: seq<Transaction>, start: string, maxDepth: int, bound: int, item: Pending,
                visited: set<string>, before: seq<TracedPath>)
    returns (traced: seq<TracedPath>, pushed: seq<Pending>)
    requires PendingValid(txs, start, item) && item.depth < maxDepth <= bound
    requires AllTraced(txs, start, maxDepth, before)
    ensures forall i :: 0 <= i < |pushed| ==> pushed[i].depth == item.depth + 1
    ensures QueueOk(txs, start, bound, pushed)
    ensures AllTraced(txs, start, maxDepth, traced)
    ensures |before| <= |traced| && traced[..|before|] == before
    ensures item.depth < 2 ==> traced == before + Seqs.Map(Outgoing(txs, item.node), HopFrom(item))
    ensures traced == before + Hops(item, visited, Outgoing(txs, item.node))
    ensures pushed == (if item.depth + 1 < maxDepth then Queued(item, visited, Outgoing(txs, item.node)) else [])
  {
    var out := Outgoing(txs, item.node);
    traced, pushed := before, [];
    var k := 0;
    assert out[..0] == [];
    while k < |out|
      invariant ExpandInv(maxDepth, item, visited, out, k, before, traced, pushed)
    {
      var tx := out[k];
      var neighbor := tx.target;
      ghost var t0, p0 := traced, pushed;
      if neighbor !in visited || item.depth < 2 {
        var hop := HopFrom(item)(tx);
        traced := traced + [hop];
        if item.depth + 1 < maxDepth {
          pushed := pushed + [Pending(neighbor, hop.path, hop.depth, hop.totalAmount)];
        }
      }
      ExpandStep(maxDepth, item, visited, out, k, before, t0, p0, traced, pushed);
      k := k + 1;
    }
    assert out[..|out|] == out;
    ExpandDone(txs, start, maxDepth, bound, item, visited, before, traced, pushed);
  }

  /** The loop invariant of `Expand`: the records and the queue entries after
      the first `k` outgoing transactions are those of the edges followed
      among them. */
  ghost predicate ExpandInv(maxDepth: int, item: Pending, visited: set<string>, out: seq<Transaction>, k: int,
                            before: seq<TracedPath>, traced: seq<TracedPath>, pushed: seq<Pending>)
  {
    0 <= k <= |out|
    && traced == before + Hops(item, visited, out[..k])
    && pushed == (if item.depth + 1 < maxDepth then Queued(item, visited, out[..k]) else [])
  }

  /** One turn of the loop of `Expand` keeps its invariant. */
  lemma ExpandStep(maxDepth: int, item: Pending, visited: set<string>, out: seq<Transaction>, k: nat,
                   before: seq<TracedPath>, t0: seq<TracedPath>, p0: seq<Pending>,
                   traced: seq<TracedPath>, pushed: seq<Pending>)
    requires k < |out| && ExpandInv(maxDepth, item, visited, out, k, before, t0, p0)
    requires var tx := out[k];
      var hop := HopFrom(item)(tx);
      var taken := tx.target !in visited || item.depth < 2;
      traced == (if taken then t0 + [hop] else t0)
      && pushed == (if taken && item.depth + 1 < maxDepth then p0 + [Pending(tx.target, hop.path, hop.depth, hop.totalAmount)] else p0)
    ensures ExpandInv(maxDepth, item, visited, out, k + 1, before, traced, pushed)
  {
    var tx := out[k];
    var seen := out[..k + 1];
    assert seen[..k] == out[..k] && seen[k] == tx;
    assert Hops(item, visited, seen) == Hops(item, visited, out[..k]) + (if Taken(item, visited)(tx) then [HopFrom(item)(tx)] else []);
    assert Queued(item, visited, seen) == Queued(item, visited, out[..k]) + (if Taken(item, visited)(tx) then [QueueFrom(item)(tx)] else []);
  }

  /** What `Expand` promises, from its invariant once every outgoing
      transaction is seen. */
  lemma ExpandDone(txs: seq<Transaction>, start: string, maxDepth: int, bound: int, item: Pending,
                   visited: set<string>, before: seq<TracedPath>, traced: seq<TracedPath>, pushed: seq<Pending>)
    requires PendingValid(txs, start, item) && item.depth < maxDepth <= bound
    requires AllTraced(txs, start, maxDepth, before)
    requires var out := Outgoing(txs, item.node);
      traced == before + Hops(item, visited, out)
      && pushed == (if item.depth + 1 < maxDepth then Queued(item, visited, out) else [])
    ensures forall i :: 0 <= i < |pushed| ==> pushed[i].depth == item.depth + 1
    ensures QueueOk(txs, start, bound, pushed)
    ensures AllTraced(txs, start, maxDepth, traced)
    ensures |before| <= |traced| && traced[..|before|] == before
    ensures item.depth < 2 ==> traced == before + Seqs.Map(Outgoing(txs, item.node), HopFrom(item))
    ensures var taken := Seqs.Filter(Outgoing(txs, item.node), Taken(item, visited));
      traced == before + Seqs.Map(taken, HopFrom(item))
      && pushed == (if item.depth + 1 < maxDepth then Seqs.Map(taken, QueueFrom(item)) else [])
  {
    var out := Outgoing(txs, item.node);
    var taken := Seqs.Filter(out, Taken(item, visited));
    FollowedMapped(item, visited, out);
    FollowedSound(txs, start, maxDepth, bound, item, visited, before, traced, pushed);
    assert traced[..|before|] == before;
    if item.depth < 2 {
      Seqs.FilterAllPass(out, Taken(item, visited));
    }
  }

  /** Every followed edge yields a traced path and a valid queue entry one
      level deeper. */
  lemma FollowedSound(txs: seq<Transaction>, start: string, maxDepth: int, bound: int, item: Pending,
                      visited: set<string>, before: seq<TracedPath>, traced: seq<TracedPath>, pushed: seq<Pending>)
    requires PendingValid(txs, start, item) && item.depth < maxDepth <= bound
    requires AllTraced(txs, start, maxDepth, before)
    requires var taken := Seqs.Filter(Outgoing(txs, item.node), Taken(item, visited));
      traced == before + Seqs.Map(taken, HopFrom(item))
      && pushed == (if item.depth + 1 < maxDepth then Seqs.Map(taken, QueueFrom(item)) else [])
    ensures forall i :: 0 <= i < |pushed| ==> pushed[i].depth == item.depth + 1
    ensures QueueOk(txs, start, bound, pushed)
    ensures AllTraced(txs, start, maxDepth, traced)
  {
    var taken := Seqs.Filter(Outgoing(txs, item.node), Taken(item, visited));
    var hops := Seqs.Map(taken, HopFrom(item));
    forall i | 0 <= i < |traced| ensures Traced(txs, start, maxDepth, traced[i]) {
      if i >= |before| {
        assert traced[i] == hops[i - |before|];
        FollowedHop(txs, start, maxDepth, item, visited, i - |before|);
      } else {
        assert traced[i] == before[i];
      }
    }
    if item.depth + 1 < maxDepth {
      forall i | 0 <= i < |pushed| ensures pushed[i].depth == item.depth + 1 <= bound && PendingValid(txs, start, pushed[i]) {
        FollowedHop(txs, start, maxDepth, item, visited, i);
      }
    }
  }

  /** The `j`-th followed edge yields a traced path and a valid queue entry. */
  lemma FollowedHop(txs: seq<Transaction>, start: string, maxDepth: int, item: Pending, visited: set<string>, j: nat)
    requires PendingValid(txs, start, item) && item.depth < maxDepth
    requires j < |Seqs.Filter(Outgoing(txs, item.node), Taken(item, visited))|
    ensures var tx := Seqs.Filter(Outgoing(txs, item.node), Taken(item, visited))[j];
      Traced(txs, start, maxDepth, HopFrom(item)(tx))
      && PendingValid(txs, start, QueueFrom(item)(tx))
      && QueueFrom(item)(tx).depth == item.depth + 1
      && Seqs.Map(Seqs.Filter(Outgoing(txs, item.node), Taken(item, visited)), HopFrom(item))[j] == HopFrom(item)(tx)
      && Seqs.Map(Seqs.Filter(Outgoing(txs, item.node), Taken(item, visited)), QueueFrom(item))[j] == QueueFrom(item)(tx)
  {
    var out := Outgoing(txs, item.node);
    var tx := Seqs.Filter(out, Taken(item, visited))[j];
    var m :| 0 <= m < |out| && out[m] == tx;
    HopTraced(txs, start, maxDepth, item, tx);
  }

  /** The hop along `tx` is a traced path and continues as a valid queue entry. */
  lemma HopTraced(txs: seq<Transaction>, start: string, maxDepth: int, item: Pending, tx: Transaction)
    requires PendingValid(txs, start, item) && item.depth < maxDepth
    requires tx in txs && tx.source == item.node
    ensures Traced(txs, start, maxDepth, HopFrom(item)(tx))
    ensures PendingValid(txs, start, QueueFrom(item)(tx))
  {
    var hop := HopFrom(item)(tx);
    WalkExtend(txs, item.path, item.total, tx);
    assert hop.path[|hop.path| - 2] == item.node;
  }

  datatype Summary = Summary(totalPaths: nat, maxAmount: real, avgAmount: real)

  /** The response: the start address, the ten largest paths, and the summary
      over all of them. */
  datatype Trace = Trace(startAddress: string, tracedPaths: seq<TracedPath>, summary: Summary)

  /** `sort(key=totalAmount, reverse=True)` as an ascending sort on the negated key. */
  function ByAmountDescending(t: TracedPath): real
  {
    -t.totalAmount
  }

  function Amount(t: TracedPath): real
  {
    t.totalAmount
  }

  /** Sorting, truncation to ten and the summary of the response. */
  function Report(start: string, paths: seq<TracedPath>): Trace
  {
    var sorted := Sorting.SortBy(paths, ByAmountDescending);
    Trace(start, Seqs.Take(sorted, 10),
      Summary(|paths|,
        if |sorted| == 0 then 0.0 else sorted[0].totalAmount,
        if |sorted| == 0 then 0.0 else Seqs.Sum(Seqs.Map(sorted, Amount)) / |sorted| as real))
  }

  /** The response lists at most ten of the paths, largest amount first, and a
      path it leaves out is no larger than any listed one; the summary counts
      all of them, its maximum is the amount of the first listed path, the
      largest of any path, and bounds the average; with no paths both are 0. */
  lemma ReportMeaning(start: string, paths: seq<TracedPath>)
    ensures var r := Report(start, paths);
      r.startAddress == start
      && |r.tracedPaths| == (if |paths| <= 10 then |paths| else 10)
      && (forall i, j :: 0 <= i < j < |r.tracedPaths| ==> r.tracedPaths[i].totalAmount >= r.tracedPaths[j].totalAmount)
      && (forall i :: 0 <= i < |r.tracedPaths| ==> r.tracedPaths[i] in paths)
      && r.summary.totalPaths == |paths|
    ensures var r := Report(start, paths);
      forall p :: p in paths ==>
        p in r.tracedPaths || forall i :: 0 <= i < |r.tracedPaths| ==> p.totalAmount <= r.tracedPaths[i].totalAmount
    ensures var r := Report(start, paths);
      |paths| == 0 ==> r.summary.maxAmount == 0.0 && r.summary.avgAmount == 0.0
    ensures var r := Report(start, paths);
      |paths| > 0 ==>
        r.tracedPaths[0].totalAmount == r.summary.maxAmount
        && (forall i :: 0 <= i < |paths| ==> paths[i].totalAmount <= r.summary.maxAmount)
        && (exists i :: 0 <= i < |paths| && paths[i].totalAmount == r.summary.maxAmount)
        && r.summary.avgAmount <= r.summary.maxAmount
  {
    ReportListed(start, paths);
    ReportLeftOut(start, paths);
    if |paths| > 0 {
      ReportTop(start, paths);
    }
  }

  /** A path the response leaves out is no larger than any listed one. */
  lemma ReportLeftOut(start: string, paths: seq<TracedPath>)
    ensures var r := Report(start, paths);
      forall p :: p in paths ==>
        p in r.tracedPaths || forall i :: 0 <= i < |r.tracedPaths| ==> p.totalAmount <= r.tracedPaths[i].totalAmount
  {
    var listed := Report(start, paths).tracedPaths;
    assert listed == Seqs.Take(Sorting.SortBy(paths, ByAmountDescending), 10);
    forall p | p in paths
      ensures p in listed || forall i :: 0 <= i < |listed| ==> p.totalAmount <= listed[i].totalAmount
    {
      Sorting.SortedPrefixLeast(paths, ByAmountDescending, |listed|, p);
    }
  }

  lemma ReportListed(start: string, paths: seq<TracedPath>)
    ensures var r := Report(start, paths);
      r.startAddress == start
      && |r.tracedPaths| == (if |paths| <= 10 then |paths| else 10)
      && (forall i, j :: 0 <= i < j < |r.tracedPaths| ==> r.tracedPaths[i].totalAmount >= r.tracedPaths[j].totalAmount)
      && (forall i :: 0 <= i < |r.tracedPaths| ==> r.tracedPaths[i] in paths)
      && r.summary.totalPaths == |paths|
  {
    var sorted := Sorting.SortBy(paths, ByAmountDescending);
    var listed := Seqs.Take(sorted, 10);
    assert Report(start, paths).tracedPaths == listed;
    forall i, j | 0 <= i < j < |listed| ensures listed[i].totalAmount >= listed[j].totalAmount {
      assert ByAmountDescending(sorted[i]) <= ByAmountDescending(sorted[j]);
    }
    forall i | 0 <= i < |listed| ensures listed[i] in paths {
      Sorting.SortedElementFromInput(paths, ByAmountDescending, i);
    }
  }

  lemma ReportTop(start: string, paths: seq<TracedPath>)
    requires |paths| > 0
    ensures var r := Report(start, paths);
      r.tracedPaths[0].totalAmount == r.summary.maxAmount
      && (forall i :: 0 <= i < |paths| ==> paths[i].totalAmount <= r.summary.maxAmount)
      && (exists i :: 0 <= i < |paths| && paths[i].totalAmount == r.summary.maxAmount)
      && r.summary.avgAmount <= r.summary.maxAmount
  {
    var sorted := Sorting.SortBy(paths, ByAmountDescending);
    var s := Report(start, paths).summary;
    assert s.maxAmount == sorted[0].totalAmount;
    assert s.avgAmount == Seqs.Sum(Seqs.Map(sorted, Amount)) / |sorted| as real;
    forall i | 0 <= i < |paths| ensures paths[i].totalAmount <= sorted[0].totalAmount {
      Sorting.SortedFirstLeast(paths, ByAmountDescending, i);
    }
    Sorting.SortedElementFromInput(paths, ByAmountDescending, 0);
    AverageBelowFirst(sorted);
  }

  /** In a list sorted by decreasing amount, the mean amount is at most the first. */
  lemma AverageBelowFirst(sorted: seq<TracedPath>)
    requires |sorted| > 0 && Sorting.SortedBy(sorted, ByAmountDescending)
    ensures Seqs.Sum(Seqs.Map(sorted, Amount)) / |sorted| as real <= sorted[0].totalAmount
  {
    var top := sorted[0].totalAmount;
    var amounts := Seqs.Map(sorted, Amount);
    forall i | 0 <= i < |amounts| ensures amounts[i] <= top {
      if i > 0 {
        assert ByAmountDescending(sorted[0]) <= ByAmountDescending(sorted[i]);
      }
    }
    Seqs.SumAtMost(amounts, top);
    AverageAtMost(Seqs.Sum(amounts), |amounts|, top);
  }

  lemma AverageAtMost(total: real, n: nat, m: real)
    requires n > 0 && total <= n as real * m
    ensures total / n as real <= m
  {
  }

  /** `trace_funds` for an address and a depth. `paths` are all the paths the
      search records: the summary counts them, the ten largest are listed,
      largest amount first, and each is a walk from the start of at most
      `maxDepth` hops; with no paths the maximum and the average are 0,
      otherwise the maximum is the first listed amount, attained by a path,
      and bounds the average. There are no paths for `maxDepth <= 0`;
      otherwise every transaction leaving the start is counted and none of
      them exceeds the reported maximum. */
  method TraceFunds(txs: seq<Transaction>, start: string, maxDepth: int) returns (r: Trace, ghost paths: seq<TracedPath>)
    ensures r == Report(start, paths) && AllTraced(txs, start, maxDepth, paths)
    ensures r.startAddress == start
    ensures r.summary.totalPaths == |paths|
    ensures |r.tracedPaths| == (if |paths| <= 10 then |paths| else 10)
    ensures AllTraced(txs, start, maxDepth, r.tracedPaths)
    ensures forall i, j :: 0 <= i < j < |r.tracedPaths| ==> r.tracedPaths[i].totalAmount >= r.tracedPaths[j].totalAmount
    ensures forall p :: p in paths ==>
      p in r.tracedPaths || forall i :: 0 <= i < |r.tracedPaths| ==> p.totalAmount <= r.tracedPaths[i].totalAmount
    ensures |paths| == 0 ==> r.summary.maxAmount == 0.0 && r.summary.avgAmount == 0.0
    ensures |paths| > 0 ==>
      r.tracedPaths[0].totalAmount == r.summary.maxAmount
      && (exists i :: 0 <= i < |paths| && paths[i].totalAmount == r.summary.maxAmount)
      && r.summary.avgAmount <= r.summary.maxAmount
    ensures maxDepth <= 0 ==> r.tracedPaths == [] && r.summary == Summary(0, 0.0, 0.0)
    ensures maxDepth >= 1 ==>
      |Outgoing(txs, start)| <= r.summary.totalPaths
      && forall tx :: tx in Outgoing(txs, start) ==> tx.amount <= r.summary.maxAmount
  {
    var recorded := TracePaths(txs, start, maxDepth);
    paths := recorded;
    r := Report(start, recorded);
    ReportMeaning(start, recorded);
    ListedTraced(txs, start, maxDepth, recorded, r.tracedPaths);
    if maxDepth >= 1 {
      FirstHopsBounded(txs, start, recorded, r.summary.maxAmount);
    }
  }

  lemma ListedTraced(txs: seq<Transaction>, start: string, maxDepth: int, paths: seq<TracedPath>, listed: seq<TracedPath>)
    requires AllTraced(txs, start, maxDepth, paths)
    requires forall i :: 0 <= i < |listed| ==> listed[i] in paths
    ensures AllTraced(txs, start, maxDepth, listed)
  {
    forall i | 0 <= i < |listed| ensures Traced(txs, start, maxDepth, listed[i]) {
      var j :| 0 <= j < |paths| && paths[j] == listed[i];
    }
  }

  /** When the recorded paths begin with the first level, every transaction
      leaving the start is one of them, so none exceeds a bound on them all. */
  lemma FirstHopsBounded(txs: seq<Transaction>, start: string, paths: seq<TracedPath>, top: real)
    requires |FirstHops(txs, start)| <= |paths| && paths[..|FirstHops(txs, start)|] == FirstHops(txs, start)
    requires forall i :: 0 <= i < |paths| ==> paths[i].totalAmount <= top
    ensures forall tx :: tx in Outgoing(txs, start) ==> tx.amount <= top
  {
    var out := Outgoing(txs, start);
    var first := FirstHops(txs, start);
    forall tx | tx in out ensures tx.amount <= top {
      var k :| 0 <= k < |out| && out[k] == tx;
      assert paths[..|first|][k] == first[k];
      assert first[k].totalAmount == 0.0 + tx.amount;
    }
  }
}
