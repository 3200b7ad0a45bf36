/** The circular network view (src/components/NetworkGraph.jsx): node placement
    by index, link endpoint resolution, highlighting, stroke widths and the click
    handlers. The component keeps no state of its own. */
module NetworkGraph {
  import opened Wrappers
  import opened Entities

  const Width: real := 600.0
  const Height: real := 400.0
  const Radius: real := 300.0

  datatype Point = Point(cx: real, cy: real)

  /** `index / nodes.length`: the fraction of a full turn at which node `index`
      sits (the source multiplies it by 2π). */
  function AngleFraction(index: int, count: int): real
    requires count > 0
  {
    index as real / count as real
  }

  /** Distinct indices in [0, N) get distinct fractions in [0, 1). */
  lemma AngleFractionsDistinct(i: int, j: int, count: int)
    requires count > 0 && 0 <= i < count && 0 <= j < count && i != j
    ensures 0.0 <= AngleFraction(i, count) < 1.0
    ensures AngleFraction(i, count) != AngleFraction(j, count)
  {
    var n := count as real;
    assert AngleFraction(i, count) * n == i as real;
    assert AngleFraction(j, count) * n == j as real;
  }

  /** Consecutive indices are exactly 1/N of a turn apart. */
  lemma AngleFractionsEvenlySpaced(i: int, count: int)
    requires count > 0
    ensures AngleFraction(i + 1, count) - AngleFraction(i, count) == 1.0 / count as real
  {
  }

  /** `getNodePosition(nodeId, index)`. `unit(f)` stands for the point
      (cos 2πf, sin 2πf); floating-point trigonometry is not modelled, so the
      caller supplies it. The id argument is not used. */
  function NodePosition(unit: real -> Point, nodeId: string, index: int, count: int): (p: Point)
    requires count > 0
  {
    var u := unit(AngleFraction(index, count));
    Point(Width / 2.0 + Radius * u.cx, Height / 2.0 + Radius * u.cy)
  }

  /** The position depends on the index and the node count only: not on the
      node's id, and repeated calls agree. */
  lemma PositionIgnoresId(unit: real -> Point, id1: string, id2: string, index: int, count: int)
    requires count > 0
    ensures NodePosition(unit, id1, index, count) == NodePosition(unit, id2, index, count)
  {
  }

  /** Every node lies on the circle of radius `Radius` about the canvas centre. */
  lemma PositionOnCircle(unit: real -> Point, nodeId: string, index: int, count: int)
    requires count > 0
    requires forall f :: unit(f).cx * unit(f).cx + unit(f).cy * unit(f).cy == 1.0
    ensures var p := NodePosition(unit, nodeId, index, count);
      (p.cx - Width / 2.0) * (p.cx - Width / 2.0) + (p.cy - Height / 2.0) * (p.cy - Height / 2.0)
        == Radius * Radius
  {
    var u := unit(AngleFraction(index, count));
    var p := NodePosition(unit, nodeId, index, count);
    assert p.cx - Width / 2.0 == Radius * u.cx;
    assert p.cy - Height / 2.0 == Radius * u.cy;
    ScaledUnit(Radius, u.cx, u.cy);
  }

  lemma ScaledUnit(r: real, x: real, y: real)
    requires x * x + y * y == 1.0
    ensures (r * x) * (r * x) + (r * y) * (r * y) == r * r
  {
    calc {
      (r * x) * (r * x) + (r * y) * (r * y);
      r * r * (x * x + y * y);
      r * r;
    }
  }

  /** When `unit` is one-to-one on a turn (as (cos 2πf, sin 2πf) is), different
      nodes are drawn at different places. */
  lemma PositionsDistinct(unit: real -> Point, id1: string, id2: string, i: int, j: int, count: int)
    requires count > 0 && 0 <= i < count && 0 <= j < count && i != j
    requires forall f, g :: 0.0 <= f < 1.0 && 0.0 <= g < 1.0 && f != g ==> unit(f) != unit(g)
    ensures NodePosition(unit, id1, i, count) != NodePosition(unit, id2, j, count)
  {
    AngleFractionsDistinct(i, j, count);
    AngleFractionsDistinct(j, i, count);
    var u := unit(AngleFraction(i, count));
    var v := unit(AngleFraction(j, count));
    assert u != v;
  }

  /** `nodes.find(n => n.id === id)` followed by `nodes.indexOf(...)`: the index of
      the first node carrying `id` (`indexOf` finds the very object `find`
      returned, which no earlier element is), or `None` where `find` gives
      `undefined`. */
  function FindNode(nodes: seq<Node>, id: string): (r: Option<nat>)
    ensures r.Some? ==>
      r.value < |nodes| && nodes[r.value].id == id
      && forall j :: 0 <= j < r.value ==> nodes[j].id != id
    ensures r.None? <==> forall j :: 0 <= j < |nodes| ==> nodes[j].id != id
  {
    if |nodes| == 0 then None
    else if nodes[0].id == id then Some(0)
    else
      match FindNode(nodes[1..], id)
      case None => None
      case Some(k) => Some(k + 1)
  }

  ghost predicate UniqueNodeIds(nodes: seq<Node>)
  {
    forall i, j :: 0 <= i < j < |nodes| ==> nodes[i].id != nodes[j].id
  }

  /** With unique ids, a node's id resolves to that node's own position. */
  lemma FindNodeUnique(nodes: seq<Node>, k: nat)
    requires UniqueNodeIds(nodes) && k < |nodes|
    ensures FindNode(nodes, nodes[k].id) == Some(k)
  {
  }

  /** Both endpoints of a link name a node: what the drawing code needs. */
  ghost predicate Resolves(nodes: seq<Node>, link: Link)
  {
    (exists i :: 0 <= i < |nodes| && nodes[i].id == link.source)
    && (exists i :: 0 <= i < |nodes| && nodes[i].id == link.target)
  }

  /** A link as drawn. */
  datatype DrawnLink = DrawnLink(start: Point, end: Point, highlighted: bool, strokeWidth: real, transaction: Transaction)

  /** A node as drawn. */
  datatype DrawnNode = DrawnNode(id: string, position: Point, highlighted: bool)

  /** `selectedWallet === startNode.id || selectedWallet === endNode.id`; a null
      selection equals no id. */
  predicate LinkHighlighted(selected: Option<string>, startId: string, endId: string)
  {
    selected == Some(startId) || selected == Some(endId)
  }

  /** `selectedWallet === node.id` */
  predicate NodeHighlighted(selected: Option<string>, nodeId: string)
  {
    selected == Some(nodeId)
  }

  /** `link.transaction.amount * 0.1` */
  function StrokeWidth(amount: real): real
  {
    amount * 0.1
  }

  /** Larger amounts never draw thinner links. */
  lemma StrokeWidthMonotone(a: real, b: real)
    requires a <= b
    ensures StrokeWidth(a) <= StrokeWidth(b)
  {
  }

  /** One link of `links.map(...)`. `None` is the TypeError `startNode.id` raises
      when an endpoint is not a node. */
  function DrawLink(unit: real -> Point, nodes: seq<Node>, link: Link, selected: Option<string>): (r: Option<DrawnLink>)
    ensures r.Some? <==> Resolves(nodes, link)
  {
    var s := FindNode(nodes, link.source);
    var e := FindNode(nodes, link.target);
    if s.None? || e.None? then None
    else
      var startNode, endNode := nodes[s.value], nodes[e.value];
      Some(DrawnLink(
        NodePosition(unit, startNode.id, s.value, |nodes|),
        NodePosition(unit, endNode.id, e.value, |nodes|),
        LinkHighlighted(selected, startNode.id, endNode.id),
        StrokeWidth(link.transaction.amount),
        link.transaction))
  }

  /** All links. `links.map` stops at the first exception, so one unresolvable
      link makes the whole drawing fail. */
  function DrawLinks(unit: real -> Point, nodes: seq<Node>, links: seq<Link>, selected: Option<string>): (r: Option<seq<DrawnLink>>)
    ensures r.Some? <==> forall i :: 0 <= i < |links| ==> Resolves(nodes, links[i])
    ensures r.Some? ==>
      |r.value| == |links|
      && forall i :: 0 <= i < |links| ==> Some(r.value[i]) == DrawLink(unit, nodes, links[i], selected)
  {
    if |links| == 0 then Some([])
    else
      match DrawLink(unit, nodes, links[0], selected)
      case None => None
      case Some(first) =>
        match DrawLinks(unit, nodes, links[1..], selected)
        case None => None
        case Some(rest) => Some([first] + rest)
  }

  /** `nodes.map(...)`: node `i` is drawn at position `i`. */
  function DrawNodes(unit: real -> Point, nodes: seq<Node>, selected: Option<string>): (r: seq<DrawnNode>)
    ensures |r| == |nodes|
  {
    seq(|nodes|, i requires 0 <= i < |nodes| =>
      DrawnNode(nodes[i].id, NodePosition(unit, nodes[i].id, i, |nodes|), NodeHighlighted(selected, nodes[i].id)))
  }

  /** When every link resolves, each drawn link runs between its endpoints' node
      positions (the first node with that id), and it is highlighted iff the
      selected wallet is its source or its target. A null selection highlights
      nothing. */
  lemma DrawnLinksFaithful(unit: real -> Point, nodes: seq<Node>, links: seq<Link>, selected: Option<string>, i: nat)
    requires forall k :: 0 <= k < |links| ==> Resolves(nodes, links[k])
    requires i < |links|
    ensures var r := DrawLinks(unit, nodes, links, selected);
      var s := FindNode(nodes, links[i].source);
      var e := FindNode(nodes, links[i].target);
      r.Some? && s.Some? && e.Some?
      && r.value[i].start == NodePosition(unit, links[i].source, s.value, |nodes|)
      && r.value[i].end == NodePosition(unit, links[i].target, e.value, |nodes|)
      && (r.value[i].highlighted <==> selected.Some? && (selected.value == links[i].source || selected.value == links[i].target))
      && r.value[i].transaction == links[i].transaction
  {
    var r := DrawLinks(unit, nodes, links, selected);
    assert Some(r.value[i]) == DrawLink(unit, nodes, links[i], selected);
  }

  /** A node is highlighted iff it is the selected wallet; a null selection
      highlights none. */
  lemma DrawnNodesFaithful(unit: real -> Point, nodes: seq<Node>, selected: Option<string>, i: nat)
    requires i < |nodes|
    ensures var r := DrawNodes(unit, nodes, selected);
      r[i].position == NodePosition(unit, nodes[i].id, i, |nodes|)
      && (r[i].highlighted <==> selected.Some? && selected.value == nodes[i].id)
  {
  }

  /** `handleNodeClick(node.id)` reports the node's id to `setSelectedWallet`. */
  function NodeClickSelection(node: Node): (wallet: Option<string>)
    ensures wallet.Some? && wallet.value == node.id
  {
    Some(node.id)
  }

  /** The two shapes of object that reach `handleLinkClick`. */
  datatype Clicked = LinkObject(link: Link) | TransactionObject(tx: Transaction)

  /** `v.transaction`: a link has that field; a transaction has none (`undefined`). */
  function TransactionField(v: Clicked): Option<Transaction>
  {
    match v
    case LinkObject(l) => Some(l.transaction)
    case TransactionObject(_) => None
  }

  /** `handleLinkClick(v)` forwards `v.transaction` to `onSelectTransaction`. */
  function HandleLinkClick(v: Clicked): Option<Transaction>
  {
    TransactionField(v)
  }

  /** The click on a drawn link calls `handleLinkClick(link.transaction)`, so
      what is forwarded is `link.transaction.transaction`, undefined for every
      link of the generated data shape. */
  function LinkClickSelection(link: Link): (tx: Option<Transaction>)
    ensures tx.None?
    ensures HandleLinkClick(LinkObject(link)) == Some(link.transaction)
  {
    HandleLinkClick(TransactionObject(link.transaction))
  }
}
