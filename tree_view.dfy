/**
 * The `Tree` component: it receives the tree layout computed by the layout
 * library (an (x, y) per node, y growing downwards), and places it on a
 * canvas. The root is centred on half the screen width, the topmost row is
 * pushed 36 px down, the canvas spans the bounding box plus a 200 px margin,
 * every node gets a circle, a name label above it and a level label below it,
 * every parent/child pair gets a line, and tapping a node hands that node's
 * record to the `onNodeSelect` callback.
 */
module TreeView {
  import opened TreeData

  const NODE_RADIUS: real := 16.0
  /** Horizontal and vertical node spacing requested from the layout library; the layout itself is input here. */
  const NODE_SPACING_X: real := 120.0
  const NODE_SPACING_Y: real := 80.0
  /** Space left above the circle of the topmost node. */
  const TOP_PADDING: real := 20.0
  /** Added to the bounding box in both directions to size the canvas. */
  const CANVAS_MARGIN: real := 200.0
  const NAME_GAP: real := 6.0
  const LEVEL_GAP: real := 12.0

  const ACTIVE_FILL: string := "#4CAF50"
  const INACTIVE_FILL: string := "#9E9E9E"

  /** A node of the computed layout: its record, its layout coordinates, its laid-out children. */
  datatype LaidOut = LaidOut(data: TreeNode, x: real, y: real, kids: seq<LaidOut>)

  /** A parent/child pair of the layout. */
  datatype Link = Link(source: LaidOut, target: LaidOut)

  datatype Line = Line(x1: real, y1: real, x2: real, y2: real)
  datatype Label = Label(x: real, y: real, text: string)

  /** What is drawn for one node; `onTap` is the record the tap handler passes on. */
  datatype NodeGlyph = NodeGlyph(
    cx: real, cy: real, r: real, fill: string,
    nameLabel: Label, levelLabel: Label,
    onTap: TreeNode)

  datatype Canvas = Canvas(width: real, height: real, lines: seq<Line>, glyphs: seq<NodeGlyph>)

  /** The layout has the shape of the record it was computed from, node for node. */
  predicate Mirrors(l: LaidOut, t: TreeNode)
    decreases l
  {
    && l.data == t
    && |l.kids| == |t.children|
    && forall i :: 0 <= i < |l.kids| ==> Mirrors(l.kids[i], t.children[i])
  }

  /** `n` is `l` itself or a laid-out node somewhere below it. */
  predicate IsPartOf(n: LaidOut, l: LaidOut)
    decreases l
  {
    n == l || exists i :: 0 <= i < |l.kids| && IsPartOf(n, l.kids[i])
  }

  // ---------------------------------------------------------------------------
  // Traversal: `descendants()` lists the nodes breadth first, root first;
  // `links()` lists, for each node in that order, the links to its children.

  function Size(t: LaidOut): nat
    decreases t
  {
    1 + SizeOfAll(t.kids)
  }

  function SizeOfAll(ts: seq<LaidOut>): nat
    decreases ts
  {
    if ts == [] then 0 else Size(ts[0]) + SizeOfAll(ts[1..])
  }

  lemma {:induction false} SizeOfAllAppend(a: seq<LaidOut>, b: seq<LaidOut>)
    ensures SizeOfAll(a + b) == SizeOfAll(a) + SizeOfAll(b)
    decreases |a|
  {
    if a == [] {
      assert a + b == b;
    } else {
      assert (a + b)[0] == a[0] && (a + b)[1..] == a[1..] + b;
      SizeOfAllAppend(a[1..], b);
    }
  }

  /** Taking the first node out of the queue and queueing its children removes exactly one node. */
  lemma SizeOfAllStep(queue: seq<LaidOut>)
    requires queue != []
    ensures SizeOfAll(queue[1..] + queue[0].kids) + 1 == SizeOfAll(queue)
  {
    SizeOfAllAppend(queue[1..], queue[0].kids);
  }

  /** Breadth-first listing of every node in the queue and below it. */
  function Bfs(queue: seq<LaidOut>): (r: seq<LaidOut>)
    ensures |r| == SizeOfAll(queue)
    decreases SizeOfAll(queue)
  {
    if queue == [] then []
    else
      SizeOfAllStep(queue);
      [queue[0]] + Bfs(queue[1..] + queue[0].kids)
  }

  /** `descendants()`: every node once, the root first. */
  function Descendants(root: LaidOut): (r: seq<LaidOut>)
    ensures |r| == Size(root) && r[0] == root
  {
    assert SizeOfAll([root]) == Size(root) by { assert [root][1..] == []; }
    Bfs([root])
  }

  function ChildLinks(n: LaidOut): (r: seq<Link>)
    ensures |r| == |n.kids|
    ensures forall k :: 0 <= k < |r| ==> r[k].source == n && r[k].target == n.kids[k]
  {
    seq(|n.kids|, k requires 0 <= k < |n.kids| => Link(n, n.kids[k]))
  }

  /** The links of the listed nodes to their children, in listing order. */
  function LinksOf(nodes: seq<LaidOut>): (r: seq<Link>)
    ensures forall k :: 0 <= k < |r| ==> r[k].source in nodes && r[k].target in r[k].source.kids
  {
    if nodes == [] then [] else ChildLinks(nodes[0]) + LinksOf(nodes[1..])
  }

  /** `links()`: one link per node other than the root. */
  function Links(root: LaidOut): (r: seq<Link>)
    ensures |r| == Size(root) - 1
  {
    assert SizeOfAll([root]) == Size(root) by { assert [root][1..] == []; }
    BfsLinkCount([root]);
    LinksOf(Descendants(root))
  }

  lemma {:induction false} BfsLinkCount(queue: seq<LaidOut>)
    ensures |LinksOf(Bfs(queue))| + |queue| == SizeOfAll(queue)
    decreases SizeOfAll(queue)
  {
    if queue != [] {
      var next := queue[1..] + queue[0].kids;
      SizeOfAllStep(queue);
      BfsLinkCount(next);
      var b := Bfs(queue);
      assert b == [queue[0]] + Bfs(next);
      assert b[1..] == Bfs(next);
      assert LinksOf(b) == ChildLinks(queue[0]) + LinksOf(Bfs(next));
    }
  }

  lemma {:induction false} BfsHasQueue(queue: seq<LaidOut>, n: LaidOut)
    requires n in queue
    ensures n in Bfs(queue)
    decreases SizeOfAll(queue)
  {
    var next := queue[1..] + queue[0].kids;
    SizeOfAllStep(queue);
    if n != queue[0] {
      BfsHasQueue(next, n);
    }
  }

  /** The breadth-first listing is closed under taking children. */
  lemma {:induction false} BfsHasKids(queue: seq<LaidOut>, n: LaidOut, c: LaidOut)
    requires n in Bfs(queue) && c in n.kids
    ensures c in Bfs(queue)
    decreases SizeOfAll(queue)
  {
    var next := queue[1..] + queue[0].kids;
    SizeOfAllStep(queue);
    if n == queue[0] {
      BfsHasQueue(next, c);
    } else {
      BfsHasKids(next, n, c);
    }
  }

  /** Everything listed lies below some node of the queue. */
  lemma {:induction false} BfsWithinQueue(queue: seq<LaidOut>, n: LaidOut)
    requires n in Bfs(queue)
    ensures exists k :: 0 <= k < |queue| && IsPartOf(n, queue[k])
    decreases SizeOfAll(queue)
  {
    var next := queue[1..] + queue[0].kids;
    SizeOfAllStep(queue);
    if n != queue[0] {
      BfsWithinQueue(next, n);
      var k :| 0 <= k < |next| && IsPartOf(n, next[k]);
      if k < |queue| - 1 {
        assert next[k] == queue[k + 1];
      } else {
        var i := k - (|queue| - 1);
        assert next[k] == queue[0].kids[i];
        assert IsPartOf(n, queue[0]);
      }
    }
  }

  lemma {:induction false} MirroredPart(l: LaidOut, t: TreeNode, n: LaidOut)
    requires Mirrors(l, t) && IsPartOf(n, l)
    ensures IsNodeOf(n.data, t)
    decreases l
  {
    if n != l {
      var i :| 0 <= i < |l.kids| && IsPartOf(n, l.kids[i]);
      MirroredPart(l.kids[i], t.children[i], n);
    }
  }

  // ---------------------------------------------------------------------------
  // Bounding box: Math.min / Math.max over the node coordinates

  function Xs(nodes: seq<LaidOut>): (r: seq<real>)
    ensures |r| == |nodes| && forall i :: 0 <= i < |nodes| ==> r[i] == nodes[i].x
  {
    seq(|nodes|, i requires 0 <= i < |nodes| => nodes[i].x)
  }

  function Ys(nodes: seq<LaidOut>): (r: seq<real>)
    ensures |r| == |nodes| && forall i :: 0 <= i < |nodes| ==> r[i] == nodes[i].y
  {
    seq(|nodes|, i requires 0 <= i < |nodes| => nodes[i].y)
  }

  /** `Math.min(...s)` on a non-empty list: a member of the list below or equal to all of it. */
  function Min(s: seq<real>): (m: real)
    requires |s| > 0
    ensures m in s && forall i :: 0 <= i < |s| ==> m <= s[i]
  {
    if |s| == 1 then s[0]
    else
      var rest := Min(s[1..]);
      if s[0] <= rest then s[0] else rest
  }

  /** `Math.max(...s)` on a non-empty list: a member of the list above or equal to all of it. */
  function Max(s: seq<real>): (m: real)
    requires |s| > 0
    ensures m in s && forall i :: 0 <= i < |s| ==> s[i] <= m
  {
    if |s| == 1 then s[0]
    else
      var rest := Max(s[1..]);
      if s[0] >= rest then s[0] else rest
  }

  // ---------------------------------------------------------------------------
  // Placement

  /** Horizontal shift: the root lands on half the screen width. */
  function OffsetX(nodes: seq<LaidOut>, screenWidth: real): real
    requires |nodes| > 0
  {
    screenWidth / 2.0 - nodes[0].x
  }

  /** Vertical shift: the topmost node lands NODE_RADIUS + TOP_PADDING below the top edge. */
  function OffsetY(nodes: seq<LaidOut>): real
    requires |nodes| > 0
  {
    NODE_RADIUS + TOP_PADDING - Min(Ys(nodes))
  }

  /** Circle colour for a member status. */
  function Fill(status: string): (f: string)
    ensures f == ACTIVE_FILL <==> status == "active"
    ensures f == ACTIVE_FILL || f == INACTIVE_FILL
  {
    if status == "active" then ACTIVE_FILL else INACTIVE_FILL
  }

  function Glyph(n: LaidOut, offsetX: real, offsetY: real): NodeGlyph
  {
    var cx, cy := n.x + offsetX, n.y + offsetY;
    NodeGlyph(
      cx, cy, NODE_RADIUS, Fill(n.data.attributes.status),
      Label(cx, cy - NODE_RADIUS - NAME_GAP, n.data.name),
      Label(cx, cy + NODE_RADIUS + LEVEL_GAP, n.data.attributes.level),
      n.data)
  }

  function LineOf(link: Link, offsetX: real, offsetY: real): Line
  {
    Line(link.source.x + offsetX, link.source.y + offsetY,
         link.target.x + offsetX, link.target.y + offsetY)
  }

  /** The whole drawing for a layout on a screen of the given width. */
  function Render(root: LaidOut, screenWidth: real): (c: Canvas)
    ensures |c.glyphs| == Size(root) && |c.lines| == Size(root) - 1
    ensures c.glyphs[0].cx == screenWidth / 2.0 && c.glyphs[0].onTap == root.data
  {
    var nodes := Descendants(root);
    var links := Links(root);
    var offsetX, offsetY := OffsetX(nodes, screenWidth), OffsetY(nodes);
    var xs, ys := Xs(nodes), Ys(nodes);
    Canvas(
      Max(xs) - Min(xs) + CANVAS_MARGIN,
      Max(ys) - Min(ys) + CANVAS_MARGIN,
      seq(|links|, k requires 0 <= k < |links| => LineOf(links[k], offsetX, offsetY)),
      seq(|nodes|, i requires 0 <= i < |nodes| => Glyph(nodes[i], offsetX, offsetY)))
  }

  // ---------------------------------------------------------------------------
  // What the placement guarantees

  /** The topmost row sits exactly 36 px down and no node is drawn above it. */
  lemma TopRowAtPadding(root: LaidOut, screenWidth: real)
    ensures var c := Render(root, screenWidth);
      && (forall i :: 0 <= i < |c.glyphs| ==> c.glyphs[i].cy >= NODE_RADIUS + TOP_PADDING)
      && exists i :: 0 <= i < |c.glyphs| && c.glyphs[i].cy == NODE_RADIUS + TOP_PADDING
  {
    var c, nodes := Render(root, screenWidth), Descendants(root);
    var ys := Ys(nodes);
    var i :| 0 <= i < |ys| && ys[i] == Min(ys);
    assert c.glyphs[i].cy == NODE_RADIUS + TOP_PADDING;
  }

  /** A lone root is drawn at (screenWidth / 2, 36) on a canvas of just the margin. */
  lemma SingleNodeCanvas(root: LaidOut, screenWidth: real)
    requires root.kids == []
    ensures var c := Render(root, screenWidth);
      && |c.glyphs| == 1 && c.lines == []
      && c.glyphs[0].cx == screenWidth / 2.0 && c.glyphs[0].cy == NODE_RADIUS + TOP_PADDING
      && c.width == CANVAS_MARGIN && c.height == CANVAS_MARGIN
  {
    var nodes := Descendants(root);
    assert Size(root) == 1;
    assert Xs(nodes) == [root.x] && Ys(nodes) == [root.y];
  }

  /** Every node moves by the same vector: distances and orderings between nodes are those of the layout. */
  lemma RigidShift(root: LaidOut, screenWidth: real, i: nat, j: nat)
    requires i < Size(root) && j < Size(root)
    ensures var c, nodes := Render(root, screenWidth), Descendants(root);
      && c.glyphs[i].cx - c.glyphs[j].cx == nodes[i].x - nodes[j].x
      && c.glyphs[i].cy - c.glyphs[j].cy == nodes[i].y - nodes[j].y
  {
  }

  /** The canvas is the bounding box plus the margin, so it is never narrower than the spread of the circles. */
  lemma CanvasCoversNodes(root: LaidOut, screenWidth: real)
    ensures var c, nodes := Render(root, screenWidth), Descendants(root);
      && c.width == Max(Xs(nodes)) - Min(Xs(nodes)) + CANVAS_MARGIN
      && c.height == Max(Ys(nodes)) - Min(Ys(nodes)) + CANVAS_MARGIN
      && c.width >= CANVAS_MARGIN && c.height >= CANVAS_MARGIN
      && forall i, j :: 0 <= i < |c.glyphs| && 0 <= j < |c.glyphs| ==>
           c.glyphs[i].cx - c.glyphs[j].cx <= c.width - CANVAS_MARGIN
           && c.glyphs[i].cy - c.glyphs[j].cy <= c.height - CANVAS_MARGIN
  {
    var c, nodes := Render(root, screenWidth), Descendants(root);
    var xs, ys := Xs(nodes), Ys(nodes);
    assert Min(xs) <= xs[0] <= Max(xs);
    assert Min(ys) <= ys[0] <= Max(ys);
    forall i, j | 0 <= i < |c.glyphs| && 0 <= j < |c.glyphs|
      ensures c.glyphs[i].cx - c.glyphs[j].cx <= c.width - CANVAS_MARGIN
      ensures c.glyphs[i].cy - c.glyphs[j].cy <= c.height - CANVAS_MARGIN
    {
      assert xs[i] <= Max(xs) && Min(xs) <= xs[j];
      assert ys[i] <= Max(ys) && Min(ys) <= ys[j];
    }
  }

  lemma RenderedGlyph(root: LaidOut, screenWidth: real, i: nat)
    requires i < Size(root)
    ensures var nodes := Descendants(root);
      Render(root, screenWidth).glyphs[i] == Glyph(nodes[i], OffsetX(nodes, screenWidth), OffsetY(nodes))
  {
  }

  lemma RenderedLine(root: LaidOut, screenWidth: real, k: nat)
    requires k < Size(root) - 1
    ensures var nodes := Descendants(root);
      Render(root, screenWidth).lines[k] == LineOf(Links(root)[k], OffsetX(nodes, screenWidth), OffsetY(nodes))
  {
  }

  /** Both ends of every link are listed nodes, the target a child of the source. */
  lemma LinkEndsListed(root: LaidOut, k: nat) returns (i: nat, j: nat)
    requires k < Size(root) - 1
    ensures var nodes, link := Descendants(root), Links(root)[k];
      && i < |nodes| && j < |nodes|
      && nodes[i] == link.source && nodes[j] == link.target
      && nodes[j] in nodes[i].kids
  {
    var nodes, link := Descendants(root), Links(root)[k];
    BfsHasKids([root], link.source, link.target);
    i :| 0 <= i < |nodes| && nodes[i] == link.source;
    j :| 0 <= j < |nodes| && nodes[j] == link.target;
  }

  /** Line k runs from the centre of link k's source, a drawn parent, to the centre of its target, one of that parent's drawn children. */
  lemma LineJoinsParentAndChild(root: LaidOut, screenWidth: real, k: nat) returns (i: nat, j: nat)
    requires k < Size(root) - 1
    ensures var c, nodes := Render(root, screenWidth), Descendants(root);
      && i < |nodes| && j < |nodes|
      && nodes[j] in nodes[i].kids
      && nodes[i] == Links(root)[k].source && nodes[j] == Links(root)[k].target
      && c.lines[k] == Line(c.glyphs[i].cx, c.glyphs[i].cy, c.glyphs[j].cx, c.glyphs[j].cy)
  {
    i, j := LinkEndsListed(root, k);
    RenderedLine(root, screenWidth, k);
    RenderedGlyph(root, screenWidth, i);
    RenderedGlyph(root, screenWidth, j);
  }

  /** Circle radius, colour rule and the two labels around each node. */
  lemma GlyphDecoration(root: LaidOut, screenWidth: real, i: nat)
    requires i < Size(root)
    ensures var g, n := Render(root, screenWidth).glyphs[i], Descendants(root)[i];
      && g.r == NODE_RADIUS
      && (g.fill == ACTIVE_FILL <==> n.data.attributes.status == "active")
      && g.nameLabel == Label(g.cx, g.cy - (NODE_RADIUS + NAME_GAP), n.data.name)
      && g.levelLabel == Label(g.cx, g.cy + (NODE_RADIUS + LEVEL_GAP), n.data.attributes.level)
  {
    RenderedGlyph(root, screenWidth, i);
  }

  /** Tapping the i-th drawn node selects exactly that node's record, which is a record of the tree. */
  lemma TapSelectsNode(root: LaidOut, t: TreeNode, screenWidth: real, i: nat)
    requires Mirrors(root, t) && i < Size(root)
    ensures var g := Render(root, screenWidth).glyphs[i];
      g.onTap == Descendants(root)[i].data && IsNodeOf(g.onTap, t)
  {
    var n := Descendants(root)[i];
    BfsWithinQueue([root], n);
    MirroredPart(root, t, n);
  }
}
