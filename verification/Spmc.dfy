/**
 The public single-producer multi-consumer span-lists (src/spmc_span_list.rs).

 Any number of lists share one supply of nodes: enqueueing consumes the node a
 span carries, and a pop hands the outgoing dummy to the popped span, so nodes
 migrate between lists and a slow consumer may hold a recycled one.  One step is
 one atomic action under sequential consistency:

 - the two halves of the head word are loaded separately, in either order (a
   16-byte load may tear);
 - a CAS2 may fail spuriously;
 - the winning CAS2, the load of `next.span` and the hand-off of the outgoing
   dummy are three separate steps, as in the code.

 That last split is what makes the list delicate: see `StoreIsSafeIff` for the
 exact condition under which an enqueue may reuse a node.  Versions do not wrap.
 */
module Spmc {
  import opened Wrappers

  type Node = nat
  type Span = nat
  type ListId = nat
  type Tid = nat

  /** `head`, `version` and `tail` are the list's words.  `nodes` and `enqueued` are
      histories: the node at each position ever linked (position 0 is the first
      dummy) and the spans in publication order, position k carrying
      `enqueued[k - 1]`.  `taken` records what each pop read, by position. */
  datatype List = List(
    head: Node,
    version: nat,
    tail: Node,
    nodes: seq<Node>,
    enqueued: seq<Span>,
    taken: map<nat, Span>)

  /** Where the producer of a list is inside `enqueue_by_owner`. */
  datatype Enqueue =
    | Took(span: Span, node: Node)
    | Stored(span: Span, node: Node)
    | Cleared(span: Span, node: Node)

  /** Where a consumer is inside `try_pop_head_once`.  `pos` is a history variable:
      the position its CAS2 moved the head to. */
  datatype Pop =
    | HasPtr(l: ListId, ptr: Node)
    | HasVersion(l: ListId, ver: nat)
    | HasHead(l: ListId, ptr: Node, ver: nat)
    | HasNext(l: ListId, ptr: Node, ver: nat, nxt: Node)
    | Won(l: ListId, outgoing: Node, incoming: Node, pos: nat)
    | HasSpan(l: ListId, outgoing: Node, pos: nat, span: Span)

  /** `next` and `spanOf` are the fields of the nodes, `nodeOf` the node each span
      carries, for all the nodes and spans there are.  A list or thread outside `enqs` or `pops` is idle. */
  datatype State = State(
    allNodes: set<Node>,
    allSpans: set<Span>,
    lists: map<ListId, List>,
    next: map<Node, Option<Node>>,
    spanOf: map<Node, Option<Span>>,
    nodeOf: map<Span, Option<Node>>,
    enqs: map<ListId, Enqueue>,
    pops: map<Tid, Pop>)

  datatype Step =
    | EnqTake(l: ListId, span: Span)
    | EnqStore(l: ListId)
    | EnqClear(l: ListId)
    | EnqPublish(l: ListId)
    | LoadPtr(t: Tid, l: ListId)
    | LoadVersion(t: Tid, l: ListId)
    | LoadOtherHalf(t: Tid)
    | LoadNext(t: Tid)
    | Cas2(t: Tid)
    | Cas2Fail(t: Tid)
    | ReadSpan(t: Tid)
    | HandOff(t: Tid)

  /** Field loads; a field never stored to holds null. */
  ghost function NextOf(s: State, n: Node): Option<Node> { if n in s.next then s.next[n] else None }
  ghost function SpanOf(s: State, n: Node): Option<Span> { if n in s.spanOf then s.spanOf[n] else None }
  ghost function NodeOf(s: State, x: Span): Option<Node> { if x in s.nodeOf then s.nodeOf[x] else None }

  /** When a step can be taken.  The non-null condition on `ReadSpan` is the code's debug
      assertion: `EverythingInOnePlace` proves that a winner is never blocked by it. */
  ghost predicate Enabled(s: State, step: Step) {
    match step
    case EnqTake(l, x) => l in s.lists && l !in s.enqs && NodeOf(s, x).Some?
    case EnqStore(l) => l in s.enqs && s.enqs[l].Took?
    case EnqClear(l) => l in s.enqs && s.enqs[l].Stored?
    case EnqPublish(l) => l in s.lists && l in s.enqs && s.enqs[l].Cleared?
    case LoadPtr(t, l) => t !in s.pops && l in s.lists
    case LoadVersion(t, l) => t !in s.pops && l in s.lists
    case LoadOtherHalf(t) => t in s.pops && s.pops[t].l in s.lists && (s.pops[t].HasPtr? || s.pops[t].HasVersion?)
    case LoadNext(t) => t in s.pops && s.pops[t].HasHead?
    case Cas2(t) => t in s.pops && s.pops[t].HasNext? && HeadIs(s, s.pops[t].l, s.pops[t].ptr, s.pops[t].ver)
    case Cas2Fail(t) => t in s.pops && s.pops[t].HasNext?
    case ReadSpan(t) => t in s.pops && s.pops[t].Won? && s.pops[t].l in s.lists && SpanOf(s, s.pops[t].incoming).Some?
    case HandOff(t) => t in s.pops && s.pops[t].HasSpan?
  }

  ghost predicate HeadIs(s: State, l: ListId, ptr: Node, ver: nat) {
    l in s.lists && s.lists[l].head == ptr && s.lists[l].version == ver
  }

  /** The effect of one atomic action. */
  ghost function Apply(s: State, step: Step): State
    requires Enabled(s, step)
  {
    match step
    case EnqTake(l, x) =>
      s.(nodeOf := s.nodeOf[x := None], enqs := s.enqs[l := Took(x, NodeOf(s, x).value)])
    case EnqStore(l) =>
      var e := s.enqs[l];
      s.(spanOf := s.spanOf[e.node := Some(e.span)], enqs := s.enqs[l := Stored(e.span, e.node)])
    case EnqClear(l) =>
      var e := s.enqs[l];
      s.(next := s.next[e.node := None], enqs := s.enqs[l := Cleared(e.span, e.node)])
    case EnqPublish(l) =>
      var e, q := s.enqs[l], s.lists[l];
      s.(next := s.next[q.tail := Some(e.node)],
         lists := s.lists[l := q.(tail := e.node, nodes := q.nodes + [e.node], enqueued := q.enqueued + [e.span])],
         enqs := s.enqs - {l})
    case LoadPtr(t, l) => s.(pops := s.pops[t := HasPtr(l, s.lists[l].head)])
    case LoadVersion(t, l) => s.(pops := s.pops[t := HasVersion(l, s.lists[l].version)])
    case LoadOtherHalf(t) =>
      var p := s.pops[t];
      var q := s.lists[p.l];
      s.(pops := s.pops[t := if p.HasPtr? then HasHead(p.l, p.ptr, q.version) else HasHead(p.l, q.head, p.ver)])
    case LoadNext(t) =>
      var p := s.pops[t];
      s.(pops := if NextOf(s, p.ptr).None? then s.pops - {t}
                 else s.pops[t := HasNext(p.l, p.ptr, p.ver, NextOf(s, p.ptr).value)])
    case Cas2(t) =>
      var p := s.pops[t];
      var q := s.lists[p.l];
      s.(lists := s.lists[p.l := q.(head := p.nxt, version := p.ver + 1)],
         pops := s.pops[t := Won(p.l, p.ptr, p.nxt, p.ver + 1)])
    case Cas2Fail(t) => s.(pops := s.pops - {t})
    case ReadSpan(t) =>
      var p := s.pops[t];
      var q, x := s.lists[p.l], SpanOf(s, p.incoming).value;
      s.(lists := s.lists[p.l := q.(taken := q.taken[p.pos := x])],
         pops := s.pops[t := HasSpan(p.l, p.outgoing, p.pos, x)])
    case HandOff(t) =>
      var p := s.pops[t];
      s.(nodeOf := s.nodeOf[p.span := Some(p.outgoing)], pops := s.pops - {t})
  }

  // ------------------------------------------------------------------
  // Where nodes and spans are

  datatype NodePlace = Linked(l: ListId, pos: nat) | Carried(x: Span) | InEnqueue(l: ListId) | Outgoing(t: Tid)

  ghost predicate NodeAt(s: State, p: NodePlace, n: Node) {
    match p
    case Linked(l, pos) => l in s.lists && s.lists[l].version <= pos < |s.lists[l].nodes| && s.lists[l].nodes[pos] == n
    case Carried(x) => NodeOf(s, x) == Some(n)
    case InEnqueue(l) => l in s.enqs && s.enqs[l].node == n
    case Outgoing(t) => t in s.pops && (s.pops[t].Won? || s.pops[t].HasSpan?) && s.pops[t].outgoing == n
  }

  datatype SpanPlace = Free | Entering(l: ListId) | Queued(l: ListId, pos: nat) | Leaving(t: Tid)

  ghost predicate SpanAt(s: State, p: SpanPlace, x: Span) {
    match p
    case Free => NodeOf(s, x).Some?
    case Entering(l) => l in s.enqs && s.enqs[l].span == x
    case Queued(l, pos) => l in s.lists && s.lists[l].version < pos <= |s.lists[l].enqueued|
      && s.lists[l].enqueued[pos - 1] == x
    case Leaving(t) =>
      && t in s.pops
      && (s.pops[t].Won? || s.pops[t].HasSpan?)
      && s.pops[t].l in s.lists
      && 1 <= s.pops[t].pos <= |s.lists[s.pops[t].l].enqueued|
      && s.lists[s.pops[t].l].enqueued[s.pops[t].pos - 1] == x
  }

  ghost predicate NodesPlaced(s: State) {
    && (forall n :: n in s.allNodes ==> exists p :: NodeAt(s, p, n))
    && (forall p, q, n :: NodeAt(s, p, n) && NodeAt(s, q, n) ==> p == q)
  }

  ghost predicate SpansPlaced(s: State) {
    && (forall x :: x in s.allSpans ==> exists p :: SpanAt(s, p, x))
    && (forall p, q, x :: SpanAt(s, p, x) && SpanAt(s, q, x) ==> p == q)
  }

  // ------------------------------------------------------------------
  // The invariant

  /** The node at position i links to the one at position i + 1, the last to none. */
  ghost predicate LinkOk(s: State, q: List, i: nat) {
    i < |q.nodes| && NextOf(s, q.nodes[i]) == if i + 1 < |q.nodes| then Some(q.nodes[i + 1]) else None
  }

  /** The node at position i carries the i-th span enqueued. */
  ghost predicate CarryOk(s: State, q: List, i: nat) {
    1 <= i < |q.nodes| && i <= |q.enqueued| && SpanOf(s, q.nodes[i]) == Some(q.enqueued[i - 1])
  }

  /** The pop of position k has read its span, the right one, or is about to. */
  ghost predicate PopAccounted(s: State, l: ListId, k: nat) {
    && l in s.lists
    && var q := s.lists[l];
       if k in q.taken then 1 <= k <= |q.enqueued| && q.taken[k] == q.enqueued[k - 1] else exists t :: WonAt(s, t, l, k)
  }

  ghost predicate ListOk(s: State, l: ListId) {
    && l in s.lists
    && var q := s.lists[l];
    && |q.nodes| == |q.enqueued| + 1
    && q.version < |q.nodes|
    && q.head == q.nodes[q.version]
    && q.tail == q.nodes[|q.nodes| - 1]
    && (forall i :: q.version <= i < |q.nodes| ==> LinkOk(s, q, i))
    && (forall i :: q.version < i < |q.nodes| ==> CarryOk(s, q, i))
    && (forall k :: k in q.taken ==> 1 <= k <= q.version)
    && (forall k :: 1 <= k <= q.version ==> PopAccounted(s, l, k))
  }

  ghost predicate WonAt(s: State, t: Tid, l: ListId, k: nat) {
    t in s.pops && s.pops[t].Won? && s.pops[t].l == l && s.pops[t].pos == k
  }

  ghost predicate EnqueueOk(s: State, l: ListId)
    requires l in s.enqs
  {
    var e := s.enqs[l];
    && (e.Stored? || e.Cleared? ==> SpanOf(s, e.node) == Some(e.span))
    && (e.Cleared? ==> NextOf(s, e.node) == None)
  }

  /** A snapshot whose version is still current was taken of the current dummy, so its
      `next` is the current one; a winner's node still carries the span at its position. */
  ghost predicate PopOk(s: State, t: Tid)
    requires t in s.pops
  {
    var p := s.pops[t];
    p.l in s.lists &&
    var q := s.lists[p.l];
    match p
    case HasPtr(_, _) => true
    case HasVersion(_, ver) => ver <= q.version
    case HasHead(_, _, ver) => ver <= q.version
    case HasNext(_, ptr, ver, nxt) =>
      ver <= q.version && (HeadIs(s, p.l, ptr, ver) ==> NextOf(s, ptr) == Some(nxt))
    case Won(_, _, incoming, pos) =>
      1 <= pos <= q.version <= |q.enqueued| && SpanOf(s, incoming) == Some(q.enqueued[pos - 1])
    case HasSpan(_, _, pos, x) =>
      1 <= pos <= q.version <= |q.enqueued| && x == q.enqueued[pos - 1]
  }

  ghost predicate ListsOk(s: State) { forall l :: l in s.lists ==> ListOk(s, l) }

  ghost predicate EnqueuesOk(s: State) { forall l :: l in s.enqs ==> l in s.lists && EnqueueOk(s, l) }

  ghost predicate PopsOk(s: State) { forall t :: t in s.pops ==> PopOk(s, t) }

  ghost predicate Shape(s: State) {
    ListsOk(s) && EnqueuesOk(s) && PopsOk(s)
  }

  ghost predicate Inv(s: State) {
    Shape(s) && NodesPlaced(s) && SpansPlaced(s)
  }

  /** Fresh lists, each with its own dummy; every span carries its own node. */
  ghost predicate Init(s: State) {
    && s.enqs == map[] && s.pops == map[] && s.next == map[] && s.spanOf == map[]
    && (forall l :: l in s.lists ==>
      s.lists[l] == List(s.lists[l].head, 0, s.lists[l].head, [s.lists[l].head], [], map[]))
    && (forall x :: x in s.allSpans ==> NodeOf(s, x).Some?)
    && (forall n :: n in s.allNodes ==>
          (exists l :: l in s.lists && s.lists[l].head == n) || (exists x :: NodeOf(s, x) == Some(n)))
    && (forall l, k :: l in s.lists && k in s.lists && s.lists[l].head == s.lists[k].head ==> l == k)
    && (forall x, y :: NodeOf(s, x).Some? && NodeOf(s, x) == NodeOf(s, y) ==> x == y)
    && (forall l, x :: l in s.lists ==> NodeOf(s, x) != Some(s.lists[l].head))
  }

  /** No winner is still about to read the span of the node this enqueue reuses. */
  ghost predicate Unread(s: State, l: ListId)
    requires l in s.enqs
  {
    forall t :: t in s.pops && s.pops[t].Won? ==> s.pops[t].incoming != s.enqs[l].node
  }

  /** The condition on a run under which the lists are correct. */
  ghost predicate Guarded(s: State, step: Step) {
    step.EnqStore? && step.l in s.enqs ==> Unread(s, step.l)
  }

  lemma InitHasInv(s: State)
    requires Init(s)
    ensures Inv(s)
  {
    forall n | n in s.allNodes ensures exists p :: NodeAt(s, p, n) {
      if l :| l in s.lists && s.lists[l].head == n {
        assert NodeAt(s, Linked(l, 0), n);
      } else {
        var x :| NodeOf(s, x) == Some(n);
        assert NodeAt(s, Carried(x), n);
      }
    }
    forall x | x in s.allSpans ensures exists p :: SpanAt(s, p, x) { assert SpanAt(s, Free, x); }
  }

  // ------------------------------------------------------------------
  // Placement: every step leaves all nodes and spans in place or moves one

  ghost predicate NodeMoved(s: State, s': State, n: Node, to: NodePlace) {
    forall p, m :: NodeAt(s', p, m) <==> if m == n then p == to else NodeAt(s, p, m)
  }

  ghost predicate NodesStay(s: State, s': State) {
    forall p, m :: NodeAt(s', p, m) <==> NodeAt(s, p, m)
  }

  ghost predicate SpanMoved(s: State, s': State, x: Span, to: SpanPlace) {
    forall p, y :: SpanAt(s', p, y) <==> if y == x then p == to else SpanAt(s, p, y)
  }

  ghost predicate SpansStay(s: State, s': State) {
    forall p, y :: SpanAt(s', p, y) <==> SpanAt(s, p, y)
  }

  lemma NodeMovedKeepsPlaced(s: State, s': State, n: Node, to: NodePlace)
    requires NodesPlaced(s) && s'.allNodes == s.allNodes
    requires NodesStay(s, s') || NodeMoved(s, s', n, to)
    ensures NodesPlaced(s')
  {
    forall m | m in s'.allNodes ensures exists p :: NodeAt(s', p, m) {
      var p :| NodeAt(s, p, m);
      if NodesStay(s, s') || m != n { assert NodeAt(s', p, m); } else { assert NodeAt(s', to, m); }
    }
  }

  lemma SpanMovedKeepsPlaced(s: State, s': State, x: Span, to: SpanPlace)
    requires SpansPlaced(s) && s'.allSpans == s.allSpans
    requires SpansStay(s, s') || SpanMoved(s, s', x, to)
    ensures SpansPlaced(s')
  {
    forall y | y in s'.allSpans ensures exists p :: SpanAt(s', p, y) {
      var p :| SpanAt(s, p, y);
      if SpansStay(s, s') || y != x { assert SpanAt(s', p, y); } else { assert SpanAt(s', to, y); }
    }
  }

  lemma TakeNodes(s: State, l: ListId, x: Span)
    requires NodesPlaced(s) && Enabled(s, EnqTake(l, x))
    ensures NodesPlaced(Apply(s, EnqTake(l, x)))
  {
    var s', n := Apply(s, EnqTake(l, x)), NodeOf(s, x).value;
    assert NodeAt(s, Carried(x), n);
    assert NodeOf(s', x) == None;
    forall p, m ensures NodeAt(s', p, m) <==> if m == n then p == InEnqueue(l) else NodeAt(s, p, m) {
      assert NodeAt(s, p, n) ==> p == Carried(x);
    }
    NodeMovedKeepsPlaced(s, s', n, InEnqueue(l));
  }

  lemma TakeSpans(s: State, l: ListId, x: Span)
    requires SpansPlaced(s) && Enabled(s, EnqTake(l, x))
    ensures SpansPlaced(Apply(s, EnqTake(l, x)))
  {
    var s' := Apply(s, EnqTake(l, x));
    assert SpanAt(s, Free, x);
    assert NodeOf(s', x) == None;
    forall p, y ensures SpanAt(s', p, y) <==> if y == x then p == Entering(l) else SpanAt(s, p, y) {
      assert SpanAt(s, p, x) ==> p == Free;
    }
    SpanMovedKeepsPlaced(s, s', x, Entering(l));
  }

  lemma PublishNodes(s: State, l: ListId)
    requires NodesPlaced(s) && Enabled(s, EnqPublish(l)) && s.lists[l].version <= |s.lists[l].nodes|
    ensures NodesPlaced(Apply(s, EnqPublish(l)))
  {
    var s', q, n := Apply(s, EnqPublish(l)), s.lists[l], s.enqs[l].node;
    assert NodeAt(s, InEnqueue(l), n);
    forall p, m ensures NodeAt(s', p, m) <==> if m == n then p == Linked(l, |q.nodes|) else NodeAt(s, p, m) {
      assert NodeAt(s, p, n) ==> p == InEnqueue(l);
    }
    NodeMovedKeepsPlaced(s, s', n, Linked(l, |q.nodes|));
  }

  lemma PublishSpans(s: State, l: ListId)
    requires SpansPlaced(s) && PopsOk(s) && Enabled(s, EnqPublish(l)) && s.lists[l].version <= |s.lists[l].enqueued|
    ensures SpansPlaced(Apply(s, EnqPublish(l)))
  {
    var s', q, x := Apply(s, EnqPublish(l)), s.lists[l], s.enqs[l].span;
    var to := Queued(l, |q.enqueued| + 1);
    assert SpanAt(s, Entering(l), x);
    forall p, y ensures SpanAt(s', p, y) <==> if y == x then p == to else SpanAt(s, p, y) {
      assert SpanAt(s, p, x) ==> p == Entering(l);
      if p.Leaving? && p.t in s.pops { assert PopOk(s, p.t); }
    }
    SpanMovedKeepsPlaced(s, s', x, to);
  }

  /** A CAS2 that wins moved the head to the second node of the chain. */
  ghost predicate Second(s: State, t: Tid) {
    && t in s.pops && s.pops[t].HasNext? && s.pops[t].l in s.lists
    && var p := s.pops[t]; var q := s.lists[p.l];
       && q.version == p.ver && p.ver < |q.enqueued| && |q.nodes| == |q.enqueued| + 1
       && q.nodes[p.ver] == p.ptr && q.nodes[p.ver + 1] == p.nxt && CarryOk(s, q, p.ver + 1)
  }

  lemma Cas2Facts(s: State, t: Tid)
    requires Shape(s) && Enabled(s, Cas2(t))
    ensures Second(s, t)
  {
    var p := s.pops[t];
    assert PopOk(s, t) && ListOk(s, p.l);
    assert LinkOk(s, s.lists[p.l], p.ver);
  }

  lemma Cas2Nodes(s: State, t: Tid)
    requires NodesPlaced(s) && Enabled(s, Cas2(t)) && Second(s, t)
    ensures NodesPlaced(Apply(s, Cas2(t)))
  {
    var s', p := Apply(s, Cas2(t)), s.pops[t];
    assert NodeAt(s, Linked(p.l, p.ver), p.ptr);
    forall r, m ensures NodeAt(s', r, m) <==> if m == p.ptr then r == Outgoing(t) else NodeAt(s, r, m) {
      assert NodeAt(s, r, p.ptr) ==> r == Linked(p.l, p.ver);
    }
    NodeMovedKeepsPlaced(s, s', p.ptr, Outgoing(t));
  }

  lemma Cas2Spans(s: State, t: Tid)
    requires SpansPlaced(s) && Enabled(s, Cas2(t)) && Second(s, t)
    ensures SpansPlaced(Apply(s, Cas2(t)))
  {
    var s', p := Apply(s, Cas2(t)), s.pops[t];
    var x := s.lists[p.l].enqueued[p.ver];
    forall r, y ensures SpanAt(s', r, y) <==> if y == x then r == Leaving(t) else SpanAt(s, r, y) {
      Cas2Span(s, t, r, y);
    }
    SpanMovedKeepsPlaced(s, s', x, Leaving(t));
  }

  lemma Cas2Span(s: State, t: Tid, r: SpanPlace, y: Span)
    requires SpansPlaced(s) && Enabled(s, Cas2(t)) && Second(s, t)
    ensures var p := s.pops[t];
      SpanAt(Apply(s, Cas2(t)), r, y) <==>
        if y == s.lists[p.l].enqueued[p.ver] then r == Leaving(t) else SpanAt(s, r, y)
  {
    var p := s.pops[t];
    var x := s.lists[p.l].enqueued[p.ver];
    assert SpanAt(s, Queued(p.l, p.ver + 1), x);
    assert SpanAt(s, r, x) ==> r == Queued(p.l, p.ver + 1);
  }

  lemma HandOffNodes(s: State, t: Tid)
    requires NodesPlaced(s) && SpansPlaced(s) && Enabled(s, HandOff(t)) && SpanAt(s, Leaving(t), s.pops[t].span)
    ensures NodesPlaced(Apply(s, HandOff(t)))
  {
    var s', p := Apply(s, HandOff(t)), s.pops[t];
    assert NodeAt(s, Outgoing(t), p.outgoing);
    assert !SpanAt(s, Free, p.span);
    forall r, m ensures NodeAt(s', r, m) <==> if m == p.outgoing then r == Carried(p.span) else NodeAt(s, r, m) {
      assert NodeAt(s, r, p.outgoing) ==> r == Outgoing(t);
    }
    NodeMovedKeepsPlaced(s, s', p.outgoing, Carried(p.span));
  }

  lemma HandOffSpans(s: State, t: Tid)
    requires SpansPlaced(s) && Enabled(s, HandOff(t)) && SpanAt(s, Leaving(t), s.pops[t].span)
    ensures SpansPlaced(Apply(s, HandOff(t)))
  {
    var s', p := Apply(s, HandOff(t)), s.pops[t];
    forall r, y ensures SpanAt(s', r, y) <==> if y == p.span then r == Free else SpanAt(s, r, y) {
      assert SpanAt(s, r, p.span) ==> r == Leaving(t);
    }
    SpanMovedKeepsPlaced(s, s', p.span, Free);
  }

  ghost predicate Winner(s: State, t: Tid) {
    t in s.pops && (s.pops[t].Won? || s.pops[t].HasSpan?)
  }

  /** Places depend only on the lists' histories and on who holds what. */
  lemma SamePlaces(s: State, s': State)
    requires NodesPlaced(s) && SpansPlaced(s)
    requires s'.allNodes == s.allNodes && s'.allSpans == s.allSpans && s'.nodeOf == s.nodeOf
    requires s'.lists.Keys == s.lists.Keys && s'.enqs.Keys == s.enqs.Keys
    requires forall l :: l in s.lists ==>
      s'.lists[l].version == s.lists[l].version && s'.lists[l].nodes == s.lists[l].nodes
        && s'.lists[l].enqueued == s.lists[l].enqueued
    requires forall l :: l in s.enqs ==> s'.enqs[l].node == s.enqs[l].node && s'.enqs[l].span == s.enqs[l].span
    requires forall t :: Winner(s', t) <==> Winner(s, t)
    requires forall t :: Winner(s, t) && Winner(s', t) ==>
      s'.pops[t].l == s.pops[t].l && s'.pops[t].outgoing == s.pops[t].outgoing && s'.pops[t].pos == s.pops[t].pos
    ensures NodesPlaced(s') && SpansPlaced(s')
  {
    forall p, n ensures NodeAt(s', p, n) <==> NodeAt(s, p, n) {
      if p.Outgoing? { assert Winner(s', p.t) <==> Winner(s, p.t); }
    }
    forall p, x ensures SpanAt(s', p, x) <==> SpanAt(s, p, x) {
      if p.Leaving? { assert Winner(s', p.t) <==> Winner(s, p.t); }
    }
    NodeMovedKeepsPlaced(s, s', 0, InEnqueue(0));
    SpanMovedKeepsPlaced(s, s', 0, Free);
  }

  // ------------------------------------------------------------------
  // Shape

  /** A linked node is in no producer's hands, in no other list and in one position. */
  lemma LinkedAlone(s: State, l: ListId, i: nat)
    requires NodesPlaced(s) && l in s.lists && s.lists[l].version <= i < |s.lists[l].nodes|
    ensures forall k :: k in s.enqs ==> s.enqs[k].node != s.lists[l].nodes[i]
    ensures forall k, j | k in s.lists && s.lists[k].version <= j < |s.lists[k].nodes| ::
      s.lists[k].nodes[j] == s.lists[l].nodes[i] ==> k == l && j == i
  {
    var n := s.lists[l].nodes[i];
    assert NodeAt(s, Linked(l, i), n);
    forall k | k in s.enqs ensures s.enqs[k].node != n { if s.enqs[k].node == n { assert NodeAt(s, InEnqueue(k), n); } }
    forall k, j | k in s.lists && s.lists[k].version <= j < |s.lists[k].nodes| && s.lists[k].nodes[j] == n
      ensures k == l && j == i
    {
      assert NodeAt(s, Linked(k, j), n);
    }
  }

  lemma EnqueuersApart(s: State, l: ListId, k: ListId)
    requires NodesPlaced(s) && l in s.enqs && k in s.enqs && s.enqs[l].node == s.enqs[k].node
    ensures l == k
  {
    assert NodeAt(s, InEnqueue(l), s.enqs[l].node) && NodeAt(s, InEnqueue(k), s.enqs[l].node);
  }

  /** A list keeps its shape when its words and linked nodes do, and no winner on it is forgotten. */
  lemma ListFrame(s: State, s': State, l: ListId)
    requires ListOk(s, l) && l in s'.lists && s'.lists[l] == s.lists[l]
    requires forall i | s.lists[l].version <= i < |s.lists[l].nodes| ::
      NextOf(s', s.lists[l].nodes[i]) == NextOf(s, s.lists[l].nodes[i])
    requires forall i | s.lists[l].version < i < |s.lists[l].nodes| ::
      SpanOf(s', s.lists[l].nodes[i]) == SpanOf(s, s.lists[l].nodes[i])
    requires forall t, k :: WonAt(s, t, l, k) ==> WonAt(s', t, l, k)
    ensures ListOk(s', l)
  {
    var q := s.lists[l];
    forall i | q.version <= i < |q.nodes| ensures LinkOk(s', q, i) { assert LinkOk(s, q, i); }
    forall i | q.version < i < |q.nodes| ensures CarryOk(s', q, i) { assert CarryOk(s, q, i); }
    forall k | 1 <= k <= q.version ensures PopAccounted(s', l, k) { assert PopAccounted(s, l, k); }
  }

  /** A consumer's snapshot stays good when its list's words and the fields it relies on do. */
  lemma PopFrame(s: State, s': State, t: Tid)
    requires t in s.pops && PopOk(s, t) && t in s'.pops && s'.pops[t] == s.pops[t]
    requires s.pops[t].l in s'.lists
    requires var q, q' := s.lists[s.pops[t].l], s'.lists[s.pops[t].l];
      q'.head == q.head && q'.version == q.version && q.enqueued <= q'.enqueued
    requires var p := s.pops[t];
      p.HasNext? && HeadIs(s, p.l, p.ptr, p.ver) ==> NextOf(s', p.ptr) == NextOf(s, p.ptr)
    requires s.pops[t].Won? ==> SpanOf(s', s.pops[t].incoming) == SpanOf(s, s.pops[t].incoming)
    ensures PopOk(s', t)
  {
  }

  /** Stores to the node in a producer's hands are not seen by any list or other producer. */
  lemma StoreSeenByNoList(s: State, l: ListId, s': State)
    requires ListsOk(s) && NodesPlaced(s) && l in s.enqs && s'.lists == s.lists && s'.pops == s.pops
    requires forall n :: n != s.enqs[l].node ==> NextOf(s', n) == NextOf(s, n) && SpanOf(s', n) == SpanOf(s, n)
    ensures ListsOk(s')
  {
    forall k | k in s'.lists ensures ListOk(s', k) {
      assert ListOk(s, k);
      forall i | s.lists[k].version <= i < |s.lists[k].nodes| ensures s.lists[k].nodes[i] != s.enqs[l].node {
        LinkedAlone(s, k, i);
      }
      ListFrame(s, s', k);
    }
  }

  lemma StoreSeenByNoProducer(s: State, l: ListId, s': State, k: ListId)
    requires EnqueuesOk(s) && NodesPlaced(s) && l in s.enqs && k in s.enqs
    requires k in s'.enqs && k != l && s'.enqs[k] == s.enqs[k]
    requires forall n :: n != s.enqs[l].node ==> NextOf(s', n) == NextOf(s, n) && SpanOf(s', n) == SpanOf(s, n)
    ensures EnqueueOk(s', k)
  {
    assert EnqueueOk(s, k);
    if s.enqs[k].node == s.enqs[l].node { EnqueuersApart(s, l, k); }
  }

  /** A step on list l by thread t: fields of nodes, producers and other lists and threads stay. */
  ghost predicate Only(s: State, s': State, l: ListId, t: Tid) {
    && s'.next == s.next && s'.spanOf == s.spanOf && s'.enqs == s.enqs
    && l in s'.lists && s'.lists == s.lists[l := s'.lists[l]]
    && t in s'.pops && s'.pops == s.pops[t := s'.pops[t]]
    && l in s.lists && t in s.pops && s.pops[t].l == l
  }

  lemma OtherListFrame(s: State, s': State, l: ListId, t: Tid, k: ListId)
    requires ListOk(s, k) && Only(s, s', l, t) && k != l
    ensures ListOk(s', k)
  {
    ListFrame(s, s', k);
  }

  lemma OtherPopFrame(s: State, s': State, l: ListId, t: Tid, u: Tid)
    requires Only(s, s', l, t) && u in s'.pops && u != t && u in s.pops && PopOk(s, u) && s'.pops[u].l != l
    ensures PopOk(s', u)
  {
    PopFrame(s, s', u);
  }

  lemma ListsByParts(s: State, s': State, l: ListId, t: Tid)
    requires ListsOk(s) && Only(s, s', l, t) && ListOk(s', l)
    ensures ListsOk(s')
  {
    forall k | k in s'.lists && k != l ensures ListOk(s', k) { OtherListFrame(s, s', l, t, k); }
  }

  lemma PopsByParts(s: State, s': State, l: ListId, t: Tid)
    requires PopsOk(s) && Only(s, s', l, t)
    requires forall u :: u in s'.pops && (u == t || s'.pops[u].l == l) ==> PopOk(s', u)
    ensures PopsOk(s')
  {
    forall u | u in s'.pops && u != t && s'.pops[u].l != l ensures PopOk(s', u) { OtherPopFrame(s, s', l, t, u); }
  }

  lemma EnqueuesFrame(s: State, s': State)
    requires EnqueuesOk(s) && s'.enqs == s.enqs && s.lists.Keys <= s'.lists.Keys
    requires s'.next == s.next && s'.spanOf == s.spanOf
    ensures EnqueuesOk(s')
  {
    forall k | k in s'.enqs ensures k in s'.lists && EnqueueOk(s', k) { assert EnqueueOk(s, k) && k in s.lists.Keys; }
  }

  lemma ShapeByParts(s: State, s': State, l: ListId, t: Tid)
    requires Shape(s) && Only(s, s', l, t) && ListOk(s', l)
    requires forall u :: u in s'.pops && (u == t || s'.pops[u].l == l) ==> PopOk(s', u)
    ensures Shape(s')
  {
    ListsByParts(s, s', l, t);
    PopsByParts(s, s', l, t);
    EnqueuesFrame(s, s');
  }

  /** Lists and consumers depend on the lists, the node fields and the winners alone. */
  ghost predicate SameMemory(s: State, s': State) {
    s'.lists == s.lists && s'.next == s.next && s'.spanOf == s.spanOf
  }

  lemma ListsFrame(s: State, s': State)
    requires ListsOk(s) && SameMemory(s, s')
    requires forall t, l, k :: WonAt(s, t, l, k) ==> WonAt(s', t, l, k)
    ensures ListsOk(s')
  {
    forall k | k in s'.lists ensures ListOk(s', k) { ListFrame(s, s', k); }
  }

  lemma PopsFrame(s: State, s': State, t: Tid)
    requires PopsOk(s) && SameMemory(s, s')
    requires forall u :: u in s'.pops && u != t ==> u in s.pops && s'.pops[u] == s.pops[u]
    requires t in s'.pops ==> PopOk(s', t)
    ensures PopsOk(s')
  {
    forall u | u in s'.pops ensures PopOk(s', u) { if u != t { PopFrame(s, s', u); } }
  }

  lemma AllPopsFrame(s: State, s': State)
    requires PopsOk(s) && SameMemory(s, s') && s'.pops == s.pops
    ensures PopsOk(s')
  {
    forall u | u in s'.pops ensures PopOk(s', u) { PopFrame(s, s', u); }
  }

  lemma TakeEnqueues(s: State, l: ListId, x: Span)
    requires EnqueuesOk(s) && Enabled(s, EnqTake(l, x))
    ensures EnqueuesOk(Apply(s, EnqTake(l, x)))
  {
    var s' := Apply(s, EnqTake(l, x));
    forall k | k in s'.enqs ensures k in s'.lists && EnqueueOk(s', k) { if k != l { assert EnqueueOk(s, k); } }
  }

  lemma TakeShape(s: State, l: ListId, x: Span)
    requires Shape(s) && Enabled(s, EnqTake(l, x))
    ensures Shape(Apply(s, EnqTake(l, x)))
  {
    var s' := Apply(s, EnqTake(l, x));
    ListsFrame(s, s');
    assert s'.pops == s.pops;
    AllPopsFrame(s, s');
    TakeEnqueues(s, l, x);
  }

  lemma StoreEnqueues(s: State, l: ListId)
    requires EnqueuesOk(s) && NodesPlaced(s) && Enabled(s, EnqStore(l))
    ensures EnqueuesOk(Apply(s, EnqStore(l)))
  {
    var s' := Apply(s, EnqStore(l));
    forall k | k in s'.enqs ensures k in s'.lists && EnqueueOk(s', k) {
      if k != l { StoreSeenByNoProducer(s, l, s', k); }
    }
  }

  lemma StorePops(s: State, l: ListId)
    requires PopsOk(s) && Enabled(s, EnqStore(l)) && Unread(s, l)
    ensures PopsOk(Apply(s, EnqStore(l)))
  {
    var s' := Apply(s, EnqStore(l));
    forall t | t in s'.pops ensures PopOk(s', t) { PopFrame(s, s', t); }
  }

  lemma ClearEnqueues(s: State, l: ListId)
    requires EnqueuesOk(s) && NodesPlaced(s) && Enabled(s, EnqClear(l))
    ensures EnqueuesOk(Apply(s, EnqClear(l)))
  {
    var s' := Apply(s, EnqClear(l));
    assert EnqueueOk(s, l);
    forall k | k in s'.enqs ensures k in s'.lists && EnqueueOk(s', k) {
      if k != l { StoreSeenByNoProducer(s, l, s', k); }
    }
  }

  /** A snapshot that still matches the head is of the dummy, which no producer holds. */
  lemma ClearPops(s: State, l: ListId)
    requires ListsOk(s) && PopsOk(s) && NodesPlaced(s) && Enabled(s, EnqClear(l))
    ensures PopsOk(Apply(s, EnqClear(l)))
  {
    var s' := Apply(s, EnqClear(l));
    forall t | t in s'.pops ensures PopOk(s', t) {
      var p := s.pops[t];
      if p.HasNext? && HeadIs(s, p.l, p.ptr, p.ver) {
        assert ListOk(s, p.l);
        LinkedAlone(s, p.l, p.ver);
      }
      PopFrame(s, s', t);
    }
  }

  lemma PublishList(s: State, l: ListId)
    requires Shape(s) && NodesPlaced(s) && Enabled(s, EnqPublish(l))
    ensures ListOk(Apply(s, EnqPublish(l)), l)
  {
    var s' := Apply(s, EnqPublish(l));
    var q, q', n := s.lists[l], s'.lists[l], s.enqs[l].node;
    assert ListOk(s, l) && EnqueueOk(s, l);
    LinkedAlone(s, l, |q.nodes| - 1);
    forall i | q'.version <= i < |q'.nodes| ensures LinkOk(s', q', i) {
      if i < |q.nodes| {
        assert LinkOk(s, q, i);
        LinkedAlone(s, l, i);
      }
    }
    forall i | q'.version < i < |q'.nodes| ensures CarryOk(s', q', i) {
      if i < |q.nodes| { assert CarryOk(s, q, i); }
    }
    forall k | 1 <= k <= q'.version ensures PopAccounted(s', l, k) {
      assert PopAccounted(s, l, k);
      if k !in q.taken { var t :| WonAt(s, t, l, k); assert WonAt(s', t, l, k); }
    }
  }

  lemma PublishPop(s: State, l: ListId, t: Tid)
    requires ListsOk(s) && Enabled(s, EnqPublish(l)) && t in s.pops && PopOk(s, t)
    ensures PopOk(Apply(s, EnqPublish(l)), t)
  {
    var s', q, p := Apply(s, EnqPublish(l)), s.lists[l], s.pops[t];
    assert ListOk(s, l);
    if p.HasNext? && HeadIs(s, p.l, p.ptr, p.ver) {
      assert ListOk(s, p.l) && LinkOk(s, s.lists[p.l], p.ver) && LinkOk(s, q, |q.nodes| - 1);
    }
    PopFrame(s, s', t);
  }

  lemma PublishLists(s: State, l: ListId)
    requires Shape(s) && NodesPlaced(s) && Enabled(s, EnqPublish(l))
    ensures ListsOk(Apply(s, EnqPublish(l)))
  {
    var s', q := Apply(s, EnqPublish(l)), s.lists[l];
    assert ListOk(s, l);
    LinkedAlone(s, l, |q.nodes| - 1);
    PublishList(s, l);
    forall k | k in s'.lists && k != l ensures ListOk(s', k) { ListFrame(s, s', k); }
  }

  lemma PublishEnqueues(s: State, l: ListId)
    requires ListOk(s, l) && EnqueuesOk(s) && NodesPlaced(s) && Enabled(s, EnqPublish(l))
    ensures EnqueuesOk(Apply(s, EnqPublish(l)))
  {
    var s', q := Apply(s, EnqPublish(l)), s.lists[l];
    LinkedAlone(s, l, |q.nodes| - 1);
    forall k | k in s'.enqs ensures k in s'.lists && EnqueueOk(s', k) { assert EnqueueOk(s, k); }
  }

  lemma PublishKeepsInv(s: State, l: ListId)
    requires Inv(s) && Enabled(s, EnqPublish(l))
    ensures Inv(Apply(s, EnqPublish(l)))
  {
    var s' := Apply(s, EnqPublish(l));
    assert ListOk(s, l);
    PublishNodes(s, l);
    PublishSpans(s, l);
    PublishLists(s, l);
    PublishEnqueues(s, l);
    assert PopsOk(s') by { forall t | t in s'.pops ensures PopOk(s', t) { PublishPop(s, l, t); } }
  }

  lemma LoadShape(s: State, s': State, t: Tid)
    requires Shape(s) && SameMemory(s, s') && s'.enqs == s.enqs && OnlyPop(s, s', t)
    requires !(t in s.pops && s.pops[t].Won?)
    requires t in s'.pops ==> PopOk(s', t)
    ensures Shape(s')
  {
    ListsFrame(s, s');
    PopsFrame(s, s', t);
    EnqueuesFrame(s, s');
  }

  /** Consumer t alone has moved. */
  ghost predicate OnlyPop(s: State, s': State, t: Tid) {
    (t in s'.pops && s'.pops == s.pops[t := s'.pops[t]]) || s'.pops == s.pops - {t}
  }

  /** After a pop no snapshot of the same list is current; the winner's node carries its span. */
  lemma Cas2Pop(s: State, t: Tid, u: Tid)
    requires Second(s, t) && Enabled(s, Cas2(t)) && u in s.pops && s.pops[u].l == s.pops[t].l && PopOk(s, u)
    ensures PopOk(Apply(s, Cas2(t)), u)
  {
  }

  lemma Cas2Shape(s: State, t: Tid)
    requires Shape(s) && Enabled(s, Cas2(t))
    ensures Shape(Apply(s, Cas2(t)))
  {
    var s', p := Apply(s, Cas2(t)), s.pops[t];
    Cas2Facts(s, t);
    Cas2List(s, t);
    forall u | u in s'.pops && (u == t || s'.pops[u].l == p.l) ensures PopOk(s', u) { Cas2Pop(s, t, u); }
    ShapeByParts(s, s', p.l, t);
  }

  lemma Cas2List(s: State, t: Tid)
    requires ListsOk(s) && Second(s, t) && Enabled(s, Cas2(t))
    ensures ListOk(Apply(s, Cas2(t)), s.pops[t].l)
  {
    var s', p := Apply(s, Cas2(t)), s.pops[t];
    var q, q' := s.lists[p.l], s'.lists[p.l];
    assert ListOk(s, p.l) && WonAt(s', t, p.l, p.ver + 1);
    forall i | q'.version <= i < |q'.nodes| ensures LinkOk(s', q', i) { assert LinkOk(s, q, i); }
    forall i | q'.version < i < |q'.nodes| ensures CarryOk(s', q', i) { assert CarryOk(s, q, i); }
    forall k | 1 <= k <= q'.version ensures PopAccounted(s', p.l, k) {
      if k <= p.ver {
        assert PopAccounted(s, p.l, k);
        if k !in q.taken { var u :| WonAt(s, u, p.l, k); assert WonAt(s', u, p.l, k); }
      }
    }
  }

  lemma ReadPop(s: State, t: Tid, u: Tid)
    requires Shape(s) && Enabled(s, ReadSpan(t)) && u in s.pops && s.pops[u].l == s.pops[t].l
    ensures PopOk(Apply(s, ReadSpan(t)), u)
  {
    assert PopOk(s, u) && PopOk(s, t);
    if u != t { PopFrame(s, Apply(s, ReadSpan(t)), u); }
  }

  lemma ReadShape(s: State, t: Tid)
    requires Shape(s) && Enabled(s, ReadSpan(t))
    ensures Shape(Apply(s, ReadSpan(t)))
  {
    var s', p := Apply(s, ReadSpan(t)), s.pops[t];
    ReadList(s, t);
    forall u | u in s'.pops && (u == t || s'.pops[u].l == p.l) ensures PopOk(s', u) { ReadPop(s, t, u); }
    ShapeByParts(s, s', p.l, t);
  }

  lemma ReadList(s: State, t: Tid)
    requires Shape(s) && Enabled(s, ReadSpan(t))
    ensures ListOk(Apply(s, ReadSpan(t)), s.pops[t].l)
  {
    var s', p := Apply(s, ReadSpan(t)), s.pops[t];
    var q, q' := s.lists[p.l], s'.lists[p.l];
    assert PopOk(s, t) && ListOk(s, p.l);
    forall i | q'.version <= i < |q'.nodes| ensures LinkOk(s', q', i) { assert LinkOk(s, q, i); }
    forall i | q'.version < i < |q'.nodes| ensures CarryOk(s', q', i) { assert CarryOk(s, q, i); }
    forall k | 1 <= k <= q'.version ensures PopAccounted(s', p.l, k) {
      assert PopAccounted(s, p.l, k);
      if k !in q'.taken { var u :| WonAt(s, u, p.l, k); assert WonAt(s', u, p.l, k); }
    }
  }

  lemma LoadOk(s: State, step: Step)
    requires Shape(s) && Enabled(s, step)
    requires IsLoad(step)
    ensures var s' := Apply(s, step); step.t in s'.pops ==> PopOk(s', step.t)
  {
    if step.t in s.pops { assert PopOk(s, step.t); }
  }

  ghost predicate IsLoad(step: Step) {
    step.LoadPtr? || step.LoadVersion? || step.LoadOtherHalf? || step.LoadNext? || step.Cas2Fail?
  }

  /** Loads and failed attempts move nothing but a consumer that holds nothing. */
  lemma LoadMovesOne(s: State, step: Step)
    requires Enabled(s, step) && IsLoad(step)
    ensures var s' := Apply(s, step);
      s' == s.(pops := s'.pops) && OnlyPop(s, s', step.t) && !Winner(s, step.t) && !Winner(s', step.t)
  {
  }

  lemma LoadPlaces(s: State, s': State, t: Tid)
    requires NodesPlaced(s) && SpansPlaced(s)
    requires s' == s.(pops := s'.pops) && OnlyPop(s, s', t) && !Winner(s, t) && !Winner(s', t)
    ensures NodesPlaced(s') && SpansPlaced(s')
  {
    SamePlaces(s, s');
  }

  lemma LoadKeepsInv(s: State, step: Step)
    requires Inv(s) && Enabled(s, step) && IsLoad(step)
    ensures Inv(Apply(s, step))
  {
    LoadOk(s, step);
    LoadMovesOne(s, step);
    LoadPlaces(s, Apply(s, step), step.t);
    LoadShape(s, Apply(s, step), step.t);
  }

  lemma FieldStoreKeepsPlaces(s: State, l: ListId, s': State)
    requires NodesPlaced(s) && SpansPlaced(s) && l in s.enqs && l in s'.enqs
    requires s' == s.(next := s'.next, spanOf := s'.spanOf, enqs := s.enqs[l := s'.enqs[l]])
    requires s'.enqs[l].node == s.enqs[l].node && s'.enqs[l].span == s.enqs[l].span
    ensures NodesPlaced(s') && SpansPlaced(s')
  {
    SamePlaces(s, s');
  }

  lemma StoreKeepsInv(s: State, l: ListId)
    requires Inv(s) && Enabled(s, EnqStore(l)) && Unread(s, l)
    ensures Inv(Apply(s, EnqStore(l)))
  {
    var s' := Apply(s, EnqStore(l));
    StoreSeenByNoList(s, l, s');
    StoreEnqueues(s, l);
    StorePops(s, l);
    FieldStoreKeepsPlaces(s, l, s');
  }

  lemma ClearKeepsInv(s: State, l: ListId)
    requires Inv(s) && Enabled(s, EnqClear(l))
    ensures Inv(Apply(s, EnqClear(l)))
  {
    var s' := Apply(s, EnqClear(l));
    StoreSeenByNoList(s, l, s');
    ClearEnqueues(s, l);
    ClearPops(s, l);
    FieldStoreKeepsPlaces(s, l, s');
  }

  lemma ReadPlaces(s: State, t: Tid)
    requires NodesPlaced(s) && SpansPlaced(s) && Enabled(s, ReadSpan(t))
    ensures NodesPlaced(Apply(s, ReadSpan(t))) && SpansPlaced(Apply(s, ReadSpan(t)))
  {
    SamePlaces(s, Apply(s, ReadSpan(t)));
  }

  lemma HandOffKeepsInv(s: State, t: Tid)
    requires Inv(s) && Enabled(s, HandOff(t))
    ensures Inv(Apply(s, HandOff(t)))
  {
    assert PopOk(s, t) && SpanAt(s, Leaving(t), s.pops[t].span);
    HandOffNodes(s, t);
    HandOffSpans(s, t);
    LoadShape(s, Apply(s, HandOff(t)), t);
  }

  lemma StepKeepsInv(s: State, step: Step)
    requires Inv(s) && Enabled(s, step) && Guarded(s, step)
    ensures Inv(Apply(s, step))
  {
    match step
    case EnqTake(l, x) => TakeNodes(s, l, x); TakeSpans(s, l, x); TakeShape(s, l, x);
    case EnqStore(l) => StoreKeepsInv(s, l);
    case EnqClear(l) => ClearKeepsInv(s, l);
    case EnqPublish(l) => PublishKeepsInv(s, l);
    case Cas2(t) => Cas2Facts(s, t); Cas2Nodes(s, t); Cas2Spans(s, t); Cas2Shape(s, t);
    case ReadSpan(t) => ReadPlaces(s, t); ReadShape(s, t);
    case HandOff(t) => HandOffKeepsInv(s, t);
    case _ => LoadKeepsInv(s, step);
  }

  // ------------------------------------------------------------------
  // Runs

  /** Any interleaving of producers and consumers, every store guarded. */
  ghost predicate IsRun(run: seq<State>, steps: seq<Step>) {
    && |run| == |steps| + 1
    && Init(run[0])
    && forall i :: 0 <= i < |steps| ==> Enabled(run[i], steps[i]) && run[i + 1] == Apply(run[i], steps[i])
  }

  ghost predicate IsGuardedRun(run: seq<State>, steps: seq<Step>) {
    IsRun(run, steps) && forall i :: 0 <= i < |steps| ==> Guarded(run[i], steps[i])
  }

  lemma {:induction false} RunKeepsInv(run: seq<State>, steps: seq<Step>, i: nat)
    requires IsGuardedRun(run, steps) && i < |run|
    ensures Inv(run[i])
  {
    if i == 0 {
      InitHasInv(run[0]);
    } else {
      RunKeepsInv(run, steps, i - 1);
      assert Guarded(run[i - 1], steps[i - 1]);
      StepKeepsInv(run[i - 1], steps[i - 1]);
    }
  }

  // ------------------------------------------------------------------
  // Refinement of a FIFO queue

  /** The spans found by following `next` from node n, at most `fuel` of them; this is
      the walk of the quiescent checker (src/verify.rs). */
  ghost function Walk(s: State, n: Node, fuel: nat): seq<Option<Span>>
    decreases fuel
  {
    if fuel == 0 || NextOf(s, n).None? then []
    else [SpanOf(s, NextOf(s, n).value)] + Walk(s, NextOf(s, n).value, fuel - 1)
  }

  ghost function Somes(xs: seq<Span>): seq<Option<Span>> {
    seq(|xs|, i requires 0 <= i < |xs| => Some(xs[i]))
  }

  lemma {:induction false} WalkFinds(s: State, l: ListId, pos: nat, fuel: nat)
    requires ListOk(s, l) && s.lists[l].version <= pos < |s.lists[l].nodes|
    requires fuel >= |s.lists[l].enqueued| - pos
    ensures Walk(s, s.lists[l].nodes[pos], fuel) == Somes(s.lists[l].enqueued[pos..])
    decreases fuel
  {
    var q := s.lists[l];
    assert LinkOk(s, q, pos);
    if pos + 1 < |q.nodes| {
      assert CarryOk(s, q, pos + 1);
      WalkFinds(s, l, pos + 1, fuel - 1);
      assert Somes(q.enqueued[pos..]) == [Some(q.enqueued[pos])] + Somes(q.enqueued[pos + 1..]);
    }
  }

  /** What the pops of list l have read, in pop order; None where the winner has not read yet. */
  ghost function Popped(q: List): seq<Option<Span>> {
    seq(q.version, k => if k + 1 in q.taken then Some(q.taken[k + 1]) else None)
  }

  lemma PoppedThenQueued(q: List)
    requires q.version <= |q.enqueued| && forall k :: 0 <= k < q.version ==> Popped(q)[k] == Some(q.enqueued[k])
    ensures Popped(q) + Somes(q.enqueued[q.version..]) == Somes(q.enqueued)
  {
    var both, all := Popped(q) + Somes(q.enqueued[q.version..]), Somes(q.enqueued);
    forall k | 0 <= k < |all| ensures both[k] == all[k] {
      if k < q.version { assert both[k] == Popped(q)[k]; }
    }
  }

  /** Pop number k of list l has read the k-th span enqueued, or its winner will read that one. */
  ghost predicate ReadOrDue(s: State, l: ListId, k: nat) {
    && l in s.lists && k < s.lists[l].version && k < |s.lists[l].enqueued|
    && var q := s.lists[l];
       || Popped(q)[k] == Some(q.enqueued[k])
       || exists t :: WonAt(s, t, l, k + 1) && SpanOf(s, s.pops[t].incoming) == Some(q.enqueued[k])
  }

  lemma EveryPopReadOrDue(s: State, l: ListId, k: nat)
    requires PopsOk(s) && ListOk(s, l) && k < s.lists[l].version
    ensures ReadOrDue(s, l, k)
  {
    assert PopAccounted(s, l, k + 1);
    if k + 1 !in s.lists[l].taken {
      var t :| WonAt(s, t, l, k + 1);
      assert PopOk(s, t);
    }
  }

  /** Popped spans followed by linked spans are the enqueued spans, in order; a pop that
      has not read its span yet has a winner about to read exactly the one at its place. */
  lemma FifoRefinement(run: seq<State>, steps: seq<Step>, i: nat, l: ListId, fuel: nat)
    requires IsGuardedRun(run, steps) && i < |run| && l in run[i].lists
    requires fuel >= |run[i].lists[l].enqueued|
    ensures var s := run[i]; var q := s.lists[l];
      && q.version <= |q.enqueued|
      && Walk(s, q.head, fuel) == Somes(q.enqueued[q.version..])
      && (forall k :: 0 <= k < q.version ==> ReadOrDue(s, l, k))
      && ((forall t :: t in s.pops && s.pops[t].l == l ==> !s.pops[t].Won?) ==>
            Popped(q) + Walk(s, q.head, fuel) == Somes(q.enqueued))
  {
    RunKeepsInv(run, steps, i);
    var s := run[i];
    var q := s.lists[l];
    assert ListOk(s, l);
    WalkFinds(s, l, q.version, fuel);
    forall k | 0 <= k < q.version ensures ReadOrDue(s, l, k) { EveryPopReadOrDue(s, l, k); }
    if forall t :: t in s.pops && s.pops[t].l == l ==> !s.pops[t].Won? {
      forall k | 0 <= k < q.version ensures Popped(q)[k] == Some(q.enqueued[k]) { assert ReadOrDue(s, l, k); }
      PoppedThenQueued(q);
    }
  }

  ghost predicate IsPopOf(s: State, step: Step, l: ListId) {
    step.Cas2? && step.t in s.pops && s.pops[step.t].l == l
  }

  ghost function PopCount(run: seq<State>, steps: seq<Step>, l: ListId, i: nat): nat
    requires |run| == |steps| + 1 && i <= |steps|
  {
    if i == 0 then 0 else PopCount(run, steps, l, i - 1) + if IsPopOf(run[i - 1], steps[i - 1], l) then 1 else 0
  }

  /** The version of a list is the number of CAS2 attempts on it that succeeded. */
  lemma {:induction false} VersionCountsPops(run: seq<State>, steps: seq<Step>, l: ListId, i: nat)
    requires IsRun(run, steps) && i < |run| && l in run[0].lists
    ensures l in run[i].lists && run[i].lists[l].version == PopCount(run, steps, l, i)
  {
    if i > 0 {
      VersionCountsPops(run, steps, l, i - 1);
      var s, step := run[i - 1], steps[i - 1];
      assert Enabled(s, step) && run[i] == Apply(s, step);
    }
  }

  ghost function Queue(s: State, l: ListId): seq<Span> {
    if l in s.lists && s.lists[l].version <= |s.lists[l].enqueued|
    then s.lists[l].enqueued[s.lists[l].version..] else []
  }

  /** What the quiescent walk from the head of list l finds. */
  ghost function Found(s: State, l: ListId, fuel: nat): seq<Option<Span>> {
    if l in s.lists then Walk(s, s.lists[l].head, fuel) else []
  }

  /** Following the links in memory gives the abstract queue. */
  lemma WalkIsQueue(s: State, l: ListId, fuel: nat)
    requires ListOk(s, l) && fuel >= |s.lists[l].enqueued|
    ensures Found(s, l, fuel) == Somes(Queue(s, l))
  {
    WalkFinds(s, l, s.lists[l].version, fuel);
  }

  lemma SomesConcat(a: seq<Span>, b: seq<Span>)
    ensures Somes(a + b) == Somes(a) + Somes(b)
  {
  }

  /** A publication appends to its own queue, as the links in memory have it. */
  lemma PublishAppends(s: State, l: ListId, fuel: nat)
    requires Inv(s) && Enabled(s, EnqPublish(l)) && fuel > |s.lists[l].enqueued|
    ensures Queue(Apply(s, EnqPublish(l)), l) == Queue(s, l) + [s.enqs[l].span]
    ensures Found(Apply(s, EnqPublish(l)), l, fuel) == Found(s, l, fuel) + [Some(s.enqs[l].span)]
  {
    PublishList(s, l);
    PublishGrows(s, Apply(s, EnqPublish(l)), l, s.enqs[l].span, fuel);
  }

  lemma PublishGrows(s: State, s': State, l: ListId, x: Span, fuel: nat)
    requires ListOk(s, l) && ListOk(s', l) && fuel > |s.lists[l].enqueued|
    requires s'.lists[l].version == s.lists[l].version && s'.lists[l].enqueued == s.lists[l].enqueued + [x]
    ensures Queue(s', l) == Queue(s, l) + [x] && Found(s', l, fuel) == Found(s, l, fuel) + [Some(x)]
  {
    WalkIsQueue(s, l, fuel);
    WalkIsQueue(s', l, fuel);
    SomesConcat(Queue(s, l), [x]);
  }

  /** A winning CAS2 takes the front of its queue and leaves with that span. */
  lemma PopTakesFront(s: State, t: Tid, fuel: nat)
    requires Inv(s) && Enabled(s, Cas2(t)) && fuel >= |s.lists[s.pops[t].l].enqueued|
    ensures var l := s.pops[t].l;
      && Queue(s, l) != []
      && Queue(Apply(s, Cas2(t)), l) == Queue(s, l)[1..]
      && SpanAt(Apply(s, Cas2(t)), Leaving(t), Queue(s, l)[0])
      && Found(s, l, fuel) == [Some(Queue(s, l)[0])] + Found(Apply(s, Cas2(t)), l, fuel)
  {
    Cas2Facts(s, t);
    Cas2List(s, t);
    PopShrinks(s, Apply(s, Cas2(t)), s.pops[t].l, fuel);
  }

  lemma PopShrinks(s: State, s': State, l: ListId, fuel: nat)
    requires ListOk(s, l) && ListOk(s', l) && fuel >= |s.lists[l].enqueued|
    requires s.lists[l].version < |s.lists[l].enqueued|
    requires s'.lists[l].version == s.lists[l].version + 1 && s'.lists[l].enqueued == s.lists[l].enqueued
    ensures Queue(s, l) != [] && Queue(s', l) == Queue(s, l)[1..]
    ensures Found(s, l, fuel) == [Some(Queue(s, l)[0])] + Found(s', l, fuel)
  {
    WalkIsQueue(s, l, fuel);
    WalkIsQueue(s', l, fuel);
    assert Queue(s, l) == [Queue(s, l)[0]] + Queue(s', l);
    SomesConcat([Queue(s, l)[0]], Queue(s', l));
  }

  /** No other step changes any abstract queue. */
  lemma OthersKeepQueues(s: State, step: Step, l: ListId)
    requires Enabled(s, step) && step != EnqPublish(l) && !IsPopOf(s, step, l)
    ensures Queue(Apply(s, step), l) == Queue(s, l)
  {
    var s' := Apply(s, step);
    match step
    case EnqPublish(k) => assert l in s'.lists <==> l in s.lists;
    case Cas2(t) => assert l in s'.lists <==> l in s.lists;
    case ReadSpan(t) => assert l in s'.lists <==> l in s.lists;
    case _ => assert s'.lists == s.lists;
  }

  /** Nor do the links in memory change what they spell, however nodes are cleared and reused. */
  lemma OthersKeepWalks(s: State, step: Step, l: ListId, fuel: nat)
    requires Inv(s) && Enabled(s, step) && Guarded(s, step) && l in s.lists && fuel >= |s.lists[l].enqueued|
    requires step != EnqPublish(l) && !IsPopOf(s, step, l)
    ensures Found(Apply(s, step), l, fuel) == Found(s, l, fuel)
  {
    OthersKeepQueues(s, step, l);
    StepKeepsInv(s, step);
    OthersKeepHistory(s, step, l);
    assert ListOk(s, l) && ListOk(Apply(s, step), l);
    WalkIsQueue(s, l, fuel);
    WalkIsQueue(Apply(s, step), l, fuel);
  }

  lemma OthersKeepHistory(s: State, step: Step, l: ListId)
    requires Enabled(s, step) && l in s.lists && step != EnqPublish(l)
    ensures l in Apply(s, step).lists && Apply(s, step).lists[l].enqueued == s.lists[l].enqueued
  {
  }

  // ------------------------------------------------------------------
  // When a report of Empty is right

  /** A consumer whose snapshot is still current reports Empty exactly when the queue is empty. */
  lemma CurrentEmptyIsExact(s: State, t: Tid)
    requires Inv(s) && Enabled(s, LoadNext(t)) && HeadIs(s, s.pops[t].l, s.pops[t].ptr, s.pops[t].ver)
    ensures t !in Apply(s, LoadNext(t)).pops <==> Queue(s, s.pops[t].l) == []
  {
    var l := s.pops[t].l;
    assert ListOk(s, l) && LinkOk(s, s.lists[l], s.lists[l].version);
  }

  /** Every node is in exactly one chain position, span or hand, and so is every span;
      a winner never finds a null span and never a node without one. */
  lemma EverythingInOnePlace(run: seq<State>, steps: seq<Step>, i: nat)
    requires IsGuardedRun(run, steps) && i < |run|
    ensures forall n :: n in run[i].allNodes ==>
      exists p :: NodeAt(run[i], p, n) && forall r :: NodeAt(run[i], r, n) ==> r == p
    ensures forall x :: x in run[i].allSpans ==>
      exists p :: SpanAt(run[i], p, x) && forall r :: SpanAt(run[i], r, x) ==> r == p
    ensures forall t :: t in run[i].pops && run[i].pops[t].Won? ==> Enabled(run[i], ReadSpan(t))
  {
    RunKeepsInv(run, steps, i);
    var s := run[i];
    forall n | n in s.allNodes ensures exists p :: NodeAt(s, p, n) && forall r :: NodeAt(s, r, n) ==> r == p {
      var p :| NodeAt(s, p, n);
      assert forall r :: NodeAt(s, r, n) ==> r == p;
    }
    forall x | x in s.allSpans ensures exists p :: SpanAt(s, p, x) && forall r :: SpanAt(s, r, x) ==> r == p {
      var p :| SpanAt(s, p, x);
      assert forall r :: SpanAt(s, r, x) ==> r == p;
    }
    forall t | t in s.pops && s.pops[t].Won? ensures Enabled(s, ReadSpan(t)) { assert PopOk(s, t); }
  }

  // ------------------------------------------------------------------
  // The guard is exactly what is needed

  /** The span a winner is due to read is not one that is entering a list. */
  lemma DueIsNotEntering(s: State, l: ListId, t: Tid)
    requires SpansPlaced(s) && l in s.enqs && t in s.pops && s.pops[t].Won? && PopOk(s, t)
    ensures s.lists[s.pops[t].l].enqueued[s.pops[t].pos - 1] != s.enqs[l].span
  {
    var x := s.lists[s.pops[t].l].enqueued[s.pops[t].pos - 1];
    assert SpanAt(s, Leaving(t), x) && SpanAt(s, Entering(l), s.enqs[l].span);
  }

  lemma OverwriteBreaksPop(s: State, l: ListId, t: Tid)
    requires SpansPlaced(s) && Enabled(s, EnqStore(l))
    requires t in s.pops && s.pops[t].Won? && s.pops[t].incoming == s.enqs[l].node && PopOk(s, t)
    ensures !PopOk(Apply(s, EnqStore(l)), t)
  {
    DueIsNotEntering(s, l, t);
  }

  /** Storing a span into the node an enqueue reuses keeps the invariant if and only if no
      winner still has to read that node. */
  lemma StoreIsSafeIff(s: State, l: ListId)
    requires Inv(s) && Enabled(s, EnqStore(l))
    ensures Inv(Apply(s, EnqStore(l))) <==> Unread(s, l)
  {
    if Unread(s, l) {
      StoreKeepsInv(s, l);
    } else {
      var t :| t in s.pops && s.pops[t].Won? && s.pops[t].incoming == s.enqs[l].node;
      assert PopOk(s, t);
      OverwriteBreaksPop(s, l, t);
      assert t in Apply(s, EnqStore(l)).pops;
    }
  }

  /** Consumer t is about to return a span that is still entering list l. */
  ghost predicate TwicePlaced(s: State, l: ListId, t: Tid) {
    && l in s.enqs && t in s.pops && s.pops[t].HasSpan?
    && s.pops[t].span == s.enqs[l].span
  }

  /** Otherwise the winner can read the producer's span next: it then returns a span that
      is still entering another list, and the span it popped is in nobody's hands: the only
      place left for it is with that winner, which has the other one. */
  lemma OverwrittenWinnerMisreads(s: State, l: ListId, t: Tid)
    requires Inv(s) && Enabled(s, EnqStore(l))
    requires t in s.pops && s.pops[t].Won? && s.pops[t].incoming == s.enqs[l].node
    ensures var s1 := Apply(s, EnqStore(l));
      && Enabled(s1, ReadSpan(t))
      && var s2 := Apply(s1, ReadSpan(t));
      && TwicePlaced(s2, l, t)
      && 1 <= s.pops[t].pos <= |s.lists[s.pops[t].l].enqueued|
      && var x := s.lists[s.pops[t].l].enqueued[s.pops[t].pos - 1];
      && s2.pops[t].span != x
      && forall p :: SpanAt(s2, p, x) ==> p == Leaving(t)
  {
    assert PopOk(s, t);
    DueIsNotEntering(s, l, t);
    MisreadLoses(s, l, t);
  }

  lemma MisreadLoses(s: State, l: ListId, t: Tid)
    requires NodesPlaced(s) && SpansPlaced(s) && Enabled(s, EnqStore(l))
    requires t in s.pops && s.pops[t].Won? && s.pops[t].incoming == s.enqs[l].node && PopOk(s, t)
    ensures Enabled(Apply(s, EnqStore(l)), ReadSpan(t))
    ensures var s2 := Apply(Apply(s, EnqStore(l)), ReadSpan(t));
      var x := s.lists[s.pops[t].l].enqueued[s.pops[t].pos - 1];
      forall p :: SpanAt(s2, p, x) ==> p == Leaving(t)
  {
    var s1 := Apply(s, EnqStore(l));
    FieldStoreKeepsPlaces(s, l, s1);
    ReadPlaces(s1, t);
    assert SpanAt(Apply(s1, ReadSpan(t)), Leaving(t), s.lists[s.pops[t].l].enqueued[s.pops[t].pos - 1]);
  }

  // A run of two consumers that reaches an unguarded store.  List 0 gets spans 10 and 11;
  // consumer 0 pops span 10 and stalls before reading it; consumer 1 pops span 11, is handed
  // node 2 (consumer 0's new dummy) as the outgoing one, and starts publishing span 11 with it.

  ghost function Start(): State {
    State({0, 1, 2, 3}, {10, 11},
          map[0 := List(0, 0, 0, [0], [], map[]), 1 := List(1, 0, 1, [1], [], map[])],
          map[], map[], map[10 := Some(2), 11 := Some(3)], map[], map[])
  }

  ghost function OneQueued(): State {
    State({0, 1, 2, 3}, {10, 11},
          map[0 := List(0, 0, 2, [0, 2], [10], map[]), 1 := List(1, 0, 1, [1], [], map[])],
          map[0 := Some(2), 2 := None], map[2 := Some(10)], map[10 := None, 11 := Some(3)], map[], map[])
  }

  ghost function BothQueued(): State {
    State({0, 1, 2, 3}, {10, 11},
          map[0 := List(0, 0, 3, [0, 2, 3], [10, 11], map[]), 1 := List(1, 0, 1, [1], [], map[])],
          map[0 := Some(2), 2 := Some(3), 3 := None], map[2 := Some(10), 3 := Some(11)],
          map[10 := None, 11 := None], map[], map[])
  }

  ghost function FirstStalled(): State {
    BothQueued().(lists := map[0 := List(2, 1, 3, [0, 2, 3], [10, 11], map[]), 1 := List(1, 0, 1, [1], [], map[])],
                  pops := map[0 := Won(0, 0, 2, 1)])
  }

  ghost function SecondWon(): State {
    BothQueued().(lists := map[0 := List(3, 2, 3, [0, 2, 3], [10, 11], map[]), 1 := List(1, 0, 1, [1], [], map[])],
                  pops := map[0 := Won(0, 0, 2, 1), 1 := Won(0, 2, 3, 2)])
  }

  /** The states a step list visits from s, as long as its steps can be taken. */
  ghost predicate Leads(s: State, steps: seq<Step>, s': State)
    decreases |steps|
  {
    if steps == [] then s' == s
    else Enabled(s, steps[0]) && Guarded(s, steps[0]) && Leads(Apply(s, steps[0]), steps[1..], s')
  }

  lemma {:induction false} LeadsThrough(s: State, a: seq<Step>, m: State, b: seq<Step>, s': State)
    requires Leads(s, a, m) && Leads(m, b, s')
    ensures Leads(s, a + b, s')
    decreases |a|
  {
    if a == [] {
      assert a + b == b;
    } else {
      LeadsThrough(Apply(s, a[0]), a[1..], m, b, s');
      assert (a + b)[1..] == a[1..] + b;
    }
  }

  lemma {:induction false} LeadsIsRun(s: State, steps: seq<Step>, s': State) returns (run: seq<State>)
    requires Leads(s, steps, s')
    ensures |run| == |steps| + 1 && run[0] == s && run[|steps|] == s'
    ensures forall i :: 0 <= i < |steps| ==>
      Enabled(run[i], steps[i]) && Guarded(run[i], steps[i]) && run[i + 1] == Apply(run[i], steps[i])
    decreases |steps|
  {
    if steps == [] {
      run := [s];
    } else {
      var rest := LeadsIsRun(Apply(s, steps[0]), steps[1..], s');
      run := [s] + rest;
    }
  }

  lemma FourSteps(s: State, a: Step, b: Step, c: Step, d: Step)
    requires Enabled(s, a) && Guarded(s, a)
    requires var s1 := Apply(s, a); Enabled(s1, b) && Guarded(s1, b)
    requires var s2 := Apply(Apply(s, a), b); Enabled(s2, c) && Guarded(s2, c)
    requires var s3 := Apply(Apply(Apply(s, a), b), c); Enabled(s3, d) && Guarded(s3, d)
    ensures Leads(s, [a, b, c, d], Apply(Apply(Apply(Apply(s, a), b), c), d))
  {
    var s1 := Apply(s, a);
    var s2 := Apply(s1, b);
    var s3 := Apply(s2, c);
    var s4 := Apply(s3, d);
    assert Leads(s4, [], s4);
    assert [d][1..] == [] && Leads(s3, [d], s4);
    assert [c, d][1..] == [d] && Leads(s2, [c, d], s4);
    assert [b, c, d][1..] == [c, d] && Leads(s1, [b, c, d], s4);
    assert [a, b, c, d][1..] == [b, c, d];
  }

  lemma QueueFirst()
    ensures Leads(Start(), [EnqTake(0, 10), EnqStore(0), EnqClear(0), EnqPublish(0)], OneQueued())
  {
    var s, z := Start(), OneQueued();
    FourSteps(s, EnqTake(0, 10), EnqStore(0), EnqClear(0), EnqPublish(0));
    var s' := Apply(Apply(Apply(Apply(s, EnqTake(0, 10)), EnqStore(0)), EnqClear(0)), EnqPublish(0));
    assert s'.lists[0].nodes == [0, 2] && s'.lists[0].enqueued == [10];
    assert s'.lists[0] == z.lists[0];
    assert s'.lists == z.lists;
    assert s'.next == z.next;
    assert s'.enqs == map[];
    assert s' == z;
  }

  lemma QueueSecond()
    ensures Leads(OneQueued(), [EnqTake(0, 11), EnqStore(0), EnqClear(0), EnqPublish(0)], BothQueued())
  {
    var s, z := OneQueued(), BothQueued();
    FourSteps(s, EnqTake(0, 11), EnqStore(0), EnqClear(0), EnqPublish(0));
    var s' := Apply(Apply(Apply(Apply(s, EnqTake(0, 11)), EnqStore(0)), EnqClear(0)), EnqPublish(0));
    assert s'.lists[0].nodes == [0, 2, 3] && s'.lists[0].enqueued == [10, 11];
    assert s'.lists[0] == z.lists[0];
    assert s'.lists == z.lists;
    assert s'.next == z.next;
    assert s'.enqs == map[];
    assert s' == z;
  }

  lemma FirstPops()
    ensures Leads(BothQueued(), [LoadPtr(0, 0), LoadOtherHalf(0), LoadNext(0), Cas2(0)], FirstStalled())
  {
    var s, z := BothQueued(), FirstStalled();
    FourSteps(s, LoadPtr(0, 0), LoadOtherHalf(0), LoadNext(0), Cas2(0));
    var s' := Apply(Apply(Apply(Apply(s, LoadPtr(0, 0)), LoadOtherHalf(0)), LoadNext(0)), Cas2(0));
    assert s'.lists[0] == z.lists[0];
    assert s'.lists == z.lists;
    assert s'.pops == z.pops;
    assert s' == z;
  }

  lemma SecondWins()
    ensures Leads(FirstStalled(), [LoadVersion(1, 0), LoadOtherHalf(1), LoadNext(1), Cas2(1)], SecondWon())
  {
    var s, z := FirstStalled(), SecondWon();
    FourSteps(s, LoadVersion(1, 0), LoadOtherHalf(1), LoadNext(1), Cas2(1));
    var s' := Apply(Apply(Apply(Apply(s, LoadVersion(1, 0)), LoadOtherHalf(1)), LoadNext(1)), Cas2(1));
    assert s'.lists[0] == z.lists[0];
    assert s'.lists == z.lists;
    assert s'.pops == z.pops;
    assert s' == z;
  }

  lemma SecondRepublishes() returns (s': State)
    ensures Leads(SecondWon(), [ReadSpan(1), HandOff(1), EnqTake(1, 11)], s')
    ensures Enabled(s', EnqStore(1)) && !Unread(s', 1)
    ensures 0 in s'.pops && s'.pops[0].Won? && s'.pops[0].incoming == s'.enqs[1].node
  {
    var s := SecondWon();
    var s1 := Apply(s, ReadSpan(1));
    var s2 := Apply(s1, HandOff(1));
    s' := Apply(s2, EnqTake(1, 11));
    assert Leads(s', [], s');
    assert [EnqTake(1, 11)][1..] == [] && Leads(s2, [EnqTake(1, 11)], s');
    assert [HandOff(1), EnqTake(1, 11)][1..] == [EnqTake(1, 11)] && Leads(s1, [HandOff(1), EnqTake(1, 11)], s');
    assert [ReadSpan(1), HandOff(1), EnqTake(1, 11)][1..] == [HandOff(1), EnqTake(1, 11)];
    assert s'.pops[0] == Won(0, 0, 2, 1) && s'.enqs[1] == Took(11, 2);
  }

  /** The guard can fail: the code alone does not enforce it.  A run of the code, all of it guarded
      but its last store, after which the invariant is gone and one more load gives a consumer a
      span that is still entering a list. */
  lemma UnguardedStoreIsReachable() returns (run: seq<State>, steps: seq<Step>)
    ensures IsGuardedRun(run, steps)
    ensures Enabled(run[|steps|], EnqStore(1))
    ensures var s1 := Apply(run[|steps|], EnqStore(1));
      !Inv(s1) && Enabled(s1, ReadSpan(0)) && TwicePlaced(Apply(s1, ReadSpan(0)), 1, 0)
  {
    var s' := SecondRepublishes();
    QueueFirst(); QueueSecond(); FirstPops(); SecondWins();
    var a := [EnqTake(0, 10), EnqStore(0), EnqClear(0), EnqPublish(0)];
    var b := [EnqTake(0, 11), EnqStore(0), EnqClear(0), EnqPublish(0)];
    var c := [LoadPtr(0, 0), LoadOtherHalf(0), LoadNext(0), Cas2(0)];
    var d := [LoadVersion(1, 0), LoadOtherHalf(1), LoadNext(1), Cas2(1)];
    var e := [ReadSpan(1), HandOff(1), EnqTake(1, 11)];
    LeadsThrough(Start(), a, OneQueued(), b, BothQueued());
    LeadsThrough(Start(), a + b, BothQueued(), c, FirstStalled());
    LeadsThrough(Start(), a + b + c, FirstStalled(), d, SecondWon());
    LeadsThrough(Start(), a + b + c + d, SecondWon(), e, s');
    steps := a + b + c + d + e;
    run := LeadsIsRun(Start(), steps, s');
    StartIsInitial();
    RunKeepsInv(run, steps, |steps|);
    StoreIsSafeIff(s', 1);
    OverwrittenWinnerMisreads(s', 1, 0);
  }

  // A run in which a report of Empty is wrong.  Consumer 2 loads the head of list 0, which holds
  // spans 10 and 11, and stalls; consumer 0 pops span 10 and publishes it to list 1 with the old
  // dummy, clearing its link; consumer 2 then reads that link.

  ghost function TwoSnapshots(): State {
    BothQueued().(pops := map[2 := HasHead(0, 0, 0), 0 := HasHead(0, 0, 0)])
  }

  ghost function FirstAhead(): State {
    BothQueued().(lists := map[0 := List(2, 1, 3, [0, 2, 3], [10, 11], map[]), 1 := List(1, 0, 1, [1], [], map[])],
                  pops := map[2 := HasHead(0, 0, 0), 0 := Won(0, 0, 2, 1)])
  }

  ghost function FirstGone(): State {
    BothQueued().(lists := map[0 := List(2, 1, 3, [0, 2, 3], [10, 11], map[1 := 10]),
                               1 := List(1, 0, 1, [1], [], map[])],
                  nodeOf := map[10 := Some(0), 11 := None],
                  pops := map[2 := HasHead(0, 0, 0)])
  }

  lemma BothLoad()
    ensures Leads(BothQueued(), [LoadPtr(2, 0), LoadOtherHalf(2), LoadPtr(0, 0), LoadOtherHalf(0)], TwoSnapshots())
  {
    var s, z := BothQueued(), TwoSnapshots();
    FourSteps(s, LoadPtr(2, 0), LoadOtherHalf(2), LoadPtr(0, 0), LoadOtherHalf(0));
    var s' := Apply(Apply(Apply(Apply(s, LoadPtr(2, 0)), LoadOtherHalf(2)), LoadPtr(0, 0)), LoadOtherHalf(0));
    assert s'.pops == z.pops;
    assert s' == z;
  }

  lemma FirstWins()
    ensures Leads(TwoSnapshots(), [LoadNext(0), Cas2(0)], FirstAhead())
  {
    var s, z := TwoSnapshots(), FirstAhead();
    var s1 := Apply(s, LoadNext(0));
    var s2 := Apply(s1, Cas2(0));
    assert s2.lists[0] == z.lists[0];
    assert s2.lists == z.lists;
    assert s2.pops == z.pops;
    assert s2 == z;
    TwoSteps(s, LoadNext(0), Cas2(0));
  }

  lemma FirstLeaves()
    ensures Leads(FirstAhead(), [ReadSpan(0), HandOff(0)], FirstGone())
  {
    var s, z := FirstAhead(), FirstGone();
    var s1 := Apply(s, ReadSpan(0));
    var s2 := Apply(s1, HandOff(0));
    assert s2.lists[0] == z.lists[0];
    assert s2.lists == z.lists;
    assert s2.nodeOf == z.nodeOf;
    assert s2.pops == z.pops;
    assert s2 == z;
    TwoSteps(s, ReadSpan(0), HandOff(0));
  }

  lemma TwoSteps(s: State, a: Step, b: Step)
    requires Enabled(s, a) && Guarded(s, a) && Enabled(Apply(s, a), b) && Guarded(Apply(s, a), b)
    ensures Leads(s, [a, b], Apply(Apply(s, a), b))
  {
    var s1 := Apply(s, a);
    var s2 := Apply(s1, b);
    assert Leads(s2, [], s2);
    assert [b][1..] == [] && Leads(s1, [b], s2);
    assert [a, b][1..] == [b];
  }

  lemma DummyRecycled() returns (s': State)
    ensures Leads(FirstGone(), [EnqTake(1, 10), EnqStore(1), EnqClear(1)], s')
    ensures Enabled(s', LoadNext(2)) && s'.pops[2].l == 0 && NextOf(s', s'.pops[2].ptr) == None && Queue(s', 0) == [11]
  {
    var s := FirstGone();
    var s1 := Apply(s, EnqTake(1, 10));
    var s2 := Apply(s1, EnqStore(1));
    s' := Apply(s2, EnqClear(1));
    assert Leads(s', [], s');
    assert [EnqClear(1)][1..] == [] && Leads(s2, [EnqClear(1)], s');
    assert [EnqStore(1), EnqClear(1)][1..] == [EnqClear(1)] && Leads(s1, [EnqStore(1), EnqClear(1)], s');
    assert [EnqTake(1, 10), EnqStore(1), EnqClear(1)][1..] == [EnqStore(1), EnqClear(1)];
  }

  /** A report of Empty can be wrong: the code alone does not make it mean that the list is empty. */
  lemma WrongEmptyIsReachable() returns (run: seq<State>, steps: seq<Step>)
    ensures IsGuardedRun(run, steps)
    ensures var s := run[|steps|];
      Enabled(s, LoadNext(2)) && s.pops[2].l == 0 && Queue(s, 0) == [11] && 2 !in Apply(s, LoadNext(2)).pops
  {
    var s' := DummyRecycled();
    QueueFirst(); QueueSecond(); BothLoad(); FirstWins(); FirstLeaves();
    var a := [EnqTake(0, 10), EnqStore(0), EnqClear(0), EnqPublish(0)];
    var b := [EnqTake(0, 11), EnqStore(0), EnqClear(0), EnqPublish(0)];
    var c := [LoadPtr(2, 0), LoadOtherHalf(2), LoadPtr(0, 0), LoadOtherHalf(0)];
    var d := [LoadNext(0), Cas2(0)] + [ReadSpan(0), HandOff(0)];
    LeadsThrough(TwoSnapshots(), [LoadNext(0), Cas2(0)], FirstAhead(), [ReadSpan(0), HandOff(0)], FirstGone());
    var e := [EnqTake(1, 10), EnqStore(1), EnqClear(1)];
    LeadsThrough(Start(), a, OneQueued(), b, BothQueued());
    LeadsThrough(Start(), a + b, BothQueued(), c, TwoSnapshots());
    LeadsThrough(Start(), a + b + c, TwoSnapshots(), d, FirstGone());
    LeadsThrough(Start(), a + b + c + d, FirstGone(), e, s');
    steps := a + b + c + d + e;
    run := LeadsIsRun(Start(), steps, s');
    StartIsInitial();
  }

  lemma StartIsInitial()
    ensures Init(Start())
  {
    var s := Start();
    assert s.lists[0].head == 0 && s.lists[1].head == 1;
    assert NodeOf(s, 10) == Some(2) && NodeOf(s, 11) == Some(3);
    assert forall x :: NodeOf(s, x).Some? ==> x == 10 || x == 11;
  }

  // ------------------------------------------------------------------
  // What the two operations achieve

  /** The state after a pop of list l by itself. */
  ghost function AfterPop(s: State, l: ListId): State
    requires l in s.lists && |s.lists[l].nodes| == |s.lists[l].enqueued| + 1
    requires s.lists[l].version < |s.lists[l].enqueued|
  {
    var q := s.lists[l];
    var x := q.enqueued[q.version];
    s.(lists := s.lists[l := q.(head := q.nodes[q.version + 1], version := q.version + 1,
                                taken := q.taken[q.version + 1 := x])],
       nodeOf := s.nodeOf[x := Some(q.head)])
  }

  /** The loads of a pop, alone: a current snapshot and, if the list is not empty, its second node. */
  lemma LoadsAlone(s: State, t: Tid, l: ListId)
    requires t !in s.pops && ListOk(s, l)
    ensures var q := s.lists[l];
      && (Queue(s, l) == [] ==> Leads(s, [LoadPtr(t, l), LoadOtherHalf(t)] + [LoadNext(t)], s))
      && (Queue(s, l) != [] ==>
            Leads(s, [LoadPtr(t, l), LoadOtherHalf(t)] + [LoadNext(t)],
                  s.(pops := s.pops[t := HasNext(l, q.head, q.version, q.nodes[q.version + 1])])))
  {
    var q := s.lists[l];
    var b := s.(pops := s.pops[t := HasHead(l, q.head, q.version)]);
    SnapshotAlone(s, t, l);
    assert LinkOk(s, q, q.version) && NextOf(b, q.head) == NextOf(s, q.head);
    var c := Apply(b, LoadNext(t));
    OneStep(b, LoadNext(t));
    LeadsThrough(s, [LoadPtr(t, l), LoadOtherHalf(t)], b, [LoadNext(t)], c);
    if Queue(s, l) == [] {
      assert b.pops - {t} == s.pops;
    } else {
      assert c.pops == s.pops[t := HasNext(l, q.head, q.version, q.nodes[q.version + 1])];
    }
  }

  lemma SnapshotAlone(s: State, t: Tid, l: ListId)
    requires t !in s.pops && l in s.lists
    ensures Leads(s, [LoadPtr(t, l), LoadOtherHalf(t)],
                  s.(pops := s.pops[t := HasHead(l, s.lists[l].head, s.lists[l].version)]))
  {
    var q := s.lists[l];
    var a := s.(pops := s.pops[t := HasPtr(l, q.head)]);
    var b := s.(pops := s.pops[t := HasHead(l, q.head, q.version)]);
    assert a.pops[t := HasHead(l, q.head, q.version)] == b.pops;
    assert Apply(s, LoadPtr(t, l)) == a && Apply(a, LoadOtherHalf(t)) == b;
    TwoSteps(s, LoadPtr(t, l), LoadOtherHalf(t));
  }

  lemma OneStep(s: State, a: Step)
    requires Enabled(s, a) && Guarded(s, a)
    ensures Leads(s, [a], Apply(s, a))
  {
    assert [a][1..] == [] && Leads(Apply(s, a), [], Apply(s, a));
  }

  /** A pop, alone, takes the front span if there is one, gives it the old dummy and leaves; if the
      list is empty it says so and nothing has changed. */
  lemma PopAlone(s: State, t: Tid, l: ListId) returns (steps: seq<Step>)
    requires Inv(s) && t !in s.pops && l in s.lists
    ensures Queue(s, l) == [] ==> |steps| == 3 && Leads(s, steps, s)
    ensures Queue(s, l) != [] ==>
      && |steps| == 6 && s.lists[l].version < |s.lists[l].enqueued| && |s.lists[l].nodes| == |s.lists[l].enqueued| + 1
      && Leads(s, steps, AfterPop(s, l)) && Queue(AfterPop(s, l), l) == Queue(s, l)[1..]
      && NodeOf(AfterPop(s, l), Queue(s, l)[0]) == Some(s.lists[l].head)
  {
    assert ListOk(s, l);
    LoadsAlone(s, t, l);
    steps := [LoadPtr(t, l), LoadOtherHalf(t)] + [LoadNext(t)];
    if Queue(s, l) != [] {
      var q := s.lists[l];
      assert CarryOk(s, q, q.version + 1);
      var c := s.(pops := s.pops[t := HasNext(l, q.head, q.version, q.nodes[q.version + 1])]);
      WinAlone(s, t, l);
      LeadsThrough(s, steps, c, [Cas2(t)] + [ReadSpan(t), HandOff(t)], AfterPop(s, l));
      steps := steps + ([Cas2(t)] + [ReadSpan(t), HandOff(t)]);
    }
  }

  lemma WinAlone(s: State, t: Tid, l: ListId)
    requires t !in s.pops && l in s.lists && |s.lists[l].nodes| == |s.lists[l].enqueued| + 1
    requires var q := s.lists[l]; q.version < |q.enqueued| && CarryOk(s, q, q.version + 1)
    ensures var q := s.lists[l];
      Leads(s.(pops := s.pops[t := HasNext(l, q.head, q.version, q.nodes[q.version + 1])]),
            [Cas2(t)] + [ReadSpan(t), HandOff(t)], AfterPop(s, l))
  {
    var q := s.lists[l];
    var nxt, x := q.nodes[q.version + 1], q.enqueued[q.version];
    var c := s.(pops := s.pops[t := HasNext(l, q.head, q.version, nxt)]);
    var d := s.(lists := s.lists[l := q.(head := nxt, version := q.version + 1)],
                pops := s.pops[t := Won(l, q.head, nxt, q.version + 1)]);
    assert c.pops[t := Won(l, q.head, nxt, q.version + 1)] == d.pops;
    assert Apply(c, Cas2(t)) == d;
    OneStep(c, Cas2(t));
    ReadAlone(s, d, t, l);
    LeadsThrough(c, [Cas2(t)], d, [ReadSpan(t), HandOff(t)], AfterPop(s, l));
  }

  lemma ReadAlone(s: State, d: State, t: Tid, l: ListId)
    requires t !in s.pops && l in s.lists && |s.lists[l].nodes| == |s.lists[l].enqueued| + 1
    requires var q := s.lists[l];
      && q.version < |q.enqueued| && CarryOk(s, q, q.version + 1)
      && d == s.(lists := s.lists[l := q.(head := q.nodes[q.version + 1], version := q.version + 1)],
                 pops := s.pops[t := Won(l, q.head, q.nodes[q.version + 1], q.version + 1)])
    ensures Leads(d, [ReadSpan(t), HandOff(t)], AfterPop(s, l))
  {
    var q, z := s.lists[l], AfterPop(s, l);
    var e := Apply(d, ReadSpan(t));
    assert e.pops - {t} == s.pops;
    var f := Apply(e, HandOff(t));
    assert f.lists == z.lists;
    assert f == z;
    TwoSteps(d, ReadSpan(t), HandOff(t));
  }

  /** An enqueue, alone, appends the span; it needs the guard for the store into its node. */
  lemma EnqueueAlone(s: State, l: ListId, x: Span)
    requires ListOk(s, l) && Enabled(s, EnqTake(l, x))
    requires forall t :: t in s.pops && s.pops[t].Won? ==> Some(s.pops[t].incoming) != NodeOf(s, x)
    ensures var z := Enqueued(s, l, x, NodeOf(s, x).value);
      && Leads(s, [EnqTake(l, x), EnqStore(l)] + [EnqClear(l), EnqPublish(l)], z)
      && Queue(z, l) == Queue(s, l) + [x] && NodeOf(z, x) == None
  {
    var n := NodeOf(s, x).value;
    var b := s.(nodeOf := s.nodeOf[x := None], spanOf := s.spanOf[n := Some(x)], enqs := s.enqs[l := Stored(x, n)]);
    StoreAlone(s, l, x, b);
    LinkAlone(s, b, l, x, n);
    LeadsThrough(s, [EnqTake(l, x), EnqStore(l)], b, [EnqClear(l), EnqPublish(l)], Enqueued(s, l, x, n));
  }

  /** The state after span x with node n has been published to list l. */
  ghost function Enqueued(s: State, l: ListId, x: Span, n: Node): State
    requires l in s.lists
  {
    var q := s.lists[l];
    s.(nodeOf := s.nodeOf[x := None], spanOf := s.spanOf[n := Some(x)], next := s.next[n := None][q.tail := Some(n)],
       lists := s.lists[l := q.(tail := n, nodes := q.nodes + [n], enqueued := q.enqueued + [x])], enqs := s.enqs - {l})
  }

  lemma StoreAlone(s: State, l: ListId, x: Span, b: State)
    requires Enabled(s, EnqTake(l, x))
    requires forall t :: t in s.pops && s.pops[t].Won? ==> Some(s.pops[t].incoming) != NodeOf(s, x)
    requires var n := NodeOf(s, x).value;
      b == s.(nodeOf := s.nodeOf[x := None], spanOf := s.spanOf[n := Some(x)], enqs := s.enqs[l := Stored(x, n)])
    ensures Leads(s, [EnqTake(l, x), EnqStore(l)], b)
  {
    var n := NodeOf(s, x).value;
    var a := s.(nodeOf := s.nodeOf[x := None], enqs := s.enqs[l := Took(x, n)]);
    assert a.enqs[l := Stored(x, n)] == b.enqs;
    assert Apply(s, EnqTake(l, x)) == a && Apply(a, EnqStore(l)) == b;
    TwoSteps(s, EnqTake(l, x), EnqStore(l));
  }

  lemma LinkAlone(s: State, b: State, l: ListId, x: Span, n: Node)
    requires l in s.lists
    requires b == s.(nodeOf := s.nodeOf[x := None], spanOf := s.spanOf[n := Some(x)], enqs := s.enqs[l := Stored(x, n)])
    ensures Leads(b, [EnqClear(l), EnqPublish(l)], Enqueued(s, l, x, n))
  {
    var c := b.(next := s.next[n := None], enqs := s.enqs[l := Cleared(x, n)]);
    assert b.enqs[l := Cleared(x, n)] == c.enqs && c.enqs - {l} == s.enqs - {l};
    assert Apply(b, EnqClear(l)) == c && Apply(c, EnqPublish(l)) == Enqueued(s, l, x, n);
    TwoSteps(b, EnqClear(l), EnqPublish(l));
  }
}
