/**
 The life of one small span: block accounting, remote frees and ownership
 (src/allocator.rs, src/remote_mpsc.rs, src/span.rs).

 Any number of threads allocate from, free to, discard, claim, publish and acquire the
 span; one step is one atomic action, under sequential consistency (the discard
 handshake stores `owner` and then re-reads the count, and needs the two in order).
 Blocks of a chain are linked by their own memory: a remote free swaps its block in as
 the new head first and links it to the old head later, so a chain may contain
 UNLINKED gaps left by stalled producers.  The local free-list is a sequence.
 */
module SpanLife {
  import opened Wrappers
  import opened Chain

  type Tid = nat

  /** The owner word: OWNER_NONE, OWNER_PUBLIC or a thread. */
  datatype Owner = Nobody | Public | Of(t: Tid)

  /** Which list the span is in: a history variable. */
  datatype Where = InLocalList(t: Tid) | InHands(t: Tid) | InPublic | Nowhere

  /** Control points.  `got` is the refill's count of absorbed blocks, `cur` and `i` the
      cursor and iteration count of `append_remote_to_local_bounded`. */
  datatype Pc =
    // dealloc_with_token: load the owner
    | FreeLoad(b: Block)
    // dealloc_remote: SWAP, link store, FAA, claim CAS, push_front
    | FreeSwap(b: Block) | FreeLink(b: Block, prev: Option<Block>) | FreeAdd | FreeClaim | Claimed
    // dealloc_local: push, load g and test, store owner, enqueue
    | LocalPush(b: Block) | LocalTest | MakePublic | EnqueuePublic
    // alloc: pop, refill (a), refill (b), subtract, pop again
    | AllocPop
    | TakeStash | AbsorbStash(cur: Option<Block>, i: nat, got: nat) | PutStash(cur: Option<Block>, got: nat)
    | TakeLive(got: nat) | AbsorbLive(cur: Option<Block>, i: nat, got: nat) | PutLive(cur: Option<Block>, got: nat)
    | Subtract(got: nat) | PopAgain
    // rotate: pop_front and look at the stash, then try_discard, then push_back
    | RotateOut | DiscardLoad | DiscardStore | DiscardRecheck | DiscardRetake | PushBack
    // acquired from a public list: store owner, push_front, first pop
    | AcquireOwn | AcquireList | AcquirePop

  /** `head`, `pending`, `g`, `owner` and `link` are the span's words.  `live`, `stash` and
      `rest` are histories: the remote chain, the pending chain and the chain being absorbed, as
      sequences; `absorbed` counts blocks absorbed but not yet subtracted from g.  A thread
      outside `pcs` does nothing with this span. */
  datatype State = State(
    blocks: set<Block>,
    owner: Owner,
    place: Where,
    inUse: set<Block>,
    local: seq<Block>,
    head: Option<Block>,
    pending: Option<Block>,
    link: map<Block, Link>,
    g: int,
    live: seq<Block>,
    stash: seq<Block>,
    rest: seq<Block>,
    absorbed: nat,
    pcs: map<Tid, Pc>)

  datatype Step =
    | StartFree(t: Tid, b: Block)
    | StartAlloc(t: Tid)
    | StartAcquire(t: Tid)
    | Act(t: Tid, surplus: bool)

  ghost function LinkOf(s: State, b: Block): Link { if b in s.link then s.link[b] else To(None) }

  ghost function M(s: State): nat { |s.blocks| }

  /** The block a thread is about to free. */
  ghost predicate Freeing(s: State, t: Tid, b: Block) {
    t in s.pcs && (s.pcs[t] == FreeLoad(b) || s.pcs[t] == FreeSwap(b) || s.pcs[t] == LocalPush(b))
  }

  ghost predicate Enabled(s: State, step: Step) {
    match step
    case StartFree(t, b) => t !in s.pcs && b in s.inUse && forall u :: !Freeing(s, u, b)
    case StartAlloc(t) => t !in s.pcs && s.place == InLocalList(t)
    case StartAcquire(t) => t !in s.pcs && s.place == InPublic
    case Act(t, _) => t in s.pcs && (s.pcs[t].PopAgain? ==> s.local != [])
  }

  ghost function At(s: State, t: Tid, pc: Pc): State { s.(pcs := s.pcs[t := pc]) }

  ghost function Done(s: State, t: Tid): State { s.(pcs := s.pcs - {t}) }

  /** Push a block on the local free-list: its link word is overwritten. */
  ghost function PushLocal(s: State, b: Block): State {
    s.(local := [b] + s.local, link := s.link[b := To(First(s.local))])
  }

  ghost function PopLocal(s: State): State
    requires s.local != []
  {
    s.(inUse := s.inUse + {s.local[0]}, local := s.local[1..])
  }

  /** One iteration of the absorb loop: stop at null, at UNLINKED or at the block-count
      limit, else push the block and follow its link. */
  ghost function Absorb(s: State, t: Tid): State
    requires t in s.pcs && (s.pcs[t].AbsorbStash? || s.pcs[t].AbsorbLive?)
  {
    var pc := s.pcs[t];
    if pc.i == M(s) || pc.cur.None? || LinkOf(s, pc.cur.value).Unlinked? then
      At(s, t, if pc.AbsorbStash? then PutStash(pc.cur, pc.got) else PutLive(pc.cur, pc.got))
    else
      var nx := LinkOf(s, pc.cur.value).next;
      var rest := if s.rest == [] then [] else s.rest[1..];
      var s' := PushLocal(s, pc.cur.value).(rest := rest, absorbed := s.absorbed + 1);
      At(s', t, if pc.AbsorbStash? then AbsorbStash(nx, pc.i + 1, pc.got + 1) else AbsorbLive(nx, pc.i + 1, pc.got + 1))
  }

  ghost function Refilled(s: State, t: Tid, got: nat): State {
    At(s, t, if got > 0 then Subtract(got) else RotateOut)
  }

  /** The next atomic action of a thread; `surplus` says whether its local list is longer
      than K when it finds the span full. */
  ghost function ApplyAct(s: State, t: Tid, surplus: bool): State
    requires Enabled(s, Act(t, surplus))
  {
    var me := Of(t);
    match s.pcs[t]
    case FreeLoad(b) => At(s, t, if s.owner == me then LocalPush(b) else FreeSwap(b))
    case FreeSwap(b) =>
      At(s.(inUse := s.inUse - {b}, link := s.link[b := Unlinked], head := Some(b), live := [b] + s.live), t,
        FreeLink(b, s.head))
    case FreeLink(b, prev) => At(s.(link := s.link[b := To(prev)]), t, FreeAdd)
    case FreeAdd => (var s' := s.(g := s.g + 1); if s.g == 0 then At(s', t, FreeClaim) else Done(s', t))
    case FreeClaim => if s.owner == Nobody then At(s.(owner := me, place := InHands(t)), t, Claimed) else Done(s, t)
    case Claimed => Done(s.(place := InLocalList(t)), t)
    case LocalPush(b) => At(PushLocal(s, b).(inUse := s.inUse - {b}), t, LocalTest)
    case LocalTest =>
      if |s.local| + s.g == M(s) && surplus then At(s.(place := InHands(t)), t, MakePublic) else Done(s, t)
    case MakePublic => At(s.(owner := Public), t, EnqueuePublic)
    case EnqueuePublic => Done(s.(place := InPublic), t)
    case AllocPop => if s.local != [] then Done(PopLocal(s), t) else At(s, t, TakeStash)
    case TakeStash =>
      var s' := s.(pending := None, rest := s.stash, stash := []);
      if s.pending.None? then At(s, t, TakeLive(0)) else At(s', t, AbsorbStash(s.pending, 0, 0))
    case AbsorbStash(_, _, _) => Absorb(s, t)
    case PutStash(cur, got) =>
      var s' := s.(pending := cur, stash := s.rest, rest := []);
      if cur.Some? then Refilled(s', t, got) else At(s', t, TakeLive(got))
    case TakeLive(got) =>
      var s' := s.(head := None, rest := s.live, live := []);
      if s.head.None? then Refilled(s, t, got) else At(s', t, AbsorbLive(s.head, 0, got))
    case AbsorbLive(_, _, _) => Absorb(s, t)
    case PutLive(cur, got) => Refilled(s.(pending := cur, stash := s.rest, rest := []), t, got)
    case Subtract(got) => At(s.(g := s.g - got, absorbed := 0), t, PopAgain)
    case PopAgain => Done(PopLocal(s), t)
    case RotateOut => At(s.(place := InHands(t)), t, if s.pending.None? then DiscardLoad else PushBack)
    case DiscardLoad => At(s, t, if s.g != 0 then PushBack else DiscardStore)
    case DiscardStore => At(s.(owner := Nobody, place := Nowhere), t, DiscardRecheck)
    case DiscardRecheck => if s.g == 0 then Done(s, t) else At(s, t, DiscardRetake)
    case DiscardRetake =>
      if s.owner == Nobody then At(s.(owner := me, place := InHands(t)), t, PushBack) else Done(s, t)
    case PushBack => Done(s.(place := InLocalList(t)), t)
    case AcquireOwn => At(s.(owner := me), t, AcquireList)
    case AcquireList => At(s.(place := InLocalList(t)), t, AcquirePop)
    case AcquirePop => if s.local != [] then Done(PopLocal(s), t) else At(s, t, TakeStash)
  }

  ghost function Apply(s: State, step: Step): State
    requires Enabled(s, step)
  {
    match step
    case StartFree(t, b) => At(s, t, FreeLoad(b))
    case StartAlloc(t) => At(s, t, AllocPop)
    case StartAcquire(t) => At(s.(place := InHands(t)), t, AcquireOwn)
    case Act(t, surplus) => ApplyAct(s, t, surplus)
  }

  /** A span fresh from `init_span`: every block free and local, in its creator's list. */
  ghost predicate Init(s: State) {
    && s.owner.Of? && s.place == InLocalList(s.owner.t)
    && s.inUse == {} && s.head == None && s.pending == None && s.g == 0
    && s.live == [] && s.stash == [] && s.rest == [] && s.absorbed == 0 && s.pcs == map[]
    && multiset(s.local) == multiset(s.blocks)
  }

  // ------------------------------------------------------------------
  // The invariant

  /** Each block is in exactly one of allocated, local, live, pending and being absorbed. */
  ghost predicate Partition(s: State) {
    multiset(s.inUse) + multiset(s.local) + multiset(s.live) + multiset(s.stash) + multiset(s.rest)
      == multiset(s.blocks)
  }

  /** Producers that have swapped their block in but not yet counted it. */
  ghost function Uncounted(s: State): set<Tid> {
    set t | t in s.pcs && (s.pcs[t].FreeLink? || s.pcs[t].FreeAdd?)
  }

  ghost predicate Accounting(s: State) {
    s.g == |s.live| + |s.stash| + |s.rest| + s.absorbed - |Uncounted(s)|
  }

  /** A link is resolved to the block swapped in before, or its producer is about to. */
  ghost predicate LinkOk(s: State, c: seq<Block>, i: nat) {
    && i < |c|
    && (|| LinkOf(s, c[i]) == To(First(c[i + 1..]))
        || (LinkOf(s, c[i]) == Unlinked && exists t :: t in s.pcs && s.pcs[t] == FreeLink(c[i], First(c[i + 1..]))))
  }

  ghost predicate ChainOk(s: State, c: seq<Block>) {
    forall i :: 0 <= i < |c| ==> LinkOk(s, c, i)
  }

  ghost predicate Chains(s: State) {
    && s.head == First(s.live) && ChainOk(s, s.live)
    && s.pending == First(s.stash) && ChainOk(s, s.stash)
    && ChainOk(s, s.rest)
  }

  /** Threads work on different blocks; a block about to be freed is allocated, one about to
      be linked is UNLINKED and in a chain. */
  ghost predicate Producers(s: State) {
    && (forall t, b :: Freeing(s, t, b) ==> b in s.inUse)
    && (forall t, u, b :: Freeing(s, t, b) && Freeing(s, u, b) ==> t == u)
    && (forall t :: t in s.pcs && s.pcs[t].FreeLink? ==> LinkOf(s, s.pcs[t].b) == Unlinked && Chained(s, s.pcs[t].b))
    && (forall t, u | t in s.pcs && u in s.pcs ::
          s.pcs[t].FreeLink? && s.pcs[u].FreeLink? && s.pcs[t].b == s.pcs[u].b ==> t == u)
  }

  ghost predicate Chained(s: State, b: Block) {
    b in s.live || b in s.stash || b in s.rest
  }

  /** Control points at which the span is in the thread's own local list. */
  ghost predicate Listed(pc: Pc) {
    || pc.LocalPush? || pc.LocalTest? || pc.AllocPop? || pc.TakeStash? || pc.AbsorbStash? || pc.PutStash?
    || pc.TakeLive? || pc.AbsorbLive? || pc.PutLive? || pc.Subtract? || pc.PopAgain? || pc.RotateOut? || pc.AcquirePop?
  }

  /** Control points at which the span is in the thread's hands. */
  ghost predicate InHand(pc: Pc) {
    || pc.Claimed? || pc.MakePublic? || pc.EnqueuePublic? || pc.DiscardLoad? || pc.DiscardStore? || pc.PushBack?
    || pc.AcquireOwn? || pc.AcquireList?
  }

  /** Thread t is at a control point where the span is its own to work on. */
  ghost predicate ActsAsOwner(s: State, t: Tid) {
    t in s.pcs && (Listed(s.pcs[t]) || InHand(s.pcs[t]))
  }

  ghost predicate Ownership(s: State) {
    && (forall t :: t in s.pcs && Listed(s.pcs[t]) ==> s.place == InLocalList(t))
    && (forall t :: t in s.pcs && InHand(s.pcs[t]) ==>
          s.place == InHands(t)
            && s.owner == (if s.pcs[t].EnqueuePublic? || s.pcs[t].AcquireOwn? then Public else Of(t)))
    && match s.place
       case InLocalList(t) => s.owner == Of(t)
       case InHands(t) => t in s.pcs && InHand(s.pcs[t])
       case InPublic => s.owner == Public
       case Nowhere => s.owner == Nobody
  }

  /** Control points from the successful full test to the acquirer's first pop. */
  ghost predicate FullPc(pc: Pc) {
    pc.MakePublic? || pc.EnqueuePublic? || pc.AcquireOwn? || pc.AcquireList? || pc.AcquirePop?
  }

  /** A span being published, public, or just acquired is full and untouched by frees. */
  ghost predicate FullWhenPublic(s: State) {
    s.owner == Public || (exists t :: t in s.pcs && FullPc(s.pcs[t])) ==>
      s.inUse == {} && Uncounted(s) == {} && s.local != []
  }

  ghost predicate InRefill(pc: Pc) {
    pc.AbsorbStash? || pc.PutStash? || pc.TakeLive? || pc.AbsorbLive? || pc.PutLive? || pc.Subtract?
  }

  /** The owner's private bookkeeping during refill and discard. */
  ghost predicate RefillOk(s: State, pc: Pc) {
    match pc
    case LocalTest => s.local != []
    case TakeStash => s.local == []
    case AbsorbStash(cur, i, got) =>
      cur == First(s.rest) && got == s.absorbed == i == |s.local| && s.stash == [] && (i == 0 ==> s.rest != [])
    case PutStash(cur, got) => cur == First(s.rest) && got == s.absorbed == |s.local| && s.stash == []
    case TakeLive(got) => got == s.absorbed == |s.local| && s.stash == [] && s.rest == []
    case AbsorbLive(cur, i, got) => cur == First(s.rest) && got == s.absorbed == |s.local| && i <= got && s.stash == []
    case PutLive(cur, got) => cur == First(s.rest) && got == s.absorbed == |s.local| && s.stash == []
    case Subtract(got) => got == s.absorbed == |s.local| && got > 0 && s.rest == []
    case PopAgain => s.local != []
    case RotateOut => s.local == []
    case DiscardLoad => s.local == [] && s.stash == []
    case DiscardStore => s.local == [] && s.stash == []
    case _ => true
  }

  ghost predicate Bookkeeping(s: State) {
    && (forall t :: t in s.pcs ==> RefillOk(s, s.pcs[t]))
    && (s.absorbed > 0 || s.rest != [] ==> exists t :: t in s.pcs && InRefill(s.pcs[t]))
    && (s.owner == Nobody ==> s.local == [] && s.stash == [])
  }

  /** An ownerless span with a positive count has somebody about to look at it. */
  ghost predicate NotStranded(s: State) {
    s.owner == Nobody && s.g >= 1 ==>
      exists t :: t in s.pcs && (s.pcs[t].FreeClaim? || s.pcs[t].DiscardRecheck? || s.pcs[t].DiscardRetake?)
  }

  ghost predicate Memory(s: State) {
    Partition(s) && Accounting(s) && Chains(s) && Producers(s)
  }

  ghost predicate Control(s: State) {
    Ownership(s) && FullWhenPublic(s) && Bookkeeping(s) && NotStranded(s)
  }

  ghost predicate Inv(s: State) {
    Memory(s) && Control(s)
  }

  // ------------------------------------------------------------------
  // Consequences used by the step lemmas

  /** The owner's control points exclude everybody else's. */
  lemma SoleOwner(s: State, t: Tid)
    requires Ownership(s) && t in s.pcs && (Listed(s.pcs[t]) || InHand(s.pcs[t]))
    ensures forall u :: u in s.pcs && u != t ==> !Listed(s.pcs[u]) && !InHand(s.pcs[u])
  {
  }

  /** Outside a refill there is nothing half-absorbed. */
  lemma NothingHalfAbsorbed(s: State, t: Tid)
    requires Ownership(s) && Bookkeeping(s) && t in s.pcs
    requires (Listed(s.pcs[t]) || InHand(s.pcs[t])) && !InRefill(s.pcs[t])
    ensures s.rest == [] && s.absorbed == 0
  {
    SoleOwner(s, t);
  }

  /** A block is in one place only. */
  lemma InOnePlace(s: State, b: Block)
    requires Partition(s)
    ensures b in s.blocks <==> b in s.inUse || b in s.local || Chained(s, b)
    ensures b in s.inUse ==> b !in s.local && !Chained(s, b)
    ensures b in s.local ==> !Chained(s, b)
    ensures b in s.live ==> b !in s.stash && b !in s.rest
    ensures b in s.stash ==> b !in s.rest
    ensures multiset(s.local)[b] <= 1 && multiset(s.live)[b] <= 1
    ensures multiset(s.stash)[b] <= 1 && multiset(s.rest)[b] <= 1
  {
    var all := multiset(s.blocks);
    assert all[b] <= 1;
    assert all[b] == multiset(s.inUse)[b] + multiset(s.local)[b] + multiset(s.live)[b] + multiset(s.stash)[b]
      + multiset(s.rest)[b];
    assert b in s.inUse <==> multiset(s.inUse)[b] > 0;
    assert b in s.local <==> multiset(s.local)[b] > 0;
    assert b in s.live <==> multiset(s.live)[b] > 0;
    assert b in s.stash <==> multiset(s.stash)[b] > 0;
    assert b in s.rest <==> multiset(s.rest)[b] > 0;
  }

  lemma Cardinalities(s: State)
    requires Partition(s)
    ensures |s.inUse| + |s.local| + |s.live| + |s.stash| + |s.rest| == M(s)
  {
    assert |multiset(s.inUse)| == |s.inUse| && |multiset(s.blocks)| == |s.blocks|;
    assert |multiset(s.local)| == |s.local| && |multiset(s.live)| == |s.live|;
    assert |multiset(s.stash)| == |s.stash| && |multiset(s.rest)| == |s.rest|;
  }

  // ------------------------------------------------------------------
  // Frames

  /** Only t's control point changed. */
  ghost predicate OnlyPc(s: State, s': State, t: Tid) {
    (t in s'.pcs && s'.pcs == s.pcs[t := s'.pcs[t]]) || s'.pcs == s.pcs - {t}
  }

  lemma OthersPcs(s: State, s': State, t: Tid, u: Tid)
    requires OnlyPc(s, s', t) && u != t
    ensures u in s'.pcs <==> u in s.pcs
    ensures u in s.pcs ==> s'.pcs[u] == s.pcs[u]
  {
  }

  lemma ActMovesOne(s: State, t: Tid, surplus: bool)
    requires Enabled(s, Act(t, surplus))
    ensures OnlyPc(s, ApplyAct(s, t, surplus), t)
  {
    if InRefill(s.pcs[t]) { RefillMovesOne(s, t, surplus); }
    else if InHand(s.pcs[t]) { HandMovesOne(s, t, surplus); }
    else if Listed(s.pcs[t]) { ListedMovesOne(s, t, surplus); }
    else { OutsiderMovesOne(s, t, surplus); }
  }

  lemma RefillMovesOne(s: State, t: Tid, surplus: bool)
    requires Enabled(s, Act(t, surplus)) && InRefill(s.pcs[t])
    ensures OnlyPc(s, ApplyAct(s, t, surplus), t)
  {
  }

  lemma HandMovesOne(s: State, t: Tid, surplus: bool)
    requires Enabled(s, Act(t, surplus)) && InHand(s.pcs[t])
    ensures OnlyPc(s, ApplyAct(s, t, surplus), t)
  {
  }

  lemma ListedMovesOne(s: State, t: Tid, surplus: bool)
    requires Enabled(s, Act(t, surplus)) && Listed(s.pcs[t]) && !InRefill(s.pcs[t])
    ensures OnlyPc(s, ApplyAct(s, t, surplus), t)
  {
  }

  lemma OutsiderMovesOne(s: State, t: Tid, surplus: bool)
    requires Enabled(s, Act(t, surplus)) && !Listed(s.pcs[t]) && !InHand(s.pcs[t])
    ensures OnlyPc(s, ApplyAct(s, t, surplus), t)
  {
  }

  ghost predicate Uncounts(s: State, t: Tid) {
    t in s.pcs && (s.pcs[t].FreeLink? || s.pcs[t].FreeAdd?)
  }

  /** Two sets that agree except perhaps on t. */
  lemma AgreeExcept(c: set<Tid>, c': set<Tid>, t: Tid)
    requires forall u :: u != t ==> (u in c' <==> u in c)
    ensures c' == if t in c' then c + {t} else c - {t}
    ensures |c'| == |c| + (if t in c' then 1 else 0) - (if t in c then 1 else 0)
  {
    assert c' == if t in c' then c + {t} else c - {t};
    assert t in c ==> c == (c - {t}) + {t};
  }

  lemma UncountedChange(s: State, s': State, t: Tid)
    requires OnlyPc(s, s', t)
    ensures Uncounted(s') == if Uncounts(s', t) then Uncounted(s) + {t} else Uncounted(s) - {t}
    ensures |Uncounted(s')| == |Uncounted(s)| + (if Uncounts(s', t) then 1 else 0) - (if Uncounts(s, t) then 1 else 0)
  {
    forall u | u != t ensures u in Uncounted(s') <==> u in Uncounted(s) { OthersPcs(s, s', t, u); }
    AgreeExcept(Uncounted(s), Uncounted(s'), t);
  }

  /** A chain stays good when its links do and no link in it loses its producer. */
  lemma ChainFrame(s: State, s': State, t: Tid, c: seq<Block>)
    requires ChainOk(s, c) && OnlyPc(s, s', t) && !(t in s.pcs && s.pcs[t].FreeLink? && s.pcs[t].b in c)
    requires forall b :: b in c ==> LinkOf(s', b) == LinkOf(s, b)
    ensures ChainOk(s', c)
  {
    forall i | 0 <= i < |c| ensures LinkOk(s', c, i) {
      assert LinkOk(s, c, i) && c[i] in c;
      if LinkOf(s, c[i]) != To(First(c[i + 1..])) {
        var u :| u in s.pcs && s.pcs[u] == FreeLink(c[i], First(c[i + 1..]));
        OthersPcs(s, s', t, u);
      }
    }
  }

  /** Other producers are not disturbed by what t does to blocks that are not theirs. */
  lemma ProducersFrame(s: State, s': State, t: Tid)
    requires Producers(s) && OnlyPc(s, s', t)
    requires forall b, u :: Freeing(s, u, b) && u != t ==> b in s'.inUse
    requires forall b :: Freeing(s', t, b) ==> b in s'.inUse && forall u :: u != t ==> !Freeing(s, u, b)
    requires forall b | Chained(s, b) && !(t in s.pcs && s.pcs[t].FreeLink? && s.pcs[t].b == b) ::
      LinkOf(s, b).Unlinked? ==>
      Chained(s', b) && LinkOf(s', b).Unlinked?
    requires t in s'.pcs && s'.pcs[t].FreeLink? ==>
      LinkOf(s', s'.pcs[t].b) == Unlinked && Chained(s', s'.pcs[t].b) && !Chained(s, s'.pcs[t].b)
    ensures Producers(s')
  {
    forall u, b | Freeing(s', u, b) ensures b in s'.inUse {
      if u != t { OthersPcs(s, s', t, u); assert Freeing(s, u, b); }
    }
    forall u, v, b | Freeing(s', u, b) && Freeing(s', v, b) ensures u == v {
      if u != t { OthersPcs(s, s', t, u); assert Freeing(s, u, b); }
      if v != t { OthersPcs(s, s', t, v); assert Freeing(s, v, b); }
    }
    forall u | u in s'.pcs && s'.pcs[u].FreeLink?
      ensures LinkOf(s', s'.pcs[u].b) == Unlinked && Chained(s', s'.pcs[u].b) {
      if u != t { OthersPcs(s, s', t, u); }
    }
    forall u, v | u in s'.pcs && v in s'.pcs && s'.pcs[u].FreeLink? && s'.pcs[v].FreeLink?
      && s'.pcs[u].b == s'.pcs[v].b ensures u == v {
      if u != t { OthersPcs(s, s', t, u); }
      if v != t { OthersPcs(s, s', t, v); }
    }
  }

  /** Steps that move no block, link or count. */
  lemma QuietMemory(s: State, s': State, t: Tid)
    requires Memory(s) && OnlyPc(s, s', t) && s' == s.(owner := s'.owner, place := s'.place, pcs := s'.pcs)
    requires !Uncounts(s, t) && !Uncounts(s', t)
    requires forall b :: Freeing(s', t, b) ==> b in s.inUse && forall u :: u != t ==> !Freeing(s, u, b)
    ensures Memory(s')
  {
    UncountedChange(s, s', t);
    ChainFrame(s, s', t, s.live);
    ChainFrame(s, s', t, s.stash);
    ChainFrame(s, s', t, s.rest);
    ProducersFrame(s, s', t);
  }

  // ------------------------------------------------------------------
  // Memory steps

  lemma PopSplits(c: seq<Block>)
    requires c != []
    ensures multiset(c) == multiset{c[0]} + multiset(c[1..])
  {
    assert c == [c[0]] + c[1..];
  }

  lemma SwapMemory(s: State, t: Tid, surplus: bool)
    requires Memory(s) && t in s.pcs && s.pcs[t].FreeSwap?
    ensures Memory(ApplyAct(s, t, surplus))
  {
    var s', b := ApplyAct(s, t, surplus), s.pcs[t].b;
    assert Freeing(s, t, b);
    InOnePlace(s, b);
    assert Partition(s') by {
      assert multiset(s.inUse) == multiset(s.inUse - {b}) + multiset{b};
      assert multiset([b] + s.live) == multiset{b} + multiset(s.live);
    }
    UncountedChange(s, s', t);
    ChainFrame(s, s', t, s.live);
    ChainFrame(s, s', t, s.stash);
    ChainFrame(s, s', t, s.rest);
    PrependOk(s, s', t, b);
    ProducersFrame(s, s', t);
  }

  lemma PrependOk(s: State, s': State, t: Tid, b: Block)
    requires ChainOk(s', s.live) && LinkOf(s', b) == Unlinked && t in s'.pcs && s'.pcs[t] == FreeLink(b, First(s.live))
    ensures ChainOk(s', [b] + s.live)
  {
    var c := [b] + s.live;
    forall i | 0 <= i < |c| ensures LinkOk(s', c, i) {
      if i == 0 {
        assert c[1..] == s.live;
      } else {
        assert LinkOk(s', s.live, i - 1);
        assert c[i + 1..] == s.live[i..];
      }
    }
  }

  /** Resolving a link points it at the block swapped in before. */
  lemma LinkChain(s: State, s': State, t: Tid, c: seq<Block>)
    requires ChainOk(s, c) && Producers(s) && t in s.pcs && s.pcs[t].FreeLink? && s' == ApplyAct(s, t, true)
    ensures ChainOk(s', c)
  {
    var b := s.pcs[t].b;
    forall i | 0 <= i < |c| ensures LinkOk(s', c, i) {
      assert LinkOk(s, c, i);
      if c[i] == b {
        var u :| u in s.pcs && s.pcs[u] == FreeLink(b, First(c[i + 1..]));
        assert u == t;
      } else if LinkOf(s, c[i]) != To(First(c[i + 1..])) {
        var u :| u in s.pcs && s.pcs[u] == FreeLink(c[i], First(c[i + 1..]));
        assert u in s'.pcs && s'.pcs[u] == s.pcs[u];
      }
    }
  }

  lemma LinkMemory(s: State, t: Tid, surplus: bool)
    requires Memory(s) && t in s.pcs && s.pcs[t].FreeLink?
    ensures Memory(ApplyAct(s, t, surplus))
  {
    var s' := ApplyAct(s, t, surplus);
    UncountedChange(s, s', t);
    LinkChain(s, s', t, s.live);
    LinkChain(s, s', t, s.stash);
    LinkChain(s, s', t, s.rest);
    ProducersFrame(s, s', t);
  }

  /** Chains and producers when only counts, the local list or t's control point change. */
  lemma CountsMemory(s: State, s': State, t: Tid)
    requires Chains(s) && Producers(s) && OnlyPc(s, s', t)
    requires s'.head == s.head && s'.pending == s.pending
    requires s'.live == s.live && s'.stash == s.stash && s'.rest == s.rest
    requires forall b :: Chained(s, b) ==> LinkOf(s', b) == LinkOf(s, b)
    requires !(t in s.pcs && s.pcs[t].FreeLink?) && !(t in s'.pcs && s'.pcs[t].FreeLink?)
    requires forall b :: !Freeing(s', t, b)
    requires forall b, u :: Freeing(s, u, b) && u != t ==> b in s'.inUse
    ensures Chains(s') && Producers(s')
  {
    ChainFrame(s, s', t, s.live);
    ChainFrame(s, s', t, s.stash);
    ChainFrame(s, s', t, s.rest);
    ProducersFrame(s, s', t);
  }

  lemma AddMemory(s: State, t: Tid, surplus: bool)
    requires Memory(s) && t in s.pcs && s.pcs[t].FreeAdd?
    ensures Memory(ApplyAct(s, t, surplus))
  {
    var s' := ApplyAct(s, t, surplus);
    UncountedChange(s, s', t);
    CountsMemory(s, s', t);
  }

  lemma LocalPushMemory(s: State, t: Tid, surplus: bool)
    requires Memory(s) && t in s.pcs && s.pcs[t].LocalPush?
    ensures Memory(ApplyAct(s, t, surplus))
  {
    var s', b := ApplyAct(s, t, surplus), s.pcs[t].b;
    assert Freeing(s, t, b);
    InOnePlace(s, b);
    assert Partition(s') by {
      assert multiset(s.inUse) == multiset(s.inUse - {b}) + multiset{b};
      assert multiset([b] + s.local) == multiset{b} + multiset(s.local);
    }
    UncountedChange(s, s', t);
    CountsMemory(s, s', t);
  }

  lemma PopMemory(s: State, t: Tid)
    requires Memory(s) && s.local != [] && t in s.pcs && !Uncounts(s, t)
    ensures Memory(Done(PopLocal(s), t))
  {
    var s', b := Done(PopLocal(s), t), s.local[0];
    InOnePlace(s, b);
    assert Partition(s') by {
      PopSplits(s.local);
      assert multiset(s.inUse + {b}) == multiset(s.inUse) + multiset{b};
    }
    UncountedChange(s, s', t);
    CountsMemory(s, s', t);
  }

  lemma SubtractMemory(s: State, t: Tid, surplus: bool)
    requires Memory(s) && Bookkeeping(s) && t in s.pcs && s.pcs[t].Subtract?
    ensures Memory(ApplyAct(s, t, surplus))
  {
    var s' := ApplyAct(s, t, surplus);
    assert RefillOk(s, s.pcs[t]);
    UncountedChange(s, s', t);
    CountsMemory(s, s', t);
  }

  /** Moving a whole chain between the live list, the stash and the absorb loop. */
  lemma ChainMoveMemory(s: State, s': State, t: Tid)
    requires Memory(s) && OnlyPc(s, s', t) && !Uncounts(s, t) && !Uncounts(s', t)
    requires s' == s.(head := s'.head, pending := s'.pending, live := s'.live, stash := s'.stash, rest := s'.rest,
      pcs := s'.pcs)
    requires s'.head == First(s'.live) && s'.pending == First(s'.stash) && (forall b :: !Freeing(s', t, b))
    requires || (s.rest == [] && s'.rest == s.stash && s'.stash == [] && s'.live == s.live)
             || (s.rest == [] && s'.rest == s.live && s'.live == [] && s'.stash == s.stash)
             || (s.stash == [] && s'.stash == s.rest && s'.rest == [] && s'.live == s.live)
    ensures Memory(s')
  {
    UncountedChange(s, s', t);
    ChainFrame(s, s', t, s.live);
    ChainFrame(s, s', t, s.stash);
    ChainFrame(s, s', t, s.rest);
    ProducersFrame(s, s', t);
  }

  /** The absorb loop takes the front block of its chain, which is resolved, and moves on to
      the block swapped in before it. */
  lemma AbsorbEffect(s: State, t: Tid)
    requires Memory(s) && t in s.pcs && (s.pcs[t].AbsorbStash? || s.pcs[t].AbsorbLive?)
    requires s.rest != [] && s.pcs[t].cur == First(s.rest) && s.pcs[t].i < M(s) && !LinkOf(s, s.rest[0]).Unlinked?
    ensures var s' := Absorb(s, t);
      && s'.pcs[t].cur == First(s.rest[1..])
      && s' == s.(local := [s.rest[0]] + s.local, link := s.link[s.rest[0] := To(First(s.local))], rest := s.rest[1..],
                  absorbed := s.absorbed + 1, pcs := s.pcs[t := s'.pcs[t]])
      && (s'.pcs[t].AbsorbStash? || s'.pcs[t].AbsorbLive?)
    ensures s.rest[0] !in s.rest[1..] && !(s.rest[0] in s.live) && !(s.rest[0] in s.stash)
  {
    assert LinkOk(s, s.rest, 0) && s.rest[0 + 1..] == s.rest[1..];
    InOnePlace(s, s.rest[0]);
    PopSplits(s.rest);
  }

  lemma AbsorbChains(s: State, s': State, t: Tid)
    requires Memory(s) && t in s.pcs && !s.pcs[t].FreeLink? && t in s'.pcs
    requires !s'.pcs[t].FreeLink? && (forall b :: !Freeing(s', t, b))
    requires s.rest != [] && s.rest[0] !in s.rest[1..] && s.rest[0] !in s.live
    requires s.rest[0] !in s.stash && !LinkOf(s, s.rest[0]).Unlinked?
    requires s' == s.(local := s'.local, link := s.link[s.rest[0] := To(First(s.local))], rest := s.rest[1..],
                      absorbed := s'.absorbed, pcs := s.pcs[t := s'.pcs[t]])
    ensures Chains(s') && Producers(s')
  {
    var b, tl := s.rest[0], s.rest[1..];
    TailOk(s, s.rest);
    ChainFrame(s, s', t, s.live);
    ChainFrame(s, s', t, s.stash);
    ChainFrame(s, s', t, tl);
    forall c | Chained(s, c) && LinkOf(s, c).Unlinked? ensures Chained(s', c) && LinkOf(s', c).Unlinked? {
      if c in s.rest { assert s.rest == [b] + tl; }
    }
    ProducersFrame(s, s', t);
  }

  lemma AbsorbMemory(s: State, t: Tid)
    requires Memory(s) && t in s.pcs && (s.pcs[t].AbsorbStash? || s.pcs[t].AbsorbLive?)
    requires s.rest != [] && s.pcs[t].cur == First(s.rest) && s.pcs[t].i < M(s) && !LinkOf(s, s.rest[0]).Unlinked?
    ensures Memory(Absorb(s, t))
  {
    var s', b := Absorb(s, t), s.rest[0];
    AbsorbEffect(s, t);
    AbsorbChains(s, s', t);
    assert Partition(s') by {
      PopSplits(s.rest);
      assert multiset([b] + s.local) == multiset{b} + multiset(s.local);
    }
    UncountedChange(s, s', t);
  }

  lemma TailOk(s: State, c: seq<Block>)
    requires ChainOk(s, c) && c != []
    ensures ChainOk(s, c[1..])
  {
    forall i | 0 <= i < |c| - 1 ensures LinkOk(s, c[1..], i) {
      assert LinkOk(s, c, i + 1);
      assert c[1..][i + 1..] == c[i + 1 + 1..];
    }
  }

  // ------------------------------------------------------------------
  // Control

  /** No other thread acts as the owner or has the span in its hands. */
  ghost predicate Alone(s: State, t: Tid) {
    forall u :: u in s.pcs && u != t ==> !Listed(s.pcs[u]) && !InHand(s.pcs[u])
  }

  ghost predicate PcOwns(s: State, t: Tid) {
    && (t in s.pcs && Listed(s.pcs[t]) ==> s.place == InLocalList(t))
    && (t in s.pcs && InHand(s.pcs[t]) ==>
          s.place == InHands(t)
            && s.owner == (if s.pcs[t].EnqueuePublic? || s.pcs[t].AcquireOwn? then Public else Of(t)))
  }

  ghost predicate PlaceOwner(s: State) {
    match s.place
    case InLocalList(t) => s.owner == Of(t)
    case InHands(t) => t in s.pcs && InHand(s.pcs[t])
    case InPublic => s.owner == Public
    case Nowhere => s.owner == Nobody
  }

  lemma OwnershipByParts(s: State, s': State, t: Tid)
    requires Ownership(s) && OnlyPc(s, s', t)
    requires (s'.place == s.place && s'.owner == s.owner) || Alone(s, t)
    requires PcOwns(s', t)
    requires (PlaceOwner(s') || (s'.place == s.place && s'.owner == s.owner && s.place.InHands? && s.place.t != t))
    ensures Ownership(s')
  {
    forall u | u in s'.pcs ensures PcOwns(s', u) { if u != t { OthersPcs(s, s', t, u); assert PcOwns(s, u); } }
    if s.place.InHands? && s.place.t != t { OthersPcs(s, s', t, s.place.t); }
    assert forall u :: u in s'.pcs ==> PcOwns(s', u);
  }

  ghost predicate Full(s: State) {
    s.inUse == {} && Uncounted(s) == {} && s.local != []
  }

  /** Some thread, or the owner word, says the span is being published, public or just acquired. */
  lemma FullByParts(s: State, s': State, t: Tid)
    requires OnlyPc(s, s', t)
    requires || Full(s')
             || (s'.owner != Public && !(t in s'.pcs && FullPc(s'.pcs[t])) && forall u :: u in s.pcs && u != t ==>
               !FullPc(s.pcs[u]))
    ensures FullWhenPublic(s')
  {
    forall u | u in s'.pcs && u != t ensures u in s.pcs && s'.pcs[u] == s.pcs[u] { OthersPcs(s, s', t, u); }
  }

  lemma BookkeepingByParts(s: State, s': State, t: Tid)
    requires Bookkeeping(s) && OnlyPc(s, s', t)
    requires (s'.local == s.local && s'.stash == s.stash && s'.rest == s.rest && s'.absorbed == s.absorbed)
      || Alone(s, t)
    requires t in s'.pcs ==> RefillOk(s', s'.pcs[t])
    requires s'.absorbed > 0 || s'.rest != [] ==>
      || (t in s'.pcs && InRefill(s'.pcs[t]))
      || ((s.absorbed > 0 || s.rest != []) && !(t in s.pcs && InRefill(s.pcs[t])))
    requires s'.owner == Nobody ==> s'.local == [] && s'.stash == []
    ensures Bookkeeping(s')
  {
    forall u | u in s'.pcs ensures RefillOk(s', s'.pcs[u]) {
      if u != t { OthersPcs(s, s', t, u); assert RefillOk(s, s.pcs[u]); }
    }
    if (s'.absorbed > 0 || s'.rest != []) && !(t in s'.pcs && InRefill(s'.pcs[t])) {
      var u :| u in s.pcs && InRefill(s.pcs[u]);
      OthersPcs(s, s', t, u);
    }
  }

  ghost predicate Watches(pc: Pc) {
    pc.FreeClaim? || pc.DiscardRecheck? || pc.DiscardRetake?
  }

  lemma NotStrandedByParts(s: State, s': State, t: Tid)
    requires NotStranded(s) && OnlyPc(s, s', t)
    requires s'.owner == Nobody && s'.g >= 1 ==>
      || (t in s'.pcs && Watches(s'.pcs[t]))
      || (s.owner == Nobody && s.g >= 1 && !(t in s.pcs && Watches(s.pcs[t])))
    ensures NotStranded(s')
  {
    if s'.owner == Nobody && s'.g >= 1 && !(t in s'.pcs && Watches(s'.pcs[t])) {
      var u :| u in s.pcs && Watches(s.pcs[u]);
      OthersPcs(s, s', t, u);
      assert u in s'.pcs && Watches(s'.pcs[u]);
    }
  }

  // ------------------------------------------------------------------
  // Every step keeps the invariant

  lemma ControlByParts(s: State, s': State, t: Tid)
    requires Control(s) && OnlyPc(s, s', t)
    requires (s'.place == s.place && s'.owner == s.owner) || Alone(s, t)
    requires PcOwns(s', t)
    requires (PlaceOwner(s') || (s'.place == s.place && s'.owner == s.owner && s.place.InHands? && s.place.t != t))
    requires || Full(s')
             || (s'.owner != Public && !(t in s'.pcs && FullPc(s'.pcs[t])) && forall u :: u in s.pcs && u != t ==>
               !FullPc(s.pcs[u]))
    requires (s'.local == s.local && s'.stash == s.stash && s'.rest == s.rest && s'.absorbed == s.absorbed)
      || Alone(s, t)
    requires t in s'.pcs ==> RefillOk(s', s'.pcs[t])
    requires s'.absorbed > 0 || s'.rest != [] ==>
      || (t in s'.pcs && InRefill(s'.pcs[t]))
      || ((s.absorbed > 0 || s.rest != []) && !(t in s.pcs && InRefill(s.pcs[t])))
    requires s'.owner == Nobody ==> s'.local == [] && s'.stash == []
    requires s'.owner == Nobody && s'.g >= 1 ==>
      || (t in s'.pcs && Watches(s'.pcs[t]))
      || (s.owner == Nobody && s.g >= 1 && !(t in s.pcs && Watches(s.pcs[t])))
    ensures Control(s')
  {
    OwnershipByParts(s, s', t);
    FullByParts(s, s', t);
    BookkeepingByParts(s, s', t);
    NotStrandedByParts(s, s', t);
  }

  /** A step that leaves owner, place, lists and counts alone and takes t from one control
      point of an outsider to another. */
  lemma OutsiderControl(s: State, s': State, t: Tid)
    requires Control(s) && OnlyPc(s, s', t)
    requires s' == s.(g := s'.g, inUse := s'.inUse, head := s'.head, live := s'.live, link := s'.link, pcs := s'.pcs)
    requires t in s.pcs ==> !Listed(s.pcs[t]) && !InHand(s.pcs[t])
    requires t in s'.pcs ==> !Listed(s'.pcs[t]) && !InHand(s'.pcs[t])
    requires Full(s) ==> Full(s')
    requires s.owner == Nobody && s'.g >= 1 ==>
      || (t in s'.pcs && Watches(s'.pcs[t]))
      || (s.g >= 1 && !(t in s.pcs && Watches(s.pcs[t])))
    ensures Control(s')
  {
    ControlByParts(s, s', t);
  }

  /** A step of the sole owner that keeps it the owner, outside the publish path. */
  lemma OwnerControl(s: State, s': State, t: Tid)
    requires Control(s) && OnlyPc(s, s', t) && t in s.pcs && (Listed(s.pcs[t]) || InHand(s.pcs[t]))
    requires s'.owner == Of(t) && PcOwns(s', t)
    requires (s'.place == InLocalList(t) || (s'.place == InHands(t) && t in s'.pcs && InHand(s'.pcs[t])))
    requires t in s'.pcs && FullPc(s'.pcs[t]) ==> Full(s')
    requires t in s'.pcs ==> RefillOk(s', s'.pcs[t])
    requires (t in s'.pcs && InRefill(s'.pcs[t])) || (s'.absorbed == 0 && s'.rest == [])
    ensures Control(s')
  {
    SoleOwner(s, t);
    ControlByParts(s, s', t);
  }

  lemma StartFreeInv(s: State, t: Tid, b: Block)
    requires Inv(s) && Enabled(s, StartFree(t, b))
    ensures Inv(Apply(s, StartFree(t, b)))
  {
    var s' := Apply(s, StartFree(t, b));
    QuietMemory(s, s', t);
    FullKept(s, s', t);
    OutsiderControl(s, s', t);
  }

  lemma StartAllocControl(s: State, t: Tid)
    requires Control(s) && Enabled(s, StartAlloc(t))
    ensures Control(Apply(s, StartAlloc(t)))
  {
    var s' := Apply(s, StartAlloc(t));
    assert PlaceOwner(s) && Alone(s, t);
    ControlByParts(s, s', t);
  }

  lemma StartAcquireControl(s: State, t: Tid)
    requires Control(s) && Enabled(s, StartAcquire(t))
    ensures Control(Apply(s, StartAcquire(t)))
  {
    var s' := Apply(s, StartAcquire(t));
    UncountedChange(s, s', t);
    assert PlaceOwner(s) && Alone(s, t) && Full(s);
    ControlByParts(s, s', t);
  }

  lemma StartInv(s: State, step: Step)
    requires Inv(s) && Enabled(s, step) && !step.Act?
    ensures Inv(Apply(s, step))
  {
    match step
    case StartFree(t, b) => StartFreeInv(s, t, b);
    case StartAlloc(t) => QuietMemory(s, Apply(s, step), t); StartAllocControl(s, t);
    case StartAcquire(t) => QuietMemory(s, Apply(s, step), t); StartAcquireControl(s, t);
  }

  /** Control points whose action moves no block, link or count. */
  ghost predicate Quiet(s: State, pc: Pc) {
    || pc.FreeLoad? || pc.FreeClaim? || pc.Claimed? || pc.LocalTest? || pc.MakePublic? || pc.EnqueuePublic?
    || pc.RotateOut? || pc.DiscardLoad? || pc.DiscardStore? || pc.DiscardRecheck? || pc.DiscardRetake? || pc.PushBack?
    || pc.AcquireOwn? || pc.AcquireList?
    || ((pc.AllocPop? || pc.AcquirePop?) && s.local == [])
    || (pc.TakeStash? && s.pending == None)
    || (pc.TakeLive? && s.head == None)
    || ((pc.AbsorbStash? || pc.AbsorbLive?) && (pc.i == M(s) || pc.cur == None || LinkOf(s, pc.cur.value).Unlinked?))
  }

  lemma QuietStep(s: State, t: Tid, surplus: bool)
    requires t in s.pcs && Quiet(s, s.pcs[t])
    ensures var s' := ApplyAct(s, t, surplus);
      && OnlyPc(s, s', t) && s' == s.(owner := s'.owner, place := s'.place, pcs := s'.pcs)
      && !Uncounts(s, t) && !Uncounts(s', t)
      && (t in s'.pcs && (s'.pcs[t].FreeLoad? || s'.pcs[t].FreeSwap? || s'.pcs[t].LocalPush?) ==>
            s.pcs[t].FreeLoad? && s.pcs[t].b == s'.pcs[t].b)
  {
    ActMovesOne(s, t, surplus);
    QuietWords(s, t, surplus);
  }

  lemma QuietWords(s: State, t: Tid, surplus: bool)
    requires t in s.pcs && Quiet(s, s.pcs[t])
    ensures var s' := ApplyAct(s, t, surplus); s' == s.(owner := s'.owner, place := s'.place, pcs := s'.pcs)
  {
  }

  lemma QuietActMemory(s: State, t: Tid, surplus: bool)
    requires Memory(s) && t in s.pcs && Quiet(s, s.pcs[t])
    ensures Memory(ApplyAct(s, t, surplus))
  {
    var s' := ApplyAct(s, t, surplus);
    QuietStep(s, t, surplus);
    forall b | Freeing(s', t, b) ensures b in s.inUse && forall u :: u != t ==> !Freeing(s, u, b) {
      assert Freeing(s, t, b);
    }
    QuietMemory(s, s', t);
  }

  lemma FreeLoadControl(s: State, t: Tid, surplus: bool)
    requires Control(s) && Producers(s) && Enabled(s, Act(t, surplus)) && (s.pcs[t].FreeLoad?)
    ensures Control(ApplyAct(s, t, surplus))
  {
    var s' := ApplyAct(s, t, surplus);
    assert PlaceOwner(s) || s.place.InHands?;
    assert Freeing(s, t, s.pcs[t].b) && !Full(s);
    if s.owner == Of(t) {
      assert s.place == InLocalList(t) && Alone(s, t);
      ControlByParts(s, s', t);
    } else {
      OutsiderControl(s, s', t);
    }
  }

  lemma SwapControl(s: State, t: Tid, surplus: bool)
    requires Control(s) && Producers(s) && Enabled(s, Act(t, surplus)) && (s.pcs[t].FreeSwap?)
    ensures Control(ApplyAct(s, t, surplus))
  {
    var s' := ApplyAct(s, t, surplus);
    assert Freeing(s, t, s.pcs[t].b) && !Full(s);
    OutsiderControl(s, s', t);
  }

  /** The step is one of a thread that neither owns the span nor gets it. */
  ghost predicate OutsiderAct(s: State, t: Tid) {
    t in s.pcs && (s.pcs[t].FreeLink? || s.pcs[t].FreeAdd? || s.pcs[t].DiscardRecheck?
      || (s.owner != Nobody && (s.pcs[t].FreeClaim? || s.pcs[t].DiscardRetake?)))
  }

  lemma OutsiderStep(s: State, t: Tid, surplus: bool)
    requires OutsiderAct(s, t)
    ensures var s' := ApplyAct(s, t, surplus);
      && OnlyPc(s, s', t) && s' == s.(g := s'.g, link := s'.link, pcs := s'.pcs)
      && !Listed(s.pcs[t]) && !InHand(s.pcs[t]) && (Uncounts(s', t) ==> Uncounts(s, t))
      && (t in s'.pcs ==> !Listed(s'.pcs[t]) && !InHand(s'.pcs[t]))
      && (s.owner == Nobody && s'.g >= 1 ==> (t in s'.pcs && Watches(s'.pcs[t])) || (s.g >= 1 && !Watches(s.pcs[t])))
  {
  }

  lemma FullKept(s: State, s': State, t: Tid)
    requires OnlyPc(s, s', t) && (Uncounts(s', t) ==> Uncounts(s, t)) && s'.inUse == s.inUse && s'.local == s.local
    ensures Full(s) ==> Full(s')
  {
    UncountedChange(s, s', t);
    assert Uncounts(s, t) ==> t in Uncounted(s);
  }

  lemma OutsiderActControl(s: State, t: Tid, surplus: bool)
    requires Control(s) && OutsiderAct(s, t)
    ensures Control(ApplyAct(s, t, surplus))
  {
    var s' := ApplyAct(s, t, surplus);
    OutsiderStep(s, t, surplus);
    FullKept(s, s', t);
    OutsiderControl(s, s', t);
  }

  /** The claim of a producer and the retake of a discarder are arbitrated by the owner word. */
  lemma ClaimWinsControl(s: State, t: Tid, surplus: bool)
    requires Control(s) && s.owner == Nobody && Enabled(s, Act(t, surplus))
    requires (s.pcs[t].FreeClaim? || s.pcs[t].DiscardRetake?)
    ensures Control(ApplyAct(s, t, surplus))
  {
    var s' := ApplyAct(s, t, surplus);
    assert s.place == Nowhere && Alone(s, t) && !Full(s);
    assert s.rest == [] && s.absorbed == 0;
    ControlByParts(s, s', t);
  }

  lemma ClaimControl(s: State, t: Tid, surplus: bool)
    requires Control(s) && Enabled(s, Act(t, surplus)) && (s.pcs[t].FreeClaim? || s.pcs[t].DiscardRetake?)
    ensures Control(ApplyAct(s, t, surplus))
  {
    if s.owner == Nobody { ClaimWinsControl(s, t, surplus); } else { OutsiderActControl(s, t, surplus); }
  }

  lemma RelistControl(s: State, t: Tid, surplus: bool)
    requires Control(s) && Enabled(s, Act(t, surplus)) && (s.pcs[t].Claimed? || s.pcs[t].PushBack?)
    ensures Control(ApplyAct(s, t, surplus))
  {
    var s' := ApplyAct(s, t, surplus);
    assert RefillOk(s, s.pcs[t]) && PcOwns(s, t);
    NothingHalfAbsorbed(s, t);
    OwnerControl(s, s', t);
  }

  lemma LocalPushControl(s: State, t: Tid, surplus: bool)
    requires Control(s) && Enabled(s, Act(t, surplus)) && (s.pcs[t].LocalPush?)
    ensures Control(ApplyAct(s, t, surplus))
  {
    var s' := ApplyAct(s, t, surplus);
    assert RefillOk(s, s.pcs[t]) && PcOwns(s, t);
    NothingHalfAbsorbed(s, t);
    OwnerControl(s, s', t);
  }

  /** The publish test succeeds exactly when no block is in use and no producer is uncounted. */
  lemma FullTest(s: State, t: Tid)
    requires Inv(s) && t in s.pcs && s.pcs[t].LocalTest?
    ensures |s.local| + s.g == M(s) <==> s.inUse == {} && Uncounted(s) == {}
  {
    NothingHalfAbsorbed(s, t);
    Cardinalities(s);
    assert |s.local| + s.g == M(s) - |s.inUse| - |Uncounted(s)|;
    if |s.inUse| == 0 { assert s.inUse == {}; }
    if |Uncounted(s)| == 0 { assert Uncounted(s) == {}; }
  }

  lemma LocalTestControl(s: State, t: Tid, surplus: bool)
    requires Control(s) && (|s.local| + s.g == M(s) ==> s.inUse == {} && Uncounted(s) == {})
    requires Enabled(s, Act(t, surplus)) && (s.pcs[t].LocalTest?)
    ensures Control(ApplyAct(s, t, surplus))
  {
    var s' := ApplyAct(s, t, surplus);
    assert RefillOk(s, s.pcs[t]) && PcOwns(s, t);
    NothingHalfAbsorbed(s, t);
    UncountedChange(s, s', t);
    OwnerControl(s, s', t);
  }

  lemma PublishControl(s: State, t: Tid, surplus: bool)
    requires Control(s) && Enabled(s, Act(t, surplus)) && (s.pcs[t].MakePublic? || s.pcs[t].EnqueuePublic?)
    ensures Control(ApplyAct(s, t, surplus))
  {
    var s' := ApplyAct(s, t, surplus);
    assert RefillOk(s, s.pcs[t]) && PcOwns(s, t);
    SoleOwner(s, t);
    NothingHalfAbsorbed(s, t);
    UncountedChange(s, s', t);
    assert FullPc(s.pcs[t]) && Full(s);
    ControlByParts(s, s', t);
  }

  lemma AcquireStep(s: State, t: Tid, surplus: bool)
    requires Enabled(s, Act(t, surplus)) && (s.pcs[t].AcquireOwn? || s.pcs[t].AcquireList?)
    ensures var s' := ApplyAct(s, t, surplus);
      && OnlyPc(s, s', t) && !Uncounts(s', t) && t in s'.pcs
      && s' == if s.pcs[t].AcquireOwn? then s.(owner := Of(t), pcs := s.pcs[t := AcquireList])
               else s.(place := InLocalList(t), pcs := s.pcs[t := AcquirePop])
  {
  }

  lemma AcquireControl(s: State, t: Tid, surplus: bool)
    requires Control(s) && Enabled(s, Act(t, surplus)) && (s.pcs[t].AcquireOwn? || s.pcs[t].AcquireList?)
    ensures Control(ApplyAct(s, t, surplus))
  {
    var s' := ApplyAct(s, t, surplus);
    assert RefillOk(s, s.pcs[t]) && PcOwns(s, t);
    NothingHalfAbsorbed(s, t);
    AcquireStep(s, t, surplus);
    assert FullPc(s.pcs[t]) && Full(s);
    FullKept(s, s', t);
    OwnerControl(s, s', t);
  }

  lemma PopControl(s: State, t: Tid, surplus: bool)
    requires Control(s) && Enabled(s, Act(t, surplus))
    requires (s.pcs[t].AllocPop? || s.pcs[t].AcquirePop? || s.pcs[t].PopAgain?)
    ensures Control(ApplyAct(s, t, surplus))
  {
    var s' := ApplyAct(s, t, surplus);
    assert RefillOk(s, s.pcs[t]) && PcOwns(s, t);
    NothingHalfAbsorbed(s, t);
    assert s.local == [] ==> !Full(s);
    OwnerControl(s, s', t);
  }

  lemma TakeControl(s: State, t: Tid, surplus: bool)
    requires Control(s) && Chains(s) && Enabled(s, Act(t, surplus)) && (s.pcs[t].TakeStash? || s.pcs[t].TakeLive?)
    ensures Control(ApplyAct(s, t, surplus))
  {
    var s' := ApplyAct(s, t, surplus);
    assert RefillOk(s, s.pcs[t]) && PcOwns(s, t);
    if s.pcs[t].TakeStash? { NothingHalfAbsorbed(s, t); }
    OwnerControl(s, s', t);
  }

  lemma PutControl(s: State, t: Tid, surplus: bool)
    requires Control(s) && Chains(s) && Enabled(s, Act(t, surplus)) && (s.pcs[t].PutStash? || s.pcs[t].PutLive?)
    ensures Control(ApplyAct(s, t, surplus))
  {
    var s' := ApplyAct(s, t, surplus);
    assert RefillOk(s, s.pcs[t]) && PcOwns(s, t);
    OwnerControl(s, s', t);
  }

  /** The block-count limit is never why the absorb loop stops. */
  lemma LimitNeverReached(s: State, t: Tid)
    requires Partition(s) && Bookkeeping(s) && t in s.pcs && (s.pcs[t].AbsorbStash? || s.pcs[t].AbsorbLive?)
    ensures s.pcs[t].i == M(s) ==> s.pcs[t].cur == None
    ensures s.rest != [] ==> s.pcs[t].i < M(s)
  {
    assert RefillOk(s, s.pcs[t]);
    Cardinalities(s);
  }

  lemma AbsorbStopsControl(s: State, t: Tid, surplus: bool)
    requires Control(s) && Enabled(s, Act(t, surplus)) && Quiet(s, s.pcs[t])
    requires (s.pcs[t].AbsorbStash? || s.pcs[t].AbsorbLive?)
    ensures Control(ApplyAct(s, t, surplus))
  {
    var s' := ApplyAct(s, t, surplus);
    assert RefillOk(s, s.pcs[t]) && PcOwns(s, t);
    OwnerControl(s, s', t);
  }

  lemma AbsorbMovesControl(s: State, t: Tid, surplus: bool)
    requires Control(s) && Memory(s) && Enabled(s, Act(t, surplus))
    requires !Quiet(s, s.pcs[t]) && (s.pcs[t].AbsorbStash? || s.pcs[t].AbsorbLive?)
    ensures Control(ApplyAct(s, t, surplus))
  {
    var s' := ApplyAct(s, t, surplus);
    assert RefillOk(s, s.pcs[t]) && PcOwns(s, t);
    LimitNeverReached(s, t);
    AbsorbEffect(s, t);
    OwnerControl(s, s', t);
  }

  lemma AbsorbControl(s: State, t: Tid, surplus: bool)
    requires Control(s) && Memory(s) && Enabled(s, Act(t, surplus)) && (s.pcs[t].AbsorbStash? || s.pcs[t].AbsorbLive?)
    ensures Control(ApplyAct(s, t, surplus))
  {
    var s' := ApplyAct(s, t, surplus);
    if Quiet(s, s.pcs[t]) { AbsorbStopsControl(s, t, surplus); } else { AbsorbMovesControl(s, t, surplus); }
  }

  lemma SubtractControl(s: State, t: Tid, surplus: bool)
    requires Control(s) && Enabled(s, Act(t, surplus)) && (s.pcs[t].Subtract?)
    ensures Control(ApplyAct(s, t, surplus))
  {
    var s' := ApplyAct(s, t, surplus);
    assert RefillOk(s, s.pcs[t]) && PcOwns(s, t);
    OwnerControl(s, s', t);
  }

  lemma RotateControl(s: State, t: Tid, surplus: bool)
    requires Control(s) && Chains(s) && Enabled(s, Act(t, surplus)) && (s.pcs[t].RotateOut? || s.pcs[t].DiscardLoad?)
    ensures Control(ApplyAct(s, t, surplus))
  {
    var s' := ApplyAct(s, t, surplus);
    assert RefillOk(s, s.pcs[t]) && PcOwns(s, t);
    NothingHalfAbsorbed(s, t);
    OwnerControl(s, s', t);
  }

  lemma DiscardControl(s: State, t: Tid, surplus: bool)
    requires Control(s) && Enabled(s, Act(t, surplus)) && (s.pcs[t].DiscardStore?)
    ensures Control(ApplyAct(s, t, surplus))
  {
    var s' := ApplyAct(s, t, surplus);
    assert RefillOk(s, s.pcs[t]) && PcOwns(s, t);
    NothingHalfAbsorbed(s, t);
    SoleOwner(s, t);
    ControlByParts(s, s', t);
  }

  lemma ActMemory(s: State, t: Tid, surplus: bool)
    requires Inv(s) && Enabled(s, Act(t, surplus))
    ensures Memory(ApplyAct(s, t, surplus))
  {
    var s' := ApplyAct(s, t, surplus);
    var pc := s.pcs[t];
    assert RefillOk(s, pc);
    if Quiet(s, pc) { QuietActMemory(s, t, surplus); }
    else if pc.FreeSwap? { SwapMemory(s, t, surplus); }
    else if pc.FreeLink? { LinkMemory(s, t, surplus); }
    else if pc.FreeAdd? { AddMemory(s, t, surplus); }
    else if pc.LocalPush? { LocalPushMemory(s, t, surplus); }
    else if pc.Subtract? { SubtractMemory(s, t, surplus); }
    else if pc.AbsorbStash? || pc.AbsorbLive? { LimitNeverReached(s, t); AbsorbMemory(s, t); }
    else if pc.AllocPop? || pc.AcquirePop? || pc.PopAgain? { PopMemory(s, t); }
    else { ChainStepMemory(s, t, surplus); }
  }

  lemma ChainStepMemory(s: State, t: Tid, surplus: bool)
    requires Inv(s) && Enabled(s, Act(t, surplus)) && !Quiet(s, s.pcs[t])
    requires (s.pcs[t].TakeStash? || s.pcs[t].TakeLive? || s.pcs[t].PutStash? || s.pcs[t].PutLive?)
    ensures Memory(ApplyAct(s, t, surplus))
  {
    var s' := ApplyAct(s, t, surplus);
    assert RefillOk(s, s.pcs[t]) && PcOwns(s, t);
    if s.pcs[t].TakeStash? { NothingHalfAbsorbed(s, t); }
    ChainMoveMemory(s, s', t);
  }

  lemma ActControl(s: State, t: Tid, surplus: bool)
    requires Inv(s) && Enabled(s, Act(t, surplus))
    ensures Control(ApplyAct(s, t, surplus))
  {
    var s' := ApplyAct(s, t, surplus);
    match s.pcs[t]
    case FreeLoad(_) => FreeLoadControl(s, t, surplus);
    case FreeSwap(_) => SwapControl(s, t, surplus);
    case FreeLink(_, _) => OutsiderActControl(s, t, surplus);
    case FreeAdd => OutsiderActControl(s, t, surplus);
    case FreeClaim => ClaimControl(s, t, surplus);
    case Claimed => RelistControl(s, t, surplus);
    case LocalPush(_) => LocalPushControl(s, t, surplus);
    case LocalTest => FullTest(s, t); LocalTestControl(s, t, surplus);
    case MakePublic => PublishControl(s, t, surplus);
    case EnqueuePublic => PublishControl(s, t, surplus);
    case AllocPop => PopControl(s, t, surplus);
    case TakeStash => TakeControl(s, t, surplus);
    case AbsorbStash(_, _, _) => AbsorbControl(s, t, surplus);
    case PutStash(_, _) => PutControl(s, t, surplus);
    case TakeLive(_) => TakeControl(s, t, surplus);
    case AbsorbLive(_, _, _) => AbsorbControl(s, t, surplus);
    case PutLive(_, _) => PutControl(s, t, surplus);
    case Subtract(_) => SubtractControl(s, t, surplus);
    case PopAgain => PopControl(s, t, surplus);
    case RotateOut => RotateControl(s, t, surplus);
    case DiscardLoad => RotateControl(s, t, surplus);
    case DiscardStore => DiscardControl(s, t, surplus);
    case DiscardRecheck => OutsiderActControl(s, t, surplus);
    case DiscardRetake => ClaimControl(s, t, surplus);
    case PushBack => RelistControl(s, t, surplus);
    case AcquireOwn => AcquireControl(s, t, surplus);
    case AcquireList => AcquireControl(s, t, surplus);
    case AcquirePop => PopControl(s, t, surplus);
  }

  // ------------------------------------------------------------------
  // Whole runs

  ghost predicate IsRun(run: seq<State>, steps: seq<Step>) {
    && |run| == |steps| + 1
    && Init(run[0])
    && forall i :: 0 <= i < |steps| ==> Enabled(run[i], steps[i]) && run[i + 1] == Apply(run[i], steps[i])
  }

  lemma StepKeepsInv(s: State, step: Step)
    requires Inv(s) && Enabled(s, step)
    ensures Inv(Apply(s, step))
  {
    if step.Act? {
      ActMemory(s, step.t, step.surplus);
      ActControl(s, step.t, step.surplus);
    } else {
      StartInv(s, step);
    }
  }

  lemma InitHasInv(s: State)
    requires Init(s)
    ensures Inv(s)
  {
    assert Uncounted(s) == {};
  }

  lemma {:induction false} RunKeepsInv(run: seq<State>, steps: seq<Step>, i: nat)
    requires IsRun(run, steps) && i < |run|
    ensures Inv(run[i])
  {
    if i > 0 {
      RunKeepsInv(run, steps, i - 1);
      StepKeepsInv(run[i - 1], steps[i - 1]);
    } else {
      InitHasInv(run[0]);
    }
  }

  ghost function Here(b: bool): nat { if b then 1 else 0 }

  /** In every reachable state each of the span's blocks is in exactly one of in use, local
      list, live remote chain, pending chain and the chain being absorbed, once; and g is the
      blocks in chains plus those absorbed but not yet subtracted, minus the producers that
      have swapped but not yet added. */
  lemma BlockAccounting(run: seq<State>, steps: seq<Step>, i: nat, b: Block)
    requires IsRun(run, steps) && i < |run| && b in run[i].blocks
    ensures var s := run[i];
      && Here(b in s.inUse) + Here(b in s.local) + Here(b in s.live) + Here(b in s.stash) + Here(b in s.rest) == 1
      && multiset(s.local)[b] <= 1 && multiset(s.live)[b] <= 1 && multiset(s.stash)[b] <= 1 && multiset(s.rest)[b] <= 1
      && s.g == |s.live| + |s.stash| + |s.rest| + s.absorbed - |Uncounted(s)|
  {
    RunKeepsInv(run, steps, i);
    InOnePlace(run[i], b);
  }

  /** Whoever finds its span full with q + g = m has found every block free and every producer
      counted; and from then until an acquirer's first local pop, which succeeds, no thread
      frees a block of the span. */
  lemma PublishSoundness(run: seq<State>, steps: seq<Step>, i: nat, t: Tid)
    requires IsRun(run, steps) && i < |run|
    ensures var s := run[i];
      && (t in s.pcs && s.pcs[t].LocalTest? ==> (|s.local| + s.g == M(s) <==> s.inUse == {} && Uncounted(s) == {}))
      && (s.owner == Public || (t in s.pcs && FullPc(s.pcs[t])) ==>
            && s.inUse == {} && s.local != []
            && forall u :: u in s.pcs ==>
                 !s.pcs[u].FreeLoad? && !s.pcs[u].FreeSwap? && !s.pcs[u].FreeLink? && !s.pcs[u].FreeAdd?
                   && !s.pcs[u].LocalPush?)
  {
    RunKeepsInv(run, steps, i);
    var s := run[i];
    if t in s.pcs && s.pcs[t].LocalTest? { FullTest(s, t); }
    if s.owner == Public || (t in s.pcs && FullPc(s.pcs[t])) {
      assert Full(s);
      forall u | u in s.pcs
        ensures !s.pcs[u].FreeLoad? && !s.pcs[u].FreeSwap? && !s.pcs[u].FreeLink?
        ensures !s.pcs[u].FreeAdd? && !s.pcs[u].LocalPush?
      {
        assert u !in Uncounted(s);
        if s.pcs[u].FreeLoad? || s.pcs[u].FreeSwap? || s.pcs[u].LocalPush? { assert Freeing(s, u, s.pcs[u].b); }
      }
    }
  }

  /** Threads that may still act on an ownerless span. */
  ghost predicate InFlight(pc: Pc) {
    pc.FreeLink? || pc.FreeAdd? || Watches(pc)
  }

  /** An ownerless span with a positive count has a producer about to run its claim CAS or a
      discarder in its re-check window; with nothing in flight its count is 0, both chains and
      the local list are empty and every block is in use, however stale the claimers that came
      before and however negative the count has been. */
  lemma NoStrandedSpan(run: seq<State>, steps: seq<Step>, i: nat)
    requires IsRun(run, steps) && i < |run| && run[i].owner == Nobody
    ensures run[i].g >= 1 ==> exists t :: t in run[i].pcs && Watches(run[i].pcs[t])
    ensures (forall t :: t in run[i].pcs ==> !InFlight(run[i].pcs[t])) ==>
      run[i].g == 0 && run[i].live == [] && run[i].stash == [] && run[i].local == [] && run[i].inUse == run[i].blocks
  {
    RunKeepsInv(run, steps, i);
    var s := run[i];
    if forall t :: t in s.pcs ==> !InFlight(s.pcs[t]) {
      assert Uncounted(s) == {};
      assert s.rest == [] && s.absorbed == 0;
      forall b ensures b in s.inUse <==> b in s.blocks { InOnePlace(s, b); }
    }
  }

  /** The owner word and list membership agree, in both directions, and at most one thread is
      at a control point where it acts as the owner. */
  lemma OwnershipMatchesMembership(run: seq<State>, steps: seq<Step>, i: nat, t: Tid, u: Tid)
    requires IsRun(run, steps) && i < |run|
    ensures var s := run[i];
      && (s.owner == Of(t) ==> s.place == InLocalList(t) || s.place == InHands(t))
      && (s.place == InLocalList(t) ==> s.owner == Of(t))
      && (s.owner == Public <==>
        s.place == InPublic || exists v :: v in s.pcs && (s.pcs[v].EnqueuePublic? || s.pcs[v].AcquireOwn?))
      && (s.owner == Nobody <==> s.place == Nowhere)
      && (ActsAsOwner(s, t) && ActsAsOwner(s, u) ==> t == u)
      && (t in s.pcs && Listed(s.pcs[t]) ==> s.owner == Of(t))
  {
    RunKeepsInv(run, steps, i);
    var s := run[i];
    if s.owner == Public && s.place.InHands? { assert s.place.t in s.pcs && InHand(s.pcs[s.place.t]); }
  }

  /** Absorption loses nothing: in every reachable state each chain is in SWAP order with
      every link resolved to its predecessor or left to its stalled producer, the loop's
      cursor is the front of what is left, and one iteration either moves exactly that
      front block to the local list or stops because the chain is empty or its front block is
      UNLINKED, never because of the block-count limit. */
  lemma StalledProducersLoseNothing(run: seq<State>, steps: seq<Step>, i: nat, t: Tid, surplus: bool)
    requires IsRun(run, steps) && i < |run| && t in run[i].pcs
    requires (run[i].pcs[t].AbsorbStash? || run[i].pcs[t].AbsorbLive?)
    ensures var s, s' := run[i], ApplyAct(run[i], t, surplus);
      && ChainOk(s, s.live) && ChainOk(s, s.stash) && ChainOk(s, s.rest)
      && s.stash == [] && s.pcs[t].cur == First(s.rest)
      && if s.rest == [] || LinkOf(s, s.rest[0]).Unlinked? then
           t in s'.pcs && (s'.pcs[t].PutStash? || s'.pcs[t].PutLive?) && s'.rest == s.rest && s'.local == s.local
         else
           t in s'.pcs && (s'.pcs[t].AbsorbStash? || s'.pcs[t].AbsorbLive?)
           && s'.rest == s.rest[1..] && s'.local == [s.rest[0]] + s.local && s'.pcs[t].cur == First(s'.rest)
  {
    RunKeepsInv(run, steps, i);
    var s := run[i];
    assert RefillOk(s, s.pcs[t]);
    LimitNeverReached(s, t);
    if s.rest != [] && !LinkOf(s, s.rest[0]).Unlinked? { AbsorbEffect(s, t); }
  }
}
