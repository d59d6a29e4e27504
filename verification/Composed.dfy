/**
 The helping protocol run on the public lists as they are in memory: the control of `Helping` on
 top of the nodes of `Spmc`.  Every pop and every enqueue is spread over its separate accesses,
 interleaved with those of all other threads.

 `Abs` forgets the nodes: a winning CAS2 already gives its thread the span that it will read later,
 and a publication is the moment its link is stored.  `StepRefines` shows that every access is a
 step of `Helping` or none at all, so that what is proved of `Helping` holds here too.
 */
module Composed {
  import opened Wrappers
  import Helping
  import Spmc

  type Tid = nat
  type Span = nat

  /** `ctl` are the records, the threads and the callers' spans; its `lists` are not used.  `mem`
      are the lists, nodes and spans; list l is the one of thread l. */
  datatype State = State(ctl: Helping.State, mem: Spmc.State)

  datatype Step =
    | Begin(t: Tid, queryPos: nat, helping: nat)
    | Act(t: Tid)
    | Pop(t: Tid, a: Spmc.Step)
    | Publish(t: Tid, a: Spmc.Step)

  ghost predicate Popping(th: Helping.Thread) {
    (th.pc.HelpCall? || th.pc.QueryCall?) && th.pc.call.TryPop?
  }

  ghost predicate IsEnqueue(a: Spmc.Step) {
    a.EnqTake? || a.EnqStore? || a.EnqClear? || a.EnqPublish?
  }

  /** A thread at its pop makes the accesses of `try_pop_head_once` on the list it is querying; a
      thread outside any call may publish a span its caller holds.  Publishing is guarded as in
      `Spmc`. */
  ghost predicate Enabled(st: State, step: Step) {
    && Helping.WellFormed(st.ctl) && step.t < st.ctl.n
    && match step
       case Begin(t, qp, hp) => st.ctl.threads[t].pc.Idle? && t !in st.mem.enqs
       case Act(t) => Helping.ActEnabled(st.ctl, t, Helping.SeesEmpty) && !Popping(st.ctl.threads[t])
       case Pop(t, a) =>
         && Popping(st.ctl.threads[t]) && !IsEnqueue(a) && a.t == t && Spmc.Enabled(st.mem, a)
         && (a.LoadPtr? || a.LoadVersion? ==> a.l == st.ctl.threads[t].queryPos)
       case Publish(t, a) =>
         && st.ctl.threads[t].pc.Idle? && IsEnqueue(a) && a.l == t && Spmc.Enabled(st.mem, a) && Spmc.Guarded(st.mem, a)
         && (a.EnqTake? ==> a.span in st.ctl.outside)
  }

  /** The pop returned span x: `help_finishing_req` goes on to its CAS. */
  ghost function Took(th: Helping.Thread, x: Span): Helping.Thread {
    if !Popping(th) then th
    else Helping.AtCall(th.(held := Some(x), cas2 := th.cas2 + 1, actions := th.actions + 6),
      Helping.Complete(th.pc.call.p))
  }

  /** What a pop's access does to its caller: nothing until it returns Empty, Failed or a span. */
  ghost function AfterPop(st: State, t: Tid, a: Spmc.Step): Helping.State
    requires Enabled(st, Pop(t, a))
  {
    if a.LoadNext? && Spmc.NextOf(st.mem, st.mem.pops[t].ptr).None? then Helping.ApplyAct(st.ctl, t, Helping.SeesEmpty)
    else if a.Cas2Fail? then Helping.ApplyAct(st.ctl, t, Helping.Fails)
    else if a.HandOff? then Helping.SetThread(st.ctl, t, Took(st.ctl.threads[t], st.mem.pops[t].span))
    else st.ctl
  }

  ghost function Apply(st: State, step: Step): State
    requires Enabled(st, step)
  {
    match step
    case Begin(t, qp, hp) => st.(ctl := Helping.Apply(st.ctl, Helping.Begin(t, qp, hp)))
    case Act(t) => st.(ctl := Helping.ApplyAct(st.ctl, t, Helping.SeesEmpty))
    case Pop(t, a) => State(AfterPop(st, t, a), Spmc.Apply(st.mem, a))
    case Publish(t, a) =>
      var outside := if a.EnqPublish? then st.ctl.outside - {st.mem.enqs[t].span} else st.ctl.outside;
      State(st.ctl.(outside := outside), Spmc.Apply(st.mem, a))
  }

  ghost predicate Init(st: State) {
    Helping.Init(st.ctl) && Spmc.Init(st.mem) && forall l: nat :: l in st.mem.lists <==> l < st.ctl.n
  }

  // ------------------------------------------------------------------
  // The abstraction

  /** The span at the place a winner's CAS2 moved the head to. */
  ghost function Due(mem: Spmc.State, t: Tid): Option<Span> {
    if Spmc.Winner(mem, t) && mem.pops[t].l in mem.lists && 1 <= mem.pops[t].pos <= |mem.lists[mem.pops[t].l].enqueued|
    then Some(mem.lists[mem.pops[t].l].enqueued[mem.pops[t].pos - 1]) else None
  }

  ghost function AbsThread(th: Helping.Thread, due: Option<Span>): Helping.Thread {
    if due.Some? then Took(th, due.value) else th
  }

  ghost function AbsThreads(st: State): seq<Helping.Thread> {
    seq(|st.ctl.threads|, t requires 0 <= t < |st.ctl.threads| => AbsThread(st.ctl.threads[t], Due(st.mem, t)))
  }

  ghost function Queues(mem: Spmc.State, n: nat): seq<seq<Span>> {
    seq(n, l requires 0 <= l < n => Spmc.Queue(mem, l))
  }

  ghost function Abs(st: State): Helping.State {
    st.ctl.(lists := Queues(st.mem, st.ctl.n), threads := AbsThreads(st))
  }

  // ------------------------------------------------------------------
  // The invariant

  /** Who is popping is at its pop, on the list it is querying; who is publishing is outside any
      call and its caller holds the span. */
  ghost predicate PopperOk(st: State, t: Tid)
    requires t in st.mem.pops
  {
    && t < |st.ctl.threads| && Popping(st.ctl.threads[t]) && st.mem.pops[t].l == st.ctl.threads[t].queryPos
  }

  ghost predicate PublisherOk(st: State, l: Tid)
    requires l in st.mem.enqs
  {
    l < |st.ctl.threads| && st.ctl.threads[l].pc.Idle? && st.mem.enqs[l].span in st.ctl.outside
  }

  ghost predicate Matched(st: State) {
    && Helping.WellFormed(st.ctl)
    && (forall l: nat :: l in st.mem.lists <==> l < st.ctl.n)
    && (forall t :: t in st.mem.pops ==> PopperOk(st, t))
    && (forall l :: l in st.mem.enqs ==> PublisherOk(st, l))
  }

  ghost predicate Inv(st: State) {
    Matched(st) && Spmc.Inv(st.mem) && Helping.Inv(Abs(st))
  }

  // ------------------------------------------------------------------
  // Control steps

  /** z is s with other lists and perhaps other threads beside t. */
  ghost predicate Alike(s: Helping.State, z: Helping.State, t: Tid) {
    && Helping.WellFormed(s) && Helping.WellFormed(z) && t < s.n
    && z == s.(lists := z.lists, threads := z.threads) && z.threads[t] == s.threads[t]
  }

  /** The step of t does the same to both, and leaves their lists alone. */
  ghost predicate SameAct(s: Helping.State, s': Helping.State, z: Helping.State, z': Helping.State, t: Tid) {
    && t < |s'.threads| && t < |z.threads|
    && z' == s'.(lists := z.lists, threads := z.threads[t := s'.threads[t]]) && s'.lists == s.lists
  }

  /** The control points at which a call reclaims or stores its own record. */
  ghost predicate AtExit(pc: Helping.Pc) {
    pc.ReclaimEarlier? || pc.ReclaimCompleted? || pc.ReclaimOwn? || pc.ReclaimLast? || pc.Stash?
  }

  lemma LoopActsAlike(s: Helping.State, z: Helping.State, t: Tid)
    requires Alike(s, z, t) && Helping.ActEnabled(s, t, Helping.SeesEmpty)
    requires !Helping.InCall(s.threads[t]) && !AtExit(s.threads[t].pc)
    ensures Helping.ActEnabled(z, t, Helping.SeesEmpty)
    ensures SameAct(s, Helping.ApplyAct(s, t, Helping.SeesEmpty), z, Helping.ApplyAct(z, t, Helping.SeesEmpty), t)
  {
  }

  lemma ExitActsAlike(s: Helping.State, z: Helping.State, t: Tid)
    requires Alike(s, z, t) && Helping.ActEnabled(s, t, Helping.SeesEmpty) && AtExit(s.threads[t].pc)
    ensures Helping.ActEnabled(z, t, Helping.SeesEmpty)
    ensures SameAct(s, Helping.ApplyAct(s, t, Helping.SeesEmpty), z, Helping.ApplyAct(z, t, Helping.SeesEmpty), t)
  {
  }

  lemma LoadActsAlike(s: Helping.State, z: Helping.State, t: Tid)
    requires Alike(s, z, t) && Helping.ActEnabled(s, t, Helping.SeesEmpty) && Helping.InCall(s.threads[t])
    requires s.threads[t].pc.call.First? || s.threads[t].pc.call.Second?
    ensures Helping.ActEnabled(z, t, Helping.SeesEmpty)
    ensures SameAct(s, Helping.ApplyAct(s, t, Helping.SeesEmpty), z, Helping.ApplyAct(z, t, Helping.SeesEmpty), t)
  {
  }

  lemma CompleteActsAlike(s: Helping.State, z: Helping.State, t: Tid)
    requires Alike(s, z, t) && Helping.ActEnabled(s, t, Helping.SeesEmpty) && Helping.InCall(s.threads[t])
    requires s.threads[t].pc.call.Complete?
    ensures Helping.ActEnabled(z, t, Helping.SeesEmpty)
    ensures SameAct(s, Helping.ApplyAct(s, t, Helping.SeesEmpty), z, Helping.ApplyAct(z, t, Helping.SeesEmpty), t)
  {
  }

  lemma ReturnActsAlike(s: Helping.State, z: Helping.State, t: Tid, o: Helping.PopOutcome)
    requires Alike(s, z, t) && Helping.ActEnabled(s, t, o) && Popping(s.threads[t]) && !o.TakesFront?
    ensures Helping.ActEnabled(z, t, o)
    ensures SameAct(s, Helping.ApplyAct(s, t, o), z, Helping.ApplyAct(z, t, o), t)
  {
  }

  /** Away from the pop, an action does not look at the lists or at other threads. */
  lemma ActsAlike(s: Helping.State, z: Helping.State, t: Tid)
    requires Alike(s, z, t) && Helping.ActEnabled(s, t, Helping.SeesEmpty) && !Popping(s.threads[t])
    ensures Helping.ActEnabled(z, t, Helping.SeesEmpty)
    ensures SameAct(s, Helping.ApplyAct(s, t, Helping.SeesEmpty), z, Helping.ApplyAct(z, t, Helping.SeesEmpty), t)
  {
    if AtExit(s.threads[t].pc) { ExitActsAlike(s, z, t); }
    else if !Helping.InCall(s.threads[t]) { LoopActsAlike(s, z, t); }
    else if s.threads[t].pc.call.Complete? { CompleteActsAlike(s, z, t); }
    else { LoadActsAlike(s, z, t); }
  }

  // ------------------------------------------------------------------
  // What a step leaves alone

  /** A winner's span is settled by its CAS2: nobody else's access changes it. */
  lemma DueStays(mem: Spmc.State, a: Spmc.Step, u: Tid)
    requires Spmc.PopsOk(mem) && Spmc.Enabled(mem, a) && (IsEnqueue(a) || a.t != u)
    ensures Due(Spmc.Apply(mem, a), u) == Due(mem, u)
  {
    var mem' := Spmc.Apply(mem, a);
    assert u in mem'.pops <==> u in mem.pops;
    if u in mem.pops { assert Spmc.PopOk(mem, u) && mem'.pops[u] == mem.pops[u]; }
  }

  lemma QuietDues(mem: Spmc.State, a: Spmc.Step, t: Tid)
    requires Spmc.PopsOk(mem) && Spmc.Enabled(mem, a) && !IsEnqueue(a) && a.t == t
    ensures forall u :: u != t ==> Due(Spmc.Apply(mem, a), u) == Due(mem, u)
  {
    forall u | u != t ensures Due(Spmc.Apply(mem, a), u) == Due(mem, u) { DueStays(mem, a, u); }
  }

  lemma QueuesStay(mem: Spmc.State, a: Spmc.Step, n: nat)
    requires Spmc.Enabled(mem, a) && !a.EnqPublish? && !a.Cas2?
    ensures Queues(Spmc.Apply(mem, a), n) == Queues(mem, n)
  {
    forall l | 0 <= l < n ensures Spmc.Queue(Spmc.Apply(mem, a), l) == Spmc.Queue(mem, l) {
      Spmc.OthersKeepQueues(mem, a, l);
    }
  }

  /** Only thread t, its locals or its winner's span, differs. */
  lemma OneThreadDiffers(st: State, st': State, t: Tid)
    requires t < |st.ctl.threads| == |st'.ctl.threads|
    requires forall u :: 0 <= u < |st.ctl.threads| && u != t ==>
      st'.ctl.threads[u] == st.ctl.threads[u] && Due(st'.mem, u) == Due(st.mem, u)
    ensures AbsThreads(st') == AbsThreads(st)[t := AbsThread(st'.ctl.threads[t], Due(st'.mem, t))]
  {
  }

  // ------------------------------------------------------------------
  // Every access is a step of Helping or none

  /** The step of Helping an access stands for. */
  ghost function AbsStep(st: State, step: Step): Option<Helping.Step>
    requires Enabled(st, step)
  {
    match step
    case Begin(t, qp, hp) => Some(Helping.Begin(t, qp, hp))
    case Act(t) => Some(Helping.Act(t, Helping.SeesEmpty))
    case Pop(t, a) =>
      if a.LoadNext? && Spmc.NextOf(st.mem, st.mem.pops[t].ptr).None? then Some(Helping.Act(t, Helping.SeesEmpty))
      else if a.Cas2Fail? then Some(Helping.Act(t, Helping.Fails))
      else if a.Cas2? then Some(Helping.Act(t, Helping.TakesFront))
      else None
    case Publish(t, a) => if a.EnqPublish? then Some(Helping.Enqueue(t, st.mem.enqs[t].span)) else None
  }

  ghost predicate Mirrors(st: State, step: Step)
    requires Enabled(st, step)
  {
    match AbsStep(st, step)
    case None => Abs(Apply(st, step)) == Abs(st)
    case Some(hs) => Helping.Enabled(Abs(st), hs) && Abs(Apply(st, step)) == Helping.Apply(Abs(st), hs)
  }

  lemma NotPopping(st: State, t: Tid)
    requires Matched(st) && t < st.ctl.n && !Popping(st.ctl.threads[t])
    ensures t !in st.mem.pops && AbsThreads(st)[t] == st.ctl.threads[t]
  {
    assert t in st.mem.pops ==> PopperOk(st, t);
  }

  lemma BeginMirrors(st: State, t: Tid, qp: nat, hp: nat)
    requires Matched(st) && Helping.WellFormed(Abs(st)) && Enabled(st, Begin(t, qp, hp))
    ensures Mirrors(st, Begin(t, qp, hp))
  {
    NotPopping(st, t);
    OneThreadDiffers(st, Apply(st, Begin(t, qp, hp)), t);
  }

  lemma ActMirrors(st: State, t: Tid)
    requires Matched(st) && Helping.WellFormed(Abs(st)) && Enabled(st, Act(t))
    ensures Mirrors(st, Act(t))
  {
    var st' := Apply(st, Act(t));
    NotPopping(st, t);
    ActsAlike(st.ctl, Abs(st), t);
    Helping.ActOnlyActs(st.ctl, t, Helping.SeesEmpty);
    OneThreadDiffers(st, st', t);
  }

  /** A pop that returns Empty or Failed. */
  lemma ReturnMirrors(st: State, t: Tid, a: Spmc.Step, o: Helping.PopOutcome)
    requires Helping.WellFormed(Abs(st)) && Spmc.PopsOk(st.mem) && Enabled(st, Pop(t, a))
    requires AbsStep(st, Pop(t, a)) == Some(Helping.Act(t, o)) && !o.TakesFront?
    ensures Mirrors(st, Pop(t, a))
  {
    QuietDues(st.mem, a, t);
    QueuesStay(st.mem, a, st.ctl.n);
    assert Due(st.mem, t) == None && Due(Spmc.Apply(st.mem, a), t) == None;
    ReturnAbs(st, Apply(st, Pop(t, a)), t, o);
  }

  lemma ReturnAbs(st: State, st': State, t: Tid, o: Helping.PopOutcome)
    requires Helping.WellFormed(Abs(st)) && Helping.ActEnabled(st.ctl, t, o)
    requires Popping(st.ctl.threads[t]) && !o.TakesFront? && st'.ctl == Helping.ApplyAct(st.ctl, t, o)
    requires forall u :: u != t ==> Due(st'.mem, u) == Due(st.mem, u)
    requires Due(st.mem, t) == None && Due(st'.mem, t) == None && Queues(st'.mem, st.ctl.n) == Queues(st.mem, st.ctl.n)
    ensures Helping.ActEnabled(Abs(st), t, o) && Abs(st') == Helping.ApplyAct(Abs(st), t, o)
  {
    ReturnActsAlike(st.ctl, Abs(st), t, o);
    Helping.ActOnlyActs(st.ctl, t, o);
    OneThreadDiffers(st, st', t);
  }

  /** An access in the middle of a pop, or the hand-off at its end. */
  lemma QuietMirrors(st: State, t: Tid, a: Spmc.Step)
    requires Matched(st) && Spmc.PopsOk(st.mem) && Enabled(st, Pop(t, a)) && AbsStep(st, Pop(t, a)).None?
    ensures Mirrors(st, Pop(t, a))
  {
    QuietDues(st.mem, a, t);
    QuietThread(st, t, a);
    QueuesStay(st.mem, a, st.ctl.n);
    QuietAbs(st, Apply(st, Pop(t, a)), t);
  }

  lemma QuietAbs(st: State, st': State, t: Tid)
    requires t < |st.ctl.threads| && t < |st'.ctl.threads|
    requires st'.ctl == st.ctl.(threads := st.ctl.threads[t := st'.ctl.threads[t]])
    requires forall u :: u != t ==> Due(st'.mem, u) == Due(st.mem, u)
    requires AbsThread(st'.ctl.threads[t], Due(st'.mem, t)) == AbsThread(st.ctl.threads[t], Due(st.mem, t))
    requires Queues(st'.mem, st.ctl.n) == Queues(st.mem, st.ctl.n)
    ensures Abs(st') == Abs(st)
  {
    OneThreadDiffers(st, st', t);
    assert AbsThreads(st') == AbsThreads(st);
  }

  lemma QuietThread(st: State, t: Tid, a: Spmc.Step)
    requires Spmc.PopsOk(st.mem) && Enabled(st, Pop(t, a)) && AbsStep(st, Pop(t, a)).None?
    ensures var st' := Apply(st, Pop(t, a));
      && t < |st'.ctl.threads| && st'.ctl == st.ctl.(threads := st.ctl.threads[t := st'.ctl.threads[t]])
      && AbsThread(st'.ctl.threads[t], Due(st'.mem, t)) == AbsThread(st.ctl.threads[t], Due(st.mem, t))
  {
    if t in st.mem.pops { assert Spmc.PopOk(st.mem, t); }
  }

  lemma WinMem(mem: Spmc.State, t: Tid, n: nat)
    requires Spmc.Inv(mem) && Spmc.Enabled(mem, Spmc.Cas2(t)) && mem.pops[t].l < n
    ensures var mem', l := Spmc.Apply(mem, Spmc.Cas2(t)), mem.pops[t].l;
      && Spmc.Queue(mem, l) != [] && Queues(mem', n) == Queues(mem, n)[l := Spmc.Queue(mem, l)[1..]]
      && Due(mem, t) == None && Due(mem', t) == Some(Spmc.Queue(mem, l)[0])
  {
    var mem', l := Spmc.Apply(mem, Spmc.Cas2(t)), mem.pops[t].l;
    Spmc.PopTakesFront(mem, t, |mem.lists[l].enqueued|);
    OneQueueDiffers(mem, Spmc.Cas2(t), l, n);
  }

  lemma OneQueueDiffers(mem: Spmc.State, a: Spmc.Step, l: Tid, n: nat)
    requires Spmc.Enabled(mem, a) && l < n && (a == Spmc.EnqPublish(l) || Spmc.IsPopOf(mem, a, l))
    ensures Queues(Spmc.Apply(mem, a), n) == Queues(mem, n)[l := Spmc.Queue(Spmc.Apply(mem, a), l)]
  {
    forall k | 0 <= k < n && k != l ensures Spmc.Queue(Spmc.Apply(mem, a), k) == Spmc.Queue(mem, k) {
      Spmc.OthersKeepQueues(mem, a, k);
    }
  }

  /** A pop that takes the front, in Helping. */
  lemma TakeFront(z: Helping.State, t: Tid)
    requires Helping.ActEnabled(z, t, Helping.TakesFront) && Popping(z.threads[t])
    ensures var th := z.threads[t]; var q := z.lists[th.queryPos];
      Helping.ApplyAct(z, t, Helping.TakesFront) ==
        z.(threads := z.threads[t := Took(th, q[0])], lists := z.lists[th.queryPos := q[1..]])
  {
  }

  /** Thread t has taken the front of the list it is querying, and nothing else has changed. */
  ghost predicate FrontTaken(st: State, mem': Spmc.State, t: Tid) {
    && t < |st.ctl.threads| && st.ctl.threads[t].queryPos < st.ctl.n
    && (forall u :: u != t ==> Due(mem', u) == Due(st.mem, u))
    && var l, q := st.ctl.threads[t].queryPos, Spmc.Queue(st.mem, st.ctl.threads[t].queryPos);
       && q != [] && Queues(mem', st.ctl.n) == Queues(st.mem, st.ctl.n)[l := q[1..]]
       && Due(st.mem, t) == None && Due(mem', t) == Some(q[0])
  }

  lemma WinTakesFront(st: State, t: Tid)
    requires Matched(st) && Spmc.Inv(st.mem) && Spmc.Enabled(st.mem, Spmc.Cas2(t))
    ensures FrontTaken(st, Spmc.Apply(st.mem, Spmc.Cas2(t)), t)
  {
    assert PopperOk(st, t);
    WinMem(st.mem, t, st.ctl.n);
    QuietDues(st.mem, Spmc.Cas2(t), t);
  }

  /** The winning CAS2 is where the pop happens. */
  lemma WinMirrors(st: State, t: Tid)
    requires Helping.WellFormed(Abs(st)) && Enabled(st, Pop(t, Spmc.Cas2(t)))
    requires FrontTaken(st, Spmc.Apply(st.mem, Spmc.Cas2(t)), t)
    ensures Mirrors(st, Pop(t, Spmc.Cas2(t)))
  {
    WinAbs(st, Apply(st, Pop(t, Spmc.Cas2(t))), t, Spmc.Queue(st.mem, st.ctl.threads[t].queryPos));
  }

  lemma WinAbs(st: State, st': State, t: Tid, q: seq<Span>)
    requires Helping.WellFormed(st.ctl) && Helping.WellFormed(Abs(st)) && t < st.ctl.n && Popping(st.ctl.threads[t])
    requires st'.ctl == st.ctl && q != [] && Due(st.mem, t) == None && Due(st'.mem, t) == Some(q[0])
    requires forall u :: u != t ==> Due(st'.mem, u) == Due(st.mem, u)
    requires var l := st.ctl.threads[t].queryPos;
      Queues(st.mem, st.ctl.n)[l] == q && Queues(st'.mem, st.ctl.n) == Queues(st.mem, st.ctl.n)[l := q[1..]]
    ensures Helping.ActEnabled(Abs(st), t, Helping.TakesFront)
    ensures Abs(st') == Helping.ApplyAct(Abs(st), t, Helping.TakesFront)
  {
    OneThreadDiffers(st, st', t);
    assert Abs(st).threads[t] == st.ctl.threads[t];
    TakeFront(Abs(st), t);
  }

  lemma LinkMirrors(st: State, t: Tid)
    requires Matched(st) && Helping.WellFormed(Abs(st)) && Enabled(st, Publish(t, Spmc.EnqPublish(t)))
    requires AbsThreads(Apply(st, Publish(t, Spmc.EnqPublish(t)))) == AbsThreads(st)
    requires Queues(Spmc.Apply(st.mem, Spmc.EnqPublish(t)), st.ctl.n)
          == Queues(st.mem, st.ctl.n)[t := Spmc.Queue(st.mem, t) + [st.mem.enqs[t].span]]
    ensures Mirrors(st, Publish(t, Spmc.EnqPublish(t)))
  {
    assert PublisherOk(st, t);
    NotPopping(st, t);
    LinkAbs(st, Apply(st, Publish(t, Spmc.EnqPublish(t))), t, st.mem.enqs[t].span);
  }

  lemma LinkAbs(st: State, st': State, t: Tid, x: Span)
    requires Helping.WellFormed(Abs(st)) && t < st.ctl.n && AbsThreads(st') == AbsThreads(st)
    requires st.ctl.threads[t].pc.Idle? && AbsThreads(st)[t] == st.ctl.threads[t] && x in st.ctl.outside
    requires st'.ctl == st.ctl.(outside := st.ctl.outside - {x})
    requires Queues(st'.mem, st.ctl.n) == Queues(st.mem, st.ctl.n)[t := Spmc.Queue(st.mem, t) + [x]]
    ensures Helping.Enabled(Abs(st), Helping.Enqueue(t, x))
    ensures Abs(st') == Helping.Apply(Abs(st), Helping.Enqueue(t, x))
  {
  }

  lemma LinkMem(mem: Spmc.State, l: Tid, n: nat)
    requires Spmc.Inv(mem) && Spmc.Enabled(mem, Spmc.EnqPublish(l)) && l < n
    ensures Queues(Spmc.Apply(mem, Spmc.EnqPublish(l)), n)
         == Queues(mem, n)[l := Spmc.Queue(mem, l) + [mem.enqs[l].span]]
  {
    Spmc.PublishAppends(mem, l, |mem.lists[l].enqueued| + 1);
    OneQueueDiffers(mem, Spmc.EnqPublish(l), l, n);
  }

  lemma PublishMirrors(st: State, t: Tid, a: Spmc.Step)
    requires Matched(st) && Spmc.Inv(st.mem) && Helping.WellFormed(Abs(st)) && Enabled(st, Publish(t, a))
    ensures Mirrors(st, Publish(t, a))
  {
    var st' := Apply(st, Publish(t, a));
    forall u | 0 <= u < |st.ctl.threads| ensures Due(st'.mem, u) == Due(st.mem, u) { DueStays(st.mem, a, u); }
    assert AbsThreads(st') == AbsThreads(st);
    if a.EnqPublish? {
      LinkMem(st.mem, t, st.ctl.n);
      LinkMirrors(st, t);
    } else {
      QueuesStay(st.mem, a, st.ctl.n);
    }
  }

  /** The simulation: every access is the step of Helping it stands for, or changes nothing there. */
  lemma StepRefines(st: State, step: Step)
    requires Inv(st) && Enabled(st, step)
    ensures Mirrors(st, step)
  {
    match step
    case Begin(t, qp, hp) => BeginMirrors(st, t, qp, hp);
    case Act(t) => ActMirrors(st, t);
    case Pop(t, a) =>
      var hs := AbsStep(st, step);
      if a.Cas2? { WinTakesFront(st, t); WinMirrors(st, t); }
      else if hs.None? { QuietMirrors(st, t, a); }
      else { ReturnMirrors(st, t, a, hs.value.o); }
    case Publish(t, a) => PublishMirrors(st, t, a);
  }

  // ------------------------------------------------------------------
  // The invariant is kept

  lemma ActKeepsMatched(st: State, t: Tid, ctl': Helping.State, o: Helping.PopOutcome)
    requires Matched(st) && Helping.ActEnabled(st.ctl, t, o) && !o.TakesFront? && ctl' == Helping.ApplyAct(st.ctl, t, o)
    requires t !in st.mem.pops
    ensures Matched(st.(ctl := ctl'))
  {
    Helping.ActOnlyActs(st.ctl, t, o);
    Helping.ActKeepsOutside(st.ctl, t, o);
    var st' := st.(ctl := ctl');
    assert t in st.mem.enqs ==> PublisherOk(st, t);
    forall u | u in st'.mem.pops ensures PopperOk(st', u) { assert PopperOk(st, u); }
    forall l | l in st'.mem.enqs ensures PublisherOk(st', l) { assert PublisherOk(st, l); }
  }

  lemma BeginKeepsMatched(st: State, t: Tid, qp: nat, hp: nat)
    requires Matched(st) && Enabled(st, Begin(t, qp, hp))
    ensures Matched(Apply(st, Begin(t, qp, hp)))
  {
    var st' := Apply(st, Begin(t, qp, hp));
    NotPopping(st, t);
    forall u | u in st'.mem.pops ensures PopperOk(st', u) { assert PopperOk(st, u); }
    forall l | l in st'.mem.enqs ensures PublisherOk(st', l) { assert PublisherOk(st, l); }
  }

  /** The accesses of t's pop leave the lists' names and everybody else's pops and enqueues alone. */
  lemma PopFrame(mem: Spmc.State, a: Spmc.Step)
    requires Spmc.Enabled(mem, a) && !IsEnqueue(a)
    ensures var mem' := Spmc.Apply(mem, a);
      && mem'.enqs == mem.enqs && mem'.lists.Keys == mem.lists.Keys
      && (forall u :: u in mem'.pops && u != a.t ==> u in mem.pops && mem'.pops[u] == mem.pops[u])
      && (a.t in mem'.pops && a.t in mem.pops ==> mem'.pops[a.t].l == mem.pops[a.t].l)
      && (a.t in mem'.pops && a.t !in mem.pops ==> (a.LoadPtr? || a.LoadVersion?) && mem'.pops[a.t].l == a.l)
  {
    var mem' := Spmc.Apply(mem, a);
    if a.Cas2? || a.ReadSpan? { assert mem.pops[a.t].l in mem.lists; }
    assert mem'.lists.Keys == mem.lists.Keys;
  }

  lemma EnqueueFrame(mem: Spmc.State, a: Spmc.Step)
    requires Spmc.Enabled(mem, a) && IsEnqueue(a) && a.l in mem.lists
    ensures var mem' := Spmc.Apply(mem, a);
      && mem'.pops == mem.pops && mem'.lists.Keys == mem.lists.Keys
      && (forall k :: k in mem'.enqs && k != a.l ==> k in mem.enqs && mem'.enqs[k] == mem.enqs[k])
      && (a.l in mem'.enqs ==> mem'.enqs[a.l].span == if a.EnqTake? then a.span else mem.enqs[a.l].span)
      && (a.EnqPublish? ==> a.l !in mem'.enqs)
  {
    assert Spmc.Apply(mem, a).lists.Keys == mem.lists.Keys;
  }

  /** t's pop goes on: it is at the same control point, or has just come back with a span. */
  lemma MemKeepsMatched(st: State, t: Tid, a: Spmc.Step)
    requires Matched(st) && Enabled(st, Pop(t, a)) && !a.HandOff?
    ensures Matched(st.(mem := Spmc.Apply(st.mem, a)))
  {
    var st' := st.(mem := Spmc.Apply(st.mem, a));
    PopFrame(st.mem, a);
    forall u | u in st'.mem.pops ensures PopperOk(st', u) { assert u in st.mem.pops ==> PopperOk(st, u); }
    forall l | l in st'.mem.enqs ensures PublisherOk(st', l) { assert PublisherOk(st, l); }
    forall l: nat ensures l in st'.mem.lists <==> l < st.ctl.n {
      assert l in st'.mem.lists.Keys <==> l in st.mem.lists.Keys;
    }
  }

  lemma HandOffKeepsMatched(st: State, t: Tid, a: Spmc.Step)
    requires Matched(st) && Enabled(st, Pop(t, a)) && a.HandOff?
    ensures Matched(Apply(st, Pop(t, a)))
  {
    var st' := Apply(st, Pop(t, a));
    PopFrame(st.mem, a);
    assert t !in st'.mem.pops;
    forall u | u in st'.mem.pops ensures PopperOk(st', u) { assert PopperOk(st, u); }
    forall l | l in st'.mem.enqs ensures PublisherOk(st', l) { assert PublisherOk(st, l); }
    forall l: nat ensures l in st'.mem.lists <==> l < st.ctl.n {
      assert l in st'.mem.lists.Keys <==> l in st.mem.lists.Keys;
    }
  }

  lemma PopKeepsMatched(st: State, t: Tid, a: Spmc.Step)
    requires Matched(st) && Enabled(st, Pop(t, a))
    ensures Matched(Apply(st, Pop(t, a)))
  {
    if a.HandOff? {
      HandOffKeepsMatched(st, t, a);
    } else {
      MemKeepsMatched(st, t, a);
      var mid := st.(mem := Spmc.Apply(st.mem, a));
      var hs := AbsStep(st, Pop(t, a));
      if hs.Some? && !a.Cas2? { ActKeepsMatched(mid, t, Helping.ApplyAct(st.ctl, t, hs.value.o), hs.value.o); }
    }
  }

  /** No two producers are publishing the same span. */
  lemma PublishersApart(mem: Spmc.State, k: Tid, l: Tid)
    requires Spmc.SpansPlaced(mem) && k in mem.enqs && l in mem.enqs && mem.enqs[k].span == mem.enqs[l].span
    ensures k == l
  {
    assert Spmc.SpanAt(mem, Spmc.Entering(k), mem.enqs[k].span) && Spmc.SpanAt(mem, Spmc.Entering(l), mem.enqs[k].span);
  }

  lemma PublishKeepsMatched(st: State, t: Tid, a: Spmc.Step)
    requires Matched(st) && Spmc.SpansPlaced(st.mem) && Enabled(st, Publish(t, a))
    ensures Matched(Apply(st, Publish(t, a)))
  {
    var st' := Apply(st, Publish(t, a));
    EnqueueFrame(st.mem, a);
    forall u | u in st'.mem.pops ensures PopperOk(st', u) { assert PopperOk(st, u); }
    forall l | l in st'.mem.enqs ensures PublisherOk(st', l) {
      if l in st.mem.enqs {
        assert PublisherOk(st, l);
        if a.EnqPublish? && st.mem.enqs[l].span == st.mem.enqs[t].span { PublishersApart(st.mem, l, t); }
      }
    }
    forall l: nat ensures l in st'.mem.lists <==> l < st.ctl.n {
      assert l in st'.mem.lists.Keys <==> l in st.mem.lists.Keys;
    }
  }

  lemma StepKeepsMatched(st: State, step: Step)
    requires Matched(st) && Spmc.SpansPlaced(st.mem) && Enabled(st, step)
    ensures Matched(Apply(st, step))
  {
    match step
    case Begin(t, qp, hp) => BeginKeepsMatched(st, t, qp, hp);
    case Act(t) =>
      NotPopping(st, t);
      ActKeepsMatched(st, t, Helping.ApplyAct(st.ctl, t, Helping.SeesEmpty), Helping.SeesEmpty);
    case Pop(t, a) => PopKeepsMatched(st, t, a);
    case Publish(t, a) => PublishKeepsMatched(st, t, a);
  }

  lemma StepKeepsMem(st: State, step: Step)
    requires Spmc.Inv(st.mem) && Enabled(st, step)
    ensures Spmc.Inv(Apply(st, step).mem)
  {
    if step.Pop? || step.Publish? { Spmc.StepKeepsInv(st.mem, step.a); }
  }

  lemma AbsStepKeepsInv(z: Helping.State, hs: Helping.Step)
    requires Helping.Inv(z) && Helping.Enabled(z, hs)
    ensures Helping.Inv(Helping.Apply(z, hs))
  {
    Helping.StepKeepsThreads(z, hs);
    Helping.StepKeepsCustody(z, hs);
  }

  lemma StepKeepsInv(st: State, step: Step)
    requires Inv(st) && Enabled(st, step)
    ensures Inv(Apply(st, step))
  {
    StepKeepsMatched(st, step);
    StepKeepsMem(st, step);
    StepRefines(st, step);
    var hs := AbsStep(st, step);
    if hs.Some? { AbsStepKeepsInv(Abs(st), hs.value); }
  }

  // ------------------------------------------------------------------
  // Runs

  ghost predicate IsRun(run: seq<State>, steps: seq<Step>) {
    && |run| == |steps| + 1
    && Init(run[0])
    && forall i :: 0 <= i < |steps| ==> Enabled(run[i], steps[i]) && run[i + 1] == Apply(run[i], steps[i])
  }

  lemma InitHasInv(st: State)
    requires Init(st)
    ensures Inv(st) && Helping.Init(Abs(st))
  {
    Spmc.InitHasInv(st.mem);
    assert AbsThreads(st) == st.ctl.threads;
    forall l | 0 <= l < st.ctl.n ensures Spmc.Queue(st.mem, l) == [] { assert l in st.mem.lists; }
    assert Queues(st.mem, st.ctl.n) == st.ctl.lists;
    Helping.InitHasInv(st.ctl);
  }

  /** Every run of the two together is, seen through Abs, a run of Helping alone. */
  lemma {:induction false} RunRefines(run: seq<State>, steps: seq<Step>, i: nat)
    returns (hrun: seq<Helping.State>, hsteps: seq<Helping.Step>)
    requires IsRun(run, steps) && i < |run|
    ensures Inv(run[i])
    ensures Helping.IsRun(hrun, hsteps) && hrun[|hsteps|] == Abs(run[i])
  {
    if i == 0 {
      InitHasInv(run[0]);
      hrun, hsteps := [Abs(run[0])], [];
    } else {
      hrun, hsteps := RunRefines(run, steps, i - 1);
      StepKeepsInv(run[i - 1], steps[i - 1]);
      StepRefines(run[i - 1], steps[i - 1]);
      var hs := AbsStep(run[i - 1], steps[i - 1]);
      if hs.Some? { hrun, hsteps := OneMore(hrun, hsteps, hs.value); }
    }
  }

  lemma OneMore(hrun: seq<Helping.State>, hsteps: seq<Helping.Step>, hs: Helping.Step)
    returns (hrun': seq<Helping.State>, hsteps': seq<Helping.Step>)
    requires Helping.IsRun(hrun, hsteps) && Helping.Enabled(hrun[|hsteps|], hs)
    ensures Helping.IsRun(hrun', hsteps') && hrun'[|hsteps'|] == Helping.Apply(hrun[|hsteps|], hs)
  {
    hrun', hsteps' := hrun + [Helping.Apply(hrun[|hsteps|], hs)], hsteps + [hs];
  }

  /**
   Custody down to the nodes: in every state of every run of acquirers, helpers and publishers,
   each span is in exactly one of the chain of one list, a completed record, a thread that holds it
   or has won it, a value on its way back, or a caller's hands.
   */
  lemma SpanCustodyInMemory(run: seq<State>, steps: seq<Step>, i: nat, x: Span)
    requires IsRun(run, steps) && i < |run| && x in run[i].ctl.spans
    ensures exists p :: Helping.Holds(Abs(run[i]), p, x) && forall q :: Helping.Holds(Abs(run[i]), q, x) ==> q == p
    ensures forall l: nat, fuel: nat |
        l < run[i].ctl.n && l in run[i].mem.lists && fuel >= |run[i].mem.lists[l].enqueued| ::
      Spmc.Found(run[i].mem, l, fuel) == Spmc.Somes(Abs(run[i]).lists[l])
  {
    var hrun, hsteps := RunRefines(run, steps, i);
    Helping.SpanCustody(hrun, hsteps, |hsteps|, x);
    forall l: nat, fuel: nat | l < run[i].ctl.n && l in run[i].mem.lists && fuel >= |run[i].mem.lists[l].enqueued|
      ensures Spmc.Found(run[i].mem, l, fuel) == Spmc.Somes(Abs(run[i]).lists[l])
    {
      assert Spmc.ListOk(run[i].mem, l);
      Spmc.WalkIsQueue(run[i].mem, l, fuel);
    }
  }

  /** The access a thread inside a call can always make next, alone if need be. */
  ghost function NextStep(st: State, t: Tid): Step
    requires t < |st.ctl.threads|
  {
    if !Popping(st.ctl.threads[t]) then Act(t)
    else if t !in st.mem.pops then Pop(t, Spmc.LoadPtr(t, st.ctl.threads[t].queryPos))
    else match st.mem.pops[t]
      case HasPtr(_, _) => Pop(t, Spmc.LoadOtherHalf(t))
      case HasVersion(_, _) => Pop(t, Spmc.LoadOtherHalf(t))
      case HasHead(_, _, _) => Pop(t, Spmc.LoadNext(t))
      case HasNext(_, _, _, _) => Pop(t, Spmc.Cas2Fail(t))
      case Won(_, _, _, _) => Pop(t, Spmc.ReadSpan(t))
      case HasSpan(_, _, _, _) => Pop(t, Spmc.HandOff(t))
  }

  /** Wait-freedom down to the nodes: in every state of every run a thread inside a call can go on,
      and its counters, the accesses of a won pop included, are within their bounds. */
  lemma WaitFreeInMemory(run: seq<State>, steps: seq<Step>, i: nat, t: Tid)
    requires IsRun(run, steps) && i < |run| && t < run[i].ctl.n
    ensures t < |run[i].ctl.threads| && (!run[i].ctl.threads[t].pc.Idle? ==> Enabled(run[i], NextStep(run[i], t)))
    ensures Helping.Bounds(run[i].ctl.n, run[i].ctl.budget, Abs(run[i]).threads[t])
  {
    var hrun, hsteps := RunRefines(run, steps, i);
    Helping.WaitFreeBound(hrun, hsteps, |hsteps|, t);
    Helping.NeverBlocked(hrun, hsteps, |hsteps|, t);
    if !run[i].ctl.threads[t].pc.Idle? { CanGoOn(run[i], t); }
  }

  lemma CanGoOn(st: State, t: Tid)
    requires Matched(st) && Spmc.PopsOk(st.mem) && t < st.ctl.n && !st.ctl.threads[t].pc.Idle?
    requires Helping.ActEnabled(Abs(st), t, Helping.SeesEmpty)
    ensures Enabled(st, NextStep(st, t))
  {
    if Popping(st.ctl.threads[t]) { PopCanGoOn(st, t); } else { NotPopping(st, t); }
  }

  lemma PopCanGoOn(st: State, t: Tid)
    requires Helping.WellFormed(st.ctl) && t < st.ctl.n && Popping(st.ctl.threads[t])
    requires st.ctl.threads[t].queryPos in st.mem.lists
    requires t in st.mem.pops ==> Spmc.PopOk(st.mem, t)
    ensures Enabled(st, NextStep(st, t))
  {
  }
}
