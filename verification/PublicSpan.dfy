/**
 One small span in both its lives at once: its owner word and blocks (`SpanLife`) and its way
 through the public lists, help records and held slots (`Helping`).  Publishing is one step in
 both, and so is the return of the span from an acquisition.
 */
module PublicSpan {
  import Helping
  import SpanLife

  type Tid = nat

  /** `x` names the span in the lists; `life` is its header and blocks. */
  datatype State = State(x: Helping.Span, lists: Helping.State, life: SpanLife.State)

  datatype Step =
    | Lists(h: Helping.Step)
    | Life(v: SpanLife.Step)
    | Publish(t: Tid, surplus: bool)
    | Obtain(t: Tid, o: Helping.PopOutcome)

  /** The action of thread t by which its acquisition returns the span to its caller. */
  ghost predicate Returns(s: State, h: Helping.Step)
    requires Helping.Enabled(s.lists, h)
  {
    h.Act? && s.x !in s.lists.outside && s.x in Helping.Apply(s.lists, h).outside
  }

  ghost predicate AtEnqueue(v: SpanLife.State, t: Tid) {
    t in v.pcs && v.pcs[t].EnqueuePublic?
  }

  /** A thread is in one place of its program: it acts on the span's header only outside the
      acquisition protocol. */
  ghost predicate Enabled(s: State, step: Step) {
    && Helping.WellFormed(s.lists)
    && match step
       case Lists(h) =>
         && h.t !in s.life.pcs && Helping.Enabled(s.lists, h)
         && !(h.Enqueue? && h.x == s.x) && !Returns(s, h)
       case Life(v) =>
         && v.t < s.lists.n && s.lists.threads[v.t].pc.Idle? && SpanLife.Enabled(s.life, v)
         && !v.StartAcquire? && !(v.Act? && AtEnqueue(s.life, v.t))
       case Publish(t, surplus) => AtEnqueue(s.life, t) && Helping.Enabled(s.lists, Helping.Enqueue(t, s.x))
       case Obtain(t, o) =>
         && t !in s.life.pcs && Helping.Enabled(s.lists, Helping.Act(t, o)) && Returns(s, Helping.Act(t, o))
         && SpanLife.Enabled(s.life, SpanLife.StartAcquire(t))
  }

  ghost function Apply(s: State, step: Step): State
    requires Enabled(s, step)
  {
    match step
    case Lists(h) => s.(lists := Helping.Apply(s.lists, h))
    case Life(v) => s.(life := SpanLife.Apply(s.life, v))
    case Publish(t, surplus) =>
      s.(lists := Helping.Apply(s.lists, Helping.Enqueue(t, s.x)),
        life := SpanLife.Apply(s.life, SpanLife.Act(t, surplus)))
    case Obtain(t, o) =>
      s.(lists := Helping.Apply(s.lists, Helping.Act(t, o)), life := SpanLife.Apply(s.life, SpanLife.StartAcquire(t)))
  }

  ghost predicate Init(s: State) {
    && Helping.Init(s.lists) && SpanLife.Init(s.life)
    && s.x in s.lists.spans && s.life.owner.t < s.lists.n
  }

  // ------------------------------------------------------------------
  // The link

  /** A thread busy with the header is outside any acquisition. */
  ghost predicate Busy(s: State) {
    forall t :: t in s.life.pcs ==> t < |s.lists.threads| && s.lists.threads[t].pc.Idle?
  }

  ghost predicate Linked(s: State) {
    Busy(s) && s.x in s.lists.spans && (s.x in s.lists.outside <==> s.life.place != SpanLife.InPublic)
  }

  ghost predicate Inv(s: State) {
    Helping.Inv(s.lists) && SpanLife.Inv(s.life) && Linked(s)
  }

  lemma LifeMovesOne(v: SpanLife.State, step: SpanLife.Step)
    requires SpanLife.Enabled(v, step)
    ensures SpanLife.OnlyPc(v, SpanLife.Apply(v, step), step.t)
  {
    if step.Act? { SpanLife.ActMovesOne(v, step.t, step.surplus); }
  }

  /** The steps of a free leave the public place alone: a claim needs an ownerless span. */
  lemma OutsiderKeepsPlace(v: SpanLife.State, t: Tid, surplus: bool)
    requires SpanLife.Ownership(v) && t in v.pcs && !SpanLife.Listed(v.pcs[t]) && !SpanLife.InHand(v.pcs[t])
    ensures SpanLife.ApplyAct(v, t, surplus).place == SpanLife.InPublic <==> v.place == SpanLife.InPublic
  {
  }

  /** The owner's steps neither start nor end at it, except the enqueue. */
  lemma OwnerKeepsPlace(v: SpanLife.State, t: Tid, surplus: bool)
    requires SpanLife.Ownership(v) && SpanLife.Enabled(v, SpanLife.Act(t, surplus))
    requires (SpanLife.Listed(v.pcs[t]) || SpanLife.InHand(v.pcs[t])) && !v.pcs[t].EnqueuePublic?
    ensures v.place != SpanLife.InPublic && SpanLife.ApplyAct(v, t, surplus).place != SpanLife.InPublic
  {
  }

  /** An action on the header that neither publishes nor acquires leaves the public place alone. */
  lemma LifeKeepsPlace(v: SpanLife.State, step: SpanLife.Step)
    requires SpanLife.Ownership(v) && SpanLife.Enabled(v, step)
    requires !step.StartAcquire? && !(step.Act? && AtEnqueue(v, step.t))
    ensures var v' := SpanLife.Apply(v, step);
      && (v'.place == SpanLife.InPublic <==> v.place == SpanLife.InPublic)
      && (forall u :: u in v'.pcs ==> u in v.pcs || u == step.t)
  {
    LifeMovesOne(v, step);
    if step.Act? {
      if SpanLife.Listed(v.pcs[step.t]) || SpanLife.InHand(v.pcs[step.t]) {
        OwnerKeepsPlace(v, step.t, step.surplus);
      } else {
        OutsiderKeepsPlace(v, step.t, step.surplus);
      }
    }
  }

  lemma ListsKeepOutside(s: State, h: Helping.Step)
    requires Enabled(s, Lists(h)) && h.t < s.lists.n
    ensures var l' := Helping.Apply(s.lists, h);
      && (s.x in l'.outside <==> s.x in s.lists.outside) && l'.spans == s.lists.spans
      && |l'.threads| == |s.lists.threads|
      && (forall u :: 0 <= u < |l'.threads| && u != h.t ==> l'.threads[u] == s.lists.threads[u])
  {
    if h.Act? {
      Helping.ActKeepsOutside(s.lists, h.t, h.o);
      Helping.ActOnlyActs(s.lists, h.t, h.o);
    }
  }

  lemma ObtainEnds(s: State, t: Tid, o: Helping.PopOutcome)
    requires Enabled(s, Obtain(t, o))
    ensures var l' := Helping.Apply(s.lists, Helping.Act(t, o));
      && l'.spans == s.lists.spans && |l'.threads| == |s.lists.threads| && t < |l'.threads| && l'.threads[t].pc.Idle?
      && (forall u :: 0 <= u < |l'.threads| && u != t ==> l'.threads[u] == s.lists.threads[u])
  {
    Helping.ActKeepsOutside(s.lists, t, o);
    Helping.ActOnlyActs(s.lists, t, o);
  }

  lemma StepKeepsLinked(s: State, step: Step)
    requires Linked(s) && SpanLife.Ownership(s.life) && Enabled(s, step)
    ensures Linked(Apply(s, step))
  {
    match step
    case Lists(h) => ListsKeepOutside(s, h);
    case Life(v) => LifeKeepsPlace(s.life, v);
    case Publish(t, surplus) =>
    case Obtain(t, o) => ObtainEnds(s, t, o);
  }

  lemma ListsStepKeepsInv(l: Helping.State, h: Helping.Step)
    requires Helping.Inv(l) && Helping.Enabled(l, h)
    ensures Helping.Inv(Helping.Apply(l, h))
  {
    Helping.StepKeepsThreads(l, h);
    Helping.StepKeepsCustody(l, h);
  }

  lemma StepKeepsInv(s: State, step: Step)
    requires Inv(s) && Enabled(s, step)
    ensures Inv(Apply(s, step))
  {
    StepKeepsLinked(s, step);
    match step
    case Lists(h) => ListsStepKeepsInv(s.lists, h);
    case Life(v) => SpanLife.StepKeepsInv(s.life, v);
    case Publish(t, surplus) =>
      ListsStepKeepsInv(s.lists, Helping.Enqueue(t, s.x));
      SpanLife.StepKeepsInv(s.life, SpanLife.Act(t, surplus));
    case Obtain(t, o) =>
      ListsStepKeepsInv(s.lists, Helping.Act(t, o));
      SpanLife.StepKeepsInv(s.life, SpanLife.StartAcquire(t));
  }

  // ------------------------------------------------------------------
  // Runs

  ghost predicate IsRun(run: seq<State>, steps: seq<Step>) {
    && |run| == |steps| + 1
    && Init(run[0])
    && forall i :: 0 <= i < |steps| ==> Enabled(run[i], steps[i]) && run[i + 1] == Apply(run[i], steps[i])
  }

  lemma {:induction false} RunKeepsInv(run: seq<State>, steps: seq<Step>, i: nat)
    requires IsRun(run, steps) && i < |run|
    ensures Inv(run[i])
  {
    if i == 0 {
      Helping.InitHasInv(run[0].lists);
      SpanLife.InitHasInv(run[0].life);
    } else {
      RunKeepsInv(run, steps, i - 1);
      StepKeepsInv(run[i - 1], steps[i - 1]);
    }
  }

  /** The two halves never wait for each other: a publisher can always enqueue, and a span an
      acquisition is about to return can always be taken over by that thread. */
  lemma NeitherBlocks(run: seq<State>, steps: seq<Step>, i: nat, t: Tid, o: Helping.PopOutcome)
    requires IsRun(run, steps) && i < |run|
    ensures var s := run[i];
      && (AtEnqueue(s.life, t) ==> Enabled(s, Publish(t, false)))
      && (t !in s.life.pcs && Helping.Enabled(s.lists, Helping.Act(t, o)) && Returns(s, Helping.Act(t, o)) ==>
            Enabled(s, Obtain(t, o)))
  {
    RunKeepsInv(run, steps, i);
    var s := run[i];
    assert AtEnqueue(s.life, t) ==> SpanLife.InHand(s.life.pcs[t]) && s.life.place == SpanLife.InHands(t);
  }

  /** A place of the span in the acquisition protocol: a list, a record, a held slot or a value
      on its way to the caller. */
  ghost predicate InProtocol(s: State, p: Helping.Place) {
    p != Helping.Outside && Helping.Holds(s.lists, p, s.x)
  }

  /**
   What OWNER_PUBLIC means: in every state of every run, the span is in exactly one public list,
   record, held slot or return value if and only if its place is public, and then nobody owns it,
   all its blocks are free and no thread is freeing one.  The word also says PUBLIC while one thread
   has it in hand to enqueue it, or has got it and not yet stored its own id.
   */
  lemma PublicMeansInProtocol(run: seq<State>, steps: seq<Step>, i: nat)
    requires IsRun(run, steps) && i < |run|
    ensures var s := run[i];
      && (s.life.place == SpanLife.InPublic <==> exists p :: InProtocol(s, p))
      && (forall p, q :: InProtocol(s, p) && InProtocol(s, q) ==> p == q)
      && ((exists p :: InProtocol(s, p)) ==>
            s.life.owner == SpanLife.Public && s.life.inUse == {} && SpanLife.Uncounted(s.life) == {}
              && s.life.local != [])
      && (s.life.owner == SpanLife.Public ==>
            || (exists p :: InProtocol(s, p))
            || exists t :: t in s.life.pcs && (s.life.pcs[t].EnqueuePublic? || s.life.pcs[t].AcquireOwn?))
  {
    RunKeepsInv(run, steps, i);
    var s := run[i];
    var p :| Helping.Holds(s.lists, p, s.x);
    assert forall q :: Helping.Holds(s.lists, q, s.x) ==> q == p;
    assert Helping.Holds(s.lists, Helping.Outside, s.x) <==> s.x in s.lists.outside;
    if p != Helping.Outside { assert InProtocol(s, p); }
    assert s.life.place == SpanLife.InPublic ==> s.life.owner == SpanLife.Public;
    PublicPlace(s.life);
  }

  lemma PublicPlace(v: SpanLife.State)
    requires SpanLife.Ownership(v)
    ensures v.owner == SpanLife.Public ==>
      || v.place == SpanLife.InPublic
      || exists t :: t in v.pcs && (v.pcs[t].EnqueuePublic? || v.pcs[t].AcquireOwn?)
  {
    if v.owner == SpanLife.Public && v.place.InHands? {
      var t := v.place.t;
      assert t in v.pcs && SpanLife.InHand(v.pcs[t]);
    }
  }
}
