/**
 Bounded helping acquisition from the public lists (src/acquire.rs, src/help_record.rs).

 `n` threads share n public lists and n help records of one size or run class.  One
 step is one atomic action of one thread, taken from the control point that
 thread has reached in `acquire_from_lists`; a pop is one step that takes the front
 of a FIFO list, reports Empty (also on a non-empty list: the consumer may hold a
 recycled node) or fails.  Phases are encoded in a word and so are taken modulo
 2^63: nothing here needs them to be unique.
 */
module Helping {
  import opened Wrappers

  type Span = nat
  type Tid = nat

  const PHASES: nat := 0x8000_0000_0000_0000

  /** A help record, decoded; module HelpRecord has the one-word encoding. */
  datatype Record = Empty | Pending(phase: nat) | Done(span: Span)

  /** Inside `help_finishing_req`: before its first load, its second, its pop, its CAS. */
  datatype Call = First | Second(p: nat) | TryPop(p: nat) | Complete(p: nat)

  /** Where a thread is in `acquire_from_lists`.  `Stash` is the store of `finish_with`. */
  datatype Pc =
    | Idle
    | ReclaimEarlier
    | PublishRequest
    | HelpLoad
    | HelpCall(call: Call)
    | QueryLoad
    | QueryCall(call: Call)
    | ReclaimCompleted
    | ReclaimOwn
    | ClearRequest
    | ReclaimLast
    | Stash(ret: Option<Span>)

  /** A thread's locals.  `direct` records that a held span was returned without going
      through the record (lines 220 and 247 of src/acquire.rs); `actions` counts the
      atomic accesses of the current call to records, lists and nodes (see Cost), the others
      are the StepCounter fields. */
  datatype Thread = Thread(
    pc: Pc,
    held: Option<Span>,
    queryPos: nat,
    helping: nat,
    helpCount: nat,
    helpQuery: nat,
    lastPhase: nat,
    phase: nat,
    helpSteps: nat,
    querySteps: nat,
    cas2: nat,
    cas: nat,
    swaps: nat,
    actions: nat,
    direct: bool)

  /** `budget` is H; `outside` are the spans in callers' hands. */
  datatype State = State(
    n: nat,
    budget: nat,
    spans: set<Span>,
    lists: seq<seq<Span>>,
    records: seq<Record>,
    threads: seq<Thread>,
    outside: set<Span>)

  datatype PopOutcome = TakesFront | SeesEmpty | Fails

  datatype Step =
    | Begin(t: Tid, queryPos: nat, helping: nat)
    | Enqueue(t: Tid, x: Span)
    | Act(t: Tid, o: PopOutcome)

  predicate WellFormed(s: State) {
    && s.n >= 1
    && |s.lists| == s.n && |s.records| == s.n && |s.threads| == s.n
    && forall t :: 0 <= t < s.n ==> s.threads[t].queryPos < s.n && s.threads[t].helping < s.n
  }

  // ------------------------------------------------------------------
  // Local control flow

  /** Top of the query loop; an iteration is counted when it is entered. */
  function QueryTop(n: nat, th: Thread): Thread {
    if th.helpQuery < n then th.(pc := QueryLoad, querySteps := th.querySteps + 1)
    else th.(pc := ClearRequest)
  }

  /** Top of the help loop. */
  function HelpTop(n: nat, budget: nat, th: Thread): Thread {
    if th.helpCount < budget && th.helpQuery < n then th.(pc := HelpLoad, helpSteps := th.helpSteps + 1)
    else QueryTop(n, th)
  }

  /** `help_finishing_req` returned to the loop it was called from. */
  function CallReturns(n: nat, budget: nat, th: Thread, listIsNull: bool): Thread
    requires n >= 1
  {
    if listIsNull then
      var th' := th.(helpQuery := th.helpQuery + 1, queryPos := (th.queryPos + 1) % n);
      if th.pc.HelpCall? then HelpTop(n, budget, th') else QueryTop(n, th')
    else if th.pc.HelpCall? then HelpCounted(n, budget, th)
    else th.(pc := ReclaimOwn)
  }

  /** One more request looked at. */
  function HelpCounted(n: nat, budget: nat, th: Thread): Thread
    requires n >= 1
  {
    HelpTop(n, budget, th.(helpCount := th.helpCount + 1, helping := (th.helping + 1) % n))
  }

  function AtCall(th: Thread, c: Call): Thread {
    th.(pc := if th.pc.HelpCall? then HelpCall(c) else QueryCall(c))
  }

  /** The record a call works on: the helped thread's, or one's own. */
  function Target(th: Thread, t: Tid): Tid {
    if th.pc.HelpCall? then th.helping else t
  }

  // ------------------------------------------------------------------
  // Atomic actions

  function SetThread(s: State, t: Tid, th: Thread): State
    requires t < |s.threads|
  {
    s.(threads := s.threads[t := th])
  }

  /** The call returns `ret` to the caller. */
  function Return(s: State, t: Tid, th: Thread, ret: Option<Span>): State
    requires t < |s.threads|
  {
    SetThread(s, t, th.(pc := Idle)).(outside := if ret.Some? then s.outside + {ret.value} else s.outside)
  }

  /** `finish_with`: stash a held span first. */
  function FinishWith(s: State, t: Tid, th: Thread, ret: Option<Span>): State
    requires t < |s.threads|
  {
    if th.held.Some? then SetThread(s, t, th.(pc := Stash(ret))) else Return(s, t, th, ret)
  }

  /** What `reclaim_request` returns for the record it swapped out. */
  function SpanOf(r: Record): Option<Span> {
    if r.Done? then Some(r.span) else None
  }

  /** The atomic accesses one step stands for: publishing bumps the phase counter and stores the
      record; a pop loads both halves of the head word and `next`, tries its CAS2 and, if it
      wins, loads the span and hands the node over. */
  function Cost(pc: Pc, o: PopOutcome): nat {
    if pc.PublishRequest? then 2
    else if (pc.HelpCall? || pc.QueryCall?) && pc.call.TryPop? then
      (match o case TakesFront => 6 case SeesEmpty => 3 case Fails => 4)
    else 1
  }

  /** The actor's locals, its accesses counted. */
  function Acting(s: State, t: Tid, o: PopOutcome): Thread
    requires t < |s.threads|
  {
    s.threads[t].(actions := s.threads[t].actions + Cost(s.threads[t].pc, o))
  }

  predicate ActEnabled(s: State, t: Tid, o: PopOutcome) {
    && WellFormed(s) && t < s.n
    && var th := s.threads[t];
       && !th.pc.Idle?
       && (o.TakesFront? && (th.pc.HelpCall? || th.pc.QueryCall?) && th.pc.call.TryPop? ==> s.lists[th.queryPos] != [])
       && ((th.pc.HelpCall? || th.pc.QueryCall?) && th.pc.call.Complete? ==> th.held.Some?)
       && (th.pc.Stash? ==> th.held.Some?)
  }

  /** The next atomic action inside `help_finishing_req`; `o` matters only to the pop. */
  function ActCall(s: State, t: Tid, th: Thread, o: PopOutcome): State
    requires WellFormed(s) && t < s.n && (th.pc.HelpCall? || th.pc.QueryCall?)
    requires th.queryPos < s.n && th.helping < s.n
    requires o.TakesFront? && th.pc.call.TryPop? ==> s.lists[th.queryPos] != []
    requires th.pc.call.Complete? ==> th.held.Some?
  {
    var u := Target(th, t);
    match th.pc.call
    case First =>
      if s.records[u].Pending? then SetThread(s, t, AtCall(th, Second(s.records[u].phase)))
      else SetThread(s, t, CallReturns(s.n, s.budget, th, false))
    case Second(p) =>
      if s.records[u] == Pending(p) then
        SetThread(s, t, AtCall(th, if th.held.None? then TryPop(p) else Complete(p)))
      else SetThread(s, t, CallReturns(s.n, s.budget, th, false))
    case TryPop(p) =>
      (match o
       case TakesFront =>
         var q := s.lists[th.queryPos];
         var th' := AtCall(th.(held := Some(q[0]), cas2 := th.cas2 + 1), Complete(p));
         SetThread(s, t, th').(lists := s.lists[th.queryPos := q[1..]])
       case SeesEmpty => SetThread(s, t, CallReturns(s.n, s.budget, th, true))
       case Fails => SetThread(s, t, CallReturns(s.n, s.budget, th.(cas2 := th.cas2 + 1), false)))
    case Complete(p) =>
      var th' := th.(cas := th.cas + 1);
      if s.records[u] == Pending(p) then
        SetThread(s, t, CallReturns(s.n, s.budget, th'.(held := None), false)).(
          records := s.records[u := Done(th.held.value)])
      else SetThread(s, t, CallReturns(s.n, s.budget, th', false))
  }

  /** The next atomic action of a thread inside `acquire_from_lists`. */
  function ApplyAct(s: State, t: Tid, o: PopOutcome): State
    requires ActEnabled(s, t, o)
  {
    var th := Acting(s, t, o);
    var mine := s.records[t];
    match th.pc
    case Idle => s
    case ReclaimEarlier =>
      var s', th' := s.(records := s.records[t := Empty]), th.(swaps := th.swaps + 1);
      if mine.Done? then Return(s', t, th', SpanOf(mine)) else SetThread(s', t, th'.(pc := PublishRequest))
    case PublishRequest =>
      var phase := (th.lastPhase + 1) % (2 * PHASES);
      var th' := th.(lastPhase := phase, phase := phase % PHASES, helpCount := 0, helpQuery := 0);
      SetThread(s, t, HelpTop(s.n, s.budget, th')).(records := s.records[t := Pending(phase % PHASES)])
    case HelpLoad =>
      if s.records[th.helping].Pending? then SetThread(s, t, th.(pc := HelpCall(First)))
      else SetThread(s, t, HelpCounted(s.n, s.budget, th))
    case HelpCall(_) => ActCall(s, t, th, o)
    case QueryLoad =>
      if mine.Pending? then SetThread(s, t, th.(pc := QueryCall(First)))
      else SetThread(s, t, th.(pc := ReclaimCompleted))
    case QueryCall(_) => ActCall(s, t, th, o)
    case ReclaimCompleted =>
      FinishWith(s.(records := s.records[t := Empty]), t, th.(swaps := th.swaps + 1), SpanOf(mine))
    case ReclaimOwn =>
      var s', th' := s.(records := s.records[t := Empty]), th.(swaps := th.swaps + 1);
      if mine.Done? then FinishWith(s', t, th', SpanOf(mine))
      else if th.held.Some? then Return(s', t, th'.(held := None, direct := true), th.held)
      else SetThread(s', t, QueryTop(s.n, th'.(helpQuery := th.helpQuery + 1, queryPos := (th.queryPos + 1) % s.n)))
    case ClearRequest =>
      SetThread(s, t, th.(pc := ReclaimLast, cas := th.cas + 1)).(records :=
        if mine == Pending(th.phase) then s.records[t := Empty] else s.records)
    case ReclaimLast =>
      var s', th' := s.(records := s.records[t := Empty]), th.(swaps := th.swaps + 1);
      if mine.Done? then FinishWith(s', t, th', SpanOf(mine))
      else if th.held.Some? then Return(s', t, th'.(held := None, direct := true), th.held)
      else Return(s', t, th', None)
    case Stash(ret) =>
      Return(s.(records := s.records[t := Done(th.held.value)]), t, th.(held := None), ret)
  }

  predicate Enabled(s: State, step: Step) {
    match step
    case Begin(t, qp, hp) => WellFormed(s) && t < s.n && s.threads[t].pc.Idle?
    case Enqueue(t, x) => WellFormed(s) && t < s.n && s.threads[t].pc.Idle? && x in s.outside
    case Act(t, o) => ActEnabled(s, t, o)
  }

  /** `Begin` starts a call with whatever positions the last call left; `Enqueue` is the
      owner publishing a span it holds to its own list. */
  function Apply(s: State, step: Step): State
    requires Enabled(s, step)
  {
    match step
    case Begin(t, qp, hp) =>
      SetThread(s, t, s.threads[t].(pc := ReclaimEarlier, held := None, queryPos := qp % s.n, helping := hp % s.n,
        helpCount := 0, helpQuery := 0, helpSteps := 0, querySteps := 0, cas2 := 0, cas := 0, swaps := 0, actions := 0,
        direct := false))
    case Enqueue(t, x) => s.(lists := s.lists[t := s.lists[t] + [x]], outside := s.outside - {x})
    case Act(t, o) => ApplyAct(s, t, o)
  }

  /** Nothing pending or completed, no call running, every span with a caller. */
  ghost predicate Init(s: State) {
    && WellFormed(s)
    && (forall t :: 0 <= t < s.n ==> s.records[t] == Empty)
    && (forall t :: 0 <= t < s.n ==> Fresh(s.threads[t]))
    && (forall t :: 0 <= t < s.n ==> s.lists[t] == [])
    && s.outside == s.spans
  }

  ghost predicate Fresh(th: Thread) {
    && th.pc == Idle && th.held == None && !th.direct
    && th.helpSteps == 0 && th.querySteps == 0 && th.cas2 == 0 && th.cas == 0 && th.swaps == 0 && th.actions == 0
  }

  // ------------------------------------------------------------------
  // What every thread keeps

  /** The bounds of one call, in every environment. */
  ghost predicate Bounds(n: nat, budget: nat, th: Thread) {
    && th.helpSteps + th.querySteps <= budget + n && th.querySteps <= n
    && th.cas2 <= th.helpSteps + th.querySteps
    && th.cas <= th.helpSteps + th.querySteps + 1
    && th.swaps <= th.querySteps + 2
    && th.actions <= 11 * (budget + n) + 6
  }

  /** Inside loop iteration number helpSteps + querySteps, after `done` of its at most
      eleven atomic accesses, with the pop and the CAS of this iteration still to come or not. */
  ghost predicate InIteration(n: nat, budget: nat, th: Thread, done: nat, popped: bool, cased: bool) {
    var k := th.helpSteps + th.querySteps;
    && th.helpQuery < n
    && th.helpCount <= budget
    && k == th.helpCount + th.helpQuery + 1 && th.querySteps <= th.helpQuery + 1
    && th.cas2 + (if popped then 0 else 1) <= k
    && th.cas + (if cased then 0 else 1) <= k
    && th.swaps <= (if th.querySteps == 0 then 1 else th.querySteps)
    && th.actions <= 3 + 11 * (k - 1) + done
  }

  ghost predicate InHelpLoop(budget: nat, th: Thread) {
    th.helpCount < budget && th.querySteps == 0
  }

  /** The owner's view of its record between publishing and reclaiming. */
  ghost predicate Own(th: Thread, r: Record) {
    r == Pending(th.phase) || r.Done?
  }

  /** A call knows the phase of the request it completes; it pops only when it holds nothing. */
  ghost predicate CallOk(th: Thread, c: Call, own: bool) {
    && (own && !c.First? ==> c.p == th.phase)
    && (c.TryPop? ==> th.held.None?)
    && (c.Complete? ==> th.held.Some?)
  }

  /** What holds of a thread and its own record at each control point. */
  ghost predicate RecordOk(th: Thread, r: Record) {
    match th.pc
    case Idle => th.held.None? && !r.Pending?
    case ReclaimEarlier => th.held.None? && !r.Pending?
    case PublishRequest => th.held.None? && r == Empty
    case HelpLoad => Own(th, r)
    case HelpCall(c) => Own(th, r) && CallOk(th, c, false)
    case QueryLoad => Own(th, r) || (r == Empty && th.held.None?)
    case QueryCall(c) => Own(th, r) && CallOk(th, c, true)
    case ReclaimCompleted => r.Done? || (r == Empty && th.held.None?)
    case ReclaimOwn => Own(th, r) && (th.held.Some? ==> r.Done?)
    case ClearRequest => (Own(th, r) || r == Empty) && th.held.None?
    case ReclaimLast => !r.Pending? && th.held.None?
    case Stash(ret) => r == Empty && th.held.Some? && ret.Some?
  }

  ghost predicate InHelp(pc: Pc) { pc.HelpLoad? || pc.HelpCall? }

  ghost predicate InQuery(pc: Pc) { pc.QueryLoad? || pc.QueryCall? || pc.ReclaimCompleted? || pc.ReclaimOwn? }

  /** Atomic accesses of the current iteration already made when at pc. */
  ghost function Taken(pc: Pc): nat {
    if pc.ReclaimCompleted? then 1
    else if pc.ReclaimOwn? then 10
    else if pc.HelpCall? || pc.QueryCall? then
      (match pc.call case First => 1 case Second(_) => 2 case TryPop(_) => 3 case Complete(_) => 9)
    else 0
  }

  ghost predicate Popped(pc: Pc) {
    pc.ReclaimCompleted? || pc.ReclaimOwn? || ((pc.HelpCall? || pc.QueryCall?) && pc.call.Complete?)
  }

  ghost predicate Started(th: Thread, k: nat) {
    th.helpSteps == 0 && th.querySteps == 0 && th.cas2 == 0 && th.cas == 0 && th.swaps == k && th.actions == k
  }

  /** The counters at each control point. */
  ghost predicate CountOk(n: nat, budget: nat, th: Thread) {
    if InHelp(th.pc) then InIteration(n, budget, th, Taken(th.pc), Popped(th.pc), false) && InHelpLoop(budget, th)
    else if InQuery(th.pc) then
      InIteration(n, budget, th, Taken(th.pc), Popped(th.pc), th.pc.ReclaimCompleted? || th.pc.ReclaimOwn?)
        && th.querySteps >= 1
    else if th.pc.ClearRequest? then Exhausted(n, budget, th, 0)
    else if th.pc.ReclaimLast? then Exhausted(n, budget, th, 1)
    else if th.pc.Stash? then Bounds(n, budget, th) && th.actions <= 11 * (budget + n) + 5
    else if th.pc.Idle? then Bounds(n, budget, th)
    else Started(th, if th.pc.PublishRequest? then 1 else 0)
  }

  ghost predicate LocalOk(n: nat, budget: nat, th: Thread, r: Record) {
    !th.direct && RecordOk(th, r) && CountOk(n, budget, th)
  }

  /** After the last iteration, `done` actions into the exit. */
  ghost predicate Exhausted(n: nat, budget: nat, th: Thread, done: nat) {
    var k := th.helpSteps + th.querySteps;
    && th.helpQuery == n && th.helpCount <= budget && k == th.helpCount + n && th.querySteps <= n
    && th.cas2 <= k && th.cas <= k + done
    && th.swaps <= th.querySteps + 1
    && th.actions <= 3 + 11 * k + done
  }

  ghost predicate ThreadsOk(s: State) {
    && WellFormed(s)
    && forall t :: 0 <= t < s.n ==> LocalOk(s.n, s.budget, s.threads[t], s.records[t])
  }

  /** Completing a pending request does not disturb its owner. */
  lemma CompletionIsHarmless(n: nat, budget: nat, th: Thread, r: Record, x: Span)
    requires LocalOk(n, budget, th, r) && r.Pending?
    ensures LocalOk(n, budget, th, Done(x))
  {
  }

  /** The counters when an iteration is over and the next loop top is due. */
  ghost predicate Between(n: nat, budget: nat, th: Thread) {
    var k := th.helpSteps + th.querySteps;
    && th.helpQuery <= n && th.helpCount <= budget && k == th.helpCount + th.helpQuery && th.querySteps <= th.helpQuery
    && th.cas2 <= k && th.cas <= k && th.swaps <= th.querySteps + 1 && th.actions <= 3 + 11 * k
  }

  lemma QueryTopOk(n: nat, budget: nat, th: Thread, r: Record)
    requires !th.direct && Between(n, budget, th)
    requires (th.held.None? && (Own(th, r) || r == Empty)) || (Own(th, r) && th.helpQuery < n)
    ensures LocalOk(n, budget, QueryTop(n, th), r)
  {
  }

  lemma HelpTopOk(n: nat, budget: nat, th: Thread, r: Record)
    requires !th.direct && Between(n, budget, th)
    requires Own(th, r) && th.querySteps == 0 && (th.held.None? || th.helpQuery < n)
    ensures LocalOk(n, budget, HelpTop(n, budget, th), r)
  {
    if !(th.helpCount < budget && th.helpQuery < n) { QueryTopOk(n, budget, th, r); }
  }

  ghost predicate InCall(th: Thread) {
    th.pc.HelpCall? || th.pc.QueryCall?
  }

  /** `help_finishing_req` returns to its loop; `r` is the thread's own record afterwards. */
  lemma CallReturnsOk(n: nat, budget: nat, th: Thread, r: Record, listIsNull: bool)
    requires n >= 1 && !th.direct && InCall(th) && Own(th, r)
    requires InIteration(n, budget, th, 10, true, true)
    requires th.pc.HelpCall? ==> InHelpLoop(budget, th)
    requires th.pc.QueryCall? ==> th.querySteps >= 1 && (!listIsNull && th.held.Some? ==> r.Done?)
    requires listIsNull ==> th.held.None?
    ensures LocalOk(n, budget, CallReturns(n, budget, th, listIsNull), r)
  {
    if listIsNull {
      var th' := th.(helpQuery := th.helpQuery + 1, queryPos := (th.queryPos + 1) % n);
      if th.pc.HelpCall? { HelpTopOk(n, budget, th', r); } else { QueryTopOk(n, budget, th', r); }
    } else if th.pc.HelpCall? {
      HelpTopOk(n, budget, th.(helpCount := th.helpCount + 1, helping := (th.helping + 1) % n), r);
    }
  }

  lemma FirstKeepsLocal(s: State, t: Tid, o: PopOutcome)
    requires ThreadsOk(s) && ActEnabled(s, t, o)
    requires InCall(s.threads[t]) && s.threads[t].pc.call.First?
    ensures var s' := ApplyAct(s, t, o); LocalOk(s.n, s.budget, s'.threads[t], s'.records[t])
  {
    var th, r := Acting(s, t, o), s.records[t];
    assert LocalOk(s.n, s.budget, s.threads[t], r);
    var u := s.records[Target(th, t)];
    if u.Pending? {
      assert LocalOk(s.n, s.budget, AtCall(th, Second(u.phase)), r);
    } else {
      CallReturnsOk(s.n, s.budget, th, r, false);
    }
  }

  lemma SecondKeepsLocal(s: State, t: Tid, o: PopOutcome)
    requires ThreadsOk(s) && ActEnabled(s, t, o)
    requires InCall(s.threads[t]) && s.threads[t].pc.call.Second?
    ensures var s' := ApplyAct(s, t, o); LocalOk(s.n, s.budget, s'.threads[t], s'.records[t])
  {
    var th, r := Acting(s, t, o), s.records[t];
    assert LocalOk(s.n, s.budget, s.threads[t], r);
    var p := th.pc.call.p;
    if s.records[Target(th, t)] == Pending(p) {
      assert LocalOk(s.n, s.budget, AtCall(th, if th.held.None? then TryPop(p) else Complete(p)), r);
    } else {
      CallReturnsOk(s.n, s.budget, th, r, false);
    }
  }

  lemma PopKeepsLocal(s: State, t: Tid, o: PopOutcome)
    requires ThreadsOk(s) && ActEnabled(s, t, o)
    requires InCall(s.threads[t]) && s.threads[t].pc.call.TryPop?
    ensures var s' := ApplyAct(s, t, o); LocalOk(s.n, s.budget, s'.threads[t], s'.records[t])
  {
    var th, r := Acting(s, t, o), s.records[t];
    assert LocalOk(s.n, s.budget, s.threads[t], r);
    match o
    case TakesFront =>
      assert LocalOk(s.n, s.budget,
        AtCall(th.(held := Some(s.lists[th.queryPos][0]), cas2 := th.cas2 + 1), Complete(th.pc.call.p)), r);
    case SeesEmpty => CallReturnsOk(s.n, s.budget, th, r, true);
    case Fails => CallReturnsOk(s.n, s.budget, th.(cas2 := th.cas2 + 1), r, false);
  }

  /** What the completion CAS leaves its caller with. */
  lemma CompleteActs(s: State, t: Tid, o: PopOutcome)
    requires ActEnabled(s, t, o)
    requires InCall(s.threads[t]) && s.threads[t].pc.call.Complete?
    ensures var th := Acting(s, t, o).(cas := s.threads[t].cas + 1);
            var u := Target(th, t);
            var ok := s.records[u] == Pending(th.pc.call.p);
            var s' := ApplyAct(s, t, o);
            && s'.threads[t] == CallReturns(s.n, s.budget, if ok then th.(held := None) else th, false)
            && s'.records[t] == if ok && u == t then Done(th.held.value) else s.records[t]
  {
  }

  lemma CompleteKeepsLocal(s: State, t: Tid, o: PopOutcome)
    requires ThreadsOk(s) && ActEnabled(s, t, o)
    requires InCall(s.threads[t]) && s.threads[t].pc.call.Complete?
    ensures var s' := ApplyAct(s, t, o); LocalOk(s.n, s.budget, s'.threads[t], s'.records[t])
  {
    var th, r := Acting(s, t, o).(cas := s.threads[t].cas + 1), s.records[t];
    assert LocalOk(s.n, s.budget, s.threads[t], r);
    var u := Target(th, t);
    var ok := s.records[u] == Pending(th.pc.call.p);
    var th' := if ok then th.(held := None) else th;
    var r' := if ok && u == t then Done(th.held.value) else r;
    CompleteActs(s, t, o);
    CallReturnsOk(s.n, s.budget, th', r', false);
  }

  lemma PublishKeepsLocal(s: State, t: Tid, o: PopOutcome)
    requires ThreadsOk(s) && ActEnabled(s, t, o)
    requires s.threads[t].pc.PublishRequest?
    ensures var s' := ApplyAct(s, t, o); LocalOk(s.n, s.budget, s'.threads[t], s'.records[t])
  {
    var th := Acting(s, t, o);
    assert LocalOk(s.n, s.budget, s.threads[t], s.records[t]);
    var phase := (th.lastPhase + 1) % (2 * PHASES);
    HelpTopOk(s.n, s.budget, th.(lastPhase := phase, phase := phase % PHASES, helpCount := 0, helpQuery := 0),
      Pending(phase % PHASES));
  }

  lemma HelpLoadKeepsLocal(s: State, t: Tid, o: PopOutcome)
    requires ThreadsOk(s) && ActEnabled(s, t, o)
    requires s.threads[t].pc.HelpLoad?
    ensures var s' := ApplyAct(s, t, o); LocalOk(s.n, s.budget, s'.threads[t], s'.records[t])
  {
    var th, r := Acting(s, t, o), s.records[t];
    assert LocalOk(s.n, s.budget, s.threads[t], r);
    if s.records[th.helping].Pending? {
      assert LocalOk(s.n, s.budget, th.(pc := HelpCall(First)), r);
    } else {
      HelpTopOk(s.n, s.budget, th.(helpCount := th.helpCount + 1, helping := (th.helping + 1) % s.n), r);
    }
  }

  lemma QueryLoadKeepsLocal(s: State, t: Tid, o: PopOutcome)
    requires ThreadsOk(s) && ActEnabled(s, t, o)
    requires s.threads[t].pc.QueryLoad?
    ensures var s' := ApplyAct(s, t, o); LocalOk(s.n, s.budget, s'.threads[t], s'.records[t])
  {
    var th, r := Acting(s, t, o), s.records[t];
    assert LocalOk(s.n, s.budget, s.threads[t], r);
    assert LocalOk(s.n, s.budget, th.(pc := if r.Pending? then QueryCall(First) else ReclaimCompleted), r);
  }

  lemma ReclaimOwnKeepsLocal(s: State, t: Tid, o: PopOutcome)
    requires ThreadsOk(s) && ActEnabled(s, t, o)
    requires s.threads[t].pc.ReclaimOwn?
    ensures var s' := ApplyAct(s, t, o); LocalOk(s.n, s.budget, s'.threads[t], s'.records[t])
  {
    assert LocalOk(s.n, s.budget, s.threads[t], s.records[t]);
    if s.records[t].Done? { ReclaimDone(s, t, o); } else { ReclaimNothing(s, t, o); }
  }

  lemma ReclaimDone(s: State, t: Tid, o: PopOutcome)
    requires ActEnabled(s, t, o) && s.threads[t].pc.ReclaimOwn? && s.records[t].Done?
    requires LocalOk(s.n, s.budget, s.threads[t], s.records[t])
    ensures var s' := ApplyAct(s, t, o); LocalOk(s.n, s.budget, s'.threads[t], s'.records[t])
  {
    var th, r := Acting(s, t, o).(swaps := s.threads[t].swaps + 1), s.records[t];
    assert th.held.Some? ==> LocalOk(s.n, s.budget, th.(pc := Stash(SpanOf(r))), Empty);
    assert th.held.None? ==> LocalOk(s.n, s.budget, th.(pc := Idle), Empty);
  }

  lemma ReclaimNothing(s: State, t: Tid, o: PopOutcome)
    requires ActEnabled(s, t, o) && s.threads[t].pc.ReclaimOwn? && !s.records[t].Done?
    requires LocalOk(s.n, s.budget, s.threads[t], s.records[t])
    ensures var s' := ApplyAct(s, t, o); LocalOk(s.n, s.budget, s'.threads[t], s'.records[t])
  {
    var th := Acting(s, t, o).(swaps := s.threads[t].swaps + 1);
    QueryTopOk(s.n, s.budget, th.(helpQuery := th.helpQuery + 1, queryPos := (th.queryPos + 1) % s.n), Empty);
  }

  lemma ExitKeepsLocal(s: State, t: Tid, o: PopOutcome)
    requires ThreadsOk(s) && ActEnabled(s, t, o)
    requires var pc := s.threads[t].pc;
      pc.ReclaimEarlier? || pc.ReclaimCompleted? || pc.ClearRequest? || pc.ReclaimLast? || pc.Stash?
    ensures var s' := ApplyAct(s, t, o); LocalOk(s.n, s.budget, s'.threads[t], s'.records[t])
  {
    assert LocalOk(s.n, s.budget, s.threads[t], s.records[t]);
  }

  lemma ActKeepsLocal(s: State, t: Tid, o: PopOutcome)
    requires ThreadsOk(s) && ActEnabled(s, t, o)
    ensures var s' := ApplyAct(s, t, o); LocalOk(s.n, s.budget, s'.threads[t], s'.records[t])
  {
    match s.threads[t].pc
    case Idle =>
    case HelpCall(c) => CallKeepsLocal(s, t, o);
    case QueryCall(c) => CallKeepsLocal(s, t, o);
    case PublishRequest => PublishKeepsLocal(s, t, o);
    case HelpLoad => HelpLoadKeepsLocal(s, t, o);
    case QueryLoad => QueryLoadKeepsLocal(s, t, o);
    case ReclaimOwn => ReclaimOwnKeepsLocal(s, t, o);
    case _ => ExitKeepsLocal(s, t, o);
  }

  lemma CallKeepsLocal(s: State, t: Tid, o: PopOutcome)
    requires ThreadsOk(s) && ActEnabled(s, t, o)
    requires InCall(s.threads[t])
    ensures var s' := ApplyAct(s, t, o); LocalOk(s.n, s.budget, s'.threads[t], s'.records[t])
  {
    match s.threads[t].pc.call
    case First => FirstKeepsLocal(s, t, o);
    case Second(_) => SecondKeepsLocal(s, t, o);
    case TryPop(_) => PopKeepsLocal(s, t, o);
    case Complete(_) => CompleteKeepsLocal(s, t, o);
  }

  /** A step of t changes only t's locals, and of the other records at most completes one. */
  ghost predicate OnlyActs(s: State, s': State, t: Tid) {
    && s'.n == s.n && s'.budget == s.budget && s'.spans == s.spans
    && |s.records| == s.n && |s.threads| == s.n && t < s.n
    && |s'.lists| == s.n && |s'.records| == s.n && |s'.threads| == s.n
    && s'.threads == s.threads[t := s'.threads[t]]
    && s'.threads[t].queryPos < s.n && s'.threads[t].helping < s.n
    && forall u :: 0 <= u < s.n && u != t ==>
         s'.records[u] == s.records[u] || (s.records[u].Pending? && s'.records[u].Done?)
  }

  lemma CallReturnsInRange(n: nat, budget: nat, th: Thread, listIsNull: bool)
    requires n >= 1 && th.queryPos < n && th.helping < n
    ensures var r := CallReturns(n, budget, th, listIsNull); r.queryPos < n && r.helping < n
  {
  }

  lemma LoadsOnlyAct(s: State, t: Tid, o: PopOutcome)
    requires ActEnabled(s, t, o) && InCall(s.threads[t])
    requires !s.threads[t].pc.call.TryPop? && !s.threads[t].pc.call.Complete?
    ensures OnlyActs(s, ApplyAct(s, t, o), t)
  {
    CallReturnsInRange(s.n, s.budget, Acting(s, t, o), false);
  }

  lemma PopOnlyActs(s: State, t: Tid, o: PopOutcome)
    requires ActEnabled(s, t, o) && InCall(s.threads[t]) && s.threads[t].pc.call.TryPop?
    ensures OnlyActs(s, ApplyAct(s, t, o), t)
  {
    var th := Acting(s, t, o);
    CallReturnsInRange(s.n, s.budget, th, true);
    CallReturnsInRange(s.n, s.budget, th.(cas2 := th.cas2 + 1), false);
  }

  lemma CompleteOnlyActs(s: State, t: Tid, o: PopOutcome)
    requires ActEnabled(s, t, o) && InCall(s.threads[t]) && s.threads[t].pc.call.Complete?
    ensures OnlyActs(s, ApplyAct(s, t, o), t)
  {
    var th := Acting(s, t, o).(cas := s.threads[t].cas + 1);
    CallReturnsInRange(s.n, s.budget, th, false);
    CallReturnsInRange(s.n, s.budget, th.(held := None), false);
  }

  lemma LoopOnlyActs(s: State, t: Tid, o: PopOutcome)
    requires ActEnabled(s, t, o) && !InCall(s.threads[t])
    ensures OnlyActs(s, ApplyAct(s, t, o), t)
  {
  }

  lemma ActOnlyActs(s: State, t: Tid, o: PopOutcome)
    requires ActEnabled(s, t, o)
    ensures OnlyActs(s, ApplyAct(s, t, o), t)
  {
    if !InCall(s.threads[t]) { LoopOnlyActs(s, t, o); }
    else if s.threads[t].pc.call.TryPop? { PopOnlyActs(s, t, o); }
    else if s.threads[t].pc.call.Complete? { CompleteOnlyActs(s, t, o); }
    else { LoadsOnlyAct(s, t, o); }
  }

  /** Callers' spans leave their hands only by Enqueue; a call that gives them one is over. */
  lemma LoopKeepsOutside(s: State, t: Tid, o: PopOutcome)
    requires ActEnabled(s, t, o) && !InCall(s.threads[t])
    ensures var s' := ApplyAct(s, t, o);
      s.outside <= s'.outside && (s'.outside != s.outside ==> t < |s'.threads| && s'.threads[t].pc.Idle?)
  {
  }

  lemma ActKeepsOutside(s: State, t: Tid, o: PopOutcome)
    requires ActEnabled(s, t, o)
    ensures var s' := ApplyAct(s, t, o);
      s.outside <= s'.outside && (s'.outside != s.outside ==> t < |s'.threads| && s'.threads[t].pc.Idle?)
  {
    if !InCall(s.threads[t]) { LoopKeepsOutside(s, t, o); }
  }

  lemma StepKeepsThreads(s: State, step: Step)
    requires ThreadsOk(s) && Enabled(s, step)
    ensures ThreadsOk(Apply(s, step))
  {
    var s' := Apply(s, step);
    match step
    case Begin(t, qp, hp) => assert LocalOk(s.n, s.budget, s.threads[t], s.records[t]);
    case Enqueue(t, x) =>
    case Act(t, o) =>
      ActKeepsLocal(s, t, o);
      ActOnlyActs(s, t, o);
      forall u | 0 <= u < s.n ensures LocalOk(s'.n, s'.budget, s'.threads[u], s'.records[u]) {
        if u != t {
          assert LocalOk(s.n, s.budget, s.threads[u], s.records[u]);
          if s'.records[u] != s.records[u] {
            CompletionIsHarmless(s.n, s.budget, s.threads[u], s.records[u], s'.records[u].span);
          }
        }
      }
  }

  // ------------------------------------------------------------------
  // Custody

  datatype Place = InList(i: Tid) | InRecord(i: Tid) | HeldBy(t: Tid) | Returning(t: Tid) | Outside

  ghost predicate Holds(s: State, p: Place, x: Span) {
    match p
    case InList(i) => i < |s.lists| && x in s.lists[i]
    case InRecord(i) => i < |s.records| && s.records[i] == Done(x)
    case HeldBy(t) => t < |s.threads| && s.threads[t].held == Some(x)
    case Returning(t) => t < |s.threads| && s.threads[t].pc == Stash(Some(x))
    case Outside => x in s.outside
  }

  ghost predicate NoDuplicates(q: seq<Span>) {
    forall i, j :: 0 <= i < j < |q| ==> q[i] != q[j]
  }

  /** Every span is in exactly one place, and at most once in a list. */
  ghost predicate Custody(s: State) {
    && (forall x :: x in s.spans ==> exists p :: Holds(s, p, x))
    && (forall p, q, x :: Holds(s, p, x) && Holds(s, q, x) ==> p == q)
    && (forall p, x :: Holds(s, p, x) ==> x in s.spans)
    && (forall i :: 0 <= i < |s.lists| ==> NoDuplicates(s.lists[i]))
  }

  ghost predicate Stay(s: State, s': State) {
    forall p, x :: Holds(s', p, x) <==> Holds(s, p, x)
  }

  ghost predicate Moved(s: State, s': State, x: Span, to: Place) {
    forall p, y :: Holds(s', p, y) <==> if y == x then p == to else Holds(s, p, y)
  }

  lemma MoveKeepsCustody(s: State, s': State, x: Span, to: Place)
    requires Custody(s) && s'.spans == s.spans && x in s.spans && Moved(s, s', x, to)
    requires forall i :: 0 <= i < |s'.lists| ==> NoDuplicates(s'.lists[i])
    ensures Custody(s')
  {
    forall y | y in s'.spans ensures exists p :: Holds(s', p, y) {
      var p :| Holds(s, p, y);
      if y == x { assert Holds(s', to, y); } else { assert Holds(s', p, y); }
    }
  }

  lemma StayKeepsCustody(s: State, s': State)
    requires Custody(s) && s'.spans == s.spans && Stay(s, s') && s'.lists == s.lists
    ensures Custody(s')
  {
    forall y | y in s'.spans ensures exists p :: Holds(s', p, y) {
      var p :| Holds(s, p, y);
      assert Holds(s', p, y);
    }
  }

  ghost predicate Inv(s: State) {
    ThreadsOk(s) && Custody(s)
  }

  /** Swapping out one's own record hands its span, if any, to where the call puts it. */
  lemma ReclaimKeepsCustody(s: State, t: Tid, o: PopOutcome)
    requires Inv(s) && ActEnabled(s, t, o)
    requires var pc := s.threads[t].pc; pc.ReclaimEarlier? || pc.ReclaimCompleted? || pc.ReclaimOwn? || pc.ReclaimLast?
    ensures Custody(ApplyAct(s, t, o))
  {
    var s', r := ApplyAct(s, t, o), s.records[t];
    assert LocalOk(s.n, s.budget, s.threads[t], r);
    if r.Done? {
      var to := if s.threads[t].held.Some? then Returning(t) else Outside;
      assert Holds(s, InRecord(t), r.span);
      forall p, y ensures Holds(s', p, y) <==> if y == r.span then p == to else Holds(s, p, y) {
        assert Holds(s, p, r.span) ==> p == InRecord(t);
      }
      MoveKeepsCustody(s, s', r.span, to);
    } else {
      assert Stay(s, s');
      StayKeepsCustody(s, s');
    }
  }

  lemma StashKeepsCustody(s: State, t: Tid, o: PopOutcome)
    requires Inv(s) && ActEnabled(s, t, o) && s.threads[t].pc.Stash?
    ensures Custody(ApplyAct(s, t, o))
  {
    var s', th := ApplyAct(s, t, o), s.threads[t];
    var x, y := th.held.value, th.pc.ret.value;
    assert LocalOk(s.n, s.budget, th, s.records[t]);
    assert Holds(s, HeldBy(t), x) && Holds(s, Returning(t), y);
    var mid := s.(records := s.records[t := Done(x)], threads := s.threads[t := th.(held := None)]);
    forall p, z ensures Holds(mid, p, z) <==> if z == x then p == InRecord(t) else Holds(s, p, z) {
      assert Holds(s, p, x) ==> p == HeldBy(t);
    }
    MoveKeepsCustody(s, mid, x, InRecord(t));
    assert Holds(mid, Returning(t), y);
    forall p, z ensures Holds(s', p, z) <==> if z == y then p == Outside else Holds(mid, p, z) {
      assert Holds(mid, p, y) ==> p == Returning(t);
    }
    MoveKeepsCustody(mid, s', y, Outside);
  }

  lemma PopKeepsCustody(s: State, t: Tid, o: PopOutcome)
    requires Inv(s) && ActEnabled(s, t, o) && InCall(s.threads[t]) && s.threads[t].pc.call.TryPop? && o.TakesFront?
    ensures Custody(ApplyAct(s, t, o))
  {
    var s', i := ApplyAct(s, t, o), s.threads[t].queryPos;
    var q := s.lists[i];
    assert LocalOk(s.n, s.budget, s.threads[t], s.records[t]);
    assert Holds(s, InList(i), q[0]) && NoDuplicates(q);
    assert forall y :: y in q <==> y == q[0] || y in q[1..];
    forall p, y ensures Holds(s', p, y) <==> if y == q[0] then p == HeldBy(t) else Holds(s, p, y) {
      assert Holds(s, p, q[0]) ==> p == InList(i);
    }
    MoveKeepsCustody(s, s', q[0], HeldBy(t));
  }

  lemma CompleteKeepsCustody(s: State, t: Tid, o: PopOutcome)
    requires Inv(s) && ActEnabled(s, t, o) && InCall(s.threads[t]) && s.threads[t].pc.call.Complete?
    requires s.records[Target(s.threads[t], t)] == Pending(s.threads[t].pc.call.p)
    ensures Custody(ApplyAct(s, t, o))
  {
    var s', x, u := ApplyAct(s, t, o), s.threads[t].held.value, Target(s.threads[t], t);
    assert Holds(s, HeldBy(t), x);
    forall p, y ensures Holds(s', p, y) <==> if y == x then p == InRecord(u) else Holds(s, p, y) {
      assert Holds(s, p, x) ==> p == HeldBy(t);
    }
    MoveKeepsCustody(s, s', x, InRecord(u));
  }

  /** Nothing that holds a span changes. */
  ghost predicate Quiet(s: State, s': State, t: Tid) {
    && s'.lists == s.lists && s'.outside == s.outside && s'.spans == s.spans
    && t < |s.threads| == |s'.threads| && s'.threads == s.threads[t := s'.threads[t]]
    && s'.threads[t].held == s.threads[t].held
    && !s.threads[t].pc.Stash? && !s'.threads[t].pc.Stash?
    && |s'.records| == |s.records|
    && forall i :: 0 <= i < |s.records| ==>
      s'.records[i] == s.records[i] || (!s.records[i].Done? && !s'.records[i].Done?)
  }

  lemma QuietKeepsCustody(s: State, s': State, t: Tid)
    requires Custody(s) && Quiet(s, s', t)
    ensures Custody(s')
  {
    assert Stay(s, s');
    StayKeepsCustody(s, s');
  }

  /** Outside `help_finishing_req`, publishing, loading and clearing move no span. */
  lemma LoopIsQuiet(s: State, t: Tid, o: PopOutcome)
    requires ThreadsOk(s) && ActEnabled(s, t, o)
    requires var th := s.threads[t]; th.pc.PublishRequest? || th.pc.HelpLoad? || th.pc.QueryLoad? || th.pc.ClearRequest?
    ensures Quiet(s, ApplyAct(s, t, o), t)
  {
    assert LocalOk(s.n, s.budget, s.threads[t], s.records[t]);
  }

  /** Inside it, only a successful pop or CAS moves one. */
  lemma CallIsQuiet(s: State, t: Tid, o: PopOutcome)
    requires ActEnabled(s, t, o) && InCall(s.threads[t])
    requires !(s.threads[t].pc.call.TryPop? && o.TakesFront?)
    requires !(s.threads[t].pc.call.Complete? && s.records[Target(s.threads[t], t)] == Pending(s.threads[t].pc.call.p))
    ensures Quiet(s, ApplyAct(s, t, o), t)
  {
  }

  lemma EnqueueKeepsCustody(s: State, t: Tid, x: Span)
    requires Inv(s) && Enabled(s, Enqueue(t, x))
    ensures Custody(Apply(s, Enqueue(t, x)))
  {
    var s' := Apply(s, Enqueue(t, x));
    assert Holds(s, Outside, x) && !Holds(s, InList(t), x);
    forall p, y ensures Holds(s', p, y) <==> if y == x then p == InList(t) else Holds(s, p, y) {
      assert Holds(s, p, x) ==> p == Outside;
    }
    MoveKeepsCustody(s, s', x, InList(t));
  }

  lemma StepKeepsCustody(s: State, step: Step)
    requires Inv(s) && Enabled(s, step)
    ensures Custody(Apply(s, step))
  {
    match step
    case Begin(t, qp, hp) =>
      assert LocalOk(s.n, s.budget, s.threads[t], s.records[t]);
      assert Stay(s, Apply(s, step));
      StayKeepsCustody(s, Apply(s, step));
    case Enqueue(t, x) => EnqueueKeepsCustody(s, t, x);
    case Act(t, o) =>
      var th := s.threads[t];
      if th.pc.Stash? { StashKeepsCustody(s, t, o); }
      else if th.pc.ReclaimEarlier? || th.pc.ReclaimCompleted? || th.pc.ReclaimOwn? || th.pc.ReclaimLast? {
        ReclaimKeepsCustody(s, t, o);
      }
      else if InCall(th) && th.pc.call.TryPop? && o.TakesFront? { PopKeepsCustody(s, t, o); }
      else if InCall(th) && th.pc.call.Complete? && s.records[Target(th, t)] == Pending(th.pc.call.p) {
        CompleteKeepsCustody(s, t, o);
      }
      else {
        if InCall(th) { CallIsQuiet(s, t, o); } else { LoopIsQuiet(s, t, o); }
        QuietKeepsCustody(s, Apply(s, step), t);
      }
  }

  // ------------------------------------------------------------------
  // Whole runs

  ghost predicate IsRun(run: seq<State>, steps: seq<Step>) {
    && |run| == |steps| + 1
    && Init(run[0])
    && forall i :: 0 <= i < |steps| ==> Enabled(run[i], steps[i]) && run[i + 1] == Apply(run[i], steps[i])
  }

  lemma InitHasInv(s: State)
    requires Init(s)
    ensures Inv(s)
  {
    forall x | x in s.spans ensures exists p :: Holds(s, p, x) { assert Holds(s, Outside, x); }
  }

  lemma {:induction false} RunKeepsInv(run: seq<State>, steps: seq<Step>, i: nat)
    requires IsRun(run, steps) && i < |run|
    ensures Inv(run[i])
  {
    if i == 0 {
      InitHasInv(run[0]);
    } else {
      RunKeepsInv(run, steps, i - 1);
      assert Enabled(run[i - 1], steps[i - 1]) && run[i] == Apply(run[i - 1], steps[i - 1]);
      StepKeepsThreads(run[i - 1], steps[i - 1]);
      StepKeepsCustody(run[i - 1], steps[i - 1]);
    }
  }

  /** In every run of any number of acquirers and helpers, every span is in exactly one of a
      public list (once), a completed record, a thread's held slot, a value on its way to the
      caller, or the callers' hands. */
  lemma SpanCustody(run: seq<State>, steps: seq<Step>, i: nat, x: Span)
    requires IsRun(run, steps) && i < |run| && x in run[i].spans
    ensures exists p :: Holds(run[i], p, x) && forall q :: Holds(run[i], q, x) ==> q == p
    ensures forall k :: 0 <= k < |run[i].lists| ==> NoDuplicates(run[i].lists[k])
  {
    RunKeepsInv(run, steps, i);
    var p :| Holds(run[i], p, x);
    assert forall q :: Holds(run[i], q, x) ==> q == p;
  }

  /** The unconditional stores (publish, stash) overwrite only an empty record; no record is
      pending and nothing is held between calls; the direct-return branches are never taken. */
  lemma RecordDiscipline(run: seq<State>, steps: seq<Step>, i: nat, t: Tid)
    requires IsRun(run, steps) && i < |run| && t < run[i].n
    ensures |run[i].records| == run[i].n == |run[i].threads|
    ensures run[i].threads[t].pc.PublishRequest? || run[i].threads[t].pc.Stash? ==> run[i].records[t] == Empty
    ensures run[i].threads[t].pc.Idle? ==> !run[i].records[t].Pending? && run[i].threads[t].held == None
    ensures !run[i].threads[t].direct
  {
    RunKeepsInv(run, steps, i);
    assert LocalOk(run[i].n, run[i].budget, run[i].threads[t], run[i].records[t]);
  }

  ghost predicate IsReclaim(pc: Pc) {
    pc.ReclaimEarlier? || pc.ReclaimCompleted? || pc.ReclaimOwn? || pc.ReclaimLast?
  }

  /** The rely of module AcquireLoop: between two actions of t the other threads either leave
      its record alone or complete its pending request. */
  lemma {:induction false} OthersOnlyComplete(run: seq<State>, steps: seq<Step>, i: nat, j: nat, t: Tid)
    requires IsRun(run, steps) && i <= j < |run| && t < run[i].n
    requires forall k :: i <= k < j ==> steps[k].t != t
    ensures run[i].n == run[j].n == |run[i].records| == |run[j].records|
    ensures run[j].records[t] == run[i].records[t] || (run[i].records[t].Pending? && run[j].records[t].Done?)
    decreases j - i
  {
    RunKeepsInv(run, steps, i);
    if i < j {
      var s := run[i];
      assert Enabled(s, steps[i]) && run[i + 1] == Apply(s, steps[i]);
      if steps[i].Act? { ActOnlyActs(s, steps[i].t, steps[i].o); }
      OthersOnlyComplete(run, steps, i + 1, j, t);
    }
  }

  /** A completed record changes only by its owner's swap, which takes its span: into the
      caller's hands, or on the way there while a held span is stashed. */
  lemma OnlyOwnersSwapEmpties(run: seq<State>, steps: seq<Step>, i: nat, t: Tid)
    requires IsRun(run, steps) && i < |steps| && t < run[i].n
    requires t < |run[i].records| && t < |run[i + 1].records|
    requires run[i].records[t].Done? && run[i + 1].records[t] != run[i].records[t]
    ensures steps[i].Act? && steps[i].t == t && t < |run[i].threads| && IsReclaim(run[i].threads[t].pc)
    ensures run[i + 1].records[t] == Empty
    ensures Holds(run[i + 1], Outside, run[i].records[t].span)
      || Holds(run[i + 1], Returning(t), run[i].records[t].span)
  {
    RunKeepsInv(run, steps, i);
    var s := run[i];
    assert Enabled(s, steps[i]) && run[i + 1] == Apply(s, steps[i]);
    assert LocalOk(s.n, s.budget, s.threads[t], s.records[t]);
    if steps[i].Act? { ActOnlyActs(s, steps[i].t, steps[i].o); }
  }

  /** In every state of every run, the current or last call of a thread is within the bounds of
      the step counter in each of its fields, and has made at most 11(H + n) + 6 accesses. */
  lemma WaitFreeBound(run: seq<State>, steps: seq<Step>, i: nat, t: Tid)
    requires IsRun(run, steps) && i < |run| && t < run[i].n
    ensures |run[i].threads| == run[i].n && Bounds(run[i].n, run[i].budget, run[i].threads[t])
  {
    RunKeepsInv(run, steps, i);
    assert LocalOk(run[i].n, run[i].budget, run[i].threads[t], run[i].records[t]);
  }

  /** A thread inside a call can always act, whatever the others have done. */
  lemma NeverBlocked(run: seq<State>, steps: seq<Step>, i: nat, t: Tid)
    requires IsRun(run, steps) && i < |run| && t < run[i].n
    ensures t < |run[i].threads| && (!run[i].threads[t].pc.Idle? ==> Enabled(run[i], Act(t, SeesEmpty)))
  {
    RunKeepsInv(run, steps, i);
    assert LocalOk(run[i].n, run[i].budget, run[i].threads[t], run[i].records[t]);
  }

  /** The actions of thread t among steps i to j - 1. */
  ghost function OwnActs(steps: seq<Step>, i: nat, j: nat, t: Tid): nat
    requires i <= j <= |steps|
  {
    if i == j then 0 else OwnActs(steps, i, j - 1, t) + if steps[j - 1].Act? && steps[j - 1].t == t then 1 else 0
  }

  lemma OneActCounts(s: State, step: Step, t: Tid)
    requires ThreadsOk(s) && Enabled(s, step) && t < s.n && !(step.Begin? && step.t == t)
    ensures var s' := Apply(s, step);
      s'.n == s.n && |s'.threads| == s.n
      && s'.threads[t].actions >= s.threads[t].actions + if step.Act? && step.t == t then 1 else 0
  {
    if step.Act? { ActOnlyActs(s, step.t, step.o); }
  }

  /** A call begun by step i has taken no more than 11(H + n) + 6 actions of its own by any later
      point j, however many steps of other threads lie between: together with NeverBlocked, it
      returns. */
  lemma CallReturnsSoon(run: seq<State>, steps: seq<Step>, i: nat, j: nat, t: Tid)
    requires IsRun(run, steps) && i < j < |run| && t < run[0].n && steps[i].Begin? && steps[i].t == t
    requires forall k :: i < k < j ==> !(steps[k].Begin? && steps[k].t == t)
    ensures OwnActs(steps, i + 1, j, t) <= 11 * (run[0].budget + run[0].n) + 6
  {
    forall k | i < k < j ensures Counted(run, steps, k, t) { StepOfRun(run, steps, k, t); }
    SizesStay(run, steps, j);
    WaitFreeBound(run, steps, j, t);
    SizesStay(run, steps, i + 1);
    WaitFreeBound(run, steps, i + 1, t);
    ActsAreCounted(run, steps, i + 1, j, t);
  }

  /** Step k adds to the accesses of thread t if it is one of its actions, and takes none away. */
  ghost predicate Counted(run: seq<State>, steps: seq<Step>, k: nat, t: Tid) {
    && k < |steps| && |run| == |steps| + 1 && t < |run[k].threads| && t < |run[k + 1].threads|
    && run[k + 1].threads[t].actions >= run[k].threads[t].actions + if steps[k].Act? && steps[k].t == t then 1 else 0
  }

  lemma {:induction false} ActsAreCounted(run: seq<State>, steps: seq<Step>, i: nat, j: nat, t: Tid)
    requires |run| == |steps| + 1 && i <= j < |run| && t < |run[i].threads| && t < |run[j].threads|
    requires forall k :: i <= k < j ==> Counted(run, steps, k, t)
    ensures OwnActs(steps, i, j, t) <= run[j].threads[t].actions
  {
    if i < j {
      assert Counted(run, steps, j - 1, t);
      ActsAreCounted(run, steps, i, j - 1, t);
    }
  }

  /** One step of a run, as far as it concerns the accesses of thread t. */
  lemma StepOfRun(run: seq<State>, steps: seq<Step>, i: nat, t: Tid)
    requires IsRun(run, steps) && i < |steps| && t < run[0].n && !(steps[i].Begin? && steps[i].t == t)
    ensures Counted(run, steps, i, t)
  {
    SizesStay(run, steps, i);
    RunKeepsInv(run, steps, i);
    assert Enabled(run[i], steps[i]) && run[i + 1] == Apply(run[i], steps[i]);
    OneActCounts(run[i], steps[i], t);
  }

  ghost predicate SameSizes(run: seq<State>, k: nat) {
    k + 1 < |run| && run[k + 1].n == run[k].n && run[k + 1].budget == run[k].budget
  }

  lemma SizesStay(run: seq<State>, steps: seq<Step>, j: nat)
    requires IsRun(run, steps) && j < |run|
    ensures run[j].n == run[0].n && run[j].budget == run[0].budget
  {
    forall k | 0 <= k < j ensures SameSizes(run, k) {
      RunKeepsInv(run, steps, k);
      assert Enabled(run[k], steps[k]) && run[k + 1] == Apply(run[k], steps[k]);
      StepKeepsSizes(run[k], steps[k]);
    }
    SizesChain(run, j);
  }

  lemma {:induction false} SizesChain(run: seq<State>, j: nat)
    requires j < |run| && forall k :: 0 <= k < j ==> SameSizes(run, k)
    ensures run[j].n == run[0].n && run[j].budget == run[0].budget
  {
    if j > 0 {
      assert SameSizes(run, j - 1);
      SizesChain(run, j - 1);
    }
  }

  lemma StepKeepsSizes(s: State, step: Step)
    requires ThreadsOk(s) && Enabled(s, step)
    ensures Apply(s, step).n == s.n && Apply(s, step).budget == s.budget
  {
    if step.Act? { ActOnlyActs(s, step.t, step.o); }
  }
}
