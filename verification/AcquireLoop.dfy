/**
 `acquire_from_lists` as the loop it is (src/acquire.rs, src/help_record.rs), while any number of
 other threads run theirs.

 `Lane.all` is the state of the protocol in module Helping, all threads included.  Before every
 atomic action of the caller the other threads take any steps they can; each action of the caller
 on the records and lists is, and is proved to be, its own next step there.  So the loop inherits
 what Helping proves of every run.  On a `calm` lane nobody else runs and a double-word CAS never
 fails spuriously.
 */
module AcquireLoop {
  import opened Wrappers
  import opened Helping

  datatype Pop = Got(span: Span) | SawEmpty | LostRace

  /** The StepCounter fields an acquisition touches. */
  datatype Counts = Counts(helpSteps: nat, querySteps: nat, cas2: nat, cas: nat, swaps: nat)

  /** The k-th list in cyclic order from q. */
  function Cyclic(q: nat, k: nat, n: nat): nat
    requires q < n && k <= n
  {
    if q + k < n then q + k else q + k - n
  }

  ghost predicate EmptyBefore(lists: seq<seq<Span>>, q: nat, k: nat) {
    q < |lists| && k <= |lists| && forall i :: 0 <= i < k ==> lists[Cyclic(q, i, |lists|)] == []
  }

  /** List j steps from q is the first non-empty one in cyclic order. */
  ghost predicate FirstNonEmpty(lists: seq<seq<Span>>, q: nat, j: nat) {
    j < |lists| && EmptyBefore(lists, q, j) && lists[Cyclic(q, j, |lists|)] != []
  }

  /** A full round of empty lists leaves no list out. */
  lemma RoundCoversAll(lists: seq<seq<Span>>, q: nat)
    requires EmptyBefore(lists, q, |lists|)
    ensures forall k :: 0 <= k < |lists| ==> lists[k] == []
  {
    forall k | 0 <= k < |lists| ensures lists[k] == [] {
      var i: nat := if q <= k then k - q else k + |lists| - q;
      assert lists[Cyclic(q, i, |lists|)] == [];
    }
  }

  /** Only the request of thread t has been published since (lists, records) = (l0, r0). */
  ghost predicate Searching(l0: seq<seq<Span>>, r0: seq<Record>, q: nat, k: nat, t: Tid, phase: nat,
                            lists: seq<seq<Span>>, records: seq<Record>) {
    && t < |r0| && lists == l0 && records == r0[t := Pending(phase)]
    && EmptyBefore(l0, q, k)
  }

  /** The request of thread t has been completed with the front of the first non-empty list. */
  ghost predicate Found(l0: seq<seq<Span>>, r0: seq<Record>, q: nat, k: nat, t: Tid,
                        lists: seq<seq<Span>>, records: seq<Record>) {
    && t < |r0| && FirstNonEmpty(l0, q, k)
    && var i := Cyclic(q, k, |l0|);
       && records == r0[t := Done(l0[i][0])]
       && lists == l0[i := l0[i][1..]]
  }

  lemma SearchOn(l0: seq<seq<Span>>, r0: seq<Record>, q: nat, k: nat, t: Tid, phase: nat,
                 lists: seq<seq<Span>>, records: seq<Record>)
    requires Searching(l0, r0, q, k, t, phase, lists, records) && k < |l0| && l0[Cyclic(q, k, |l0|)] == []
    ensures Searching(l0, r0, q, k + 1, t, phase, lists, records)
    ensures (Cyclic(q, k, |l0|) + 1) % |l0| == Cyclic(q, k + 1, |l0|)
  {
  }

  lemma SearchEnds(l0: seq<seq<Span>>, r0: seq<Record>, q: nat, k: nat, t: Tid, phase: nat,
                   lists: seq<seq<Span>>, records: seq<Record>, lists': seq<seq<Span>>, records': seq<Record>)
    requires Searching(l0, r0, q, k, t, phase, lists, records) && k < |l0|
    requires var i := Cyclic(q, k, |l0|);
             lists[i] != [] && lists' == lists[i := lists[i][1..]] && records' == records[t := Done(lists[i][0])]
    ensures Found(l0, r0, q, k, t, lists', records')
  {
  }

  /** The two situations of an undisturbed call, after k empty lists, query position p. */
  ghost predicate Undisturbed(l0: seq<seq<Span>>, r0: seq<Record>, q: nat, k: nat, p: nat, t: Tid, phase: nat,
                              lists: seq<seq<Span>>, records: seq<Record>) {
    && q < |l0| && k <= |l0| && p == Cyclic(q, k, |l0|)
    && (Searching(l0, r0, q, k, t, phase, lists, records) || Found(l0, r0, q, k, t, lists, records))
  }

  /** The call returned the front of the first non-empty list, at position p, and took it. */
  ghost predicate Served(l0: seq<seq<Span>>, r0: seq<Record>, q: nat, p: nat, t: Tid, span: Option<Span>,
                         lists: seq<seq<Span>>, records: seq<Record>) {
    && q < |l0| && t < |r0|
    && (exists j :: FirstNonEmpty(l0, q, j) && p == Cyclic(q, j, |l0|))
    && span == Some(l0[p][0]) && lists == l0[p := l0[p][1..]] && records == r0[t := Empty]
  }

  /** Null exactly when every list is empty, and then nothing has changed; else as Served. */
  ghost predicate RunAlone(l0: seq<seq<Span>>, r0: seq<Record>, q: nat, p: nat, t: Tid, span: Option<Span>,
                           lists: seq<seq<Span>>, records: seq<Record>) {
    && (span == None <==> forall k :: 0 <= k < |l0| ==> l0[k] == [])
    && (span == None ==> lists == l0 && records == r0)
    && (span != None ==> Served(l0, r0, q, p, t, span, lists, records))
  }

  lemma ServedAlone(l0: seq<seq<Span>>, r0: seq<Record>, q: nat, p: nat, t: Tid, span: Option<Span>,
                         lists: seq<seq<Span>>, records: seq<Record>)
    requires Served(l0, r0, q, p, t, span, lists, records)
    ensures RunAlone(l0, r0, q, p, t, span, lists, records)
  {
    assert l0[p] != [];
  }

  /** What `help_finishing_req` does for record u with list p when nobody interferes. */
  ghost predicate CalmCall(u: Tid, p: nat, lists: seq<seq<Span>>, records: seq<Record>,
                           lists': seq<seq<Span>>, records': seq<Record>, listIsNull: bool) {
    && u < |records| && p < |lists|
    && if !records[u].Pending? then !listIsNull && lists' == lists && records' == records
       else if lists[p] == [] then listIsNull && lists' == lists && records' == records
       else !listIsNull && lists' == lists[p := lists[p][1..]] && records' == records[u := Done(lists[p][0])]
  }

  /** The next situation after such a call: either its list was empty or the request, if it
      was the caller's own, is completed. */
  lemma CallUndisturbed(l0: seq<seq<Span>>, r0: seq<Record>, q: nat, k: nat, p: nat, t: Tid, phase: nat,
                        lists: seq<seq<Span>>, records: seq<Record>,
                        u: Tid, lists': seq<seq<Span>>, records': seq<Record>, listIsNull: bool)
    requires NoPending(r0) && Undisturbed(l0, r0, q, k, p, t, phase, lists, records) && k < |l0|
    requires CalmCall(u, p, lists, records, lists', records', listIsNull)
    ensures listIsNull ==> Undisturbed(l0, r0, q, k + 1, (p + 1) % |l0|, t, phase, lists', records')
    ensures !listIsNull ==> Undisturbed(l0, r0, q, k, p, t, phase, lists', records')
    ensures !listIsNull && u == t ==> Found(l0, r0, q, k, t, lists', records')
  {
    if u != t || !records[u].Pending? {
      assert lists' == lists && records' == records;
    } else if lists[p] == [] {
      SearchOn(l0, r0, q, k, t, phase, lists, records);
    } else {
      SearchEnds(l0, r0, q, k, t, phase, lists, records, lists', records');
    }
  }

  ghost predicate NoPending(records: seq<Record>) {
    forall u :: 0 <= u < |records| ==> !records[u].Pending?
  }

  /** The owner's record from publishing to reclaiming. */
  ghost predicate Mine(r: Record, phase: nat) {
    r == Pending(phase) || r.Done?
  }

  ghost predicate Within(c: Counts, n: nat, budget: nat) {
    && c.helpSteps + c.querySteps <= budget + n && c.querySteps <= n
    && c.cas2 <= c.helpSteps + c.querySteps
    && c.cas <= c.helpSteps + c.querySteps + 1
    && c.swaps <= c.querySteps + 2
  }

  /** The bounds of an acquisition and of a small allocation's scans, with m blocks a span and
      K + 1 rotations, imply what `StepCounter::assert_bounds` asserts. */
  lemma BoundsMeetAssertions(c: Counts, n: nat, h: nat, scanned: nat, m: nat, K: nat)
    requires n >= 1 && m >= 1 && Within(c, n, h) && scanned <= m + K + 1
    ensures c.helpSteps <= h * n + n + 1
    ensures c.querySteps <= n + n + 1
    ensures c.cas2 <= c.helpSteps + c.querySteps + 2
    ensures scanned <= m * (K + 2)
  {
    assert h * (n - 1) >= 0 && h * n == h * (n - 1) + h;
    assert (m - 1) * (K + 1) >= 0 && m * (K + 2) == (m - 1) * (K + 1) + m + K + 1;
  }

  // ------------------------------------------------------------------
  // The caller's steps in Helping, as far as its own locals are concerned

  function Tick(th: Thread, k: nat): Thread { th.(actions := th.actions + k) }

  predicate AtLoad(pc: Pc) {
    pc.HelpLoad? || pc.QueryLoad? || ((pc.HelpCall? || pc.QueryCall?) && (pc.call.First? || pc.call.Second?))
  }

  function LoadTarget(th: Thread, t: Tid): Tid { if th.pc.HelpLoad? then th.helping else Target(th, t) }

  /** The locals after a load that saw record r. */
  function AfterLoad(n: nat, budget: nat, th: Thread, r: Record): Thread
    requires n >= 1 && AtLoad(th.pc)
  {
    if th.pc.HelpLoad? then
      if r.Pending? then th.(pc := HelpCall(First)) else HelpCounted(n, budget, th)
    else if th.pc.QueryLoad? then
      th.(pc := if r.Pending? then QueryCall(First) else ReclaimCompleted)
    else if th.pc.call.First? then
      if r.Pending? then AtCall(th, Second(r.phase)) else CallReturns(n, budget, th, false)
    else if r == Pending(th.pc.call.p) then
      AtCall(th, if th.held.None? then TryPop(th.pc.call.p) else Complete(th.pc.call.p))
    else CallReturns(n, budget, th, false)
  }

  lemma LoadActs(s: State, t: Tid)
    requires ActEnabled(s, t, SeesEmpty) && AtLoad(s.threads[t].pc)
    ensures var th := s.threads[t];
      ApplyAct(s, t, SeesEmpty)
        == SetThread(s, t, AfterLoad(s.n, s.budget, Tick(th, 1), s.records[LoadTarget(th, t)]))
  {
  }

  predicate AtReclaim(pc: Pc) { pc.ReclaimEarlier? || pc.ReclaimCompleted? || pc.ReclaimOwn? || pc.ReclaimLast? }

  function Finish(th: Thread, r: Record): Thread { th.(pc := if th.held.Some? then Stash(SpanOf(r)) else Idle) }

  /** The locals after a swap that took out record r. */
  function AfterReclaim(n: nat, th: Thread, r: Record): Thread
    requires n >= 1 && AtReclaim(th.pc)
  {
    if th.pc.ReclaimEarlier? then th.(pc := if r.Done? then Idle else PublishRequest)
    else if th.pc.ReclaimCompleted? || r.Done? then Finish(th, r)
    else if th.pc.ReclaimOwn? then
      QueryTop(n, th.(helpQuery := th.helpQuery + 1, queryPos := (th.queryPos + 1) % n))
    else th.(pc := Idle)
  }

  /** The direct returns, which never happen, aside. */
  lemma ReclaimActs(s: State, t: Tid)
    requires ActEnabled(s, t, SeesEmpty) && AtReclaim(s.threads[t].pc)
    requires var th := s.threads[t];
      th.held.Some? && (th.pc.ReclaimOwn? || th.pc.ReclaimLast?) ==> s.records[t].Done?
    ensures var th, r := s.threads[t], s.records[t];
      var th' := AfterReclaim(s.n, Tick(th, 1).(swaps := th.swaps + 1), r);
      ApplyAct(s, t, SeesEmpty) == s.(records := s.records[t := Empty], threads := s.threads[t := th'],
        outside := if r.Done? && th'.pc.Idle? then s.outside + {r.span} else s.outside)
  {
  }

  /** The locals after a pop. */
  function AfterPop(n: nat, budget: nat, th: Thread, o: Pop): Thread
    requires n >= 1 && (th.pc.HelpCall? || th.pc.QueryCall?) && th.pc.call.TryPop?
  {
    match o
    case Got(x) => AtCall(Tick(th, 6).(held := Some(x), cas2 := th.cas2 + 1), Complete(th.pc.call.p))
    case SawEmpty => CallReturns(n, budget, Tick(th, 3), true)
    case LostRace => CallReturns(n, budget, Tick(th, 4).(cas2 := th.cas2 + 1), false)
  }

  function Outcome(o: Pop): PopOutcome {
    match o
    case Got(_) => TakesFront
    case SawEmpty => SeesEmpty
    case LostRace => Fails
  }

  predicate AtPop(th: Thread) { (th.pc.HelpCall? || th.pc.QueryCall?) && th.pc.call.TryPop? }

  lemma PopActs(s: State, t: Tid, o: Pop)
    requires WellFormed(s) && t < s.n && AtPop(s.threads[t])
    requires o.Got? ==> s.lists[s.threads[t].queryPos] != [] && s.lists[s.threads[t].queryPos][0] == o.span
    ensures ActEnabled(s, t, Outcome(o))
    ensures var k := s.threads[t].queryPos;
      ApplyAct(s, t, Outcome(o)) == s.(threads := s.threads[t := AfterPop(s.n, s.budget, s.threads[t], o)],
        lists := if o.Got? then s.lists[k := s.lists[k][1..]] else s.lists)
  {
  }

  predicate AtCas(th: Thread) { (th.pc.HelpCall? || th.pc.QueryCall?) && th.pc.call.Complete? && th.held.Some? }

  /** The locals after the completion CAS. */
  function AfterCas(n: nat, budget: nat, th: Thread, ok: bool): Thread
    requires n >= 1 && AtCas(th)
  {
    CallReturns(n, budget, Tick(th, 1).(cas := th.cas + 1, held := if ok then None else th.held), false)
  }

  lemma CasActs(s: State, t: Tid)
    requires WellFormed(s) && t < s.n && AtCas(s.threads[t])
    ensures ActEnabled(s, t, SeesEmpty)
    ensures var th := s.threads[t]; var u := Target(th, t); var ok := s.records[u] == Pending(th.pc.call.p);
      ApplyAct(s, t, SeesEmpty) == s.(threads := s.threads[t := AfterCas(s.n, s.budget, th, ok)],
        records := if ok then s.records[u := Done(th.held.value)] else s.records)
  {
  }

  /** Where a call returns to does not depend on how far it had got. */
  lemma SameReturn(n: nat, budget: nat, th: Thread, pc: Pc, listIsNull: bool)
    requires n >= 1 && InCall(th) && (pc.HelpCall? || pc.QueryCall?) && pc.HelpCall? == th.pc.HelpCall?
    ensures CallReturns(n, budget, th.(pc := pc), listIsNull) == CallReturns(n, budget, th, listIsNull)
  {
  }

  /** The locals after publishing a request. */
  function AfterPublish(n: nat, budget: nat, th: Thread): Thread {
    var last := (th.lastPhase + 1) % (2 * PHASES);
    HelpTop(n, budget, Tick(th, 2).(lastPhase := last, phase := last % PHASES, helpCount := 0, helpQuery := 0))
  }

  lemma PublishActs(s: State, t: Tid)
    requires WellFormed(s) && t < s.n && s.threads[t].pc.PublishRequest?
    ensures ActEnabled(s, t, SeesEmpty)
    ensures var last := (s.threads[t].lastPhase + 1) % (2 * PHASES);
      ApplyAct(s, t, SeesEmpty) == s.(threads := s.threads[t := AfterPublish(s.n, s.budget, s.threads[t])],
        records := s.records[t := Pending(last % PHASES)])
  {
  }

  lemma ClearActs(s: State, t: Tid)
    requires WellFormed(s) && t < s.n && s.threads[t].pc.ClearRequest?
    ensures ActEnabled(s, t, SeesEmpty)
    ensures var th := s.threads[t];
      ApplyAct(s, t, SeesEmpty) == s.(threads := s.threads[t := Tick(th, 1).(pc := ReclaimLast, cas := th.cas + 1)],
        records := if s.records[t] == Pending(th.phase) then s.records[t := Empty] else s.records)
  {
  }

  lemma StashActs(s: State, t: Tid)
    requires WellFormed(s) && t < s.n && s.threads[t].pc.Stash? && s.threads[t].held.Some?
    ensures ActEnabled(s, t, SeesEmpty)
    ensures var th := s.threads[t];
      ApplyAct(s, t, SeesEmpty) == s.(threads := s.threads[t := Tick(th, 1).(pc := Idle, held := None)],
        records := s.records[t := Done(th.held.value)],
        outside := if th.pc.ret.Some? then s.outside + {th.pc.ret.value} else s.outside)
  {
  }

  // ------------------------------------------------------------------
  // Histories

  ghost predicate StepAt(run: seq<State>, steps: seq<Step>, i: nat) {
    && i < |steps| && i + 1 < |run|
    && Enabled(run[i], steps[i]) && run[i + 1] == Apply(run[i], steps[i])
  }

  /** A run of Helping, of all threads. */
  ghost predicate History(run: seq<State>, steps: seq<Step>) {
    |run| == |steps| + 1 && Init(run[0]) && forall i :: 0 <= i < |steps| ==> StepAt(run, steps, i)
  }

  lemma HistoryGrows(run: seq<State>, steps: seq<Step>, step: Step, s': State)
    requires History(run, steps) && Enabled(run[|steps|], step) && s' == Apply(run[|steps|], step)
    ensures History(run + [s'], steps + [step])
  {
    var run', steps' := run + [s'], steps + [step];
    forall i | 0 <= i < |steps'| ensures StepAt(run', steps', i) {
      if i < |steps| { assert StepAt(run, steps, i); }
    }
  }

  lemma HistoryIsRun(run: seq<State>, steps: seq<Step>)
    requires History(run, steps)
    ensures IsRun(run, steps)
  {
    forall i | 0 <= i < |steps| ensures Enabled(run[i], steps[i]) && run[i + 1] == Apply(run[i], steps[i]) {
      assert StepAt(run, steps, i);
    }
  }

  /** Sizes and positions stay in range, and another thread's step leaves t's locals alone and its
      record alone or completed. */
  lemma StepFrame(s: State, step: Step, t: Tid)
    requires WellFormed(s) && Enabled(s, step) && t < s.n
    ensures var s' := Apply(s, step);
      && WellFormed(s') && s'.n == s.n && s'.budget == s.budget && s'.spans == s.spans
      && (step.t != t ==> s'.threads[t] == s.threads[t])
      && (step.t != t ==> s'.records[t] == s.records[t] || (s.records[t].Pending? && s'.records[t].Done?))
  {
    if step.Act? { ActOnlyActs(s, step.t, step.o); }
  }

  class Lane {
    const n: nat
    const budget: nat
    const calm: bool
    var lists: seq<seq<Span>>
    var records: seq<Record>
    /** The protocol as all threads have run it, and the run that led there. */
    var all: State
    ghost var run: seq<State>
    ghost var steps: seq<Step>

    ghost predicate Tracked()
      reads this
    {
      && History(run, steps) && run[|steps|] == all
      && WellFormed(all) && all.n == n && all.budget == budget
    }

    /** The words are those of a state that a run of Helping reaches. */
    ghost predicate Valid()
      reads this
    {
      Tracked() && lists == all.lists && records == all.records
    }

    /** The run has gone on. */
    twostate predicate Later()
      reads this
    {
      |old(run)| <= |run| && run[..|old(run)|] == old(run) && all.spans == old(all.spans)
    }

    /** What may happen to the record of t between two of its own actions. */
    twostate predicate Rely(t: Tid)
      reads this
    {
      && Valid() && old(Valid()) && t < n && old(run) <= run
      && (records[t] == old(records)[t] || (old(records)[t].Pending? && records[t].Done?))
    }

    /** In every state the words can be in, custody holds, and a thread between calls holds nothing. */
    lemma Custody(t: Tid, x: Span)
      requires Valid() && t < n && x in all.spans && all.threads[t].pc.Idle?
      ensures InOnePlace(all, t, x)
    {
      HistoryIsRun(run, steps);
      SpanCustody(run, steps, |steps|, x);
      RecordDiscipline(run, steps, |steps|, t);
    }

    /** One step of the protocol; the words are brought up to date by whoever takes it. */
    method Take(step: Step, ghost t: Tid)
      requires Tracked() && Enabled(all, step) && t < n
      modifies this`all, this`run, this`steps
      ensures Tracked() && all == Apply(old(all), step) && old(run) <= run && all.spans == old(all).spans
      ensures step.t != t ==> all.threads[t] == old(all).threads[t]
      ensures step.t != t ==>
        all.records[t] == old(all).records[t] || (old(all).records[t].Pending? && all.records[t].Done?)
    {
      StepFrame(all, step, t);
      HistoryGrows(run, steps, step, Apply(all, step));
      all := Apply(all, step);
      run, steps := run + [all], steps + [step];
    }

    /** Any number of steps of other threads. */
    method Interfere(t: Tid)
      requires Valid() && t < n
      modifies this
      ensures Rely(t) && all.threads[t] == old(all).threads[t] && all.spans == old(all).spans
      ensures calm ==> all == old(all)
    {
      var k: int := *;
      while !calm && 0 < k
        invariant Rely(t) && all.threads[t] == old(all).threads[t] && all.spans == old(all).spans
        invariant calm ==> all == old(all)
      {
        k := k - 1;
        var step: Step := *;
        if step.t != t && Enabled(all, step) {
          Take(step, t);
          lists, records := all.lists, all.records;
        }
      }
    }

    /** The beginning of a call, from the positions the last one left. */
    method Begin(t: Tid, queryPos: nat, helping: nat)
      requires Valid() && t < n && all.threads[t].pc.Idle?
      modifies this`all, this`run, this`steps
      ensures Valid() && old(run) <= run && all.spans == old(all).spans
      ensures var th := old(all).threads[t];
        all.threads[t] == Thread(ReclaimEarlier, None, queryPos % n, helping % n, 0, 0, th.lastPhase, th.phase,
                                 0, 0, 0, 0, 0, 0, false)
    {
      Take(Step.Begin(t, queryPos, helping), t);
    }

    method Load(t: Tid, u: Tid) returns (r: Record)
      requires Valid() && t < n && AtLoad(all.threads[t].pc) && u == LoadTarget(all.threads[t], t)
      modifies this
      ensures Rely(t) && u < n && r == records[u] && all.spans == old(all).spans
      ensures all.threads[t] == AfterLoad(n, budget, Tick(old(all).threads[t], 1), r)
      ensures calm ==> lists == old(lists) && records == old(records)
    {
      Interfere(t);
      r := records[u];
      LoadActs(all, t);
      Take(Act(t, SeesEmpty), t);
    }

    /** `reclaim_request` on one's own record; `was` is the record the swap took out. */
    method ReclaimRequest(t: Tid) returns (span: Option<Span>, ghost was: Record)
      requires Valid() && t < n && AtReclaim(all.threads[t].pc)
      requires var th := all.threads[t];
        th.held.Some? && (th.pc.ReclaimOwn? || th.pc.ReclaimLast?) ==> records[t].Done?
      modifies this
      ensures Valid() && old(run) <= run && records[t] == Empty && span == SpanOf(was) && all.spans == old(all).spans
      ensures was == old(records)[t] || (old(records)[t].Pending? && was.Done?)
      ensures var th := old(all).threads[t];
        all.threads[t] == AfterReclaim(n, Tick(th, 1).(swaps := th.swaps + 1), was)
      ensures span.Some? && all.threads[t].pc.Idle? ==> span.value in all.outside
      ensures calm ==> span == SpanOf(old(records)[t]) && records == old(records)[t := Empty] && lists == old(lists)
    {
      Interfere(t);
      var r := records[t];
      records := records[t := Empty];
      span, was := SpanOf(r), r;
      ReclaimActs(all, t);
      Take(Act(t, SeesEmpty), t);
    }

    /** One attempt; it may see a list empty that is not, or lose the race.  `was` is the list as
        the attempt finds it: a span it gets is the front of that. */
    method TryPopHeadOnce(t: Tid, k: nat) returns (o: Pop, ghost was: seq<Span>)
      requires Valid() && t < n && AtPop(all.threads[t]) && k == all.threads[t].queryPos
      modifies this
      ensures Rely(t) && k < n && all.spans == old(all).spans
      ensures all.threads[t] == AfterPop(n, budget, old(all).threads[t], o)
      ensures o.Got? ==> was == [o.span] + lists[k]
      ensures !o.Got? ==> was == lists[k]
      ensures calm && old(lists)[k] == [] ==> o == SawEmpty && lists == old(lists) && records == old(records)
      ensures calm && old(lists)[k] != [] ==>
        o == Got(old(lists)[k][0]) && lists == old(lists)[k := old(lists)[k][1..]] && records == old(records)
    {
      Interfere(t);
      was := lists[k];
      var luck: int := *;
      if lists[k] == [] || (!calm && luck == 0) {
        o := SawEmpty;
      } else if !calm && luck == 1 {
        o := LostRace;
      } else {
        o := Got(lists[k][0]);
        lists := lists[k := lists[k][1..]];
      }
      PopActs(all, t, o);
      Take(Act(t, Outcome(o)), t);
    }

    /** The completion CAS of `help_finishing_req`. */
    method CompleteRequest(t: Tid, u: Tid, p: nat, x: Span) returns (ok: bool)
      requires Valid() && t < n && AtCas(all.threads[t]) && u == Target(all.threads[t], t)
      requires p == all.threads[t].pc.call.p && all.threads[t].held == Some(x)
      modifies this
      ensures Valid() && old(run) <= run && u < n && all.spans == old(all).spans
      ensures all.threads[t] == AfterCas(n, budget, old(all).threads[t], ok)
      ensures if ok then records[u] == Done(x) else records[u] != Pending(p)
      ensures Rely(t)
      ensures calm ==> lists == old(lists) && ok == (old(records)[u] == Pending(p))
      ensures calm ==> records == if ok then old(records)[u := Done(x)] else old(records)
    {
      Interfere(t);
      ok := records[u] == Pending(p);
      if ok { records := records[u := Done(x)]; }
      CasActs(all, t);
      Take(Act(t, SeesEmpty), t);
    }

    /** The store of a new request. */
    method PublishRequestAs(t: Tid, phase: nat)
      requires Valid() && t < n && all.threads[t].pc.PublishRequest?
      requires phase == (all.threads[t].lastPhase + 1) % (2 * PHASES) % PHASES && records[t] == Empty
      modifies this
      ensures Valid() && old(run) <= run && records[t] == Pending(phase) && all.spans == old(all).spans
      ensures all.threads[t] == AfterPublish(n, budget, old(all).threads[t])
      ensures calm ==> lists == old(lists) && records == old(records)[t := Pending(phase)]
    {
      Interfere(t);
      assert records[t] == Empty;
      records := records[t := Pending(phase)];
      PublishActs(all, t);
      Take(Act(t, SeesEmpty), t);
    }

    /** The CAS that withdraws a request. */
    method WithdrawRequest(t: Tid, phase: nat)
      requires Valid() && t < n && all.threads[t].pc.ClearRequest? && phase == all.threads[t].phase
      requires records[t] == Empty || Mine(records[t], phase)
      modifies this
      ensures Valid() && old(run) <= run && !records[t].Pending? && all.spans == old(all).spans
      ensures old(records)[t].Done? ==> records[t] == old(records)[t]
      ensures old(records)[t].Empty? ==> records[t] == Empty
      ensures var th := old(all).threads[t]; all.threads[t] == Tick(th, 1).(pc := ReclaimLast, cas := th.cas + 1)
      ensures calm ==> lists == old(lists)
      ensures calm && old(records)[t] == Pending(phase) ==> records == old(records)[t := Empty]
    {
      Interfere(t);
      if records[t] == Pending(phase) { records := records[t := Empty]; }
      ClearActs(all, t);
      Take(Act(t, SeesEmpty), t);
    }

    /** The store of `finish_with`. */
    method StashSpan(t: Tid, x: Span)
      requires Valid() && t < n && all.threads[t].pc.Stash? && all.threads[t].held == Some(x) && records[t] == Empty
      modifies this
      ensures Valid() && old(run) <= run && records[t] == Done(x) && all.spans == old(all).spans
      ensures all.threads[t] == Tick(old(all).threads[t], 1).(pc := Idle, held := None)
      ensures var ret := old(all).threads[t].pc.ret; ret.Some? ==> ret.value in all.outside
    {
      Interfere(t);
      assert records[t] == Empty;
      records := records[t := Done(x)];
      StashActs(all, t);
      Take(Act(t, SeesEmpty), t);
    }

    /** `help_finishing_req` on the record of u with list k, at most one pop and one CAS.  `was` is
        the list as the pop, if any, finds it; `acts` are the accesses made. */
    method HelpFinishingReq(t: Tid, u: Tid, k: nat, held: Option<Span>)
      returns (held': Option<Span>, listIsNull: bool, cas2: nat, cas: nat, ghost was: seq<Span>, ghost acts: nat)
      requires Valid() && t < n && k == all.threads[t].queryPos && held == all.threads[t].held
      requires InCall(all.threads[t]) && all.threads[t].pc.call.First? && u == Target(all.threads[t], t)
      modifies this
      ensures Rely(t) && u < n && k < n && cas2 <= 1 && cas <= 1 && all.spans == old(all).spans
      ensures var th := old(all).threads[t];
        all.threads[t] == CallReturns(n, budget,
          Tick(th, acts).(held := held', cas2 := th.cas2 + cas2, cas := th.cas + cas), listIsNull)
      ensures listIsNull ==> held' == held == None
      ensures held'.Some? ==> held' == held || (held == None && was != [] && held'.value == was[0])
      ensures u == t && !old(records)[t].Empty? && !listIsNull && held'.Some? ==> records[t].Done?
      ensures calm && held == None ==>
        held' == None && CalmCall(u, k, old(lists), old(records), lists, records, listIsNull)
    {
      held', listIsNull, cas2, cas, was := held, false, 0, 0, [];
      var phase;
      phase, acts := LookTwice(t, u);
      if phase.None? { return; }
      ghost var more;
      ghost var base := Tick(old(all).threads[t], acts);
      held', listIsNull, cas2, cas, was, more := PopAndComplete(t, u, k, phase.value, held, base);
      acts := acts + more;
    }

    /** The two loads: the phase to complete, if the record was pending with it both times. */
    method LookTwice(t: Tid, u: Tid) returns (phase: Option<nat>, ghost acts: nat)
      requires Valid() && t < n && InCall(all.threads[t]) && all.threads[t].pc.call.First?
      requires u == Target(all.threads[t], t)
      modifies this
      ensures Rely(t) && u < n && all.spans == old(all).spans
      ensures var th := Tick(old(all).threads[t], acts);
        all.threads[t] ==
          if phase.None? then CallReturns(n, budget, th, false)
          else AtCall(th, if th.held.None? then TryPop(phase.value) else Complete(phase.value))
      ensures phase.None? && u == t && !old(records)[t].Empty? ==> records[t].Done?
      ensures phase.Some? ==> records[u] == Pending(phase.value)
      ensures calm ==> lists == old(lists) && records == old(records) && (phase.Some? <==> records[u].Pending?)
    {
      acts := 1;
      var start := Load(t, u);
      if !start.Pending? { return None, acts; }
      var now := Load(t, u);
      acts := 2;
      phase := if now == start then Some(start.phase) else None;
    }

    /** The pop, if nothing is held yet, and the CAS; `base` are the locals of the call. */
    method PopAndComplete(t: Tid, u: Tid, k: nat, p: nat, held: Option<Span>, ghost base: Thread)
      returns (held': Option<Span>, listIsNull: bool, cas2: nat, cas: nat, ghost was: seq<Span>, ghost acts: nat)
      requires Valid() && t < n && k == base.queryPos && held == base.held && InCall(base) && u == Target(base, t) < n
      requires all.threads[t] == AtCall(base, if held.None? then TryPop(p) else Complete(p))
      modifies this
      ensures Rely(t) && k < n && cas2 <= 1 && cas <= 1 && all.spans == old(all).spans
      ensures all.threads[t] == CallReturns(n, budget,
        Tick(base, acts).(held := held', cas2 := base.cas2 + cas2, cas := base.cas + cas), listIsNull)
      ensures listIsNull ==> held' == held == None
      ensures held'.Some? ==> held' == held || (held == None && was != [] && held'.value == was[0])
      ensures u == t && Mine(old(records)[t], p) && !listIsNull && held'.Some? ==> records[t].Done?
      ensures calm && held == None && old(records)[u] == Pending(p) ==>
        held' == None && CalmCall(u, k, old(lists), old(records), lists, records, listIsNull)
    {
      held', listIsNull, cas2, cas, was, acts := held, false, 0, 0, [], 0;
      if held.None? {
        held', listIsNull, cas2, was, acts := PopFront(t, k, p, base);
        if held'.None? { return; }
      }
      ghost var more;
      held', more := CompleteHeld(t, u, p, held'.value, Tick(base, acts).(held := held', cas2 := base.cas2 + cas2));
      cas, acts := 1, acts + more;
    }

    /** The CAS with the span held. */
    method CompleteHeld(t: Tid, u: Tid, p: nat, x: Span, ghost base: Thread)
      returns (held: Option<Span>, ghost acts: nat)
      requires Valid() && t < n && InCall(base) && base.held == Some(x) && u == Target(base, t) < n
      requires all.threads[t] == AtCall(base, Complete(p))
      modifies this
      ensures Rely(t) && all.spans == old(all).spans && (held == None || held == Some(x))
      ensures all.threads[t] == CallReturns(n, budget, Tick(base, acts).(held := held, cas := base.cas + 1), false)
      ensures if held == None then records[u] == Done(x) else records[u] != Pending(p)
      ensures calm ==> lists == old(lists) && (held == None <==> old(records)[u] == Pending(p))
      ensures calm ==> records == if held == None then old(records)[u := Done(x)] else old(records)
    {
      ghost var th := all.threads[t];
      var ok := CompleteRequest(t, u, p, x);
      held, acts := if ok then None else Some(x), 1;
      SameReturn(n, budget, Tick(th, 1).(cas := th.cas + 1, held := held), base.pc, false);
    }

    /** The pop: a span to complete the request with, or the call is over. */
    method PopFront(t: Tid, k: nat, p: nat, ghost base: Thread)
      returns (held: Option<Span>, listIsNull: bool, cas2: nat, ghost was: seq<Span>, ghost acts: nat)
      requires Valid() && t < n && k == base.queryPos && InCall(base) && base.held == None
      requires all.threads[t] == AtCall(base, TryPop(p))
      modifies this
      ensures Rely(t) && k < n && cas2 <= 1 && all.spans == old(all).spans && (listIsNull ==> held == None)
      ensures var th := Tick(base, acts).(held := held, cas2 := base.cas2 + cas2);
        all.threads[t] == if held.Some? then AtCall(th, Complete(p)) else CallReturns(n, budget, th, listIsNull)
      ensures held.Some? ==> was != [] && held.value == was[0]
      ensures calm ==> records == old(records) && listIsNull == (old(lists)[k] == [])
      ensures calm ==> if listIsNull then lists == old(lists)
                       else held == Some(old(lists)[k][0]) && lists == old(lists)[k := old(lists)[k][1..]]
    {
      held, listIsNull, cas2 := None, false, 1;
      ghost var th := all.threads[t];
      var o;
      o, was := TryPopHeadOnce(t, k);
      match o {
        case Got(x) => held, acts := Some(x), 6;
        case SawEmpty =>
          listIsNull, cas2, acts := true, 0, 3;
          SameReturn(n, budget, Tick(th, 3), base.pc, true);
        case LostRace =>
          acts := 4;
          SameReturn(n, budget, Tick(th, 4).(cas2 := th.cas2 + 1), base.pc, false);
      }
    }
  }

  // ------------------------------------------------------------------
  // The caller

  /** Span x is in exactly one list, record, held slot, return value or caller's hands, and thread t
      itself holds it back nowhere. */
  ghost predicate InOnePlace(s: State, t: Tid, x: Span) {
    exists p :: Holds(s, p, x) && p != HeldBy(t) && p != Returning(t) && forall q :: Holds(s, q, x) ==> q == p
  }

  /** Positions and counters are the same but for k more swaps. */
  ghost predicate SamePlace(th: Thread, th': Thread, k: nat) {
    && th'.queryPos == th.queryPos && th'.helping == th.helping && th'.helpSteps == th.helpSteps
    && th'.querySteps == th.querySteps && th'.cas2 == th.cas2 && th'.cas == th.cas && th'.swaps == th.swaps + k
  }

  /** The loop variables of a call. */
  datatype Vars = Vars(held: Option<Span>, queryPos: nat, helping: nat, helpCount: nat, helpQuery: nat)

  ghost function AsThread(x: Vars, lastPhase: nat, phase: nat, c: Counts, acts: nat): Thread {
    Thread(Idle, x.held, x.queryPos, x.helping, x.helpCount, x.helpQuery, lastPhase, phase,
           c.helpSteps, c.querySteps, c.cas2, c.cas, c.swaps, acts, false)
  }

  /** The positions and counters a thread has in Helping. */
  ghost predicate Reports(th: Thread, queryPos: nat, helping: nat, c: Counts) {
    && th.queryPos == queryPos && th.helping == helping
    && c == Counts(th.helpSteps, th.querySteps, th.cas2, th.cas, th.swaps)
  }

  /** The counters of the helping loop. */
  ghost predicate HelpCounts(x: Vars, c: Counts, n: nat, budget: nat) {
    && x.queryPos < n && x.helping < n && x.helpCount <= budget
    && x.helpQuery <= n && (x.helpQuery == n ==> x.held == None)
    && c.querySteps == 0 && c.swaps == 1 && c.cas2 <= c.helpSteps && c.cas <= c.helpSteps
    && c.helpSteps == x.helpCount + x.helpQuery
  }

  /** What an undisturbed helping loop has achieved: the lists passed are empty, and none of the
      requests passed, from the record at h on, is pending any more. */
  ghost predicate Helped(x: Vars, h: nat, q: nat, lists: seq<seq<Span>>, records: seq<Record>) {
    && |lists| == |records| && |lists| >= 1 && q < |lists| && x.helpQuery <= |lists|
    && x.held == None && x.queryPos == Cyclic(q, x.helpQuery, |lists|) && EmptyBefore(lists, q, x.helpQuery)
    && h < |records| && x.helping == Nth(h, x.helpCount, |records|)
    && forall i :: 0 <= i < x.helpCount ==> !records[Nth(h, i, |records|)].Pending?
  }

  /** The i-th of n records in cyclic order from h, however often it goes round. */
  function Nth(h: nat, i: nat, n: nat): (p: nat)
    requires h < n
    ensures p < n
  {
    if i == 0 then h else (Nth(h, i - 1, n) + 1) % n
  }

  lemma CyclicNext(q: nat, k: nat, n: nat)
    requires q < n && k < n
    ensures (Cyclic(q, k, n) + 1) % n == Cyclic(q, k + 1, n)
  {
  }

  /** One more list found empty. */
  lemma HelpedPastList(x: Vars, h: nat, q: nat, lists: seq<seq<Span>>, records: seq<Record>)
    requires Helped(x, h, q, lists, records) && x.helpQuery < |lists| && lists[x.queryPos] == []
    ensures Helped(x.(helpQuery := x.helpQuery + 1, queryPos := (x.queryPos + 1) % |lists|), h, q, lists, records)
  {
    CyclicNext(q, x.helpQuery, |lists|);
  }

  /** One more request looked at: it was not pending or is completed now. */
  lemma HelpedOne(x: Vars, h: nat, q: nat, lists: seq<seq<Span>>, records: seq<Record>,
                  lists': seq<seq<Span>>, records': seq<Record>)
    requires Helped(x, h, q, lists, records) && x.queryPos < |lists| && x.helping < |records|
    requires if !records[x.helping].Pending? then lists' == lists && records' == records
             else lists[x.queryPos] != [] && lists' == lists[x.queryPos := lists[x.queryPos][1..]]
                  && records' == records[x.helping := Done(lists[x.queryPos][0])]
    ensures Helped(x.(helpCount := x.helpCount + 1, helping := (x.helping + 1) % |lists|), h, q, lists', records')
  {
    StillEmpty(lists, lists', q, x.helpQuery, x.queryPos);
  }

  /** A list that is not empty is none of those passed. */
  lemma StillEmpty(lists: seq<seq<Span>>, lists': seq<seq<Span>>, q: nat, k: nat, p: nat)
    requires EmptyBefore(lists, q, k) && p < |lists|
    requires lists' == lists || (lists[p] != [] && lists' == lists[p := lists[p][1..]])
    ensures EmptyBefore(lists', q, k)
  {
  }

  lemma StartsUndisturbed(l0: seq<seq<Span>>, r0: seq<Record>, q: nat, h: nat, t: Tid, phase: nat)
    requires |l0| == |r0| && q < |l0| && h < |l0| && t < |r0|
    ensures Helped(Vars(None, q, h, 0, 0), h, q, l0, r0[t := Pending(phase)])
    ensures Undisturbed(l0, r0, q, 0, q, t, phase, l0, r0[t := Pending(phase)])
  {
  }

  /** The caller's words: its positions in the two rounds and its phase counter. */
  class Caller {
    const t: Tid
    var curQuery: nat
    var helpingPos: nat
    var lastPhase: nat

    /** Between calls: nothing of this thread's is under way. */
    ghost predicate Ready(lane: Lane)
      reads this, lane
    {
      lane.Valid() && t < lane.n && lane.all.threads[t].pc.Idle? && lane.all.threads[t].lastPhase == lastPhase
    }

    /** `finish_with`: a held span goes into the caller's empty record. */
    method FinishWith(lane: Lane, ret: Option<Span>, held: Option<Span>) returns (r: Option<Span>)
      requires lane.Valid() && t < lane.n && lane.records[t] == Empty && held == lane.all.threads[t].held
      requires lane.all.threads[t].pc == if held.Some? then Stash(ret) else Idle
      requires lane.all.threads[t].lastPhase == lastPhase
      requires (held.Some? ==> ret.Some?) && (held.None? && ret.Some? ==> ret.value in lane.all.outside)
      modifies lane
      ensures Ready(lane) && r == ret && lane.Later()
      ensures SamePlace(old(lane.all).threads[t], lane.all.threads[t], 0)
      ensures ret.Some? ==> ret.value in lane.all.outside
      ensures lane.records[t] == if held.Some? then Done(held.value) else Empty
      ensures lane.calm && held == None ==> lane.lists == old(lane.lists) && lane.records == old(lane.records)
    {
      if held.Some? { lane.StashSpan(t, held.value); }
      r := ret;
    }

    /** One iteration of the helping loop. */
    method HelpOne(lane: Lane, x: Vars, phase: nat, c: Counts, ghost acts: nat,
                   ghost l0: seq<seq<Span>>, ghost r0: seq<Record>, ghost q: nat, ghost h: nat)
      returns (x': Vars, c': Counts, ghost acts': nat)
      requires lane.Valid() && t < lane.n && Mine(lane.records[t], phase)
      requires HelpCounts(x, c, lane.n, lane.budget) && x.helpCount < lane.budget && x.helpQuery < lane.n
      requires lane.all.threads[t] == HelpTop(lane.n, lane.budget, AsThread(x, lastPhase, phase, c, acts))
      requires lane.calm ==> Helped(x, h, q, lane.lists, lane.records)
      requires lane.calm && NoPending(r0) ==>
        Undisturbed(l0, r0, q, x.helpQuery, x.queryPos, t, phase, lane.lists, lane.records)
      modifies lane
      ensures lane.Valid() && Mine(lane.records[t], phase) && lane.Later()
      ensures HelpCounts(x', c', lane.n, lane.budget)
      ensures x'.helpCount + x'.helpQuery == x.helpCount + x.helpQuery + 1
      ensures lane.all.threads[t] == HelpTop(lane.n, lane.budget, AsThread(x', lastPhase, phase, c', acts'))
      ensures lane.calm ==> Helped(x', h, q, lane.lists, lane.records)
      ensures lane.calm && NoPending(r0) ==>
        Undisturbed(l0, r0, q, x'.helpQuery, x'.queryPos, t, phase, lane.lists, lane.records)
    {
      x', c', acts' := x, c.(helpSteps := c.helpSteps + 1), acts + 1;
      var r := lane.Load(t, x.helping);
      if r.Pending? {
        x', c', acts' := HelpPending(lane, x, phase, c', acts', l0, r0, q, h);
      } else {
        if lane.calm { HelpedOne(x, h, q, lane.lists, lane.records, lane.lists, lane.records); }
        x' := x.(helpCount := x.helpCount + 1, helping := (x.helping + 1) % lane.n);
      }
    }

    /** The rest of an iteration that found a request pending. */
    method HelpPending(lane: Lane, x: Vars, phase: nat, c: Counts, ghost acts: nat,
                       ghost l0: seq<seq<Span>>, ghost r0: seq<Record>, ghost q: nat, ghost h: nat)
      returns (x': Vars, c': Counts, ghost acts': nat)
      requires lane.Valid() && t < lane.n && Mine(lane.records[t], phase)
      requires x.queryPos < lane.n && x.helping < lane.n && x.helpQuery < lane.n
      requires lane.all.threads[t] == AsThread(x, lastPhase, phase, c, acts).(pc := HelpCall(First))
      requires lane.calm ==> Helped(x, h, q, lane.lists, lane.records) && lane.records[x.helping].Pending?
      requires lane.calm && NoPending(r0) ==>
        Undisturbed(l0, r0, q, x.helpQuery, x.queryPos, t, phase, lane.lists, lane.records)
      modifies lane
      ensures lane.Valid() && Mine(lane.records[t], phase) && lane.Later()
      ensures c' == c.(cas2 := c'.cas2, cas := c'.cas) && c'.cas2 <= c.cas2 + 1 && c'.cas <= c.cas + 1
      ensures || (x' == x.(helpQuery := x.helpQuery + 1, queryPos := (x.queryPos + 1) % lane.n) && x.held == None)
              || x' == x.(helpCount := x.helpCount + 1, helping := (x.helping + 1) % lane.n, held := x'.held)
      ensures lane.all.threads[t] == HelpTop(lane.n, lane.budget, AsThread(x', lastPhase, phase, c', acts'))
      ensures lane.calm ==> Helped(x', h, q, lane.lists, lane.records)
      ensures lane.calm && NoPending(r0) ==>
        Undisturbed(l0, r0, q, x'.helpQuery, x'.queryPos, t, phase, lane.lists, lane.records)
    {
      ghost var ls, rs := lane.lists, lane.records;
      var held, listIsNull, cas2, cas;
      ghost var list, more;
      held, listIsNull, cas2, cas, list, more := lane.HelpFinishingReq(t, x.helping, x.queryPos, x.held);
      c', acts' := c.(cas2 := c.cas2 + cas2, cas := c.cas + cas), acts + more;
      HelpEffect(lane.calm, x, phase, ls, rs, lane.lists, lane.records, listIsNull, l0, r0, q, h);
      if listIsNull {
        x' := x.(held := held, helpQuery := x.helpQuery + 1, queryPos := (x.queryPos + 1) % lane.n);
      } else {
        x' := x.(held := held, helpCount := x.helpCount + 1, helping := (x.helping + 1) % lane.n);
      }
    }

    /** What a call of `help_finishing_req` achieves for the loop when nobody interferes. */
    lemma HelpEffect(calm: bool, x: Vars, phase: nat, ls: seq<seq<Span>>, rs: seq<Record>,
                     ls': seq<seq<Span>>, rs': seq<Record>, listIsNull: bool,
                     l0: seq<seq<Span>>, r0: seq<Record>, q: nat, h: nat)
      requires calm ==> Helped(x, h, q, ls, rs) && x.helpQuery < |ls| && x.queryPos < |ls| && x.helping < |rs|
      requires calm ==> rs[x.helping].Pending? && CalmCall(x.helping, x.queryPos, ls, rs, ls', rs', listIsNull)
      requires calm && NoPending(r0) ==> Undisturbed(l0, r0, q, x.helpQuery, x.queryPos, t, phase, ls, rs)
      ensures calm && listIsNull ==>
        Helped(x.(helpQuery := x.helpQuery + 1, queryPos := (x.queryPos + 1) % |ls|), h, q, ls', rs')
      ensures calm && !listIsNull ==>
        Helped(x.(helpCount := x.helpCount + 1, helping := (x.helping + 1) % |ls|), h, q, ls', rs')
      ensures calm && NoPending(r0) && listIsNull ==>
        Undisturbed(l0, r0, q, x.helpQuery + 1, (x.queryPos + 1) % |ls|, t, phase, ls', rs')
      ensures calm && NoPending(r0) && !listIsNull ==>
        Undisturbed(l0, r0, q, x.helpQuery, x.queryPos, t, phase, ls', rs')
    {
      if calm {
        if listIsNull { HelpedPastList(x, h, q, ls, rs); } else { HelpedOne(x, h, q, ls, rs, ls', rs'); }
        if NoPending(r0) {
          CallUndisturbed(l0, r0, q, x.helpQuery, x.queryPos, t, phase, ls, rs, x.helping, ls', rs', listIsNull);
        }
      }
    }

    /**
     Step 3: the helping loop, from list q and record h on. Undisturbed, it ends with every one of
     the first H requests from h on not pending any more, or with all n lists empty.
     */
    method HelpOthers(lane: Lane, q: nat, h: nat, phase: nat, ghost acts: nat,
                      ghost l0: seq<seq<Span>>, ghost r0: seq<Record>)
      returns (x: Vars, c: Counts, ghost acts': nat)
      requires lane.Valid() && t < lane.n && q < lane.n && h < lane.n && Mine(lane.records[t], phase)
      requires lane.all.threads[t] == HelpTop(lane.n, lane.budget,
        AsThread(Vars(None, q, h, 0, 0), lastPhase, phase, Counts(0, 0, 0, 0, 1), acts))
      requires lane.calm ==> lane.lists == l0 && |r0| == lane.n && lane.records == r0[t := Pending(phase)]
      modifies lane
      ensures lane.Valid() && Mine(lane.records[t], phase) && lane.Later()
      ensures HelpCounts(x, c, lane.n, lane.budget) && (x.helpCount == lane.budget || x.helpQuery == lane.n)
      ensures lane.all.threads[t] == QueryTop(lane.n, AsThread(x, lastPhase, phase, c, acts'))
      ensures lane.calm ==> Helped(x, h, q, lane.lists, lane.records)
      ensures lane.calm && NoPending(r0) ==>
        Undisturbed(l0, r0, q, x.helpQuery, x.queryPos, t, phase, lane.lists, lane.records)
    {
      x, c, acts' := Vars(None, q, h, 0, 0), Counts(0, 0, 0, 0, 1), acts;
      if lane.calm { StartsUndisturbed(l0, r0, q, h, t, phase); }
      while x.helpCount < lane.budget && x.helpQuery < lane.n
        invariant lane.Valid() && Mine(lane.records[t], phase) && lane.Later()
        invariant HelpCounts(x, c, lane.n, lane.budget)
        invariant lane.all.threads[t] == HelpTop(lane.n, lane.budget, AsThread(x, lastPhase, phase, c, acts'))
        invariant lane.calm ==> Helped(x, h, q, lane.lists, lane.records)
        invariant lane.calm && NoPending(r0) ==>
          Undisturbed(l0, r0, q, x.helpQuery, x.queryPos, t, phase, lane.lists, lane.records)
        decreases lane.budget + lane.n - x.helpCount - x.helpQuery
      {
        x, c, acts' := HelpOne(lane, x, phase, c, acts', l0, r0, q, h);
      }
    }

    /** A helper completed the request: take its span, and stash the one still held, if any. */
    method TakeCompleted(lane: Lane, held: Option<Span>) returns (span: Option<Span>, ghost was: Record)
      requires lane.Valid() && t < lane.n && lane.all.threads[t].pc.ReclaimCompleted?
      requires lane.all.threads[t].held == held && lane.all.threads[t].lastPhase == lastPhase
      requires lane.records[t].Done? || (lane.records[t] == Empty && held == None)
      modifies lane
      ensures Ready(lane) && lane.Later() && SamePlace(old(lane.all).threads[t], lane.all.threads[t], 1)
      ensures span == SpanOf(was) && (span.Some? ==> span.value in lane.all.outside)
      ensures !lane.records[t].Pending? && (span == None ==> lane.records[t] == Empty)
      ensures lane.calm && held == None ==> was == old(lane.records)[t] && lane.lists == old(lane.lists)
      ensures lane.calm && held == None ==> lane.records == old(lane.records)[t := Empty]
    {
      span, was := lane.ReclaimRequest(t);
      span := FinishWith(lane, span, held);
    }

    /** After working on one's own request: take its span if it is completed, or withdraw it. */
    method TakeOwn(lane: Lane, held: Option<Span>, ghost phase: nat) returns (span: Option<Span>, ghost was: Record)
      requires lane.Valid() && t < lane.n && lane.all.threads[t].pc.ReclaimOwn?
      requires lane.all.threads[t].held == held && lane.all.threads[t].lastPhase == lastPhase
      requires Mine(lane.records[t], phase) && (held.Some? ==> lane.records[t].Done?)
      modifies lane
      ensures lane.Valid() && lane.Later() && span == SpanOf(was)
      ensures span.Some? ==> Ready(lane) && span.value in lane.all.outside && !lane.records[t].Pending?
      ensures span.Some? ==> SamePlace(old(lane.all).threads[t], lane.all.threads[t], 1)
      ensures span.None? ==> held == None && lane.records[t] == Empty
      ensures span.None? ==> var th := old(lane.all).threads[t];
        lane.all.threads[t] == QueryTop(lane.n, Tick(th, 1).(swaps := th.swaps + 1, helpQuery := th.helpQuery + 1,
                                                             queryPos := (th.queryPos + 1) % lane.n))
      ensures lane.calm && held == None ==> was == old(lane.records)[t] && lane.lists == old(lane.lists)
      ensures lane.calm && held == None ==> lane.records == old(lane.records)[t := Empty]
    {
      span, was := lane.ReclaimRequest(t);
      if span.Some? { span := FinishWith(lane, span, held); }
      // A span still held would be returned directly here; there never is one.
    }

    /** One iteration of the query loop: it ends the call or goes on with the next list. */
    method QueryOne(lane: Lane, x: Vars, phase: nat, c: Counts, ghost acts: nat,
                    ghost l0: seq<seq<Span>>, ghost r0: seq<Record>, ghost q: nat)
      returns (done: bool, span: Option<Span>, x': Vars, c': Counts, ghost was: Record, ghost acts': nat)
      requires lane.Valid() && t < lane.n && x.helpQuery < lane.n && x.queryPos < lane.n
      requires Mine(lane.records[t], phase) || (lane.records[t] == Empty && x.held == None)
      requires lane.all.threads[t] == QueryTop(lane.n, AsThread(x, lastPhase, phase, c, acts))
      requires lane.calm && NoPending(r0) ==>
        x.held == None && Undisturbed(l0, r0, q, x.helpQuery, x.queryPos, t, phase, lane.lists, lane.records)
      modifies lane
      ensures lane.Valid() && lane.Later() && x'.queryPos < lane.n && x'.helping == x.helping
      ensures c'.helpSteps == c.helpSteps && c'.querySteps == c.querySteps + 1
      ensures c'.cas2 <= c.cas2 + 1 && c'.cas <= c.cas + 1 && c'.swaps <= c.swaps + 1
      ensures done ==> Ready(lane) && span == SpanOf(was) && (span.Some? ==> span.value in lane.all.outside)
      ensures done ==> Reports(lane.all.threads[t], x'.queryPos, x'.helping, c')
      ensures done ==> !lane.records[t].Pending? && (span == None ==> lane.records[t] == Empty)
      ensures done && lane.calm && NoPending(r0) ==>
        Served(l0, r0, q, x'.queryPos, t, span, lane.lists, lane.records)
      ensures !done ==> x'.held == None && x'.helpQuery == x.helpQuery + 1 && x'.helpCount == x.helpCount
      ensures !done ==> Mine(lane.records[t], phase) || lane.records[t] == Empty
      ensures !done ==> lane.all.threads[t] == QueryTop(lane.n, AsThread(x', lastPhase, phase, c', acts'))
      ensures !done && lane.calm && NoPending(r0) ==>
        Undisturbed(l0, r0, q, x'.helpQuery, x'.queryPos, t, phase, lane.lists, lane.records)
    {
      done, span, was, x', c', acts' := false, None, Empty, x, c.(querySteps := c.querySteps + 1), acts + 1;
      var state := lane.Load(t, t);
      if !state.Pending? {
        span, was := TakeCompleted(lane, x.held);
        done, c' := true, c'.(swaps := c'.swaps + 1);
        return;
      }
      done, span, x', c', was, acts' := QueryList(lane, x, phase, c', acts', l0, r0, q);
    }

    /** The rest of an iteration that found the request still pending. */
    method QueryList(lane: Lane, x: Vars, phase: nat, c: Counts, ghost acts: nat,
                     ghost l0: seq<seq<Span>>, ghost r0: seq<Record>, ghost q: nat)
      returns (done: bool, span: Option<Span>, x': Vars, c': Counts, ghost was: Record, ghost acts': nat)
      requires lane.Valid() && t < lane.n && x.helpQuery < lane.n && x.queryPos < lane.n && Mine(lane.records[t], phase)
      requires lane.all.threads[t] == AsThread(x, lastPhase, phase, c, acts).(pc := QueryCall(First))
      requires lane.calm && NoPending(r0) ==>
        x.held == None && Undisturbed(l0, r0, q, x.helpQuery, x.queryPos, t, phase, lane.lists, lane.records)
      modifies lane
      ensures lane.Valid() && lane.Later() && x'.queryPos < lane.n && x'.helping == x.helping
      ensures c'.helpSteps == c.helpSteps && c'.querySteps == c.querySteps
      ensures c'.cas2 <= c.cas2 + 1 && c'.cas <= c.cas + 1 && c'.swaps <= c.swaps + 1
      ensures done ==> Ready(lane) && span == SpanOf(was) && span.Some? && span.value in lane.all.outside
      ensures done ==> Reports(lane.all.threads[t], x'.queryPos, x'.helping, c')
      ensures done ==> !lane.records[t].Pending?
      ensures done && lane.calm && NoPending(r0) ==>
        Served(l0, r0, q, x'.queryPos, t, span, lane.lists, lane.records)
      ensures !done ==> x'.held == None && x'.helpQuery == x.helpQuery + 1 && x'.helpCount == x.helpCount
      ensures !done ==> Mine(lane.records[t], phase) || lane.records[t] == Empty
      ensures !done ==> lane.all.threads[t] == QueryTop(lane.n, AsThread(x', lastPhase, phase, c', acts'))
      ensures !done && lane.calm && NoPending(r0) ==>
        Undisturbed(l0, r0, q, x'.helpQuery, x'.queryPos, t, phase, lane.lists, lane.records)
    {
      ghost var ls, rs := lane.lists, lane.records;
      var held, listIsNull, cas2, cas;
      ghost var list, more;
      held, listIsNull, cas2, cas, list, more := lane.HelpFinishingReq(t, t, x.queryPos, x.held);
      if lane.calm && NoPending(r0) {
        CallUndisturbed(l0, r0, q, x.helpQuery, x.queryPos, t, phase, ls, rs, t, lane.lists, lane.records, listIsNull);
      }
      done, span, was := false, None, Empty;
      c', acts' := c.(cas2 := c.cas2 + cas2, cas := c.cas + cas), acts + more;
      x' := x.(held := held, helpQuery := x.helpQuery + 1, queryPos := (x.queryPos + 1) % lane.n);
      if listIsNull { return; }
      span, was := TakeOwn(lane, held, phase);
      c', acts' := c'.(swaps := c'.swaps + 1), acts' + 1;
      if span.Some? { done, x' := true, x'.(queryPos := x.queryPos); }
    }

    /** The counters of the query loop. */
    ghost predicate QueryCounts(x: Vars, c: Counts, x0: Vars, c0: Counts) {
      && c.helpSteps == c0.helpSteps && c.querySteps + x0.helpQuery == x.helpQuery
      && c.cas2 <= c.helpSteps + c.querySteps && c.cas <= c.helpSteps + c.querySteps
      && c.swaps <= c.querySteps + 1
    }

    /** Step 4: the caller's own request, over the lists still in its query budget. */
    method FinishOwn(lane: Lane, x0: Vars, phase: nat, c0: Counts, ghost acts: nat,
                     ghost l0: seq<seq<Span>>, ghost r0: seq<Record>, ghost q: nat)
      returns (done: bool, span: Option<Span>, x: Vars, c: Counts, ghost was: Record, ghost acts': nat)
      requires lane.Valid() && t < lane.n && Mine(lane.records[t], phase) && HelpCounts(x0, c0, lane.n, lane.budget)
      requires lane.all.threads[t] == QueryTop(lane.n, AsThread(x0, lastPhase, phase, c0, acts))
      requires lane.calm && NoPending(r0) ==>
        x0.held == None && Undisturbed(l0, r0, q, x0.helpQuery, x0.queryPos, t, phase, lane.lists, lane.records)
      modifies lane
      ensures lane.Valid() && lane.Later() && x.queryPos < lane.n && x.helping == x0.helping
      ensures c.helpSteps == c0.helpSteps && c.querySteps + x0.helpQuery <= lane.n
      ensures c.cas2 <= c.helpSteps + c.querySteps && c.cas <= c.helpSteps + c.querySteps
      ensures c.swaps <= c.querySteps + 1
      ensures done ==> Ready(lane) && span == SpanOf(was) && (span.Some? ==> span.value in lane.all.outside)
      ensures done ==> Reports(lane.all.threads[t], x.queryPos, x.helping, c)
      ensures done ==> !lane.records[t].Pending? && (span == None ==> lane.records[t] == Empty)
      ensures done && lane.calm && NoPending(r0) ==> Served(l0, r0, q, x.queryPos, t, span, lane.lists, lane.records)
      ensures !done ==> lane.records[t] == Empty || Mine(lane.records[t], phase)
      ensures !done ==>
        x.held == None && lane.all.threads[t] == AsThread(x, lastPhase, phase, c, acts').(pc := ClearRequest)
      ensures !done && lane.calm && NoPending(r0) ==>
        Searching(l0, r0, q, lane.n, t, phase, lane.lists, lane.records)
    {
      x, c, done, span, was, acts' := x0, c0, false, None, Empty, acts;
      while x.helpQuery < lane.n
        invariant lane.Valid() && lane.Later()
        invariant x.queryPos < lane.n && x.helpQuery <= lane.n && x.helping == x0.helping
        invariant Mine(lane.records[t], phase) || (lane.records[t] == Empty && x.held == None)
        invariant x.helpQuery == lane.n ==> x.held == None
        invariant QueryCounts(x, c, x0, c0)
        invariant lane.all.threads[t] == QueryTop(lane.n, AsThread(x, lastPhase, phase, c, acts'))
        invariant lane.calm && NoPending(r0) ==>
          x.held == None && Undisturbed(l0, r0, q, x.helpQuery, x.queryPos, t, phase, lane.lists, lane.records)
      {
        done, span, x, c, was, acts' := QueryOne(lane, x, phase, c, acts', l0, r0, q);
        if done { return; }
      }
    }

    /** Step 5: withdraw the request, or take what a helper put there first: `was`. */
    method GiveUp(lane: Lane, phase: nat) returns (span: Option<Span>, ghost was: Record)
      requires lane.Valid() && t < lane.n && (lane.records[t] == Empty || Mine(lane.records[t], phase))
      requires var th := lane.all.threads[t];
        th.pc.ClearRequest? && th.phase == phase && th.held == None && th.lastPhase == lastPhase
      modifies lane
      ensures Ready(lane) && lane.records[t] == Empty && span == SpanOf(was) && lane.Later()
      ensures var th := old(lane.all).threads[t]; SamePlace(th.(cas := th.cas + 1), lane.all.threads[t], 1)
      ensures span.Some? ==> span.value in lane.all.outside
      ensures old(lane.records)[t].Done? ==> was == old(lane.records)[t]
      ensures old(lane.records)[t].Empty? ==> span == None
      ensures !was.Pending?
      ensures lane.calm && old(lane.records)[t] == Pending(phase) ==>
        span == None && lane.lists == old(lane.lists) && lane.records == old(lane.records)[t := Empty]
    {
      lane.WithdrawRequest(t, phase);
      span, was := lane.ReclaimRequest(t);
    }

    /** The call itself. */
    method Acquire(lane: Lane) returns (span: Option<Span>, c: Counts, ghost was: Record)
      requires Ready(lane)
      modifies this, lane
      ensures Ready(lane) && lane.Later()
      ensures span.Some? ==> span.value in lane.all.outside
      ensures !lane.records[t].Pending? && (span == None ==> lane.records[t] == Empty)
      ensures span == SpanOf(was)
      ensures Within(c, lane.n, lane.budget) && curQuery < lane.n && helpingPos < lane.n
      ensures Reports(lane.all.threads[t], curQuery, helpingPos, c)
      ensures old(lane.records)[t].Done? ==> span == Some(old(lane.records)[t].span) && c == Counts(0, 0, 0, 0, 1)
      ensures lane.calm && old(lane.records)[t].Done? ==>
        lane.lists == old(lane.lists) && lane.records == old(lane.records)[t := Empty]
      ensures lane.calm && NoPending(old(lane.records)) && old(lane.records)[t] == Empty ==>
        RunAlone(old(lane.lists), old(lane.records), old(curQuery) % lane.n, curQuery, t, span, lane.lists,
          lane.records)
    {
      ghost var l0, r0 := lane.lists, lane.records;
      var q, h := curQuery % lane.n, helpingPos % lane.n;
      lane.Begin(t, curQuery, helpingPos);
      span, was := lane.ReclaimRequest(t);
      curQuery, helpingPos := q, h;
      if span.Some? { return span, Counts(0, 0, 0, 0, 1), was; }
      span, c, was := Request(lane, q, h, l0, r0);
    }

    /** Steps 2 to 5: there was nothing in the record. */
    method Request(lane: Lane, q: nat, h: nat, ghost l0: seq<seq<Span>>, ghost r0: seq<Record>)
      returns (span: Option<Span>, c: Counts, ghost was: Record)
      requires lane.Valid() && t < lane.n && q < lane.n && h < lane.n && lane.records[t] == Empty
      requires var th := lane.all.threads[t];
        th == AsThread(Vars(None, q, h, 0, 0), lastPhase, th.phase, Counts(0, 0, 0, 0, 1), 1).(pc := PublishRequest)
      requires lane.calm ==> lane.lists == l0 && |r0| == lane.n && lane.records == r0[t := Empty]
      modifies this, lane
      ensures Ready(lane) && lane.Later()
      ensures span.Some? ==> span.value in lane.all.outside
      ensures !lane.records[t].Pending? && (span == None ==> lane.records[t] == Empty) && span == SpanOf(was)
      ensures Within(c, lane.n, lane.budget) && curQuery < lane.n && helpingPos < lane.n
      ensures Reports(lane.all.threads[t], curQuery, helpingPos, c)
      ensures lane.calm && NoPending(r0) && r0[t] == Empty ==>
        RunAlone(l0, r0, q, curQuery, t, span, lane.lists, lane.records)
    {
      lastPhase := (lastPhase + 1) % (2 * PHASES);
      var phase := lastPhase % PHASES;
      lane.PublishRequestAs(t, phase);
      var x;
      ghost var acts;
      x, c, acts := HelpOthers(lane, q, h, phase, 3, l0, r0);
      span, c, was := Conclude(lane, x, phase, c, acts, l0, r0, q);
    }

    /** Steps 4 and 5. */
    method Conclude(lane: Lane, x0: Vars, phase: nat, c0: Counts, ghost acts: nat,
                    ghost l0: seq<seq<Span>>, ghost r0: seq<Record>, ghost q: nat)
      returns (span: Option<Span>, c: Counts, ghost was: Record)
      requires lane.Valid() && t < lane.n && Mine(lane.records[t], phase) && HelpCounts(x0, c0, lane.n, lane.budget)
      requires lane.all.threads[t] == QueryTop(lane.n, AsThread(x0, lastPhase, phase, c0, acts))
      requires lane.calm && NoPending(r0) ==>
        x0.held == None && Undisturbed(l0, r0, q, x0.helpQuery, x0.queryPos, t, phase, lane.lists, lane.records)
      modifies this`curQuery, this`helpingPos, lane
      ensures Ready(lane) && lane.Later()
      ensures span.Some? ==> span.value in lane.all.outside
      ensures !lane.records[t].Pending? && (span == None ==> lane.records[t] == Empty) && span == SpanOf(was)
      ensures Within(c, lane.n, lane.budget) && curQuery < lane.n && helpingPos < lane.n
      ensures Reports(lane.all.threads[t], curQuery, helpingPos, c)
      ensures lane.calm && NoPending(r0) && t < |r0| && r0[t] == Empty ==>
        RunAlone(l0, r0, q, curQuery, t, span, lane.lists, lane.records)
    {
      var done, x;
      ghost var acts';
      done, span, x, c, was, acts' := FinishOwn(lane, x0, phase, c0, acts, l0, r0, q);
      curQuery, helpingPos := x.queryPos, x.helping;
      if done {
        if lane.calm && NoPending(r0) { ServedAlone(l0, r0, q, x.queryPos, t, span, lane.lists, lane.records); }
        return;
      }
      span, was := GiveUp(lane, phase);
      c := c.(cas := c.cas + 1, swaps := c.swaps + 1);
      if lane.calm && NoPending(r0) { RoundCoversAll(l0, q); }
    }

    /**
     `acquire_from_lists`. Whatever the other threads do, every action of the call is its step in
     Helping, so that afterwards no span is lost or doubled and this thread holds none; the counts
     stay within their bounds, the caller's record is not left pending, a null result leaves it
     empty, and the result is always what a swap took out of the caller's own record, here `was`.
     A span stashed earlier is returned at once. Run alone with no request pending, the call
     returns the front of the first non-empty list in cyclic order from `cur_query`, wherever
     `helping_pos` points, and null exactly when all n lists are empty.
     */
    method AcquireFromLists(lane: Lane) returns (span: Option<Span>, c: Counts, ghost was: Record)
      requires Ready(lane)
      modifies this, lane
      ensures Ready(lane) && lane.Later()
      ensures forall x :: x in lane.all.spans ==> InOnePlace(lane.all, t, x)
      ensures span.Some? ==> span.value in lane.all.outside
      ensures !lane.records[t].Pending? && (span == None ==> lane.records[t] == Empty)
      ensures span == SpanOf(was)
      ensures Within(c, lane.n, lane.budget) && curQuery < lane.n && helpingPos < lane.n
      ensures Reports(lane.all.threads[t], curQuery, helpingPos, c)
      ensures old(lane.records)[t].Done? ==> span == Some(old(lane.records)[t].span) && c == Counts(0, 0, 0, 0, 1)
      ensures lane.calm && old(lane.records)[t].Done? ==>
        lane.lists == old(lane.lists) && lane.records == old(lane.records)[t := Empty]
      ensures lane.calm && NoPending(old(lane.records)) && old(lane.records)[t] == Empty ==>
        RunAlone(old(lane.lists), old(lane.records), old(curQuery) % lane.n, curQuery, t, span, lane.lists,
          lane.records)
    {
      span, c, was := Acquire(lane);
      forall x | x in lane.all.spans ensures InOnePlace(lane.all, t, x) { lane.Custody(t, x); }
    }
  }
}
