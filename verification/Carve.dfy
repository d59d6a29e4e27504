/**
 Raw carving from the fixed span pool (src/pagemap.rs).

 The pool cursor `next` is moved by fetch-and-add only, and a run that does not
 fit tries once to put the cursor back with a compare-and-exchange.  Any number
 of threads interleave these atomic actions; `count` is fixed by `set_region`
 before the first action, so loading it is folded into the action that uses it.
 The cursor is unbounded (no wrap-around).
 */
module Carve {
  import opened Wrappers

  /** Spans [start, start + len) handed to one caller. */
  datatype Grant = Grant(start: nat, len: nat)

  /** A failed run that still owes its single rollback CAS: start + len -> start. */
  datatype Rollback = Rollback(start: nat, len: nat)

  /** `count` and `next` are the pool's words and `owing` holds the threads between
      a failed fetch-and-add and their CAS.  `grants` and `lost` are histories: the
      ranges handed out, and the rollbacks below `count` whose CAS failed. */
  datatype Pool = Pool(
    count: nat,
    next: nat,
    owing: map<nat, Rollback>,
    grants: seq<Grant>,
    lost: seq<Rollback>)

  datatype Step =
    | TakeSpan(t: nat)
    | TakeRun(t: nat, len: nat)
    | RollBack(t: nat)

  ghost predicate Init(s: Pool) {
    s.next == 0 && s.owing == map[] && s.grants == [] && s.lost == []
  }

  /** `acquire_raw_span`: one fetch-and-add, no rollback on exhaustion. */
  predicate TakeSpanStep(s: Pool, t: nat, s': Pool) {
    && t !in s.owing
    && s' == s.(next := s.next + 1,
                grants := if s.next >= s.count then s.grants else s.grants + [Grant(s.next, 1)])
  }

  /** `acquire_raw_run` up to and including its fetch-and-add. */
  predicate TakeRunStep(s: Pool, t: nat, len: nat, s': Pool) {
    && t !in s.owing
    && len >= 1
    && if len > s.count then s' == s
       else if s.next >= s.count || s.count - s.next < len then
         s' == s.(next := s.next + len, owing := s.owing[t := Rollback(s.next, len)])
       else
         s' == s.(next := s.next + len, grants := s.grants + [Grant(s.next, len)])
  }

  /** The rollback CAS of `acquire_raw_run`, never retried. */
  predicate RollBackStep(s: Pool, t: nat, s': Pool) {
    && t in s.owing
    && var r := s.owing[t];
       if s.next == r.start + r.len then
         s' == s.(next := r.start, owing := s.owing - {t})
       else
         s' == s.(owing := s.owing - {t}, lost := if r.start < s.count then s.lost + [r] else s.lost)
  }

  predicate Next(s: Pool, step: Step, s': Pool) {
    match step
    case TakeSpan(t) => TakeSpanStep(s, t, s')
    case TakeRun(t, len) => TakeRunStep(s, t, len, s')
    case RollBack(t) => RollBackStep(s, t, s')
  }

  /** A run: any interleaving of any threads' steps from the initial pool. */
  ghost predicate IsRun(run: seq<Pool>, steps: seq<Step>) {
    && |run| == |steps| + 1
    && Init(run[0])
    && forall i :: 0 <= i < |steps| ==> Next(run[i], steps[i], run[i + 1])
  }

  // ------------------------------------------------------------------
  // What is promised

  /** `f`: one past the last index handed out. */
  function Frontier(grants: seq<Grant>): nat {
    if grants == [] then 0 else grants[|grants| - 1].start + grants[|grants| - 1].len
  }

  /** Each grant starts where the previous one ended, the first at 0. */
  ghost predicate Tiles(grants: seq<Grant>) {
    forall j :: 0 <= j < |grants| ==>
      && grants[j].len >= 1
      && grants[j].start == (if j == 0 then 0 else grants[j - 1].start + grants[j - 1].len)
  }

  predicate Covers(g: Grant, x: nat) {
    g.start <= x < g.start + g.len
  }

  ghost predicate HandedOut(grants: seq<Grant>, x: nat) {
    exists j :: 0 <= j < |grants| && Covers(grants[j], x)
  }

  /** A rollback that would put the cursor back below `count`. */
  ghost predicate OwesBelow(s: Pool, t: nat) {
    t in s.owing && s.owing[t].start < s.count
  }

  ghost predicate NoneOwesBelow(s: Pool) {
    forall t :: !OwesBelow(s, t)
  }

  /** The inductive invariant.  Below `count` the cursor is exactly the frontier; it
      can stand at or beyond `count` with the frontier below `count` only because
      one rollback to the frontier is still owed or because that rollback lost. */
  ghost predicate Inv(s: Pool) {
    var f := Frontier(s.grants);
    && Tiles(s.grants)
    && f <= s.count
    && (s.next == f || s.next >= s.count)
    && (forall t :: t in s.owing ==> s.owing[t].start + s.owing[t].len > s.count)
    && (forall t :: OwesBelow(s, t) ==> s.owing[t].start == f && s.next >= s.count)
    && (forall t, u :: OwesBelow(s, t) && OwesBelow(s, u) ==> t == u)
    && |s.lost| <= 1
    && (|s.lost| == 1 ==>
          && NoneOwesBelow(s)
          && s.next >= s.count
          && s.lost[0].start == f < s.count
          && s.count - f < s.lost[0].len)
    && (s.lost == [] && NoneOwesBelow(s) ==> s.next == f || f == s.count)
  }

  lemma TakeSpanKeepsInv(s: Pool, t: nat, s': Pool)
    requires Inv(s) && TakeSpanStep(s, t, s')
    ensures Inv(s')
  {
    assert forall u :: OwesBelow(s', u) <==> OwesBelow(s, u);
    assert NoneOwesBelow(s') <==> NoneOwesBelow(s);
  }

  lemma TakeRunKeepsInv(s: Pool, t: nat, len: nat, s': Pool)
    requires Inv(s) && TakeRunStep(s, t, len, s')
    ensures Inv(s')
  {
    if len <= s.count {
      if s.next + len <= s.count { GrantedKeepsInv(s, len, s'); } else { RefusedKeepsInv(s, t, len, s'); }
    }
  }

  lemma GrantedKeepsInv(s: Pool, len: nat, s': Pool)
    requires Inv(s) && 1 <= len && s.next + len <= s.count
    requires s' == s.(next := s.next + len, grants := s.grants + [Grant(s.next, len)])
    ensures Inv(s')
  {
    assert NoneOwesBelow(s) && s.next == Frontier(s.grants);
    assert forall u :: OwesBelow(s', u) <==> OwesBelow(s, u);
    assert Frontier(s'.grants) == s.next + len;
  }

  lemma RefusedKeepsInv(s: Pool, t: nat, len: nat, s': Pool)
    requires Inv(s) && t !in s.owing && 1 <= len && s.next + len > s.count
    requires s' == s.(next := s.next + len, owing := s.owing[t := Rollback(s.next, len)])
    ensures Inv(s')
  {
    assert forall u :: u != t ==> (OwesBelow(s', u) <==> OwesBelow(s, u));
    assert OwesBelow(s', t) <==> s.next < s.count;
    if s.next < s.count {
      assert NoneOwesBelow(s) && s.next == Frontier(s.grants);
      assert forall u :: OwesBelow(s', u) ==> u == t;
    } else {
      assert NoneOwesBelow(s') ==> NoneOwesBelow(s);
    }
  }

  lemma RollBackKeepsInv(s: Pool, t: nat, s': Pool)
    requires Inv(s) && RollBackStep(s, t, s')
    ensures Inv(s')
  {
    assert forall u :: u != t ==> (OwesBelow(s', u) <==> OwesBelow(s, u));
    if OwesBelow(s, t) {
      assert NoneOwesBelow(s');
    } else {
      assert NoneOwesBelow(s') ==> NoneOwesBelow(s);
    }
  }

  lemma NextKeepsInv(s: Pool, step: Step, s': Pool)
    requires Inv(s) && Next(s, step, s')
    ensures Inv(s') && s'.count == s.count
  {
    match step
    case TakeSpan(t) => TakeSpanKeepsInv(s, t, s');
    case TakeRun(t, len) => TakeRunKeepsInv(s, t, len, s');
    case RollBack(t) => RollBackKeepsInv(s, t, s');
  }

  lemma {:induction false} RunKeepsInv(run: seq<Pool>, steps: seq<Step>, i: nat)
    requires IsRun(run, steps) && i < |run|
    ensures Inv(run[i]) && run[i].count == run[0].count
  {
    if i > 0 {
      RunKeepsInv(run, steps, i - 1);
      assert Next(run[i - 1], steps[i - 1], run[i]);
      NextKeepsInv(run[i - 1], steps[i - 1], run[i]);
    }
  }

  // ------------------------------------------------------------------
  // Tiling

  lemma {:induction false} GrantBelowFrontier(grants: seq<Grant>, j: nat, k: nat)
    requires Tiles(grants) && j <= k < |grants|
    ensures j < k ==> grants[j].start + grants[j].len <= grants[k].start
    ensures grants[k].start + grants[k].len <= Frontier(grants)
    decreases |grants| - j
  {
    if j < k { GrantBelowFrontier(grants, j + 1, k); }
    if k + 1 < |grants| { GrantBelowFrontier(grants, k + 1, k + 1); }
  }

  lemma {:induction false} SomeGrantCovers(grants: seq<Grant>, x: nat) returns (j: nat)
    requires Tiles(grants) && x < Frontier(grants)
    ensures j < |grants| && Covers(grants[j], x)
    decreases |grants|
  {
    var last := grants[|grants| - 1];
    if Covers(last, x) {
      j := |grants| - 1;
    } else {
      var front := grants[..|grants| - 1];
      assert |grants| > 1 ==> front[|front| - 1] == grants[|grants| - 2];
      assert Frontier(front) == last.start;
      j := SomeGrantCovers(front, x);
    }
  }

  /** Every span index below the frontier belongs to exactly one grant, none at or
      beyond it belongs to any, and the frontier never passes the end of the pool. */
  lemma CarveTiling(run: seq<Pool>, steps: seq<Step>, i: nat)
    requires IsRun(run, steps) && i < |run|
    ensures Frontier(run[i].grants) <= run[i].count
    ensures forall x: nat :: HandedOut(run[i].grants, x) <==> x < Frontier(run[i].grants)
    ensures forall x: nat, j, k | 0 <= j < |run[i].grants| && 0 <= k < |run[i].grants| ::
      Covers(run[i].grants[j], x) && Covers(run[i].grants[k], x) ==> j == k
  {
    RunKeepsInv(run, steps, i);
    var grants := run[i].grants;
    forall x: nat
      ensures HandedOut(grants, x) <==> x < Frontier(grants)
    {
      if x < Frontier(grants) {
        var j := SomeGrantCovers(grants, x);
      }
      forall j | 0 <= j < |grants| && Covers(grants[j], x) ensures x < Frontier(grants) {
        GrantBelowFrontier(grants, j, j);
      }
    }
    forall x: nat, j, k | 0 <= j < |grants| && 0 <= k < |grants| && Covers(grants[j], x) && Covers(grants[k], x)
      ensures j == k
    {
      if j < k { GrantBelowFrontier(grants, j, k); }
      if k < j { GrantBelowFrontier(grants, k, j); }
    }
  }

  /** At most one rollback that targets an index below `count` is owed at any time;
      its target is the frontier, and as long as it is owed no step hands anything out. */
  lemma RollbackIsSafe(run: seq<Pool>, steps: seq<Step>, i: nat, t: nat)
    requires IsRun(run, steps) && i < |steps| && OwesBelow(run[i], t)
    ensures run[i].owing[t].start == Frontier(run[i].grants)
    ensures forall u :: OwesBelow(run[i], u) ==> u == t
    ensures run[i + 1].grants == run[i].grants
    ensures steps[i] == RollBack(t) && run[i + 1].lost == run[i].lost ==>
      run[i + 1].next == Frontier(run[i + 1].grants)
  {
    RunKeepsInv(run, steps, i);
    assert Next(run[i], steps[i], run[i + 1]);
  }

  // ------------------------------------------------------------------
  // Loss

  /** Once a rollback below `count` has lost, no later step hands anything out or loses again. */
  lemma {:induction false} LossFreezes(run: seq<Pool>, steps: seq<Step>, i: nat, j: nat)
    requires IsRun(run, steps) && i <= j < |run| && run[i].lost != []
    ensures run[j].grants == run[i].grants && run[j].lost == run[i].lost
    decreases j - i
  {
    RunKeepsInv(run, steps, i);
    if i < j {
      assert Next(run[i], steps[i], run[i + 1]);
      var s := run[i];
      if steps[i].RollBack? { assert !OwesBelow(s, steps[i].t); }
      LossFreezes(run, steps, i + 1, j);
    }
  }

  /** Over the pool's whole lifetime at most one rollback below `count` loses; then the
      frontier is frozen and the skipped tail is shorter than that one request.  While
      none has lost and none is owed, every span index below the cursor (capped at
      `count`) has been handed out: nothing is skipped. */
  lemma CarveLossBound(run: seq<Pool>, steps: seq<Step>, i: nat, j: nat)
    requires IsRun(run, steps) && i <= j < |run|
    ensures |run[j].lost| <= 1
    ensures run[i].lost != [] ==>
      && run[j].lost == run[i].lost
      && Frontier(run[j].grants) == Frontier(run[i].grants)
      && 0 < run[j].count - Frontier(run[j].grants) < run[j].lost[0].len
    ensures run[j].lost == [] && NoneOwesBelow(run[j]) ==>
      Frontier(run[j].grants) == (if run[j].next <= run[j].count then run[j].next else run[j].count)
  {
    RunKeepsInv(run, steps, i);
    RunKeepsInv(run, steps, j);
    if run[i].lost != [] { LossFreezes(run, steps, i, j); }
  }

  // ------------------------------------------------------------------
  // Service

  /** What each action achieves, in every state of every run.  A run is handed out if and only if
      it fits above the cursor; one that is larger than the pool touches nothing; any other
      refusal owes exactly one rollback.  The rollback restores the cursor if and only if nobody
      has moved it since. */
  lemma ServedIffItFits(run: seq<Pool>, steps: seq<Step>, i: nat)
    requires IsRun(run, steps) && i < |steps|
    ensures steps[i].TakeSpan? ==>
      && (run[i].next < run[i].count <==> run[i + 1].grants == run[i].grants + [Grant(run[i].next, 1)])
      && (run[i].next >= run[i].count ==> run[i + 1].grants == run[i].grants)
      && run[i + 1].next == run[i].next + 1 && run[i + 1].owing == run[i].owing
    ensures steps[i].TakeRun? ==> var len := steps[i].len;
      && (run[i].next + len <= run[i].count <==> run[i + 1].grants == run[i].grants + [Grant(run[i].next, len)])
      && (len > run[i].count ==> run[i + 1] == run[i])
      && (len <= run[i].count ==> run[i + 1].next == run[i].next + len)
      && (run[i].next + len <= run[i].count ==> run[i + 1].owing == run[i].owing)
      && (len <= run[i].count < run[i].next + len ==>
            && run[i + 1].owing == run[i].owing[steps[i].t := Rollback(run[i].next, len)]
            && run[i + 1].grants == run[i].grants)
    ensures steps[i].RollBack? ==> steps[i].t in run[i].owing && var r := run[i].owing[steps[i].t];
      && run[i + 1].next == (if run[i].next == r.start + r.len then r.start else run[i].next)
      && run[i + 1].owing == run[i].owing - {steps[i].t} && run[i + 1].grants == run[i].grants
      && (|run[i + 1].lost| > |run[i].lost| <==> run[i].next != r.start + r.len && r.start < run[i].count)
  {
    RunKeepsInv(run, steps, i);
    assert Next(run[i], steps[i], run[i + 1]);
  }

  /** While no tail has been lost and no rollback to it is owed, every request that fits in what
      has never been handed out is served from its beginning. */
  lemma TailIsServed(run: seq<Pool>, steps: seq<Step>, i: nat)
    requires IsRun(run, steps) && i < |steps| && run[i].lost == [] && NoneOwesBelow(run[i])
    ensures var f := Frontier(run[i].grants);
      && (steps[i].TakeSpan? && f < run[i].count ==> run[i + 1].grants == run[i].grants + [Grant(f, 1)])
      && (steps[i].TakeRun? && f + steps[i].len <= run[i].count ==>
            run[i + 1].grants == run[i].grants + [Grant(f, steps[i].len)])
  {
    RunKeepsInv(run, steps, i);
    assert Next(run[i], steps[i], run[i + 1]);
  }

  // ------------------------------------------------------------------
  // The pool as the object it is

  /** `FixedSpanPool`, used by thread `t` while other threads use it too: `all` is what they all
      have done to it.  On a `calm` pool nobody else runs. */
  class FixedSpanPool {
    const calm: bool
    var count: nat
    var next: nat
    var all: Pool

    ghost predicate Valid()
      reads this
    {
      Inv(all) && all.count == count && all.next == next
    }

    /** `set_region`, with the number of whole spans it found. */
    constructor (count: nat, calm: bool)
      ensures Valid() && Init(all) && this.count == count && this.calm == calm
    {
      this.calm, this.count, this.next := calm, count, 0;
      all := Pool(count, 0, map[], [], []);
    }

    /** Any number of actions of other threads. */
    method Interfere(t: nat)
      requires Valid()
      modifies this`next, this`all
      ensures Valid() && old(all.grants) <= all.grants
      ensures (t in all.owing <==> t in old(all.owing)) && (t in all.owing ==> all.owing[t] == old(all.owing)[t])
      ensures calm ==> all == old(all)
    {
      var n: int := *;
      while !calm && 0 < n
        invariant Valid() && old(all.grants) <= all.grants
        invariant (t in all.owing <==> t in old(all.owing)) && (t in all.owing ==> all.owing[t] == old(all.owing)[t])
        invariant calm ==> all == old(all)
      {
        n := n - 1;
        var step: Step, all': Pool := *, *;
        if step.t != t && Next(all, step, all') {
          NextKeepsInv(all, step, all');
          all, next := all', all'.next;
        }
      }
    }

    /** The fetch-and-add by `len` that thread t makes as `step`. */
    method FetchAdd(step: Step, len: nat) returns (i: nat)
      requires Valid() && step.t !in all.owing && !step.RollBack?
      requires if step.TakeSpan? then len == 1 else 1 <= step.len == len <= count
      modifies this`next, this`all
      ensures Valid() && old(all.grants) <= all.grants && i + len == next
      ensures i + len <= count ==> all.grants != [] && all.grants[|all.grants| - 1] == Grant(i, len)
      ensures i + len <= count ==> |all.grants| > |old(all.grants)| && step.t !in all.owing
      ensures i + len > count && step.TakeRun? ==> step.t in all.owing && all.owing[step.t] == Rollback(i, len)
      ensures step.TakeSpan? ==> step.t !in all.owing
      ensures calm ==> i == old(next) && (i + len > count ==> all.grants == old(all.grants))
      ensures calm && i + len <= count ==> all.grants == old(all.grants) + [Grant(i, len)]
    {
      Interfere(step.t);
      i := next;
      next := next + len;
      var fits := i + len <= count;
      ghost var was := all;
      all := all.(next := next,
                  grants := if fits then all.grants + [Grant(i, len)] else all.grants,
                  owing := if fits || step.TakeSpan? then all.owing else all.owing[step.t := Rollback(i, len)]);
      NextKeepsInv(was, step, all);
    }

    /** `acquire_raw_span`: the index of the span, or null.  Undisturbed, the next one if there is one. */
    method AcquireRawSpan(t: nat) returns (i: Option<nat>)
      requires Valid() && t !in all.owing
      modifies this`next, this`all
      ensures Valid() && t !in all.owing
      ensures i.Some? ==> exists j :: |old(all.grants)| <= j < |all.grants| && all.grants[j] == Grant(i.value, 1)
      ensures calm ==> i == if old(next) < count then Some(old(next)) else None
    {
      var k := FetchAdd(TakeSpan(t), 1);
      i := if k >= count then None else Some(k);
    }

    /** `acquire_raw_run`.  Undisturbed, a run that fits is handed out at the cursor, and one that
        does not leaves the cursor where it was. */
    method AcquireRawRun(t: nat, len: nat) returns (i: Option<nat>)
      requires Valid() && t !in all.owing && len >= 1
      modifies this`next, this`all
      ensures Valid() && t !in all.owing
      ensures i.Some? ==> exists j :: |old(all.grants)| <= j < |all.grants| && all.grants[j] == Grant(i.value, len)
      ensures len > count ==> i == None && all == old(all)
      ensures calm ==> i == if old(next) + len <= count then Some(old(next)) else None
      ensures calm ==> next == if i.Some? then old(next) + len else old(next)
    {
      if len > count { return None; }
      var k := FetchAdd(TakeRun(t, len), len);
      if k >= count || count - k < len {
        CompareExchange(t);
        return None;
      }
      i := Some(k);
    }

    /** The one rollback attempt of thread t. */
    method CompareExchange(t: nat)
      requires Valid() && t in all.owing
      modifies this`next, this`all
      ensures Valid() && t !in all.owing && old(all.grants) <= all.grants
      ensures calm && old(next) == old(all.owing)[t].start + old(all.owing)[t].len ==> next == old(all.owing)[t].start
    {
      Interfere(t);
      var r := all.owing[t];
      ghost var was := all;
      var lost := if next != r.start + r.len && r.start < count then all.lost + [r] else all.lost;
      if next == r.start + r.len { next := r.start; }
      all := all.(next := next, owing := all.owing - {t}, lost := lost);
      NextKeepsInv(was, RollBack(t), all);
    }
  }
}
