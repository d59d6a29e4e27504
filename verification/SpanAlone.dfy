/**
 What the operations on one span achieve (src/allocator.rs, src/span.rs): from any reachable state,
 with any number of other threads stalled anywhere, one thread starts an operation and takes all its
 actions undisturbed.  `SpanLife` says what no interleaving can break; this module says what each
 operation does, in terms of the chains and lists it finds.
 */
module SpanAlone {
  import opened Wrappers
  import opened Chain
  import opened SpanLife

  /** The states of thread t's own actions, one after the other, nobody else acting. */
  ghost predicate Alone(tr: seq<State>, t: Tid, surplus: bool) {
    |tr| >= 1 && forall i :: 0 <= i < |tr| - 1 ==> ActsAt(tr, t, surplus, i)
  }

  ghost predicate ActsAt(tr: seq<State>, t: Tid, surplus: bool, i: nat) {
    i + 1 < |tr| && ActsTo(tr[i], t, surplus, tr[i + 1])
  }

  ghost predicate ActsTo(s: State, t: Tid, surplus: bool, z: State) {
    Enabled(s, Act(t, surplus)) && z == ApplyAct(s, t, surplus)
  }

  ghost function Last(tr: seq<State>): State
    requires |tr| >= 1
  {
    tr[|tr| - 1]
  }

  lemma OneMore(tr: seq<State>, t: Tid, surplus: bool, z: State)
    requires Alone(tr, t, surplus) && ActsTo(Last(tr), t, surplus, z)
    ensures Alone(tr + [z], t, surplus) && Last(tr + [z]) == z && (tr + [z])[0] == tr[0]
  {
    var tr' := tr + [z];
    forall i | 0 <= i < |tr'| - 1 ensures ActsAt(tr', t, surplus, i) {
      if i < |tr| - 1 { assert ActsAt(tr, t, surplus, i); }
    }
  }

  lemma {:induction false} AloneKeepsInv(tr: seq<State>, t: Tid, surplus: bool, i: nat)
    requires Alone(tr, t, surplus) && Inv(tr[0]) && i < |tr|
    ensures Inv(tr[i])
  {
    if i > 0 {
      AloneKeepsInv(tr, t, surplus, i - 1);
      assert ActsAt(tr, t, surplus, i - 1);
      StepKeepsInv(tr[i - 1], Act(t, surplus));
    }
  }

  lemma ThenOne(tr: seq<State>, t: Tid, surplus: bool) returns (tr': seq<State>)
    requires Alone(tr, t, surplus) && Enabled(Last(tr), Act(t, surplus))
    ensures Alone(tr', t, surplus) && tr'[0] == tr[0] && Last(tr') == ApplyAct(Last(tr), t, surplus)
  {
    OneMore(tr, t, surplus, ApplyAct(Last(tr), t, surplus));
    tr' := tr + [ApplyAct(Last(tr), t, surplus)];
  }

  // ------------------------------------------------------------------
  // The publish test

  /** Over every run: a thread at the test takes the span out of its list to publish it if and only
      if its list is in surplus, no block is in use and no producer is uncounted; otherwise it is
      done and the span stays where it is. */
  lemma PublishesIffFull(run: seq<State>, steps: seq<Step>, i: nat, t: Tid, surplus: bool)
    requires IsRun(run, steps) && i < |run| && t in run[i].pcs && run[i].pcs[t].LocalTest?
    ensures var s, z := run[i], ApplyAct(run[i], t, surplus);
      && s.place == InLocalList(t) && s.owner == Of(t)
      && (surplus && s.inUse == {} && Uncounted(s) == {} ==>
            z == s.(place := InHands(t), pcs := s.pcs[t := MakePublic]))
      && (!(surplus && s.inUse == {} && Uncounted(s) == {}) ==> z == s.(pcs := s.pcs - {t}))
  {
    RunKeepsInv(run, steps, i);
    FullTest(run[i], t);
  }

  /** Two more actions then put it in public. */
  lemma PublishAlone(tr: seq<State>, t: Tid, surplus: bool) returns (tr': seq<State>)
    requires Alone(tr, t, surplus) && t in Last(tr).pcs && Last(tr).pcs[t].MakePublic?
    ensures Alone(tr', t, surplus) && tr'[0] == tr[0] && |tr'| == |tr| + 2
    ensures Last(tr') == Last(tr).(owner := Public, place := InPublic, pcs := Last(tr).pcs - {t})
  {
    var s := Last(tr);
    var y := s.(owner := Public, pcs := s.pcs[t := EnqueuePublic]);
    OneMore(tr, t, surplus, y);
    var z := y.(place := InPublic, pcs := y.pcs - {t});
    OneMore(tr + [y], t, surplus, z);
    tr' := tr + [y] + [z];
    assert z.pcs == s.pcs - {t};
  }

  // ------------------------------------------------------------------
  // Free

  /** A free by the owner, up to the publish test. */
  lemma LocalFreeToTest(s: State, t: Tid, b: Block, surplus: bool) returns (tr: seq<State>)
    requires Enabled(s, StartFree(t, b)) && s.owner == Of(t)
    ensures Alone(tr, t, surplus) && tr[0] == Apply(s, StartFree(t, b))
    ensures var z := Last(tr);
      z == s.(inUse := s.inUse - {b}, local := [b] + s.local, link := z.link, pcs := s.pcs[t := LocalTest])
  {
    var s0 := Apply(s, StartFree(t, b));
    var s1 := s.(pcs := s.pcs[t := LocalPush(b)]);
    assert s0.pcs[t := LocalPush(b)] == s1.pcs;
    OneMore([s0], t, surplus, s1);
    var s2 := At(PushLocal(s1, b).(inUse := s1.inUse - {b}), t, LocalTest);
    OneMore([s0] + [s1], t, surplus, s2);
    tr := [s0] + [s1] + [s2];
    assert s2.pcs == s.pcs[t := LocalTest];
  }

  /** A free by the owner, alone, puts the block at the front of the local list, and publishes the
      span if and only if that filled it and the thread has spans to spare. */
  lemma LocalFreeAlone(s: State, t: Tid, b: Block, surplus: bool) returns (tr: seq<State>)
    requires Inv(s) && Enabled(s, StartFree(t, b)) && s.owner == Of(t)
    ensures Alone(tr, t, surplus) && tr[0] == Apply(s, StartFree(t, b))
    ensures var z := Last(tr); var publish := surplus && s.inUse == {b} && Uncounted(s) == {};
      z == s.(inUse := s.inUse - {b}, local := [b] + s.local, link := z.link,
              owner := if publish then Public else Of(t), place := if publish then InPublic else InLocalList(t))
  {
    tr := LocalFreeToTest(s, t, b, surplus);
    TestIsExact(s, Last(tr), t, b);
    tr := TestAlone(tr, t, surplus, s.pcs);
  }

  /** The test adds up exactly when the freed block was the last one out and all are counted. */
  lemma TestIsExact(s: State, z: State, t: Tid, b: Block)
    requires Partition(s) && Accounting(s) && Ownership(s) && Bookkeeping(s)
    requires Enabled(s, StartFree(t, b)) && s.owner == Of(t)
    requires z == s.(inUse := s.inUse - {b}, local := [b] + s.local, link := z.link, pcs := s.pcs[t := LocalTest])
    ensures s.place == InLocalList(t) && z.pcs - {t} == s.pcs
    ensures |z.local| + z.g == M(z) <==> s.inUse == {b} && Uncounted(s) == {}
  {
    assert s.place == InLocalList(t);
    assert s.rest == [] && s.absorbed == 0 by {
      assert forall u :: u in s.pcs ==> !Listed(s.pcs[u]) && !InHand(s.pcs[u]);
    }
    Cardinalities(s);
    assert |s.inUse| >= 1 && s.inUse == (s.inUse - {b}) + {b};
    assert |z.local| + z.g - M(z) == 1 - |s.inUse| - |Uncounted(s)|;
    assert |s.inUse - {b}| == 0 <==> s.inUse == {b};
    assert |Uncounted(s)| == 0 <==> Uncounted(s) == {};
  }

  lemma TestAlone(tr: seq<State>, t: Tid, surplus: bool, pcs: map<Tid, Pc>) returns (tr': seq<State>)
    requires Alone(tr, t, surplus) && t in Last(tr).pcs && Last(tr).pcs[t].LocalTest? && Last(tr).pcs - {t} == pcs
    requires Last(tr).owner == Of(t) && Last(tr).place == InLocalList(t)
    ensures Alone(tr', t, surplus) && tr'[0] == tr[0]
    ensures var s := Last(tr); var publish := surplus && |s.local| + s.g == M(s);
      Last(tr') == s.(pcs := pcs, owner := if publish then Public else Of(t),
                      place := if publish then InPublic else InLocalList(t))
  {
    var s := Last(tr);
    if surplus && |s.local| + s.g == M(s) {
      var y := s.(place := InHands(t), pcs := s.pcs[t := MakePublic]);
      OneMore(tr, t, surplus, y);
      tr' := PublishAlone(tr + [y], t, surplus);
      assert y.pcs - {t} == pcs;
    } else {
      OneMore(tr, t, surplus, s.(pcs := pcs));
      tr' := tr + [s.(pcs := pcs)];
    }
  }

  /** A free by anybody else, alone, puts the block, linked and counted, at the head of the remote
      chain; it claims the span if and only if it is ownerless and this was its first counted block. */
  lemma RemoteFreeAlone(s: State, t: Tid, b: Block, surplus: bool) returns (tr: seq<State>)
    requires Chains(s) && Enabled(s, StartFree(t, b)) && s.owner != Of(t)
    ensures Alone(tr, t, surplus) && tr[0] == Apply(s, StartFree(t, b))
    ensures var z := Last(tr); var claim := s.g == 0 && s.owner == Nobody;
      z == s.(inUse := s.inUse - {b}, head := Some(b), live := [b] + s.live, link := s.link[b := To(First(s.live))],
              g := s.g + 1, owner := if claim then Of(t) else s.owner,
              place := if claim then InLocalList(t) else s.place)
  {
    var s0 := Apply(s, StartFree(t, b));
    var s1 := s.(pcs := s.pcs[t := FreeSwap(b)]);
    assert s0.pcs[t := FreeSwap(b)] == s1.pcs;
    OneMore([s0], t, surplus, s1);
    assert s.pcs[t := FreeSwap(b)][t := FreeAdd] - {t} == s.pcs;
    tr := LinkAlone([s0] + [s1], t, b, surplus);
    tr := CountAlone(tr, t, surplus, s.pcs);
  }

  lemma LinkAlone(tr: seq<State>, t: Tid, b: Block, surplus: bool) returns (tr': seq<State>)
    requires Alone(tr, t, surplus) && t in Last(tr).pcs && Last(tr).pcs[t] == FreeSwap(b)
    ensures Alone(tr', t, surplus) && tr'[0] == tr[0]
    ensures var s := Last(tr);
      Last(tr') == s.(inUse := s.inUse - {b}, head := Some(b), live := [b] + s.live, link := s.link[b := To(s.head)],
                      pcs := s.pcs[t := FreeAdd])
  {
    var s := Last(tr);
    var y := s.(inUse := s.inUse - {b}, head := Some(b), live := [b] + s.live, link := s.link[b := Unlinked],
                pcs := s.pcs[t := FreeLink(b, s.head)]);
    OneMore(tr, t, surplus, y);
    var z := y.(link := y.link[b := To(s.head)], pcs := y.pcs[t := FreeAdd]);
    OneMore(tr + [y], t, surplus, z);
    tr' := tr + [y] + [z];
    assert z.pcs == s.pcs[t := FreeAdd] && z.link == s.link[b := To(s.head)];
  }

  lemma CountAlone(tr: seq<State>, t: Tid, surplus: bool, pcs: map<Tid, Pc>) returns (tr': seq<State>)
    requires Alone(tr, t, surplus) && t in Last(tr).pcs && Last(tr).pcs[t].FreeAdd? && Last(tr).pcs - {t} == pcs
    ensures Alone(tr', t, surplus) && tr'[0] == tr[0]
    ensures var s := Last(tr); var claim := s.g == 0 && s.owner == Nobody;
      Last(tr') == s.(g := s.g + 1, pcs := pcs, owner := if claim then Of(t) else s.owner,
                      place := if claim then InLocalList(t) else s.place)
  {
    var s := Last(tr);
    if s.g != 0 {
      var z := s.(g := s.g + 1, pcs := pcs);
      OneMore(tr, t, surplus, z);
      tr' := tr + [z];
    } else {
      var y := s.(g := s.g + 1, pcs := s.pcs[t := FreeClaim]);
      OneMore(tr, t, surplus, y);
      assert y.pcs - {t} == pcs;
      tr' := ClaimAlone(tr + [y], t, surplus, pcs);
    }
  }

  lemma ClaimAlone(tr: seq<State>, t: Tid, surplus: bool, pcs: map<Tid, Pc>) returns (tr': seq<State>)
    requires Alone(tr, t, surplus) && t in Last(tr).pcs && Last(tr).pcs[t].FreeClaim? && Last(tr).pcs - {t} == pcs
    ensures Alone(tr', t, surplus) && tr'[0] == tr[0]
    ensures var s := Last(tr); var claim := s.owner == Nobody;
      Last(tr') == s.(pcs := pcs, owner := if claim then Of(t) else s.owner,
                      place := if claim then InLocalList(t) else s.place)
  {
    var s := Last(tr);
    if s.owner == Nobody {
      var y := s.(owner := Of(t), place := InHands(t), pcs := s.pcs[t := Claimed]);
      OneMore(tr, t, surplus, y);
      var z := y.(place := InLocalList(t), pcs := y.pcs - {t});
      OneMore(tr + [y], t, surplus, z);
      tr' := tr + [y] + [z];
      assert z.pcs == pcs;
    } else {
      var z := s.(pcs := pcs);
      OneMore(tr, t, surplus, z);
      tr' := tr + [z];
    }
  }

  // ------------------------------------------------------------------
  // The absorb loop

  /** Exactly the first k blocks of chain c stand before its first UNLINKED one. */
  ghost predicate Front(s: State, c: seq<Block>, k: nat) {
    && k <= |c|
    && (forall i :: 0 <= i < k ==> !LinkOf(s, c[i]).Unlinked?)
    && (k < |c| ==> LinkOf(s, c[k]).Unlinked?)
  }

  lemma FrontFrame(s: State, z: State, c: seq<Block>, k: nat)
    requires forall b :: b in c ==> LinkOf(z, b) == LinkOf(s, b)
    requires Front(z, c, k)
    ensures Front(s, c, k)
  {
    forall i | 0 <= i < k ensures !LinkOf(s, c[i]).Unlinked? { assert c[i] in c; }
    if k < |c| { assert c[k] in c; }
  }

  ghost predicate Absorbing(pc: Pc) { pc.AbsorbStash? || pc.AbsorbLive? }

  /** The control point after the loop, k blocks later. */
  ghost function Absorbed(pc: Pc, k: nat, cur: Option<Block>): Pc
    requires Absorbing(pc)
  {
    if pc.AbsorbStash? then PutStash(cur, pc.got + k) else PutLive(cur, pc.got + k)
  }

  /** z is s with the first k blocks of the detached chain moved, in order, to the local list. */
  ghost predicate Took(s: State, z: State, t: Tid, k: nat) {
    && t in s.pcs && Absorbing(s.pcs[t]) && k <= |s.rest|
    && z == s.(local := Reverse(s.rest[..k]) + s.local, rest := s.rest[k..], absorbed := s.absorbed + k, link := z.link,
               pcs := s.pcs[t := Absorbed(s.pcs[t], k, First(s.rest[k..]))])
    && forall b :: b !in s.rest ==> LinkOf(z, b) == LinkOf(s, b)
  }

  lemma TookNone(s: State, z: State, t: Tid)
    requires t in s.pcs && Absorbing(s.pcs[t]) && z == s.(pcs := s.pcs[t := Absorbed(s.pcs[t], 0, First(s.rest))])
    ensures Took(s, z, t, 0)
  {
    assert s.rest[..0] == [] && s.rest[0..] == s.rest;
  }

  lemma TookOneMore(s: State, y: State, z: State, t: Tid, k: nat)
    requires t in s.pcs && Absorbing(s.pcs[t]) && s.rest != [] && Took(y, z, t, k)
    requires y == PushLocal(s, s.rest[0]).(rest := s.rest[1..], absorbed := s.absorbed + 1, pcs := y.pcs)
    requires y.pcs == s.pcs[t := y.pcs[t]] && y.pcs[t].AbsorbStash? == s.pcs[t].AbsorbStash? && Absorbing(y.pcs[t])
    requires y.pcs[t].got == s.pcs[t].got + 1
    ensures Took(s, z, t, k + 1)
  {
    var c, b := s.rest, s.rest[0];
    assert c[..k + 1] == [b] + c[1..][..k] && c[1..][k..] == c[k + 1..];
    ReverseCons(b, c[1..][..k]);
    assert Reverse(c[1..][..k]) + ([b] + s.local) == Reverse(c[..k + 1]) + s.local;
    assert z.pcs == s.pcs[t := Absorbed(s.pcs[t], k + 1, First(c[k + 1..]))];
    forall x | x !in c ensures LinkOf(z, x) == LinkOf(s, x) { assert x !in c[1..]; }
  }

  lemma ReverseCons(b: Block, c: seq<Block>)
    ensures Reverse([b] + c) == Reverse(c) + [b]
  {
    assert ([b] + c)[1..] == c;
  }

  lemma FrontAlone(s: State)
    requires Partition(s) && s.rest != []
    ensures s.rest[0] !in s.rest[1..]
  {
    InOnePlace(s, s.rest[0]);
    assert s.rest == [s.rest[0]] + s.rest[1..];
    assert multiset(s.rest) == multiset{s.rest[0]} + multiset(s.rest[1..]);
  }

  /** Alone, the loop moves exactly the blocks before the first UNLINKED one. */
  lemma {:induction false} AbsorbAlone(tr: seq<State>, t: Tid, surplus: bool) returns (tr': seq<State>, k: nat)
    requires Alone(tr, t, surplus) && Inv(tr[0]) && t in Last(tr).pcs && Absorbing(Last(tr).pcs[t])
    ensures Alone(tr', t, surplus) && tr'[0] == tr[0]
    ensures Front(Last(tr), Last(tr).rest, k) && Took(Last(tr), Last(tr'), t, k)
    decreases |Last(tr).rest|
  {
    var s := Last(tr);
    AbsorbFacts(tr, t, surplus);
    tr' := ThenOne(tr, t, surplus);
    var y := Last(tr');
    if s.rest == [] || LinkOf(s, s.rest[0]).Unlinked? {
      k := 0;
      TookNone(s, y, t);
    } else {
      tr', k := AbsorbAlone(tr', t, surplus);
      FrontOneMore(s, y, t, k);
      TookOneMore(s, y, Last(tr'), t, k);
      k := k + 1;
    }
  }

  lemma AbsorbFacts(tr: seq<State>, t: Tid, surplus: bool)
    requires Alone(tr, t, surplus) && Inv(tr[0]) && t in Last(tr).pcs && Absorbing(Last(tr).pcs[t])
    ensures Iterated(Last(tr), t, ApplyAct(Last(tr), t, surplus))
    ensures Last(tr).rest != [] ==> Last(tr).rest[0] !in Last(tr).rest[1..]
  {
    AloneKeepsInv(tr, t, surplus, |tr| - 1);
    AbsorbOnce(Last(tr), t, surplus);
    if Last(tr).rest != [] { FrontAlone(Last(tr)); }
  }

  lemma FrontOneMore(s: State, y: State, t: Tid, k: nat)
    requires t in s.pcs && Absorbing(s.pcs[t]) && Iterated(s, t, y)
    requires s.rest != [] && !LinkOf(s, s.rest[0]).Unlinked? && Front(y, y.rest, k) && s.rest[0] !in s.rest[1..]
    ensures Front(s, s.rest, k + 1)
  {
    FrontFrame(s, y, s.rest[1..], k);
    forall i | 0 <= i < k + 1 ensures !LinkOf(s, s.rest[i]).Unlinked? {
      if i > 0 { assert s.rest[i] == s.rest[1..][i - 1]; }
    }
  }

  /** y is s one iteration later. */
  ghost predicate Iterated(s: State, t: Tid, y: State)
    requires t in s.pcs && Absorbing(s.pcs[t])
  {
    if s.rest == [] || LinkOf(s, s.rest[0]).Unlinked? then
      y == s.(pcs := s.pcs[t := Absorbed(s.pcs[t], 0, First(s.rest))])
    else
      && y == PushLocal(s, s.rest[0]).(rest := s.rest[1..], absorbed := s.absorbed + 1, pcs := y.pcs)
      && t in y.pcs && y.pcs == s.pcs[t := y.pcs[t]]
      && y.pcs[t].AbsorbStash? == s.pcs[t].AbsorbStash? && Absorbing(y.pcs[t]) && y.pcs[t].got == s.pcs[t].got + 1
  }

  /** One iteration, in a reachable state. */
  lemma AbsorbOnce(s: State, t: Tid, surplus: bool)
    requires Partition(s) && Bookkeeping(s) && t in s.pcs && Absorbing(s.pcs[t])
    ensures Iterated(s, t, ApplyAct(s, t, surplus))
  {
    assert RefillOk(s, s.pcs[t]);
    LimitNeverReached(s, t);
  }

  // ------------------------------------------------------------------
  // Alloc

  /** Where a refill that absorbed `got` blocks goes on. */
  ghost function Next(got: nat): Pc { if got > 0 then Subtract(got) else RotateOut }

  /** The first k blocks of the pending chain are absorbed, the rest is the pending chain. */
  ghost predicate PendingTaken(s: State, z: State, t: Tid, k: nat) {
    && k <= |s.stash|
    && z == s.(local := Reverse(s.stash[..k]) + s.local, stash := s.stash[k..], pending := First(s.stash[k..]),
               absorbed := s.absorbed + k, link := z.link,
               pcs := s.pcs[t := if k < |s.stash| then Next(k) else TakeLive(k)])
    && forall b :: b !in s.stash ==> LinkOf(z, b) == LinkOf(s, b)
  }

  lemma PendingAlone(tr: seq<State>, t: Tid, surplus: bool) returns (tr': seq<State>, k: nat)
    requires Alone(tr, t, surplus) && Inv(tr[0]) && t in Last(tr).pcs && Last(tr).pcs[t].TakeStash?
    ensures Alone(tr', t, surplus) && tr'[0] == tr[0]
    ensures Front(Last(tr), Last(tr).stash, k) && PendingTaken(Last(tr), Last(tr'), t, k)
  {
    var s := Last(tr);
    StashFacts(tr, t, surplus);
    TakeStashActs(s, t, surplus);
    tr' := ThenOne(tr, t, surplus);
    if s.stash == [] {
      k := 0;
      assert s.stash[..0] == [] && Reverse([]) + s.local == s.local;
    } else {
      tr', k := PendingAbsorbed(tr', s, t, surplus);
    }
  }

  lemma StashFacts(tr: seq<State>, t: Tid, surplus: bool)
    requires Alone(tr, t, surplus) && Inv(tr[0]) && t in Last(tr).pcs && Last(tr).pcs[t].TakeStash?
    ensures Last(tr).rest == [] && Last(tr).absorbed == 0 && Last(tr).pending == First(Last(tr).stash)
  {
    AloneKeepsInv(tr, t, surplus, |tr| - 1);
    NothingHalfAbsorbed(Last(tr), t);
  }

  lemma TakeStashActs(s: State, t: Tid, surplus: bool)
    requires t in s.pcs && s.pcs[t].TakeStash? && s.pending == First(s.stash)
    ensures ApplyAct(s, t, surplus) ==
      if s.stash == [] then s.(pcs := s.pcs[t := TakeLive(0)])
      else s.(pending := None, rest := s.stash, stash := [], pcs := s.pcs[t := AbsorbStash(s.pending, 0, 0)])
  {
  }

  lemma PendingAbsorbed(tr: seq<State>, s: State, t: Tid, surplus: bool) returns (tr': seq<State>, k: nat)
    requires Alone(tr, t, surplus) && Inv(tr[0]) && t in s.pcs && s.rest == [] && s.stash != []
    requires Last(tr) ==
      s.(pending := None, rest := s.stash, stash := [], pcs := s.pcs[t := AbsorbStash(s.pending, 0, 0)])
    ensures Alone(tr', t, surplus) && tr'[0] == tr[0]
    ensures Front(s, s.stash, k) && PendingTaken(s, Last(tr'), t, k)
  {
    var y := Last(tr);
    tr', k := AbsorbAlone(tr, t, surplus);
    FrontFrame(s, y, s.stash, k);
    var m := Last(tr');
    PutStashActs(m, t, surplus);
    tr' := ThenOne(tr', t, surplus);
    PendingStored(s, y, m, Last(tr'), t, k);
  }

  lemma PendingStored(s: State, y: State, m: State, z: State, t: Tid, k: nat)
    requires t in s.pcs && s.rest == [] && Took(y, m, t, k)
    requires y == s.(pending := None, rest := s.stash, stash := [], pcs := s.pcs[t := AbsorbStash(s.pending, 0, 0)])
    requires z == m.(pending := First(m.rest), stash := m.rest, rest := [], pcs := z.pcs)
    requires z.pcs == m.pcs[t := if m.rest != [] then Next(k) else TakeLive(k)]
    ensures PendingTaken(s, z, t, k)
  {
    assert z.pcs == s.pcs[t := if k < |s.stash| then Next(k) else TakeLive(k)];
  }

  lemma PutStashActs(m: State, t: Tid, surplus: bool)
    requires t in m.pcs && m.pcs[t].PutStash?
    ensures var pc := m.pcs[t];
      ApplyAct(m, t, surplus) == m.(pending := pc.cur, stash := m.rest, rest := [],
        pcs := m.pcs[t := if pc.cur.Some? then Next(pc.got) else TakeLive(pc.got)])
  {
  }

  lemma PutLiveActs(m: State, t: Tid, surplus: bool)
    requires t in m.pcs && m.pcs[t].PutLive?
    ensures ApplyAct(m, t, surplus) ==
      m.(pending := m.pcs[t].cur, stash := m.rest, rest := [], pcs := m.pcs[t := Next(m.pcs[t].got)])
  {
  }

  /** The live chain is detached, its first j blocks are absorbed, the rest is the pending chain. */
  ghost predicate LiveTaken(s: State, z: State, t: Tid, got: nat, j: nat) {
    && j <= |s.live|
    && z == s.(local := Reverse(s.live[..j]) + s.local, live := [], head := None, stash := s.live[j..],
               pending := First(s.live[j..]), absorbed := s.absorbed + j, link := z.link,
               pcs := s.pcs[t := Next(got + j)])
  }

  lemma LiveAlone(tr: seq<State>, t: Tid, surplus: bool) returns (tr': seq<State>, j: nat)
    requires Alone(tr, t, surplus) && Inv(tr[0]) && t in Last(tr).pcs && Last(tr).pcs[t].TakeLive?
    ensures Alone(tr', t, surplus) && tr'[0] == tr[0]
    ensures Front(Last(tr), Last(tr).live, j) && LiveTaken(Last(tr), Last(tr'), t, Last(tr).pcs[t].got, j)
  {
    var s := Last(tr);
    LiveFacts(tr, t, surplus);
    TakeLiveActs(s, t, surplus);
    tr' := ThenOne(tr, t, surplus);
    if s.live == [] {
      j := 0;
      assert s.live[..0] == [] && Reverse([]) + s.local == s.local;
    } else {
      tr', j := LiveAbsorbed(tr', s, t, surplus);
    }
  }

  lemma LiveFacts(tr: seq<State>, t: Tid, surplus: bool)
    requires Alone(tr, t, surplus) && Inv(tr[0]) && t in Last(tr).pcs && Last(tr).pcs[t].TakeLive?
    ensures Last(tr).rest == [] && Last(tr).stash == [] && Last(tr).pending == None
    ensures Last(tr).head == First(Last(tr).live)
  {
    AloneKeepsInv(tr, t, surplus, |tr| - 1);
    assert RefillOk(Last(tr), Last(tr).pcs[t]);
  }

  lemma TakeLiveActs(s: State, t: Tid, surplus: bool)
    requires t in s.pcs && s.pcs[t].TakeLive? && s.head == First(s.live)
    ensures ApplyAct(s, t, surplus) ==
      if s.live == [] then s.(pcs := s.pcs[t := Next(s.pcs[t].got)])
      else s.(head := None, rest := s.live, live := [], pcs := s.pcs[t := AbsorbLive(s.head, 0, s.pcs[t].got)])
  {
  }

  lemma LiveAbsorbed(tr: seq<State>, s: State, t: Tid, surplus: bool) returns (tr': seq<State>, j: nat)
    requires Alone(tr, t, surplus) && Inv(tr[0]) && t in s.pcs && s.pcs[t].TakeLive? && s.rest == [] && s.stash == []
    requires Last(tr) ==
      s.(head := None, rest := s.live, live := [], pcs := s.pcs[t := AbsorbLive(s.head, 0, s.pcs[t].got)])
    ensures Alone(tr', t, surplus) && tr'[0] == tr[0]
    ensures Front(s, s.live, j) && LiveTaken(s, Last(tr'), t, s.pcs[t].got, j)
  {
    var y := Last(tr);
    tr', j := AbsorbAlone(tr, t, surplus);
    FrontFrame(s, y, s.live, j);
    var m := Last(tr');
    PutLiveActs(m, t, surplus);
    tr' := ThenOne(tr', t, surplus);
    LiveStored(s, y, m, Last(tr'), t, j);
  }

  lemma LiveStored(s: State, y: State, m: State, z: State, t: Tid, j: nat)
    requires t in s.pcs && s.pcs[t].TakeLive? && s.rest == [] && s.stash == [] && Took(y, m, t, j)
    requires y == s.(head := None, rest := s.live, live := [], pcs := s.pcs[t := AbsorbLive(s.head, 0, s.pcs[t].got)])
    requires z == m.(pending := First(m.rest), stash := m.rest, rest := [], pcs := m.pcs[t := Next(s.pcs[t].got + j)])
    ensures LiveTaken(s, z, t, s.pcs[t].got, j)
  {
    assert z.pcs == s.pcs[t := Next(s.pcs[t].got + j)];
  }

  /** After a refill that absorbed something: it is subtracted and a block is handed out. */
  lemma HandOutAlone(tr: seq<State>, t: Tid, surplus: bool) returns (tr': seq<State>)
    requires Alone(tr, t, surplus) && t in Last(tr).pcs && Last(tr).pcs[t].Subtract? && Last(tr).local != []
    ensures Alone(tr', t, surplus) && tr'[0] == tr[0]
    ensures var s := Last(tr);
      Last(tr') == s.(g := s.g - s.pcs[t].got, absorbed := 0, inUse := s.inUse + {s.local[0]}, local := s.local[1..],
                      pcs := s.pcs - {t})
  {
    var s := Last(tr);
    var y := s.(g := s.g - s.pcs[t].got, absorbed := 0, pcs := s.pcs[t := PopAgain]);
    OneMore(tr, t, surplus, y);
    var z := y.(inUse := y.inUse + {y.local[0]}, local := y.local[1..], pcs := y.pcs - {t});
    OneMore(tr + [y], t, surplus, z);
    tr' := tr + [y] + [z];
    assert z.pcs == s.pcs - {t};
  }

  /** After one that absorbed nothing: the span is discarded if and only if no chain is pending and
      no free block is counted, and goes to the back of the list otherwise. */
  lemma RotateAlone(tr: seq<State>, t: Tid, surplus: bool) returns (tr': seq<State>)
    requires Alone(tr, t, surplus) && t in Last(tr).pcs && Last(tr).pcs[t].RotateOut?
    requires Last(tr).owner == Of(t) && Last(tr).place == InLocalList(t)
    ensures Alone(tr', t, surplus) && tr'[0] == tr[0]
    ensures var s := Last(tr); var discard := s.pending == None && s.g == 0;
      Last(tr') == s.(pcs := s.pcs - {t}, owner := if discard then Nobody else Of(t),
                      place := if discard then Nowhere else InLocalList(t))
  {
    var s := Last(tr);
    var y := s.(place := InHands(t), pcs := s.pcs[t := if s.pending.None? then DiscardLoad else PushBack]);
    OneMore(tr, t, surplus, y);
    tr' := tr + [y];
    assert y.pcs - {t} == s.pcs - {t};
    if s.pending.None? {
      var x := y.(pcs := y.pcs[t := if y.g != 0 then PushBack else DiscardStore]);
      OneMore(tr', t, surplus, x);
      tr' := tr' + [x];
      assert x.pcs - {t} == s.pcs - {t};
    }
    tr' := if Last(tr').pcs[t].PushBack? then PushBackAlone(tr', t, surplus) else DiscardAlone(tr', t, surplus);
  }

  ghost function PushBackAlone(tr: seq<State>, t: Tid, surplus: bool): (tr': seq<State>)
    requires Alone(tr, t, surplus) && t in Last(tr).pcs && Last(tr).pcs[t].PushBack?
    ensures Alone(tr', t, surplus) && tr'[0] == tr[0]
    ensures Last(tr') == Last(tr).(place := InLocalList(t), pcs := Last(tr).pcs - {t})
  {
    var z := Last(tr).(place := InLocalList(t), pcs := Last(tr).pcs - {t});
    OneMore(tr, t, surplus, z);
    tr + [z]
  }

  ghost function DiscardAlone(tr: seq<State>, t: Tid, surplus: bool): (tr': seq<State>)
    requires Alone(tr, t, surplus) && t in Last(tr).pcs && Last(tr).pcs[t].DiscardStore? && Last(tr).g == 0
    ensures Alone(tr', t, surplus) && tr'[0] == tr[0]
    ensures Last(tr') == Last(tr).(owner := Nobody, place := Nowhere, pcs := Last(tr).pcs - {t})
  {
    var s := Last(tr);
    var y := s.(owner := Nobody, place := Nowhere, pcs := s.pcs[t := DiscardRecheck]);
    OneMore(tr, t, surplus, y);
    var z := y.(pcs := s.pcs - {t});
    assert y.pcs - {t} == z.pcs;
    OneMore(tr + [y], t, surplus, z);
    tr + [y] + [z]
  }

  /** What is absorbed and what is left when k blocks of the pending chain and j of the live one are. */
  ghost function Got(s: State, k: nat, j: nat): seq<Block>
    requires k <= |s.stash| && j <= |s.live|
  {
    Reverse(s.live[..j]) + Reverse(s.stash[..k])
  }

  ghost function Left(s: State, k: nat, j: nat): seq<Block>
    requires k <= |s.stash| && j <= |s.live|
  {
    if k == |s.stash| then s.live[j..] else s.stash[k..]
  }

  ghost function StillLive(s: State, k: nat): seq<Block> { if k == |s.stash| then [] else s.live }

  /** As far as the chains are resolved; the live one is not touched while the other is blocked. */
  ghost predicate Fronts(s: State, k: nat, j: nat) {
    Front(s, s.stash, k) && if k == |s.stash| then Front(s, s.live, j) else j == 0
  }

  /** The state a lone allocation by the owner leaves. */
  ghost predicate Allocated(s: State, z: State, t: Tid, k: nat, j: nat) {
    && k <= |s.stash| && j <= |s.live|
    && var got, live, stash := Got(s, k, j), StillLive(s, k), Left(s, k, j);
       if s.local != [] then
         z == s.(inUse := s.inUse + {s.local[0]}, local := s.local[1..])
       else if got != [] then
         z == s.(inUse := s.inUse + {got[0]}, local := got[1..], g := s.g - |got|, link := z.link,
                 live := live, head := First(live), stash := stash, pending := First(stash))
       else
         var discard := stash == [] && s.g == 0;
         z == s.(live := live, head := First(live), stash := stash, pending := First(stash), link := z.link,
                 owner := if discard then Nobody else Of(t), place := if discard then Nowhere else InLocalList(t))
  }

  /**
   An allocation by the owner, alone.  It hands out the front of the local list.  If that is empty it
   absorbs the pending chain up to its first UNLINKED block and, only if that is all of it, the live
   chain likewise, keeps the rest as the pending chain, and hands out the block absorbed last.  If
   there was nothing to absorb it discards the span exactly when no chain is pending and no free block
   is counted, and keeps it otherwise.
   */
  lemma AllocAlone(s: State, t: Tid, surplus: bool) returns (tr: seq<State>, k: nat, j: nat)
    requires Inv(s) && Enabled(s, StartAlloc(t))
    ensures Alone(tr, t, surplus) && tr[0] == Apply(s, StartAlloc(t))
    ensures Allocated(s, Last(tr), t, k, j) && (s.local == [] ==> Fronts(s, k, j))
  {
    StartsIdle(s, t);
    StepKeepsInv(s, StartAlloc(t));
    tr := PopAlone(s, t, surplus);
    k, j := 0, 0;
    if s.local == [] { tr, k, j := RefillAlone(tr, s, t, surplus); }
  }

  lemma StartsIdle(s: State, t: Tid)
    requires Inv(s) && Enabled(s, StartAlloc(t))
    ensures s.rest == [] && s.absorbed == 0 && s.owner == Of(t) && s.head == First(s.live)
  {
    assert forall u :: u in s.pcs ==> !Listed(s.pcs[u]) && !InHand(s.pcs[u]);
  }

  /** The first pop, or the beginning of the refill. */
  lemma PopAlone(s: State, t: Tid, surplus: bool) returns (tr: seq<State>)
    requires Enabled(s, StartAlloc(t)) && Inv(Apply(s, StartAlloc(t)))
    ensures Alone(tr, t, surplus) && tr[0] == Apply(s, StartAlloc(t))
    ensures Last(tr) == if s.local != [] then s.(inUse := s.inUse + {s.local[0]}, local := s.local[1..])
                        else s.(pcs := s.pcs[t := TakeStash])
  {
    tr := ThenOne([Apply(s, StartAlloc(t))], t, surplus);
    PopActs(s, t, surplus);
  }

  lemma PopActs(s: State, t: Tid, surplus: bool)
    requires Enabled(s, StartAlloc(t))
    ensures ApplyAct(Apply(s, StartAlloc(t)), t, surplus) ==
      if s.local != [] then s.(inUse := s.inUse + {s.local[0]}, local := s.local[1..])
      else s.(pcs := s.pcs[t := TakeStash])
  {
    var s0 := Apply(s, StartAlloc(t));
    assert s0.pcs - {t} == s.pcs && s0.pcs[t := TakeStash] == s.pcs[t := TakeStash];
  }

  /** Both parts of the refill are over, t about to decide what to do next. */
  ghost predicate RefilledTo(s: State, y: State, t: Tid, k: nat, j: nat) {
    && k <= |s.stash| && j <= |s.live|
    && y == s.(local := Got(s, k, j), absorbed := k + j, link := y.link,
               live := StillLive(s, k), head := First(StillLive(s, k)),
               stash := Left(s, k, j), pending := First(Left(s, k, j)), pcs := s.pcs[t := Next(k + j)])
  }

  ghost predicate Refillable(s: State, t: Tid) {
    && t !in s.pcs && s.local == [] && s.rest == [] && s.absorbed == 0
    && s.owner == Of(t) && s.place == InLocalList(t) && s.head == First(s.live)
  }

  lemma RefillAlone(tr: seq<State>, s: State, t: Tid, surplus: bool) returns (tr': seq<State>, k: nat, j: nat)
    requires Alone(tr, t, surplus) && Inv(tr[0]) && Last(tr) == s.(pcs := s.pcs[t := TakeStash]) && Refillable(s, t)
    ensures Alone(tr', t, surplus) && tr'[0] == tr[0] && Fronts(s, k, j) && Allocated(s, Last(tr'), t, k, j)
  {
    tr', k, j := RefillToEnd(tr, s, t, surplus);
    tr' := DecideAlone(tr', s, t, surplus, k, j);
  }

  lemma DecideAlone(tr: seq<State>, s: State, t: Tid, surplus: bool, k: nat, j: nat) returns (tr': seq<State>)
    requires Alone(tr, t, surplus) && Refillable(s, t) && RefilledTo(s, Last(tr), t, k, j)
    ensures Alone(tr', t, surplus) && tr'[0] == tr[0] && Allocated(s, Last(tr'), t, k, j)
  {
    var y := Last(tr);
    assert y.pcs - {t} == s.pcs;
    if y.local != [] {
      tr' := HandOutAlone(tr, t, surplus);
    } else {
      tr' := RotateAlone(tr, t, surplus);
    }
  }

  lemma RefillToEnd(tr: seq<State>, s: State, t: Tid, surplus: bool) returns (tr': seq<State>, k: nat, j: nat)
    requires Alone(tr, t, surplus) && Inv(tr[0]) && Last(tr) == s.(pcs := s.pcs[t := TakeStash]) && Refillable(s, t)
    ensures Alone(tr', t, surplus) && tr'[0] == tr[0] && Fronts(s, k, j) && RefilledTo(s, Last(tr'), t, k, j)
  {
    var a := Last(tr);
    tr', k := PendingAlone(tr, t, surplus);
    var m := Last(tr');
    j := 0;
    FrontFrame(s, a, s.stash, k);
    if k == |s.stash| {
      AloneKeepsInv(tr, t, surplus, |tr| - 1);
      LiveUntouched(a, m, t, k);
      tr', j := LiveAlone(tr', t, surplus);
      FrontFrame(s, m, s.live, j);
      BothTaken(s, a, m, Last(tr'), t, k, j);
    } else {
      PendingOnly(s, a, m, t, k);
    }
  }

  lemma PendingOnly(s: State, a: State, m: State, t: Tid, k: nat)
    requires Refillable(s, t) && a == s.(pcs := s.pcs[t := TakeStash]) && PendingTaken(a, m, t, k) && k < |s.stash|
    ensures RefilledTo(s, m, t, k, 0)
  {
    assert s.live[..0] == [] && Reverse([]) == [];
    assert Reverse(s.stash[..k]) + [] == [] + Reverse(s.stash[..k]);
    assert m.pcs == s.pcs[t := Next(k)];
  }

  lemma BothTaken(s: State, a: State, m: State, y: State, t: Tid, k: nat, j: nat)
    requires Refillable(s, t) && a == s.(pcs := s.pcs[t := TakeStash]) && PendingTaken(a, m, t, k)
    requires k == |s.stash| && LiveTaken(m, y, t, k, j)
    ensures RefilledTo(s, y, t, k, j)
  {
    assert Reverse(s.stash[..k]) + [] == Reverse(s.stash[..k]);
    assert y.pcs == s.pcs[t := Next(k + j)];
  }

  lemma LiveUntouched(s: State, z: State, t: Tid, k: nat)
    requires Partition(s) && PendingTaken(s, z, t, k)
    ensures forall b :: b in s.live ==> LinkOf(z, b) == LinkOf(s, b)
  {
    forall b | b in s.live ensures LinkOf(z, b) == LinkOf(s, b) { InOnePlace(s, b); }
  }

  // ------------------------------------------------------------------
  // Acquire

  /** A thread that gets the span from the public lists, alone, becomes its owner, files it in its
      list and hands out its first block, which there always is. */
  lemma AcquireAlone(s: State, t: Tid, surplus: bool) returns (tr: seq<State>)
    requires Inv(s) && Enabled(s, StartAcquire(t))
    ensures Alone(tr, t, surplus) && tr[0] == Apply(s, StartAcquire(t))
    ensures s.local != [] && s.inUse == {}
    ensures Last(tr) == s.(owner := Of(t), place := InLocalList(t), inUse := {s.local[0]}, local := s.local[1..])
  {
    PublicIsFull(s);
    tr := TakeOverAlone(s, t, surplus);
    assert s.inUse + {s.local[0]} == {s.local[0]};
  }

  lemma PublicIsFull(s: State)
    requires Ownership(s) && FullWhenPublic(s) && s.place == InPublic
    ensures s.local != [] && s.inUse == {}
  {
  }

  lemma TakeOverAlone(s: State, t: Tid, surplus: bool) returns (tr: seq<State>)
    requires Enabled(s, StartAcquire(t)) && s.local != []
    ensures Alone(tr, t, surplus) && tr[0] == Apply(s, StartAcquire(t))
    ensures Last(tr) ==
      s.(owner := Of(t), place := InLocalList(t), inUse := s.inUse + {s.local[0]}, local := s.local[1..])
  {
    tr := FileAlone(s, t, surplus);
    var b := Last(tr);
    var z := b.(inUse := s.inUse + {s.local[0]}, local := s.local[1..], pcs := s.pcs);
    assert b.pcs - {t} == s.pcs;
    OneMore(tr, t, surplus, z);
    tr := tr + [z];
  }

  lemma FileAlone(s: State, t: Tid, surplus: bool) returns (tr: seq<State>)
    requires Enabled(s, StartAcquire(t))
    ensures Alone(tr, t, surplus) && tr[0] == Apply(s, StartAcquire(t))
    ensures Last(tr) == s.(owner := Of(t), place := InLocalList(t), pcs := s.pcs[t := AcquirePop])
  {
    var s0 := Apply(s, StartAcquire(t));
    var a := s.(owner := Of(t), place := InHands(t), pcs := s.pcs[t := AcquireList]);
    assert s0.pcs[t := AcquireList] == a.pcs;
    OneMore([s0], t, surplus, a);
    var b := a.(place := InLocalList(t), pcs := s.pcs[t := AcquirePop]);
    assert a.pcs[t := AcquirePop] == b.pcs;
    OneMore([s0] + [a], t, surplus, b);
    tr := [s0] + [a] + [b];
  }
}
