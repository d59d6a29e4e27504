/**
 What the huge path achieves (src/huge.rs): one thread allocates or frees, all its actions
 undisturbed, with any number of other threads stalled anywhere.
 */
module HugeAlone {
  import opened Wrappers
  import opened Align
  import opened Placement
  import opened HugeArena
  import Carve

  /** The states of thread t's own actions, one after the other, nobody else acting. */
  ghost predicate Alone(tr: seq<State>, t: Tid) {
    |tr| >= 1 && forall i :: 0 <= i < |tr| - 1 ==> ActsAt(tr, t, i)
  }

  ghost predicate ActsAt(tr: seq<State>, t: Tid, i: nat) {
    i + 1 < |tr| && Next(tr[i], Act(t), tr[i + 1])
  }

  ghost function Last(tr: seq<State>): State
    requires |tr| >= 1
  {
    tr[|tr| - 1]
  }

  lemma OneMore(tr: seq<State>, t: Tid, z: State)
    requires Alone(tr, t) && Next(Last(tr), Act(t), z)
    ensures Alone(tr + [z], t) && Last(tr + [z]) == z && (tr + [z])[0] == tr[0]
  {
    var tr' := tr + [z];
    forall i | 0 <= i < |tr'| - 1 ensures ActsAt(tr', t, i) {
      if i < |tr| - 1 { assert ActsAt(tr, t, i); }
    }
  }

  // ------------------------------------------------------------------
  // Allocation

  ghost function Len(s: State, k: nat): nat
    requires k < |s.classes|
  {
    HugeClassSpans(s.hg, s.classes[k])
  }

  lemma LenPositive(s: State, k: nat)
    requires s.hg >= 1 && k < |s.classes|
    ensures Len(s, k) >= 1
  {
    MulMono(1, Pow2(s.classes[k]), s.hg);
  }

  /** Slot k can serve layout l now: its class is large enough, and it is free, or it is empty and
      the pool still has its run. */
  ghost predicate CanServe(s: State, l: Layout, k: nat) {
    && k < |s.slots| == |s.classes| && MinClass(s, l).Some? && MinClass(s, l).value <= s.classes[k]
    && (s.slots[k].st.Free? || (s.slots[k].st.Empty? && s.pool.next + Len(s, k) <= s.pool.count))
  }

  /** Slot k has served layout l. */
  ghost function Served(s: State, l: Layout, k: nat): State
    requires k < |s.slots| == |s.classes| && 1 <= l.align <= WORD
  {
    if s.slots[k].st.Free? then
      s.(slots := s.slots[k := s.slots[k].(st := Allocated)],
         live := s.live[k := Live(HugePayload(s.slots[k].base, l), l)])
    else
      var base := s.origin + s.pool.next * SPAN_SIZE;
      s.(slots := s.slots[k := Slot(Allocated, base, Some(|s.pool.grants|))],
         pool := s.pool.(next := s.pool.next + Len(s, k),
                         grants := s.pool.grants + [Carve.Grant(s.pool.next, Len(s, k))]),
         live := s.live[k := Live(HugePayload(base, l), l)])
  }

  /** A free slot: claim, load the base, finish. */
  lemma FreeSlotAlone(tr: seq<State>, s: State, t: Tid, l: Layout, k: nat) returns (tr': seq<State>)
    requires Alone(tr, t) && Last(tr) == At(s, t, Scan(l, k)) && t !in s.pcs && 1 <= l.align <= WORD
    requires CanServe(s, l, k) && s.slots[k].st.Free?
    ensures Alone(tr', t) && tr'[0] == tr[0] && Last(tr') == Served(s, l, k)
  {
    var a := At(s, t, ClaimFree(l, k));
    assert Last(tr).pcs[t := ClaimFree(l, k)] == a.pcs;
    OneMore(tr, t, a);
    var claimed := SetSlot(s, k, s.slots[k].(st := Allocated));
    var b := At(claimed, t, LoadBase(l, k));
    assert a.pcs[t := LoadBase(l, k)] == b.pcs;
    OneMore(tr + [a], t, b);
    tr' := FinishAlone(tr + [a] + [b], claimed, t, l, k);
  }

  lemma FinishAlone(tr: seq<State>, s: State, t: Tid, l: Layout, k: nat) returns (tr': seq<State>)
    requires Alone(tr, t) && Last(tr) == At(s, t, LoadBase(l, k)) && t !in s.pcs
    requires 1 <= l.align <= WORD && k < |s.slots|
    ensures Alone(tr', t) && tr'[0] == tr[0]
    ensures Last(tr') == s.(live := s.live[k := Live(HugePayload(s.slots[k].base, l), l)])
  {
    var c := At(s, t, Finish(l, k, s.slots[k].base));
    assert Last(tr).pcs[t := Finish(l, k, s.slots[k].base)] == c.pcs;
    OneMore(tr, t, c);
    var z := s.(live := s.live[k := Live(HugePayload(s.slots[k].base, l), l)]);
    assert c.pcs - {t} == s.pcs;
    OneMore(tr + [c], t, z);
    tr' := tr + [c] + [z];
  }

  /** The claim of an empty slot. */
  lemma ClaimAlone(tr: seq<State>, s: State, t: Tid, l: Layout, k: nat) returns (tr': seq<State>)
    requires Alone(tr, t) && Last(tr) == At(s, t, Scan(l, k)) && t !in s.pcs && k < |s.slots| == |s.classes|
    requires MinClass(s, l).Some? && MinClass(s, l).value <= s.classes[k] && s.slots[k].st.Empty?
    ensures Alone(tr', t) && tr'[0] == tr[0]
    ensures Last(tr') == At(SetSlot(s, k, s.slots[k].(st := Allocated)), t, CarveRun(l, k))
  {
    var a := At(s, t, ClaimEmpty(l, k));
    assert Last(tr).pcs[t := ClaimEmpty(l, k)] == a.pcs;
    OneMore(tr, t, a);
    var b := At(SetSlot(s, k, s.slots[k].(st := Allocated)), t, CarveRun(l, k));
    assert a.pcs[t := CarveRun(l, k)] == b.pcs;
    OneMore(tr + [a], t, b);
    tr' := tr + [a] + [b];
  }

  /** An empty slot whose run the pool still has. */
  lemma EmptySlotAlone(tr: seq<State>, s: State, t: Tid, l: Layout, k: nat) returns (tr': seq<State>)
    requires Alone(tr, t) && Last(tr) == At(s, t, Scan(l, k)) && t !in s.pcs && t !in s.pool.owing && s.hg >= 1
    requires 1 <= l.align <= WORD && CanServe(s, l, k) && s.slots[k].st.Empty?
    ensures Alone(tr', t) && tr'[0] == tr[0] && Last(tr') == Served(s, l, k)
  {
    tr' := ClaimAlone(tr, s, t, l, k);
    LenPositive(s, k);
    var b := Last(tr');
    var pool := s.pool.(next := s.pool.next + Len(s, k),
                        grants := s.pool.grants + [Carve.Grant(s.pool.next, Len(s, k))]);
    assert pool.grants != s.pool.grants;
    var c := b.(pool := pool, pcs := b.pcs[t := StoreBase(l, k, s.pool.next, |s.pool.grants|)]);
    OneMore(tr', t, c);
    tr' := StoreAlone(tr' + [c], s, t, l, k);
  }

  lemma StoreAlone(tr: seq<State>, s: State, t: Tid, l: Layout, k: nat) returns (tr': seq<State>)
    requires Alone(tr, t) && t !in s.pcs && 1 <= l.align <= WORD && k < |s.slots| == |s.classes| && s.slots[k].st.Empty?
    requires var c := Last(tr);
      && c == s.(slots := s.slots[k := s.slots[k].(st := Allocated)], pcs := c.pcs,
                 pool := s.pool.(next := s.pool.next + Len(s, k),
                                 grants := s.pool.grants + [Carve.Grant(s.pool.next, Len(s, k))]))
      && t in c.pcs && c.pcs[t] == StoreBase(l, k, s.pool.next, |s.pool.grants|) && c.pcs - {t} == s.pcs
    ensures Alone(tr', t) && tr'[0] == tr[0] && Last(tr') == Served(s, l, k)
  {
    var c, base := Last(tr), s.origin + s.pool.next * SPAN_SIZE;
    var d := c.(slots := c.slots[k := c.slots[k].(base := base, grant := Some(|s.pool.grants|))],
                pcs := c.pcs[t := Finish(l, k, base)]);
    OneMore(tr, t, d);
    var z := Served(s, l, k);
    assert d.slots == z.slots;
    assert d.pcs - {t} == s.pcs;
    OneMore(tr + [d], t, z);
    tr' := tr + [d] + [z];
  }

  /** An empty slot whose run does not fit: the cursor and the slot are put back as they were. */
  lemma NoRoomAlone(tr: seq<State>, s: State, t: Tid, l: Layout, k: nat) returns (tr': seq<State>)
    requires Alone(tr, t) && Last(tr) == At(s, t, Scan(l, k)) && t !in s.pcs && t !in s.pool.owing && s.hg >= 1
    requires k < |s.slots| == |s.classes| && MinClass(s, l).Some? && MinClass(s, l).value <= s.classes[k]
    requires s.slots[k].st.Empty? && s.pool.next + Len(s, k) > s.pool.count
    ensures Alone(tr', t) && tr'[0] == tr[0] && Last(tr') == At(s, t, Scan(l, k + 1))
  {
    tr' := ClaimAlone(tr, s, t, l, k);
    LenPositive(s, k);
    var b, len := Last(tr'), Len(s, k);
    if len > s.pool.count {
      var c := b.(pcs := b.pcs[t := HandBack(l, k)]);
      OneMore(tr', t, c);
      tr' := tr' + [c];
    } else {
      var pool := s.pool.(next := s.pool.next + len, owing := s.pool.owing[t := Carve.Rollback(s.pool.next, len)]);
      var c := b.(pool := pool, pcs := b.pcs[t := RollBack(l, k)]);
      OneMore(tr', t, c);
      var d := b.(pcs := b.pcs[t := HandBack(l, k)]);
      assert pool.owing - {t} == s.pool.owing;
      assert c.pcs[t := HandBack(l, k)] == d.pcs;
      OneMore(tr' + [c], t, d);
      tr' := tr' + [c] + [d];
    }
    tr' := HandBackAlone(tr', s, t, l, k);
  }

  lemma HandBackAlone(tr: seq<State>, s: State, t: Tid, l: Layout, k: nat) returns (tr': seq<State>)
    requires Alone(tr, t) && t !in s.pcs && k < |s.slots| && s.slots[k].st.Empty?
    requires Last(tr) == s.(slots := s.slots[k := s.slots[k].(st := Allocated)], pcs := s.pcs[t := HandBack(l, k)])
    ensures Alone(tr', t) && tr'[0] == tr[0] && Last(tr') == At(s, t, Scan(l, k + 1))
  {
    var d, z := Last(tr), At(s, t, Scan(l, k + 1));
    assert d.slots[k := d.slots[k].(st := Empty)] == s.slots;
    assert d.pcs[t := Scan(l, k + 1)] == z.pcs;
    OneMore(tr, t, z);
    tr' := tr + [z];
  }

  /** A slot that cannot serve is passed, and everything is as it was. */
  lemma PassAlone(tr: seq<State>, s: State, t: Tid, l: Layout, k: nat) returns (tr': seq<State>)
    requires Alone(tr, t) && Last(tr) == At(s, t, Scan(l, k)) && t !in s.pcs && t !in s.pool.owing && s.hg >= 1
    requires k < |s.slots| == |s.classes| && MinClass(s, l).Some? && !CanServe(s, l, k)
    ensures Alone(tr', t) && tr'[0] == tr[0] && Last(tr') == At(s, t, Scan(l, k + 1))
  {
    if MinClass(s, l).value <= s.classes[k] && s.slots[k].st.Empty? {
      tr' := NoRoomAlone(tr, s, t, l, k);
    } else {
      var z := At(s, t, Scan(l, k + 1));
      assert Last(tr).pcs[t := Scan(l, k + 1)] == z.pcs;
      OneMore(tr, t, z);
      tr' := tr + [z];
    }
  }

  lemma {:induction false} ScanAlone(tr: seq<State>, s: State, t: Tid, l: Layout, k: nat)
    returns (tr': seq<State>, found: Option<nat>)
    requires Alone(tr, t) && Last(tr) == At(s, t, Scan(l, k)) && t !in s.pcs && t !in s.pool.owing && s.hg >= 1
    requires k <= |s.slots| == |s.classes| && MinClass(s, l).Some? && 1 <= l.align <= WORD
    ensures Alone(tr', t) && tr'[0] == tr[0]
    ensures found.None? ==> Last(tr') == s && forall j :: k <= j < |s.slots| ==> !CanServe(s, l, j)
    ensures found.Some? ==> k <= found.value < |s.slots| && CanServe(s, l, found.value)
    ensures found.Some? ==> Last(tr') == Served(s, l, found.value)
    ensures found.Some? ==> forall j :: k <= j < found.value ==> !CanServe(s, l, j)
    decreases |s.slots| - k
  {
    if k == |s.slots| {
      assert Last(tr).pcs - {t} == s.pcs;
      OneMore(tr, t, s);
      tr', found := tr + [s], None;
    } else if CanServe(s, l, k) {
      found := Some(k);
      if s.slots[k].st.Free? { tr' := FreeSlotAlone(tr, s, t, l, k); } else { tr' := EmptySlotAlone(tr, s, t, l, k); }
    } else {
      tr' := PassAlone(tr, s, t, l, k);
      tr', found := ScanAlone(tr', s, t, l, k + 1);
    }
  }

  /**
   A huge allocation, alone: the first slot in scan order that can serve the layout does, its run
   carved if it had none, and null leaves everything as it was and is returned exactly if no slot can
   or no class covers the layout.
   */
  lemma AllocAlone(s: State, t: Tid, l: Layout, s0: State) returns (tr: seq<State>, found: Option<nat>)
    requires s.hg >= 1 && |s.slots| == |s.classes| && Next(s, StartAlloc(t, l), s0)
    ensures Alone(tr, t) && tr[0] == s0
    ensures found.None? <==> forall k :: 0 <= k < |s.slots| ==> !CanServe(s, l, k)
    ensures found.None? ==> Last(tr) == s
    ensures found.Some? ==> found.value < |s.slots| && CanServe(s, l, found.value)
    ensures found.Some? ==> Last(tr) == Served(s, l, found.value)
    ensures found.Some? ==> forall j :: 0 <= j < found.value ==> !CanServe(s, l, j)
  {
    if MinClass(s, l).None? {
      tr, found := [s], None;
    } else {
      tr, found := ScanAlone([s0], s, t, l, 0);
    }
  }

  // ------------------------------------------------------------------
  // Free

  /** The scan, from slot i on, to the one slot that contains the pointer. */
  lemma {:induction false} FindAlone(tr: seq<State>, s: State, t: Tid, ptr: nat, i: nat, k: nat)
    returns (tr': seq<State>)
    requires Alone(tr, t) && Last(tr) == At(s, t, Find(ptr, i, k)) && t !in s.pcs && i <= k < |s.slots|
    requires forall j: nat :: Contains(s, j, ptr) <==> j == k
    ensures Alone(tr', t) && tr'[0] == tr[0] && Last(tr') == SetSlot(s, k, s.slots[k].(st := Free))
    decreases k - i
  {
    var a := Last(tr);
    assert Contains(a, i, ptr) <==> Contains(s, i, ptr);
    if i == k {
      var b := At(s, t, Release(k, k));
      assert a.pcs[t := Release(k, k)] == b.pcs;
      OneMore(tr, t, b);
      var z := SetSlot(s, k, s.slots[k].(st := Free));
      assert b.pcs - {t} == z.pcs;
      OneMore(tr + [b], t, z);
      tr' := tr + [b] + [z];
    } else {
      var b := At(s, t, Find(ptr, i + 1, k));
      assert a.pcs[t := Find(ptr, i + 1, k)] == b.pcs;
      OneMore(tr, t, b);
      tr' := FindAlone(tr + [b], s, t, ptr, i + 1, k);
    }
  }

  /** A free, alone, makes exactly the slot that served the pointer free again. */
  lemma FreeAlone(s: State, t: Tid, k: nat, s0: State) returns (tr: seq<State>)
    requires Inv(s) && Next(s, StartFree(t, k), s0)
    ensures Alone(tr, t) && tr[0] == s0 && k < |s.slots|
    ensures Last(tr) == s.(live := s.live - {k}, slots := s.slots[k := s.slots[k].(st := Free)])
  {
    var ptr, y := s.live[k].ptr, s.(live := s.live - {k});
    ServedBy(s, k);
    forall j: nat ensures Contains(y, j, ptr) <==> j == k { assert Contains(y, j, ptr) <==> Contains(s, j, ptr); }
    tr := FindAlone([s0], y, t, ptr, 0, k);
  }

  lemma ServedBy(s: State, k: nat)
    requires Inv(s) && k in s.live
    ensures k < |s.slots| && forall j: nat :: Contains(s, j, s.live[k].ptr) <==> j == k
  {
    assert LiveOk(s, k);
    PayloadInSlot(s, k, s.live[k].l);
    forall j: nat | Contains(s, j, s.live[k].ptr) ensures j == k { SlotsDisjoint(s, j, k, s.live[k].ptr); }
  }
}
