/**
 The huge-slot directory (src/huge.rs) on top of the shared pool.

 Threads claim slots with one CAS each, carve a slot's memory lazily from the pool the
 first time, hand an empty slot back when the pool is exhausted, and free by an address
 scan of the directory; other threads carve spans and large runs from the same pool at the
 same time.  One step is one atomic action.
 */
module HugeArena {
  import opened Wrappers
  import opened Align
  import opened Placement
  import Carve

  type Tid = nat

  datatype SlotState = Empty | Free | Allocated

  /** `st` and `base` are the slot's words (base 0 while it has no memory); `grant` is a
      history variable, the pool grant the memory came from. */
  datatype Slot = Slot(st: SlotState, base: nat, grant: Option<nat>)

  /** An allocation in a user's hands. */
  datatype Live = Live(ptr: nat, l: Layout)

  /** Control points; k is the slot.  In `Find` and `Release`, `own` is a history variable:
      the slot that served the pointer. */
  datatype Pc =
    | Scan(l: Layout, k: nat)
    | ClaimFree(l: Layout, k: nat)
    | ClaimEmpty(l: Layout, k: nat)
    | LoadBase(l: Layout, k: nat)
    | CarveRun(l: Layout, k: nat)
    | RollBack(l: Layout, k: nat)
    | HandBack(l: Layout, k: nat)
    | StoreBase(l: Layout, k: nat, start: nat, grant: nat)
    | Finish(l: Layout, k: nat, base: nat)
    | Find(ptr: nat, k: nat, own: nat)
    | Release(k: nat, own: nat)
    | NotFound

  /** `origin` is the pool's base address, `hg` the granule in spans, `classes[k]` the class
      of slot k. */
  datatype State = State(
    hg: nat,
    origin: nat,
    classes: seq<nat>,
    pool: Carve.Pool,
    slots: seq<Slot>,
    pcs: map<Tid, Pc>,
    live: map<nat, Live>)

  datatype Step =
    | StartAlloc(t: Tid, l: Layout)
    | StartFree(t: Tid, k: nat)
    | Act(t: Tid)
    | PoolStep(p: Carve.Step)

  ghost function Bytes(s: State, k: nat): nat
    requires k < |s.classes|
  {
    HugeClassBytes(s.hg, s.classes[k])
  }

  /** The range test of `dealloc_huge_with_token_counted`. */
  ghost predicate Contains(s: State, k: nat, addr: nat) {
    k < |s.slots| && k < |s.classes| && s.slots[k].base != 0 && s.slots[k].base <= addr < s.slots[k].base + Bytes(s, k)
  }

  ghost function MinClass(s: State, l: Layout): Option<nat> {
    if s.hg >= 1 then HugeClassForLayout(s.hg, l) else None
  }

  ghost function At(s: State, t: Tid, pc: Pc): State { s.(pcs := s.pcs[t := pc]) }

  ghost function Done(s: State, t: Tid): State { s.(pcs := s.pcs - {t}) }

  ghost function SetSlot(s: State, k: nat, slot: Slot): State
    requires k < |s.slots|
  {
    s.(slots := s.slots[k := slot])
  }

  /** A thread's action other than on the pool. */
  ghost predicate PlainAct(s: State, t: Tid, s': State)
    requires t in s.pcs
  {
    match s.pcs[t]
    case Scan(l, k) =>
      if k >= |s.slots| || k >= |s.classes| then s' == Done(s, t)
      else if MinClass(s, l).None? || s.classes[k] < MinClass(s, l).value then s' == At(s, t, Scan(l, k + 1))
      else s' == At(s, t, match s.slots[k].st
                         case Free => ClaimFree(l, k)
                         case Empty => ClaimEmpty(l, k)
                         case Allocated => Scan(l, k + 1))
    case ClaimFree(l, k) =>
      && k < |s.slots|
      && if s.slots[k].st.Free? then s' == At(SetSlot(s, k, s.slots[k].(st := Allocated)), t, LoadBase(l, k))
         else s' == At(s, t, Scan(l, k + 1))
    case ClaimEmpty(l, k) =>
      && k < |s.slots|
      && if s.slots[k].st.Empty? then s' == At(SetSlot(s, k, s.slots[k].(st := Allocated)), t, CarveRun(l, k))
         else s' == At(s, t, Scan(l, k + 1))
    case LoadBase(l, k) => k < |s.slots| && s' == At(s, t, Finish(l, k, s.slots[k].base))
    case HandBack(l, k) => k < |s.slots| && s' == At(SetSlot(s, k, s.slots[k].(st := Empty)), t, Scan(l, k + 1))
    case StoreBase(l, k, start, grant) =>
      var base := s.origin + start * SPAN_SIZE;
      k < |s.slots| && s' == At(SetSlot(s, k, s.slots[k].(base := base, grant := Some(grant))), t, Finish(l, k, base))
    case Finish(l, k, base) =>
      1 <= l.align <= WORD && s' == Done(s, t).(live := s.live[k := Live(HugePayload(base, l), l)])
    case Find(ptr, k, own) =>
      if k >= |s.slots| then s' == At(s, t, NotFound)
      else s' == At(s, t, if Contains(s, k, ptr) then Release(k, own) else Find(ptr, k + 1, own))
    case Release(k, own) => k < |s.slots| && s' == Done(SetSlot(s, k, s.slots[k].(st := Free)), t)
    case _ => false
  }

  /** The fetch-and-add of the lazy carve. */
  ghost predicate CarveAct(s: State, t: Tid, s': State)
    requires t in s.pcs && s.pcs[t].CarveRun?
  {
    var l, k := s.pcs[t].l, s.pcs[t].k;
    && k < |s.classes|
    && var len := HugeClassSpans(s.hg, s.classes[k]);
    && Carve.TakeRunStep(s.pool, t, len, s'.pool)
    && s' == At(s, t, if s'.pool.grants != s.pool.grants then StoreBase(l, k, s.pool.next, |s.pool.grants|)
                      else if t in s'.pool.owing then RollBack(l, k)
                      else HandBack(l, k)).(pool := s'.pool)
  }

  ghost predicate Next(s: State, step: Step, s': State) {
    match step
    case StartAlloc(t, l) =>
      t !in s.pcs && t !in s.pool.owing && ValidLayout(l) && 1 <= l.align <= WORD && l.size >= s.hg * SPAN_SIZE
      && s' == (if MinClass(s, l).None? then s else At(s, t, Scan(l, 0)))
    case StartFree(t, k) =>
      t !in s.pcs && t !in s.pool.owing && k in s.live
        && s' == At(s, t, Find(s.live[k].ptr, 0, k)).(live := s.live - {k})
    case Act(t) =>
      t in s.pcs
      && if s.pcs[t].CarveRun? then CarveAct(s, t, s')
         else if s.pcs[t].RollBack? then
           Carve.RollBackStep(s.pool, t, s'.pool) && s' == At(s, t, HandBack(s.pcs[t].l, s.pcs[t].k)).(pool := s'.pool)
         else PlainAct(s, t, s')
    case PoolStep(p) => p.t !in s.pcs && Carve.Next(s.pool, p, s'.pool) && s' == s.(pool := s'.pool)
  }

  ghost predicate Init(s: State) {
    && s.hg >= 1 && s.origin >= 1 && Multiple(s.origin, SPAN_SIZE) && s.origin + s.pool.count * SPAN_SIZE < WORD
    && Carve.Init(s.pool)
    && |s.slots| == |s.classes|
    && (forall k :: 0 <= k < |s.slots| ==> s.slots[k] == Slot(Empty, 0, None))
    && s.pcs == map[] && s.live == map[]
  }

  // ------------------------------------------------------------------
  // The invariant

  /** The thread has slot k to itself. */
  ghost predicate Holds(pc: Pc, k: nat) {
    || ((pc.LoadBase? || pc.CarveRun? || pc.RollBack? || pc.HandBack? || pc.StoreBase? || pc.Finish?) && pc.k == k)
    || ((pc.Find? || pc.Release?) && pc.own == k)
  }

  /** The slot's memory is exactly one grant of the pool. */
  ghost predicate SlotOk(s: State, k: nat)
    requires k < |s.slots| == |s.classes|
  {
    var slot := s.slots[k];
    && (slot.base == 0 <==> slot.grant == None)
    && (slot.grant.Some? ==> IsGrant(s, slot.grant.value, slot.base, k))
    && (slot.st.Empty? ==> slot.base == 0)
    && (slot.st.Free? ==> slot.base != 0)
  }

  ghost predicate IsGrant(s: State, j: nat, base: nat, k: nat)
    requires k < |s.classes|
  {
    && j < |s.pool.grants|
    && base == s.origin + s.pool.grants[j].start * SPAN_SIZE
    && s.pool.grants[j].len == HugeClassSpans(s.hg, s.classes[k])
  }

  /** The layout fits the class of slot k. */
  ghost predicate Fits(s: State, l: Layout, k: nat)
    requires k < |s.classes|
  {
    && ValidLayout(l) && 1 <= l.align <= WORD && l.size >= s.hg * SPAN_SIZE
    && MinClass(s, l).Some? && MinClass(s, l).value <= s.classes[k]
  }

  ghost predicate PcOk(s: State, t: Tid)
    requires t in s.pcs && |s.slots| == |s.classes|
  {
    match s.pcs[t]
    case Scan(l, k) => ValidLayout(l) && 1 <= l.align <= WORD && l.size >= s.hg * SPAN_SIZE && MinClass(s, l).Some?
    case ClaimFree(l, k) => k < |s.slots| && Fits(s, l, k)
    case ClaimEmpty(l, k) => k < |s.slots| && Fits(s, l, k)
    case LoadBase(l, k) => k < |s.slots| && Fits(s, l, k) && s.slots[k].base != 0
    case CarveRun(l, k) => k < |s.slots| && Fits(s, l, k) && s.slots[k].base == 0
    case RollBack(l, k) => k < |s.slots| && Fits(s, l, k) && s.slots[k].base == 0
    case HandBack(l, k) => k < |s.slots| && Fits(s, l, k) && s.slots[k].base == 0
    case StoreBase(l, k, start, grant) =>
      && k < |s.slots| && Fits(s, l, k) && s.slots[k].base == 0 && IsGrant(s, grant, s.origin + start * SPAN_SIZE, k)
      && (forall m :: 0 <= m < |s.slots| ==> s.slots[m].grant != Some(grant))
    case Finish(l, k, base) => k < |s.slots| && Fits(s, l, k) && base != 0 && s.slots[k].base == base
    case Find(ptr, k, own) => k <= own < |s.slots| && Contains(s, own, ptr)
    case Release(k, own) => k == own < |s.slots| && s.slots[k].base != 0
    case NotFound => false
  }

  ghost predicate LiveOk(s: State, k: nat)
    requires k in s.live && |s.slots| == |s.classes|
  {
    && k < |s.slots| && s.slots[k].st.Allocated? && s.slots[k].base != 0
    && Fits(s, s.live[k].l, k) && s.live[k].ptr == HugePayload(s.slots[k].base, s.live[k].l)
  }

  /** Thread t has slot k to itself. */
  ghost predicate On(pcs: map<Tid, Pc>, t: Tid, k: nat) { t in pcs && Holds(pcs[t], k) }

  ghost predicate Taken(slots: seq<Slot>, live: map<nat, Live>, k: nat) {
    k < |slots| && slots[k].st.Allocated? && k !in live
  }

  /** Whoever holds a slot holds it alone, and every allocated slot is held or live. */
  ghost predicate ExclusiveIn(slots: seq<Slot>, pcs: map<Tid, Pc>, live: map<nat, Live>) {
    && (forall t, k: nat :: On(pcs, t, k) ==> Taken(slots, live, k))
    && (forall t, u, k: nat :: On(pcs, t, k) && On(pcs, u, k) ==> t == u)
    && (forall k: nat :: Taken(slots, live, k) ==> exists t :: On(pcs, t, k))
  }

  ghost predicate Exclusive(s: State) { ExclusiveIn(s.slots, s.pcs, s.live) }

  /** No grant serves two slots, stored or about to be. */
  ghost predicate GrantsApartIn(slots: seq<Slot>, pcs: map<Tid, Pc>) {
    && (forall j, k | 0 <= j < |slots| && 0 <= k < |slots| ::
          slots[j].grant.Some? && slots[j].grant == slots[k].grant ==> j == k)
    && (forall t, u | t in pcs && u in pcs ::
          pcs[t].StoreBase? && pcs[u].StoreBase? && pcs[t].grant == pcs[u].grant ==> t == u)
  }

  ghost predicate GrantsApart(s: State) { GrantsApartIn(s.slots, s.pcs) }

  ghost predicate Inv(s: State) {
    && s.hg >= 1 && s.origin >= 1 && Multiple(s.origin, SPAN_SIZE) && s.origin + s.pool.count * SPAN_SIZE < WORD
    && Carve.Inv(s.pool)
    && |s.slots| == |s.classes|
    && (forall k :: 0 <= k < |s.slots| ==> SlotOk(s, k))
    && (forall t :: t in s.pcs ==> PcOk(s, t))
    && (forall k :: k in s.live ==> LiveOk(s, k))
    && Exclusive(s)
    && GrantsApart(s)
  }

  // ------------------------------------------------------------------
  // Ranges

  lemma BytesAreSpans(hg: nat, c: nat)
    ensures HugeClassBytes(hg, c) == HugeClassSpans(hg, c) * SPAN_SIZE
  {
    assert (hg * SPAN_SIZE) * Pow2(c) == (Pow2(c) * hg) * SPAN_SIZE;
  }

  /** A grant's memory lies in the region, span-aligned; two grants never overlap. */
  lemma GrantRange(s: State, j: nat, k: nat)
    requires Inv(s) && j < |s.pool.grants| && k < |s.pool.grants|
    ensures var a := s.origin + s.pool.grants[j].start * SPAN_SIZE;
      Multiple(a, SPAN_SIZE) && s.origin <= a
        && a + s.pool.grants[j].len * SPAN_SIZE <= s.origin + s.pool.count * SPAN_SIZE < WORD
    ensures j < k ==>
      s.origin + s.pool.grants[j].start * SPAN_SIZE + s.pool.grants[j].len * SPAN_SIZE
        <= s.origin + s.pool.grants[k].start * SPAN_SIZE
  {
    var g, h := s.pool.grants[j], s.pool.grants[k];
    Carve.GrantBelowFrontier(s.pool.grants, j, j);
    if j < k { Carve.GrantBelowFrontier(s.pool.grants, j, k); MulMono(g.start + g.len, h.start, SPAN_SIZE); }
    MulMono(g.start + g.len, s.pool.count, SPAN_SIZE);
    assert (g.start + g.len) * SPAN_SIZE == g.start * SPAN_SIZE + g.len * SPAN_SIZE;
    assert Multiple(g.start * SPAN_SIZE, SPAN_SIZE);
    MultipleSum(s.origin, g.start * SPAN_SIZE, SPAN_SIZE);
  }

  /** A slot with memory: its range is its grant's, inside the region. */
  lemma SlotRange(s: State, k: nat)
    requires Inv(s) && k < |s.slots| && s.slots[k].base != 0
    ensures s.slots[k].grant.Some? && IsGrant(s, s.slots[k].grant.value, s.slots[k].base, k)
    ensures Multiple(s.slots[k].base, SPAN_SIZE) && s.slots[k].base + Bytes(s, k) < WORD
    ensures Bytes(s, k) == s.pool.grants[s.slots[k].grant.value].len * SPAN_SIZE
  {
    assert SlotOk(s, k);
    var j := s.slots[k].grant.value;
    GrantRange(s, j, j);
    BytesAreSpans(s.hg, s.classes[k]);
  }

  /** No address belongs to two slots. */
  lemma SlotsDisjoint(s: State, j: nat, k: nat, addr: nat)
    requires Inv(s) && Contains(s, j, addr) && Contains(s, k, addr)
    ensures j == k
  {
    SlotRange(s, j);
    SlotRange(s, k);
    var a, b := s.slots[j].grant.value, s.slots[k].grant.value;
    if a < b { GrantRange(s, a, b); }
    if b < a { GrantRange(s, b, a); }
  }

  /** The payload of a fitting layout is aligned and inside the slot. */
  lemma PayloadInSlot(s: State, k: nat, l: Layout)
    requires Inv(s) && k < |s.slots| && s.slots[k].base != 0 && Fits(s, l, k)
    ensures var p := HugePayload(s.slots[k].base, l);
      Multiple(p, l.align) && s.slots[k].base <= p && p + l.size <= s.slots[k].base + Bytes(s, k) && Contains(s, k, p)
  {
    SlotRange(s, k);
    HugePlacement(s.hg, l, s.slots[k].base, s.classes[k]);
    MulMono(1, s.hg, SPAN_SIZE);
  }

  // ------------------------------------------------------------------
  // Steps

  ghost predicate OnlyPc(s: State, s': State, t: Tid) {
    (t in s'.pcs && s'.pcs == s.pcs[t := s'.pcs[t]]) || s'.pcs == s.pcs - {t}
  }

  lemma OthersPcs(s: State, s': State, t: Tid, u: Tid)
    requires OnlyPc(s, s', t) && u != t
    ensures u in s'.pcs <==> u in s.pcs
    ensures u in s.pcs ==> s'.pcs[u] == s.pcs[u]
  {
  }

  /** The pool only ever appends grants. */
  lemma GrantsGrow(p: Carve.Pool, step: Carve.Step, p': Carve.Pool)
    requires Carve.Inv(p) && Carve.Next(p, step, p')
    ensures Carve.Inv(p') && p'.count == p.count && p.grants <= p'.grants
  {
    Carve.NextKeepsInv(p, step, p');
  }

  ghost predicate SameButPool(s: State, s': State) {
    s' == s.(pool := s'.pool) && s'.pool.count == s.pool.count && s.pool.grants <= s'.pool.grants
  }

  ghost predicate SameShape(s: State, s': State) {
    && s'.hg == s.hg && s'.origin == s.origin && s'.classes == s.classes
    && |s'.slots| == |s.slots| == |s.classes|
    && s.pool.grants <= s'.pool.grants
  }

  /** What a thread relies on: the base of the slot it holds, and that its carved grant is
      nobody's yet. */
  lemma PcFrame(s: State, s': State, u: Tid)
    requires SameShape(s, s') && u in s.pcs && PcOk(s, u) && u in s'.pcs && s'.pcs[u] == s.pcs[u]
    requires forall m :: 0 <= m < |s.slots| && Holds(s.pcs[u], m) ==> s'.slots[m].base == s.slots[m].base
    requires s.pcs[u].StoreBase? ==> forall m :: 0 <= m < |s.slots| ==> s'.slots[m].grant != Some(s.pcs[u].grant)
    ensures PcOk(s', u)
  {
  }

  lemma SlotFrame(s: State, s': State, k: nat)
    requires SameShape(s, s') && k < |s.slots| && SlotOk(s, k)
    requires s'.slots[k].base == s.slots[k].base && s'.slots[k].grant == s.slots[k].grant
    requires (s'.slots[k].st.Empty? ==> s.slots[k].base == 0) && (s'.slots[k].st.Free? ==> s.slots[k].base != 0)
    ensures SlotOk(s', k)
  {
  }

  lemma LiveFrame(s: State, s': State, k: nat)
    requires SameShape(s, s') && k in s.live && LiveOk(s, k) && k in s'.live
    requires s'.live[k] == s.live[k] && s'.slots[k] == s.slots[k]
    ensures LiveOk(s', k)
  {
  }

  lemma PoolKeepsInv(s: State, s': State)
    requires Inv(s) && SameButPool(s, s') && Carve.Inv(s'.pool)
    ensures Inv(s')
  {
    forall k | 0 <= k < |s'.slots| ensures SlotOk(s', k) { SlotFrame(s, s', k); }
    forall t | t in s'.pcs ensures PcOk(s', t) { assert PcOk(s, t); PcFrame(s, s', t); }
    forall k | k in s'.live ensures LiveOk(s', k) { LiveFrame(s, s', k); }
  }

  /** A step that only moves a thread between control points that hold the same slots. */
  lemma PcKeepsInv(s: State, s': State, t: Tid)
    requires Inv(s) && OnlyPc(s, s', t) && s' == s.(pcs := s'.pcs)
    requires t in s'.pcs ==> PcOk(s', t) && !s'.pcs[t].StoreBase?
    requires forall k: nat :: On(s'.pcs, t, k) <==> On(s.pcs, t, k)
    ensures Inv(s')
  {
    forall k | 0 <= k < |s'.slots| ensures SlotOk(s', k) { assert SlotOk(s, k); }
    forall u | u in s'.pcs ensures PcOk(s', u) { if u != t { OthersPcs(s, s', t, u); assert PcOk(s, u); } }
    forall k | k in s'.live ensures LiveOk(s', k) { assert LiveOk(s, k); }
    PcKeepsExclusive(s, s', t);
    forall u, v | u in s'.pcs && v in s'.pcs && s'.pcs[u].StoreBase? && s'.pcs[v].StoreBase?
      && s'.pcs[u].grant == s'.pcs[v].grant
      ensures u == v
    {
      OthersPcs(s, s', t, u);
      OthersPcs(s, s', t, v);
    }
  }

  lemma PcKeepsExclusive(s: State, s': State, t: Tid)
    requires Exclusive(s) && OnlyPc(s, s', t) && s' == s.(pcs := s'.pcs)
    requires forall k: nat :: On(s'.pcs, t, k) <==> On(s.pcs, t, k)
    ensures Exclusive(s')
  {
    forall u, k: nat ensures On(s'.pcs, u, k) <==> On(s.pcs, u, k) { if u != t { OthersPcs(s, s', t, u); } }
    forall k: nat | Taken(s'.slots, s'.live, k) ensures exists u :: On(s'.pcs, u, k) {
      var u :| On(s.pcs, u, k);
      assert On(s'.pcs, u, k);
    }
  }

  /** The slots t gains or gives up when it moves: only slot k, whose state says so. */
  lemma ExclusiveByParts(s: State, s': State, t: Tid, k: nat)
    requires Exclusive(s) && OnlyPc(s, s', t)
    requires forall m: nat :: m != k ==> (Taken(s'.slots, s'.live, m) <==> Taken(s.slots, s.live, m))
    requires forall m: nat :: m != k ==> (On(s'.pcs, t, m) <==> On(s.pcs, t, m))
    requires On(s'.pcs, t, k) <==> Taken(s'.slots, s'.live, k)
    requires forall u :: u != t ==> !On(s.pcs, u, k)
    ensures Exclusive(s')
  {
    forall u, m: nat ensures On(s'.pcs, u, m) <==> if m == k then u == t && On(s'.pcs, t, k) else On(s.pcs, u, m) {
      if u != t {
        OthersPcs(s, s', t, u);
        assert On(s'.pcs, u, m) <==> On(s.pcs, u, m);
      }
    }
    forall m: nat | Taken(s'.slots, s'.live, m) ensures exists u :: On(s'.pcs, u, m) {
      if m == k {
        assert On(s'.pcs, t, k);
      } else {
        var u :| On(s.pcs, u, m);
        assert On(s'.pcs, u, m);
      }
    }
  }

  /** A slot that is free, empty or in a user's hands has no thread on it. */
  lemma NobodyOn(s: State, k: nat)
    requires Exclusive(s) && !Taken(s.slots, s.live, k)
    ensures forall u :: !On(s.pcs, u, k)
  {
  }

  lemma SlotStepKeepsPc(s: State, s': State, t: Tid, k: nat, u: Tid)
    requires SameShape(s, s') && OnlyPc(s, s', t) && k < |s.slots|
    requires s'.slots == s.slots[k := s'.slots[k]] && GrantsApart(s)
    requires s'.slots[k].grant == s.slots[k].grant
      || (t in s.pcs && s.pcs[t].StoreBase? && s'.slots[k].grant == Some(s.pcs[t].grant))
    requires u != t && !On(s.pcs, u, k) && u in s'.pcs && (u in s.pcs ==> PcOk(s, u))
    ensures PcOk(s', u)
  {
    OthersPcs(s, s', t, u);
    PcFrame(s, s', u);
  }

  /** A step of the thread that has slot k to itself, or is just taking it. */
  lemma SlotStepKeepsInv(s: State, s': State, t: Tid, k: nat)
    requires Inv(s) && OnlyPc(s, s', t) && k < |s.slots|
    requires |s'.slots| == |s.slots| && s' == s.(slots := s.slots[k := s'.slots[k]], pcs := s'.pcs, live := s'.live)
    requires SlotOk(s', k) && (t in s'.pcs ==> PcOk(s', t) && !s'.pcs[t].StoreBase?)
    requires s'.slots[k].grant == s.slots[k].grant
      || (t in s.pcs && s.pcs[t].StoreBase? && s'.slots[k].grant == Some(s.pcs[t].grant))
    requires forall u :: u != t ==> !On(s.pcs, u, k)
    requires forall m: nat :: m != k ==> (m in s'.live <==> m in s.live)
    requires forall m: nat :: m != k && m in s.live && m in s'.live ==> s'.live[m] == s.live[m]
    requires k in s'.live ==> LiveOk(s', k)
    requires Exclusive(s')
    ensures Inv(s')
  {
    forall m | 0 <= m < |s'.slots| ensures SlotOk(s', m) { if m != k { assert SlotOk(s, m); SlotFrame(s, s', m); } }
    forall u | u in s'.pcs && u != t ensures PcOk(s', u) { SlotStepKeepsPc(s, s', t, k, u); }
    forall m | m in s'.live ensures LiveOk(s', m) { if m != k { LiveFrame(s, s', m); } }
    SlotStepKeepsGrants(s, s', t, k);
  }

  lemma SlotStepKeepsGrants(s: State, s': State, t: Tid, k: nat)
    requires GrantsApart(s) && OnlyPc(s, s', t) && k < |s.slots| && |s'.slots| == |s.slots| == |s.classes|
    requires forall m :: 0 <= m < |s.slots| && m != k ==> s'.slots[m] == s.slots[m]
    requires t in s'.pcs ==> !s'.pcs[t].StoreBase?
    requires t in s.pcs ==> PcOk(s, t)
    requires s'.slots[k].grant == s.slots[k].grant
      || (t in s.pcs && s.pcs[t].StoreBase? && s'.slots[k].grant == Some(s.pcs[t].grant))
    ensures GrantsApart(s')
  {
    forall u, v | u in s'.pcs && v in s'.pcs && s'.pcs[u].StoreBase? && s'.pcs[v].StoreBase?
      && s'.pcs[u].grant == s'.pcs[v].grant
      ensures u == v
    {
      OthersPcs(s, s', t, u);
      OthersPcs(s, s', t, v);
    }
  }

  lemma ClaimTakes(s: State, t: Tid, s': State)
    requires Exclusive(s) && t in s.pcs && (s.pcs[t].ClaimFree? || s.pcs[t].ClaimEmpty?) && PlainAct(s, t, s')
    requires s'.slots != s.slots && (forall m :: m in s.live ==> m < |s.slots| && s.slots[m].st.Allocated?)
    ensures Exclusive(s') && (forall u :: !On(s.pcs, u, s.pcs[t].k)) && s.pcs[t].k !in s.live
  {
    NobodyOn(s, s.pcs[t].k);
    ExclusiveByParts(s, s', t, s.pcs[t].k);
  }

  lemma ClaimLosesInv(s: State, t: Tid, s': State)
    requires Inv(s) && t in s.pcs && (s.pcs[t].ClaimFree? || s.pcs[t].ClaimEmpty?)
    requires PlainAct(s, t, s') && s'.slots == s.slots
    ensures Inv(s')
  {
    assert PcOk(s, t);
    PcKeepsInv(s, s', t);
  }

  lemma ClaimInv(s: State, t: Tid, s': State)
    requires Inv(s) && t in s.pcs && (s.pcs[t].ClaimFree? || s.pcs[t].ClaimEmpty?) && PlainAct(s, t, s')
    ensures Inv(s')
  {
    if s'.slots == s.slots {
      ClaimLosesInv(s, t, s');
    } else {
      var k := s.pcs[t].k;
      assert PcOk(s, t) && SlotOk(s, k);
      forall m | m in s.live ensures m < |s.slots| && s.slots[m].st.Allocated? { assert LiveOk(s, m); }
      ClaimTakes(s, t, s');
      SlotStepKeepsInv(s, s', t, k);
    }
  }

  lemma LoadBaseInv(s: State, t: Tid, s': State)
    requires Inv(s) && t in s.pcs && s.pcs[t].LoadBase? && PlainAct(s, t, s')
    ensures Inv(s')
  {
    assert PcOk(s, t);
    PcKeepsInv(s, s', t);
  }

  lemma ScanInv(s: State, t: Tid, s': State)
    requires Inv(s) && t in s.pcs && s.pcs[t].Scan? && PlainAct(s, t, s')
    ensures Inv(s')
  {
    assert PcOk(s, t);
    PcKeepsInv(s, s', t);
  }

  lemma HolderAlone(s: State, t: Tid, k: nat)
    requires Exclusive(s) && On(s.pcs, t, k)
    ensures k < |s.slots| && s.slots[k].st.Allocated? && k !in s.live
    ensures forall u :: u != t ==> !On(s.pcs, u, k)
  {
  }

  lemma HandBackInv(s: State, t: Tid, s': State)
    requires Inv(s) && t in s.pcs && s.pcs[t].HandBack? && PlainAct(s, t, s')
    ensures Inv(s')
  {
    var k := s.pcs[t].k;
    assert PcOk(s, t) && SlotOk(s, k);
    HolderAlone(s, t, k);
    ExclusiveByParts(s, s', t, k);
    SlotStepKeepsInv(s, s', t, k);
  }

  lemma StoreBaseInv(s: State, t: Tid, s': State)
    requires Inv(s) && t in s.pcs && s.pcs[t].StoreBase? && PlainAct(s, t, s')
    ensures Inv(s')
  {
    var k := s.pcs[t].k;
    assert PcOk(s, t) && SlotOk(s, k);
    HolderAlone(s, t, k);
    ExclusiveByParts(s, s', t, k);
    SlotStepKeepsInv(s, s', t, k);
  }

  lemma FinishInv(s: State, t: Tid, s': State)
    requires Inv(s) && t in s.pcs && s.pcs[t].Finish? && PlainAct(s, t, s')
    ensures Inv(s')
  {
    var k := s.pcs[t].k;
    assert PcOk(s, t) && SlotOk(s, k);
    HolderAlone(s, t, k);
    SlotFrame(s, s', k);
    ExclusiveByParts(s, s', t, k);
    SlotStepKeepsInv(s, s', t, k);
  }

  /** The scan passes the slots before the one that served the pointer and stops there. */
  lemma FindInv(s: State, t: Tid, s': State)
    requires Inv(s) && t in s.pcs && s.pcs[t].Find? && PlainAct(s, t, s')
    ensures Inv(s')
  {
    var pc := s.pcs[t];
    assert PcOk(s, t);
    if Contains(s, pc.k, pc.ptr) { SlotsDisjoint(s, pc.k, pc.own, pc.ptr); }
    PcKeepsInv(s, s', t);
  }

  lemma ReleaseInv(s: State, t: Tid, s': State)
    requires Inv(s) && t in s.pcs && s.pcs[t].Release? && PlainAct(s, t, s')
    ensures Inv(s')
  {
    var k := s.pcs[t].k;
    assert PcOk(s, t) && SlotOk(s, k);
    HolderAlone(s, t, k);
    ExclusiveByParts(s, s', t, k);
    SlotStepKeepsInv(s, s', t, k);
  }

  lemma StartAllocInv(s: State, t: Tid, l: Layout, s': State)
    requires Inv(s) && Next(s, StartAlloc(t, l), s')
    ensures Inv(s')
  {
    if s' != s { PcKeepsInv(s, s', t); }
  }

  lemma StartFreeInv(s: State, t: Tid, k: nat, s': State)
    requires Inv(s) && Next(s, StartFree(t, k), s')
    ensures Inv(s')
  {
    assert LiveOk(s, k) && SlotOk(s, k);
    PayloadInSlot(s, k, s.live[k].l);
    NobodyOn(s, k);
    SlotFrame(s, s', k);
    ExclusiveByParts(s, s', t, k);
    SlotStepKeepsInv(s, s', t, k);
  }

  lemma RollBackInv(s: State, t: Tid, s': State)
    requires Inv(s) && t in s.pcs && s.pcs[t].RollBack? && Next(s, Act(t), s')
    ensures Inv(s')
  {
    GrantsGrow(s.pool, Carve.RollBack(t), s'.pool);
    var mid := s.(pool := s'.pool);
    PoolKeepsInv(s, mid);
    assert PcOk(mid, t);
    PcKeepsInv(mid, s', t);
  }

  lemma CarveInv(s: State, t: Tid, s': State)
    requires Inv(s) && t in s.pcs && s.pcs[t].CarveRun? && CarveAct(s, t, s')
    ensures Inv(s')
  {
    var k := s.pcs[t].k;
    var len := HugeClassSpans(s.hg, s.classes[k]);
    GrantsGrow(s.pool, Carve.TakeRun(t, len), s'.pool);
    var mid := s.(pool := s'.pool);
    PoolKeepsInv(s, mid);
    assert PcOk(mid, t);
    if s'.pool.grants == s.pool.grants {
      PcKeepsInv(mid, s', t);
    } else {
      FreshGrantInv(s, mid, s', t);
    }
  }

  /** A grant just carved is no slot's and no other thread's. */
  lemma FreshGrant(s: State, mid: State, s': State, t: Tid)
    requires Inv(s) && Inv(mid) && mid == s.(pool := mid.pool) && t in s.pcs
    requires s.pcs[t].CarveRun? && s.pcs[t].k < |s.classes|
    requires mid.pool.grants == s.pool.grants + [Carve.Grant(s.pool.next, HugeClassSpans(s.hg, s.classes[s.pcs[t].k]))]
    requires s' == At(mid, t, StoreBase(s.pcs[t].l, s.pcs[t].k, s.pool.next, |s.pool.grants|))
    ensures forall m :: 0 <= m < |s.slots| ==> s.slots[m].grant != Some(|s.pool.grants|)
    ensures forall u :: u in s.pcs && s.pcs[u].StoreBase? ==> s.pcs[u].grant != |s.pool.grants|
    ensures PcOk(s', t)
  {
    forall m | 0 <= m < |s.slots| ensures s.slots[m].grant != Some(|s.pool.grants|) { assert SlotOk(s, m); }
    forall u | u in s.pcs && s.pcs[u].StoreBase? ensures s.pcs[u].grant != |s.pool.grants| { assert PcOk(s, u); }
    assert PcOk(mid, t);
  }

  lemma FreshGrantApart(s: State, s': State, t: Tid, j: nat)
    requires GrantsApart(s) && s'.slots == s.slots && t in s'.pcs && s'.pcs == s.pcs[t := s'.pcs[t]]
    requires s'.pcs[t].StoreBase? && s'.pcs[t].grant == j
    requires forall u :: u in s.pcs && s.pcs[u].StoreBase? ==> s.pcs[u].grant != j
    ensures GrantsApart(s')
  {
  }

  lemma FreshGrantInv(s: State, mid: State, s': State, t: Tid)
    requires Inv(s) && Inv(mid) && mid == s.(pool := mid.pool) && t in s.pcs
    requires s.pcs[t].CarveRun? && s.pcs[t].k < |s.classes|
    requires mid.pool.grants == s.pool.grants + [Carve.Grant(s.pool.next, HugeClassSpans(s.hg, s.classes[s.pcs[t].k]))]
    requires s' == At(mid, t, StoreBase(s.pcs[t].l, s.pcs[t].k, s.pool.next, |s.pool.grants|))
    ensures Inv(s')
  {
    FreshGrant(s, mid, s', t);
    FreshGrantApart(mid, s', t, |s.pool.grants|);
    PcKeepsExclusive(mid, s', t);
    forall m | 0 <= m < |s'.slots| ensures SlotOk(s', m) { SlotFrame(mid, s', m); }
    forall u | u in s'.pcs ensures PcOk(s', u) { if u != t { assert PcOk(mid, u); PcFrame(mid, s', u); } }
    forall m | m in s'.live ensures LiveOk(s', m) { LiveFrame(mid, s', m); }
  }

  lemma PlainInv(s: State, t: Tid, s': State)
    requires Inv(s) && t in s.pcs && PlainAct(s, t, s')
    ensures Inv(s')
  {
    match s.pcs[t]
    case Scan(_, _) => ScanInv(s, t, s');
    case ClaimFree(_, _) => ClaimInv(s, t, s');
    case ClaimEmpty(_, _) => ClaimInv(s, t, s');
    case LoadBase(_, _) => LoadBaseInv(s, t, s');
    case HandBack(_, _) => HandBackInv(s, t, s');
    case StoreBase(_, _, _, _) => StoreBaseInv(s, t, s');
    case Finish(_, _, _) => FinishInv(s, t, s');
    case Find(_, _, _) => FindInv(s, t, s');
    case Release(_, _) => ReleaseInv(s, t, s');
    case _ =>
  }

  lemma NextKeepsInv(s: State, step: Step, s': State)
    requires Inv(s) && Next(s, step, s')
    ensures Inv(s')
  {
    match step
    case StartAlloc(t, l) => StartAllocInv(s, t, l, s');
    case StartFree(t, k) => StartFreeInv(s, t, k, s');
    case PoolStep(p) => GrantsGrow(s.pool, p, s'.pool); PoolKeepsInv(s, s');
    case Act(t) =>
      if s.pcs[t].CarveRun? { CarveInv(s, t, s'); }
      else if s.pcs[t].RollBack? { RollBackInv(s, t, s'); }
      else { PlainInv(s, t, s'); }
  }

  // ------------------------------------------------------------------
  // Whole runs

  ghost predicate IsRun(run: seq<State>, steps: seq<Step>) {
    && |run| == |steps| + 1
    && Init(run[0])
    && forall i :: 0 <= i < |steps| ==> Next(run[i], steps[i], run[i + 1])
  }

  lemma {:induction false} RunKeepsInv(run: seq<State>, steps: seq<Step>, i: nat)
    requires IsRun(run, steps) && i < |run|
    ensures Inv(run[i])
  {
    if i > 0 {
      RunKeepsInv(run, steps, i - 1);
      assert Next(run[i - 1], steps[i - 1], run[i]);
      NextKeepsInv(run[i - 1], steps[i - 1], run[i]);
    }
  }

  lemma StepKeepsBase(s: State, step: Step, s': State, k: nat)
    requires Inv(s) && Next(s, step, s') && k < |s.slots| && s.slots[k].base != 0
    ensures k < |s'.slots| && s'.slots[k].base == s.slots[k].base
  {
    if step.Act? && s.pcs[step.t].StoreBase? { assert PcOk(s, step.t); }
  }

  /** A slot's base is written once: once non-zero it never changes. */
  lemma {:induction false} BaseIsSetOnce(run: seq<State>, steps: seq<Step>, i: nat, j: nat, k: nat)
    requires IsRun(run, steps) && i <= j < |run| && k < |run[i].slots| && run[i].slots[k].base != 0
    ensures k < |run[j].slots| && run[j].slots[k].base == run[i].slots[k].base
    decreases j - i
  {
    if i < j {
      RunKeepsInv(run, steps, i);
      assert Next(run[i], steps[i], run[i + 1]);
      StepKeepsBase(run[i], steps[i], run[i + 1], k);
      BaseIsSetOnce(run, steps, i + 1, j, k);
    }
  }

  /** Addresses [a, a + m) and [b, b + n) do not overlap. */
  ghost predicate Apart(a: nat, m: nat, b: nat, n: nat) { a + m <= b || b + n <= a }

  /** In every reachable state a live huge payload is aligned, lies in its own slot's memory,
      and overlaps neither another live payload nor any range the pool has handed to anyone
      else: span, large run or other slot. */
  lemma HugePayloadsApart(run: seq<State>, steps: seq<Step>, i: nat, k: nat, m: nat, j: nat)
    requires IsRun(run, steps) && i < |run| && k in run[i].live
    ensures k < |run[i].slots| == |run[i].classes| && run[i].slots[k].grant.Some?
    ensures var s := run[i]; var p := s.live[k];
      && Multiple(p.ptr, p.l.align)
      && s.slots[k].base <= p.ptr && p.ptr + p.l.size <= s.slots[k].base + Bytes(s, k)
      && (m in s.live && m != k ==> Apart(p.ptr, p.l.size, s.live[m].ptr, s.live[m].l.size))
      && (j < |s.pool.grants| && s.slots[k].grant != Some(j) ==>
            Apart(p.ptr, p.l.size, s.origin + s.pool.grants[j].start * SPAN_SIZE, s.pool.grants[j].len * SPAN_SIZE))
  {
    RunKeepsInv(run, steps, i);
    var s := run[i];
    LiveInside(s, k);
    if j < |s.pool.grants| && s.slots[k].grant != Some(j) { GrantsApartAddresses(s, s.slots[k].grant.value, j); }
    if m in s.live && m != k {
      LiveInside(s, m);
      GrantsApartAddresses(s, s.slots[k].grant.value, s.slots[m].grant.value);
    }
  }

  lemma LiveInside(s: State, k: nat)
    requires Inv(s) && k in s.live
    ensures k < |s.slots| && s.slots[k].grant.Some? && IsGrant(s, s.slots[k].grant.value, s.slots[k].base, k)
    ensures Multiple(s.live[k].ptr, s.live[k].l.align)
    ensures s.slots[k].base <= s.live[k].ptr && s.live[k].ptr + s.live[k].l.size <= s.slots[k].base + Bytes(s, k)
    ensures Bytes(s, k) == s.pool.grants[s.slots[k].grant.value].len * SPAN_SIZE
  {
    assert LiveOk(s, k);
    SlotRange(s, k);
    PayloadInSlot(s, k, s.live[k].l);
  }

  lemma GrantsApartAddresses(s: State, a: nat, b: nat)
    requires Inv(s) && a < |s.pool.grants| && b < |s.pool.grants| && a != b
    ensures Apart(s.origin + s.pool.grants[a].start * SPAN_SIZE, s.pool.grants[a].len * SPAN_SIZE,
                  s.origin + s.pool.grants[b].start * SPAN_SIZE, s.pool.grants[b].len * SPAN_SIZE)
  {
    if a < b { GrantRange(s, a, b); } else { GrantRange(s, b, a); }
  }

  /** The address scan of a free matches exactly the slot that served the pointer: never an
      earlier one, never none, and the slot it makes free again is the one it was given for. */
  lemma FreeFindsItsSlot(run: seq<State>, steps: seq<Step>, i: nat, t: Tid)
    requires IsRun(run, steps) && i < |run| && t in run[i].pcs
    ensures !run[i].pcs[t].NotFound?
    ensures run[i].pcs[t].Find? ==> forall k: nat :: Contains(run[i], k, run[i].pcs[t].ptr) <==> k == run[i].pcs[t].own
    ensures run[i].pcs[t].Find? ==> run[i].pcs[t].k <= run[i].pcs[t].own
    ensures run[i].pcs[t].Release? ==> run[i].pcs[t].k == run[i].pcs[t].own
  {
    RunKeepsInv(run, steps, i);
    var s := run[i];
    assert PcOk(s, t);
    if s.pcs[t].Find? {
      forall k: nat | Contains(s, k, s.pcs[t].ptr) ensures k == s.pcs[t].own {
        SlotsDisjoint(s, k, s.pcs[t].own, s.pcs[t].ptr);
      }
    }
  }

  /** No slot is lost: an allocated slot is in a user's hands or in exactly one thread's. */
  lemma NoSlotIsLost(run: seq<State>, steps: seq<Step>, i: nat, k: nat)
    requires IsRun(run, steps) && i < |run| && k < |run[i].slots|
    ensures run[i].slots[k].st.Allocated? <==> k in run[i].live || exists t :: On(run[i].pcs, t, k)
    ensures forall t, u :: On(run[i].pcs, t, k) && On(run[i].pcs, u, k) ==> t == u
    ensures k in run[i].live ==> forall t :: !On(run[i].pcs, t, k)
  {
    RunKeepsInv(run, steps, i);
    assert k in run[i].live ==> LiveOk(run[i], k);
    assert Taken(run[i].slots, run[i].live, k) <==> exists t :: On(run[i].pcs, t, k);
  }
}
