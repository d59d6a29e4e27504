/**
 Where payloads go in the three tiers: size classes and span layout (src/size_class.rs,
 src/span.rs), large runs (src/large.rs), huge slots (src/huge.rs), and the region the
 pool carves (src/pagemap.rs).  Addresses and sizes are 64-bit words.
 */
module Placement {
  import opened Wrappers
  import opened Align

  /** A request; `align` is a power of two (what core::alloc::Layout guarantees). */
  datatype Layout = Layout(size: nat, align: nat)

  ghost predicate ValidLayout(l: Layout) {
    l.size < WORD && IsPow2(l.align)
  }

  const SPAN_SIZE: nat := 0x1_0000
  const SPAN_BITS: nat := 16
  const SPAN_HEADER_RESERVE: nat := 1024
  const MIN_BLOCK_SIZE: nat := 16
  const MAX_BLOCK_SIZE: nat := 16384
  /** Size and alignment of LargeAllocHeader: four words. */
  const HDR_SIZE: nat := 32
  const HDR_ALIGN: nat := 8
  const MAX_LARGE_SPANS: nat := 0x1_0000
  const MAX_LARGE_RUN_CLASSES: nat := 17
  const MAX_HUGE_GRANULES: nat := 4
  const MAX_HUGE_RUN_CLASSES: nat := 3

  function Max(x: nat, y: nat): nat { if x >= y then x else y }

  /** The exponent of the next power of two. */
  function LeastExp(x: nat): (k: nat)
    ensures x <= Pow2(k) && (k > 0 ==> Pow2(k - 1) < x)
  {
    if x <= 1 then 0 else 1 + LeastExp((x + 1) / 2)
  }

  function DivCeil(x: nat, d: nat): (q: nat)
    requires d >= 1
    ensures x <= q * d && (q >= 1 ==> (q - 1) * d < x)
  {
    UniqueMod(x, d, x / d, x % d);
    if x % d == 0 then x / d else
      assert (x / d + 1) * d == x / d * d + d;
      x / d + 1
  }

  // ------------------------------------------------------------------
  // Small tier

  function ClassToSize(c: nat): nat { MIN_BLOCK_SIZE * Pow2(c) }

  /** `size_to_class`; the exponent 64 and beyond is the overflow of the next power of two. */
  function SizeToClass(size: nat, align: nat): Option<nat> {
    if align > MAX_BLOCK_SIZE then None
    else
      var e := LeastExp(Max(Max(size, align), MIN_BLOCK_SIZE));
      if e > 63 || Pow2(e) > MAX_BLOCK_SIZE || e < 4 then None else Some(e - 4)
  }

  function FirstBlockOffset(blockSize: nat): nat
    requires 1 <= blockSize <= WORD
  {
    RoundUp(SPAN_HEADER_RESERVE, blockSize)
  }

  function BlocksPerSpan(blockSize: nat): nat
    requires 1 <= blockSize <= WORD
  {
    BlocksFrom(FirstBlockOffset(blockSize), blockSize)
  }

  function BlocksFrom(first: nat, blockSize: nat): nat
    requires 1 <= blockSize
  {
    if first <= SPAN_SIZE then (SPAN_SIZE - first) / blockSize else 0
  }

  /** Address of the i-th block built by `init_span`. */
  function BlockAddr(base: nat, blockSize: nat, i: nat): nat
    requires 1 <= blockSize <= WORD
  {
    base + FirstBlockOffset(blockSize) + i * blockSize
  }

  function SpanFromPtr(addr: nat): nat { RoundDown(addr, SPAN_SIZE) }

  lemma SpanSizeIsPow2()
    ensures Pow2(SPAN_BITS) == SPAN_SIZE && IsPow2(SPAN_SIZE)
  {
    assert Pow2(8) == 256;
    Pow2Add(8, 8);
  }

  lemma {:induction false} Pow2Mono(j: nat, k: nat)
    ensures j <= k <==> Pow2(j) <= Pow2(k)
  {
    if j < k { Pow2Grows(j, k); }
    if k < j { Pow2Grows(k, j); }
  }

  /** The class chosen is the least whose blocks are as large as the size and the alignment;
      there is none exactly when one of them exceeds the largest block. */
  lemma SmallClassIsLeast(size: nat, align: nat)
    ensures SizeToClass(size, align).None? <==> Max(size, align) > MAX_BLOCK_SIZE
    ensures SizeToClass(size, align).Some? ==>
      var c := SizeToClass(size, align).value;
      && c <= 10
      && size <= ClassToSize(c) && align <= ClassToSize(c)
      && (c > 0 ==> ClassToSize(c - 1) < Max(size, align))
  {
    var x := Max(Max(size, align), MIN_BLOCK_SIZE);
    var e := LeastExp(x);
    BlockExponents(x, e);
    ClassIsExponent(e - 4);
    if e > 4 { ClassIsExponent(e - 5); }
  }

  lemma BlockExponents(x: nat, e: nat)
    requires x >= MIN_BLOCK_SIZE && x <= Pow2(e) && (e > 0 ==> Pow2(e - 1) < x)
    ensures e >= 4 && (e <= 14 <==> x <= MAX_BLOCK_SIZE) && (e <= 14 <==> Pow2(e) <= MAX_BLOCK_SIZE)
  {
    assert Pow2(3) == 8;
    assert Pow2(14) == 16384 by { assert Pow2(7) == 128; Pow2Add(7, 7); }
    Pow2Mono(e, 3);
    Pow2Mono(e, 14);
    if e > 14 { Pow2Mono(14, e - 1); }
  }

  lemma ClassIsExponent(c: nat)
    ensures ClassToSize(c) == Pow2(c + 4)
  {
    assert Pow2(4) == 16;
    Pow2Add(4, c);
  }

  /** Offset of the first block: the least multiple of the block size past the header. */
  lemma FirstBlock(c: nat)
    requires c <= 10
    ensures IsPow2(ClassToSize(c)) && 16 <= ClassToSize(c) <= MAX_BLOCK_SIZE && Multiple(SPAN_SIZE, ClassToSize(c))
    ensures var bs := ClassToSize(c); var first := FirstBlockOffset(bs);
      && Multiple(first, bs) && SPAN_HEADER_RESERVE <= first < SPAN_HEADER_RESERVE + bs
  {
    Pow2Add(4, c);
    assert Pow2(4) == 16;
    Pow2Mono(c + 4, 14);
    assert Pow2(14) == 16384 by { assert Pow2(7) == 128; Pow2Add(7, 7); }
    SpanSizeIsPow2();
    Pow2Multiple(c + 4, SPAN_BITS);
    RoundUpIsLeast(SPAN_HEADER_RESERVE, ClassToSize(c));
  }

  /** Every block of a span serves its class: each past the header and
      inside the span, naturally aligned, and every address in it leads back to the base. */
  lemma BlockInSpan(base: nat, c: nat, i: nat, off: nat)
    requires Multiple(base, SPAN_SIZE) && base + SPAN_SIZE < WORD && c <= 10
    requires var bs := ClassToSize(c); 1 <= bs <= WORD && i < BlocksPerSpan(bs) && off < bs
    ensures var bs := ClassToSize(c); var b := BlockAddr(base, bs, i);
      && Multiple(b, bs)
      && base + SPAN_HEADER_RESERVE <= b && b + bs <= base + SPAN_SIZE
      && SpanFromPtr(b + off) == base
  {
    var bs := ClassToSize(c);
    FirstBlock(c);
    BlockAt(base, FirstBlockOffset(bs), bs, i, off);
  }

  lemma BlockAt(base: nat, first: nat, bs: nat, i: nat, off: nat)
    requires Multiple(base, SPAN_SIZE) && base + SPAN_SIZE < WORD
    requires bs >= 1 && Multiple(SPAN_SIZE, bs) && Multiple(first, bs) && SPAN_HEADER_RESERVE <= first
    requires i < BlocksFrom(first, bs) && off < bs
    ensures var b := base + first + i * bs;
      Multiple(b, bs) && base + SPAN_HEADER_RESERVE <= b && b + bs <= base + SPAN_SIZE && SpanFromPtr(b + off) == base
  {
    BlockEnd(first, bs, i);
    BlockAligned(base, first, bs, i);
    SameSpan(base, base + first + i * bs + off);
  }

  lemma BlockAligned(base: nat, first: nat, bs: nat, i: nat)
    requires bs >= 1 && Multiple(base, SPAN_SIZE) && Multiple(SPAN_SIZE, bs) && Multiple(first, bs)
    ensures Multiple(base + first + i * bs, bs)
  {
    MultipleTransitive(base, SPAN_SIZE, bs);
    MultipleSum(base, first, bs);
    assert Multiple(i * bs, bs);
    MultipleSum(base + first, i * bs, bs);
  }

  /** The blocks leave no room for another one. */
  lemma SpanIsFilled(c: nat)
    requires c <= 10
    ensures var bs := ClassToSize(c);
      1 <= bs <= WORD && SPAN_SIZE < FirstBlockOffset(bs) + (BlocksPerSpan(bs) + 1) * bs
  {
    FirstBlock(c);
    var bs := ClassToSize(c);
    NoMoreBlocks(FirstBlockOffset(bs), bs);
  }

  lemma NoMoreBlocks(first: nat, bs: nat)
    requires bs >= 1
    ensures SPAN_SIZE < first + (BlocksFrom(first, bs) + 1) * bs
  {
    if first <= SPAN_SIZE {
      var n := SPAN_SIZE - first;
      UniqueMod(n, bs, n / bs, n % bs);
      assert (n / bs + 1) * bs == n / bs * bs + bs;
    }
  }

  lemma BlockEnd(first: nat, bs: nat, i: nat)
    requires bs >= 1 && i < BlocksFrom(first, bs)
    ensures first + i * bs + bs <= SPAN_SIZE
  {
    var n := (SPAN_SIZE - first) / bs;
    UniqueMod(SPAN_SIZE - first, bs, n, (SPAN_SIZE - first) % bs);
    assert (i + 1) * bs <= n * bs by { MulMono(i + 1, n, bs); }
    assert (i + 1) * bs == i * bs + bs;
  }

  lemma MulMono(x: nat, y: nat, a: nat)
    requires x <= y
    ensures x * a <= y * a
  {
  }

  lemma SameSpan(base: nat, addr: nat)
    requires Multiple(base, SPAN_SIZE) && base <= addr < base + SPAN_SIZE < WORD
    ensures SpanFromPtr(addr) == base
  {
    SpanSizeIsPow2();
    RoundDownIsGreatest(addr, SPAN_SIZE);
    var r := RoundDown(addr, SPAN_SIZE);
    if r <= base { MultiplesApart(r, base, SPAN_SIZE); } else { MultiplesApart(base, r, SPAN_SIZE); }
  }

  /** The small tier: for every request with a class, every block of every span of that class
      holds the payload, aligned as asked, and two blocks of a span never overlap. */
  lemma SmallPlacement(l: Layout, base: nat, i: nat, j: nat, off: nat)
    requires ValidLayout(l) && SizeToClass(l.size, l.align).Some?
    requires Multiple(base, SPAN_SIZE) && base + SPAN_SIZE < WORD
    requires var bs := ClassToSize(SizeToClass(l.size, l.align).value);
      1 <= bs <= WORD && i < BlocksPerSpan(bs) && j < BlocksPerSpan(bs) && off < bs
    ensures var bs := ClassToSize(SizeToClass(l.size, l.align).value); var b := BlockAddr(base, bs, i);
      && Multiple(b, l.align)
      && base + SPAN_HEADER_RESERVE <= b && b + l.size <= b + bs <= base + SPAN_SIZE
      && (i < j ==> b + bs <= BlockAddr(base, bs, j))
      && SpanFromPtr(b + off) == base
  {
    SmallClassIsLeast(l.size, l.align);
    var c := SizeToClass(l.size, l.align).value;
    var bs := ClassToSize(c);
    FirstBlock(c);
    BlockInSpan(base, c, i, off);
    AlignDividesBlock(l.align, c);
    MultipleTransitive(BlockAddr(base, bs, i), bs, l.align);
    if i < j {
      MulMono(i + 1, j, bs);
      assert (i + 1) * bs == i * bs + bs;
    }
  }

  lemma AlignDividesBlock(align: nat, c: nat)
    requires IsPow2(align) && align <= ClassToSize(c)
    ensures Multiple(ClassToSize(c), align)
  {
    var k: nat :| k < 64 && align == Pow2(k);
    assert Pow2(4) == 16;
    Pow2Add(4, c);
    Pow2Mono(k, 4 + c);
    Pow2Multiple(k, 4 + c);
  }

  // ------------------------------------------------------------------
  // Large tier

  function RunClassBytes(c: nat): nat { SPAN_SIZE * Pow2(c) }

  /** Bytes a run must have: header reserve, hidden header, alignment slack, payload. */
  function LargeNeeded(l: Layout): nat
    requires l.align >= 1
  {
    SPAN_HEADER_RESERVE + HDR_SIZE + (Max(l.align, HDR_ALIGN) - 1) + l.size
  }

  function RunClassForLayout(l: Layout): Option<nat>
    requires l.align >= 1
  {
    if LargeNeeded(l) >= WORD then None
    else
      var e := LeastExp(DivCeil(LargeNeeded(l), SPAN_SIZE));
      if e > 63 || Pow2(e) > MAX_LARGE_SPANS then None else Some(e)
  }

  function LargePayload(run: nat, l: Layout): nat
    requires 1 <= l.align <= WORD
  {
    RoundUp(run + SPAN_HEADER_RESERVE + HDR_SIZE, Max(l.align, HDR_ALIGN))
  }

  /** A power-of-two number of units covers x bytes exactly when it covers the units needed. */
  lemma CoverIsLeast(x: nat, unit: nat, q: nat, e: nat)
    requires unit >= 1 && x <= q * unit && (q >= 1 ==> (q - 1) * unit < x)
    requires q <= Pow2(e) && (e > 0 ==> Pow2(e - 1) < q)
    ensures x <= unit * Pow2(e)
    ensures e > 0 ==> unit * Pow2(e - 1) < x
  {
    MulMono(q, Pow2(e), unit);
    if e > 0 { MulMono(Pow2(e - 1), q - 1, unit); }
  }

  /** The run class is the least whose run has the bytes needed; there is none exactly when
      even the largest run (4 GiB) is too small. */
  lemma RunClassIsLeast(l: Layout)
    requires ValidLayout(l) && l.align >= 1
    ensures LargeNeeded(l) == SPAN_HEADER_RESERVE + HDR_SIZE + l.size + Max(l.align, HDR_ALIGN) - 1
    ensures RunClassForLayout(l).None? <==> LargeNeeded(l) > SPAN_SIZE * MAX_LARGE_SPANS
    ensures RunClassForLayout(l).Some? ==>
      var c := RunClassForLayout(l).value;
      c < MAX_LARGE_RUN_CLASSES && LargeNeeded(l) <= RunClassBytes(c)
        && (c > 0 ==> RunClassBytes(c - 1) < LargeNeeded(l))
  {
    var x := LargeNeeded(l);
    var q := DivCeil(x, SPAN_SIZE);
    var e := LeastExp(q);
    CoverIsLeast(x, SPAN_SIZE, q, e);
    SpanSizeIsPow2();
    Pow2Mono(e, SPAN_BITS);
    if e > SPAN_BITS {
      Pow2Mono(SPAN_BITS, e - 1);
      MulMono(Pow2(SPAN_BITS), Pow2(e - 1), SPAN_SIZE);
    } else {
      MulMono(Pow2(e), Pow2(SPAN_BITS), SPAN_SIZE);
    }
  }

  lemma LargePayloadInside(l: Layout, run: nat, bytes: nat)
    requires ValidLayout(l) && 1 <= l.align <= WORD && LargeNeeded(l) <= bytes && run + bytes < WORD
    ensures var p := LargePayload(run, l);
      && Multiple(p, l.align) && Multiple(p, HDR_ALIGN)
      && run + SPAN_HEADER_RESERVE + HDR_SIZE <= p && p + l.size <= run + bytes
  {
    PayloadAlign(l.align);
    var a := Max(l.align, HDR_ALIGN);
    RoundUpIsLeast(run + SPAN_HEADER_RESERVE + HDR_SIZE, a);
    var p := LargePayload(run, l);
    MultipleTransitive(p, a, l.align);
    MultipleTransitive(p, a, HDR_ALIGN);
  }

  /** The large tier: in every run of the class asked for or a larger one, the payload is
      aligned, its hidden header lies past the header reserve and before it, and it ends
      inside the run. */
  lemma LargePlacement(l: Layout, run: nat, c: nat)
    requires ValidLayout(l) && 1 <= l.align <= WORD && RunClassForLayout(l).Some? && RunClassForLayout(l).value <= c
    requires Multiple(run, SPAN_SIZE) && run + RunClassBytes(c) < WORD
    ensures var p := LargePayload(run, l);
      && Multiple(p, l.align) && run + SPAN_HEADER_RESERVE <= p - HDR_SIZE && Multiple(p - HDR_SIZE, HDR_ALIGN)
      && p + l.size <= run + RunClassBytes(c)
  {
    RunClassIsLeast(l);
    var m := RunClassForLayout(l).value;
    Pow2Mono(m, c);
    MulMono(Pow2(m), Pow2(c), SPAN_SIZE);
    LargePayloadInside(l, run, RunClassBytes(c));
    assert Multiple(HDR_SIZE, HDR_ALIGN) by { assert HDR_SIZE == 4 * HDR_ALIGN; }
    MultipleDifference(LargePayload(run, l), HDR_SIZE, HDR_ALIGN);
  }

  lemma MultipleDifference(x: nat, y: nat, a: nat)
    requires Multiple(x, a) && Multiple(y, a) && y <= x && a >= 1
    ensures Multiple(x - y, a)
  {
    var i: nat :| x == i * a;
    var j: nat :| y == j * a;
    assert x - y == (i - j) * a;
    ProductBound(i - j, a);
  }

  /** The payload's alignment serves both the request and the hidden header. */
  lemma PayloadAlign(align: nat)
    requires IsPow2(align)
    ensures var a := Max(align, HDR_ALIGN); IsPow2(a) && Multiple(a, align) && Multiple(a, HDR_ALIGN)
  {
    var k: nat :| k < 64 && align == Pow2(k);
    assert Pow2(3) == 8;
    Pow2Mono(k, 3);
    Pow2Mono(3, k);
    var j: nat := if k < 3 then 3 else k;
    assert Max(align, HDR_ALIGN) == Pow2(j);
    Pow2Multiple(k, j);
    Pow2Multiple(3, j);
  }

  // ------------------------------------------------------------------
  // Huge tier: a granule is `hg` spans

  function HugeClassBytes(hg: nat, c: nat): nat { (hg * SPAN_SIZE) * Pow2(c) }

  function HugeClassSpans(hg: nat, c: nat): nat { Pow2(c) * hg }

  /** Payload plus the slack for alignments above the span size. */
  function HugeNeeded(l: Layout): nat {
    l.size + (if l.align > SPAN_SIZE then l.align - SPAN_SIZE else 0)
  }

  function HugeClassForLayout(hg: nat, l: Layout): Option<nat>
    requires hg >= 1
  {
    if HugeNeeded(l) >= WORD then None
    else
      var e := LeastExp(Max(DivCeil(HugeNeeded(l), hg * SPAN_SIZE), 1));
      if e > 63 || Pow2(e) > MAX_HUGE_GRANULES then None else Some(e)
  }

  function HugePayload(base: nat, l: Layout): nat
    requires 1 <= l.align <= WORD
  {
    RoundUp(base, l.align)
  }

  /** The huge class is the least whose run has the bytes needed; there is none exactly when
      four granules are too few or the size overflows. */
  lemma HugeClassIsLeast(hg: nat, l: Layout)
    requires hg >= 1
    ensures HugeClassForLayout(hg, l).None? <==> HugeNeeded(l) > HugeClassBytes(hg, 2) || HugeNeeded(l) >= WORD
    ensures HugeClassForLayout(hg, l).Some? ==>
      var c := HugeClassForLayout(hg, l).value;
      c < MAX_HUGE_RUN_CLASSES && HugeNeeded(l) <= HugeClassBytes(hg, c)
        && (c > 0 ==> HugeClassBytes(hg, c - 1) < HugeNeeded(l))
  {
    var x, unit := HugeNeeded(l), hg * SPAN_SIZE;
    var q := DivCeil(x, unit);
    var e := LeastExp(Max(q, 1));
    if q >= 1 { CoverIsLeast(x, unit, q, e); } else { assert e == 0 && x == 0; }
    FourUnits(x, unit, e);
  }

  /** What the least exponent covering x says about the largest class, four units. */
  lemma FourUnits(x: nat, unit: nat, e: nat)
    requires x <= unit * Pow2(e) && (e > 0 ==> unit * Pow2(e - 1) < x)
    ensures Pow2(2) == 4 && (e <= 2 <==> Pow2(e) <= 4) && (e <= 2 <==> x <= unit * 4)
  {
    assert Pow2(2) == 4;
    Pow2Mono(e, 2);
    if e > 2 {
      Pow2Mono(2, e - 1);
      MulMono(4, Pow2(e - 1), unit);
    } else {
      MulMono(Pow2(e), 4, unit);
    }
  }

  /** The huge tier, which serves sizes of at least one granule: in every slot of the class
      asked for or a larger one, whose base is only span-aligned, the payload is aligned and
      lies inside the slot's run. */
  lemma HugePlacement(hg: nat, l: Layout, base: nat, c: nat)
    requires hg >= 1 && ValidLayout(l) && 1 <= l.align <= WORD && l.size >= hg * SPAN_SIZE
    requires HugeClassForLayout(hg, l).Some? && HugeClassForLayout(hg, l).value <= c
    requires Multiple(base, SPAN_SIZE) && base + HugeClassBytes(hg, c) < WORD
    ensures var p := HugePayload(base, l);
      Multiple(p, l.align) && base <= p && p + l.size <= base + HugeClassBytes(hg, c)
  {
    HugeClassCovers(hg, l, c);
    var k: nat :| k < 64 && l.align == Pow2(k);
    if k <= SPAN_BITS {
      GranuleHoldsAlign(hg, c);
      NaturallyAligned(l.align, base, k);
    } else {
      MulMono(1, hg, SPAN_SIZE);
      OverAligned(hg, l, base, c, k);
    }
  }

  lemma HugeClassCovers(hg: nat, l: Layout, c: nat)
    requires hg >= 1 && HugeClassForLayout(hg, l).Some? && HugeClassForLayout(hg, l).value <= c
    ensures HugeNeeded(l) <= HugeClassBytes(hg, c)
  {
    HugeClassIsLeast(hg, l);
    var m := HugeClassForLayout(hg, l).value;
    Pow2Mono(m, c);
    MulMono(Pow2(m), Pow2(c), hg * SPAN_SIZE);
  }

  /** A span-aligned base needs no rounding for alignments up to a span. */
  lemma NaturallyAligned(align: nat, base: nat, k: nat)
    requires k <= SPAN_BITS && align == Pow2(k) && Multiple(base, SPAN_SIZE) && base + SPAN_SIZE < WORD
    ensures 1 <= align <= SPAN_SIZE && Multiple(base, align) && RoundUp(base, align) == base
  {
    SpanSizeIsPow2();
    Pow2Mono(k, SPAN_BITS);
    Pow2Multiple(k, SPAN_BITS);
    MultipleTransitive(base, SPAN_SIZE, align);
    assert IsPow2(align);
    RoundUpIsLeast(base, align);
    MultiplesApart(base, RoundUp(base, align), align);
  }

  /** The slack is exactly what is needed: in a slot one span past a multiple of the alignment, the
      payload ends where the need does. */
  lemma HugeNeedIsTight(l: Layout)
    requires ValidLayout(l) && 1 <= l.align <= WORD && SPAN_SIZE + l.align < WORD
    ensures HugePayload(SPAN_SIZE, l) + l.size == SPAN_SIZE + HugeNeeded(l)
  {
    var k: nat :| k < 64 && l.align == Pow2(k);
    assert Multiple(SPAN_SIZE, SPAN_SIZE) by { assert SPAN_SIZE == 1 * SPAN_SIZE; }
    if k <= SPAN_BITS {
      SpanSizeIsPow2();
      Pow2Mono(k, SPAN_BITS);
      NaturallyAligned(l.align, SPAN_SIZE, k);
    } else {
      SpanSizeIsPow2();
      Pow2Mono(SPAN_BITS, k);
      Pow2Mono(k, SPAN_BITS);
      assert IsPow2(l.align);
      RoundUpIsLeast(SPAN_SIZE, l.align);
      assert Multiple(l.align, l.align) by { assert l.align == 1 * l.align; }
      var p := HugePayload(SPAN_SIZE, l);
      if l.align <= p { MultiplesApart(l.align, p, l.align); } else { MultipleStep(p, l.align, l.align); }
    }
  }

  lemma GranuleHoldsAlign(hg: nat, c: nat)
    requires hg >= 1
    ensures SPAN_SIZE <= HugeClassBytes(hg, c)
  {
    MulMono(1, hg, SPAN_SIZE);
    MulMono(1, Pow2(c), hg * SPAN_SIZE);
  }

  /** Rounding a span-aligned base up to a larger power of two skips at most align - SPAN_SIZE. */
  lemma OverAligned(hg: nat, l: Layout, base: nat, c: nat, k: nat)
    requires hg >= 1 && SPAN_BITS < k < 64 && l.align == Pow2(k) && Pow2(k) <= WORD && Multiple(base, SPAN_SIZE)
    requires l.size >= SPAN_SIZE && HugeNeeded(l) <= HugeClassBytes(hg, c) && base + HugeClassBytes(hg, c) < WORD
    ensures var p := HugePayload(base, l);
      Multiple(p, l.align) && base <= p && p + l.size <= base + HugeClassBytes(hg, c)
  {
    SpanSizeIsPow2();
    Pow2Grows(SPAN_BITS, k);
    var p := HugePayload(base, l);
    assert IsPow2(l.align);
    RoundUpIsLeast(base, l.align);
    Pow2Multiple(SPAN_BITS, k);
    MultipleTransitive(p, l.align, SPAN_SIZE);
    MultipleSum(base, l.align, SPAN_SIZE);
    MultipleStep(p, base + l.align, SPAN_SIZE);
  }

  // ------------------------------------------------------------------
  // Dispatch and the region

  datatype Tier = Small(c: nat) | Large | Huge

  /** `small_class` and the huge threshold, as `alloc` and `dealloc` both apply them. */
  function Dispatch(classes: nat, hg: nat, l: Layout): Tier {
    var c := SizeToClass(l.size, l.align);
    if c.Some? && c.value < classes then Small(c.value)
    else if l.size >= hg * SPAN_SIZE then Huge
    else Large
  }

  /** Which tier a layout goes to: the small one exactly if size and alignment are at most the block
      of the last class, and then to the least class that holds both; of the others, exactly those of
      at least one granule to the huge one. */
  lemma DispatchIsExact(classes: nat, hg: nat, l: Layout)
    ensures var d, x := Dispatch(classes, hg, l), Max(l.size, l.align);
      && (d.Small? <==> classes >= 1 && x <= ClassToSize(classes - 1) && x <= MAX_BLOCK_SIZE)
      && (d.Small? ==> d.c < classes && x <= ClassToSize(d.c) && (d.c > 0 ==> ClassToSize(d.c - 1) < x))
      && (!d.Small? ==> (d.Huge? <==> l.size >= hg * SPAN_SIZE))
  {
    SmallClassIsLeast(l.size, l.align);
    var c := SizeToClass(l.size, l.align);
    if c.Some? && classes >= 1 {
      if c.value <= classes - 1 { ClassesGrow(c.value, classes - 1); } else { ClassesGrow(classes - 1, c.value - 1); }
    }
  }

  lemma ClassesGrow(c: nat, d: nat)
    requires c <= d
    ensures ClassToSize(c) <= ClassToSize(d)
  {
    Pow2Mono(c, d);
  }

  /** The bytes reserved at `base` for a layout: a span, a run or a slot of the least class. */
  function Extent(classes: nat, hg: nat, l: Layout): Option<nat>
    requires hg >= 1 && l.align >= 1
  {
    match Dispatch(classes, hg, l)
    case Small(c) => Some(SPAN_SIZE)
    case Large => var r := RunClassForLayout(l); if r.None? then None else Some(RunClassBytes(r.value))
    case Huge => var r := HugeClassForLayout(hg, l); if r.None? then None else Some(HugeClassBytes(hg, r.value))
  }

  /** Where the pointer handed out for a layout lies; i is the block in the small tier. */
  function Payload(classes: nat, hg: nat, l: Layout, base: nat, i: nat): nat
    requires 1 <= l.align <= WORD
  {
    match Dispatch(classes, hg, l)
    case Small(c) => var bs := ClassToSize(c); if 1 <= bs <= WORD then BlockAddr(base, bs, i) else base
    case Large => LargePayload(base, l)
    case Huge => HugePayload(base, l)
  }

  /** One statement for all three tiers: whatever the layout, if its tier has a class for it,
      the payload is aligned as asked and inside the memory reserved for it; outside the huge
      tier it leaves the header reserve alone. */
  lemma TierPlacement(classes: nat, hg: nat, l: Layout, base: nat, i: nat)
    requires hg >= 1 && ValidLayout(l) && 1 <= l.align <= WORD && Extent(classes, hg, l).Some?
    requires Multiple(base, SPAN_SIZE) && base + Extent(classes, hg, l).value < WORD
    requires var d := Dispatch(classes, hg, l);
      d.Small? ==> 1 <= ClassToSize(d.c) <= WORD && i < BlocksPerSpan(ClassToSize(d.c))
    ensures var p := Payload(classes, hg, l, base, i);
      && Multiple(p, l.align) && base <= p && p + l.size <= base + Extent(classes, hg, l).value
      && (!Dispatch(classes, hg, l).Huge? ==> base + SPAN_HEADER_RESERVE <= p)
  {
    match Dispatch(classes, hg, l)
    case Small(c) => SmallPlacement(l, base, i, i, 0);
    case Large => LargePlacement(l, base, RunClassForLayout(l).value);
    case Huge => HugePlacement(hg, l, base, HugeClassForLayout(hg, l).value);
  }

  /** `set_region`: the span-aligned start and the number of whole spans. */
  function RegionStart(ptr: nat): nat { RoundUp(ptr, SPAN_SIZE) }

  function RegionCount(ptr: nat, len: nat): nat {
    var start, end := RegionStart(ptr), RegionEnd(ptr, len);
    if end >= start then (end - start) / SPAN_SIZE else 0
  }

  /** Where the region ends: `saturating_add` stops at the last address. */
  function RegionEnd(ptr: nat, len: nat): nat { if ptr + len < WORD then ptr + len else WORD - 1 }

  /** Span i of the installed region is span-aligned and inside the caller's memory, and the
      region holds as many spans as fit, also where `ptr + len` saturates. */
  lemma RegionHoldsSpans(ptr: nat, len: nat, i: nat)
    requires ptr + SPAN_SIZE - 1 < WORD
    ensures Multiple(RegionStart(ptr), SPAN_SIZE) && ptr <= RegionStart(ptr) < ptr + SPAN_SIZE
    ensures i < RegionCount(ptr, len) ==>
      && Multiple(RegionStart(ptr) + i * SPAN_SIZE, SPAN_SIZE)
      && ptr <= RegionStart(ptr) + i * SPAN_SIZE
      && RegionStart(ptr) + i * SPAN_SIZE + SPAN_SIZE <= RegionEnd(ptr, len) <= ptr + len
    ensures RegionEnd(ptr, len) < RegionStart(ptr) + (RegionCount(ptr, len) + 1) * SPAN_SIZE
  {
    SpanSizeIsPow2();
    RoundUpIsLeast(ptr, SPAN_SIZE);
    var start := RegionStart(ptr);
    assert Multiple(i * SPAN_SIZE, SPAN_SIZE);
    MultipleSum(start, i * SPAN_SIZE, SPAN_SIZE);
  }

  /** The region starts inside the caller's memory exactly if rounding its first address up does
      not wrap around; in the last span of the address space it starts at 0. */
  lemma RegionStartsInside(ptr: nat)
    requires ptr < WORD
    ensures ptr <= RegionStart(ptr) <==> ptr + SPAN_SIZE - 1 < WORD
    ensures ptr + SPAN_SIZE - 1 >= WORD ==> RegionStart(ptr) == 0
  {
    SpanSizeIsPow2();
    if ptr + SPAN_SIZE - 1 < WORD {
      RoundUpIsLeast(ptr, SPAN_SIZE);
    } else {
      var y := ptr + SPAN_SIZE - 1 - WORD;
      assert (ptr + SPAN_SIZE - 1) % WORD == y;
      WordMask(y, SPAN_BITS);
    }
  }

  // ------------------------------------------------------------------
  // init_span

  /** Block k links to block k + 1, the last block to null. */
  ghost predicate LinkedAt(base: nat, bs: nat, count: nat, next: map<nat, nat>, k: nat) {
    && 1 <= bs <= WORD
    && BlockAddr(base, bs, k) in next
    && next[BlockAddr(base, bs, k)] == if k + 1 < count then BlockAddr(base, bs, k + 1) else 0
  }

  /** Blocks i and up are linked in address order, the last to null. */
  ghost predicate LinkedFrom(base: nat, bs: nat, count: nat, next: map<nat, nat>, i: nat) {
    forall k :: i <= k < count ==> LinkedAt(base, bs, count, next, k)
  }

  /** Builds the local free-list of a fresh span: `next` maps a block to its successor,
      0 standing for null.  The list runs through all the blocks in address order. */
  method InitSpan(base: nat, c: nat) returns (head: nat, count: nat, next: map<nat, nat>)
    requires Multiple(base, SPAN_SIZE) && 0 < base && base + SPAN_SIZE < WORD && c <= 10
    ensures 1 <= ClassToSize(c) <= WORD && count == BlocksPerSpan(ClassToSize(c)) && count >= 2
    ensures head == BlockAddr(base, ClassToSize(c), 0)
    ensures LinkedFrom(base, ClassToSize(c), count, next, 0)
  {
    FirstBlock(c);
    var blockSize := ClassToSize(c);
    var first := FirstBlockOffset(blockSize);
    count := (SPAN_SIZE - first) / blockSize;
    TwoBlocksFit(first, blockSize);
    head, next := BuildChain(base, blockSize, first, count);
  }

  /** The loop of `init_span`, from the last block down. */
  method BuildChain(base: nat, blockSize: nat, first: nat, count: nat) returns (head: nat, next: map<nat, nat>)
    requires 1 <= blockSize <= WORD && first == FirstBlockOffset(blockSize) && count >= 1
    ensures head == BlockAddr(base, blockSize, 0) && LinkedFrom(base, blockSize, count, next, 0)
  {
    head := 0;
    next := map[];
    var i := count;
    while i > 0
      invariant 0 <= i <= count
      invariant head == if i < count then BlockAddr(base, blockSize, i) else 0
      invariant LinkedFrom(base, blockSize, count, next, i)
    {
      i := i - 1;
      var b := base + first + i * blockSize;
      assert b == BlockAddr(base, blockSize, i);
      LinkOneMore(base, blockSize, count, next, i, head);
      next := next[b := head];
      head := b;
    }
  }

  lemma LinkOneMore(base: nat, bs: nat, count: nat, next: map<nat, nat>, i: nat, head: nat)
    requires 1 <= bs <= WORD && i < count && head == if i + 1 < count then BlockAddr(base, bs, i + 1) else 0
    requires LinkedFrom(base, bs, count, next, i + 1)
    ensures LinkedFrom(base, bs, count, next[BlockAddr(base, bs, i) := head], i)
  {
    var next' := next[BlockAddr(base, bs, i) := head];
    forall k | i <= k < count ensures LinkedAt(base, bs, count, next', k) {
      if k > i {
        assert LinkedAt(base, bs, count, next, k);
        MulMono(i + 1, k, bs);
        assert (i + 1) * bs == i * bs + bs;
      }
    }
  }

  lemma TwoBlocksFit(first: nat, bs: nat)
    requires 1 <= bs <= MAX_BLOCK_SIZE && first < SPAN_HEADER_RESERVE + bs
    ensures first <= SPAN_SIZE && BlocksFrom(first, bs) >= 2
  {
    var n := SPAN_SIZE - first;
    UniqueMod(n, bs, n / bs, n % bs);
    if n / bs <= 1 { MulMono(n / bs, 1, bs); }
  }
}
