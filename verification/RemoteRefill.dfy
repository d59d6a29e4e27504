/**
 The owner's refill loops (src/remote_mpsc.rs, src/allocator.rs), run while any number of
 remote producers go on freeing blocks of the same span.

 `Producers` is the environment: between any two of the owner's atomic actions it performs
 an arbitrary number of producer actions (SWAP a block in, resolve a link, count a block).
 */
module RemoteRefill {
  import opened Wrappers
  import opened Chain

  /** Every link of chain c is UNLINKED or leads to the block swapped in before. */
  ghost predicate Intact(link: map<Block, Link>, c: seq<Block>) {
    forall i :: 0 <= i < |c| ==> LinkOk(link, c, i)
  }

  ghost predicate LinkOk(link: map<Block, Link>, c: seq<Block>, i: nat) {
    i < |c| && c[i] in link && (link[c[i]] == Unlinked || link[c[i]] == To(First(c[i + 1..])))
  }

  /** Links once resolved stay resolved. */
  ghost predicate Resolves(link: map<Block, Link>, link': map<Block, Link>, c: seq<Block>) {
    forall b :: b in c ==> b in link && b in link' && (link[b] == Unlinked || link'[b] == link[b])
  }

  /** Exactly the first k blocks of chain c stand before its first UNLINKED one. */
  ghost predicate Front(link: map<Block, Link>, c: seq<Block>, k: nat) {
    && k <= |c|
    && (forall i :: 0 <= i < k ==> Linked(link, c[i]))
    && (k < |c| ==> !Linked(link, c[k]))
  }

  predicate Linked(link: map<Block, Link>, b: Block) { b in link && link[b] != Unlinked }

  /** Chain c with some blocks of `inUse` swapped in before it. */
  ghost predicate Grown(c: seq<Block>, c': seq<Block>, inUse: set<Block>) {
    && |c| <= |c'| && c'[|c'| - |c|..] == c
    && forall i :: 0 <= i < |c'| - |c| ==> c'[i] in inUse
  }

  lemma GrownMore(c: seq<Block>, c': seq<Block>, c'': seq<Block>, inUse: set<Block>, inUse': set<Block>)
    requires Grown(c, c', inUse) && Grown(c', c'', inUse') && inUse' <= inUse
    ensures Grown(c, c'', inUse)
  {
    assert c''[|c''| - |c|..] == c''[|c''| - |c'|..][|c'| - |c|..];
    forall i | 0 <= i < |c''| - |c| ensures c''[i] in inUse {
      if i >= |c''| - |c'| { assert c''[i] == c'[i - (|c''| - |c'|)]; }
    }
  }

  lemma FrontReached(link: map<Block, Link>, c: seq<Block>, q: seq<Block>, i: nat, rest: seq<Block>, local: seq<Block>)
    requires Moved(c, q, i, rest, local) && (forall k :: 0 <= k < i ==> Linked(link, c[k]))
    requires rest != [] ==> !Linked(link, rest[0])
    ensures Front(link, c, i)
  {
    assert rest != [] ==> rest[0] == c[i];
  }

  /** A refill that nobody disturbs gets something exactly if the chain it begins with is not blocked. */
  lemma SomethingResolved(link: map<Block, Link>, stash: seq<Block>, live: seq<Block>, k: nat, j: nat)
    requires Front(link, stash, k) && if k == |stash| then Front(link, live, j) else j == 0
    ensures k + j > 0 <==> if stash != [] then Linked(link, stash[0]) else live != [] && Linked(link, live[0])
  {
  }

  lemma GrownNot(c: seq<Block>, inUse: set<Block>)
    ensures Grown(c, c, inUse)
  {
  }

  lemma StillLinked(link: map<Block, Link>, c: seq<Block>, i: nat)
    requires i < |c| && forall k :: 0 <= k < i ==> Linked(link, c[k])
    ensures Linked(link, c[i]) ==> forall k :: 0 <= k < i + 1 ==> Linked(link, c[k])
  {
  }

  lemma ResolvesMore(a: map<Block, Link>, b: map<Block, Link>, c: map<Block, Link>, chain: seq<Block>)
    requires Resolves(a, b, chain) && Resolves(b, c, chain)
    ensures Resolves(a, c, chain)
  {
  }

  lemma TailOk(link: map<Block, Link>, c: seq<Block>)
    requires Intact(link, c) && c != []
    ensures Intact(link, c[1..])
  {
    forall i | 0 <= i < |c| - 1 ensures LinkOk(link, c[1..], i) {
      assert LinkOk(link, c, i + 1);
      assert c[1..][i + 1..] == c[i + 1 + 1..];
    }
  }

  lemma UpdateOk(link: map<Block, Link>, c: seq<Block>, b: Block, v: Link)
    requires Intact(link, c) && b !in c
    ensures Intact(link[b := v], c)
  {
    var link' := link[b := v];
    forall i | 0 <= i < |c| ensures LinkOk(link', c, i) { assert LinkOk(link, c, i) && c[i] in c; }
  }

  lemma PrependOk(link: map<Block, Link>, c: seq<Block>, b: Block)
    requires Intact(link, c) && b in link && link[b] == Unlinked
    ensures Intact(link, [b] + c)
  {
    forall i | 0 <= i < |c| + 1 ensures LinkOk(link, [b] + c, i) {
      if i > 0 {
        assert LinkOk(link, c, i - 1);
        assert ([b] + c)[i + 1..] == c[i..];
      }
    }
  }

  lemma ResolveOk(link: map<Block, Link>, c: seq<Block>, i: nat)
    requires Intact(link, c) && i < |c| && forall j :: 0 <= j < |c| && j != i ==> c[j] != c[i]
    ensures Intact(link[c[i] := To(First(c[i + 1..]))], c)
  {
    var link' := link[c[i] := To(First(c[i + 1..]))];
    forall j | 0 <= j < |c| ensures LinkOk(link', c, j) { assert LinkOk(link, c, j); }
  }

  lemma Twice(c: seq<Block>, i: nat, j: nat)
    requires i < |c| && j < |c| && i != j
    ensures c[i] == c[j] ==> multiset(c)[c[i]] >= 2
  {
    var lo, hi := if i < j then i else j, if i < j then j else i;
    assert c == c[..hi] + [c[hi]] + c[hi + 1..];
    assert c[lo] in c[..hi];
    assert multiset(c[..hi])[c[lo]] > 0;
  }

  /** Each block is in exactly one place, once. */
  ghost predicate Parts(inUse: set<Block>, local: seq<Block>, live: seq<Block>, stash: seq<Block>, rest: seq<Block>,
                        blocks: set<Block>) {
    multiset(inUse) + multiset(local) + multiset(live) + multiset(stash) + multiset(rest) == multiset(blocks)
  }

  /** The owner word, seen from the rotating thread. */
  datatype Owner = Mine | Nobody | Other

  /** A ghost copy of the words an absorb loop works on; `chain` is the chain being absorbed. */
  datatype Snapshot = Snapshot(chain: seq<Block>, local: seq<Block>, absorbed: nat, link: map<Block, Link>,
                               live: seq<Block>, stash: seq<Block>, inUse: set<Block>, g: int, uncounted: nat)

  /**
   What a refill from w to z does.  k blocks of the pending chain are absorbed; only if that is all of
   it is the live list detached, and the first j blocks of `taken`, what it then holds, are absorbed
   too.  `taken` is the live list at the beginning with blocks freed since before it; what is live
   afterwards was in use at the beginning.  Everything not absorbed is in the one pending chain, which
   is blocked by an UNLINKED block.  Undisturbed, both chains are absorbed exactly as far as they are
   resolved, and the count goes down by what was absorbed.
   */
  ghost predicate Refilled(w: Snapshot, z: Snapshot, calm: bool, k: nat, taken: seq<Block>, j: nat) {
    && k <= |w.stash| && j <= |taken| && z.inUse <= w.inUse
    && z.local == Reverse(taken[..j]) + (Reverse(w.stash[..k]) + w.local)
    && (z.stash != [] ==> !Linked(z.link, z.stash[0]))
    && (if k < |w.stash| then
          z.stash == w.stash[k..] && taken == [] && Grown(w.live, z.live, w.inUse)
        else
          z.stash == taken[j..] && Grown(w.live, taken, w.inUse) && forall b :: b in z.live ==> b in w.inUse)
    && (calm ==>
          && Front(w.link, w.stash, k) && taken == (if k == |w.stash| then w.live else [])
          && (k == |w.stash| ==> Front(w.link, w.live, j))
          && z.g == w.g - (k + j) && z.inUse == w.inUse)
  }

  /** A refill that gets nothing found nothing, or is blocked. */
  lemma RefilledNothing(w: Snapshot, z: Snapshot, calm: bool, taken: seq<Block>)
    requires Refilled(w, z, calm, 0, taken, 0)
    ensures z.local == w.local
    ensures if z.stash == [] then w.stash == [] && w.live == [] else !Linked(z.link, z.stash[0])
  {
    assert taken[..0] == [] && w.stash[..0] == [] && Reverse([]) == [];
  }

  lemma PendingRefilled(w: Snapshot, z: Snapshot, calm: bool, k: nat)
    requires Moved(w.stash, w.local, k, z.stash, z.local) && z.stash != [] && !Linked(z.link, z.stash[0])
    requires z.inUse <= w.inUse && Grown(w.live, z.live, w.inUse)
    requires calm ==> Front(w.link, w.stash, k) && z.g == w.g - k && z.inUse == w.inUse
    ensures Refilled(w, z, calm, k, [], 0)
  {
    var none: seq<Block> := [];
    assert none[..0] == none && Reverse(none) == none;
  }

  lemma BothRefilled(w: Snapshot, y: Snapshot, z: Snapshot, calm: bool, k: nat, taken: seq<Block>, j: nat)
    requires Moved(w.stash, w.local, k, [], y.local) && Moved(taken, y.local, j, z.stash, z.local)
    requires y.inUse <= w.inUse && Grown(w.live, y.live, w.inUse) && Grown(y.live, taken, y.inUse)
    requires z.inUse <= y.inUse && (z.stash != [] ==> !Linked(z.link, z.stash[0]))
    requires forall b :: b in z.live ==> b in y.inUse
    requires calm ==> Front(w.link, w.stash, k) && Front(w.link, w.live, j) && y.live == w.live && taken == y.live
    requires calm ==> z.g == w.g - (k + j) && z.inUse == w.inUse
    ensures Refilled(w, z, calm, k, taken, j)
  {
    GrownMore(w.live, y.live, taken, w.inUse, y.inUse);
  }

  /** On a `calm` span no producer runs. */
  class Span {
    const calm: bool
    const blocks: set<Block>
    var owner: Owner
    /** The owner's words. */
    var local: seq<Block>
    var freeCount: nat
    var pending: Option<Block>
    /** The shared words. */
    var head: Option<Block>
    var link: map<Block, Link>
    var g: int
    /** Histories: blocks in users' hands, the remote chain, the pending chain, the chain being
        absorbed, producers not yet counted, blocks absorbed but not yet subtracted. */
    var inUse: set<Block>
    var live: seq<Block>
    var stash: seq<Block>
    var rest: seq<Block>
    var uncounted: nat
    var absorbed: nat

    ghost predicate Partition()
      reads this
    {
      Parts(inUse, local, live, stash, rest, blocks)
    }

    ghost predicate Valid()
      reads this
    {
      && Partition()
      && freeCount == |local|
      && head == First(live) && pending == First(stash)
      && Intact(link, live) && Intact(link, stash) && Intact(link, rest)
      && g == |live| + |stash| + |rest| + absorbed - uncounted
    }

    /** Nobody is in the middle of a refill. */
    ghost predicate Settled(m: nat)
      reads this
    {
      Valid() && rest == [] && absorbed == 0 && |blocks| <= m
    }

    ghost predicate Idle(m: nat)
      reads this
    {
      Settled(m) && owner == Mine
    }

    lemma OnePlace(b: Block)
      requires Partition()
      ensures b in inUse ==> b !in local && b !in live && b !in stash && b !in rest
      ensures b in live ==> b !in stash && b !in rest
      ensures b in stash ==> b !in rest
      ensures b in rest ==> multiset(rest)[b] == 1
      ensures b in live ==> multiset(live)[b] == 1
    {
      assert multiset(blocks)[b] <= 1;
      assert multiset(blocks)[b] == multiset(inUse)[b] + multiset(local)[b] + multiset(live)[b] + multiset(stash)[b]
        + multiset(rest)[b];
      assert b in inUse <==> multiset(inUse)[b] > 0;
      assert b in local <==> multiset(local)[b] > 0;
      assert b in live <==> multiset(live)[b] > 0;
      assert b in stash <==> multiset(stash)[b] > 0;
      assert b in rest <==> multiset(rest)[b] > 0;
    }

    lemma Fits()
      requires Partition()
      ensures |inUse| + |local| + |live| + |stash| + |rest| == |blocks|
    {
      assert |multiset(inUse)| == |inUse| && |multiset(blocks)| == |blocks|;
      assert |multiset(local)| == |local| && |multiset(live)| == |live|;
      assert |multiset(stash)| == |stash| && |multiset(rest)| == |rest|;
    }

    lemma InBlocks(b: Block)
      requires Partition() && b in inUse
      ensures b in blocks
    {
      assert multiset(inUse)[b] > 0 && multiset(blocks)[b] > 0;
    }

    // ----------------------------------------------------------------
    // The environment

    /** `push_publish`: a producer swaps block b in as the new head. */
    method ProducerSwap(b: Block)
      requires Valid() && b in inUse
      modifies this`head, this`link, this`inUse, this`live, this`uncounted
      ensures Valid() && live == [b] + old(live) && Resolves(old(link), link, stash) && Resolves(old(link), link, rest)
      ensures inUse == old(inUse) - {b}
    {
      OnePlace(b);
      UpdateOk(link, live, b, Unlinked);
      UpdateOk(link, stash, b, Unlinked);
      UpdateOk(link, rest, b, Unlinked);
      assert forall c :: c in stash || c in rest ==> c in link by { Named(stash); Named(rest); }
      link := link[b := Unlinked];
      head := Some(b);
      PrependOk(link, live, b);
      assert multiset(inUse) == multiset(inUse - {b}) + multiset{b};
      assert multiset([b] + live) == multiset{b} + multiset(live);
      inUse, live, uncounted := inUse - {b}, [b] + live, uncounted + 1;
    }

    lemma Named(c: seq<Block>)
      requires Intact(link, c)
      ensures forall b :: b in c ==> b in link
    {
      forall b | b in c ensures b in link { var i :| 0 <= i < |c| && c[i] == b; assert LinkOk(link, c, i); }
    }

    /** Position i of chain c names a block found nowhere else. */
    lemma Alone(c: seq<Block>, others: seq<Block>, i: nat)
      requires i < |c| && multiset(c) + multiset(others) <= multiset(blocks)
      ensures c[i] !in others && forall j :: 0 <= j < |c| && j != i ==> c[j] != c[i]
    {
      var b := c[i];
      assert multiset(blocks)[b] <= 1;
      assert b in others ==> multiset(others)[b] > 0;
      assert multiset(c)[b] > 0;
      forall j | 0 <= j < |c| && j != i ensures c[j] != b { Twice(c, i, j); }
    }

    /** `push_link`: the producer that swapped in the i-th block of chain c stores its link. */
    method ProducerLink(c: seq<Block>, i: nat)
      requires Valid() && (c == live || c == stash || c == rest) && i < |c|
      modifies this`link
      ensures Valid() && Resolves(old(link), link, stash) && Resolves(old(link), link, rest)
      ensures link == old(link)[c[i] := To(First(c[i + 1..]))]
    {
      Named(live); Named(stash); Named(rest);
      assert LinkOk(link, c, i);
      if link[c[i]] == Unlinked {
        var b, v := c[i], To(First(c[i + 1..]));
        var others := if c == live then stash + rest else if c == stash then live + rest else live + stash;
        Alone(c, others, i);
        ResolveOk(link, c, i);
        if c != live { assert b in live ==> b in others; UpdateOk(link, live, b, v); }
        if c != stash { assert b in stash ==> b in others; UpdateOk(link, stash, b, v); }
        if c != rest { assert b in rest ==> b in others; UpdateOk(link, rest, b, v); }
        link := link[b := v];
      }
    }

    /** The producers' words are as they were. */
    twostate predicate Undisturbed()
      reads this
    {
      link == old(link) && live == old(live) && inUse == old(inUse) && g == old(g) && uncounted == old(uncounted)
    }

    /** One producer action: a SWAP, a link store or a count. */
    method ProducerAct()
      requires Valid()
      modifies this`head, this`link, this`inUse, this`live, this`uncounted, this`g
      ensures Valid() && Resolves(old(link), link, stash) && Resolves(old(link), link, rest)
      ensures inUse <= old(inUse) && Grown(old(live), live, old(inUse))
    {
      Named(stash); Named(rest);
      var pick: int := *;
      if pick == 0 && inUse != {} {
        var b :| b in inUse;
        ProducerSwap(b);
      } else if pick == 1 {
        var c: seq<Block>, i: int := *, *;
        if (c == live || c == stash || c == rest) && 0 <= i < |c| { ProducerLink(c, i); }
      } else if uncounted > 0 {
        g, uncounted := g + 1, uncounted - 1;
      }
    }

    /** Any number of producer actions, in any order. */
    method Producers()
      requires Valid()
      modifies this`head, this`link, this`inUse, this`live, this`uncounted, this`g
      ensures Valid() && Resolves(old(link), link, stash) && Resolves(old(link), link, rest)
      ensures inUse <= old(inUse) && Grown(old(live), live, old(inUse))
      ensures calm ==> Undisturbed()
    {
      Named(stash); Named(rest);
      GrownNot(live, inUse);
      if calm { return; }
      ghost var live0, inUse0, link0 := live, inUse, link;
      var n: int := *;
      while 0 < n
        invariant Valid() && inUse <= inUse0 && Grown(live0, live, inUse0)
        invariant Resolves(link0, link, stash) && Resolves(link0, link, rest)
      {
        n := n - 1;
        ghost var before, users, links := live, inUse, link;
        ProducerAct();
        GrownMore(live0, before, live, inUse0, users);
        ResolvesMore(link0, links, link, stash);
        ResolvesMore(link0, links, link, rest);
      }
    }

    // ----------------------------------------------------------------
    // The owner

    /** Push the head of the detached chain, its link already resolved, on the local list. */
    method AbsorbOne(b: Block)
      requires Valid() && First(rest) == Some(b)
      modifies this`local, this`freeCount, this`rest, this`absorbed
      ensures Valid() && rest == old(rest)[1..] && local == [b] + old(local) && absorbed == old(absorbed) + 1
    {
      TailOk(link, rest);
      assert rest == [b] + rest[1..];
      assert multiset(rest) == multiset{b} + multiset(rest[1..]);
      assert multiset([b] + local) == multiset{b} + multiset(local);
      local, freeCount := [b] + local, freeCount + 1;
      rest, absorbed := rest[1..], absorbed + 1;
    }

    /** Load the head's link, after any producer actions, and absorb the block unless UNLINKED. */
    method ScanOne(b: Block) returns (next: Link)
      requires Valid() && First(rest) == Some(b)
      modifies this`head, this`link, this`inUse, this`live, this`uncounted, this`g,
               this`local, this`freeCount, this`rest, this`absorbed
      ensures Valid() && inUse <= old(inUse) && Resolves(old(link), link, stash)
      ensures Grown(old(live), live, old(inUse)) && (calm ==> Undisturbed())
      ensures b in link && next == link[b]
      ensures next == Unlinked ==> rest == old(rest) && local == old(local) && absorbed == old(absorbed)
      ensures next != Unlinked ==> next == To(First(rest)) && rest == old(rest)[1..]
                                   && local == [b] + old(local) && absorbed == old(absorbed) + 1
    {
      Producers();
      assert LinkOk(link, rest, 0);
      next := link[b];
      if next != Unlinked { AbsorbOne(b); }
    }

    /** The words as they were when the loop began. */
    ghost function Words(): Snapshot
      reads this
    {
      Snapshot(rest, local, absorbed, link, live, stash, inUse, g, uncounted)
    }

    /** i blocks of the chain of snapshot w have been absorbed; producers have run meanwhile. */
    ghost predicate Scanned(w: Snapshot, i: nat)
      reads this
    {
      && Moved(w.chain, w.local, i, rest, local) && absorbed == w.absorbed + i
      && inUse <= w.inUse && Grown(w.live, live, w.inUse) && Resolves(w.link, link, stash)
      && (calm ==> link == w.link && live == w.live && inUse == w.inUse && g == w.g && uncounted == w.uncounted)
      && (calm ==> forall k :: 0 <= k < i ==> Linked(link, w.chain[k]))
    }

    /** One iteration of the loop. */
    method ScanNext(b: Block, ghost w: Snapshot, ghost i: nat) returns (next: Link)
      requires Valid() && First(rest) == Some(b) && Scanned(w, i)
      modifies this`head, this`link, this`inUse, this`live, this`uncounted, this`g,
               this`local, this`freeCount, this`rest, this`absorbed
      ensures Valid() && b in link && next == link[b]
      ensures next == Unlinked ==> Scanned(w, i) && First(rest) == Some(b)
      ensures next == Unlinked && calm ==> Front(link, w.chain, i)
      ensures next != Unlinked ==> Scanned(w, i + 1) && next == To(First(rest))
    {
      MovedNext(w.chain, w.local, i, rest, local);
      ghost var before, users, links := live, inUse, link;
      assert b == w.chain[i];
      next := ScanOne(b);
      GrownMore(w.live, before, live, w.inUse, users);
      ResolvesMore(w.link, links, link, stash);
      if calm { StillLinked(link, w.chain, i); }
      if calm && next == Unlinked { FrontReached(link, w.chain, w.local, i, rest, local); }
    }

    /**
     `append_remote_to_local_bounded`: moves blocks of the detached chain, oldest link last,
     until it meets a link that is still UNLINKED. Producers run before every load. What it
     moves is exactly a prefix of the chain; the suffix it hands back starts at an UNLINKED
     block, never at one skipped because `limit` ran out.
     */
    method AppendRemoteToLocalBounded(chain: Option<Block>)
      returns (appended: nat, leftover: Option<Block>, scanned: nat)
      requires Valid() && chain == First(rest)
      modifies this`head, this`link, this`inUse, this`live, this`uncounted, this`g,
               this`local, this`freeCount, this`rest, this`absorbed
      ensures Valid() && Scanned(old(Words()), appended)
      ensures leftover == First(rest)
      ensures leftover.Some? ==> leftover.value in link && link[leftover.value] == Unlinked
      ensures scanned == if leftover == None then appended else appended + 1
      ensures calm ==> Front(link, old(rest), appended)
    {
      appended, scanned := 0, 0;
      var cur := chain;
      var limit := |blocks|;
      ghost var w := Words();
      Named(stash);
      MovedNone(rest, local);
      for i := 0 to limit
        invariant Valid() && Scanned(w, i) && appended == scanned == i && cur == First(rest)
      {
        if cur == None { break; }
        scanned := scanned + 1;
        var next := ScanNext(cur.value, w, i);
        if next == Unlinked { return appended, cur, scanned; }
        appended := appended + 1;
        cur := next.next;
      }
      Fits();
      assert rest == [];
      if calm { FrontReached(link, w.chain, w.local, appended, rest, local); }
      leftover := cur;
    }

    /** Detach the pending chain: it becomes the chain being absorbed. */
    method TakePending() returns (chain: Option<Block>)
      requires Valid() && rest == []
      modifies this`pending, this`stash, this`rest
      ensures Valid() && stash == [] && rest == old(stash) && chain == First(rest)
    {
      chain := pending;
      pending, rest, stash := None, stash, [];
    }

    /** `reclaim_all`: detach the whole remote list, producers having run before. */
    method ReclaimAll() returns (chain: Option<Block>)
      requires Valid() && rest == []
      modifies this`head, this`link, this`inUse, this`live, this`uncounted, this`g, this`rest
      ensures Valid() && live == [] && chain == First(rest) && inUse <= old(inUse)
      ensures Grown(old(live), rest, old(inUse))
      ensures calm ==> rest == old(live) && link == old(link) && inUse == old(inUse) && g == old(g)
    {
      Producers();
      chain := head;
      head, rest, live := None, live, [];
    }

    /** What is left of the absorbed chain becomes the one pending chain. */
    method StorePending(leftover: Option<Block>)
      requires Valid() && stash == [] && leftover == First(rest)
      modifies this`pending, this`stash, this`rest
      ensures Valid() && rest == [] && stash == old(rest)
    {
      pending, stash, rest := leftover, rest, [];
    }

    method Subtract(k: nat)
      requires Valid() && absorbed == k
      modifies this`g, this`absorbed
      ensures Valid() && absorbed == 0 && g == old(g) - k
    {
      if k > 0 { g, absorbed := g - k, 0; }
    }

    /** The detached chain is absorbed and what is left of it becomes the pending chain. */
    method AbsorbDetached(chain: Option<Block>) returns (n: nat, scanned: nat)
      requires Valid() && stash == [] && chain == First(rest)
      modifies this
      ensures Valid() && rest == [] && absorbed == old(absorbed) + n && inUse <= old(inUse) && owner == old(owner)
      ensures Moved(old(rest), old(local), n, stash, local)
      ensures stash != [] ==> !Linked(link, stash[0])
      ensures scanned == if stash == [] then n else n + 1
      ensures Grown(old(live), live, old(inUse))
      ensures calm ==> Undisturbed() && Front(link, old(rest), n)
    {
      n, scanned := 0, 0;
      if chain.Some? {
        var leftover;
        n, leftover, scanned := AppendRemoteToLocalBounded(chain);
        StorePending(leftover);
      } else {
        MovedNone(rest, local);
        GrownNot(live, inUse);
      }
    }

    /** Part (a) of `refill_from_remote`: the pending chain is absorbed. */
    method RefillFromPending() returns (n: nat, scanned: nat)
      requires Valid() && rest == []
      modifies this
      ensures Valid() && rest == [] && absorbed == old(absorbed) + n && inUse <= old(inUse) && owner == old(owner)
      ensures Moved(old(stash), old(local), n, stash, local)
      ensures stash != [] ==> !Linked(link, stash[0])
      ensures scanned == (if stash == [] then n else n + 1) <= |blocks|
      ensures Grown(old(live), live, old(inUse))
      ensures calm ==> Undisturbed() && Front(link, old(stash), n)
    {
      Fits();
      var chain := TakePending();
      n, scanned := AbsorbDetached(chain);
    }

    /** Part (b) of `refill_from_remote`: no chain is pending, the live list is absorbed.  `taken` is
        the live list as the SWAP finds it: the one at entry, with blocks freed since before it. */
    method RefillFromLive() returns (n: nat, scanned: nat, ghost taken: seq<Block>)
      requires Valid() && stash == [] && rest == []
      modifies this
      ensures Valid() && rest == [] && absorbed == old(absorbed) + n && inUse <= old(inUse) && owner == old(owner)
      ensures Moved(taken, old(local), n, stash, local)
      ensures stash != [] ==> !Linked(link, stash[0])
      ensures scanned == (if stash == [] then n else n + 1) && scanned + |old(local)| <= |blocks|
      ensures Grown(old(live), taken, old(inUse)) && forall b :: b in live ==> b in old(inUse)
      ensures calm ==> taken == old(live) && live == [] && Front(old(link), old(live), n)
      ensures calm ==> inUse == old(inUse) && g == old(g) && link == old(link)
    {
      var chain := ReclaimAll();
      taken := rest;
      Fits();
      ghost var users := inUse;
      n, scanned := AbsorbDetached(chain);
      forall b | b in live ensures b in old(inUse) {
        var i :| 0 <= i < |live| && live[i] == b;
        assert live[i] in users;
      }
    }

    /**
     `refill_from_remote`: see Refilled. One that absorbs nothing has scanned at most one block, and
     none scans more than the span holds.
     */
    method RefillFromRemote() returns (got: nat, scanned: nat, ghost k: nat, ghost taken: seq<Block>, ghost j: nat)
      requires Valid() && rest == [] && absorbed == 0
      modifies this
      ensures Valid() && rest == [] && absorbed == 0 && owner == old(owner)
      ensures Refilled(old(Words()), Words(), calm, k, taken, j) && got == k + j
      ensures |local| == |old(local)| + got
      ensures scanned <= |blocks| && (got == 0 ==> scanned <= 1)
    {
      taken, j := [], 0;
      ghost var w := Words();
      got, scanned := RefillFromPending();
      k := got;
      if pending.Some? {
        Subtract(got);
        PendingRefilled(w, Words(), calm, k);
        return;
      }
      var n, seen;
      n, seen, taken := RefillRest(got, w);
      got, scanned, j := got + n, scanned + seen, n;
    }

    /** Part (b) of `refill_from_remote` and the subtraction, after k blocks were all that was pending. */
    method RefillRest(k: nat, ghost w: Snapshot) returns (n: nat, scanned: nat, ghost taken: seq<Block>)
      requires Valid() && rest == [] && stash == [] && absorbed == k
      requires Moved(w.stash, w.local, k, [], local) && inUse <= w.inUse && Grown(w.live, live, w.inUse)
      requires calm ==> Front(w.link, w.stash, k) && link == w.link && live == w.live && inUse == w.inUse && g == w.g
      modifies this
      ensures Valid() && rest == [] && absorbed == 0 && owner == old(owner)
      ensures Refilled(w, Words(), calm, k, taken, n)
      ensures |local| == |old(local)| + n && scanned + |old(local)| <= |blocks| && (n == 0 ==> scanned <= 1)
    {
      ghost var y := Words();
      n, scanned, taken := RefillFromLive();
      Subtract(k + n);
      BothRefilled(w, y, Words(), calm, k, taken, n);
    }

    /** `alloc_from_local_span`. */
    method AllocFromLocal() returns (p: Option<Block>)
      requires Valid()
      modifies this`local, this`freeCount, this`inUse
      ensures Valid() && p == First(old(local))
      ensures p.None? ==> local == old(local) && inUse == old(inUse)
      ensures p.Some? ==> local == old(local)[1..] && p.value !in old(inUse) && inUse == old(inUse) + {p.value}
    {
      p := First(local);
      if p.Some? {
        var b := p.value;
        OnePlace(b);
        assert local == [b] + local[1..];
        assert multiset(local) == multiset{b} + multiset(local[1..]);
        assert multiset(inUse + {b}) == multiset(inUse) + multiset{b};
        local, freeCount, inUse := local[1..], freeCount - 1, inUse + {b};
      }
    }

    /** Something the owner could use at once: a local block, or a chain whose first link is resolved. */
    ghost predicate Usable()
      reads this
    {
      || local != []
      || (stash != [] && Linked(link, stash[0]))
      || (stash == [] && live != [] && Linked(link, live[0]))
    }

    /** One turn of the rotation: pop locally, else refill and pop again.  `others` are the blocks
        in use when the block was taken: it was not one of them.  It fails only if the local list is
        empty, no block was freed before and the pending chain, if any, is blocked; on a calm span
        exactly if nothing is usable. */
    method AllocOrRefill() returns (p: Option<Block>, scanned: nat, ghost others: set<Block>)
      requires Valid() && rest == [] && absorbed == 0
      modifies this
      ensures Valid() && rest == [] && absorbed == 0 && owner == old(owner) && others <= old(inUse)
      ensures p.Some? ==> p.value !in others && inUse == others + {p.value} && scanned <= |blocks|
      ensures p.None? ==> inUse == others && local == [] && scanned <= 1
      ensures p.None? ==> if stash == [] then old(stash) == [] && old(live) == [] else !Linked(link, stash[0])
      ensures old(local) != [] ==> p == Some(old(local)[0]) && scanned == 0
      ensures calm ==> (p.Some? <==> old(Usable())) && others == old(inUse) && (p.None? ==> g == old(g))
    {
      scanned, others := 0, inUse;
      p := AllocFromLocal();
      if p.None? { p, scanned, others := RefillAndPop(); }
    }

    /** The second half of a turn: the local list was empty. */
    method RefillAndPop() returns (p: Option<Block>, scanned: nat, ghost others: set<Block>)
      requires Valid() && rest == [] && absorbed == 0 && local == []
      modifies this
      ensures Valid() && rest == [] && absorbed == 0 && owner == old(owner) && others <= old(inUse)
      ensures p.Some? ==> p.value !in others && inUse == others + {p.value} && scanned <= |blocks|
      ensures p.None? ==> inUse == others && local == [] && scanned <= 1
      ensures p.None? ==> if stash == [] then old(stash) == [] && old(live) == [] else !Linked(link, stash[0])
      ensures calm ==> (p.Some? <==> old(Usable())) && others == old(inUse) && (p.None? ==> g == old(g))
    {
      var got;
      ghost var k, taken, j;
      ghost var w := Words();
      got, scanned, k, taken, j := RefillFromRemote();
      if calm { SomethingResolved(w.link, w.stash, w.live, k, j); }
      others := inUse;
      p := None;
      if got > 0 {
        p := AllocFromLocal();
      } else {
        RefilledNothing(w, Words(), calm, taken);
      }
    }

    /** While nobody owns the span, producers run on and one of them may claim it. */
    method Window()
      requires Valid() && owner != Mine
      modifies this`head, this`link, this`inUse, this`live, this`uncounted, this`g, this`owner
      ensures Valid() && inUse <= old(inUse)
      ensures owner == old(owner) || owner == Other
      ensures calm ==> Undisturbed() && owner == old(owner)
    {
      Producers();
      var claimed: bool := *;
      if !calm && claimed && owner == Nobody { owner := Other; }
    }

    /**
     `try_discard`. The span is kept if a remote free is visible at the first look, or if one is
     at the second and the retake CAS comes before any claim. Otherwise it is gone: claimed, or
     ownerless with no free visible after the owner word was cleared. On a calm span it is gone
     exactly if no free is visible, and ownerless then.
     */
    method TryDiscard() returns (gone: bool)
      requires Valid() && owner == Mine
      modifies this`head, this`link, this`inUse, this`live, this`uncounted, this`g, this`owner
      ensures Valid() && inUse <= old(inUse)
      ensures gone <==> owner != Mine
      ensures gone ==> old(g) == 0
      ensures owner == Nobody ==> g == 0
      ensures calm ==> owner == (if old(g) == 0 then Nobody else Mine)
    {
      if g != 0 { return false; }
      owner := Nobody;
      Window();
      if g == 0 { return true; }
      Window();
      gone := owner != Nobody;
      if !gone { owner := Mine; }
    }
  }

  /** The spans of one local list are different objects. */
  ghost predicate Distinct(list: seq<Span>) {
    forall i, j :: 0 <= i < j < |list| ==> list[i] != list[j]
  }

  ghost predicate AllIdle(list: seq<Span>, m: nat)
    reads list
  {
    forall s :: s in list ==> s.Idle(m)
  }

  /** The block was free when it was taken and is now in use in that span, beside the others. */
  ghost predicate Handed(span: Span, p: Option<Block>, others: set<Block>)
    reads span
  {
    p.Some? && p.value in span.blocks && p.value !in others && span.inUse == others + {p.value}
  }

  /** One turn of the rotation at the front of a non-empty local list. */
  method Rotate(list: seq<Span>, ghost m: nat)
    returns (p: Option<Block>, scanned: nat, kept: seq<Span>, ghost others: set<Block>)
    requires list != [] && Distinct(list) && AllIdle(list, m)
    modifies list[0]
    ensures AllIdle(kept, m) && list[0].Settled(m)
    ensures kept == if p.Some? then list else if list[0].owner == Mine then list[1..] + [list[0]] else list[1..]
    ensures p.Some? ==> Handed(list[0], p, others) && scanned <= m
    ensures p.None? ==> scanned <= 1 && list[0].local == []
    ensures old(list[0].local) != [] ==> p == Some(old(list[0].local)[0]) && scanned == 0
    ensures list[0].owner != Mine ==> list[0].stash == [] && (list[0].owner == Nobody ==> list[0].g == 0)
    ensures list[0].calm ==> (p.Some? <==> old(list[0].Usable()))
    ensures list[0].calm && p.None? ==>
      list[0].owner == if list[0].stash == [] && old(list[0].g) == 0 then Nobody else Mine
  {
    var span := list[0];
    assert span.Idle(m);
    assert forall s :: s in list && s != span ==> s.Idle(m);
    p, scanned, others := span.AllocOrRefill();
    kept := list;
    if p.Some? {
      span.InBlocks(p.value);
      return;
    }
    var gone := false;
    if span.pending == None { gone := span.TryDiscard(); }
    kept := if gone then list[1..] else list[1..] + [span];
  }

  /** How many of the spans a rotation of K + 1 turns reaches. */
  function Reached(list: seq<Span>, K: nat): nat { if K + 1 < |list| then K + 1 else |list| }

  /** The first k spans of the list have no local block. */
  ghost predicate Exhausted(list: seq<Span>, k: nat)
    reads list
  {
    k <= |list| && forall i :: 0 <= i < k ==> list[i].local == []
  }

  /** After i turns that gave nothing, the spans not reached yet are at the front. */
  ghost predicate Ahead(list: seq<Span>, kept: seq<Span>, i: nat) {
    i <= |list| ==> |list| - i <= |kept| && forall j :: i <= j < |list| ==> kept[j - i] == list[j]
  }

  lemma StaysAhead(list: seq<Span>, kept: seq<Span>, i: nat)
    requires Ahead(list, kept, i) && kept != []
    ensures i < |list| ==> kept[0] == list[i]
    ensures Ahead(list, kept[1..], i + 1) && Ahead(list, kept[1..] + [kept[0]], i + 1)
  {
    assert i < |list| ==> kept[i - i] == list[i];
    forall j | i + 1 <= j < |list|
      ensures kept[1..][j - (i + 1)] == list[j] && (kept[1..] + [kept[0]])[j - (i + 1)] == list[j]
    {
      assert kept[j - i] == list[j];
    }
  }

  /** Step 1: the rotation.  It fails only after every span it reaches was tried and had nothing. */
  method RotateThrough(list: seq<Span>, K: nat, ghost m: nat)
    returns (p: Option<Block>, scanned: nat, kept: seq<Span>, ghost others: set<Block>)
    requires Distinct(list) && AllIdle(list, m)
    modifies list
    ensures AllIdle(kept, m) && Distinct(kept) && forall s :: s in kept ==> s in list
    ensures p.Some? ==> kept != [] && Handed(kept[0], p, others) && scanned <= m + K
    ensures p.None? ==> scanned <= K + 1 && Exhausted(list, Reached(list, K))
    ensures list != [] && old(list[0].local) != [] ==>
      p == Some(old(list[0].local)[0]) && kept == list && scanned == 0
  {
    p, scanned, kept, others := None, 0, list, {};
    ghost var first := if list != [] then list[0].local else [];
    for i := 0 to K + 1
      invariant Distinct(kept) && AllIdle(kept, m) && (forall s :: s in kept ==> s in list)
      invariant p == None && scanned <= i
      invariant if i == 0 then kept == list && (list != [] ==> list[0].local == first) else first == []
      invariant Ahead(list, kept, i) && Exhausted(list, AtMost(i, |list|))
    {
      if kept == [] { break; }
      var seen, next;
      assert kept[0] in kept;
      p, seen, next, others := Turn(list, kept, i, m);
      scanned, kept := scanned + seen, next;
      if p.Some? { return; }
    }
  }

  function AtMost(i: nat, n: nat): nat { if i <= n then i else n }

  /** Turn number i of the rotation of `list`. */
  method Turn(list: seq<Span>, kept: seq<Span>, ghost i: nat, ghost m: nat)
    returns (p: Option<Block>, scanned: nat, kept': seq<Span>, ghost others: set<Block>)
    requires Distinct(list) && Distinct(kept) && AllIdle(kept, m) && kept != [] && kept[0] in list
    requires Ahead(list, kept, i) && Exhausted(list, AtMost(i, |list|))
    modifies kept[0]
    ensures Distinct(kept') && AllIdle(kept', m) && forall s :: s in kept' ==> s in kept
    ensures p.Some? ==> kept' == kept && Handed(kept[0], p, others) && scanned <= m
    ensures p.None? ==> scanned <= 1 && Ahead(list, kept', i + 1) && Exhausted(list, AtMost(i + 1, |list|))
    ensures old(kept[0].local) != [] ==> p == Some(old(kept[0].local)[0]) && scanned == 0
  {
    StaysAhead(list, kept, i);
    var span := kept[0];
    assert forall s :: s in list && s != span ==> s.local == old(s.local);
    p, scanned, kept', others := Rotate(kept, m);
    if p.None? {
      forall k | 0 <= k < AtMost(i + 1, |list|) ensures list[k].local == [] {
        assert list[k] in list;
      }
    }
  }

  /**
   `alloc_with_token_counted`: rotate through at most K + 1 private spans, then try the span
   acquired from the public lists, if any, then a span fresh from the pool, if any.  Whatever the
   producers do, it scans at most m + K + 1 blocks; it returns null only if the pool gave nothing.
   */
  method AllocSmall(list: seq<Span>, acquired: Option<Span>, raw: Option<Span>, K: nat, ghost m: nat)
    returns (p: Option<Block>, scanned: nat, kept: seq<Span>, ghost others: set<Block>)
    requires Distinct(list) && AllIdle(list, m)
    requires acquired.Some? ==> acquired.value !in list && acquired.value.Idle(m)
    requires raw.Some? ==> raw.value !in list && raw != acquired && raw.value.Idle(m) && raw.value.local != []
    modifies list, if acquired.Some? then {acquired.value} else {}, if raw.Some? then {raw.value} else {}
    ensures AllIdle(kept, m) && Distinct(kept)
    ensures forall s :: s in kept ==> s in list || acquired == Some(s) || raw == Some(s)
    ensures p.Some? ==> kept != [] && Handed(kept[0], p, others) && scanned <= m + K + 1
    ensures p.None? ==> raw == None && scanned <= K + 2
    ensures p.None? || kept[0] !in list ==> Exhausted(list, Reached(list, K))
    ensures (p.None? || raw == Some(kept[0])) && acquired.Some? ==> acquired.value.local == [] && acquired.value in kept
    ensures list != [] && old(list[0].local) != [] ==>
      p == Some(old(list[0].local)[0]) && kept == list && scanned == 0
  {
    p, scanned, kept, others := RotateThrough(list, K, m);
    if p.Some? { return; }
    var seen;
    p, seen, kept, others := FromElsewhere(kept, acquired, raw, m);
    scanned := scanned + seen;
  }

  /** Steps 2 and 3. */
  method FromElsewhere(list: seq<Span>, acquired: Option<Span>, raw: Option<Span>, ghost m: nat)
    returns (p: Option<Block>, scanned: nat, kept: seq<Span>, ghost others: set<Block>)
    requires Distinct(list) && AllIdle(list, m)
    requires acquired.Some? ==> acquired.value !in list && acquired.value.Idle(m)
    requires raw.Some? ==> raw.value !in list && raw != acquired && raw.value.Idle(m) && raw.value.local != []
    modifies if acquired.Some? then {acquired.value} else {}, if raw.Some? then {raw.value} else {}
    ensures AllIdle(kept, m) && Distinct(kept)
    ensures kept == (if raw.Some? && kept != [] && kept[0] == raw.value then [raw.value] else [])
                    + (if acquired.Some? then [acquired.value] else []) + list
    ensures p.Some? ==> kept != [] && (acquired == Some(kept[0]) || raw == Some(kept[0])) && Handed(kept[0], p, others)
    ensures p.Some? && acquired == Some(kept[0]) ==> scanned <= m
    ensures p.None? || acquired != Some(kept[0]) ==> scanned <= 1 && (acquired.Some? ==> acquired.value.local == [])
    ensures p.None? ==> raw == None
    ensures raw.Some? ==> m >= 1
  {
    p, scanned, kept, others := None, 0, list, {};
    if raw.Some? { raw.value.Fits(); }
    if acquired.Some? {
      p, scanned, others := FromAcquired(acquired.value, m);
      kept := [acquired.value] + kept;
      if p.Some? { return; }
    }
    if raw.Some? {
      p, others := FromRaw(raw.value, m);
      kept := [raw.value] + kept;
    }
  }

  /** Step 2, after the acquisition. */
  method FromAcquired(span: Span, ghost m: nat) returns (p: Option<Block>, scanned: nat, ghost others: set<Block>)
    requires span.Idle(m)
    modifies span
    ensures span.Idle(m)
    ensures p.Some? ==> Handed(span, p, others) && scanned <= m
    ensures p.None? ==> scanned <= 1 && span.local == []
    ensures old(span.local) != [] ==> p == Some(old(span.local)[0]) && scanned == 0
  {
    p, scanned, others := span.AllocOrRefill();
    if p.Some? { span.InBlocks(p.value); }
  }

  /** Step 3, after the carving of a fresh span. */
  method FromRaw(span: Span, ghost m: nat) returns (p: Option<Block>, ghost others: set<Block>)
    requires span.Idle(m) && span.local != []
    modifies span
    ensures span.Idle(m) && m >= 1 && Handed(span, p, others) && p == Some(old(span.local)[0])
  {
    others := span.inUse;
    span.Fits();
    p := span.AllocFromLocal();
    span.InBlocks(p.value);
  }
}
