/** A value that may be absent: the null pointers of the program. */
module Wrappers {
  datatype Option<+T> = None | Some(value: T)
}

/**
 Chains of blocks linked by their own memory (src/block.rs, src/remote_mpsc.rs).  A block swapped
 into a remote list is UNLINKED until its producer stores the link.
 */
module Chain {
  import opened Wrappers

  type Block = nat

  datatype Link = Unlinked | To(next: Option<Block>)

  function First(c: seq<Block>): Option<Block> { if c == [] then None else Some(c[0]) }

  function Reverse(c: seq<Block>): (r: seq<Block>)
    ensures |r| == |c|
  {
    if c == [] then [] else Reverse(c[1..]) + [c[0]]
  }

  lemma {:induction false} ReverseSnoc(c: seq<Block>, b: Block)
    ensures Reverse(c + [b]) == [b] + Reverse(c)
  {
    if c == [] {
      assert [] + [b] == [b];
      assert Reverse([b]) == Reverse([]) + [b];
    } else {
      assert (c + [b])[1..] == c[1..] + [b];
      ReverseSnoc(c[1..], b);
    }
  }

  lemma ReverseNext(c: seq<Block>, i: nat)
    requires i < |c|
    ensures Reverse(c[..i + 1]) == [c[i]] + Reverse(c[..i]) && c[i + 1..] == c[i..][1..]
  {
    assert c[..i + 1] == c[..i] + [c[i]];
    ReverseSnoc(c[..i], c[i]);
  }

  /** Of chain c, the first i blocks have moved to the front of what was local list q. */
  ghost predicate Moved(c: seq<Block>, q: seq<Block>, i: nat, rest: seq<Block>, local: seq<Block>) {
    i <= |c| && rest == c[i..] && local == Reverse(c[..i]) + q
  }

  lemma MovedNext(c: seq<Block>, q: seq<Block>, i: nat, rest: seq<Block>, local: seq<Block>)
    requires Moved(c, q, i, rest, local) && rest != []
    ensures Moved(c, q, i + 1, rest[1..], [rest[0]] + local)
  {
    ReverseNext(c, i);
  }

  lemma MovedNone(c: seq<Block>, q: seq<Block>)
    ensures Moved(c, q, 0, c, q)
  {
    assert c[..0] == [] && c[0..] == c;
  }
}
