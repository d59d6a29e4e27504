/**
 The owner's private span list (src/heap.rs): head, tail and length words, linked through
 the `next` field of the spans themselves.  `items` is the sequence the list stands for.
 */
module LocalSpanList {

  class SpanHeader {
    var next: SpanHeader?

    constructor ()
      ensures next == null
    {
      next := null;
    }
  }

  ghost predicate Links(q: seq<SpanHeader>, i: nat)
    requires i < |q|
    reads q
  {
    q[i].next == if i + 1 < |q| then q[i + 1] else null
  }

  ghost predicate Distinct(q: seq<SpanHeader>) {
    forall i, j :: 0 <= i < j < |q| ==> q[i] != q[j]
  }

  /** Position i of what is left after dropping position k was position Origin(i, k). */
  function Origin(i: nat, k: nat): nat { if i < k then i else i + 1 }

  /** r is q without exactly the span at position k: that span is gone, every other one stays,
      and they stay in order. */
  ghost predicate Removed(q: seq<SpanHeader>, r: seq<SpanHeader>, k: nat) {
    && k < |q| && |r| == |q| - 1
    && q[k] !in r && (forall i :: 0 <= i < |q| && i != k ==> q[i] in r)
    && (forall i :: 0 <= i < |r| ==> r[i] == q[Origin(i, k)])
  }

  /** Dropping one position of a duplicate-free list drops exactly that span. */
  lemma RemovalIsExact(q: seq<SpanHeader>, k: nat)
    requires Distinct(q) && k < |q|
    ensures Distinct(q[..k] + q[k + 1..]) && Removed(q, q[..k] + q[k + 1..], k)
  {
    var r := q[..k] + q[k + 1..];
    assert forall i :: 0 <= i < |r| ==> r[i] == q[Origin(i, k)];
    forall i | 0 <= i < |q| && i != k ensures q[i] in r { assert r[if i < k then i else i - 1] == q[i]; }
  }

  class SpanList {
    var head: SpanHeader?
    var tail: SpanHeader?
    var len: nat
    ghost var items: seq<SpanHeader>

    ghost predicate Valid()
      reads this, items
    {
      && len == |items|
      && head == (if items == [] then null else items[0])
      && tail == (if items == [] then null else items[|items| - 1])
      && Distinct(items)
      && (forall i :: 0 <= i < |items| ==> Links(items, i))
    }

    constructor ()
      ensures Valid() && items == []
    {
      head, tail, len := null, null, 0;
      items := [];
    }

    method PushFront(span: SpanHeader)
      requires Valid() && span !in items
      modifies this, span
      ensures Valid() && items == [span] + old(items)
    {
      var oldHead := head;
      span.next := oldHead;
      head := span;
      if oldHead == null {
        tail := span;
      }
      len := len + 1;
      items := [span] + items;
      forall i | 0 <= i < |items| ensures Links(items, i) {
        if i > 0 { assert old(Links(items, i - 1)); }
      }
    }

    method PushBack(span: SpanHeader)
      requires Valid() && span !in items
      modifies this, span, tail
      ensures Valid() && items == old(items) + [span]
    {
      span.next := null;
      if tail == null {
        head := span;
      } else {
        tail.next := span;
      }
      tail := span;
      len := len + 1;
      items := items + [span];
      forall i | 0 <= i < |items| ensures Links(items, i) {
        if i + 1 < |items| { assert old(Links(items, i)); }
      }
    }

    method PopFront() returns (span: SpanHeader?)
      requires Valid()
      modifies this
      ensures Valid()
      ensures span == (if old(items) == [] then null else old(items)[0])
      ensures items == if old(items) == [] then [] else old(items)[1..]
    {
      span := head;
      if span == null {
        return;
      }
      assert Links(items, 0);
      var next := span.next;
      head := next;
      if next == null {
        tail := null;
      }
      len := len - 1;
      items := items[1..];
      forall i | 0 <= i < |items| ensures Links(items, i) {
        assert old(Links(items, i + 1));
      }
    }

    /** The unlinking of the k-th entry, whose predecessor is `prev`. */
    method Unlink(prev: SpanHeader?, cur: SpanHeader, ghost k: nat)
      requires Valid() && k < |items| && items[k] == cur && prev == if k == 0 then null else items[k - 1]
      modifies this, prev
      ensures Valid() && items == old(items)[..k] + old(items)[k + 1..]
    {
      assert Links(items, k);
      var next := cur.next;
      if prev == null {
        head := next;
      } else {
        prev.next := next;
      }
      if next == null {
        tail := prev;
      }
      len := len - 1;
      items := items[..k] + items[k + 1..];
      forall i | 0 <= i < |items| ensures Links(items, i) {
        if i >= k { assert old(Links(items, i + 1)); } else { assert old(Links(items, i)); }
      }
    }

    /** Unlinks `span` if it is among the first `limit` entries; the rest keep their order. */
    method RemoveBounded(span: SpanHeader, limit: nat) returns (removed: bool)
      requires Valid()
      modifies this, items
      ensures Valid()
      ensures removed <==> span in old(items)[..if limit < |old(items)| then limit else |old(items)|]
      ensures !removed ==> items == old(items)
      ensures removed ==> exists k :: 0 <= k < |old(items)| && old(items)[k] == span && Removed(old(items), items, k)
    {
      var prev: SpanHeader? := null;
      var cur := head;
      var k := 0;
      while k < limit
        invariant 0 <= k <= limit && k <= |items|
        invariant Valid() && items == old(items)
        invariant prev == (if k == 0 then null else items[k - 1])
        invariant cur == (if k < |items| then items[k] else null)
        invariant span !in items[..k]
      {
        if cur == null {
          assert k == |items|;
          return false;
        }
        if cur == span {
          RemovalIsExact(items, k);
          Unlink(prev, cur, k);
          return true;
        }
        assert Links(items, k);
        prev := cur;
        cur := cur.next;
        k := k + 1;
      }
      removed := false;
    }
  }
}
