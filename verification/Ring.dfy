/** The LRU list of bio.c: a circular doubly linked list through the buffers, with
    `bcache.head` as its sentinel. Pointers are buffer numbers; head is number `size`. */
module LruRing {

  /** The k-th node of the list; head (h) before the first and after the last. */
  function Node(order: seq<nat>, h: nat, k: int): nat {
    if 0 <= k < |order| then order[k] else h
  }

  /** order lists every buffer below h exactly once; pos is its inverse. */
  predicate Lists(order: seq<nat>, pos: seq<int>, h: nat) {
    && |order| == h && |pos| == h
    && (forall k :: 0 <= k < h ==> order[k] < h && pos[order[k]] == k)
    && (forall b :: 0 <= b < h ==> 0 <= pos[b] < h && order[pos[b]] == b)
  }

  /** The links of buffer b follow the order both ways. */
  predicate LinkedAt(order: seq<nat>, pos: seq<int>, next: seq<nat>, prev: seq<nat>, h: nat, b: nat)
    requires b < h && |pos| == h && |next| == h + 1 && |prev| == h + 1
  {
    next[b] == Node(order, h, pos[b] + 1) && prev[b] == Node(order, h, pos[b] - 1)
  }

  predicate Linked(order: seq<nat>, pos: seq<int>, next: seq<nat>, prev: seq<nat>, h: nat) {
    && Lists(order, pos, h)
    && |next| == h + 1 && |prev| == h + 1
    && next[h] == Node(order, h, 0) && prev[h] == Node(order, h, h - 1)
    && forall b :: 0 <= b < h ==> LinkedAt(order, pos, next, prev, h, b)
  }

  /** order with its element at position p moved to the front. */
  function ToFront(order: seq<nat>, p: nat): (r: seq<nat>)
    requires p < |order|
  {
    seq(|order|, k requires 0 <= k < |order| =>
      if k == 0 then order[p] else if k <= p then order[k - 1] else order[k])
  }

  function PosToFront(pos: seq<int>, b: nat): seq<int>
    requires b < |pos|
  {
    seq(|pos|, c requires 0 <= c < |pos| =>
      if c == b then 0 else if pos[c] < pos[b] then pos[c] + 1 else pos[c])
  }

  lemma ToFrontLists(order: seq<nat>, pos: seq<int>, h: nat, b: nat)
    requires Lists(order, pos, h) && b < h
    ensures Lists(ToFront(order, pos[b]), PosToFront(pos, b), h)
  {
  }

  lemma LinksInRange(order: seq<nat>, pos: seq<int>, next: seq<nat>, prev: seq<nat>, h: nat, b: nat)
    requires Linked(order, pos, next, prev, h) && b <= h
    ensures next[b] <= h && prev[b] <= h
  {
    assert b < h ==> LinkedAt(order, pos, next, prev, h, b);
  }

  /** One buffer's links after the assignments of brelse. */
  lemma RelinkedAt(order: seq<nat>, pos: seq<int>, next: seq<nat>, prev: seq<nat>, h: nat, b: nat,
                   next1: seq<nat>, prev1: seq<nat>, next2: seq<nat>, prev2: seq<nat>, c: nat)
    requires Linked(order, pos, next, prev, h) && b < h && c < h && next[b] <= h && prev[b] <= h
    requires prev1 == prev[next[b] := prev[b]] && next1 == next[prev[b] := next[b]]
    requires next1[h] <= h
    requires next2 == next1[b := next1[h]][h := b] && prev2 == prev1[b := h][next1[h] := b]
    ensures LinkedAt(ToFront(order, pos[b]), PosToFront(pos, b), next2, prev2, h, c)
  {
    assert LinkedAt(order, pos, next, prev, h, b);
    assert LinkedAt(order, pos, next, prev, h, c);
  }

  lemma RelinkedHead(order: seq<nat>, pos: seq<int>, next: seq<nat>, prev: seq<nat>, h: nat, b: nat,
                     next1: seq<nat>, prev1: seq<nat>, next2: seq<nat>, prev2: seq<nat>)
    requires Linked(order, pos, next, prev, h) && b < h && next[b] <= h && prev[b] <= h
    requires prev1 == prev[next[b] := prev[b]] && next1 == next[prev[b] := next[b]]
    requires next1[h] <= h
    requires next2 == next1[b := next1[h]][h := b] && prev2 == prev1[b := h][next1[h] := b]
    ensures next2[h] == Node(ToFront(order, pos[b]), h, 0)
    ensures prev2[h] == Node(ToFront(order, pos[b]), h, h - 1)
  {
    assert LinkedAt(order, pos, next, prev, h, b);
  }

  class Ring {
    /** NBUF, and the number that stands for `&bcache.head`. */
    const size: nat
    var next: seq<nat>
    var prev: seq<nat>
    /** The buffers from head.next to head.prev, and where each of them is. */
    ghost var order: seq<nat>
    ghost var pos: seq<int>

    ghost predicate Valid()
      reads this
    {
      Linked(order, pos, next, prev, size)
    }

    /** binit: each buffer is linked in just after head. */
    constructor (n: nat)
      ensures Valid() && size == n
      ensures forall k :: 0 <= k < n ==> order[k] == n - 1 - k
    {
      var nx, pv := seq(n + 1, _ => n), seq(n + 1, _ => n);
      var b := 0;
      while b < n
        invariant b <= n && |nx| == n + 1 && |pv| == n + 1
        invariant nx[n] == (if b == 0 then n else b - 1) && pv[n] == (if b == 0 then n else 0)
        invariant forall c :: 0 <= c < b ==> nx[c] == (if c == 0 then n else c - 1)
        invariant forall c :: 0 <= c < b ==> pv[c] == (if c + 1 == b then n else c + 1)
      {
        nx := nx[b := nx[n]];
        pv := pv[b := n];
        pv := pv[nx[n] := b];
        nx := nx[n := b];
        b := b + 1;
      }
      size, next, prev := n, nx, pv;
      order := seq(n, k => n - 1 - k);
      pos := seq(n, k => n - 1 - k);
    }

    /** The relinking in brelse: unlink b, then link it in just after head. */
    method MoveToFront(b: nat)
      requires Valid() && b < size
      modifies this
      ensures Valid()
      ensures order == ToFront(old(order), old(pos[b])) && pos == PosToFront(old(pos), b)
    {
      ghost var next0, prev0 := next, prev;
      LinksInRange(order, pos, next, prev, size, b);
      LinksInRange(order, pos, next, prev, size, size);
      prev := prev[next[b] := prev[b]];
      assert next[b] != b by { assert LinkedAt(order, pos, next0, prev0, size, b); }
      next := next[prev[b] := next[b]];
      ghost var next1, prev1 := next, prev;
      next := next[b := next[size]];
      prev := prev[b := size];
      prev := prev[next[size] := b];
      next := next[size := b];
      ghost var order0, pos0 := order, pos;
      order, pos := ToFront(order, pos[b]), PosToFront(pos, b);
      ToFrontLists(order0, pos0, size, b);
      RelinkedHead(order0, pos0, next0, prev0, size, b, next1, prev1, next, prev);
      forall c | 0 <= c < size
        ensures LinkedAt(order, pos, next, prev, size, c)
      {
        RelinkedAt(order0, pos0, next0, prev0, size, b, next1, prev1, next, prev, c);
      }
    }
  }
}
