/** The doubly linked list of buffers in kernel/bio.c: nodes 0 .. n - 1 and the list head h, linked through
    next and prev in the order that the sequence order gives. */
module LruList {
  /** Node i of the ring: the head, the elements of order, the head again. */
  function Node(order: seq<nat>, h: nat, i: int): nat {
    if 1 <= i <= |order| then order[i - 1] else h
  }

  ghost predicate LinkAt(next: seq<nat>, prev: seq<nat>, order: seq<nat>, h: nat, i: int) {
    0 <= i <= |order| ==>
      && Node(order, h, i) < |next| && Node(order, h, i + 1) < |prev|
      && next[Node(order, h, i)] == Node(order, h, i + 1) && prev[Node(order, h, i + 1)] == Node(order, h, i)
  }

  /** pos is the inverse of order, a permutation of 0 .. n - 1. */
  ghost predicate Perm(order: seq<nat>, pos: seq<nat>, n: nat) {
    && |order| == n && |pos| == n
    && (forall i :: 0 <= i < n ==> order[i] < n && pos[order[i]] == i)
    && (forall b :: 0 <= b < n ==> pos[b] < n && order[pos[b]] == b)
  }

  /** A circular doubly linked list of all nodes 0 .. n - 1 in this order, with head h. */
  ghost predicate Linked(next: seq<nat>, prev: seq<nat>, order: seq<nat>, pos: seq<nat>, n: nat, h: nat) {
    && n <= h < |next| == |prev| && Perm(order, pos, n)
    && (forall i :: LinkAt(next, prev, order, h, i))
  }

  lemma Following(next: seq<nat>, prev: seq<nat>, order: seq<nat>, pos: seq<nat>, n: nat, h: nat, i: int)
    requires Linked(next, prev, order, pos, n, h) && 0 <= i <= n
    ensures next[Node(order, h, i)] == Node(order, h, i + 1) && prev[Node(order, h, i + 1)] == Node(order, h, i)
  {
    assert LinkAt(next, prev, order, h, i);
  }

  lemma NodesDiffer(order: seq<nat>, pos: seq<nat>, n: nat, h: nat, i: int, j: int)
    requires Perm(order, pos, n) && n <= h && 0 <= i <= n && 0 <= j <= n && i != j
    ensures Node(order, h, i) != Node(order, h, j) && Node(order, h, i + 1) != Node(order, h, j + 1)
  {
  }

  // ---------------------------------------------------------------- taking a node out

  function Without(order: seq<nat>, k: nat): seq<nat>
    requires k < |order|
  {
    order[..k] + order[k + 1..]
  }

  lemma WithoutNode(order: seq<nat>, h: nat, k: nat, i: int)
    requires k < |order| && 0 <= i <= |order|
    ensures Node(Without(order, k), h, i) == if i <= k then Node(order, h, i) else Node(order, h, i + 1)
  {
  }

  /** The neighbours of b are linked to each other. */
  lemma Unlink(next: seq<nat>, prev: seq<nat>, order: seq<nat>, pos: seq<nat>, n: nat, h: nat, b: nat, i: int)
    requires Linked(next, prev, order, pos, n, h) && b < n
    ensures next[b] < |prev| && prev[b] < |next|
    ensures LinkAt(next[prev[b] := next[b]], prev[next[b] := prev[b]], Without(order, pos[b]), h, i)
  {
    var k := pos[b];
    Following(next, prev, order, pos, n, h, k);
    Following(next, prev, order, pos, n, h, k + 1);
    if 0 <= i <= n - 1 {
      WithoutNode(order, h, k, i);
      WithoutNode(order, h, k, i + 1);
      var j := if i <= k then i else i + 1;
      Following(next, prev, order, pos, n, h, j);
      if j != k { NodesDiffer(order, pos, n, h, j, k); }
      if j != k + 1 { NodesDiffer(order, pos, n, h, j, k + 1); }
    }
  }

  // ---------------------------------------------------------------- putting a node in front

  /** b is linked in between the head and the first node. */
  lemma PushFront(next: seq<nat>, prev: seq<nat>, order: seq<nat>, h: nat, b: nat, i: int)
    requires h < |next| == |prev| && b < |next| && b != h && b !in order
    requires forall i :: LinkAt(next, prev, order, h, i)
    requires forall x, y :: 0 <= x < y < |order| ==> order[x] != order[y]
    requires h !in order
    ensures next[h] < |prev|
    ensures LinkAt(next[b := next[h]][h := b], prev[b := h][next[h] := b], [b] + order, h, i)
  {
    assert LinkAt(next, prev, order, h, 0);
    if 0 <= i <= |order| + 1 {
      assert Node([b] + order, h, i) == if i == 1 then b else if i == 0 then h else Node(order, h, i - 1);
      assert Node([b] + order, h, i + 1) == if i == 0 then b else Node(order, h, i);
      if i >= 1 { assert LinkAt(next, prev, order, h, i - 1); }
    }
  }

  /** The order after node b moved to the front. */
  function ToFront(order: seq<nat>, k: nat): seq<nat>
    requires k < |order|
  {
    [order[k]] + Without(order, k)
  }

  ghost function PosToFront(pos: seq<nat>, b: nat): seq<nat>
    requires b < |pos|
  {
    seq(|pos|, x requires 0 <= x < |pos| => if x == b then 0 else if pos[x] < pos[b] then pos[x] + 1 else pos[x])
  }

  lemma PermToFront(order: seq<nat>, pos: seq<nat>, n: nat, b: nat)
    requires Perm(order, pos, n) && b < n
    ensures Perm(ToFront(order, pos[b]), PosToFront(pos, b), n)
  {
    var k := pos[b];
    var order', pos' := ToFront(order, k), PosToFront(pos, b);
    forall i | 0 <= i < n ensures order'[i] < n && pos'[order'[i]] == i {
      assert order'[i] == if i == 0 then b else if i <= k then order[i - 1] else order[i];
    }
    forall x | 0 <= x < n ensures pos'[x] < n && order'[pos'[x]] == x {
      var i := pos'[x];
      assert order'[i] == if i == 0 then b else if i <= k then order[i - 1] else order[i];
    }
  }

  /** The six assignments at the end of brelse() move b to the front of the list. */
  lemma MoveToFront(next: seq<nat>, prev: seq<nat>, order: seq<nat>, pos: seq<nat>, n: nat, h: nat, b: nat)
    requires Linked(next, prev, order, pos, n, h) && b < n
    ensures next[b] < |prev| && prev[b] < |next|
    ensures var next1, prev1 := next[prev[b] := next[b]], prev[next[b] := prev[b]];
            next1[h] < |prev| &&
            Linked(next1[b := next1[h]][h := b], prev1[b := h][next1[h] := b], ToFront(order, pos[b]),
              PosToFront(pos, b), n, h)
  {
    Unlink(next, prev, order, pos, n, h, b, 0);
    var next1, prev1 := next[prev[b] := next[b]], prev[next[b] := prev[b]];
    var rest := Without(order, pos[b]);
    forall i ensures LinkAt(next1, prev1, rest, h, i) { Unlink(next, prev, order, pos, n, h, b, i); }
    RestIsFine(order, pos, n, h, b);
    PushFront(next1, prev1, rest, h, b, 0);
    var next2: seq<nat>, prev2: seq<nat> := next1[b := next1[h]][h := b], prev1[b := h][next1[h] := b];
    var order2 := [b] + rest;
    forall i ensures LinkAt(next2, prev2, order2, h, i) { PushFront(next1, prev1, rest, h, b, i); }
    PermToFront(order, pos, n, b);
  }

  lemma RestIsFine(order: seq<nat>, pos: seq<nat>, n: nat, h: nat, b: nat)
    requires Perm(order, pos, n) && b < n <= h
    ensures var rest := Without(order, pos[b]);
            && b !in rest && h !in rest && (forall x, y :: 0 <= x < y < |rest| ==> rest[x] != rest[y])
  {
    var k, rest := pos[b], Without(order, pos[b]);
    forall x | 0 <= x < |rest| ensures rest[x] == order[if x < k then x else x + 1] {}
  }

  // ---------------------------------------------------------------- building the list

  ghost function PosPushed(pos: seq<nat>): seq<nat> {
    seq(|pos| + 1, x requires 0 <= x <= |pos| => if x < |pos| then pos[x] + 1 else 0)
  }

  /** One round of binit(): node n is added in front. */
  lemma AddNode(next: seq<nat>, prev: seq<nat>, order: seq<nat>, pos: seq<nat>, n: nat, h: nat)
    requires Linked(next, prev, order, pos, n, h) && n < h
    ensures next[h] < |prev|
    ensures Linked(next[n := next[h]][h := n], prev[n := h][next[h] := n], [n] + order, PosPushed(pos), n + 1, h)
  {
    PushFront(next, prev, order, h, n, 0);
    var next2: seq<nat>, prev2: seq<nat> := next[n := next[h]][h := n], prev[n := h][next[h] := n];
    var order2, pos2 := [n] + order, PosPushed(pos);
    forall i ensures LinkAt(next2, prev2, order2, h, i) { PushFront(next, prev, order, h, n, i); }
    forall i | 0 <= i < n + 1 ensures order2[i] < n + 1 && pos2[order2[i]] == i {}
  }
}
