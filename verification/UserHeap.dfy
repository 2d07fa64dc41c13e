/** The K&R allocator of user/umalloc.c.  Memory is measured in units of one header; the header of a
    block is its first unit.  Addresses are unit addresses, and the static header base lies below the
    heap, as in the process layout. */
module UserHeap {
  import opened Common

  const BASE := 0

  // ---------------------------------------------------------------- the circular free list

  function Succ(ring: seq<int>, i: nat): (j: nat)
    requires i < |ring|
    ensures j < |ring|
  {
    if i + 1 < |ring| then i + 1 else 0
  }

  /** A header field at address a; memory that was never written reads as 0. */
  function At(field: map<int, int>, a: int): int {
    if a in field then field[a] else 0
  }

  /** Block i ends before block i + 1 begins, and does not touch it. */
  ghost predicate Gap(ring: seq<int>, size: map<int, int>, i: nat)
    requires i < |ring|
  {
    i + 1 < |ring| ==> ring[i] + At(size, ring[i]) < ring[i + 1]
  }

  ghost predicate Linked(ring: seq<int>, ptr: map<int, int>, i: nat)
    requires i < |ring|
  {
    At(ptr, ring[i]) == ring[Succ(ring, i)]
  }

  /** ring lists the free blocks, address-ordered from base, with one wrap at the end. */
  ghost predicate Ring(ring: seq<int>, ptr: map<int, int>, size: map<int, int>) {
    && ring != []
    && ring[0] == BASE
    && (forall i :: 0 <= i < |ring| ==> Gap(ring, size, i))
    && (forall i :: 0 <= i < |ring| ==> Linked(ring, ptr, i))
    && At(size, BASE) == 0
    && (forall i :: 0 < i < |ring| ==> At(size, ring[i]) >= 1)
  }

  lemma {:induction false} Ascending(ring: seq<int>, ptr: map<int, int>, size: map<int, int>, i: nat, j: nat)
    requires Ring(ring, ptr, size) && i < j < |ring|
    ensures ring[i] + At(size, ring[i]) < ring[j] && ring[i] < ring[j]
    decreases j
  {
    assert Gap(ring, size, i) && Gap(ring, size, j - 1);
    if i < j - 1 { Ascending(ring, ptr, size, i, j - 1); }
  }

  // ---------------------------------------------------------------- every unit has one owner

  /** Exactly the units a .. a + n - 1 are owned by a. */
  ghost predicate Owns(owner: map<int, int>, a: int, n: int) {
    && (forall u :: a <= u < a + n ==> u in owner && owner[u] == a)
    && (forall u :: u in owner && owner[u] == a ==> a <= u < a + n)
  }

  /** owner maps every unit obtained from sbrk to the block it lies in; since a unit has only one
      owner, blocks do not overlap. */
  ghost predicate Tiled(blocks: set<int>, size: map<int, int>, owner: map<int, int>) {
    && (forall u :: OwnerOk(blocks, owner, u))
    && (forall a :: TileOk(blocks, size, owner, a))
  }

  ghost predicate OwnerOk(blocks: set<int>, owner: map<int, int>, u: int) {
    u in owner ==> owner[u] in blocks
  }

  ghost predicate TileOk(blocks: set<int>, size: map<int, int>, owner: map<int, int>, a: int) {
    a in blocks ==> a > BASE && At(size, a) >= 1 && Owns(owner, a, At(size, a))
  }

  /** The units of block b go to block a. */
  ghost function Reassign(owner: map<int, int>, b: int, a: int): map<int, int> {
    map u | u in owner :: if owner[u] == b then a else owner[u]
  }

  /** Coalescing with the block that begins where a ends. */
  lemma JoinTiles(blocks: set<int>, size: map<int, int>, owner: map<int, int>, a: int, b: int)
    requires Tiled(blocks, size, owner) && a in blocks && b in blocks && a + At(size, a) == b
    ensures Tiled(blocks - {b}, size[a := At(size, a) + At(size, b)], Reassign(owner, b, a))
  {
    var blocks', size', owner' := blocks - {b}, size[a := At(size, a) + At(size, b)], Reassign(owner, b, a);
    assert TileOk(blocks, size, owner, a) && TileOk(blocks, size, owner, b);
    forall x ensures TileOk(blocks', size', owner', x) { assert TileOk(blocks, size, owner, x); }
    forall u ensures OwnerOk(blocks', owner', u) { assert OwnerOk(blocks, owner, u); }
  }

  /** The last n units of block a become a block of their own. */
  ghost function CutTail(owner: map<int, int>, a: int, t: int): map<int, int> {
    map u | u in owner :: if owner[u] == a && u >= t then t else owner[u]
  }

  lemma SplitTile(blocks: set<int>, size: map<int, int>, owner: map<int, int>, a: int, n: int)
    requires Tiled(blocks, size, owner) && a in blocks && 0 < n < At(size, a)
    ensures var t := a + At(size, a) - n;
            && t !in blocks
            && Tiled(blocks + {t}, size[a := At(size, a) - n][t := n], CutTail(owner, a, t))
  {
    var t := a + At(size, a) - n;
    var blocks', size', owner' := blocks + {t}, size[a := At(size, a) - n][t := n], CutTail(owner, a, t);
    assert TileOk(blocks, size, owner, a) && owner[t] == a;
    assert TileOk(blocks, size, owner, t);
    forall u | u in owner ensures owner[u] in blocks { assert OwnerOk(blocks, owner, u); }
    forall x ensures TileOk(blocks', size', owner', x) { assert TileOk(blocks, size, owner, x); }
    forall u ensures OwnerOk(blocks', owner', u) { assert OwnerOk(blocks, owner, u); }
  }

  ghost function Span(a: int, n: nat): (s: set<int>)
    ensures forall u :: u in s <==> a <= u < a + n
  {
    if n == 0 then {} else Span(a, n - 1) + {a + n - 1}
  }

  ghost function Grant(owner: map<int, int>, a: int, n: nat): map<int, int> {
    owner + map u | u in Span(a, n) :: a
  }

  /** Memory from sbrk. */
  lemma AddTile(blocks: set<int>, size: map<int, int>, owner: map<int, int>, a: int, n: int)
    requires Tiled(blocks, size, owner) && a > BASE && n >= 1 && (forall u :: a <= u < a + n ==> u !in owner)
    ensures a !in blocks && Tiled(blocks + {a}, size[a := n], Grant(owner, a, n))
  {
    assert a !in owner && TileOk(blocks, size, owner, a);
    var blocks', size', owner' := blocks + {a}, size[a := n], Grant(owner, a, n);
    forall u | u in owner ensures owner[u] in blocks { assert OwnerOk(blocks, owner, u); }
    forall x ensures TileOk(blocks', size', owner', x) { assert TileOk(blocks, size, owner, x); }
    forall u ensures OwnerOk(blocks', owner', u) { assert OwnerOk(blocks, owner, u); }
  }

  lemma TilesDisjoint(blocks: set<int>, size: map<int, int>, owner: map<int, int>, a: int, b: int)
    requires Tiled(blocks, size, owner) && a in blocks && b in blocks && a < b
    ensures a + At(size, a) <= b
  {
    assert TileOk(blocks, size, owner, a) && TileOk(blocks, size, owner, b) && owner[b] == b;
  }

  // ---------------------------------------------------------------- places in the list

  ghost function RingBlocks(ring: seq<int>): set<int> {
    set x | x in ring && x != BASE
  }

  /** bp belongs right after ring[k]. */
  ghost predicate Between(ring: seq<int>, k: nat, bp: int) {
    k < |ring| && ring[k] < bp && (k + 1 < |ring| ==> bp < ring[k + 1])
  }

  lemma PlaceExists(ring: seq<int>, ptr: map<int, int>, size: map<int, int>, bp: int) returns (k: nat)
    requires Ring(ring, ptr, size) && bp > BASE && bp !in ring
    ensures Between(ring, k, bp)
  {
    k := 0;
    while k + 1 < |ring| && ring[k + 1] < bp
      invariant k < |ring| && ring[k] < bp
    {
      k := k + 1;
    }
  }

  ghost function Inserted(ring: seq<int>, k: nat, bp: int): seq<int>
    requires k < |ring|
  {
    ring[..k + 1] + [bp] + ring[k + 1..]
  }

  /** bp fits between its neighbours and does not touch the next one. */
  lemma InsertRing(ring: seq<int>, ptr: map<int, int>, size: map<int, int>, k: nat, bp: int, n: int)
    requires Ring(ring, ptr, size) && Between(ring, k, bp) && n >= 1
    requires ring[k] + At(size, ring[k]) < bp && (k + 1 < |ring| ==> bp + n < ring[k + 1])
    ensures Ring(Inserted(ring, k, bp), ptr[bp := ring[Succ(ring, k)]][ring[k] := bp], size[bp := n])
  {
    var ring' := Inserted(ring, k, bp);
    var ptr', size' := ptr[bp := ring[Succ(ring, k)]][ring[k] := bp], size[bp := n];
    if k > 0 { Ascending(ring, ptr, size, 0, k); }
    forall i | 0 <= i < |ring'|
      ensures Gap(ring', size', i) && Linked(ring', ptr', i) && (i > 0 ==> At(size', ring'[i]) >= 1)
    {
      var j := if i <= k then i else if i == k + 1 then k else i - 1;
      assert Gap(ring, size, j) && Linked(ring, ptr, j);
      if j < k { Ascending(ring, ptr, size, j, k); }
      if k + 1 < j { Ascending(ring, ptr, size, k + 1, j); }
    }
  }

  /** Dropping ring[k + 1], after its space was added to ring[k] or handed out. */
  ghost function Dropped(ring: seq<int>, k: nat): seq<int>
    requires k + 1 < |ring|
  {
    ring[..k + 1] + ring[k + 2..]
  }

  lemma DropRing(ring: seq<int>, ptr: map<int, int>, size: map<int, int>, k: nat, n: int)
    requires Ring(ring, ptr, size) && k + 1 < |ring|
    requires At(size, ring[k]) <= n && (k > 0 || n == 0) && (k + 2 < |ring| ==> ring[k] + n < ring[k + 2])
    ensures Ring(Dropped(ring, k), ptr[ring[k] := At(ptr, ring[k + 1])], size[ring[k] := n])
  {
    var ring' := Dropped(ring, k);
    var ptr', size' := ptr[ring[k] := At(ptr, ring[k + 1])], size[ring[k] := n];
    assert Linked(ring, ptr, k + 1);
    forall i | 0 <= i < |ring'| ensures Gap(ring', size', i) && Linked(ring', ptr', i) {
      var j := if i <= k then i else i + 1;
      assert Gap(ring, size, j) && Linked(ring, ptr, j);
      if j < k { Ascending(ring, ptr, size, j, k); } else if j > k { Ascending(ring, ptr, size, k, j); }
    }
  }

  /** Headers outside the list do not matter to it. */
  lemma OutsideRing(ring: seq<int>, ptr: map<int, int>, size: map<int, int>, bp: int, x: int, n: int)
    requires Ring(ring, ptr, size) && bp !in ring
    ensures Ring(ring, ptr[bp := x], size[bp := n])
  {
    var ptr', size' := ptr[bp := x], size[bp := n];
    forall i | 0 <= i < |ring| ensures Gap(ring, size', i) && Linked(ring, ptr', i) {
      assert Gap(ring, size, i) && Linked(ring, ptr, i);
    }
  }

  /** Only what the headers hold matters. */
  lemma SameHeaders(ring: seq<int>, ptr: map<int, int>, size: map<int, int>, ptr': map<int, int>, size': map<int, int>)
    requires Ring(ring, ptr, size)
    requires forall x :: At(ptr', x) == At(ptr, x) && At(size', x) == At(size, x)
    ensures Ring(ring, ptr', size')
  {
    forall i | 0 <= i < |ring| ensures Gap(ring, size', i) && Linked(ring, ptr', i) {
      assert Gap(ring, size, i) && Linked(ring, ptr, i);
    }
  }

  lemma GrowRing(ring: seq<int>, ptr: map<int, int>, size: map<int, int>, k: nat, n: int)
    requires Ring(ring, ptr, size) && 0 < k < |ring| && n >= 1 && (k + 1 < |ring| ==> ring[k] + n < ring[k + 1])
    ensures Ring(ring, ptr[ring[k] := ring[Succ(ring, k)]], size[ring[k] := n])
  {
    var ptr', size' := ptr[ring[k] := ring[Succ(ring, k)]], size[ring[k] := n];
    Ascending(ring, ptr, size, 0, k);
    forall i | 0 <= i < |ring| ensures Gap(ring, size', i) && Linked(ring, ptr', i) {
      assert Gap(ring, size, i) && Linked(ring, ptr, i);
      if i < k { Ascending(ring, ptr, size, i, k); } else if i > k { Ascending(ring, ptr, size, k, i); }
    }
  }

  // ---------------------------------------------------------------- free()

  /** What free() makes of the two header fields and of the list, once p = ring[k] is found. */
  ghost function FreedRing(ring: seq<int>, size: map<int, int>, k: nat, bp: int): seq<int>
    requires k < |ring|
  {
    var next := k + 1 < |ring| && bp + At(size, bp) == ring[k + 1];
    var prev := ring[k] + At(size, ring[k]) == bp;
    var r := if next then Dropped(ring, k) else ring;
    if prev then r else Inserted(r, k, bp)
  }

  function FreedSize(ptr: map<int, int>, size: map<int, int>, p: int, bp: int): map<int, int> {
    var nxt := At(ptr, p);
    var size1 := if bp + At(size, bp) == nxt then size[bp := At(size, bp) + At(size, nxt)] else size;
    if p + At(size1, p) == bp then size1[p := At(size1, p) + At(size1, bp)] else size1
  }

  function FreedPtr(ptr: map<int, int>, size: map<int, int>, p: int, bp: int): map<int, int> {
    var nxt := At(ptr, p);
    var ptr1 := if bp + At(size, bp) == nxt then ptr[bp := At(ptr, nxt)] else ptr[bp := nxt];
    if p + At(size, p) == bp then ptr1[p := At(ptr1, bp)] else ptr1[p := bp]
  }

  /** The freed block touches both neighbours. */
  lemma FreeBetween(ring: seq<int>, ptr: map<int, int>, size: map<int, int>, k: nat, bp: int)
    requires Ring(ring, ptr, size) && Between(ring, k, bp) && bp !in ring && At(size, bp) >= 1
    requires ring[k] + At(size, ring[k]) == bp && k + 1 < |ring| && bp + At(size, bp) == ring[k + 1]
    ensures Ring(FreedRing(ring, size, k, bp), FreedPtr(ptr, size, ring[k], bp), FreedSize(ptr, size, ring[k], bp))
  {
    var p, n, nxt := ring[k], At(size, bp), ring[k + 1];
    assert Linked(ring, ptr, k) && Gap(ring, size, k + 1) && Linked(ring, ptr, k + 1);
    var m := At(size, nxt);
    var q := At(size, p) + n + m;
    if k > 0 { Ascending(ring, ptr, size, 0, k); }
    DropRing(ring, ptr, size, k, q);
    OutsideRing(Dropped(ring, k), ptr[p := At(ptr, nxt)], size[p := q], bp, At(ptr, nxt), n + m);
    assert FreedPtr(ptr, size, p, bp) == ptr[p := At(ptr, nxt)][bp := At(ptr, nxt)];
    assert FreedSize(ptr, size, p, bp) == size[p := q][bp := n + m];
  }

  lemma FreeWithNext(ring: seq<int>, ptr: map<int, int>, size: map<int, int>, k: nat, bp: int)
    requires Ring(ring, ptr, size) && Between(ring, k, bp) && bp !in ring && At(size, bp) >= 1
    requires ring[k] + At(size, ring[k]) <= bp && k + 1 < |ring| && bp + At(size, bp) == ring[k + 1]
    ensures Ring(FreedRing(ring, size, k, bp), FreedPtr(ptr, size, ring[k], bp), FreedSize(ptr, size, ring[k], bp))
  {
    var p, n, nxt := ring[k], At(size, bp), ring[k + 1];
    assert Linked(ring, ptr, k) && Gap(ring, size, k + 1) && Linked(ring, ptr, k + 1);
    var m := At(size, nxt);
    var ptr', size' := FreedPtr(ptr, size, p, bp), FreedSize(ptr, size, p, bp);
    if p + At(size, p) == bp {
      FreeBetween(ring, ptr, size, k, bp);
    } else {
      DropRing(ring, ptr, size, k, At(size, p));
      InsertRing(Dropped(ring, k), ptr[p := At(ptr, nxt)], size[p := At(size, p)], k, bp, n + m);
      var r := Dropped(ring, k);
      SameHeaders(Inserted(r, k, bp), ptr[p := At(ptr, nxt)][bp := r[Succ(r, k)]][p := bp],
                  size[p := At(size, p)][bp := n + m], ptr', size');
    }
  }

  lemma FreeWithoutNext(ring: seq<int>, ptr: map<int, int>, size: map<int, int>, k: nat, bp: int)
    requires Ring(ring, ptr, size) && Between(ring, k, bp) && bp !in ring && At(size, bp) >= 1
    requires ring[k] + At(size, ring[k]) <= bp && (k + 1 < |ring| ==> bp + At(size, bp) < ring[k + 1])
    ensures Ring(FreedRing(ring, size, k, bp), FreedPtr(ptr, size, ring[k], bp), FreedSize(ptr, size, ring[k], bp))
  {
    var p, n, nxt := ring[k], At(size, bp), ring[Succ(ring, k)];
    assert Linked(ring, ptr, k);
    if k > 0 { Ascending(ring, ptr, size, 0, k); }
    var ptr', size' := FreedPtr(ptr, size, p, bp), FreedSize(ptr, size, p, bp);
    if p + At(size, p) == bp {
      var q := At(size, p) + n;
      GrowRing(ring, ptr, size, k, q);
      OutsideRing(ring, ptr[p := nxt], size[p := q], bp, nxt, n);
      assert ptr' == ptr[p := nxt][bp := nxt] && size' == size[p := q][bp := n];
    } else {
      InsertRing(ring, ptr, size, k, bp, n);
      assert ptr' == ptr[bp := nxt][p := bp] && size' == size[bp := n];
    }
  }

  lemma FreeKeepsRing(ring: seq<int>, ptr: map<int, int>, size: map<int, int>, k: nat, bp: int)
    requires Ring(ring, ptr, size) && Between(ring, k, bp) && bp !in ring && At(size, bp) >= 1
    requires ring[k] + At(size, ring[k]) <= bp && (k + 1 < |ring| ==> bp + At(size, bp) <= ring[k + 1])
    ensures Ring(FreedRing(ring, size, k, bp), FreedPtr(ptr, size, ring[k], bp), FreedSize(ptr, size, ring[k], bp))
    ensures ring[k] in FreedRing(ring, size, k, bp)
  {
    if k + 1 < |ring| && bp + At(size, bp) == ring[k + 1] {
      FreeWithNext(ring, ptr, size, k, bp);
    } else {
      FreeWithoutNext(ring, ptr, size, k, bp);
    }
    assert FreedRing(ring, size, k, bp)[k] == ring[k];
  }

  lemma DroppedBlocks(ring: seq<int>, ptr: map<int, int>, size: map<int, int>, k: nat)
    requires Ring(ring, ptr, size) && k + 1 < |ring|
    ensures ring[k + 1] != BASE && RingBlocks(Dropped(ring, k)) == RingBlocks(ring) - {ring[k + 1]}
  {
    Ascending(ring, ptr, size, 0, k + 1);
    var r := Dropped(ring, k);
    forall x ensures x in r <==> x in ring && x != ring[k + 1] {
      if x in ring && x != ring[k + 1] {
        var i :| 0 <= i < |ring| && ring[i] == x;
        assert r[if i <= k then i else i - 1] == x;
      }
      if x in r {
        var i :| 0 <= i < |r| && r[i] == x;
        if i <= k {
          Ascending(ring, ptr, size, i, k + 1);
        } else {
          Ascending(ring, ptr, size, k + 1, i + 1);
        }
      }
    }
  }

  lemma InsertedBlocks(ring: seq<int>, k: nat, bp: int)
    requires k < |ring| && bp != BASE
    ensures RingBlocks(Inserted(ring, k, bp)) == RingBlocks(ring) + {bp}
  {
    assert ring == ring[..k + 1] + ring[k + 1..];
    assert forall x :: x in Inserted(ring, k, bp) <==> x in ring || x == bp;
  }

  /** Between the two halves of free(), if bp touches the next free block. */
  ghost predicate TouchesNext(ring: seq<int>, size: map<int, int>, k: nat, bp: int)
    requires k < |ring|
  {
    k + 1 < |ring| && bp + At(size, bp) == ring[k + 1]
  }

  ghost function HalfRing(ring: seq<int>, size: map<int, int>, k: nat, bp: int): seq<int>
    requires k < |ring|
  {
    if TouchesNext(ring, size, k, bp) then Dropped(ring, k) else ring
  }

  ghost function HalfSize(ring: seq<int>, size: map<int, int>, k: nat, bp: int): map<int, int>
    requires k < |ring|
  {
    if TouchesNext(ring, size, k, bp) then size[bp := At(size, bp) + At(size, ring[k + 1])] else size
  }

  ghost function HalfOwner(owner: map<int, int>, ring: seq<int>, size: map<int, int>, k: nat, bp: int): map<int, int>
    requires k < |ring|
  {
    if TouchesNext(ring, size, k, bp) then Reassign(owner, ring[k + 1], bp) else owner
  }

  ghost function FreedOwner(owner: map<int, int>, ring: seq<int>, size: map<int, int>, k: nat, bp: int): map<int, int>
    requires k < |ring|
  {
    var o := HalfOwner(owner, ring, size, k, bp);
    if ring[k] + At(size, ring[k]) == bp then Reassign(o, bp, ring[k]) else o
  }

  lemma HalfKeepsTiles(ring: seq<int>, ptr: map<int, int>, size: map<int, int>, live: set<int>, owner: map<int, int>,
                       k: nat, bp: int)
    requires Ring(ring, ptr, size) && Between(ring, k, bp) && bp in live
    requires Tiled(RingBlocks(ring) + live, size, owner) && (forall a :: a in live ==> a !in ring)
    ensures Tiled(RingBlocks(HalfRing(ring, size, k, bp)) + live, HalfSize(ring, size, k, bp),
        HalfOwner(owner, ring, size, k, bp))
  {
    if TouchesNext(ring, size, k, bp) {
      DroppedBlocks(ring, ptr, size, k);
      JoinTiles(RingBlocks(ring) + live, size, owner, bp, ring[k + 1]);
      assert RingBlocks(ring) + live - {ring[k + 1]} == RingBlocks(Dropped(ring, k)) + live;
    }
  }

  /** The second half of free(): bp joins the previous block or becomes a free block itself. */
  lemma JoinPrevious(r: seq<int>, size: map<int, int>, live: set<int>, owner: map<int, int>, k: nat, bp: int)
    requires k < |r| && bp in live && bp !in r
    requires Tiled(RingBlocks(r) + live, size, owner) && At(size, BASE) == 0
    ensures var p := r[k];
            if p + At(size, p) == bp
            then Tiled(RingBlocks(r) + (live - {bp}), size[p := At(size, p) + At(size, bp)], Reassign(owner, bp, p))
            else Tiled(RingBlocks(Inserted(r, k, bp)) + (live - {bp}), size, owner)
  {
    var p := r[k];
    assert TileOk(RingBlocks(r) + live, size, owner, bp);
    if p + At(size, p) == bp {
      assert p != BASE;
      JoinTiles(RingBlocks(r) + live, size, owner, p, bp);
      assert RingBlocks(r) + live - {bp} == RingBlocks(r) + (live - {bp});
    } else {
      InsertedBlocks(r, k, bp);
      assert RingBlocks(r) + live == RingBlocks(Inserted(r, k, bp)) + (live - {bp});
    }
  }

  lemma HalfFacts(ring: seq<int>, ptr: map<int, int>, size: map<int, int>, k: nat, bp: int)
    requires Ring(ring, ptr, size) && Between(ring, k, bp) && bp !in ring
    ensures var p, r, size1 := ring[k], HalfRing(ring, size, k, bp), HalfSize(ring, size, k, bp);
            k < |r| && r[k] == p && bp !in r && At(size1, p) == At(size, p) && At(size1, BASE) == 0
    ensures var p, r, size1 := ring[k], HalfRing(ring, size, k, bp), HalfSize(ring, size, k, bp);
            if p + At(size, p) == bp
            then FreedSize(ptr, size, p, bp) == size1[p := At(size, p) + At(size1, bp)]
              && FreedRing(ring, size, k, bp) == r
            else FreedSize(ptr, size, p, bp) == size1 && FreedRing(ring, size, k, bp) == Inserted(r, k, bp)
  {
    assert Linked(ring, ptr, k);
    if k > 0 { Ascending(ring, ptr, size, 0, k); }
  }

  lemma FreeKeepsTiles(ring: seq<int>, ptr: map<int, int>, size: map<int, int>, live: set<int>, owner: map<int, int>,
                       k: nat, bp: int)
    requires Ring(ring, ptr, size) && Between(ring, k, bp) && bp in live
    requires Tiled(RingBlocks(ring) + live, size, owner) && (forall a :: a in live ==> a !in ring)
    ensures Tiled(RingBlocks(FreedRing(ring, size, k, bp)) + (live - {bp}),
                  FreedSize(ptr, size, ring[k], bp), FreedOwner(owner, ring, size, k, bp))
  {
    HalfKeepsTiles(ring, ptr, size, live, owner, k, bp);
    HalfFacts(ring, ptr, size, k, bp);
    JoinPrevious(HalfRing(ring, size, k, bp), HalfSize(ring, size, k, bp), live, HalfOwner(owner, ring, size, k, bp),
      k, bp);
  }

  lemma FreeKeepsLive(ring: seq<int>, ptr: map<int, int>, size: map<int, int>, live: set<int>, k: nat, bp: int, a: int)
    requires Ring(ring, ptr, size) && k < |ring| && a in live && a != bp && a !in ring
    ensures a !in FreedRing(ring, size, k, bp) && At(FreedSize(ptr, size, ring[k], bp), a) == At(size, a)
  {
  }

  /** All units of the freed block end up in one free block. */
  lemma FreedTogether(owner: map<int, int>, ring: seq<int>, ptr: map<int, int>, size: map<int, int>, k: nat, bp: int)
    returns (h: int)
    requires Ring(ring, ptr, size) && Between(ring, k, bp) && bp > BASE && bp !in ring
    ensures h != BASE && h in FreedRing(ring, size, k, bp)
    ensures FreedOwner(owner, ring, size, k, bp).Keys == owner.Keys
    ensures forall u :: u in owner && owner[u] == bp ==> FreedOwner(owner, ring, size, k, bp)[u] == h
  {
    HalfFacts(ring, ptr, size, k, bp);
    var r := HalfRing(ring, size, k, bp);
    if ring[k] + At(size, ring[k]) == bp {
      h := ring[k];
      assert r[k] == h;
    } else {
      h := bp;
      assert Inserted(r, k, bp)[k + 1] == h;
    }
  }

  /** A live block fits between its neighbours in the list. */
  lemma FitsBetween(ring: seq<int>, ptr: map<int, int>, size: map<int, int>, live: set<int>, owner: map<int, int>,
                    k: nat, bp: int)
    requires Ring(ring, ptr, size) && Between(ring, k, bp) && bp in live
    requires Tiled(RingBlocks(ring) + live, size, owner)
    ensures At(size, bp) >= 1 && ring[k] + At(size, ring[k]) <= bp
    ensures k + 1 < |ring| ==> bp + At(size, bp) <= ring[k + 1]
  {
    var blocks := RingBlocks(ring) + live;
    assert TileOk(blocks, size, owner, bp);
    if k > 0 { Ascending(ring, ptr, size, 0, k); TilesDisjoint(blocks, size, owner, ring[k], bp); }
    if k + 1 < |ring| { Ascending(ring, ptr, size, 0, k + 1); TilesDisjoint(blocks, size, owner, bp, ring[k + 1]); }
  }

  lemma FreeFacts(ring: seq<int>, ptr: map<int, int>, size: map<int, int>, live: set<int>, owner: map<int, int>, k: nat,
                  bp: int) returns (h: int)
    requires Ring(ring, ptr, size) && Between(ring, k, bp) && bp in live
    requires Tiled(RingBlocks(ring) + live, size, owner) && (forall a :: a in live ==> a !in ring)
    ensures Ring(FreedRing(ring, size, k, bp), FreedPtr(ptr, size, ring[k], bp), FreedSize(ptr, size, ring[k], bp))
    ensures ring[k] in FreedRing(ring, size, k, bp)
    ensures Tiled(RingBlocks(FreedRing(ring, size, k, bp)) + (live - {bp}),
                  FreedSize(ptr, size, ring[k], bp), FreedOwner(owner, ring, size, k, bp))
    ensures forall a :: a in live - {bp} ==> a !in FreedRing(ring, size, k, bp)
    ensures forall a :: a in live - {bp} ==> At(FreedSize(ptr, size, ring[k], bp), a) == At(size, a)
    ensures h != BASE && h in FreedRing(ring, size, k, bp)
    ensures FreedOwner(owner, ring, size, k, bp).Keys == owner.Keys
    ensures forall u :: u in owner && owner[u] == bp ==> FreedOwner(owner, ring, size, k, bp)[u] == h
  {
    assert TileOk(RingBlocks(ring) + live, size, owner, bp);
    FitsBetween(ring, ptr, size, live, owner, k, bp);
    FreeKeepsRing(ring, ptr, size, k, bp);
    FreeKeepsTiles(ring, ptr, size, live, owner, k, bp);
    h := FreedTogether(owner, ring, ptr, size, k, bp);
    forall a | a in live - {bp}
      ensures a !in FreedRing(ring, size, k, bp) && At(FreedSize(ptr, size, ring[k], bp), a) == At(size, a)
    {
      FreeKeepsLive(ring, ptr, size, live, k, bp, a);
    }
  }

  /** What the tests of the search loop in free() tell at ring[i], when bp belongs after ring[k]. */
  lemma Neighbours(ring: seq<int>, ptr: map<int, int>, size: map<int, int>, i: nat, k: nat, bp: int)
    requires Ring(ring, ptr, size) && Between(ring, k, bp) && i < |ring| && bp > BASE
    ensures At(ptr, ring[i]) == ring[Succ(ring, i)]
    ensures var p, q := ring[i], ring[Succ(ring, i)];
            i == k <==> (bp > p && bp < q) || (p >= q && (bp > p || bp < q))
  {
    assert Linked(ring, ptr, i);
    if i + 1 < |ring| { Ascending(ring, ptr, size, i, i + 1); }
    if i > 0 { Ascending(ring, ptr, size, 0, i); }
    if i < k { Ascending(ring, ptr, size, i, k); }
    if i + 1 < k { Ascending(ring, ptr, size, i + 1, k); }
    if k + 1 < i { Ascending(ring, ptr, size, k + 1, i); }
  }

  // ---------------------------------------------------------------- malloc()

  /** Units for nbytes bytes: 16 bytes a unit, rounded up, and one for the header. */
  function NUnits(nbytes: nat): (n: nat)
    ensures n >= 1 && (n - 1) * 16 >= nbytes && (nbytes > 0 ==> (n - 2) * 16 < nbytes)
  {
    (nbytes + 15) / 16 + 1
  }

  /** malloc() hands out all of ring[k + 1]. */
  lemma TakeWhole(ring: seq<int>, ptr: map<int, int>, size: map<int, int>, live: set<int>, owner: map<int, int>, k: nat)
    requires Ring(ring, ptr, size) && k + 1 < |ring|
    requires Tiled(RingBlocks(ring) + live, size, owner) && (forall a :: a in live ==> a !in ring)
    ensures var p := ring[k + 1];
            && Ring(Dropped(ring, k), ptr[ring[k] := At(ptr, p)], size)
            && RingBlocks(Dropped(ring, k)) + (live + {p}) == RingBlocks(ring) + live
            && p !in Dropped(ring, k) && p !in live && ring[k] in Dropped(ring, k)
  {
    var p := ring[k + 1];
    DroppedBlocks(ring, ptr, size, k);
    if k + 2 < |ring| { Ascending(ring, ptr, size, k, k + 2); }
    DropRing(ring, ptr, size, k, At(size, ring[k]));
    SameHeaders(Dropped(ring, k), ptr[ring[k] := At(ptr, p)], size[ring[k] := At(size, ring[k])],
      ptr[ring[k] := At(ptr, p)], size);
    assert p in RingBlocks(ring) && p !in RingBlocks(Dropped(ring, k));
    assert Dropped(ring, k)[k] == ring[k];
  }

  /** malloc() hands out the last n units of ring[k]. */
  lemma TakeTail(ring: seq<int>, ptr: map<int, int>, size: map<int, int>, live: set<int>, owner: map<int, int>, k: nat,
                 n: int)
    requires Ring(ring, ptr, size) && 0 < k < |ring| && 0 < n < At(size, ring[k])
    requires Tiled(RingBlocks(ring) + live, size, owner) && (forall a :: a in live ==> a !in ring)
    ensures var p, t := ring[k], ring[k] + At(size, ring[k]) - n;
            var size' := size[p := At(size, p) - n][t := n];
            && t !in live && t !in ring
            && Ring(ring, ptr, size')
            && Tiled(RingBlocks(ring) + (live + {t}), size', CutTail(owner, p, t))
            && CutTail(owner, p, t).Keys == owner.Keys
            && (forall a :: a in live ==> At(size', a) == At(size, a))
  {
    var p, t := ring[k], ring[k] + At(size, ring[k]) - n;
    Ascending(ring, ptr, size, 0, k);
    SplitTile(RingBlocks(ring) + live, size, owner, p, n);
    assert RingBlocks(ring) + live + {t} == RingBlocks(ring) + (live + {t});
    assert t !in ring;
    ShrunkRing(ring, ptr, size, k, n, t);
  }

  lemma ShrunkRing(ring: seq<int>, ptr: map<int, int>, size: map<int, int>, k: nat, n: int, t: int)
    requires Ring(ring, ptr, size) && 0 < k < |ring| && 0 < n < At(size, ring[k]) && t !in ring
    ensures Ring(ring, ptr, size[ring[k] := At(size, ring[k]) - n][t := n])
  {
    var p, m := ring[k], At(size, ring[k]) - n;
    assert Gap(ring, size, k) && Linked(ring, ptr, k);
    GrowRing(ring, ptr, size, k, m);
    OutsideRing(ring, ptr[p := ring[Succ(ring, k)]], size[p := m], t, At(ptr, t), n);
    SameHeaders(ring, ptr[p := ring[Succ(ring, k)]][t := At(ptr, t)], size[p := m][t := n], ptr, size[p := m][t := n]);
  }

  /** morecore() asks for at least 4096 units. */
  function CoreUnits(nu: nat): (n: nat)
    ensures n >= nu && n >= 4096
  {
    if nu < 4096 then 4096 else nu
  }

  /** A free block that owns n consecutive units has at least n units. */
  lemma BigEnough(ring: seq<int>, size: map<int, int>, live: set<int>, owner: map<int, int>, h: int, a: int, n: nat)
    requires Tiled(RingBlocks(ring) + live, size, owner) && h in ring && h != BASE && n >= 1
    requires forall u :: u in Span(a, n) ==> u in owner && owner[u] == h
    ensures exists i :: 0 <= i < |ring| && At(size, ring[i]) >= n
  {
    assert h in RingBlocks(ring) + live && TileOk(RingBlocks(ring) + live, size, owner, h);
    assert a in Span(a, n) && a + n - 1 in Span(a, n);
    assert At(size, h) >= n;
    var i :| 0 <= i < |ring| && ring[i] == h;
  }

  /** The position c steps after position f. */
  ghost function Step(ring: seq<int>, f: nat, c: nat): (j: nat)
    requires f < |ring| && c < |ring|
    ensures j < |ring|
  {
    if f + c < |ring| then f + c else f + c - |ring|
  }

  /** When the scan is back at freep it has seen every free block. */
  lemma WentAround(ring: seq<int>, ptr: map<int, int>, size: map<int, int>, f: nat, c: nat, n: int)
    requires Ring(ring, ptr, size) && f < |ring| && c < |ring| && ring[Succ(ring, Step(ring, f, c))] == ring[f]
    requires At(size, ring[f]) < n
    requires forall d :: 0 <= d < c ==> At(size, ring[Succ(ring, Step(ring, f, d))]) < n
    ensures forall i :: 0 <= i < |ring| ==> At(size, ring[i]) < n
  {
    var j := Succ(ring, Step(ring, f, c));
    if j < f { Ascending(ring, ptr, size, j, f); } else if f < j { Ascending(ring, ptr, size, f, j); }
    forall i | 0 <= i < |ring| ensures At(size, ring[i]) < n {
      if i != f {
        var d := if i > f then i - f - 1 else i + |ring| - f - 1;
        assert Succ(ring, Step(ring, f, d)) == i;
      }
    }
  }

  lemma NotAround(ring: seq<int>, ptr: map<int, int>, size: map<int, int>, f: nat, c: nat)
    requires Ring(ring, ptr, size) && f < |ring| && c < |ring| && ring[Succ(ring, Step(ring, f, c))] != ring[f]
    ensures c + 1 < |ring| && Step(ring, f, c + 1) == Succ(ring, Step(ring, f, c))
    ensures At(ptr, ring[Step(ring, f, c + 1)]) == ring[Succ(ring, Step(ring, f, c + 1))]
  {
    assert Linked(ring, ptr, Succ(ring, Step(ring, f, c)));
  }

  /** Where a free block stands in the list. */
  lemma RingIndex(ring: seq<int>, h: int) returns (i: nat)
    requires h in RingBlocks(ring) && ring != [] && ring[0] == BASE
    ensures 0 < i < |ring| && ring[i] == h
  {
    i :| 0 <= i < |ring| && ring[i] == h;
  }

  lemma UnitOwner(ring: seq<int>, ptr: map<int, int>, size: map<int, int>, owner: map<int, int>, u: int)
    returns (i: nat)
    requires Ring(ring, ptr, size) && Tiled(RingBlocks(ring), size, owner) && u in owner
    ensures 0 < i < |ring| && owner[u] == ring[i] && ring[i] in owner && ring[i] <= u < ring[i] + At(size, ring[i])
  {
    assert OwnerOk(RingBlocks(ring), owner, u) && TileOk(RingBlocks(ring), size, owner, owner[u]);
    i := RingIndex(ring, owner[u]);
  }

  lemma FreeBlockInCore(ring: seq<int>, ptr: map<int, int>, size: map<int, int>, owner: map<int, int>, i: nat)
    requires Ring(ring, ptr, size) && Tiled(RingBlocks(ring), size, owner) && 0 < i < |ring|
    ensures ring[i] in owner.Keys
  {
    Ascending(ring, ptr, size, 0, i);
    assert ring[i] in RingBlocks(ring) && TileOk(RingBlocks(ring), size, owner, ring[i]);
  }

  /** Coalescing is complete: when everything is free and the memory from sbrk is one stretch, the
      list holds a single block with all of it. */
  lemma AllFreeIsOneBlock(ring: seq<int>, ptr: map<int, int>, size: map<int, int>, owner: map<int, int>, a: int, n: nat)
    requires Ring(ring, ptr, size) && Tiled(RingBlocks(ring), size, owner) && owner.Keys == Span(a, n) && n >= 1
    ensures ring == [BASE, a] && At(size, a) == n
  {
    assert a in owner.Keys && a + n - 1 in owner.Keys;
    var j := UnitOwner(ring, ptr, size, owner, a);
    assert ring[j] == a;
    FreeBlockInCore(ring, ptr, size, owner, 1);
    if j > 1 { Ascending(ring, ptr, size, 1, j); }
    if |ring| > 2 {
      assert Gap(ring, size, 1);
      FreeBlockInCore(ring, ptr, size, owner, 2);
      var u := a + At(size, a);
      assert u in owner.Keys;
      var i := UnitOwner(ring, ptr, size, owner, u);
      if i > 2 { Ascending(ring, ptr, size, 2, i); }
    }
    var i := UnitOwner(ring, ptr, size, owner, a + n - 1);
    assert TileOk(RingBlocks(ring), size, owner, a) && a + At(size, a) - 1 in owner.Keys;
  }

  // ---------------------------------------------------------------- the allocator

  class Heap {
    var ptr: map<int, int>
    var size: map<int, int>
    var freep: Option<int>
    ghost var ring: seq<int>
    ghost var live: set<int>
    ghost var owner: map<int, int>

    /** Nothing allocated yet: freep is the null pointer. */
    ghost predicate Untouched()
      reads this
    {
      freep.None? && live == {} && owner == map[]
    }

    ghost predicate Valid()
      reads this
    {
      && freep.Some?
      && Ring(ring, ptr, size)
      && freep.value in ring
      && Tiled(RingBlocks(ring) + live, size, owner)
      && (forall a :: a in live ==> a !in ring)
    }

    constructor ()
      ensures Untouched()
    {
      ptr, size, freep := map[], map[], None;
      ring, live, owner := [], {}, map[];
    }

    /** The search loop of free(): it ends, at the block after which bp belongs. */
    method FindPlace(bp: int) returns (p: int, ghost k: nat)
      requires Valid() && bp > BASE && bp !in ring
      ensures Between(ring, k, bp) && p == ring[k]
    {
      k := PlaceExists(ring, ptr, size, bp);
      p := freep.value;
      ghost var i: nat :| i < |ring| && ring[i] == p;
      while !(bp > p && bp < At(ptr, p))
        invariant i < |ring| && p == ring[i]
        decreases if i <= k then k - i else k + |ring| - i
      {
        Neighbours(ring, ptr, size, i, k, bp);
        if p >= At(ptr, p) && (bp > p || bp < At(ptr, p)) { break; }
        p := At(ptr, p);
        i := Succ(ring, i);
      }
      Neighbours(ring, ptr, size, i, k, bp);
    }

    /** The second part of free(): coalesce and link. */
    method Relink(p: int, bp: int)
      requires p != bp
      modifies this`ptr, this`size, this`freep
      ensures ptr == FreedPtr(old(ptr), old(size), p, bp) && size == FreedSize(old(ptr), old(size), p, bp)
      ensures freep == Some(p)
    {
      if bp + At(size, bp) == At(ptr, p) {
        size := size[bp := At(size, bp) + At(size, At(ptr, p))];
        ptr := ptr[bp := At(ptr, At(ptr, p))];
      } else {
        ptr := ptr[bp := At(ptr, p)];
      }
      if p + At(size, p) == bp {
        size := size[p := At(size, p) + At(size, bp)];
        ptr := ptr[p := At(ptr, bp)];
      } else {
        ptr := ptr[p := bp];
      }
      freep := Some(p);
    }

    /** free(), given the header of the block: the units of the block stay together in one free block,
        no two free blocks touch, and no other live block changes. */
    method Free(bp: int) returns (ghost h: int)
      requires Valid() && bp in live
      modifies this
      ensures Valid() && live == old(live) - {bp}
      ensures owner.Keys == old(owner).Keys
      ensures h in ring && h != BASE && (forall u :: u in owner && old(owner)[u] == bp ==> owner[u] == h)
      ensures forall a :: a in live ==> At(size, a) == old(At(size, a))
    {
      assert TileOk(RingBlocks(ring) + live, size, owner, bp);
      var p;
      ghost var k;
      p, k := FindPlace(bp);
      h := FreeFacts(ring, ptr, size, live, owner, k, bp);
      ghost var ring0, size0 := ring, size;
      Relink(p, bp);
      ring, owner := FreedRing(ring0, size0, k, bp), FreedOwner(owner, ring0, size0, k, bp);
      live := live - {bp};
    }

    /** The header of memory obtained from sbrk: until morecore() frees it, it is a live block. */
    method Adopt(hp: int, n: nat)
      requires Valid() && n >= 1 && hp > BASE && forall u :: u in Span(hp, n) ==> u !in owner
      modifies this`size, this`owner, this`live
      ensures Valid() && hp !in old(live) && live == old(live) + {hp} && owner == Grant(old(owner), hp, n)
      ensures size == old(size)[hp := n]
    {
      AddTile(RingBlocks(ring) + live, size, owner, hp, n);
      assert RingBlocks(ring) + live + {hp} == RingBlocks(ring) + (live + {hp});
      assert hp !in ring;
      OutsideRing(ring, ptr, size, hp, At(ptr, hp), n);
      SameHeaders(ring, ptr[hp := At(ptr, hp)], size[hp := n], ptr, size[hp := n]);
      size := size[hp := n];
      owner, live := Grant(owner, hp, n), live + {hp};
    }

    /** morecore(): brk is sbrk's answer, fresh memory above base for at least nu units. */
    method Morecore(nu: nat, brk: Option<int>) returns (r: Option<int>)
      requires Valid() && nu >= 1
      requires brk.Some? ==> brk.value > BASE && forall u :: u in Span(brk.value, CoreUnits(nu)) ==> u !in owner
      modifies this
      ensures Valid() && live == old(live) && (forall a :: a in live ==> At(size, a) == old(At(size, a)))
      ensures r == if brk.None? then None else freep
      ensures brk.None? ==> unchanged(this)
      ensures brk.Some? ==> owner.Keys == old(owner).Keys + Span(brk.value, CoreUnits(nu))
      ensures brk.Some? ==> exists i :: 0 <= i < |ring| && At(size, ring[i]) >= nu
    {
      if brk.None? { return None; }
      Adopt(brk.value, CoreUnits(nu));
      ghost var h := Free(brk.value);
      assert live == old(live);
      BigEnough(ring, size, live, owner, h, brk.value, CoreUnits(nu));
      r := freep;
    }

    /** malloc() has found p, the block after prevp, and it has exactly the right size. */
    method TakeAll(prevp: int, p: int, ghost k: nat)
      requires Valid() && k + 1 < |ring| && prevp == ring[k] && p == ring[k + 1]
      modifies this`ptr, this`freep, this`ring, this`live
      ensures Valid() && p !in old(live) && live == old(live) + {p}
    {
      TakeWhole(ring, ptr, size, live, owner, k);
      ptr := ptr[prevp := At(ptr, p)];
      freep := Some(prevp);
      ring, live := Dropped(ring, k), live + {p};
    }

    /** malloc() has found p, the block after prevp, and it is larger than n. */
    method TakeEnd(prevp: int, p: int, n: nat, ghost k: nat) returns (a: int)
      requires Valid() && n >= 1 && k + 1 < |ring| && prevp == ring[k] && p == ring[k + 1] && At(size, p) > n
      modifies this`size, this`freep, this`live, this`owner
      ensures Valid() && a !in old(live) && live == old(live) + {a} && At(size, a) == n
      ensures owner.Keys == old(owner).Keys
      ensures forall b :: b in old(live) ==> At(size, b) == old(At(size, b))
    {
      TakeTail(ring, ptr, size, live, owner, k + 1, n);
      assert old(owner) == owner;
      a := p;
      size := size[a := At(size, a) - n];
      a := a + At(size, a);
      size := size[a := n];
      owner, live := CutTail(owner, p, a), live + {a};
      freep := Some(prevp);
    }

    /** The first call of malloc() makes a list of base alone. */
    method Init()
      requires Untouched()
      modifies this`ptr, this`size, this`freep, this`ring
      ensures Valid() && At(size, BASE) == 0 && ring == [BASE]
    {
      ptr, size, freep := ptr[BASE := BASE], size[BASE := 0], Some(BASE);
      ring := [BASE];
      assert Linked(ring, ptr, 0) && Gap(ring, size, 0);
      assert RingBlocks(ring) + live == {};
    }

    /** The loop of malloc() from its start, or from where it goes on after morecore(), until it has
        found a block or is back at freep: it ends, and misses no block. */
    method Scan(n: nat) returns (found: bool, prevp: int, p: int, ghost k: nat)
      requires Valid() && n >= 1
      ensures found <==> exists i :: 0 <= i < |ring| && At(size, ring[i]) >= n
      ensures found ==> k + 1 < |ring| && prevp == ring[k] && p == ring[k + 1] && At(size, p) >= n
    {
      prevp := freep.value;
      p := At(ptr, prevp);
      ghost var f: nat :| f < |ring| && ring[f] == freep.value;
      ghost var c: nat := 0;
      assert Linked(ring, ptr, f);
      while At(size, p) < n
        invariant f < |ring| && c < |ring| && freep == Some(ring[f])
        invariant prevp == ring[Step(ring, f, c)] && p == ring[Succ(ring, Step(ring, f, c))]
        invariant forall d :: 0 <= d < c ==> At(size, ring[Succ(ring, Step(ring, f, d))]) < n
        decreases |ring| - c
      {
        if p == freep.value {
          WentAround(ring, ptr, size, f, c, n);
          found, k := false, 0;
          return;
        }
        NotAround(ring, ptr, size, f, c);
        prevp, p := p, At(ptr, p);
        c := c + 1;
      }
      found, k := true, Step(ring, f, c);
    }

    /** A free block is large enough. */
    ghost predicate HasFit(n: nat)
      reads this
    {
      exists i :: 0 <= i < |ring| && At(size, ring[i]) >= n
    }

    /** All of malloc()'s loop: one morecore() if no block is large enough. */
    method FindFit(n: nat, brk: Option<int>) returns (found: bool, prevp: int, p: int, ghost k: nat)
      requires Valid() && n >= 1
      requires brk.Some? ==> brk.value > BASE && forall u :: u in Span(brk.value, CoreUnits(n)) ==> u !in owner
      modifies this
      ensures Valid() && live == old(live) && forall b :: b in live ==> At(size, b) == old(At(size, b))
      ensures owner.Keys == old(owner).Keys + if old(HasFit(n)) || brk.None? then {} else Span(brk.value, CoreUnits(n))
      ensures found ==> k + 1 < |ring| && prevp == ring[k] && p == ring[k + 1] && At(size, p) >= n
      ensures found <==> old(HasFit(n)) || brk.Some?
      ensures !found ==> forall i :: 0 <= i < |ring| ==> At(size, ring[i]) < n
    {
      found, prevp, p, k := Scan(n);
      if !found {
        var q := Morecore(n, brk);
        if q.Some? {
          found, prevp, p, k := Scan(n);
        }
      }
    }

    /** malloc(): brk is what sbrk would answer.  It calls morecore() exactly if no free block is large enough, and
        fails exactly if that fails. */
    method Malloc(nbytes: nat, brk: Option<int>) returns (r: Option<int>)
      requires Untouched() || Valid()
      requires NUnits(nbytes) * 16 < 0x8000_0000
      requires brk.Some? ==>
                 brk.value > BASE && forall u :: u in Span(brk.value, CoreUnits(NUnits(nbytes))) ==> u !in owner
      modifies this
      ensures Valid()
      ensures r.Some? ==> r.value - 1 !in old(live) && live == old(live) + {r.value - 1}
      ensures r.Some? ==> At(size, r.value - 1) == NUnits(nbytes)
      ensures r.None? ==> live == old(live) && forall i :: 0 <= i < |ring| ==> At(size, ring[i]) < NUnits(nbytes)
      ensures forall b :: b in old(live) ==> At(size, b) == old(At(size, b))
      ensures var n := NUnits(nbytes);
              && (r.None? <==> !old(Valid() && HasFit(n)) && brk.None?)
              && owner.Keys == old(owner).Keys +
                   if old(Valid() && HasFit(n)) || brk.None? then {} else Span(brk.value, CoreUnits(n))
    {
      var nunits := NUnits(nbytes);
      if freep.None? { Init(); }
      var found, prevp, p;
      ghost var k;
      found, prevp, p, k := FindFit(nunits, brk);
      if !found { return None; }
      if At(size, p) == nunits {
        TakeAll(prevp, p, k);
      } else {
        p := TakeEnd(prevp, p, nunits, k);
      }
      r := Some(p + 1);
    }
  }
}
