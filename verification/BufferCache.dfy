/** The buffer cache of kernel/bio.c.  Each method is one section under bcache.lock, or one use of a buffer
    whose sleep lock is held, so any interleaving of processes is a sequence of method calls. */
module BufferCache {
  import opened LruList

  datatype Key = Key(dev: nat, blockno: nat)

  /** What binit() names all buffers. */
  const Blank := Key(0, 0)

  /** Buffers and disk.  where gives the buffer of a block; references are those from bget() (uses) and
      those from bpin() (pins). */
  datatype Bufs = Bufs(key: seq<Key>, valid: seq<bool>, refcnt: seq<nat>, data: seq<int>, held: seq<bool>,
                       disk: map<Key, int>, where: map<Key, nat>, uses: seq<nat>, pins: seq<nat>)

  /** The disk, total: blocks never written read as 0. */
  function OnDisk(disk: map<Key, int>, k: Key): int {
    if k in disk then disk[k] else 0
  }

  /** A more recently released buffer is nearer to the front. */
  ghost predicate Newer(pos: seq<nat>, stamp: seq<nat>, a: int, b: int) {
    0 <= a < |pos| == |stamp| && 0 <= b < |pos| && pos[a] < pos[b] ==> stamp[a] > stamp[b]
  }

  ghost predicate ByAge(pos: seq<nat>, stamp: seq<nat>, clock: nat) {
    && |stamp| == |pos|
    && (forall a, b :: Newer(pos, stamp, a, b))
    && (forall b :: 0 <= b < |stamp| ==> stamp[b] < clock)
  }

  lemma TouchKeepsAge(order: seq<nat>, pos: seq<nat>, stamp: seq<nat>, clock: nat, n: nat, b: nat)
    requires Perm(order, pos, n) && ByAge(pos, stamp, clock) && b < n
    ensures ByAge(PosToFront(pos, b), stamp[b := clock], clock + 1)
  {
    var pos', stamp' := PosToFront(pos, b), stamp[b := clock];
    forall x, y ensures Newer(pos', stamp', x, y) { assert Newer(pos, stamp, x, y); }
  }

  // ---------------------------------------------------------------- buffers and blocks

  ghost predicate Shape(s: Bufs, n: nat) {
    |s.key| == |s.valid| == |s.refcnt| == |s.data| == |s.held| == |s.uses| == |s.pins| == n
  }

  /** Buffer b is the one for its block; a blank key marks buffers that were never used. */
  ghost predicate KeyOk(s: Bufs, b: int) {
    0 <= b < |s.key| && s.key[b] != Blank ==> s.key[b] in s.where && s.where[s.key[b]] == b
  }

  ghost predicate WhereOk(s: Bufs, k: Key) {
    k in s.where ==> s.where[k] < |s.key| && s.key[s.where[k]] == k && k != Blank
  }

  /** References are counted, and a lock holder has one. */
  ghost predicate RefOk(s: Bufs, n: nat, b: int) {
    0 <= b < n && Shape(s, n) ==> s.refcnt[b] == s.uses[b] + s.pins[b] && (s.held[b] ==> s.uses[b] > 0)
  }

  ghost predicate Clean(s: Bufs, n: nat, b: int) {
    0 <= b < n && Shape(s, n) && s.valid[b] && s.key[b] != Blank ==> s.data[b] == OnDisk(s.disk, s.key[b])
  }

  /** A buffer that is neither locked nor pinned holds what the disk holds. */
  ghost predicate CleanOk(s: Bufs, n: nat, b: int) {
    0 <= b < n && Shape(s, n) && !s.held[b] && s.pins[b] == 0 ==> Clean(s, n, b)
  }

  ghost predicate Inv(s: Bufs, n: nat) {
    && Shape(s, n)
    && (forall b :: KeyOk(s, b)) && (forall k :: WhereOk(s, k))
    && (forall b :: RefOk(s, n, b)) && (forall b :: CleanOk(s, n, b))
  }

  /** What a block contains for the users of the cache. */
  ghost function View(s: Bufs, k: Key): int {
    if k in s.where && s.where[k] < |s.valid| && s.where[k] < |s.data| && s.valid[s.where[k]] then s.data[s.where[k]]
    else OnDisk(s.disk, k)
  }

  ghost predicate SameView(s: Bufs, s': Bufs) {
    forall k :: View(s', k) == View(s, k)
  }

  /** At most one buffer for a block, but for block 0 of device 0. */
  lemma OneBufferEach(s: Bufs, n: nat, a: nat, b: nat)
    requires Inv(s, n) && a < n && b < n && s.key[a] == s.key[b] && s.key[a] != Blank
    ensures a == b
  {
    assert KeyOk(s, a) && KeyOk(s, b);
  }

  ghost predicate OneBuffer(s: Bufs, n: nat, k: Key) {
    forall a, b :: 0 <= a < n && 0 <= b < n && Shape(s, n) && s.key[a] == k && s.key[b] == k ==> a == b
  }

  /** What binit() makes. */
  function FirstBufs(n: nat, disk: map<Key, int>): Bufs {
    Bufs(seq(n, _ => Blank), seq(n, _ => false), seq(n, _ => 0), seq(n, _ => 0), seq(n, _ => false),
         disk, map[], seq(n, _ => 0), seq(n, _ => 0))
  }

  /** That exception is the only one, and it is one from the start. */
  lemma OneBufferIff(k: Key)
    ensures (forall s, n: nat :: Inv(s, n) ==> OneBuffer(s, n, k)) <==> k != Blank
  {
    var s := FirstBufs(2, map[]);
    assert Inv(s, 2) && !OneBuffer(s, 2, Blank) by { assert s.key[0] == Blank && s.key[1] == Blank; }
    forall s, n: nat | Inv(s, n) && k != Blank ensures OneBuffer(s, n, k) {
      forall a, b | 0 <= a < n && 0 <= b < n && s.key[a] == k && s.key[b] == k ensures a == b {
        OneBufferEach(s, n, a, b);
      }
    }
  }

  /** A referenced buffer in use shows its block. */
  lemma BufferIsView(s: Bufs, n: nat, b: nat)
    requires Inv(s, n) && b < n && s.key[b] != Blank
    ensures View(s, s.key[b]) == if s.valid[b] then s.data[b] else OnDisk(s.disk, s.key[b])
  {
    assert KeyOk(s, b);
  }

  /** b->refcnt++ in bget(). */
  function Ref(s: Bufs, b: nat): Bufs
    requires b < |s.refcnt| && b < |s.uses|
  {
    s.(refcnt := s.refcnt[b := s.refcnt[b] + 1], uses := s.uses[b := s.uses[b] + 1])
  }

  lemma RefInv(s: Bufs, n: nat, b: nat)
    requires Inv(s, n) && b < n
    ensures Inv(Ref(s, b), n) && SameView(s, Ref(s, b))
  {
    var s' := Ref(s, b);
    forall x ensures KeyOk(s', x) { assert KeyOk(s, x); }
    forall k ensures WhereOk(s', k) { assert WhereOk(s, k); }
    forall x ensures RefOk(s', n, x) { assert RefOk(s, n, x); }
    forall x ensures CleanOk(s', n, x) { assert CleanOk(s, n, x); }
  }

  /** An unused buffer taken for block k. */
  function Recycle(s: Bufs, b: nat, k: Key): Bufs
    requires b < |s.key| && b < |s.valid| && b < |s.refcnt| && b < |s.uses|
  {
    var rest := s.where - {s.key[b]};
    s.(key := s.key[b := k], valid := s.valid[b := false], refcnt := s.refcnt[b := 1], uses := s.uses[b := 1],
       where := if k == Blank then rest else rest[k := b])
  }

  lemma RecycleInv(s: Bufs, n: nat, b: nat, k: Key)
    requires Inv(s, n) && b < n && s.refcnt[b] == 0 && forall x :: 0 <= x < n ==> s.key[x] != k
    ensures Inv(Recycle(s, b, k), n) && SameView(s, Recycle(s, b, k))
  {
    var s' := Recycle(s, b, k);
    assert KeyOk(s, b) && CleanOk(s, n, b) && RefOk(s, n, b) && WhereOk(s, k);
    forall x ensures KeyOk(s', x) { assert KeyOk(s, x); }
    forall q ensures WhereOk(s', q) && View(s', q) == View(s, q) { assert WhereOk(s, q); }
    forall x ensures RefOk(s', n, x) { assert RefOk(s, n, x); }
    forall x ensures CleanOk(s', n, x) { assert CleanOk(s, n, x); }
  }

  /** New contents for a buffer whose user holds its lock, or the first contents, from the disk. */
  function Put(s: Bufs, b: nat, v: int): Bufs
    requires b < |s.data| && b < |s.valid|
  {
    s.(data := s.data[b := v], valid := s.valid[b := true])
  }

  lemma PutInv(s: Bufs, n: nat, b: nat, v: int)
    requires Inv(s, n) && b < n && s.held[b] && s.key[b] != Blank
    ensures Inv(Put(s, b, v), n)
    ensures forall k :: View(Put(s, b, v), k) == if k == s.key[b] then v else View(s, k)
  {
    var s' := Put(s, b, v);
    assert KeyOk(s, b) && RefOk(s, n, b);
    forall x ensures KeyOk(s', x) { assert KeyOk(s, x); }
    forall q ensures WhereOk(s', q) && View(s', q) == if q == s.key[b] then v else View(s, q) { assert WhereOk(s, q); }
    forall x ensures RefOk(s', n, x) { assert RefOk(s, n, x); }
    forall x ensures CleanOk(s', n, x) { assert CleanOk(s, n, x); }
  }

  /** virtio_disk_rw(b, 1) */
  function Written(s: Bufs, b: nat): Bufs
    requires b < |s.key| && b < |s.data|
  {
    s.(disk := s.disk[s.key[b] := s.data[b]])
  }

  lemma WrittenInv(s: Bufs, n: nat, b: nat)
    requires Inv(s, n) && b < n && s.valid[b] && s.key[b] != Blank
    ensures Inv(Written(s, b), n) && SameView(s, Written(s, b)) && Clean(Written(s, b), n, b)
  {
    var s' := Written(s, b);
    assert KeyOk(s, b);
    forall x ensures KeyOk(s', x) { assert KeyOk(s, x); }
    forall q ensures WhereOk(s', q) && View(s', q) == View(s, q) { assert WhereOk(s, q); }
    forall x ensures RefOk(s', n, x) { assert RefOk(s, n, x); }
    forall x ensures CleanOk(s', n, x) { assert CleanOk(s, n, x) && KeyOk(s, x); }
  }

  /** A new state with other reference counts and locks: a buffer that is neither locked nor pinned must be clean. */
  lemma CountsInv(s: Bufs, s': Bufs, n: nat)
    requires Inv(s, n) && s' == s.(refcnt := s'.refcnt, held := s'.held, uses := s'.uses, pins := s'.pins)
    requires Shape(s', n) && forall b :: RefOk(s', n, b)
    requires forall b :: 0 <= b < n && !s'.held[b] && s'.pins[b] == 0 ==>
               (!s.held[b] && s.pins[b] == 0) || Clean(s, n, b)
    ensures Inv(s', n) && SameView(s, s')
  {
    forall x ensures KeyOk(s', x) { assert KeyOk(s, x); }
    forall q ensures WhereOk(s', q) { assert WhereOk(s, q); }
    forall x ensures CleanOk(s', n, x) { assert CleanOk(s, n, x); }
  }

  class Cache {
    const size: nat             // NBUF; also the index of the list head
    var next: seq<nat>
    var prev: seq<nat>
    var key: seq<Key>
    var valid: seq<bool>
    var refcnt: seq<nat>
    var data: seq<int>
    var held: seq<bool>         // the sleep locks
    var disk: map<Key, int>
    ghost var order: seq<nat>   // most recently released first
    ghost var pos: seq<nat>
    ghost var stamp: seq<nat>   // when a buffer was last released by its last user
    ghost var clock: nat
    ghost var where: map<Key, nat>
    ghost var uses: seq<nat>
    ghost var pins: seq<nat>

    ghost function St(): Bufs
      reads this
    {
      Bufs(key, valid, refcnt, data, held, disk, where, uses, pins)
    }

    ghost predicate Valid()
      reads this
    {
      Inv(St(), size) == true && Linked(next, prev, order, pos, size, size) && ByAge(pos, stamp, clock)
    }

    /** The list that binit() makes. */
    static method BuildList(size: nat)
      returns (next: seq<nat>, prev: seq<nat>, ghost order: seq<nat>, ghost pos: seq<nat>, ghost stamp: seq<nat>)
      ensures Linked(next, prev, order, pos, size, size) && ByAge(pos, stamp, size)
    {
      next, prev := seq(size + 1, _ => size), seq(size + 1, _ => size);
      order, pos, stamp := [], [], [];
      var b := 0;
      while b < size
        invariant b <= size && Linked(next, prev, order, pos, b, size) && ByAge(pos, stamp, b)
      {
        AddNode(next, prev, order, pos, b, size);
        ghost var pos', stamp' := PosPushed(pos), stamp + [b];
        forall x, y ensures Newer(pos', stamp', x, y) { assert Newer(pos, stamp, x, y); }
        next := next[b := next[size]];
        prev := prev[b := size];
        prev := prev[next[size] := b];
        next := next[size := b];
        order, pos, stamp := [b] + order, pos', stamp';
        b := b + 1;
      }
    }

    /** binit() */
    constructor(size: nat, disk: map<Key, int>)
      ensures Valid() && this.size == size && St() == FirstBufs(size, disk)
    {
      this.size, this.disk := size, disk;
      var nx, pv;
      ghost var o, p, st;
      nx, pv, o, p, st := BuildList(size);
      next, prev, order, pos, stamp := nx, pv, o, p, st;
      key, valid, refcnt, data := seq(size, _ => Blank), seq(size, _ => false), seq(size, _ => 0), seq(size, _ => 0);
      held, uses, pins := seq(size, _ => false), seq(size, _ => 0), seq(size, _ => 0);
      clock, where := size, map[];
    }

    /** The first loop of bget(). */
    method Find(k: Key) returns (b: nat)
      requires Valid()
      ensures b <= size && (b < size ==> key[b] == k)
      ensures b == size ==> forall x :: 0 <= x < size ==> key[x] != k
    {
      ghost var i := 1;
      Following(next, prev, order, pos, size, size, 0);
      b := next[size];
      while b != size
        invariant 1 <= i <= size + 1 && b == Node(order, size, i)
        invariant forall x :: 0 <= x < size && pos[x] < i - 1 ==> key[x] != k
        decreases size + 1 - i
      {
        if key[b] == k { return b; }
        Following(next, prev, order, pos, size, size, i);
        b := next[b];
        i := i + 1;
      }
    }

    /** The second loop of bget(): the least recently released of the unused buffers. */
    method Oldest() returns (b: nat)
      requires Valid()
      ensures b <= size
      ensures (b < size ==> refcnt[b] == 0 && forall x :: 0 <= x < size && refcnt[x] == 0 ==> stamp[b] <= stamp[x])
      ensures b == size ==> forall x :: 0 <= x < size ==> refcnt[x] > 0
    {
      ghost var i := size;
      Following(next, prev, order, pos, size, size, size);
      b := prev[size];
      while b != size
        invariant 0 <= i <= size && b == Node(order, size, i)
        invariant forall x :: 0 <= x < size && pos[x] >= i ==> refcnt[x] > 0
        decreases i
      {
        if refcnt[b] == 0 {
          forall x | 0 <= x < size && refcnt[x] == 0 ensures stamp[b] <= stamp[x] { assert Newer(pos, stamp, x, b); }
          return;
        }
        Following(next, prev, order, pos, size, size, i - 1);
        b := prev[b];
        i := i - 1;
      }
    }

    /** An unused buffer gets the name of another block, without contents, and a first reference. */
    method Reuse(b: nat, k: Key)
      requires Valid() && b < size && refcnt[b] == 0 && forall x :: 0 <= x < size ==> key[x] != k
      modifies this`key, this`valid, this`refcnt, this`where, this`uses
      ensures Valid() && SameView(old(St()), St()) && St() == Recycle(old(St()), b, k)
    {
      RecycleInv(St(), size, b, k);
      where := where - {key[b]};
      if k != Blank { where := where[k := b]; }
      key, valid, refcnt := key[b := k], valid[b := false], refcnt[b := 1];
      uses := uses[b := 1];
    }

    /** The part of bget() under bcache.lock: the buffer for k if there is one, or else the least recently
        released unused buffer.  It fails (with a panic) exactly if the block is not cached and all buffers
        are in use.  No block seems to change. */
    method Bget(k: Key) returns (b: nat)
      requires Valid()
      modifies this`key, this`valid, this`refcnt, this`where, this`uses
      ensures Valid() && SameView(old(St()), St())
      ensures b <= size && (b == size <==> forall x :: 0 <= x < size ==> old(key)[x] != k && old(refcnt)[x] > 0)
      ensures b == size ==> unchanged(this)
      ensures b < size && old(key)[b] == k ==> St() == Ref(old(St()), b)
      ensures b < size && old(key)[b] != k ==>
                && St() == Recycle(old(St()), b, k) && old(refcnt)[b] == 0
                && (forall x :: 0 <= x < size ==> old(key)[x] != k && (old(refcnt)[x] == 0 ==> stamp[b] <= stamp[x]))
    {
      b := Find(k);
      if b < size {
        RefInv(St(), size, b);
        refcnt, uses := refcnt[b := refcnt[b] + 1], uses[b := uses[b] + 1];
        return;
      }
      b := Oldest();
      if b < size { Reuse(b, k); }
    }

    /** acquiresleep(), once the lock is free. */
    method Lock(b: nat)
      requires Valid() && b < size && !held[b] && uses[b] > 0
      modifies this`held
      ensures Valid() && held == old(held)[b := true] && SameView(old(St()), St())
    {
      ghost var s := St();
      held := held[b := true];
      forall x ensures RefOk(St(), size, x) { assert RefOk(s, size, x); }
      CountsInv(s, St(), size);
    }

    /** The rest of bread(): the contents of the block, as every user of the cache sees them. */
    method Load(b: nat)
      requires Valid() && b < size && held[b] && key[b] != Blank
      modifies this`data, this`valid
      ensures Valid() && SameView(old(St()), St()) && valid[b] && data[b] == View(St(), key[b])
    {
      BufferIsView(St(), size, b);
      if !valid[b] {
        PutInv(St(), size, b, if key[b] in disk then disk[key[b]] else 0);
        data := data[b := if key[b] in disk then disk[key[b]] else 0];
        valid := valid[b := true];
      }
    }

    /** A user changes b->data: that block changes, and no other. */
    method Modify(b: nat, v: int)
      requires Valid() && b < size && held[b] && valid[b] && key[b] != Blank
      modifies this`data
      ensures Valid() && data == old(data)[b := v]
      ensures forall k :: View(St(), k) == if k == key[b] then v else View(old(St()), k)
    {
      PutInv(St(), size, b, v);
      data := data[b := v];
      assert St() == Put(old(St()), b, v);
    }

    /** bwrite() */
    method Bwrite(b: nat)
      requires Valid() && b < size && held[b] && valid[b] && key[b] != Blank
      modifies this`disk
      ensures Valid() && SameView(old(St()), St()) && disk == old(disk)[key[b] := data[b]] && Clean(St(), size, b)
    {
      WrittenInv(St(), size, b);
      disk := disk[key[b] := data[b]];
    }

    /** bpin() */
    method Bpin(b: nat)
      requires Valid() && b < size
      modifies this`refcnt, this`pins
      ensures Valid() && SameView(old(St()), St())
      ensures refcnt == old(refcnt)[b := old(refcnt)[b] + 1] && pins == old(pins)[b := old(pins)[b] + 1]
    {
      ghost var s := St();
      refcnt, pins := refcnt[b := refcnt[b] + 1], pins[b := pins[b] + 1];
      forall x ensures RefOk(St(), size, x) { assert RefOk(s, size, x); }
      CountsInv(s, St(), size);
    }

    /** bunpin(): the last pin of a buffer that is not locked may go only if the block is on disk. */
    method Bunpin(b: nat)
      requires Valid() && b < size && pins[b] > 0 && (pins[b] == 1 && !held[b] ==> Clean(St(), size, b))
      modifies this`refcnt, this`pins
      ensures Valid() && SameView(old(St()), St()) && old(refcnt)[b] > 0
      ensures refcnt == old(refcnt)[b := old(refcnt)[b] - 1] && pins == old(pins)[b := old(pins)[b] - 1]
    {
      ghost var s := St();
      assert RefOk(s, size, b);
      refcnt, pins := refcnt[b := refcnt[b] - 1], pins[b := pins[b] - 1];
      forall x ensures RefOk(St(), size, x) { assert RefOk(s, size, x); }
      CountsInv(s, St(), size);
    }

    /** A buffer is taken out of the list and put in front: it is the most recently released one. */
    method ToFrontOfList(b: nat)
      requires b < size && Linked(next, prev, order, pos, size, size) && ByAge(pos, stamp, clock)
      modifies this`next, this`prev, this`order, this`pos, this`stamp, this`clock
      ensures Linked(next, prev, order, pos, size, size) && ByAge(pos, stamp, clock)
      ensures old(pos)[b] < |old(order)| && order == ToFront(old(order), old(pos)[b])
      ensures stamp == old(stamp)[b := old(clock)] && clock == old(clock) + 1
    {
      MoveToFront(next, prev, order, pos, size, size, b);
      TouchKeepsAge(order, pos, stamp, clock, size, b);
      prev := prev[next[b] := prev[b]];
      next := next[prev[b] := next[b]];
      next := next[b := next[size]];
      prev := prev[b := size];
      prev := prev[next[size] := b];
      next := next[size := b];
      order, pos, stamp, clock := ToFront(order, pos[b]), PosToFront(pos, b), stamp[b := clock], clock + 1;
    }

    /** The first part of brelse(), releasesleep(): a buffer that is neither pinned nor on disk must not be let go. */
    method Unlock(b: nat)
      requires Valid() && b < size && held[b] && (pins[b] == 0 ==> Clean(St(), size, b))
      modifies this`held
      ensures Valid() && SameView(old(St()), St()) && held == old(held)[b := false]
    {
      ghost var s := St();
      held := held[b := false];
      forall x ensures RefOk(St(), size, x) { assert RefOk(s, size, x); }
      CountsInv(s, St(), size);
    }

    /** A reference from bget() goes. */
    method DropUse(b: nat)
      requires Inv(St(), size) == true && b < size && uses[b] > if held[b] then 1 else 0
      modifies this`refcnt, this`uses
      ensures Inv(St(), size) == true && SameView(old(St()), St()) && old(refcnt)[b] > 0
      ensures refcnt == old(refcnt)[b := old(refcnt)[b] - 1]
    {
      ghost var s := St();
      assert RefOk(s, size, b);
      refcnt, uses := refcnt[b := refcnt[b] - 1], uses[b := uses[b] - 1];
      forall x ensures RefOk(St(), size, x) { assert RefOk(s, size, x); }
      CountsInv(s, St(), size);
    }

    /** The rest of brelse(), under bcache.lock: the caller's reference goes, and other processes may have locked and
        changed the buffer since.  With the last reference the buffer becomes the most recently released. */
    method Brelse(b: nat)
      requires Valid() && b < size && uses[b] > if held[b] then 1 else 0
      modifies this`refcnt, this`uses, this`next, this`prev, this`order, this`pos, this`stamp, this`clock
      ensures Valid() && SameView(old(St()), St()) && old(refcnt)[b] > 0
      ensures refcnt == old(refcnt)[b := old(refcnt)[b] - 1]
      ensures old(refcnt)[b] > 1 ==> order == old(order) && stamp == old(stamp)
      ensures old(refcnt)[b] == 1 ==> old(pos)[b] < |old(order)| && order == ToFront(old(order), old(pos)[b])
      ensures old(refcnt)[b] == 1 ==> stamp == old(stamp)[b := old(clock)]
    {
      DropUse(b);
      if refcnt[b] == 0 { ToFrontOfList(b); }
    }
  }
}
