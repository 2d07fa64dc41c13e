/** User memory as bytes: what copyout() and copyin() of kernel/vm.c do to it, page by page. */
module UserBytes {
  import opened Common
  import opened PageTable

  /** The byte at virtual address a. */
  ghost function Byte(s: Mem, root: nat, a: nat): Option<int> {
    match Content(s, root, a / PGSIZE)
    case None => None
    case Some(page) => if a % PGSIZE < |page| then Some(page[a % PGSIZE]) else None
  }

  /** walkaddr() finds a page. */
  ghost predicate Readable(s: Mem, root: nat, v: nat) {
    v < MAXVPN && Trans(s, root, v).Some? && Trans(s, root, v).value.perm.u
  }

  ghost predicate Writable(s: Mem, root: nat, v: nat) {
    Readable(s, root, v) && Trans(s, root, v).value.perm.w
  }

  ghost predicate ByteReadable(s: Mem, root: nat, a: nat) {
    Readable(s, root, a / PGSIZE)
  }

  ghost predicate ByteWritable(s: Mem, root: nat, a: nat) {
    Writable(s, root, a / PGSIZE)
  }

  /** Every byte of a range lies on a readable, or writable, page. */
  ghost predicate CanRead(s: Mem, root: nat, va: nat, n: nat) {
    forall a :: va <= a < va + n ==> ByteReadable(s, root, a)
  }

  ghost predicate CanWrite(s: Mem, root: nat, va: nat, n: nat) {
    forall a :: va <= a < va + n ==> ByteWritable(s, root, a)
  }

  /** The trampoline and the trapframe are not for user mode. */
  ghost predicate KernelOnly(s: Mem, root: nat) {
    forall v: nat :: MAXVPN - 2 <= v ==> !Readable(s, root, v)
  }

  /** From s to s', src was stored at va in root, and no other byte of any address space changed. */
  ghost predicate StoredAt(s: Mem, s': Mem, root: nat, va: nat, src: seq<int>, n: nat, r: nat, a: nat) {
    IsRoot(s, r) ==>
      Byte(s', r, a) == if r == root && va <= a < va + n && a - va < |src| then Some(src[a - va]) else Byte(s, r, a)
  }

  ghost predicate Stored(s: Mem, s': Mem, root: nat, va: nat, src: seq<int>, n: nat) {
    && Inv(s')
    && s' == s.(data := s'.data)
    && (forall r: nat, a: nat :: StoredAt(s, s', root, va, src, n, r, a))
  }

  /** dst holds the first |dst| bytes at va. */
  ghost predicate Loaded(s: Mem, root: nat, va: nat, dst: seq<int>) {
    forall i :: 0 <= i < |dst| ==> Byte(s, root, va + i) == Some(dst[i])
  }

  /** What one round copies: to the end of the page or to the end of the data. */
  function Chunk(va: nat, len: nat): (n: nat)
    ensures n <= len && va % PGSIZE + n <= PGSIZE && (len > 0 ==> n > 0)
  {
    if PGSIZE - va % PGSIZE > len then len else PGSIZE - va % PGSIZE
  }

  /** The page with new contents. */
  function WithPage(s: Mem, x: nat, page: seq<int>): Mem {
    s.(data := s.data[x := page])
  }

  /** Writing the frame of page v of root changes the contents of that page and of no other, in any
      address space. */
  lemma WithPageContent(s: Mem, root: nat, v: nat, page: seq<int>, r: nat, w: nat)
    requires Inv(s) && IsRoot(s, root) && v < MAXVPN - 2 && Trans(s, root, v).Some? && |page| == PGSIZE && IsRoot(s, r)
    ensures var s' := WithPage(s, Trans(s, root, v).value.ppn, page);
            Content(s', r, w) == if r == root && w == v then Some(page) else Content(s, r, w)
  {
    PageFrame(s, root, v);
    if w < MAXVPN - 2 && Trans(s, r, w).Some? {
      PageFrame(s, r, w);
      PageIndices(v, w);
    }
    assert Trans(WithPage(s, Trans(s, root, v).value.ppn, page), r, w) == Trans(s, r, w);
  }

  lemma WithPageInv(s: Mem, root: nat, v: nat, page: seq<int>)
    requires Inv(s) && IsRoot(s, root) && v < MAXVPN - 2 && Trans(s, root, v).Some? && |page| == PGSIZE
    ensures Inv(WithPage(s, Trans(s, root, v).value.ppn, page))
  {
    var s' := WithPage(s, Trans(s, root, v).value.ppn, page);
    forall x, y ensures EntryOk(s', x, y) { assert EntryOk(s, x, y); }
    forall x ensures LinkOk(s', x) { assert LinkOk(s, x); }
  }

  /** A readable page and the frame behind it. */
  lemma UserFrame(s: Mem, root: nat, v: nat)
    requires Inv(s) && IsRoot(s, root) && KernelOnly(s, root) && Readable(s, root, v)
    ensures v < MAXVPN - 2 && Trans(s, root, v).value.ppn in s.data && |s.data[Trans(s, root, v).value.ppn]| == PGSIZE
    ensures Content(s, root, v) == Some(s.data[Trans(s, root, v).value.ppn])
  {
    PageFrame(s, root, v);
  }

  lemma InChunk(va: nat, n: nat, a: nat)
    requires va % PGSIZE + n <= PGSIZE && va <= a < va + n
    ensures a / PGSIZE == va / PGSIZE && a % PGSIZE == va % PGSIZE + (a - va)
  {
  }

  lemma NotInChunk(va: nat, n: nat, a: nat)
    requires va % PGSIZE + n <= PGSIZE && !(va <= a < va + n)
    ensures !(a / PGSIZE == va / PGSIZE && va % PGSIZE <= a % PGSIZE < va % PGSIZE + n)
  {
  }

  /** One round of copyout(). */
  lemma StoreChunk(s: Mem, t: Mem, root: nat, va: nat, src: seq<int>, m: nat, n: nat)
    requires Stored(s, t, root, va, src, m) && IsRoot(s, root) && KernelOnly(t, root) && m + n <= |src|
    requires Readable(t, root, (va + m) / PGSIZE) && (va + m) % PGSIZE + n <= PGSIZE
    requires var x := Trans(t, root, (va + m) / PGSIZE).value.ppn; x in t.data && |t.data[x]| == PGSIZE
    ensures var x := Trans(t, root, (va + m) / PGSIZE).value.ppn;
            Stored(s, WithPage(t, x, Splice(t.data[x], (va + m) % PGSIZE, src[m..m + n])), root, va, src, m + n)
  {
    var at, k := va + m, m + n;
    var v := at / PGSIZE;
    UserFrame(t, root, v);
    var x := Trans(t, root, v).value.ppn;
    var page := Splice(t.data[x], at % PGSIZE, src[m..m + n]);
    var t' := WithPage(t, x, page);
    WithPageInv(t, root, v, page);
    forall r: nat, a: nat ensures StoredAt(s, t', root, va, src, k, r, a) {
      assert StoredAt(s, t, root, va, src, m, r, a);
      if IsRoot(s, r) {
        WithPageContent(t, root, v, page, r, a / PGSIZE);
        if at <= a < at + n { InChunk(at, n, a); } else { NotInChunk(at, n, a); }
      }
    }
  }

  lemma NothingStored(s: Mem, root: nat, va: nat, src: seq<int>)
    requires Inv(s)
    ensures Stored(s, s, root, va, src, 0)
  {
  }

  /** copyout() does not change what is mapped. */
  lemma SameTables(s: Mem, t: Mem, root: nat, v: nat)
    requires t == s.(data := t.data)
    ensures Trans(t, root, v) == Trans(s, root, v) && (IsRoot(t, root) <==> IsRoot(s, root))
    ensures KernelOnly(s, root) ==> KernelOnly(t, root)
  {
    assert forall w: nat :: Readable(t, root, w) <==> Readable(s, root, w);
  }

  lemma ChunkWritable(s: Mem, root: nat, va: nat, m: nat, n: nat)
    requires CanWrite(s, root, va, m) && Writable(s, root, (va + m) / PGSIZE) && (va + m) % PGSIZE + n <= PGSIZE
    ensures CanWrite(s, root, va, m + n)
  {
    forall a | va <= a < va + (m + n) ensures ByteWritable(s, root, a) {
      if a >= va + m { InChunk(va + m, n, a); }
    }
  }

  lemma ChunkReadable(s: Mem, root: nat, va: nat, m: nat, n: nat)
    requires CanRead(s, root, va, m) && Readable(s, root, (va + m) / PGSIZE) && (va + m) % PGSIZE + n <= PGSIZE
    ensures CanRead(s, root, va, m + n)
  {
    forall a | va <= a < va + (m + n) ensures ByteReadable(s, root, a) {
      if a >= va + m { InChunk(va + m, n, a); }
    }
  }

  /** One round of copyin(). */
  lemma LoadChunk(s: Mem, root: nat, va: nat, dst: seq<int>, n: nat)
    requires Inv(s) && IsRoot(s, root) && KernelOnly(s, root) && Loaded(s, root, va, dst)
    requires Readable(s, root, (va + |dst|) / PGSIZE) && (va + |dst|) % PGSIZE + n <= PGSIZE
    requires var x := Trans(s, root, (va + |dst|) / PGSIZE).value.ppn; x in s.data && |s.data[x]| == PGSIZE
    ensures var at := va + |dst|;
            Loaded(s, root, va, dst + s.data[Trans(s, root, at / PGSIZE).value.ppn][at % PGSIZE..at % PGSIZE + n])
  {
    var at := va + |dst|;
    UserFrame(s, root, at / PGSIZE);
    var more := s.data[Trans(s, root, at / PGSIZE).value.ppn][at % PGSIZE..at % PGSIZE + n];
    forall i | 0 <= i < |dst + more| ensures Byte(s, root, va + i) == Some((dst + more)[i]) {
      if i >= |dst| { InChunk(at, n, va + i); }
    }
  }

  /** What copyout() stored, copyin() from the same place succeeds in reading and returns. */
  lemma CopyRoundTrip(s: Mem, s': Mem, root: nat, va: nat, src: seq<int>, dst: seq<int>)
    requires IsRoot(s, root) && CanWrite(s, root, va, |src|) && Stored(s, s', root, va, src, |src|)
    ensures CanRead(s', root, va, |src|)
    ensures |dst| == |src| && Loaded(s', root, va, dst) ==> dst == src
  {
    forall a | va <= a < va + |src| ensures ByteReadable(s', root, a) {
      assert ByteWritable(s, root, a);
      assert Trans(s', root, a / PGSIZE) == Trans(s, root, a / PGSIZE);
    }
    if |dst| == |src| && Loaded(s', root, va, dst) {
      forall i | 0 <= i < |src| ensures dst[i] == src[i] {
        assert StoredAt(s, s', root, va, src, |src|, root, va + i);
        assert Byte(s', root, va + i) == Some(dst[i]);
      }
    }
  }

  /** Reading somewhere else, or in another address space, is not affected. */
  lemma CopyFrame(s: Mem, s': Mem, root: nat, va: nat, src: seq<int>, n: nat, r: nat, va': nat, dst: seq<int>)
    requires IsRoot(s, r) && Stored(s, s', root, va, src, n) && (r != root || va' + |dst| <= va || va + n <= va')
    ensures Loaded(s', r, va', dst) <==> Loaded(s, r, va', dst)
  {
    forall a: nat | va' <= a < va' + |dst| ensures Byte(s', r, a) == Byte(s, r, a) {
      assert StoredAt(s, s', root, va, src, n, r, a);
    }
  }

  // ---------------------------------------------------------------- growing and forking

  /** What a user can do with byte a. */
  ghost predicate SameAccess(s: Mem, r: nat, a: nat, t: Mem, q: nat, b: nat) {
    && Byte(t, q, b) == Byte(s, r, a)
    && (ByteReadable(t, q, b) <==> ByteReadable(s, r, a)) && (ByteWritable(t, q, b) <==> ByteWritable(s, r, a))
  }

  /** Byte a is zero, and a user can read it, and write or execute it as xperm says. */
  ghost predicate FreshByte(t: Mem, r: nat, a: nat, xperm: Perm) {
    && Byte(t, r, a) == Some(0) && ByteReadable(t, r, a) && (ByteWritable(t, r, a) <==> xperm.w)
    && var perm := Trans(t, r, a / PGSIZE).value.perm; perm.r && (perm.x <==> xperm.x)
  }

  /** From s to t, bytes lo .. hi - 1 of root appeared; every other byte of every address space is as before. */
  ghost predicate ZeroedAt(s: Mem, t: Mem, root: nat, lo: nat, hi: nat, xperm: Perm, r: nat, a: nat) {
    IsRoot(s, r) ==>
      if r == root && lo <= a < hi then FreshByte(t, r, a, xperm) else SameAccess(s, r, a, t, r, a)
  }

  ghost predicate Zeroed(s: Mem, t: Mem, root: nat, lo: nat, hi: nat, xperm: Perm) {
    forall r: nat, a: nat :: ZeroedAt(s, t, root, lo, hi, xperm, r, a)
  }

  lemma OnPage(a: nat, lo: nat, hi: nat)
    ensures lo * PGSIZE <= a < hi * PGSIZE <==> lo <= a / PGSIZE < hi
  {
  }

  lemma ZeroPageByte(t: Mem, root: nat, v: nat, xperm: Perm, a: nat)
    requires v == a / PGSIZE && v < MAXVPN && Trans(t, root, v).Some? && Trans(t, root, v).value.perm == UserPerm(xperm)
    requires Content(t, root, v) == Some(Zeros())
    ensures FreshByte(t, root, a, xperm)
  {
  }

  /** Equal pages give equal bytes. */
  lemma PageBytes(s: Mem, r: nat, t: Mem, q: nat, v: nat, a: nat)
    requires v == a / PGSIZE
    requires v < MAXVPN ==> Content(t, q, v) == Content(s, r, v) && (Trans(t, q, v).Some? <==> Trans(s, r, v).Some?)
    requires v < MAXVPN && Trans(s, r, v).Some? ==> Trans(t, q, v).value.perm == Trans(s, r, v).value.perm
    ensures SameAccess(s, r, a, t, q, a)
  {
  }

  lemma GrownZeroed(s: Mem, t: Mem, root: nat, lo: nat, hi: nat, xperm: Perm)
    requires IsRoot(s, root) && UserPages(s, root, lo) && |Frames(s)| < MAXVPN - 2 && lo <= hi
    requires Grown(s, t, root, lo, hi, ZeroPages(xperm)) == true
    ensures Zeroed(s, t, root, lo * PGSIZE, hi * PGSIZE, xperm)
  {
    GrownUserPages(s, t, root, lo, hi, ZeroPages(xperm));
    SizeFits(t, root, hi);
    var b, e := lo * PGSIZE, hi * PGSIZE;
    forall r: nat, a: nat ensures ZeroedAt(s, t, root, b, e, xperm, r, a) {
      var v := a / PGSIZE;
      OnPage(a, lo, hi);
      assert GrownAt(s, t, root, lo, hi, ZeroPages(xperm), r, v);
      if IsRoot(s, r) {
        if r == root && lo <= v < hi { ZeroPageByte(t, r, v, xperm, a); } else { PageBytes(s, r, t, r, v, a); }
      }
    }
  }

  /** From s to t, bytes 0 .. n - 1 of child became those of parent; every other byte is as before. */
  ghost predicate ForkedAt(s: Mem, t: Mem, parent: nat, child: nat, n: nat, r: nat, a: nat) {
    IsRoot(s, r) ==>
      if r == child && a < n then SameAccess(s, parent, a, t, child, a) else SameAccess(s, r, a, t, r, a)
  }

  ghost predicate Forked(s: Mem, t: Mem, parent: nat, child: nat, n: nat) {
    forall r: nat, a: nat :: ForkedAt(s, t, parent, child, n, r, a)
  }

  lemma ParentContent(s: Mem, parent: nat, size: nat, v: nat)
    requires Inv(s) && IsRoot(s, parent) && UserPages(s, parent, size) && v < size && v < MAXVPN - 2
    ensures Trans(s, parent, v).Some? && Content(s, parent, v).Some?
  {
    assert UserPage(s, parent, size, v);
    PageFrame(s, parent, v);
  }

  lemma GrownForked(s: Mem, t: Mem, parent: nat, child: nat, n: nat, size: nat)
    requires Inv(s) && IsRoot(s, parent) && UserPages(s, parent, size) && n <= size && |Frames(s)| < MAXVPN - 2
    requires Grown(s, t, child, 0, n, CopyOf(s, parent)) == true
    ensures Forked(s, t, parent, child, n * PGSIZE)
  {
    SizeFits(s, parent, size);
    var e := n * PGSIZE;
    forall r: nat, a: nat ensures ForkedAt(s, t, parent, child, e, r, a) {
      var v := a / PGSIZE;
      OnPage(a, 0, n);
      assert GrownAt(s, t, child, 0, n, CopyOf(s, parent), r, v);
      if IsRoot(s, r) {
        if r == child && v < n {
          ParentContent(s, parent, size, v);
          PageBytes(s, parent, t, child, v, a);
        } else {
          PageBytes(s, r, t, r, v, a);
        }
      }
    }
  }
}
