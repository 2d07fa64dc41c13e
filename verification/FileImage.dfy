/** Inodes and the bitmap as they lie in disk blocks: iupdate(), the bit operations of balloc() and bfree(), and what
    the block numbers IBLOCK and BBLOCK are for.  With that, "everything is logged" means what it should: a commit,
    which puts the logged blocks in place and no others, turns a disk that holds the old state into one that holds the
    new. */
module FileImage {
  import opened Common
  import opened FileBlocks
  import opened FileBytes
  import opened FileLog

  const WORDS := 16         // 32-bit words of a struct dinode: types and links, size, addresses

  // ---------------------------------------------------------------- bits

  predicate Bit(v: nat, k: nat) {
    if k == 0 then v % 2 == 1 else Bit(v / 2, k - 1)
  }

  /** v |= 1 << k, or v &= ~(1 << k). */
  function WithBit(v: nat, k: nat, x: bool): nat {
    if k == 0 then v / 2 * 2 + (if x then 1 else 0) else v % 2 + 2 * WithBit(v / 2, k - 1, x)
  }

  lemma {:induction false} BitOfWithBit(v: nat, k: nat, x: bool, j: nat)
    ensures Bit(WithBit(v, k, x), j) <==> if j == k then x else Bit(v, j)
    decreases k
  {
    var w := WithBit(v, k, x);
    if k == 0 {
      assert w / 2 == v / 2;
    } else {
      var u := WithBit(v / 2, k - 1, x);
      assert w / 2 == u && w % 2 == v % 2;
      if j > 0 { BitOfWithBit(v / 2, k - 1, x, j - 1); }
    }
  }

  /** Bit bi of a bitmap block. */
  predicate ReadBit(b: seq<nat>, bi: nat)
    requires |b| == BSIZE && bi < BPB
  {
    Bit(b[bi / 8], bi % 8)
  }

  function WriteBit(b: seq<nat>, bi: nat, x: bool): (r: seq<nat>)
    requires |b| == BSIZE && bi < BPB
    ensures |r| == BSIZE
  {
    b[bi / 8 := WithBit(b[bi / 8], bi % 8, x)]
  }

  lemma ReadWriteBit(b: seq<nat>, bi: nat, x: bool, bj: nat)
    requires |b| == BSIZE && bi < BPB && bj < BPB
    ensures ReadBit(WriteBit(b, bi, x), bj) <==> if bj == bi then x else ReadBit(b, bj)
  {
    BitOfWithBit(b[bi / 8], bi % 8, x, bj % 8);
  }

  // ---------------------------------------------------------------- inodes

  /** The k-th struct dinode of a block. */
  function ReadInode(b: seq<nat>, k: nat): Inode
    requires |b| == BSIZE && k < IPB
  {
    Inode(Get32(b, WORDS * k + 2),
          seq<nat>(NDIRECT + 1, j requires 0 <= j < NDIRECT + 1 => Get32(b, WORDS * k + 3 + j)))
  }

  /** memmove() of the first n addresses. */
  function PutAddrs(b: seq<nat>, k: nat, addrs: seq<nat>, n: nat): (r: seq<nat>)
    requires |b| == BSIZE && k < IPB && |addrs| == NDIRECT + 1 && n <= NDIRECT + 1
    ensures |r| == BSIZE
  {
    if n == 0 then b else Put32(PutAddrs(b, k, addrs, n - 1), WORDS * k + 3 + (n - 1), addrs[n - 1])
  }

  /** iupdate(), as far as size and addresses go. */
  function WriteInode(b: seq<nat>, k: nat, ino: Inode): (r: seq<nat>)
    requires |b| == BSIZE && k < IPB && |ino.addrs| == NDIRECT + 1
    ensures |r| == BSIZE
  {
    PutAddrs(Put32(b, WORDS * k + 2, ino.size), k, ino.addrs, NDIRECT + 1)
  }

  lemma {:induction false} PutAddrsAt(b: seq<nat>, k: nat, addrs: seq<nat>, n: nat, w: nat)
    requires |b| == BSIZE && k < IPB && |addrs| == NDIRECT + 1 && n <= NDIRECT + 1 && w < NINDIRECT
    ensures Get32(PutAddrs(b, k, addrs, n), w) ==
              if WORDS * k + 3 <= w < WORDS * k + 3 + n then addrs[w - (WORDS * k + 3)] else Get32(b, w)
    decreases n
  {
    if n > 0 {
      PutAddrsAt(b, k, addrs, n - 1, w);
      GetPut32(PutAddrs(b, k, addrs, n - 1), WORDS * k + 3 + (n - 1), addrs[n - 1], w);
    }
  }

  /** Each word of a block after iupdate(). */
  lemma WriteInodeAt(b: seq<nat>, k: nat, ino: Inode, w: nat)
    requires |b| == BSIZE && k < IPB && |ino.addrs| == NDIRECT + 1 && w < NINDIRECT
    ensures Get32(WriteInode(b, k, ino), w) ==
              if w == WORDS * k + 2 then ino.size
              else if WORDS * k + 3 <= w < WORDS * k + WORDS then ino.addrs[w - (WORDS * k + 3)]
              else Get32(b, w)
  {
    GetPut32(b, WORDS * k + 2, ino.size, w);
    PutAddrsAt(Put32(b, WORDS * k + 2, ino.size), k, ino.addrs, NDIRECT + 1, w);
  }

  /** An inode reads back as it was written, and the others of the block do not change. */
  lemma ReadWriteInode(b: seq<nat>, k: nat, ino: Inode, j: nat)
    requires |b| == BSIZE && k < IPB && |ino.addrs| == NDIRECT + 1 && j < IPB
    ensures ReadInode(WriteInode(b, k, ino), j) == if j == k then ino else ReadInode(b, j)
  {
    var r := WriteInode(b, k, ino);
    WriteInodeAt(b, k, ino, WORDS * j + 2);
    forall n | 0 <= n < NDIRECT + 1
      ensures ReadInode(r, j).addrs[n] == if j == k then ino.addrs[n] else ReadInode(b, j).addrs[n]
    {
      WriteInodeAt(b, k, ino, WORDS * j + 3 + n);
    }
  }

  // ---------------------------------------------------------------- a disk that holds a state

  /** Where things lie: inodes, then bitmap, then data blocks. */
  ghost predicate Placed(sb: Super, nmeta: nat, s: Fs) {
    && |s.used| == |s.disk| && Laid(sb, nmeta, |s.disk|, |s.inodes|) && nmeta <= |s.disk|
    && (forall i :: 0 <= i < |s.inodes| ==> IBlock(sb, i) < sb.bmapstart)
  }

  /** Every place of every block of inodes or bits is used. */
  lemma Packed(sb: Super, n: nat, k: nat)
    ensures k < IPB ==> IBlock(sb, IPB * n + k) == sb.inodestart + n && (IPB * n + k) % IPB == k
    ensures k < BPB ==> BBlock(sb, BPB * n + k) == sb.bmapstart + n && (BPB * n + k) % BPB == k
  {
    assert k < IPB ==> (IPB * n + k) / IPB == n;
    assert k < BPB ==> (BPB * n + k) / BPB == n;
  }

  ghost predicate HoldsInode(sb: Super, img: seq<seq<nat>>, s: Fs, i: nat) {
    i < |s.inodes| ==>
      && IBlock(sb, i) < |img| && |img[IBlock(sb, i)]| == BSIZE && |s.inodes[i].addrs| == NDIRECT + 1
      && ReadInode(img[IBlock(sb, i)], i % IPB) == s.inodes[i]
  }

  ghost predicate HoldsBit(sb: Super, img: seq<seq<nat>>, s: Fs, b: nat) {
    b < |s.used| ==>
      BBlock(sb, b) < |img| && |img[BBlock(sb, b)]| == BSIZE && (ReadBit(img[BBlock(sb, b)], b % BPB) <==> s.used[b])
  }

  ghost predicate HoldsData(img: seq<seq<nat>>, s: Fs, nmeta: nat, b: nat) {
    nmeta <= b < |s.disk| ==> b < |img| && img[b] == s.disk[b]
  }

  /** The blocks img are a disk with state s. */
  ghost predicate Holds(sb: Super, img: seq<seq<nat>>, s: Fs, nmeta: nat) {
    && |img| == |s.disk|
    && (forall i: nat :: HoldsInode(sb, img, s, i))
    && (forall b: nat :: HoldsBit(sb, img, s, b))
    && (forall b: nat :: HoldsData(img, s, nmeta, b))
  }

  /** iupdate() writes inode i. */
  lemma InodeWritten(sb: Super, img: seq<seq<nat>>, s: Fs, nmeta: nat, i: nat, ino: Inode)
    requires Placed(sb, nmeta, s) && Holds(sb, img, s, nmeta) && i < |s.inodes| && |ino.addrs| == NDIRECT + 1
    ensures IBlock(sb, i) < |img| && |img[IBlock(sb, i)]| == BSIZE
    ensures Holds(sb, img[IBlock(sb, i) := WriteInode(img[IBlock(sb, i)], i % IPB, ino)],
                  s.(inodes := s.inodes[i := ino]), nmeta)
  {
    assert HoldsInode(sb, img, s, i);
    var blk := IBlock(sb, i);
    var img', s' := img[blk := WriteInode(img[blk], i % IPB, ino)], s.(inodes := s.inodes[i := ino]);
    assert blk < sb.bmapstart && blk < nmeta;
    forall j: nat ensures HoldsInode(sb, img', s', j) {
      assert HoldsInode(sb, img, s, j);
      if j < |s.inodes| && IBlock(sb, j) == blk { ReadWriteInode(img[blk], i % IPB, ino, j % IPB); }
    }
    forall b: nat ensures HoldsBit(sb, img', s', b) { assert HoldsBit(sb, img, s, b); }
    forall b: nat ensures HoldsData(img', s', nmeta, b) { assert HoldsData(img, s, nmeta, b); }
  }

  /** balloc() or bfree() changes the bit of block c. */
  lemma BitWritten(sb: Super, img: seq<seq<nat>>, s: Fs, nmeta: nat, c: nat, x: bool)
    requires Placed(sb, nmeta, s) && Holds(sb, img, s, nmeta) && c < |s.used|
    ensures BBlock(sb, c) < |img| && |img[BBlock(sb, c)]| == BSIZE
    ensures Holds(sb, img[BBlock(sb, c) := WriteBit(img[BBlock(sb, c)], c % BPB, x)], s.(used := s.used[c := x]), nmeta)
  {
    assert HoldsBit(sb, img, s, c);
    var blk := BBlock(sb, c);
    var img', s' := img[blk := WriteBit(img[blk], c % BPB, x)], s.(used := s.used[c := x]);
    assert blk < nmeta;
    forall j: nat ensures HoldsInode(sb, img', s', j) { assert HoldsInode(sb, img, s, j); }
    forall b: nat ensures HoldsBit(sb, img', s', b) {
      assert HoldsBit(sb, img, s, b);
      if b < |s.used| && BBlock(sb, b) == blk { ReadWriteBit(img[blk], c % BPB, x, b % BPB); }
    }
    forall b: nat ensures HoldsData(img', s', nmeta, b) { assert HoldsData(img, s, nmeta, b); }
  }

  /** What a commit makes of a disk: the logged blocks are as in the cache. */
  function Installed(img: seq<seq<nat>>, cache: seq<seq<nat>>, logged: set<nat>): (r: seq<seq<nat>>)
    requires |cache| == |img|
    ensures |r| == |img|
  {
    seq(|img|, b requires 0 <= b < |img| => if b in logged then cache[b] else img[b])
  }

  /** The states have the same shape, and blocks below nmeta stand for themselves only. */
  ghost predicate SameShape(s: Fs, t: Fs, nmeta: nat) {
    && |t.disk| == |s.disk| && |t.used| == |s.used| && |t.inodes| == |s.inodes| && nmeta <= |s.disk|
    && (forall b :: 0 <= b < nmeta ==> t.disk[b] == s.disk[b])
  }

  lemma InstalledHolds(sb: Super, img: seq<seq<nat>>, cache: seq<seq<nat>>, s: Fs, t: Fs, nmeta: nat, logged: set<nat>)
    requires Holds(sb, img, s, nmeta) && Holds(sb, cache, t, nmeta) && SameShape(s, t, nmeta)
    requires AllLogged(sb, s, t, logged)
    ensures Holds(sb, Installed(img, cache, logged), t, nmeta)
  {
    var r := Installed(img, cache, logged);
    forall i: nat ensures HoldsInode(sb, r, t, i) { assert HoldsInode(sb, img, s, i) && HoldsInode(sb, cache, t, i); }
    forall b: nat ensures HoldsBit(sb, r, t, b) { assert HoldsBit(sb, img, s, b) && HoldsBit(sb, cache, t, b); }
    forall b: nat ensures HoldsData(r, t, nmeta, b) {
      assert HoldsData(img, s, nmeta, b) && HoldsData(cache, t, nmeta, b);
    }
  }

  lemma InstalledNeeds(sb: Super, img: seq<seq<nat>>, cache: seq<seq<nat>>, s: Fs, t: Fs, nmeta: nat, logged: set<nat>)
    requires Holds(sb, img, s, nmeta) && Holds(sb, cache, t, nmeta) && SameShape(s, t, nmeta)
    requires Holds(sb, Installed(img, cache, logged), t, nmeta)
    ensures AllLogged(sb, s, t, logged)
  {
    var r := Installed(img, cache, logged);
    forall i | 0 <= i < |s.inodes| && t.inodes[i] != s.inodes[i] ensures IBlock(sb, i) in logged {
      assert HoldsInode(sb, img, s, i) && HoldsInode(sb, r, t, i);
    }
    forall b | 0 <= b < |s.used| && t.used[b] != s.used[b] ensures BBlock(sb, b) in logged {
      assert HoldsBit(sb, img, s, b) && HoldsBit(sb, r, t, b);
    }
    forall b | 0 <= b < |s.disk| && t.disk[b] != s.disk[b] ensures b in logged {
      assert HoldsData(img, s, nmeta, b) && HoldsData(r, t, nmeta, b);
    }
  }

  /** Everything that changed from s to t is logged if and only if putting the logged blocks of the cache, which holds
      t, in place on a disk that holds s makes it hold t. */
  lemma AllLoggedIff(sb: Super, img: seq<seq<nat>>, cache: seq<seq<nat>>, s: Fs, t: Fs, nmeta: nat, logged: set<nat>)
    requires Holds(sb, img, s, nmeta) && Holds(sb, cache, t, nmeta) && SameShape(s, t, nmeta)
    ensures AllLogged(sb, s, t, logged) <==> Holds(sb, Installed(img, cache, logged), t, nmeta)
  {
    if AllLogged(sb, s, t, logged) { InstalledHolds(sb, img, cache, s, t, nmeta, logged); }
    if Holds(sb, Installed(img, cache, logged), t, nmeta) { InstalledNeeds(sb, img, cache, s, t, nmeta, logged); }
  }
}
