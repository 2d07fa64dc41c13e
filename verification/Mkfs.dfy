/** The image that mkfs/mkfs.c builds: the initial state of the file system. */
module Mkfs {
  import opened Common
  import opened FileBlocks
  import opened FileBytes
  import FileLog

  /** balloc(used) of mkfs: the first n bits set. */
  function Bits(size: nat, n: nat): (r: seq<bool>)
    ensures |r| == size
  {
    seq(size, b => b < n)
  }

  /** The blocks of a file are there exactly up to sz. */
  ghost predicate ExactAt(s: Fs, i: nat, sz: nat, bn: nat) {
    bn < MAXFILE ==> (At(s, SlotFor(i, bn)) != 0 <==> bn * BSIZE < sz)
  }

  ghost predicate Exact(s: Fs, i: nat, sz: nat) {
    forall bn: nat :: ExactAt(s, i, sz, bn)
  }

  ghost predicate ExactFile(s: Fs, i: nat) {
    i < |s.inodes| ==> s.inodes[i].size <= MAXFILE * BSIZE && Exact(s, i, s.inodes[i].size)
  }

  /** An image without holes, and without blocks beyond the ends of files. */
  ghost predicate ExactImage(s: Fs) {
    forall i: nat :: ExactFile(s, i)
  }

  lemma ExactIsWhole(s: Fs)
    requires ExactImage(s)
    ensures Whole(s)
  {
    forall i: nat ensures WholeFile(s, i) {
      assert ExactFile(s, i);
      if i < |s.inodes| {
        forall bn: nat ensures HasBlock(s, i, s.inodes[i].size, bn) { assert ExactAt(s, i, s.inodes[i].size, bn); }
      }
    }
  }

  /** The size that mkfs gives the root directory in the end. */
  function Rounded(off: nat): nat {
    (off / BSIZE + 1) * BSIZE
  }

  /** Rounding the size of the root directory leaves no hole exactly if the size was not a multiple of
      BSIZE (or the directory already filled the largest file). */
  lemma RootRounding(s: Fs, nmeta: nat, root: nat)
    requires Inv(s, nmeta) && ExactImage(s) && root < |s.inodes| && s.inodes[root].size < MAXFILE * BSIZE
    ensures Whole(Resized(s, root, Rounded(s.inodes[root].size))) <==> s.inodes[root].size % BSIZE != 0
  {
    var off := s.inodes[root].size;
    var s' := Resized(s, root, Rounded(off));
    ResizedSame(s, nmeta, root, Rounded(off));
    assert ExactFile(s, root);
    var bn := off / BSIZE;
    assert ExactAt(s, root, off, bn);
    if off % BSIZE == 0 {
      assert !HasBlock(s', root, Rounded(off), bn);
      assert !WholeFile(s', root);
    } else {
      forall i: nat ensures WholeFile(s', i) {
        assert ExactFile(s, i);
        if i < |s.inodes| {
          forall b: nat ensures HasBlock(s', i, s'.inodes[i].size, b) { assert ExactAt(s, i, s.inodes[i].size, b); }
        }
      }
    }
  }

  /** A root directory of 64 entries fills its block: rounding its size up makes a hole. */
  lemma RootOf64()
    ensures Inv(FileLog.Example(), 2) && FileLog.Example().inodes[0].size == 64 * 16
    ensures !Whole(Resized(FileLog.Example(), 0, Rounded(64 * 16)))
  {
    var s := FileLog.Example();
    FileLog.ExampleTorn();
    forall i: nat ensures ExactFile(s, i) {
      forall bn: nat ensures ExactAt(s, 0, BSIZE, bn) {}
    }
    RootRounding(s, 2, 0);
  }

  /** The block at off + tot is there now, and no other that was not. */
  lemma ExactMore(s: Fs, u: Fs, inum: nat, p: nat, bn: nat, p': nat)
    requires Exact(s, inum, p) && inum < |s.inodes| && Grew(s, u, inum, bn) && At(u, SlotFor(inum, bn)) != 0
    requires bn < MAXFILE && bn * BSIZE <= p < p' <= (bn + 1) * BSIZE
    ensures Exact(u, inum, p')
  {
    forall b: nat ensures ExactAt(u, inum, p', b) {
      assert ExactAt(s, inum, p, b);
      if b < MAXFILE { assert KeptSlot(s, u, inum, bn, SlotFor(inum, b)); }
    }
  }

  lemma ExactKept(u: Fs, v: Fs, inum: nat, p: nat)
    requires Exact(u, inum, p) && inum < |u.inodes| && forall t: Slot :: Valid(u, t) ==> At(v, t) == At(u, t)
    ensures Exact(v, inum, p)
  {
    forall b: nat ensures ExactAt(v, inum, p, b) {
      assert ExactAt(u, inum, p, b);
      assert b < MAXFILE ==> Valid(u, SlotFor(inum, b));
    }
  }

  /** The end of iappend(): the size is what was appended to. */
  lemma AppendDone(s: Fs, t: Fs, nmeta: nat, inum: nat, off: nat, p: seq<nat>)
    requires ExactImage(s) && Writing(s, t, nmeta, inum, off, p, |p|) && Exact(t, inum, off + |p|)
    requires off == s.inodes[inum].size
    requires off + |p| <= MAXFILE * BSIZE
    ensures var t' := Resized(t, inum, off + |p|);
            Inv(t', nmeta) && ExactImage(t') && Wrote(s, t', inum, off, p, |p|)
  {
    var z := off + |p|;
    var t' := Resized(t, inum, z);
    ResizedSame(t, nmeta, inum, z);
    forall i: nat ensures ExactFile(t', i) {
      assert ExactFile(s, i);
      if i < |s.inodes| {
        var zi := t'.inodes[i].size;
        forall bn: nat ensures ExactAt(t', i, zi, bn) {
          if i == inum {
            assert ExactAt(t, i, zi, bn);
          } else {
            assert ExactAt(s, i, zi, bn) && KeepsSlot(s, t, inum, SlotFor(i, bn));
          }
        }
      }
    }
    forall i: nat, bn: nat, o: nat ensures WroteAt(s, t', inum, off, p, |p|, i, bn, o) {
      assert WroteAt(s, t, inum, off, p, |p|, i, bn, o);
    }
  }

  /** How many blocks n bytes take. */
  function Blocks(n: nat): nat {
    (n + BSIZE - 1) / BSIZE
  }

  function HasIndirect(s: Fs, inum: nat): bool {
    At(s, Addr(inum, NDIRECT)) != 0
  }

  /** The blocks that iappend() of m bytes at off takes: those of the bytes, and the indirect block if it is not there
      yet and they reach beyond the direct blocks. */
  function Need(s: Fs, inum: nat, off: nat, m: nat): int {
    Blocks(off + m) - Blocks(off) + if !HasIndirect(s, inum) && Blocks(off + m) > NDIRECT then 1 else 0
  }

  /** The blocks that one round takes. */
  function Fresh(s: Fs, inum: nat, bn: nat): nat {
    (if At(s, SlotFor(inum, bn)) == 0 then 1 else 0) + if bn >= NDIRECT && !HasIndirect(s, inum) then 1 else 0
  }

  lemma RoundBlocks(off: nat, n: nat, tot: nat, n1: nat, bn: nat)
    requires tot < n && bn == (off + tot) / BSIZE && 0 < n1 <= n - tot && off + tot + n1 <= (bn + 1) * BSIZE
    ensures Blocks(off + tot + n1) == bn + 1 <= Blocks(off + n)
    ensures Blocks(off + tot) == bn + if off + tot == bn * BSIZE then 0 else 1
  {
  }

  /** A file with a block beyond the direct ones has an indirect block. */
  lemma ExactIndirect(s: Fs, inum: nat, p: nat)
    requires Exact(s, inum, p) && p <= MAXFILE * BSIZE && Blocks(p) > NDIRECT
    ensures HasIndirect(s, inum)
  {
    assert ExactAt(s, inum, p, Blocks(p) - 1);
  }

  /** What a round takes is what the bytes need. */
  lemma RoundNeeds(s: Fs, t: Fs, inum: nat, off: nat, n: nat, tot: nat, bn: nat)
    requires tot < n && bn == (off + tot) / BSIZE && off + n <= MAXFILE * BSIZE
    requires Exact(t, inum, off + tot) == true
    requires HasIndirect(t, inum) <==> HasIndirect(s, inum) || Blocks(off + tot) > NDIRECT
    ensures bn < MAXFILE && 0 < Piece(off, n, tot) <= n - tot
    ensures Need(s, inum, off, tot) + Fresh(t, inum, bn) == Need(s, inum, off, tot + Piece(off, n, tot))
    ensures Need(s, inum, off, tot + Piece(off, n, tot)) <= Need(s, inum, off, n)
    ensures HasIndirect(t, inum) || bn >= NDIRECT
       <==> HasIndirect(s, inum) || Blocks(off + (tot + Piece(off, n, tot))) > NDIRECT
  {
    var n1 := Piece(off, n, tot);
    RoundBlocks(off, n, tot, n1, bn);
    assert ExactAt(t, inum, off + tot, bn);
  }

  /** The bytes of a round: to the end of the block or of the data. */
  function Piece(off: nat, n: nat, tot: nat): nat
    requires tot < n
  {
    if n - tot < BSIZE - (off + tot) % BSIZE then n - tot else BSIZE - (off + tot) % BSIZE
  }

  /** A round of iappend(): from t, with the block made in u. */
  lemma AppendStore(s: Fs, t: Fs, u: Fs, nmeta: nat, inum: nat, off: nat, p: seq<nat>, tot: nat, bn: nat, at: nat,
                    n1: nat)
    requires Writing(s, t, nmeta, inum, off, p, tot) && Exact(t, inum, off + tot) && inum < |s.inodes|
    requires Inv(u, nmeta) && Grew(t, u, inum, bn) && At(u, SlotFor(inum, bn)) != 0 && bn < MAXFILE
    requires off + tot == bn * BSIZE + at && 0 < n1 && at + n1 <= BSIZE && tot + n1 <= |p|
    ensures var x := At(u, SlotFor(inum, bn));
            && nmeta <= x < |u.disk| && u.used[x] && |u.disk[x]| == BSIZE
            && var v := WithBlock(u, x, Splice(u.disk[x], at, p[tot..tot + n1]));
               && Writing(s, v, nmeta, inum, off, p, tot + n1) && Exact(v, inum, off + tot + n1)
               && (HasIndirect(v, inum) <==> HasIndirect(u, inum))
  {
    WroteThenGrew(s, t, u, inum, off, p, tot, bn);
    GrewKeepsSlots(s, t, u, inum, bn);
    ExactMore(t, u, inum, off + tot, bn, off + tot + n1);
    HeldBlock(u, nmeta, SlotFor(inum, bn));
    WroteMore(s, u, nmeta, inum, off, p, tot, n1, bn, at);
    var x := At(u, SlotFor(inum, bn));
    var v := WithBlock(u, x, Splice(u.disk[x], at, p[tot..tot + n1]));
    StoreKeepsSlots(s, u, nmeta, inum, bn, v.disk[x]);
    ExactKept(u, v, inum, off + tot + n1);
    assert FileBlocks.Valid(u, Addr(inum, NDIRECT));
  }

  ghost predicate ZerosFrom(disk: seq<seq<nat>>, n: nat) {
    forall b :: n <= b < |disk| ==> disk[b] == Zeros()
  }

  class Image {
    const nmeta: nat
    var disk: seq<seq<nat>>
    var inodes: seq<Inode>
    var freeblock: nat
    ghost var owner: map<nat, Slot>

    /** The file system, with the bitmap that balloc() will write. */
    ghost function St(): Fs
      reads this
    {
      Fs(Bits(|disk|, freeblock), disk, inodes, owner)
    }

    ghost predicate Valid()
      reads this
    {
      Inv(St(), nmeta) && ExactImage(St()) && nmeta <= freeblock <= |disk| && ZerosFrom(disk, freeblock)
    }

    /** All blocks zero, all inodes free. */
    constructor(size: nat, nmeta: nat, ninodes: nat)
      requires 0 < nmeta <= size
      ensures Valid() && |disk| == size && this.nmeta == nmeta && |inodes| == ninodes && freeblock == nmeta
    {
      this.nmeta := nmeta;
      disk := seq(size, _ => Zeros());
      inodes := seq(ninodes, _ => Inode(0, NoAddrs()));
      freeblock := nmeta;
      owner := map[];
      new;
      forall i: nat ensures ExactFile(St(), i) {
        forall bn: nat ensures ExactAt(St(), i, 0, bn) {}
      }
    }

    /** The next block goes into an empty slot. */
    method Take(slot: Slot)
      requires Inv(St(), nmeta) && FileBlocks.Valid(St(), slot) && At(St(), slot) == 0
      requires nmeta <= freeblock < |disk| && ZerosFrom(disk, freeblock)
      requires slot.Entry? ==> At(St(), Addr(slot.inum, NDIRECT)) != 0
      modifies this`disk, this`inodes, this`freeblock, this`owner
      ensures CanAttach(old(St()), nmeta, slot, old(freeblock)) && Attach.requires(old(St()), slot, old(freeblock))
      ensures St() == Attach(old(St()), slot, old(freeblock)) && freeblock == old(freeblock) + 1
      ensures ZerosFrom(disk, freeblock)
    {
      ghost var s := St();
      var b := freeblock;
      CanAttachFacts(s, nmeta, slot, b);
      match slot {
        case Addr(i, k) =>
          inodes := inodes[i := inodes[i].(addrs := inodes[i].addrs[k := b])];
        case Entry(i, j) =>
          var a := inodes[i].addrs[NDIRECT];
          assert BitOk(s, nmeta, a) && SlotOk(s, Addr(i, NDIRECT));
          disk := disk[a := Put32(disk[a], j, b)];
      }
      freeblock := b + 1;
      owner := owner[b := slot];
      assert s.disk[b := Zeros()] == s.disk;
      assert s.used[b := true] == Bits(|disk|, freeblock);
    }

    /** The block bn of a file, made if need be. */
    method MapBlock(inum: nat, bn: nat) returns (x: nat)
      requires Inv(St(), nmeta) && inum < |inodes| && bn < MAXFILE
      requires nmeta <= freeblock && freeblock + Fresh(St(), inum, bn) <= |disk| && ZerosFrom(disk, freeblock)
      modifies this`disk, this`inodes, this`freeblock, this`owner
      ensures Inv(St(), nmeta) && Grew(old(St()), St(), inum, bn) && x == At(St(), SlotFor(inum, bn)) != 0
      ensures ZerosFrom(disk, freeblock) && freeblock == old(freeblock) + Fresh(old(St()), inum, bn)
      ensures HasIndirect(St(), inum) <==> HasIndirect(old(St()), inum) || bn >= NDIRECT
    {
      ghost var s := St();
      if bn < NDIRECT {
        x := inodes[inum].addrs[bn];
        if x == 0 {
          x := freeblock;
          Take(Addr(inum, bn));
          AttachGrew(s, nmeta, Addr(inum, bn), x, bn);
          AttachAt(s, nmeta, Addr(inum, bn), x, Addr(inum, NDIRECT));
        }
      } else {
        var a := inodes[inum].addrs[NDIRECT];
        if a == 0 {
          a := freeblock;
          Take(Addr(inum, NDIRECT));
          AttachGrew(s, nmeta, Addr(inum, NDIRECT), a, bn);
          AttachAt(s, nmeta, Addr(inum, NDIRECT), a, Entry(inum, bn - NDIRECT));
        }
        ghost var t := St();
        HeldBlock(t, nmeta, Addr(inum, NDIRECT));
        x := Get32(disk[a], bn - NDIRECT);
        if x == 0 {
          x := freeblock;
          Take(Entry(inum, bn - NDIRECT));
          AttachGrew(t, nmeta, Entry(inum, bn - NDIRECT), x, bn);
          GrewTrans(s, t, St(), inum, bn);
          assert KeptSlot(t, St(), inum, bn, Addr(inum, NDIRECT));
        }
      }
    }

    /** One round of iappend(). */
    method AppendNext(inum: nat, off: nat, p: seq<nat>, tot: nat, bn: nat, ghost s: Fs) returns (n1: nat)
      requires Writing(s, St(), nmeta, inum, off, p, tot) == true && Exact(St(), inum, off + tot) == true
      requires inum < |inodes| && tot < |p| && off + |p| <= MAXFILE * BSIZE && bn == (off + tot) / BSIZE
      requires nmeta <= freeblock && freeblock + Fresh(St(), inum, bn) <= |disk| && ZerosFrom(disk, freeblock)
      modifies this`disk, this`inodes, this`freeblock, this`owner
      ensures n1 == Piece(off, |p|, tot) && |disk| == |old(disk)| && |inodes| == |old(inodes)|
      ensures Writing(s, St(), nmeta, inum, off, p, tot + n1) == true && Exact(St(), inum, off + tot + n1) == true
      ensures ZerosFrom(disk, freeblock) && freeblock == old(freeblock) + Fresh(old(St()), inum, bn)
      ensures HasIndirect(St(), inum) <==> HasIndirect(old(St()), inum) || bn >= NDIRECT
    {
      ghost var t := St();
      var at := (off + tot) % BSIZE;
      var x := MapBlock(inum, bn);
      ghost var u := St();
      n1 := Piece(off, |p|, tot);
      AppendStore(s, t, u, nmeta, inum, off, p, tot, bn, at, n1);
      disk := disk[x := Splice(disk[x], at, p[tot..tot + n1])];
      assert St() == WithBlock(u, x, disk[x]);
    }

    /** iappend(): the bytes follow the end of the file, and nothing else changes.  It takes exactly the blocks that it
        needs. */
    method IAppend(inum: nat, p: seq<nat>)
      requires Valid() && inum < |inodes| && inodes[inum].size + |p| <= MAXFILE * BSIZE
      requires freeblock + Need(St(), inum, inodes[inum].size, |p|) <= |disk|
      modifies this`disk, this`inodes, this`freeblock, this`owner
      ensures Valid() && Wrote(old(St()), St(), inum, old(inodes)[inum].size, p, |p|)
      ensures inodes[inum].size == old(inodes)[inum].size + |p|
      ensures freeblock == old(freeblock) + Need(old(St()), inum, old(inodes)[inum].size, |p|)
    {
      ghost var s, fb := St(), freeblock;
      var off, tot := inodes[inum].size, 0;
      WroteNothing(s, inum, off, p);
      assert ExactFile(s, inum);
      if Blocks(off) > NDIRECT { ExactIndirect(s, inum, off); }
      while tot < |p|
        invariant tot <= |p| && |disk| == |s.disk| && |inodes| == |s.inodes|
        invariant Writing(s, St(), nmeta, inum, off, p, tot) == true
        invariant Exact(St(), inum, off + tot) == true
        invariant nmeta <= freeblock == fb + Need(s, inum, off, tot) && ZerosFrom(disk, freeblock)
        invariant freeblock <= |disk|
        invariant HasIndirect(St(), inum) <==> HasIndirect(s, inum) || Blocks(off + tot) > NDIRECT
      {
        ghost var t := St();
        var bn := (off + tot) / BSIZE;
        RoundNeeds(s, t, inum, off, |p|, tot, bn);
        var n1 := AppendNext(inum, off, p, tot, bn, s);
        tot := tot + n1;
      }
      AppendDone(s, St(), nmeta, inum, off, p);
      inodes := inodes[inum := inodes[inum].(size := off + |p|)];
    }
  }
}
