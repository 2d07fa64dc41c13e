/** The blocks of files: the free bitmap, the block numbers in inodes and indirect blocks, and the bytes
    of a file that they stand for (kernel/fs.c:52-94, 335-486).

    An inode here is its size and its addresses; the copy in memory and the one on disk are one. */
module FileBlocks {
  const BSIZE := 1024
  const NDIRECT := 12
  const NINDIRECT := 256
  const MAXFILE := 268      // NDIRECT + NINDIRECT
  const BPB := 8192         // bitmap bits per block

  datatype Inode = Inode(size: nat, addrs: seq<nat>)

  /** A place that can hold a block number: one of the NDIRECT + 1 addresses of an inode (the last is
      that of the indirect block), or an entry of an indirect block. */
  datatype Slot = Addr(inum: nat, k: nat) | Entry(inum: nat, j: nat)

  /** owner names, for each data block in use, the one slot that holds its number. */
  datatype Fs = Fs(used: seq<bool>, disk: seq<seq<nat>>, inodes: seq<Inode>, owner: map<nat, Slot>)

  // ---------------------------------------------------------------- 32-bit entries of a block

  function Get32(b: seq<nat>, j: nat): nat
    requires |b| == BSIZE && j < NINDIRECT
  {
    b[4 * j] + 0x100 * b[4 * j + 1] + 0x1_0000 * b[4 * j + 2] + 0x100_0000 * b[4 * j + 3]
  }

  function Put32(b: seq<nat>, j: nat, x: nat): (r: seq<nat>)
    requires |b| == BSIZE && j < NINDIRECT
    ensures |r| == BSIZE
  {
    b[4 * j := x % 0x100][4 * j + 1 := x / 0x100 % 0x100]
     [4 * j + 2 := x / 0x1_0000 % 0x100][4 * j + 3 := x / 0x100_0000]
  }

  lemma GetPut32(b: seq<nat>, j: nat, x: nat, j': nat)
    requires |b| == BSIZE && j < NINDIRECT && j' < NINDIRECT
    ensures Get32(Put32(b, j, x), j') == if j' == j then x else Get32(b, j')
  {
    if j' == j {
      var y := x / 0x100;
      assert x / 0x1_0000 == y / 0x100 && x / 0x100_0000 == y / 0x100 / 0x100;
    }
  }

  function Zeros(): (b: seq<nat>)
    ensures |b| == BSIZE && (forall i :: 0 <= i < BSIZE ==> b[i] == 0)
  {
    seq(BSIZE, _ => 0)
  }

  // ---------------------------------------------------------------- slots

  predicate Valid(s: Fs, slot: Slot) {
    slot.inum < |s.inodes| && match slot case Addr(_, k) => k <= NDIRECT case Entry(_, j) => j < NINDIRECT
  }

  /** Sizes of the tables; blocks below nmeta hold no file data. */
  ghost predicate Shape(s: Fs, nmeta: nat) {
    && 0 < nmeta <= |s.disk| == |s.used|
    && (forall b :: 0 <= b < |s.disk| ==> |s.disk[b]| == BSIZE)
    && (forall i :: 0 <= i < |s.inodes| ==> |s.inodes[i].addrs| == NDIRECT + 1)
  }

  function AddrAt(s: Fs, i: nat, k: nat): nat {
    if i < |s.inodes| && k < |s.inodes[i].addrs| then s.inodes[i].addrs[k] else 0
  }

  /** The block number in a slot, or 0. */
  function At(s: Fs, slot: Slot): nat {
    match slot
    case Addr(i, k) => AddrAt(s, i, k)
    case Entry(i, j) =>
      var a := AddrAt(s, i, NDIRECT);
      if 0 < a < |s.disk| && |s.disk[a]| == BSIZE && j < NINDIRECT then Get32(s.disk[a], j) else 0
  }

  ghost predicate SlotOk(s: Fs, slot: Slot) {
    Valid(s, slot) && At(s, slot) != 0 ==> At(s, slot) in s.owner && s.owner[At(s, slot)] == slot
  }

  ghost predicate OwnOk(s: Fs, nmeta: nat, b: nat) {
    b in s.owner ==> nmeta <= b < |s.disk| && Valid(s, s.owner[b]) && At(s, s.owner[b]) == b
  }

  ghost predicate BitOk(s: Fs, nmeta: nat, b: nat) {
    b < |s.used| ==> (s.used[b] <==> b < nmeta || b in s.owner)
  }

  ghost predicate Inv(s: Fs, nmeta: nat) {
    && Shape(s, nmeta)
    && (forall slot :: SlotOk(s, slot))
    && (forall b :: OwnOk(s, nmeta, b))
    && (forall b :: BitOk(s, nmeta, b))
  }

  /** The bitmap is exact: a bit is set for the metadata blocks and for the blocks that some slot holds,
      and no block is held twice. */
  lemma BitmapIsExact(s: Fs, nmeta: nat, b: nat)
    requires Inv(s, nmeta) && b < |s.used|
    ensures s.used[b] <==> b < nmeta || exists slot :: Valid(s, slot) && At(s, slot) == b
    ensures forall t, u :: Valid(s, t) && Valid(s, u) && At(s, t) == b && At(s, u) == b && b != 0 ==> t == u
  {
    assert BitOk(s, nmeta, b) && OwnOk(s, nmeta, b);
    forall slot | Valid(s, slot) && At(s, slot) == b && b != 0 ensures b in s.owner && s.owner[b] == slot {
      assert SlotOk(s, slot);
    }
    if b in s.owner { assert Valid(s, s.owner[b]) && At(s, s.owner[b]) == b; }
  }

  lemma HeldBlock(s: Fs, nmeta: nat, slot: Slot)
    requires Inv(s, nmeta) && Valid(s, slot) && At(s, slot) != 0
    ensures var b := At(s, slot);
            nmeta <= b < |s.disk| && s.used[b] && b in s.owner && s.owner[b] == slot && |s.disk[b]| == BSIZE
  {
    assert SlotOk(s, slot) && OwnOk(s, nmeta, At(s, slot)) && BitOk(s, nmeta, At(s, slot));
  }

  // ---------------------------------------------------------------- taking a new block

  /** b is taken from the bitmap, zeroed, and its number is put into an empty slot. */
  function Attach(s: Fs, slot: Slot, b: nat): Fs
    requires Valid(s, slot) && b < |s.disk| == |s.used| && |s.inodes[slot.inum].addrs| == NDIRECT + 1
    requires slot.Entry? ==>
               var a := At(s, Addr(slot.inum, NDIRECT)); 0 < a < |s.disk| && |s.disk[a]| == BSIZE && a != b
  {
    var disk := s.disk[b := Zeros()];
    var ip := s.inodes[slot.inum];
    Fs(s.used[b := true],
       if slot.Entry? then disk[ip.addrs[NDIRECT] := Put32(disk[ip.addrs[NDIRECT]], slot.j, b)] else disk,
       if slot.Addr? then s.inodes[slot.inum := ip.(addrs := ip.addrs[slot.k := b])] else s.inodes,
       s.owner[b := slot])
  }

  /** Slot can take a new block b. */
  ghost predicate CanAttach(s: Fs, nmeta: nat, slot: Slot, b: nat) {
    && Inv(s, nmeta) && Valid(s, slot) && At(s, slot) == 0
    && nmeta <= b < |s.disk| && !s.used[b]
    && (slot.Entry? ==> At(s, Addr(slot.inum, NDIRECT)) != 0)
  }

  lemma CanAttachFacts(s: Fs, nmeta: nat, slot: Slot, b: nat)
    requires CanAttach(s, nmeta, slot, b)
    ensures |s.inodes[slot.inum].addrs| == NDIRECT + 1 && b !in s.owner
    ensures slot.Entry? ==> var a := At(s, Addr(slot.inum, NDIRECT));
              0 < a < |s.disk| && |s.disk[a]| == BSIZE && a != b && a in s.owner
                && s.owner[a] == Addr(slot.inum, NDIRECT)
  {
    assert BitOk(s, nmeta, b);
    if slot.Entry? { HeldBlock(s, nmeta, Addr(slot.inum, NDIRECT)); }
  }

  /** No other slot changes; in particular a new indirect block starts out without entries. */
  lemma AttachAt(s: Fs, nmeta: nat, slot: Slot, b: nat, t: Slot)
    requires CanAttach(s, nmeta, slot, b) && Valid(s, t)
    ensures Attach.requires(s, slot, b)
    ensures At(Attach(s, slot, b), t) == if t == slot then b else At(s, t)
  {
    CanAttachFacts(s, nmeta, slot, b);
    var s' := Attach(s, slot, b);
    if t.Entry? {
      var u := Addr(t.inum, NDIRECT);
      if At(s, u) != 0 {
        HeldBlock(s, nmeta, u);
        if slot.Entry? {
          HeldBlock(s, nmeta, Addr(slot.inum, NDIRECT));
          if slot.inum == t.inum { GetPut32(s.disk[At(s, u)], slot.j, b, t.j); }
        }
      }
    }
  }

  lemma AttachInv(s: Fs, nmeta: nat, slot: Slot, b: nat)
    requires CanAttach(s, nmeta, slot, b)
    ensures Attach.requires(s, slot, b) && Inv(Attach(s, slot, b), nmeta)
  {
    CanAttachFacts(s, nmeta, slot, b);
    var s' := Attach(s, slot, b);
    forall t ensures SlotOk(s', t) {
      if Valid(s', t) { AttachAt(s, nmeta, slot, b, t); assert SlotOk(s, t); }
    }
    forall x ensures OwnOk(s', nmeta, x) {
      assert OwnOk(s, nmeta, x);
      if x in s'.owner { AttachAt(s, nmeta, slot, b, s'.owner[x]); }
    }
    forall x ensures BitOk(s', nmeta, x) { assert BitOk(s, nmeta, x); }
  }

  // ---------------------------------------------------------------- bytes

  function SlotFor(inum: nat, bn: nat): Slot {
    if bn < NDIRECT then Addr(inum, bn) else Entry(inum, bn - NDIRECT)
  }

  /** Byte o of block bn of a file; a block that is not there reads as zeros. */
  function ByteAt(s: Fs, inum: nat, bn: nat, o: nat): nat {
    var b := At(s, SlotFor(inum, bn));
    if 0 < b < |s.disk| && o < |s.disk[b]| then s.disk[b][o] else 0
  }

  ghost predicate SameByte(s: Fs, s': Fs, i: nat, bn: nat, o: nat) {
    i < |s.inodes| && bn < MAXFILE ==> ByteAt(s', i, bn, o) == ByteAt(s, i, bn, o)
  }

  /** No byte of any file changed. */
  ghost predicate SameBytes(s: Fs, s': Fs) {
    |s'.inodes| == |s.inodes| && forall i: nat, bn: nat, o: nat :: SameByte(s, s', i, bn, o)
  }

  /** Taking a new block changes no byte of any file. */
  lemma AttachBytes(s: Fs, nmeta: nat, slot: Slot, b: nat)
    requires CanAttach(s, nmeta, slot, b)
    ensures Attach.requires(s, slot, b) && SameBytes(s, Attach(s, slot, b))
  {
    CanAttachFacts(s, nmeta, slot, b);
    var s' := Attach(s, slot, b);
    forall i: nat, bn: nat, o: nat ensures SameByte(s, s', i, bn, o) {
      if i < |s.inodes| && bn < MAXFILE {
        var t := SlotFor(i, bn);
        AttachAt(s, nmeta, slot, b, t);
        if At(s, t) != 0 { HeldBlock(s, nmeta, t); }
      }
    }
  }

  /** New contents for a data block of a file. */
  function WithBlock(s: Fs, b: nat, data: seq<nat>): Fs
    requires b < |s.disk|
  {
    s.(disk := s.disk[b := data])
  }

  ghost predicate IsData(slot: Slot) {
    slot.Addr? ==> slot.k < NDIRECT
  }

  lemma WithBlockAt(s: Fs, nmeta: nat, slot: Slot, data: seq<nat>, t: Slot)
    requires Inv(s, nmeta) && Valid(s, slot) && At(s, slot) != 0 && IsData(slot) && |data| == BSIZE && Valid(s, t)
    ensures At(s, slot) < |s.disk| && At(WithBlock(s, At(s, slot), data), t) == At(s, t)
  {
    HeldBlock(s, nmeta, slot);
    if t.Entry? && At(s, Addr(t.inum, NDIRECT)) != 0 { HeldBlock(s, nmeta, Addr(t.inum, NDIRECT)); }
  }

  lemma WithBlockInv(s: Fs, nmeta: nat, slot: Slot, data: seq<nat>)
    requires Inv(s, nmeta) && Valid(s, slot) && At(s, slot) != 0 && IsData(slot) && |data| == BSIZE
    ensures At(s, slot) < |s.disk| && Inv(WithBlock(s, At(s, slot), data), nmeta)
  {
    HeldBlock(s, nmeta, slot);
    var s' := WithBlock(s, At(s, slot), data);
    forall t ensures SlotOk(s', t) {
      assert SlotOk(s, t);
      if Valid(s, t) { WithBlockAt(s, nmeta, slot, data, t); }
    }
    forall x ensures OwnOk(s', nmeta, x) {
      assert OwnOk(s, nmeta, x);
      if x in s.owner { WithBlockAt(s, nmeta, slot, data, s.owner[x]); }
    }
    forall x ensures BitOk(s', nmeta, x) { assert BitOk(s, nmeta, x); }
  }

  /** Writing a data block of a file changes the bytes of that block of that file only. */
  lemma WithBlockBytes(s: Fs, nmeta: nat, i: nat, bn: nat, data: seq<nat>, i': nat, bn': nat, o: nat)
    requires Inv(s, nmeta) && i < |s.inodes| && bn < MAXFILE && At(s, SlotFor(i, bn)) != 0 && |data| == BSIZE
    requires i' < |s.inodes| && bn' < MAXFILE && o < BSIZE
    ensures At(s, SlotFor(i, bn)) < |s.disk|
    ensures ByteAt(WithBlock(s, At(s, SlotFor(i, bn)), data), i', bn', o)
         == if i' == i && bn' == bn then data[o] else ByteAt(s, i', bn', o)
  {
    HeldBlock(s, nmeta, SlotFor(i, bn));
    WithBlockAt(s, nmeta, SlotFor(i, bn), data, SlotFor(i', bn'));
    if At(s, SlotFor(i', bn')) != 0 { HeldBlock(s, nmeta, SlotFor(i', bn')); }
  }

  // ---------------------------------------------------------------- giving blocks back

  /** Slots of inum that itrunc() has dealt with: the first k addresses and the first j entries. */
  predicate Done(slot: Slot, inum: nat, k: nat, j: nat) {
    slot.inum == inum && match slot case Addr(_, k') => k' < k case Entry(_, j') => j' < j
  }

  ghost predicate FreedBit(s: Fs, used: seq<bool>, inum: nat, k: nat, j: nat, b: nat) {
    b < |used| == |s.used| ==> (used[b] <==> s.used[b] && !(b in s.owner && Done(s.owner[b], inum, k, j)))
  }

  /** The bitmap after itrunc() has freed what these slots hold. */
  ghost predicate FreedBits(s: Fs, used: seq<bool>, inum: nat, k: nat, j: nat) {
    |used| == |s.used| && forall b: nat :: FreedBit(s, used, inum, k, j, b)
  }

  /** The next block to free still has its bit set. */
  lemma StillUsed(s: Fs, nmeta: nat, used: seq<bool>, slot: Slot, k: nat, j: nat)
    requires Inv(s, nmeta) && Valid(s, slot) && At(s, slot) != 0
    requires FreedBits(s, used, slot.inum, k, j) && !Done(slot, slot.inum, k, j)
    ensures At(s, slot) < |used| && used[At(s, slot)]
  {
    HeldBlock(s, nmeta, slot);
    assert FreedBit(s, used, slot.inum, k, j, At(s, slot));
  }

  /** Slots that are dealt with in one more step: only this one. */
  ghost predicate NextDone(slot: Slot, k: nat, j: nat, k': nat, j': nat) {
    forall t :: Done(t, slot.inum, k', j') <==> Done(t, slot.inum, k, j) || t == slot
  }

  lemma FreeOne(s: Fs, nmeta: nat, used: seq<bool>, slot: Slot, k: nat, j: nat, k': nat, j': nat)
    requires Inv(s, nmeta) && Valid(s, slot) && NextDone(slot, k, j, k', j')
    requires FreedBits(s, used, slot.inum, k, j) && !Done(slot, slot.inum, k, j)
    ensures At(s, slot) == 0 ==> FreedBits(s, used, slot.inum, k', j')
    ensures At(s, slot) != 0 ==>
              && At(s, slot) < |used| && used[At(s, slot)]
              && FreedBits(s, used[At(s, slot) := false], slot.inum, k', j')
  {
    var c := At(s, slot);
    if c != 0 { StillUsed(s, nmeta, used, slot, k, j); HeldBlock(s, nmeta, slot); }
    var used' := if c != 0 then used[c := false] else used;
    forall b: nat ensures FreedBit(s, used', slot.inum, k', j', b) {
      assert FreedBit(s, used, slot.inum, k, j, b) && OwnOk(s, nmeta, b);
    }
  }

  /** Without an indirect block there are no entries to free. */
  lemma NoIndirect(s: Fs, nmeta: nat, used: seq<bool>, inum: nat)
    requires Inv(s, nmeta) && inum < |s.inodes| && At(s, Addr(inum, NDIRECT)) == 0
    requires FreedBits(s, used, inum, NDIRECT, 0)
    ensures FreedBits(s, used, inum, NDIRECT + 1, NINDIRECT)
  {
    var k := NDIRECT + 1;
    forall b: nat ensures FreedBit(s, used, inum, k, NINDIRECT, b) {
      assert FreedBit(s, used, inum, NDIRECT, 0, b) && OwnOk(s, nmeta, b);
    }
  }

  function NoAddrs(): seq<nat> {
    seq(NDIRECT + 1, _ => 0)
  }

  /** The file system without the blocks of inum. */
  function Truncated(s: Fs, inum: nat, used: seq<bool>): Fs
    requires inum < |s.inodes|
  {
    Fs(used, s.disk, s.inodes[inum := Inode(0, NoAddrs())],
       map b | b in s.owner && s.owner[b].inum != inum :: s.owner[b])
  }

  lemma TruncatedAt(s: Fs, inum: nat, used: seq<bool>, t: Slot)
    requires inum < |s.inodes|
    ensures At(Truncated(s, inum, used), t) == if t.inum == inum then 0 else At(s, t)
  {
  }

  /** After itrunc() the bitmap is exact again: every block of the file was freed, and no other. */
  lemma TruncatedInv(s: Fs, nmeta: nat, inum: nat, used: seq<bool>)
    requires Inv(s, nmeta) && inum < |s.inodes|
    requires FreedBits(s, used, inum, NDIRECT + 1, NINDIRECT)
    ensures Inv(Truncated(s, inum, used), nmeta)
  {
    var s' := Truncated(s, inum, used);
    forall t ensures SlotOk(s', t) { assert SlotOk(s, t); TruncatedAt(s, inum, used, t); }
    forall b ensures OwnOk(s', nmeta, b) {
      assert OwnOk(s, nmeta, b);
      if b in s'.owner { TruncatedAt(s, inum, used, s'.owner[b]); }
    }
    forall b: nat ensures BitOk(s', nmeta, b) {
      assert BitOk(s, nmeta, b) && FreedBit(s, used, inum, NDIRECT + 1, NINDIRECT, b) && OwnOk(s, nmeta, b);
    }
  }

  lemma TruncatedBytes(s: Fs, inum: nat, used: seq<bool>, i: nat, bn: nat, o: nat)
    requires inum < |s.inodes|
    ensures ByteAt(Truncated(s, inum, used), i, bn, o) == if i == inum then 0 else ByteAt(s, i, bn, o)
  {
    TruncatedAt(s, inum, used, SlotFor(i, bn));
  }

  // ---------------------------------------------------------------- bmap()

  ghost predicate KeptSlot(s: Fs, s': Fs, inum: nat, bn: nat, t: Slot) {
    Valid(s, t) && (At(s, t) != 0 || (t != SlotFor(inum, bn) && t != Addr(inum, NDIRECT))) ==> At(s', t) == At(s, t)
  }

  ghost predicate SameSizes(s: Fs, s': Fs) {
    |s'.inodes| == |s.inodes| && forall i :: 0 <= i < |s.inodes| ==> s'.inodes[i].size == s.inodes[i].size
  }

  /** From s to s', at most block bn of inum and its indirect block are new; no byte of any file
      changed. */
  ghost predicate Grew(s: Fs, s': Fs, inum: nat, bn: nat) {
    && SameSizes(s, s') && SameBytes(s, s') && |s'.disk| == |s.disk|
    && (forall t :: KeptSlot(s, s', inum, bn, t))
  }

  lemma GrewNone(s: Fs, inum: nat, bn: nat)
    ensures Grew(s, s, inum, bn)
  {
  }

  lemma GrewTrans(s: Fs, t: Fs, u: Fs, inum: nat, bn: nat)
    requires Grew(s, t, inum, bn) && Grew(t, u, inum, bn)
    ensures Grew(s, u, inum, bn)
  {
    forall i: nat, bn': nat, o: nat ensures SameByte(s, u, i, bn', o) {
      assert SameByte(s, t, i, bn', o) && SameByte(t, u, i, bn', o);
    }
    forall x ensures KeptSlot(s, u, inum, bn, x) { assert KeptSlot(s, t, inum, bn, x) && KeptSlot(t, u, inum, bn, x); }
  }

  lemma AttachGrew(s: Fs, nmeta: nat, slot: Slot, b: nat, bn: nat)
    requires CanAttach(s, nmeta, slot, b) && (slot == SlotFor(slot.inum, bn) || slot == Addr(slot.inum, NDIRECT))
    ensures Attach.requires(s, slot, b)
    ensures var s' := Attach(s, slot, b); Inv(s', nmeta) && Grew(s, s', slot.inum, bn) && At(s', slot) == b
  {
    CanAttachFacts(s, nmeta, slot, b);
    AttachInv(s, nmeta, slot, b);
    AttachBytes(s, nmeta, slot, b);
    AttachAt(s, nmeta, slot, b, slot);
    var s' := Attach(s, slot, b);
    forall t ensures KeptSlot(s, s', slot.inum, bn, t) { if Valid(s, t) { AttachAt(s, nmeta, slot, b, t); } }
  }
}
