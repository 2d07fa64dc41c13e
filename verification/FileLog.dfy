/** What writei(), filewrite() and itrunc() put into the log, against what they change: data and indirect blocks,
    bits of the bitmap, and inodes. */
module FileLog {
  import opened Common
  import opened FileBlocks
  import opened FileBytes

  const IPB := 16           // inodes per block

  /** Where the superblock says that inodes and bitmap start. */
  datatype Super = Super(inodestart: nat, bmapstart: nat)

  /** BBLOCK(b, sb) */
  function BBlock(sb: Super, b: nat): nat {
    sb.bmapstart + b / BPB
  }

  /** IBLOCK(i, sb) */
  function IBlock(sb: Super, i: nat): nat {
    sb.inodestart + i / IPB
  }

  /** The inodes and the bitmap lie below the data blocks, as mkfs puts them. */
  ghost predicate Laid(sb: Super, nmeta: nat, nblocks: nat, ninodes: nat) {
    BBlock(sb, nblocks) < nmeta && IBlock(sb, ninodes) < nmeta
  }

  // ---------------------------------------------------------------- bitmap and inodes

  ghost predicate BitsLogged(sb: Super, used: seq<bool>, used': seq<bool>, logged: set<nat>) {
    |used'| == |used| && forall b :: 0 <= b < |used| && used'[b] != used[b] ==> BBlock(sb, b) in logged
  }

  ghost predicate InodesLogged(sb: Super, inodes: seq<Inode>, inodes': seq<Inode>, logged: set<nat>) {
    |inodes'| == |inodes| && forall i :: 0 <= i < |inodes| && inodes'[i] != inodes[i] ==> IBlock(sb, i) in logged
  }

  /** Every change from s to t is in the log. */
  ghost predicate AllLogged(sb: Super, s: Fs, t: Fs, logged: set<nat>) {
    && ChangesLogged(s.disk, t.disk, logged)
    && BitsLogged(sb, s.used, t.used, logged)
    && InodesLogged(sb, s.inodes, t.inodes, logged)
  }

  lemma BitsTrans(sb: Super, a: seq<bool>, b: seq<bool>, c: seq<bool>, g: set<nat>, g': set<nat>)
    requires BitsLogged(sb, a, b, g) && BitsLogged(sb, b, c, g') && g <= g'
    ensures BitsLogged(sb, a, c, g')
  {
  }

  lemma InodesTrans(sb: Super, a: seq<Inode>, b: seq<Inode>, c: seq<Inode>, g: set<nat>, g': set<nat>)
    requires InodesLogged(sb, a, b, g) && InodesLogged(sb, b, c, g') && g <= g'
    ensures InodesLogged(sb, a, c, g')
  {
  }

  /** No inode but inum changed. */
  ghost predicate OnlyInode(s: Fs, t: Fs, inum: nat) {
    |t.inodes| == |s.inodes| && forall i :: 0 <= i < |s.inodes| && i != inum ==> t.inodes[i] == s.inodes[i]
  }

  /** The number of free blocks. */
  function Free(used: seq<bool>): nat {
    if used == [] then 0 else Free(used[..|used| - 1]) + if used[|used| - 1] then 0 else 1
  }

  lemma {:induction false} FreeTake(used: seq<bool>, b: nat)
    requires b < |used| && !used[b]
    ensures Free(used[b := true]) + 1 == Free(used)
  {
    var n := |used| - 1;
    if b < n {
      assert used[b := true][..n] == used[..n][b := true];
      FreeTake(used[..n], b);
    } else {
      assert used[b := true][..n] == used[..n];
    }
  }

  lemma {:induction false} FreeNone(used: seq<bool>)
    requires forall b :: 0 <= b < |used| ==> used[b]
    ensures Free(used) == 0
  {
    if used != [] { FreeNone(used[..|used| - 1]); }
  }

  // ---------------------------------------------------------------- bmap()

  /** Blocks a..b-1 of a file that are not there. */
  function Holes(s: Fs, inum: nat, a: nat, b: nat): nat {
    if b <= a then 0 else Holes(s, inum, a, b - 1) + if At(s, SlotFor(inum, b - 1)) == 0 then 1 else 0
  }

  lemma {:induction false} HolesMore(s: Fs, inum: nat, a: nat, b: nat, c: nat)
    requires a <= b <= c
    ensures Holes(s, inum, a, b) <= Holes(s, inum, a, c)
  {
    if b < c { HolesMore(s, inum, a, b, c - 1); }
  }

  ghost predicate NoOther(s: Fs, t: Fs, inum: nat, bn: nat, b: nat) {
    b < MAXFILE && b != bn && At(s, SlotFor(inum, b)) == 0 ==> At(t, SlotFor(inum, b)) == 0
  }

  /** bmap() for block bn: it logs the bits it sets, changes no other inode, takes a free block for each new one,
      and an indirect block only for a block that needs it. */
  ghost predicate BmapMeta(sb: Super, s: Fs, t: Fs, logged: set<nat>, inum: nat, bn: nat) {
    && BitsLogged(sb, s.used, t.used, logged) && OnlyInode(s, t, inum)
    && Free(t.used) + New(s, t, SlotFor(inum, bn)) + New(s, t, Addr(inum, NDIRECT)) == Free(s.used)
    && (bn < NDIRECT ==> At(t, Addr(inum, NDIRECT)) == At(s, Addr(inum, NDIRECT)))
    && (At(s, SlotFor(inum, bn)) != 0 ==> At(t, SlotFor(inum, bn)) == At(s, SlotFor(inum, bn)))
    && forall b: nat :: NoOther(s, t, inum, bn, b)
  }

  lemma BmapMetaNone(sb: Super, s: Fs, logged: set<nat>, inum: nat, bn: nat)
    ensures BmapMeta(sb, s, s, logged, inum, bn)
  {
    forall b: nat ensures NoOther(s, s, inum, bn, b) {}
  }

  /** One new block, for bn or for the entries. */
  lemma BmapMetaFill(sb: Super, s: Fs, nmeta: nat, slot: Slot, c: nat, logged: set<nat>, bn: nat)
    requires CanAttach(s, nmeta, slot, c) && bn < MAXFILE && BBlock(sb, c) in logged
    requires slot == SlotFor(slot.inum, bn) || (slot == Addr(slot.inum, NDIRECT) && bn >= NDIRECT)
    ensures Attach.requires(s, slot, c) && BmapMeta(sb, s, Attach(s, slot, c), logged, slot.inum, bn)
  {
    CanAttachFacts(s, nmeta, slot, c);
    var t := Attach(s, slot, c);
    FreeTake(s.used, c);
    AttachAt(s, nmeta, slot, c, SlotFor(slot.inum, bn));
    AttachAt(s, nmeta, slot, c, Addr(slot.inum, NDIRECT));
    forall b: nat ensures NoOther(s, t, slot.inum, bn, b) {
      if b < MAXFILE { AttachAt(s, nmeta, slot, c, SlotFor(slot.inum, b)); }
    }
  }

  lemma BmapMetaTrans(sb: Super, s: Fs, t: Fs, u: Fs, g: set<nat>, g': set<nat>, inum: nat, bn: nat)
    requires BmapMeta(sb, s, t, g, inum, bn) && BmapMeta(sb, t, u, g', inum, bn) && g <= g'
    requires inum < |s.inodes| && bn < MAXFILE && Grew(s, t, inum, bn) && Grew(t, u, inum, bn)
    ensures BmapMeta(sb, s, u, g', inum, bn)
  {
    BitsTrans(sb, s.used, t.used, u.used, g, g');
    var x, y := SlotFor(inum, bn), Addr(inum, NDIRECT);
    assert KeptSlot(s, t, inum, bn, x) && KeptSlot(s, t, inum, bn, y);
    assert KeptSlot(t, u, inum, bn, x) && KeptSlot(t, u, inum, bn, y);
    forall b: nat ensures NoOther(s, u, inum, bn, b) {
      assert NoOther(s, t, inum, bn, b) && NoOther(t, u, inum, bn, b);
    }
  }

  /** Bytes stored in a block do not matter here. */
  lemma BmapMetaStore(sb: Super, t: Fs, u: Fs, v: Fs, g: set<nat>, g': set<nat>, inum: nat, bn: nat)
    requires BmapMeta(sb, t, u, g, inum, bn) && g <= g' && v.used == u.used && v.inodes == u.inodes
    requires inum < |u.inodes| && bn < MAXFILE && SameSlots(u, v)
    ensures BmapMeta(sb, t, v, g', inum, bn)
  {
    assert Valid(u, SlotFor(inum, bn)) && Valid(u, Addr(inum, NDIRECT));
    forall b: nat ensures NoOther(t, v, inum, bn, b) {
      assert NoOther(t, u, inum, bn, b);
      assert b < MAXFILE ==> Valid(u, SlotFor(inum, b));
    }
  }

  /** balloc() for an empty slot, which then holds block b. */
  ghost predicate Filled(sb: Super, s: Fs, t: Fs, nmeta: nat, l: Ledger, l': Ledger, g: set<nat>, g': set<nat>,
                         slot: Slot, b: nat) {
    && CanAttach(s, nmeta, slot, b) && Attach.requires(s, slot, b) && t == Attach(s, slot, b)
    && g <= g' && b in g' && BBlock(sb, b) in g' && ChangesLogged(s.disk, t.disk, g')
    && l' == Charged(l, slot, b, BBlock(sb, b)).(ind := l'.ind)
    && l'.ind == l.ind + if slot.Addr? && slot.k != NDIRECT then {} else {At(t, Addr(slot.inum, NDIRECT))}
  }

  /** All of what bmap() does for block bn, with ledger and log before and after. */
  ghost predicate Bmapped(sb: Super, s: Fs, t: Fs, nmeta: nat, l: Ledger, l': Ledger, g: set<nat>, g': set<nat>,
                          inum: nat, bn: nat) {
    && Inv(t, nmeta) && Grew(s, t, inum, bn) && BmapMeta(sb, s, t, g', inum, bn)
    && g <= g' && ChangesLogged(s.disk, t.disk, g') && BmapCharges(s, t, l, l', inum, bn)
    && if At(s, SlotFor(inum, bn)) != 0 then t == s && l' == l && g' == g
       else At(t, SlotFor(inum, bn)) != 0 ==> At(t, SlotFor(inum, bn)) in g'
  }

  lemma BmappedNone(sb: Super, s: Fs, nmeta: nat, l: Ledger, g: set<nat>, inum: nat, bn: nat)
    requires Inv(s, nmeta)
    ensures Bmapped(sb, s, s, nmeta, l, l, g, g, inum, bn)
  {
    BmapMetaNone(sb, s, g, inum, bn);
  }

  lemma BmappedFill(sb: Super, s: Fs, t: Fs, nmeta: nat, l: Ledger, l': Ledger, g: set<nat>, g': set<nat>, slot: Slot,
                    b: nat, bn: nat)
    requires Filled(sb, s, t, nmeta, l, l', g, g', slot, b) && bn < MAXFILE
    requires slot == SlotFor(slot.inum, bn) || (slot == Addr(slot.inum, NDIRECT) && bn >= NDIRECT)
    ensures Bmapped(sb, s, t, nmeta, l, l', g, g', slot.inum, bn) && At(t, slot) == b != 0
  {
    AttachGrew(s, nmeta, slot, b, bn);
    BmapMetaFill(sb, s, nmeta, slot, b, g', bn);
    AttachAt(s, nmeta, slot, b, SlotFor(slot.inum, bn));
    AttachAt(s, nmeta, slot, b, Addr(slot.inum, NDIRECT));
    FillCharges(sb, s, t, nmeta, l, l', slot, b, bn);
  }

  lemma FillCharges(sb: Super, s: Fs, t: Fs, nmeta: nat, l: Ledger, l': Ledger, slot: Slot, b: nat, bn: nat)
    requires At(s, slot) == 0 && At(t, slot) == b != 0
    requires slot == SlotFor(slot.inum, bn) || (slot == Addr(slot.inum, NDIRECT) && bn >= NDIRECT)
    requires slot.Entry? ==> At(t, Addr(slot.inum, NDIRECT)) != 0
    requires l' == Charged(l, slot, b, BBlock(sb, b)).(ind := l'.ind)
    requires l'.ind == l.ind + if slot.Addr? && slot.k != NDIRECT then {} else {At(t, Addr(slot.inum, NDIRECT))}
    ensures BmapCharges(s, t, l, l', slot.inum, bn)
  {
    UnionSize(l.maps, {BBlock(sb, b)});
  }

  lemma BmappedTrans(sb: Super, s: Fs, t: Fs, u: Fs, nmeta: nat, l: Ledger, l': Ledger, l'': Ledger, g: set<nat>,
                     g': set<nat>, g'': set<nat>, inum: nat, bn: nat)
    requires Bmapped(sb, s, t, nmeta, l, l', g, g', inum, bn) && Bmapped(sb, t, u, nmeta, l', l'', g', g'', inum, bn)
    requires inum < |s.inodes| && bn < MAXFILE
    ensures Bmapped(sb, s, u, nmeta, l, l'', g, g'', inum, bn)
  {
    GrewTrans(s, t, u, inum, bn);
    BmapMetaTrans(sb, s, t, u, g', g'', inum, bn);
    var x, y := SlotFor(inum, bn), Addr(inum, NDIRECT);
    assert KeptSlot(s, t, inum, bn, x) && KeptSlot(s, t, inum, bn, y);
    assert KeptSlot(t, u, inum, bn, x) && KeptSlot(t, u, inum, bn, y);
    ChangesLoggedTrans(s.disk, t.disk, u.disk, g', g'');
  }

  // ---------------------------------------------------------------- the rounds of writei()

  ghost predicate StillHole(s: Fs, t: Fs, inum: nat, cur: nat, b: nat) {
    cur <= b < MAXFILE && At(s, SlotFor(inum, b)) == 0 ==> At(t, SlotFor(inum, b)) == 0
  }

  /** The blocks taken so far are the holes filled so far, if there is no indirect block to be made. */
  ghost predicate FreeOk(s: Fs, t: Fs, inum: nat, first: nat, cur: nat) {
    cur <= NDIRECT || At(s, Addr(inum, NDIRECT)) != 0 ==> Free(t.used) + Holes(s, inum, first, cur) == Free(s.used)
  }

  /** writei() has dealt with blocks first..cur-1. */
  ghost predicate MetaAt(sb: Super, s: Fs, t: Fs, g: set<nat>, inum: nat, first: nat, cur: nat) {
    && BitsLogged(sb, s.used, t.used, g) && OnlyInode(s, t, inum) && FreeOk(s, t, inum, first, cur)
    && forall b: nat :: StillHole(s, t, inum, cur, b)
  }

  lemma MetaStart(sb: Super, s: Fs, g: set<nat>, inum: nat, first: nat)
    ensures MetaAt(sb, s, s, g, inum, first, first)
  {
    forall b: nat ensures StillHole(s, s, inum, first, b) {}
  }

  lemma MetaBits(sb: Super, s: Fs, t: Fs, u: Fs, g: set<nat>, g': set<nat>, inum: nat, first: nat, cur: nat)
    requires MetaAt(sb, s, t, g, inum, first, cur) && BmapMeta(sb, t, u, g', inum, cur) && g <= g'
    ensures BitsLogged(sb, s.used, u.used, g') && OnlyInode(s, u, inum)
  {
    BitsTrans(sb, s.used, t.used, u.used, g, g');
  }

  lemma MetaRound(sb: Super, s: Fs, t: Fs, u: Fs, g: set<nat>, g': set<nat>, inum: nat, first: nat, cur: nat)
    requires MetaAt(sb, s, t, g, inum, first, cur) && BmapMeta(sb, t, u, g', inum, cur) && g <= g'
    requires KeepsSlots(s, t, inum) && inum < |s.inodes| && first <= cur < MAXFILE && At(u, SlotFor(inum, cur)) != 0
    ensures MetaAt(sb, s, u, g', inum, first, cur + 1)
  {
    MetaBits(sb, s, t, u, g, g', inum, first, cur);
    assert KeepsSlot(s, t, inum, Addr(inum, NDIRECT)) && KeepsSlot(s, t, inum, SlotFor(inum, cur));
    assert StillHole(s, t, inum, cur, cur);
    var next := cur + 1;
    forall b: nat ensures StillHole(s, u, inum, next, b) {
      assert StillHole(s, t, inum, cur, b) && NoOther(t, u, inum, cur, b);
    }
  }

  // ---------------------------------------------------------------- where a failing copy stops

  /** The block in which either_copyin() fails, if the copy gets there. */
  function StopBlock(off: nat, src: seq<nat>): nat {
    (off + |src|) / BSIZE
  }

  /** From the arguments of writei(): the source can be read up to the middle of a block that the file has, and the
      disk has room for the holes before it. */
  ghost predicate StopsIn(s: Fs, inum: nat, off: nat, n: nat, src: seq<nat>) {
    var bn := StopBlock(off, src);
    && |src| < n && Max(off, bn * BSIZE) < off + |src|
    && At(s, SlotFor(inum, bn)) != 0 && Holes(s, inum, off / BSIZE, bn) <= Free(s.used)
  }

  /** The outcome agrees with that: tot bytes in full, w in all. */
  ghost predicate StopMatch(s: Fs, inum: nat, off: nat, n: nat, src: seq<nat>, tot: nat, w: nat) {
    && (tot < w ==> w == |src| && (off + tot) / BSIZE == StopBlock(off, src))
    && (tot < w && At(s, SlotFor(inum, (off + tot) / BSIZE)) != 0 <==> StopsIn(s, inum, off, n, src))
  }

  lemma StopDone(s: Fs, inum: nat, off: nat, n: nat, src: seq<nat>)
    requires |src| == n
    ensures StopMatch(s, inum, off, n, src, n, n)
  {
  }

  /** A block beyond the direct ones needs the indirect block. */
  lemma NeedsIndirect(s: Fs, inum: nat, bn: nat)
    requires At(s, SlotFor(inum, bn)) != 0
    ensures bn < NDIRECT || At(s, Addr(inum, NDIRECT)) != 0
  {
  }

  lemma StopBadCopy(sb: Super, s: Fs, t: Fs, g: set<nat>, inum: nat, off: nat, n: nat, src: seq<nat>, tot: nat, r: nat)
    requires Round(off, n, tot, r) && tot < n && MetaAt(sb, s, t, g, inum, off / BSIZE, off / BSIZE + r)
    requires tot <= |src| < n && off + |src| < (off / BSIZE + r + 1) * BSIZE
    ensures StopMatch(s, inum, off, n, src, tot, |src|)
  {
    RoundNow(off, n, tot, r);
    var cur := off / BSIZE + r;
    InStop(off, tot, |src|, cur);
    if At(s, SlotFor(inum, cur)) != 0 { NeedsIndirect(s, inum, cur); }
  }

  lemma InStop(off: nat, tot: nat, len: nat, cur: nat)
    requires tot <= len && (off + tot) / BSIZE == cur && off + len < (cur + 1) * BSIZE
    ensures (off + len) / BSIZE == cur && cur * BSIZE <= off + tot
  {
  }

  lemma StopFull(sb: Super, s: Fs, t: Fs, u: Fs, g: set<nat>, g': set<nat>, inum: nat, off: nat, n: nat, src: seq<nat>,
                 tot: nat, r: nat)
    requires Round(off, n, tot, r) && tot < n && MetaAt(sb, s, t, g, inum, off / BSIZE, off / BSIZE + r)
    requires tot <= |src| && inum < |s.inodes| && KeepsSlots(s, t, inum) && off / BSIZE + r < MAXFILE
    requires BmapMeta(sb, t, u, g', inum, off / BSIZE + r)
    requires At(u, SlotFor(inum, off / BSIZE + r)) == 0 && Free(u.used) == 0
    ensures StopMatch(s, inum, off, n, src, tot, tot)
  {
    RoundNow(off, n, tot, r);
    var first, cur, bn := off / BSIZE, off / BSIZE + r, StopBlock(off, src);
    assert KeepsSlot(s, t, inum, SlotFor(inum, cur)) && KeepsSlot(s, t, inum, Addr(inum, NDIRECT));
    if StopsIn(s, inum, off, n, src) {
      NeedsIndirect(s, inum, bn);
      HolesMore(s, inum, first, cur + 1, bn);
    }
  }

  // ---------------------------------------------------------------- a copy that fails half-way

  /** From block cur on, the blocks that the file had have not been logged; those that are new have. */
  ghost predicate CleanAt(s: Fs, t: Fs, l: Ledger, logged: set<nat>, inum: nat, cur: nat, bn: nat) {
    bn < MAXFILE && inum < |s.inodes| ==>
      var a, a' := At(s, SlotFor(inum, bn)), At(t, SlotFor(inum, bn));
      if a != 0 then cur <= bn ==> a !in l.data && a !in l.ind else a' != 0 ==> a' in logged
  }

  ghost predicate Clean(s: Fs, t: Fs, l: Ledger, logged: set<nat>, inum: nat, cur: nat) {
    forall bn: nat :: CleanAt(s, t, l, logged, inum, cur, bn)
  }

  lemma CleanStart(s: Fs, logged: set<nat>, inum: nat, cur: nat)
    ensures Clean(s, s, Nothing, logged, inum, cur)
  {
  }

  /** Two slots of a file hold different blocks. */
  lemma SlotsDiffer(t: Fs, nmeta: nat, x: Slot, y: Slot)
    requires Inv(t, nmeta) && Valid(t, x) && Valid(t, y) && x != y && At(t, x) != 0
    ensures At(t, x) != At(t, y)
  {
    HeldBlock(t, nmeta, x);
    if At(t, y) != 0 { HeldBlock(t, nmeta, y); }
  }

  lemma CleanBmap(s: Fs, t: Fs, u: Fs, nmeta: nat, l: Ledger, l': Ledger, g: set<nat>, g': set<nat>, inum: nat,
                  cur: nat)
    requires Clean(s, t, l, g, inum, cur) && KeepsSlots(s, t, inum) && Inv(u, nmeta) && inum < |s.inodes|
    requires cur < MAXFILE
    requires Grew(t, u, inum, cur) && BmapCharges(t, u, l, l', inum, cur) && g <= g'
    requires At(t, SlotFor(inum, cur)) != 0 ==> u == t && l' == l
    requires At(t, SlotFor(inum, cur)) == 0 && At(u, SlotFor(inum, cur)) != 0 ==> At(u, SlotFor(inum, cur)) in g'
    ensures Clean(s, u, l', g', inum, cur)
  {
    forall bn: nat ensures CleanAt(s, u, l', g', inum, cur, bn) {
      assert CleanAt(s, t, l, g, inum, cur, bn);
      if At(t, SlotFor(inum, cur)) == 0 && bn < MAXFILE {
        var slot := SlotFor(inum, bn);
        assert KeepsSlot(s, t, inum, slot) && KeptSlot(t, u, inum, cur, slot);
        if At(s, slot) != 0 {
          SlotsDiffer(u, nmeta, slot, Addr(inum, NDIRECT));
          if bn != cur { SlotsDiffer(u, nmeta, slot, SlotFor(inum, cur)); }
        }
      }
    }
  }

  lemma CleanStore(s: Fs, u: Fs, v: Fs, nmeta: nat, l: Ledger, g: set<nat>, inum: nat, cur: nat)
    requires Clean(s, u, l, g, inum, cur) && KeepsSlots(s, u, inum) && Inv(u, nmeta) && inum < |s.inodes|
    requires cur < MAXFILE
    requires At(u, SlotFor(inum, cur)) != 0 && SameSlots(u, v)
    ensures Clean(s, v, l, g, inum, cur)
    ensures var a := At(u, SlotFor(inum, cur)); Clean(s, v, l.(data := l.data + {a}), g + {a}, inum, cur + 1)
  {
    var a, next := At(u, SlotFor(inum, cur)), cur + 1;
    var l', g' := l.(data := l.data + {a}), g + {a};
    forall bn: nat ensures CleanAt(s, v, l, g, inum, cur, bn) && CleanAt(s, v, l', g', inum, next, bn) {
      assert CleanAt(s, u, l, g, inum, cur, bn);
      if bn < MAXFILE {
        assert KeepsSlot(s, u, inum, SlotFor(inum, bn));
        if bn != cur { SlotsDiffer(u, nmeta, SlotFor(inum, cur), SlotFor(inum, bn)); }
      }
    }
  }

  /** What was copied into block bn is not what was there. */
  ghost predicate Differs(s: Fs, inum: nat, off: nat, src: seq<nat>, w: nat, bn: nat) {
    exists o: nat :: DiffersAt(s, inum, off, src, w, bn, o)
  }

  ghost predicate DiffersAt(s: Fs, inum: nat, off: nat, src: seq<nat>, w: nat, bn: nat, o: nat) {
    o < BSIZE && off <= bn * BSIZE + o < off + w && w <= |src| && src[bn * BSIZE + o - off] != ByteAt(s, inum, bn, o)
  }

  /** The block holding byte off + tot is torn: the file had it, it is not in the log yet, and it was changed. */
  ghost predicate TornBlock(s: Fs, before: set<nat>, inum: nat, off: nat, src: seq<nat>, bn: nat) {
    At(s, SlotFor(inum, bn)) != 0 && At(s, SlotFor(inum, bn)) !in before && Differs(s, inum, off, src, |src|, bn)
  }

  /** From the arguments of writei(), the disk and the log before: a block will be changed and not logged. */
  ghost predicate Torn(s: Fs, before: set<nat>, inum: nat, off: nat, n: nat, src: seq<nat>) {
    StopsIn(s, inum, off, n, src) && TornBlock(s, before, inum, off, src, StopBlock(off, src))
  }

  /** What the log of a torn write holds. */
  ghost predicate LoggedOnly(l: Ledger, before: set<nat>, logged: set<nat>, nmeta: nat) {
    before <= logged && forall x :: x in logged && x !in before && x >= nmeta ==> x in l.data || x in l.ind
  }

  /** Every block that changed was logged, but for one that holds byte p of the file if torn. */
  ghost predicate Covered(s: Fs, t: Fs, g: set<nat>, inum: nat, p: nat, torn: bool) {
    && |t.disk| == |s.disk|
    && forall x :: 0 <= x < |s.disk| && t.disk[x] != s.disk[x] ==>
         x in g || (torn && x == At(t, SlotFor(inum, p / BSIZE)))
  }

  lemma CoveredTrans(s: Fs, t: Fs, u: Fs, g: set<nat>, g': set<nat>, inum: nat, p: nat, torn: bool)
    requires ChangesLogged(s.disk, t.disk, g) == true && g <= g' && Covered(t, u, g', inum, p, torn) == true
    ensures Covered(s, u, g', inum, p, torn)
    ensures !torn ==> ChangesLogged(s.disk, u.disk, g') && forall q: nat :: Covered(s, u, g', inum, q, false)
  {
  }

  /** If the copy stopped in block bn, the log holds every block that changed if and only if bn is not torn. */
  lemma StoppedIff(s: Fs, s': Fs, nmeta: nat, inum: nat, off: nat, src: seq<nat>, p: nat, bn: nat, l: Ledger,
                   before: set<nat>, logged: set<nat>)
    requires Inv(s, nmeta) && Inv(s', nmeta) && inum < |s.inodes| && bn < MAXFILE && p / BSIZE == bn
    requires Wrote(s, s', inum, off, src, |src|) && KeepsSlots(s, s', inum) && At(s', SlotFor(inum, bn)) != 0
    requires Covered(s, s', logged, inum, p, true)
    requires Clean(s, s', l, logged, inum, bn) && LoggedOnly(l, before, logged, nmeta)
    ensures ChangesLogged(s.disk, s'.disk, logged) <==> !TornBlock(s, before, inum, off, src, bn)
  {
    var slot := SlotFor(inum, bn);
    var a := At(s, slot);
    assert CleanAt(s, s', l, logged, inum, bn, bn);
    assert KeepsSlot(s, s', inum, slot);
    if a != 0 {
      HeldBlock(s, nmeta, slot);
      HeldBlock(s', nmeta, slot);
      ChangedIffDiffers(s, s', inum, off, src, |src|, bn, a);
    }
  }

  lemma ChangedIffDiffers(s: Fs, s': Fs, inum: nat, off: nat, src: seq<nat>, w: nat, bn: nat, a: nat)
    requires Wrote(s, s', inum, off, src, w) && w <= |src| && inum < |s.inodes| && bn < MAXFILE
    requires At(s, SlotFor(inum, bn)) == At(s', SlotFor(inum, bn)) == a && 0 < a < |s.disk| == |s'.disk|
    requires |s.disk[a]| == |s'.disk[a]| == BSIZE
    ensures s'.disk[a] != s.disk[a] <==> Differs(s, inum, off, src, w, bn)
  {
    if Differs(s, inum, off, src, w, bn) {
      var o: nat :| DiffersAt(s, inum, off, src, w, bn, o);
      assert WroteAt(s, s', inum, off, src, w, inum, bn, o);
    } else {
      forall o: nat | o < BSIZE ensures s'.disk[a][o] == s.disk[a][o] {
        assert !DiffersAt(s, inum, off, src, w, bn, o);
        assert WroteAt(s, s', inum, off, src, w, inum, bn, o);
      }
    }
  }

  // ---------------------------------------------------------------- the whole of writei()

  /** writei() has done r rounds and all of their tot bytes. */
  ghost predicate LoopAt(sb: Super, s: Fs, t: Fs, nmeta: nat, inum: nat, off: nat, n: nat, src: seq<nat>, tot: nat,
                         l: Ledger, r: nat, g: set<nat>) {
    && tot <= |src| && Round(off, n, tot, r)
    && Writing(s, t, nmeta, inum, off, src, tot) && Tidy(s, t, l, inum, off, off + tot, r)
    && Clean(s, t, l, g, inum, off / BSIZE + r) && ChangesLogged(s.disk, t.disk, g)
    && MetaAt(sb, s, t, g, inum, off / BSIZE, off / BSIZE + r)
  }

  /** writei() leaves its loop. */
  ghost predicate LoopEnd(sb: Super, s: Fs, t: Fs, nmeta: nat, inum: nat, off: nat, n: nat, src: seq<nat>, tot: nat,
                          w: nat, l: Ledger, r: nat, g: set<nat>) {
    && tot <= w <= |src| && Budget(off, n, r)
    && Writing(s, t, nmeta, inum, off, src, w) && Tidy(s, t, l, inum, off, off + tot, r)
    && (tot < w ==> Clean(s, t, l, g, inum, (off + tot) / BSIZE) && At(t, SlotFor(inum, (off + tot) / BSIZE)) != 0)
    && Covered(s, t, g, inum, off + tot, tot < w)
    && BitsLogged(sb, s.used, t.used, g) && OnlyInode(s, t, inum) && StopMatch(s, inum, off, n, src, tot, w)
  }

  lemma LoopStart(sb: Super, s: Fs, nmeta: nat, inum: nat, off: nat, n: nat, src: seq<nat>, g: set<nat>)
    requires Inv(s, nmeta) && inum < |s.inodes| && off <= s.inodes[inum].size
    ensures LoopAt(sb, s, s, nmeta, inum, off, n, src, 0, Nothing, 0, g)
  {
    WroteNothing(s, inum, off, src);
    NothingSpent(s, inum, off);
    CleanStart(s, g, inum, off / BSIZE);
    RoundStart(off, n);
    MetaStart(sb, s, g, inum, off / BSIZE);
  }

  lemma LoopDone(sb: Super, s: Fs, t: Fs, nmeta: nat, inum: nat, off: nat, n: nat, src: seq<nat>, l: Ledger, r: nat,
                 g: set<nat>)
    requires LoopAt(sb, s, t, nmeta, inum, off, n, src, n, l, r, g) == true && |src| <= n
    ensures LoopEnd(sb, s, t, nmeta, inum, off, n, src, n, n, l, r, g)
  {
    StopDone(s, inum, off, n, src);
  }

  /** How many bytes are stored after a round that started with tot. */
  function StoredBy(out: Outcome, tot: nat, m: nat, src: seq<nat>): nat {
    match out case Copied => tot + m case DiskFull => tot case BadCopy => |src|
  }

  /** Before a round that starts with tot bytes, in block bn. */
  ghost predicate InRound(s: Fs, t: Fs, nmeta: nat, inum: nat, off: nat, src: seq<nat>, tot: nat, l: Ledger, r: nat,
                          g: set<nat>, bn: nat) {
    && Writing(s, t, nmeta, inum, off, src, tot) && Tidy(s, t, l, inum, off, off + tot, r)
    && Clean(s, t, l, g, inum, bn)
  }

  /** After bmap() of that round. */
  ghost predicate FoundIn(s: Fs, u: Fs, nmeta: nat, inum: nat, off: nat, src: seq<nat>, tot: nat, l: Ledger, r: nat,
                          g: set<nat>, bn: nat) {
    && InRound(s, u, nmeta, inum, off, src, tot, l, r + 1, g, bn)
    && Tidy(s, u, l.(data := l.data + Held(u, SlotFor(inum, bn))), inum, off, off + tot, r + 1)
  }

  lemma RoundFound(sb: Super, s: Fs, t: Fs, u: Fs, nmeta: nat, inum: nat, off: nat, src: seq<nat>, tot: nat, l: Ledger,
                   l': Ledger, r: nat, g: set<nat>, g': set<nat>, bn: nat)
    requires InRound(s, t, nmeta, inum, off, src, tot, l, r, g, bn)
    requires Bmapped(sb, t, u, nmeta, l, l', g, g', inum, bn) && off <= s.inodes[inum].size
    requires bn < MAXFILE && bn * BSIZE <= off + tot < (bn + 1) * BSIZE && (r == 0 ==> tot == 0)
    ensures FoundIn(s, u, nmeta, inum, off, src, tot, l', r, g', bn)
  {
    CleanBmap(s, t, u, nmeta, l, l', g, g', inum, bn);
    WritingBmap(s, t, u, nmeta, inum, off, src, tot, l, l', r, bn);
  }

  lemma LoopRound(sb: Super, s: Fs, t: Fs, nmeta: nat, inum: nat, off: nat, n: nat, src: seq<nat>, tot: nat, l: Ledger,
                  r: nat, g: set<nat>)
    requires LoopAt(sb, s, t, nmeta, inum, off, n, src, tot, l, r, g) && tot < n
    ensures Inv(t, nmeta) && |t.inodes| == |s.inodes| && tot <= |src| && (r == 0 ==> tot == 0)
    ensures InRound(s, t, nmeta, inum, off, src, tot, l, r, g, (off + tot) / BSIZE)
  {
    RoundNow(off, n, tot, r);
  }

  /** What either_copyin() of k bytes to offset at of block a makes of the disk, the ledger and the log: if that is not
      all that was asked for, the block is not logged. */
  function Put(u: Fs, a: nat, at: nat, bytes: seq<nat>): Fs
    requires a < |u.disk| && at + |bytes| <= |u.disk[a]|
  {
    WithBlock(u, a, Splice(u.disk[a], at, bytes))
  }

  function PutLedger(l: Ledger, a: nat, whole: bool): Ledger {
    if whole then l.(data := l.data + {a}) else l
  }

  function PutLog(g: set<nat>, a: nat, whole: bool): set<nat> {
    if whole then g + {a} else g
  }

  ghost predicate StoredIn(s: Fs, v: Fs, nmeta: nat, inum: nat, off: nat, src: seq<nat>, tot: nat, l: Ledger, r: nat,
                           g: set<nat>, out: Outcome, m: nat, bn: nat) {
    && Writing(s, v, nmeta, inum, off, src, StoredBy(out, tot, m, src))
    && Tidy(s, v, l, inum, off, off + tot + if out.Copied? then m else 0, r + 1)
    && Clean(s, v, l, g, inum, bn + if out.Copied? then 1 else 0)
  }

  lemma RoundStored(s: Fs, u: Fs, nmeta: nat, inum: nat, off: nat, src: seq<nat>, tot: nat, k: nat, whole: bool,
                    l: Ledger, r: nat, g: set<nat>, bn: nat, at: nat, m: nat)
    requires FoundIn(s, u, nmeta, inum, off, src, tot, l, r, g, bn) && At(u, SlotFor(inum, bn)) != 0
    requires bn < MAXFILE && off + tot == bn * BSIZE + at && at + k <= BSIZE && tot + k <= |src|
    requires if whole then k == m else tot + k == |src|
    ensures At(u, SlotFor(inum, bn)) < |u.disk| && |u.disk[At(u, SlotFor(inum, bn))]| == BSIZE
    ensures var a := At(u, SlotFor(inum, bn));
            var v := Put(u, a, at, src[tot..tot + k]);
            && StoredIn(s, v, nmeta, inum, off, src, tot, PutLedger(l, a, whole), r, PutLog(g, a, whole),
                        if whole then Copied else BadCopy, m, bn)
            && SameSlots(u, v)
  {
    var a := At(u, SlotFor(inum, bn));
    var l' := PutLedger(l, a, whole);
    WritingStore(s, u, nmeta, inum, off, src, tot, k, l', r + 1, bn, at);
    var v := Put(u, a, at, src[tot..tot + k]);
    TidyLess(s, v, l', inum, off, off + tot, off + tot + k, r + 1);
    StoreKeepsSlots(s, u, nmeta, inum, bn, v.disk[a]);
    CleanStore(s, u, v, nmeta, l, g, inum, bn);
  }

  /** A round is over: from t to u, with the log from g to g'. */
  ghost predicate Rounded(sb: Super, s: Fs, t: Fs, u: Fs, nmeta: nat, inum: nat, off: nat, n: nat, src: seq<nat>,
                          tot: nat, l: Ledger, r: nat, g: set<nat>, g': set<nat>, out: Outcome, m: nat, bn: nat) {
    && g <= g' && BmapMeta(sb, t, u, g', inum, bn) && tot + m <= n
    && (out.DiskFull? <==> At(u, SlotFor(inum, bn)) == 0)
    && (out.DiskFull? ==> Free(u.used) == 0)
    && (out.BadCopy? ==> tot <= |src| < n && off + |src| < bn * BSIZE + BSIZE)
    && (out.Copied? ==> m > 0 && tot + m <= |src| && (tot + m < n ==> bn * BSIZE + BSIZE == off + tot + m))
    && StoredIn(s, u, nmeta, inum, off, src, tot, l, r, g', out, m, bn)
    && Covered(t, u, g', inum, off + tot, out.BadCopy? && tot < |src|)
  }

  lemma RoundedFull(sb: Super, s: Fs, t: Fs, u: Fs, nmeta: nat, inum: nat, off: nat, n: nat, src: seq<nat>, tot: nat,
                    l: Ledger, l': Ledger, r: nat, g: set<nat>, g': set<nat>, bn: nat)
    requires Bmapped(sb, t, u, nmeta, l, l', g, g', inum, bn)
    requires FoundIn(s, u, nmeta, inum, off, src, tot, l', r, g', bn)
    requires At(u, SlotFor(inum, bn)) == 0 && tot <= n && forall b :: 0 <= b < |u.used| ==> u.used[b]
    ensures Rounded(sb, s, t, u, nmeta, inum, off, n, src, tot, l', r, g, g', DiskFull, 0, bn)
  {
    FreeNone(u.used);
  }

  /** What a round copies: to the end of the block or of the write. */
  function Part(off: nat, n: nat, tot: nat): nat
    requires tot < n
  {
    if n - tot < BSIZE - (off + tot) % BSIZE then n - tot else BSIZE - (off + tot) % BSIZE
  }

  ghost predicate PartOk(off: nat, n: nat, tot: nat, bn: nat, at: nat, m: nat) {
    off + tot == bn * BSIZE + at && 0 < m <= n - tot && at + m <= BSIZE && (tot + m < n ==> at + m == BSIZE)
  }

  lemma PartIs(off: nat, n: nat, tot: nat)
    requires tot < n
    ensures PartOk(off, n, tot, (off + tot) / BSIZE, (off + tot) % BSIZE, Part(off, n, tot))
  {
  }

  lemma RoundedStore(sb: Super, s: Fs, t: Fs, u: Fs, nmeta: nat, inum: nat, off: nat, n: nat, src: seq<nat>, tot: nat,
                     l: Ledger, l': Ledger, r: nat, g: set<nat>, g': set<nat>, bn: nat, at: nat, m: nat, k: nat)
    requires tot < n && tot <= |src| <= n && bn == (off + tot) / BSIZE < MAXFILE && inum < |u.inodes|
    requires PartOk(off, n, tot, bn, at, m) && k == if m < |src| - tot then m else |src| - tot
    requires Bmapped(sb, t, u, nmeta, l, l', g, g', inum, bn) == true
    requires FoundIn(s, u, nmeta, inum, off, src, tot, l', r, g', bn) == true && At(u, SlotFor(inum, bn)) != 0
    ensures At(u, SlotFor(inum, bn)) < |u.disk| && |u.disk[At(u, SlotFor(inum, bn))]| == BSIZE
    ensures var a, whole := At(u, SlotFor(inum, bn)), k == m;
            var v := Put(u, a, at, src[tot..tot + k]);
            Rounded(sb, s, t, v, nmeta, inum, off, n, src, tot, PutLedger(l', a, whole), r, g, PutLog(g', a, whole),
                    if whole then Copied else BadCopy, m, bn)
  {
    var a, whole := At(u, SlotFor(inum, bn)), k == m;
    RoundStored(s, u, nmeta, inum, off, src, tot, k, whole, l', r, g', bn, at, m);
    var v := Put(u, a, at, src[tot..tot + k]);
    assert At(v, SlotFor(inum, bn)) == a by { assert Valid(u, SlotFor(inum, bn)); }
    BmappedPut(sb, t, u, v, nmeta, l, l', g, g', inum, bn, a, at, src[tot..tot + k], whole, off + tot);
  }

  lemma BmappedPut(sb: Super, t: Fs, u: Fs, v: Fs, nmeta: nat, l: Ledger, l': Ledger, g: set<nat>, g': set<nat>,
                   inum: nat, bn: nat, a: nat, at: nat, bytes: seq<nat>, whole: bool, p: nat)
    requires Bmapped(sb, t, u, nmeta, l, l', g, g', inum, bn) && inum < |u.inodes| && bn == p / BSIZE < MAXFILE
    requires a < |u.disk| && at + |bytes| <= |u.disk[a]| && v == Put(u, a, at, bytes)
    requires SameSlots(u, v) && At(v, SlotFor(inum, bn)) == a
    ensures g <= PutLog(g', a, whole) && BmapMeta(sb, t, v, PutLog(g', a, whole), inum, bn)
    ensures Covered(t, v, PutLog(g', a, whole), inum, p, !whole && bytes != [])
  {
    BmapMetaStore(sb, t, u, v, g', PutLog(g', a, whole), inum, bn);
    PutCovered(t, u, v, g', inum, p, a, at, bytes, whole);
  }

  lemma PutCovered(t: Fs, u: Fs, v: Fs, g: set<nat>, inum: nat, p: nat, a: nat, at: nat, bytes: seq<nat>, whole: bool)
    requires ChangesLogged(t.disk, u.disk, g) && a < |u.disk| && at + |bytes| <= |u.disk[a]|
    requires v == Put(u, a, at, bytes) && At(v, SlotFor(inum, p / BSIZE)) == a
    ensures Covered(t, v, PutLog(g, a, whole), inum, p, !whole && bytes != [])
  {
    if bytes == [] { assert v.disk[a] == u.disk[a]; }
  }

  /** The loop goes on. */
  lemma RoundOn(sb: Super, s: Fs, t: Fs, u: Fs, nmeta: nat, inum: nat, off: nat, n: nat, src: seq<nat>, tot: nat,
                l: Ledger, l': Ledger, r: nat, g: set<nat>, g': set<nat>, out: Outcome, m: nat)
    requires LoopAt(sb, s, t, nmeta, inum, off, n, src, tot, l, r, g) == true
    requires Rounded(sb, s, t, u, nmeta, inum, off, n, src, tot, l', r, g, g', out, m, (off + tot) / BSIZE) == true
    requires tot < n && |src| <= n && inum < |s.inodes| && off + n <= MAXFILE * BSIZE
    requires out.Copied?
    ensures LoopAt(sb, s, u, nmeta, inum, off, n, src, tot + m, l', r + 1, g')
  {
    RoundNow(off, n, tot, r);
    RoundNext(off, n, tot, r, m);
    CoveredTrans(s, t, u, g, g', inum, off + tot, false);
    RoundMeta(sb, s, t, u, inum, off, n, src, tot, r, g, g', out, m);
  }

  /** The loop is left. */
  lemma RoundOut(sb: Super, s: Fs, t: Fs, u: Fs, nmeta: nat, inum: nat, off: nat, n: nat, src: seq<nat>, tot: nat,
                 l: Ledger, l': Ledger, r: nat, g: set<nat>, g': set<nat>, out: Outcome, m: nat)
    requires LoopAt(sb, s, t, nmeta, inum, off, n, src, tot, l, r, g) == true
    requires Rounded(sb, s, t, u, nmeta, inum, off, n, src, tot, l', r, g, g', out, m, (off + tot) / BSIZE) == true
    requires tot < n && |src| <= n && inum < |s.inodes| && off + n <= MAXFILE * BSIZE
    requires !out.Copied?
    ensures LoopEnd(sb, s, u, nmeta, inum, off, n, src, tot, StoredBy(out, tot, m, src), l', r + 1, g')
  {
    RoundNow(off, n, tot, r);
    CoveredTrans(s, t, u, g, g', inum, off + tot, out.BadCopy? && tot < |src|);
    RoundMeta(sb, s, t, u, inum, off, n, src, tot, r, g, g', out, m);
  }

  /** The metadata after a round. */
  lemma RoundMeta(sb: Super, s: Fs, t: Fs, u: Fs, inum: nat, off: nat, n: nat, src: seq<nat>, tot: nat, r: nat,
                  g: set<nat>, g': set<nat>, out: Outcome, m: nat)
    requires Round(off, n, tot, r) && tot < n && tot <= |src| && inum < |s.inodes| && off + n <= MAXFILE * BSIZE
    requires MetaAt(sb, s, t, g, inum, off / BSIZE, off / BSIZE + r) == true && KeepsSlots(s, t, inum) && g <= g'
    requires BmapMeta(sb, t, u, g', inum, (off + tot) / BSIZE) == true
    requires out.DiskFull? <==> At(u, SlotFor(inum, (off + tot) / BSIZE)) == 0
    requires out.DiskFull? ==> Free(u.used) == 0
    requires out.BadCopy? ==> tot <= |src| < n && off + |src| < (off + tot) / BSIZE * BSIZE + BSIZE
    ensures BitsLogged(sb, s.used, u.used, g') && OnlyInode(s, u, inum)
    ensures out.Copied? ==> MetaAt(sb, s, u, g', inum, off / BSIZE, off / BSIZE + (r + 1))
    ensures !out.Copied? ==> StopMatch(s, inum, off, n, src, tot, StoredBy(out, tot, m, src))
  {
    RoundNow(off, n, tot, r);
    var first, cur := off / BSIZE, off / BSIZE + r;
    assert cur < MAXFILE;
    MetaBits(sb, s, t, u, g, g', inum, first, cur);
    match out
    case Copied => MetaRound(sb, s, t, u, g, g', inum, first, cur);
    case BadCopy => StopBadCopy(sb, s, t, g, inum, off, n, src, tot, r);
    case DiskFull => StopFull(sb, s, t, u, g, g', inum, off, n, src, tot, r);
  }

  /** All that writei() changed is in the log, but for the block of byte off + tot if it stopped there; and all of it
      if and only if the arguments did not make it tear a block.  low says that the blocks of the bitmap and of
      inodes are below the data. */
  ghost predicate OutLogged(sb: Super, s: Fs, s': Fs, inum: nat, off: nat, n: nat, src: seq<nat>, tot: nat, w: nat,
                            before: set<nat>, logged: set<nat>, low: bool) {
    && Covered(s, s', logged, inum, off + tot, tot < w)
    && BitsLogged(sb, s.used, s'.used, logged) && InodesLogged(sb, s.inodes, s'.inodes, logged)
    && (low ==> (AllLogged(sb, s, s', logged) <==> !Torn(s, before, inum, off, n, src)))
  }

  /** When writei() is over, all that it changed is in the log if and only if the arguments did not make it tear a
      block. */
  lemma TornIff(sb: Super, s: Fs, t: Fs, s': Fs, nmeta: nat, inum: nat, off: nat, n: nat, src: seq<nat>, tot: nat,
                w: nat, l: Ledger, r: nat, before: set<nat>, g: set<nat>)
    requires Inv(s, nmeta) && Inv(s', nmeta) && inum < |s.inodes| && |src| <= n && off + n <= MAXFILE * BSIZE
    requires LoopEnd(sb, s, t, nmeta, inum, off, n, src, tot, w, l, r, g) == true && IBlock(sb, inum) < nmeta
    requires before <= g && Accounts(before, g, l, nmeta, true) == true
    requires s'.disk == t.disk && s'.used == t.used && OnlyInode(t, s', inum) && forall x :: At(s', x) == At(t, x)
    ensures AllLogged(sb, s, s', g + {IBlock(sb, inum)}) <==> !Torn(s, before, inum, off, n, src)
  {
    var cur, logged := (off + tot) / BSIZE, g + {IBlock(sb, inum)};
    if tot < w {
      forall slot ensures KeepsSlot(s, s', inum, slot) { assert KeepsSlot(s, t, inum, slot); }
      forall b: nat ensures CleanAt(s, s', l, logged, inum, cur, b) { assert CleanAt(s, t, l, g, inum, cur, b); }
      SameWrote(s, t, s', nmeta, inum, off, src, w);
      StoppedIff(s, s', nmeta, inum, off, src, off + tot, cur, l, before, logged);
    }
  }

  lemma SameWrote(s: Fs, t: Fs, s': Fs, nmeta: nat, inum: nat, off: nat, src: seq<nat>, w: nat)
    requires Writing(s, t, nmeta, inum, off, src, w) && s'.disk == t.disk && OnlyInode(t, s', inum)
    requires forall x :: At(s', x) == At(t, x)
    ensures Wrote(s, s', inum, off, src, w)
  {
    forall i: nat, bn: nat, o: nat ensures WroteAt(s, s', inum, off, src, w, i, bn, o) {
      assert WroteAt(s, t, inum, off, src, w, i, bn, o);
    }
  }

  const ExampleSuper := Super(0, 1)

  /** Three blocks: inodes, bitmap, and the one block of file 0, which is all zeros. */
  function Example(): Fs {
    Fs([true, true, true], [Zeros(), Zeros(), Zeros()], [Inode(BSIZE, NoAddrs()[0 := 2])], map[2 := Addr(0, 0)])
  }

  lemma ExampleTorn()
    ensures Inv(Example(), 2) && Laid(ExampleSuper, 2, 3, 1) && Torn(Example(), {}, 0, 0, 2, [7])
  {
    var s := Example();
    forall slot ensures SlotOk(s, slot) {}
    forall b ensures OwnOk(s, 2, b) {}
    forall b ensures BitOk(s, 2, b) {}
    assert DiffersAt(s, 0, 0, [7], 1, 0, 0);
  }

  /** writei() of two bytes at 0, when only the first can be read and is 7: block 2 has changed and is not logged. */
  lemma ExampleNotLogged(s': Fs, tot: nat, w: nat, logged: set<nat>)
    requires Written(Example(), s', 2, 0, 0, [7], tot, w)
    requires OutLogged(ExampleSuper, Example(), s', 0, 0, 2, [7], tot, w, {}, logged, true)
    ensures |s'.disk| == 3 && s'.disk[2] != Example().disk[2] && 2 !in logged
  {
    ExampleTorn();
    var x :| 0 <= x < 3 && s'.disk[x] != Example().disk[x] && x !in logged;
    if x != 0 { HeldBlock(s', 2, SlotFor(0, tot / BSIZE)); }
  }

  /** What writei() logged before the inode is on a ledger that keeps to the budget. */
  ghost predicate Reserved(s: Fs, inum: nat, off: nat, n: nat, before: set<nat>, body: set<nat>) {
    exists t, l, p: nat, r: nat :: ReservedBy(s, inum, off, n, before, body, t, l, p, r)
  }

  ghost predicate ReservedBy(s: Fs, inum: nat, off: nat, n: nat, before: set<nat>, body: set<nat>, t: Fs, l: Ledger,
                             p: nat, r: nat) {
    Tidy(s, t, l, inum, off, p, r) && Budget(off, n, r) && body <= before + Total(l)
  }

  /** A write of at most three blocks to a file without holes logs at most 9 blocks before it logs the inode. */
  lemma WriteBudget(s: Fs, inum: nat, off: nat, n: nat, before: set<nat>, body: set<nat>)
    requires Reserved(s, inum, off, n, before, body) && inum < |s.inodes| && WholeFile(s, inum) && n <= 3 * BSIZE
    ensures |body - before| <= 9
  {
    var t, l, p: nat, r: nat :| ReservedBy(s, inum, off, n, before, body, t, l, p, r);
    WithinBudget(s, t, l, inum, off, r, body - before);
  }

  /** writei() after the loop. */
  lemma WriteDone(sb: Super, s: Fs, t: Fs, nmeta: nat, inum: nat, off: nat, n: nat, src: seq<nat>, tot: nat, w: nat,
                  l: Ledger, r: nat, before: set<nat>, g: set<nat>, low: bool)
    requires Inv(s, nmeta) && inum < |s.inodes| == |t.inodes| && |src| <= n
    requires off <= s.inodes[inum].size && off + n <= MAXFILE * BSIZE
    requires LoopEnd(sb, s, t, nmeta, inum, off, n, src, tot, w, l, r, g) == true
    requires low ==> Laid(sb, nmeta, |t.used|, |t.inodes|) == true
    requires before <= g && Accounts(before, g, l, nmeta, low) == true
    ensures var s' := Resized(t, inum, Max(t.inodes[inum].size, off + tot));
            && Written(s, s', nmeta, inum, off, src, tot, w) == true
            && OutLogged(sb, s, s', inum, off, n, src, tot, w, before, g + {IBlock(sb, inum)}, low) == true
    ensures Reserved(s, inum, off, n, before, g) == true
  {
    FinishWrite(s, t, nmeta, inum, off, src, w, tot, l, r);
    var s' := Resized(t, inum, Max(s.inodes[inum].size, off + tot));
    if low { TornIff(sb, s, t, s', nmeta, inum, off, n, src, tot, w, l, r, before, g); }
    assert ReservedBy(s, inum, off, n, before, g, t, l, off + tot, r);
  }

  // ---------------------------------------------------------------- filewrite()

  /** What a chunk of filewrite() logged: the inode last. */
  datatype ChunkLog = ChunkLog(body: set<nat>, inode: nat)

  ghost function Union(logs: seq<ChunkLog>): set<nat> {
    if logs == [] then {} else Union(logs[..|logs| - 1]) + logs[|logs| - 1].body + {logs[|logs| - 1].inode}
  }

  lemma UnionSnoc(logs: seq<ChunkLog>, l: ChunkLog)
    ensures Union(logs + [l]) == Union(logs) + (l.body + {l.inode})
  {
    assert (logs + [l])[..|logs|] == logs;
  }

  ghost predicate ChunksOk(sb: Super, logs: seq<ChunkLog>, inum: nat, max: nat) {
    forall c :: 0 <= c < |logs| ==> |logs[c].body| < max && logs[c].inode == IBlock(sb, inum)
  }

  /** What tot bytes written at off do to the sizes of files. */
  ghost predicate Sizes(s: Fs, s': Fs, inum: nat, off: nat, tot: nat) {
    && inum < |s.inodes| == |s'.inodes|
    && forall i :: 0 <= i < |s.inodes| ==>
         s'.inodes[i].size == if i == inum && tot > 0 then Max(s.inodes[inum].size, off + tot) else s.inodes[i].size
  }

  /** filewrite() has written tot bytes in full, and w in all, logging l. */
  ghost predicate Filing(sb: Super, s: Fs, t: Fs, nmeta: nat, inum: nat, off: nat, src: seq<nat>, tot: nat, w: nat,
                         l: set<nat>) {
    && Inv(t, nmeta) && Whole(t) && tot <= w <= |src| && Wrote(s, t, inum, off, src, w) && Sizes(s, t, inum, off, tot)
    && Covered(s, t, l, inum, off + tot, tot < w)
    && BitsLogged(sb, s.used, t.used, l) && InodesLogged(sb, s.inodes, t.inodes, l)
  }

  lemma FilingStart(sb: Super, s: Fs, nmeta: nat, inum: nat, off: nat, src: seq<nat>)
    requires Inv(s, nmeta) && Whole(s) && inum < |s.inodes|
    ensures Filing(sb, s, s, nmeta, inum, off, src, 0, 0, {})
  {
    WroteNothing(s, inum, off, src);
  }

  /** One more chunk, if the ones before were written in full. */
  lemma FilingMore(sb: Super, s: Fs, t: Fs, u: Fs, nmeta: nat, inum: nat, off: nat, src: seq<nat>, tot: nat, n1: nat,
                   part: seq<nat>, r: nat, w: nat, l: set<nat>, l': set<nat>, low: bool)
    requires Filing(sb, s, t, nmeta, inum, off, src, tot, tot, l)
    requires tot + |part| <= |src| && part == src[tot..tot + |part|]
    requires Written(t, u, nmeta, inum, off + tot, part, r, w)
    requires OutLogged(sb, t, u, inum, off + tot, n1, part, r, w, {}, l', low)
    requires off + tot <= t.inodes[inum].size
    ensures Filing(sb, s, u, nmeta, inum, off, src, tot + r, tot + w, l + l')
  {
    WroteTrans(s, t, u, inum, off, src, tot, part, w);
    InodesTrans(sb, s.inodes, t.inodes, u.inodes, l, l + l');
    BitsTrans(sb, s.used, t.used, u.used, l, l + l');
  }

  lemma FilingSize(sb: Super, s: Fs, t: Fs, nmeta: nat, inum: nat, off: nat, src: seq<nat>, tot: nat, l: set<nat>)
    requires Filing(sb, s, t, nmeta, inum, off, src, tot, tot, l) && (tot > 0 ==> off <= s.inodes[inum].size)
    ensures inum < |s.inodes| == |t.inodes| && (off + tot > t.inodes[inum].size <==> off > s.inodes[inum].size)
  {
  }

  lemma FilingSnoc(sb: Super, s: Fs, t: Fs, nmeta: nat, inum: nat, off: nat, src: seq<nat>, tot: nat, w: nat,
                   logs: seq<ChunkLog>, body: set<nat>, logged: set<nat>, max: nat)
    requires Filing(sb, s, t, nmeta, inum, off, src, tot, w, Union(logs) + logged) == true
    requires logged == body + {IBlock(sb, inum)} && |body| < max && ChunksOk(sb, logs, inum, max)
    ensures var logs' := logs + [ChunkLog(body, IBlock(sb, inum))];
            Filing(sb, s, t, nmeta, inum, off, src, tot, w, Union(logs')) == true && ChunksOk(sb, logs', inum, max)
  {
    UnionSnoc(logs, ChunkLog(body, IBlock(sb, inum)));
  }

  lemma AccountsInd(before: set<nat>, g: set<nat>, l: Ledger, nmeta: nat, low: bool, a: nat)
    requires Accounts(before, g, l, nmeta, low)
    ensures Accounts(before, g + {a}, l.(ind := l.ind + {a}), nmeta, low)
  {
  }

  lemma AccountsData(before: set<nat>, g: set<nat>, l: Ledger, nmeta: nat, low: bool, a: nat, whole: bool)
    requires Accounts(before, g, l, nmeta, low)
    ensures Accounts(before, PutLog(g, a, whole), PutLedger(l, a, whole), nmeta, low)
  {
  }
}
