/** Files as byte sequences: what readi() and writei() of kernel/fs.c do, block by block, and how many
    blocks a write logs. */
module FileBytes {
  import opened Common
  import opened FileBlocks

  /** Byte p of a file. */
  function ByteOf(s: Fs, inum: nat, p: nat): nat {
    ByteAt(s, inum, p / BSIZE, p % BSIZE)
  }

  /** Every block below sz is there. */
  ghost predicate HasBlock(s: Fs, inum: nat, sz: nat, bn: nat) {
    bn < MAXFILE && bn * BSIZE < sz ==> At(s, SlotFor(inum, bn)) != 0
  }

  ghost predicate Mapped(s: Fs, inum: nat, sz: nat) {
    forall bn: nat :: HasBlock(s, inum, sz, bn)
  }

  /** No file has a hole, or is larger than a file can be. */
  ghost predicate WholeFile(s: Fs, i: nat) {
    i < |s.inodes| ==> s.inodes[i].size <= MAXFILE * BSIZE && Mapped(s, i, s.inodes[i].size)
  }

  ghost predicate Whole(s: Fs) {
    forall i: nat :: WholeFile(s, i)
  }

  // ---------------------------------------------------------------- writing

  /** From s to t, the first m bytes of src were stored at offset off of inum; no other byte of any file
      changed. */
  ghost predicate WroteAt(s: Fs, t: Fs, inum: nat, off: nat, src: seq<nat>, m: nat, i: nat, bn: nat, o: nat) {
    i < |s.inodes| && bn < MAXFILE && o < BSIZE ==>
      ByteAt(t, i, bn, o) ==
        if i == inum && off <= bn * BSIZE + o < off + m && m <= |src| then src[bn * BSIZE + o - off]
        else ByteAt(s, i, bn, o)
  }

  ghost predicate Wrote(s: Fs, t: Fs, inum: nat, off: nat, src: seq<nat>, m: nat) {
    |t.inodes| == |s.inodes| && forall i: nat, bn: nat, o: nat :: WroteAt(s, t, inum, off, src, m, i, bn, o)
  }

  lemma WroteNothing(s: Fs, inum: nat, off: nat, src: seq<nat>)
    ensures Wrote(s, s, inum, off, src, 0)
  {
  }

  lemma WroteThenGrew(s: Fs, t: Fs, u: Fs, inum: nat, off: nat, src: seq<nat>, m: nat, bn: nat)
    requires Wrote(s, t, inum, off, src, m) && Grew(t, u, inum, bn)
    ensures Wrote(s, u, inum, off, src, m)
  {
    forall i: nat, b: nat, o: nat ensures WroteAt(s, u, inum, off, src, m, i, b, o) {
      assert WroteAt(s, t, inum, off, src, m, i, b, o) && SameByte(t, u, i, b, o);
    }
  }

  /** The next m bytes are stored in the block that holds offset off + tot. */
  lemma WroteMore(s: Fs, u: Fs, nmeta: nat, inum: nat, off: nat, src: seq<nat>, tot: nat, m: nat, bn: nat, at: nat)
    requires Inv(u, nmeta) && inum < |u.inodes| && Wrote(s, u, inum, off, src, tot) && tot + m <= |src|
    requires bn < MAXFILE && off + tot == bn * BSIZE + at && at + m <= BSIZE && At(u, SlotFor(inum, bn)) != 0
    ensures At(u, SlotFor(inum, bn)) < |u.disk| && |u.disk[At(u, SlotFor(inum, bn))]| == BSIZE
    ensures var b := At(u, SlotFor(inum, bn));
            var v := WithBlock(u, b, Splice(u.disk[b], at, src[tot..tot + m]));
            Inv(v, nmeta) && Wrote(s, v, inum, off, src, tot + m)
  {
    var b := At(u, SlotFor(inum, bn));
    HeldBlock(u, nmeta, SlotFor(inum, bn));
    var data := Splice(u.disk[b], at, src[tot..tot + m]);
    var v := WithBlock(u, b, data);
    WithBlockInv(u, nmeta, SlotFor(inum, bn), data);
    var k := tot + m;
    forall i: nat, bn': nat, o: nat ensures WroteAt(s, v, inum, off, src, k, i, bn', o) {
      assert WroteAt(s, u, inum, off, src, tot, i, bn', o);
      if i < |s.inodes| && bn' < MAXFILE && o < BSIZE {
        WithBlockBytes(u, nmeta, inum, bn, data, i, bn', o);
      }
    }
  }

  /** Slots of the other files do not change, and this one loses none. */
  ghost predicate KeepsSlot(s: Fs, t: Fs, inum: nat, slot: Slot) {
    Valid(s, slot) && (slot.inum != inum || At(s, slot) != 0) ==> At(t, slot) == At(s, slot)
  }

  ghost predicate KeepsSlots(s: Fs, t: Fs, inum: nat) {
    |t.inodes| == |s.inodes| && forall slot :: KeepsSlot(s, t, inum, slot)
  }

  lemma GrewKeepsSlots(s: Fs, t: Fs, u: Fs, inum: nat, bn: nat)
    requires KeepsSlots(s, t, inum) && Grew(t, u, inum, bn)
    ensures KeepsSlots(s, u, inum)
  {
    forall slot ensures KeepsSlot(s, u, inum, slot) {
      assert KeepsSlot(s, t, inum, slot) && KeptSlot(t, u, inum, bn, slot);
    }
  }

  ghost predicate SameSlots(u: Fs, v: Fs) {
    forall t :: Valid(u, t) ==> At(v, t) == At(u, t)
  }

  lemma StoreKeepsSlots(s: Fs, u: Fs, nmeta: nat, inum: nat, bn: nat, data: seq<nat>)
    requires Inv(u, nmeta) && inum < |u.inodes| && bn < MAXFILE && At(u, SlotFor(inum, bn)) != 0 && |data| == BSIZE
    requires KeepsSlots(s, u, inum)
    ensures At(u, SlotFor(inum, bn)) < |u.disk| && KeepsSlots(s, WithBlock(u, At(u, SlotFor(inum, bn)), data), inum)
    ensures SameSlots(u, WithBlock(u, At(u, SlotFor(inum, bn)), data))
  {
    HeldBlock(u, nmeta, SlotFor(inum, bn));
    var v := WithBlock(u, At(u, SlotFor(inum, bn)), data);
    forall t | Valid(u, t) ensures At(v, t) == At(u, t) { WithBlockAt(u, nmeta, SlotFor(inum, bn), data, t); }
    forall slot ensures KeepsSlot(s, v, inum, slot) { assert KeepsSlot(s, u, inum, slot); }
  }

  /** What was written can be read back, and nothing else changed. */
  lemma WriteThenRead(s: Fs, t: Fs, inum: nat, off: nat, src: seq<nat>, m: nat, i: nat, p: nat)
    requires Wrote(s, t, inum, off, src, m) && m <= |src| && i < |s.inodes| && p < MAXFILE * BSIZE
    ensures ByteOf(t, i, p) == if i == inum && off <= p < off + m then src[p - off] else ByteOf(s, i, p)
  {
    var bn, o := p / BSIZE, p % BSIZE;
    assert p == bn * BSIZE + o;
    assert WroteAt(s, t, inum, off, src, m, i, bn, o);
  }

  // ---------------------------------------------------------------- the log

  /** What an operation has logged, by kind: data blocks, bitmap blocks, indirect blocks. */
  datatype Ledger = Ledger(data: set<nat>, maps: set<nat>, ind: set<nat>)

  const Nothing := Ledger({}, {}, {})

  function Total(l: Ledger): set<nat> {
    l.data + l.maps + l.ind
  }

  /** balloc() logs the bitmap block m and the new block b, which is to go into slot. */
  function Charged(l: Ledger, slot: Slot, b: nat, m: nat): Ledger {
    Ledger(l.data + (if slot == Addr(slot.inum, NDIRECT) then {} else {b}), l.maps + {m},
           l.ind + (if slot == Addr(slot.inum, NDIRECT) then {b} else {}))
  }

  /** Did a slot get a block? */
  function New(s: Fs, s': Fs, t: Slot): nat {
    if At(s, t) == 0 && At(s', t) != 0 then 1 else 0
  }

  function Held(s: Fs, t: Slot): set<nat> {
    if At(s, t) == 0 then {} else {At(s, t)}
  }

  /** What bmap() logs: a bitmap block for each new block, the data block and the indirect block. */
  ghost predicate BmapCharges(s: Fs, s': Fs, l: Ledger, l': Ledger, inum: nat, bn: nat) {
    && l'.data <= l.data + Held(s', SlotFor(inum, bn))
    && l'.ind <= l.ind + Held(s', Addr(inum, NDIRECT))
    && |l'.maps| <= |l.maps| + New(s, s', SlotFor(inum, bn)) + New(s, s', Addr(inum, NDIRECT))
  }

  /** What was logged since before is on the ledger; low says that bitmap blocks are below the data. */
  ghost predicate Accounts(before: set<nat>, logged: set<nat>, l: Ledger, nmeta: nat, low: bool) {
    logged <= before + Total(l) && (low ==> forall m :: m in l.maps ==> m < nmeta)
  }

  /** Every block that changed was logged. */
  ghost predicate ChangesLogged(d: seq<seq<nat>>, d': seq<seq<nat>>, logged: set<nat>) {
    |d'| == |d| && forall x :: 0 <= x < |d| && d'[x] != d[x] ==> x in logged
  }

  lemma ChangesLoggedTrans(d: seq<seq<nat>>, d1: seq<seq<nat>>, d2: seq<seq<nat>>, l1: set<nat>, l2: set<nat>)
    requires ChangesLogged(d, d1, l1) && ChangesLogged(d1, d2, l2) && l1 <= l2
    ensures ChangesLogged(d, d2, l2)
  {
  }

  /** What the first r rounds of writei() have logged at most: a data block each, a bitmap block for each
      new block, and the indirect block.  The first block is not new if the offset is inside it. */
  ghost predicate Spent(s: Fs, t: Fs, l: Ledger, inum: nat, off: nat, r: nat) {
    && |l.data| <= r
    && l.ind <= Held(t, Addr(inum, NDIRECT))
    && |l.maps| <= (if r > 0 && off % BSIZE != 0 then r - 1 else r) + New(s, t, Addr(inum, NDIRECT))
  }

  lemma UnionSize(a: set<nat>, b: set<nat>)
    ensures |a + b| <= |a| + |b|
  {
    assert a + b == a + (b - a);
    assert |a + (b - a)| == |a| + |b - a|;
    SubsetSize(b - a, b);
  }

  /** One more round. */
  lemma SpendRound(s: Fs, t: Fs, u: Fs, l: Ledger, l': Ledger, inum: nat, off: nat, r: nat, bn: nat)
    requires Spent(s, t, l, inum, off, r) && BmapCharges(t, u, l, l', inum, bn) && KeepsSlots(s, t, inum)
    requires Grew(t, u, inum, bn)
    requires inum < |s.inodes|
    requires r == 0 && off % BSIZE != 0 ==> At(t, SlotFor(inum, bn)) != 0
    ensures Spent(s, u, l', inum, off, r + 1)
    ensures Spent(s, u, l'.(data := l'.data + Held(u, SlotFor(inum, bn))), inum, off, r + 1)
  {
    var more := l.data + Held(u, SlotFor(inum, bn));
    UnionSize(l.data, Held(u, SlotFor(inum, bn)));
    SubsetSize(l'.data, more);
    assert l'.data + Held(u, SlotFor(inum, bn)) <= more;
    SubsetSize(l'.data + Held(u, SlotFor(inum, bn)), more);
    var ind := Addr(inum, NDIRECT);
    assert KeepsSlot(s, t, inum, ind) && KeptSlot(t, u, inum, bn, ind);
  }

  lemma NothingSpent(s: Fs, inum: nat, off: nat)
    requires inum < |s.inodes| && off <= s.inodes[inum].size
    ensures Tidy(s, s, Nothing, inum, off, off, 0)
  {
  }

  /** The rounds that a write of at most three blocks takes. */
  function Rounds(off: nat): nat {
    if off % BSIZE != 0 then 4 else 3
  }

  ghost predicate Budget(off: nat, n: nat, r: nat) {
    n <= 3 * BSIZE ==> r <= Rounds(off)
  }

  /** Round r of a write of n bytes starts after tot of them: at a block boundary but for the first round. */
  ghost predicate Round(off: nat, n: nat, tot: nat, r: nat) {
    (r == 0 ==> tot == 0) && (tot < n && r > 0 ==> off + tot == (off / BSIZE + r) * BSIZE) && Budget(off, n, r)
  }

  lemma RoundStart(off: nat, n: nat)
    ensures Round(off, n, 0, 0)
  {
  }

  lemma RoundNow(off: nat, n: nat, tot: nat, r: nat)
    requires Round(off, n, tot, r) && tot < n
    ensures (r == 0 ==> tot == 0) && (off + tot) / BSIZE == off / BSIZE + r && Budget(off, n, r + 1)
  {
  }

  lemma RoundNext(off: nat, n: nat, tot: nat, r: nat, m: nat)
    requires Round(off, n, tot, r) && tot < n && (tot + m < n ==> (off + tot) / BSIZE * BSIZE + BSIZE == off + tot + m)
    ensures Round(off, n, tot + m, r + 1)
  {
    RoundNow(off, n, tot, r);
  }

  /** The budget of an operation: 4 data, 4 bitmap and 1 indirect block, or fewer, before the inode block. */
  lemma WithinBudget(s: Fs, t: Fs, l: Ledger, inum: nat, off: nat, r: nat, logged: set<nat>)
    requires Spent(s, t, l, inum, off, r) && logged <= Total(l)
    requires r <= Rounds(off)
    ensures |logged| <= 9
  {
    SubsetSize(logged, Total(l));
    UnionSize(l.data + l.maps, l.ind);
    UnionSize(l.data, l.maps);
    SubsetSize(l.ind, Held(t, Addr(inum, NDIRECT)));
  }

  // ---------------------------------------------------------------- writei(), step by step

  datatype Outcome = Copied | DiskFull | BadCopy

  /** writei() has stored m bytes. */
  ghost predicate Writing(s: Fs, t: Fs, nmeta: nat, inum: nat, off: nat, src: seq<nat>, m: nat) {
    && Inv(t, nmeta) && inum < |s.inodes| && SameSizes(s, t) && KeepsSlots(s, t, inum) && |t.disk| == |s.disk|
    && Wrote(s, t, inum, off, src, m)
  }

  function Max(a: nat, b: nat): nat {
    if a > b then a else b
  }

  /** If the file had no hole, its blocks up to p are there and the log is within its budget. */
  ghost predicate Tidy(s: Fs, t: Fs, l: Ledger, inum: nat, off: nat, p: nat, r: nat) {
    inum < |s.inodes| && WholeFile(s, inum) ==>
      Mapped(t, inum, Max(s.inodes[inum].size, p)) && Spent(s, t, l, inum, off, r)
  }

  /** bmap() for the block at off + tot. */
  lemma WritingBmap(s: Fs, t: Fs, u: Fs, nmeta: nat, inum: nat, off: nat, src: seq<nat>, tot: nat, l: Ledger,
                    l': Ledger, r: nat, bn: nat)
    requires Writing(s, t, nmeta, inum, off, src, tot) && Tidy(s, t, l, inum, off, off + tot, r)
    requires Inv(u, nmeta) && Grew(t, u, inum, bn) && BmapCharges(t, u, l, l', inum, bn)
    requires off <= s.inodes[inum].size && bn < MAXFILE && bn * BSIZE <= off + tot < (bn + 1) * BSIZE
    requires (r == 0 ==> tot == 0)
    ensures Writing(s, u, nmeta, inum, off, src, tot) && Tidy(s, u, l', inum, off, off + tot, r + 1)
    ensures Tidy(s, u, l'.(data := l'.data + Held(u, SlotFor(inum, bn))), inum, off, off + tot, r + 1)
  {
    WroteThenGrew(s, t, u, inum, off, src, tot, bn);
    GrewKeepsSlots(s, t, u, inum, bn);
    if WholeFile(s, inum) {
      if r == 0 && off % BSIZE != 0 { assert HasBlock(t, inum, Max(s.inodes[inum].size, off + tot), bn); }
      SpendRound(s, t, u, l, l', inum, off, r, bn);
      var z := Max(s.inodes[inum].size, off + tot);
      forall b: nat ensures HasBlock(u, inum, z, b) {
        assert HasBlock(t, inum, z, b) && KeptSlot(t, u, inum, bn, SlotFor(inum, b));
      }
    }
  }

  /** Storing k more bytes in that block. */
  lemma WritingStore(s: Fs, u: Fs, nmeta: nat, inum: nat, off: nat, src: seq<nat>, tot: nat, k: nat, l: Ledger, r: nat,
                     bn: nat, at: nat)
    requires Writing(s, u, nmeta, inum, off, src, tot) && Tidy(s, u, l, inum, off, off + tot, r) && tot + k <= |src|
    requires bn < MAXFILE && off + tot == bn * BSIZE + at && at + k <= BSIZE && At(u, SlotFor(inum, bn)) != 0
    ensures At(u, SlotFor(inum, bn)) < |u.disk| && |u.disk[At(u, SlotFor(inum, bn))]| == BSIZE
    ensures var b := At(u, SlotFor(inum, bn));
            var v := WithBlock(u, b, Splice(u.disk[b], at, src[tot..tot + k]));
            Writing(s, v, nmeta, inum, off, src, tot + k) && Tidy(s, v, l, inum, off, off + tot + k, r)
  {
    WroteMore(s, u, nmeta, inum, off, src, tot, k, bn, at);
    var b := At(u, SlotFor(inum, bn));
    var data := Splice(u.disk[b], at, src[tot..tot + k]);
    var v := WithBlock(u, b, data);
    StoreKeepsSlots(s, u, nmeta, inum, bn, data);
    if WholeFile(s, inum) {
      var z, z' := Max(s.inodes[inum].size, off + tot), Max(s.inodes[inum].size, off + tot + k);
      forall x: nat ensures HasBlock(v, inum, z', x) {
        assert HasBlock(u, inum, z, x);
        assert x < MAXFILE ==> Valid(u, SlotFor(inum, x));
      }
      assert Valid(u, Addr(inum, NDIRECT));
    }
  }

  lemma TidyLess(s: Fs, t: Fs, l: Ledger, inum: nat, off: nat, p: nat, p': nat, r: nat)
    requires inum < |s.inodes| && Tidy(s, t, l, inum, off, p', r) && p <= p'
    ensures Tidy(s, t, l, inum, off, p, r)
  {
    if WholeFile(s, inum) {
      var z, z' := Max(s.inodes[inum].size, p), Max(s.inodes[inum].size, p');
      forall b: nat ensures HasBlock(t, inum, z, b) { assert HasBlock(t, inum, z', b); }
    }
  }

  function Resized(s: Fs, inum: nat, sz: nat): Fs
    requires inum < |s.inodes|
  {
    s.(inodes := s.inodes[inum := s.inodes[inum].(size := sz)])
  }

  /** The size of a file has no part in where its bytes are. */
  lemma ResizedSame(s: Fs, nmeta: nat, inum: nat, sz: nat)
    requires Inv(s, nmeta) && inum < |s.inodes|
    ensures Inv(Resized(s, inum, sz), nmeta)
    ensures forall t :: At(Resized(s, inum, sz), t) == At(s, t)
    ensures forall i: nat, bn: nat, o: nat :: ByteAt(Resized(s, inum, sz), i, bn, o) == ByteAt(s, i, bn, o)
  {
    var s' := Resized(s, inum, sz);
    forall t ensures At(s', t) == At(s, t) {}
    forall t ensures SlotOk(s', t) { assert SlotOk(s, t); }
    forall b ensures OwnOk(s', nmeta, b) { assert OwnOk(s, nmeta, b); }
    forall b ensures BitOk(s', nmeta, b) { assert BitOk(s, nmeta, b); }
  }

  /** The end of writei(): bytes as written, the size raised to the end of what was copied in full. */
  lemma WritingDone(s: Fs, t: Fs, nmeta: nat, inum: nat, off: nat, src: seq<nat>, m: nat, tot: nat, l: Ledger, r: nat)
    requires Writing(s, t, nmeta, inum, off, src, m) && Tidy(s, t, l, inum, off, off + tot, r)
    ensures var t' := Resized(t, inum, Max(s.inodes[inum].size, off + tot));
            && Inv(t', nmeta) && Wrote(s, t', inum, off, src, m) && KeepsSlots(s, t', inum)
            && (forall i :: 0 <= i < |s.inodes| && i != inum ==> t'.inodes[i].size == s.inodes[i].size)
            && Tidy(s, t', l, inum, off, off + tot, r)
  {
    var z := Max(s.inodes[inum].size, off + tot);
    var t' := Resized(t, inum, z);
    ResizedSame(t, nmeta, inum, z);
    forall i: nat, bn: nat, o: nat ensures WroteAt(s, t', inum, off, src, m, i, bn, o) {
      assert WroteAt(s, t, inum, off, src, m, i, bn, o);
    }
    forall x ensures KeepsSlot(s, t', inum, x) { assert KeepsSlot(s, t, inum, x); }
    if WholeFile(s, inum) {
      forall b: nat ensures HasBlock(t', inum, z, b) { assert HasBlock(t, inum, z, b); }
    }
  }

  /** itrunc() leaves no hole either. */
  lemma TruncatedWhole(s: Fs, inum: nat, used: seq<bool>)
    requires Whole(s) && inum < |s.inodes|
    ensures Whole(Truncated(s, inum, used))
  {
    var s' := Truncated(s, inum, used);
    forall i: nat ensures WholeFile(s', i) {
      assert WholeFile(s, i);
      if i < |s.inodes| {
        var z := s'.inodes[i].size;
        forall b: nat ensures HasBlock(s', i, z, b) {
          assert HasBlock(s, i, z, b);
          TruncatedAt(s, inum, used, SlotFor(i, b));
        }
      }
    }
  }

  /** The effect of writei() when it returns tot: w bytes of src (more than tot only if either_copyin()
      failed inside a block) were stored, nothing else changed, the size covers tot bytes. */
  ghost predicate Written(s: Fs, s': Fs, nmeta: nat, inum: nat, off: nat, src: seq<nat>, tot: nat, w: nat) {
    && Inv(s', nmeta) && tot <= w <= |src| && Wrote(s, s', inum, off, src, w) && inum < |s.inodes| == |s'.inodes|
    && (forall i :: 0 <= i < |s.inodes| ==>
          s'.inodes[i].size == if i == inum then Max(s.inodes[inum].size, off + tot) else s.inodes[i].size)
    && (Whole(s) ==> Whole(s'))
  }

  /** writei() leaves no hole in any file. */
  lemma StaysWhole(s: Fs, t: Fs, inum: nat, sz: nat)
    requires Whole(s) && inum < |s.inodes| && KeepsSlots(s, t, inum) && sz <= MAXFILE * BSIZE
    requires forall i :: 0 <= i < |s.inodes| ==> t.inodes[i].size == if i == inum then sz else s.inodes[i].size
    requires Mapped(t, inum, sz)
    ensures Whole(t)
  {
    forall i: nat ensures WholeFile(t, i) {
      assert WholeFile(s, i);
      if i < |s.inodes| && i != inum {
        var z := s.inodes[i].size;
        forall b: nat ensures HasBlock(t, i, z, b) {
          assert HasBlock(s, i, z, b) && KeepsSlot(s, t, inum, SlotFor(i, b));
        }
      }
    }
  }

  /** iupdate() at the end of writei(). */
  lemma FinishWrite(s: Fs, t: Fs, nmeta: nat, inum: nat, off: nat, src: seq<nat>, w: nat, tot: nat, l: Ledger, r: nat)
    requires Writing(s, t, nmeta, inum, off, src, w) && Tidy(s, t, l, inum, off, off + tot, r) && tot <= w <= |src|
    requires off + tot <= MAXFILE * BSIZE && off <= s.inodes[inum].size
    ensures Written(s, Resized(t, inum, Max(s.inodes[inum].size, off + tot)), nmeta, inum, off, src, tot, w)
    ensures forall x :: At(Resized(t, inum, Max(s.inodes[inum].size, off + tot)), x) == At(t, x)
  {
    var z := Max(s.inodes[inum].size, off + tot);
    WritingDone(s, t, nmeta, inum, off, src, w, tot, l, r);
    ResizedSame(t, nmeta, inum, z);
    if Whole(s) {
      assert WholeFile(s, inum);
      StaysWhole(s, Resized(t, inum, z), inum, z);
    }
  }

  /** One chunk of filewrite() after another. */
  lemma WroteTrans(s: Fs, t: Fs, u: Fs, inum: nat, off: nat, src: seq<nat>, i: nat, part: seq<nat>, w: nat)
    requires Wrote(s, t, inum, off, src, i) && Wrote(t, u, inum, off + i, part, w)
    requires i + |part| <= |src| && part == src[i..i + |part|] && w <= |part|
    ensures Wrote(s, u, inum, off, src, i + w)
  {
    var k, at := i + w, off + i;
    forall x: nat, bn: nat, o: nat ensures WroteAt(s, u, inum, off, src, k, x, bn, o) {
      assert WroteAt(s, t, inum, off, src, i, x, bn, o) && WroteAt(t, u, inum, at, part, w, x, bn, o);
    }
  }

  // ---------------------------------------------------------------- reading

  /** dst holds the bytes of the file from off on. */
  ghost predicate ReadSoFar(s: Fs, inum: nat, off: nat, dst: seq<nat>) {
    forall x :: 0 <= x < |dst| ==> dst[x] == ByteOf(s, inum, off + x)
  }

  /** readi() has not changed what files contain; without holes it has changed nothing at all. */
  ghost predicate Reading(s: Fs, t: Fs, nmeta: nat, inum: nat) {
    && Inv(t, nmeta) && SameSizes(s, t) && SameBytes(s, t)
    && (WholeFile(s, inum) ==> t == s)
  }

  lemma ReadingBmap(s: Fs, t: Fs, u: Fs, nmeta: nat, inum: nat, bn: nat)
    requires Reading(s, t, nmeta, inum) && Inv(u, nmeta) && Grew(t, u, inum, bn) && inum < |s.inodes|
    requires At(t, SlotFor(inum, bn)) != 0 ==> u == t
    requires bn < MAXFILE && bn * BSIZE < s.inodes[inum].size
    ensures Reading(s, u, nmeta, inum) && (WholeFile(s, inum) ==> At(u, SlotFor(inum, bn)) != 0)
  {
    if WholeFile(s, inum) { assert HasBlock(s, inum, s.inodes[inum].size, bn); }
    forall i: nat, b: nat, o: nat ensures SameByte(s, u, i, b, o) {
      assert SameByte(s, t, i, b, o) && SameByte(t, u, i, b, o);
    }
  }

  /** The next k bytes come from the block that holds them. */
  lemma ReadMore(s: Fs, u: Fs, nmeta: nat, inum: nat, off: nat, dst: seq<nat>, k: nat, bn: nat, at: nat)
    requires Inv(u, nmeta) && SameBytes(s, u) && inum < |s.inodes| && ReadSoFar(s, inum, off, dst)
    requires bn < MAXFILE && off + |dst| == bn * BSIZE + at && at + k <= BSIZE && At(u, SlotFor(inum, bn)) != 0
    ensures At(u, SlotFor(inum, bn)) < |u.disk| && |u.disk[At(u, SlotFor(inum, bn))]| == BSIZE
    ensures ReadSoFar(s, inum, off, dst + u.disk[At(u, SlotFor(inum, bn))][at..at + k])
  {
    HeldBlock(u, nmeta, SlotFor(inum, bn));
    var block := u.disk[At(u, SlotFor(inum, bn))];
    var all := dst + block[at..at + k];
    forall x | 0 <= x < |all| ensures all[x] == ByteOf(s, inum, off + x) {
      if x >= |dst| {
        var o := at + x - |dst|;
        assert off + x == bn * BSIZE + o;
        InBlock(bn, o);
        assert SameByte(s, u, inum, bn, o);
      }
    }
  }

  lemma InBlock(bn: nat, o: nat)
    requires o < BSIZE
    ensures (bn * BSIZE + o) / BSIZE == bn && (bn * BSIZE + o) % BSIZE == o
  {
  }
}
