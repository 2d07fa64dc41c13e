/** balloc(), bfree(), bmap(), itrunc(), readi() and writei() of kernel/fs.c and the chunks of
    filewrite() of kernel/file.c, in place on the state of FileBlocks. */
module FileSystem {
  import opened Common
  import opened FileBlocks
  import opened FileBytes
  import opened FileLog

  const MAXOPBLOCKS := 10

  class FileSystem {
    const nmeta: nat
    const sb: Super
    var used: seq<bool>
    var disk: seq<seq<nat>>
    var inodes: seq<Inode>
    var logged: set<nat>
    ghost var owner: map<nat, Slot>
    ghost var ledger: Ledger        // what was logged since before
    ghost var before: set<nat>
    ghost var body: set<nat>        // what the last writei() had logged before the inode

    ghost function St(): Fs
      reads this
    {
      Fs(used, disk, inodes, owner)
    }

    ghost predicate Accounted()
      reads this
    {
      Accounts(before, logged, ledger, nmeta, LaidOut())
    }

    ghost predicate LaidOut()
      reads this`used, this`inodes
    {
      Laid(sb, nmeta, |used|, |inodes|)
    }

    ghost predicate NoneFree()
      reads this`used
    {
      forall b :: 0 <= b < |used| ==> used[b]
    }

    /** balloc(): the first free block, marked and zeroed; 0 if there is none. */
    method Balloc(ghost slot: Slot) returns (b: nat)
      requires Inv(St(), nmeta) && Accounted()
      modifies this`used, this`disk, this`logged, this`ledger
      ensures Accounted()
      ensures b == 0 ==> unchanged(this) && NoneFree()
      ensures b != 0 ==> nmeta <= b < |old(used)| && !old(used)[b] && forall x :: 0 <= x < b ==> old(used)[x]
      ensures b != 0 ==> used == old(used)[b := true] && disk == old(disk)[b := Zeros()]
      ensures b != 0 ==> logged == old(logged) + {BBlock(sb, b), b}
      ensures b != 0 ==> ledger == Charged(old(ledger), slot, b, BBlock(sb, b))
      ensures AllLogged(sb, old(St()), St(), logged)
    {
      var base := 0;
      while base < |used|
        invariant forall x :: 0 <= x < base && x < |used| ==> used[x]
        invariant unchanged(this)
      {
        var bi := 0;
        while bi < BPB && base + bi < |used|
          invariant bi <= BPB && forall x :: 0 <= x < base + bi && x < |used| ==> used[x]
          invariant unchanged(this)
        {
          if !used[base + bi] {
            b := base + bi;
            assert BitOk(St(), nmeta, b);
            used, disk := used[b := true], disk[b := Zeros()];
            logged := logged + {BBlock(sb, b), b};
            ledger := Charged(ledger, slot, b, BBlock(sb, b));
            return;
          }
          bi := bi + 1;
        }
        base := base + BPB;
      }
      b := 0;
    }

    /** bfree(): panics if the bit is clear. */
    method Bfree(b: nat)
      requires b < |used| && used[b]
      modifies this`used, this`logged
      ensures used == old(used)[b := false] && logged == old(logged) + {BBlock(sb, b)}
    {
      used := used[b := false];
      logged := logged + {BBlock(sb, b)};
    }

    /** A new block for an empty slot. */
    method Fill(slot: Slot) returns (b: nat)
      requires Inv(St(), nmeta) && Accounted() && Valid(St(), slot) && At(St(), slot) == 0
      requires slot.Entry? ==> At(St(), Addr(slot.inum, NDIRECT)) != 0
      modifies this`used, this`disk, this`inodes, this`owner, this`logged, this`ledger
      ensures Accounted() == true && |used| == |old(used)| && |inodes| == |old(inodes)|
      ensures b == 0 ==> unchanged(this) && NoneFree()
      ensures b != 0 ==> Filled(sb, old(St()), St(), nmeta, old(ledger), ledger, old(logged), logged, slot, b) == true
    {
      ghost var s, l, g := St(), ledger, logged;
      b := Balloc(slot);
      if b == 0 { return; }
      CanAttachFacts(s, nmeta, slot, b);
      match slot {
        case Addr(i, k) =>
          inodes := inodes[i := inodes[i].(addrs := inodes[i].addrs[k := b])];
        case Entry(i, j) =>
          var a := inodes[i].addrs[NDIRECT];
          AccountsInd(before, logged, ledger, nmeta, LaidOut(), a);
          disk := disk[a := Put32(disk[a], j, b)];
          logged := logged + {a};
          ledger := ledger.(ind := ledger.ind + {a});
      }
      owner := owner[b := slot];
    }

    /** The indirect block, made if need be. */
    method IndirectBlock(inum: nat, ghost bn: nat) returns (a: nat)
      requires Inv(St(), nmeta) && Accounted() && inum < |inodes| && NDIRECT <= bn < MAXFILE
      modifies this`used, this`disk, this`inodes, this`owner, this`logged, this`ledger
      ensures Accounted() == true && |used| == |old(used)| && |inodes| == |old(inodes)|
      ensures a == At(St(), Addr(inum, NDIRECT)) && (a == 0 ==> NoneFree() && unchanged(this))
      ensures Bmapped(sb, old(St()), St(), nmeta, old(ledger), ledger, old(logged), logged, inum, bn) == true
    {
      ghost var s, l, g := St(), ledger, logged;
      a := inodes[inum].addrs[NDIRECT];
      BmappedNone(sb, s, nmeta, l, g, inum, bn);
      if a == 0 {
        a := Fill(Addr(inum, NDIRECT));
        if a != 0 { BmappedFill(sb, s, St(), nmeta, l, ledger, g, logged, Addr(inum, NDIRECT), a, bn); }
      }
    }

    /** An entry of the indirect block, made if need be. */
    method IndirectEntry(inum: nat, a: nat, j: nat) returns (addr: nat)
      requires Inv(St(), nmeta) && Accounted() && inum < |inodes| && j < NINDIRECT
      requires a == At(St(), Addr(inum, NDIRECT)) != 0
      modifies this`used, this`disk, this`inodes, this`owner, this`logged, this`ledger
      ensures Accounted() == true && |used| == |old(used)| && |inodes| == |old(inodes)|
      ensures addr == At(St(), Entry(inum, j)) && (addr == 0 ==> NoneFree())
      ensures Bmapped(sb, old(St()), St(), nmeta, old(ledger), ledger, old(logged), logged, inum, j + NDIRECT) == true
    {
      ghost var s, l, g := St(), ledger, logged;
      HeldBlock(s, nmeta, Addr(inum, NDIRECT));
      addr := Get32(disk[a], j);
      BmappedNone(sb, s, nmeta, l, g, inum, j + NDIRECT);
      if addr == 0 {
        addr := Fill(Entry(inum, j));
        if addr != 0 { BmappedFill(sb, s, St(), nmeta, l, ledger, g, logged, Entry(inum, j), addr, j + NDIRECT); }
      }
    }

    /** bmap() beyond the direct blocks. */
    method BmapIndirect(inum: nat, j: nat) returns (addr: nat)
      requires Inv(St(), nmeta) && Accounted() && inum < |inodes| && j < NINDIRECT
      modifies this`used, this`disk, this`inodes, this`owner, this`logged, this`ledger
      ensures Accounted() == true && |used| == |old(used)| && |inodes| == |old(inodes)|
      ensures addr == At(St(), Entry(inum, j)) && (addr == 0 ==> NoneFree())
      ensures Bmapped(sb, old(St()), St(), nmeta, old(ledger), ledger, old(logged), logged, inum, j + NDIRECT) == true
    {
      ghost var s, l, g, bn := St(), ledger, logged, j + NDIRECT;
      var a := IndirectBlock(inum, bn);
      if a == 0 { return 0; }
      ghost var t, l1, g1 := St(), ledger, logged;
      addr := IndirectEntry(inum, a, j);
      BmappedTrans(sb, s, t, St(), nmeta, l, l1, ledger, g, g1, logged, inum, bn);
    }

    /** bmap(): the block that holds block bn of the file, made if need be; 0 if the disk is full.  bn must
        be below MAXFILE. */
    method Bmap(inum: nat, bn: nat) returns (addr: nat)
      requires Inv(St(), nmeta) && Accounted() && inum < |inodes| && bn < MAXFILE
      modifies this`used, this`disk, this`inodes, this`owner, this`logged, this`ledger
      ensures Accounted() == true && |used| == |old(used)| && |inodes| == |old(inodes)|
      ensures addr == At(St(), SlotFor(inum, bn)) && (addr == 0 ==> NoneFree())
      ensures Bmapped(sb, old(St()), St(), nmeta, old(ledger), ledger, old(logged), logged, inum, bn) == true
    {
      ghost var s, l, g := St(), ledger, logged;
      if bn < NDIRECT {
        addr := inodes[inum].addrs[bn];
        BmappedNone(sb, s, nmeta, l, g, inum, bn);
        if addr == 0 {
          addr := Fill(Addr(inum, bn));
          if addr != 0 { BmappedFill(sb, s, St(), nmeta, l, ledger, g, logged, Addr(inum, bn), addr, bn); }
        }
      } else {
        addr := BmapIndirect(inum, bn - NDIRECT);
      }
    }

    /** either_copyin() to offset at of block a, logged if that is all that was asked for. */
    method StoreBytes(a: nat, at: nat, bytes: seq<nat>, whole: bool)
      requires Accounted() && a < |disk| && at + |bytes| <= |disk[a]|
      modifies this`disk, this`logged, this`ledger
      ensures St() == Put(old(St()), a, at, bytes) && Accounted() == true
      ensures ledger == PutLedger(old(ledger), a, whole) && logged == PutLog(old(logged), a, whole)
    {
      AccountsData(before, logged, ledger, nmeta, LaidOut(), a, whole);
      disk := disk[a := Splice(disk[a], at, bytes)];
      if whole {
        logged := logged + {a};
        ledger := ledger.(data := ledger.data + {a});
      }
    }

    /** One round of writei(): the block at off + tot.  src is the part of the source that either_copyin()
        can read. */
    method WriteNext(inum: nat, off: nat, n: nat, src: seq<nat>, tot: nat, bn: nat, ghost s: Fs, ghost r: nat)
      returns (out: Outcome, m: nat)
      requires Inv(St(), nmeta) && InRound(s, St(), nmeta, inum, off, src, tot, ledger, r, logged, bn) == true
      requires Accounted() == true && bn == (off + tot) / BSIZE && (r == 0 ==> tot == 0)
      requires inum < |s.inodes| == |inodes|
      requires tot < n && tot <= |src| <= n && off <= s.inodes[inum].size && off + n <= MAXFILE * BSIZE
      modifies this`used, this`disk, this`inodes, this`owner, this`logged, this`ledger
      ensures Accounted() == true && |used| == |old(used)| && |inodes| == |old(inodes)|
      ensures (out.DiskFull? ==> NoneFree())
      ensures Rounded(sb, s, old(St()), St(), nmeta, inum, off, n, src, tot, ledger, r, old(logged), logged, out, m, bn)
                == true
    {
      ghost var t, l, g := St(), ledger, logged;
      var addr := Bmap(inum, bn);
      ghost var u, l1, g1 := St(), ledger, logged;
      RoundFound(sb, s, t, u, nmeta, inum, off, src, tot, l, l1, r, g, g1, bn);
      if addr == 0 {
        RoundedFull(sb, s, t, u, nmeta, inum, off, n, src, tot, l, l1, r, g, g1, bn);
        return DiskFull, 0;
      }
      m := Part(off, n, tot);
      var k := if m < |src| - tot then m else |src| - tot;
      var at := (off + tot) % BSIZE;
      PartIs(off, n, tot);
      RoundedStore(sb, s, t, u, nmeta, inum, off, n, src, tot, l, l1, r, g, g1, bn, at, m, k);
      StoreBytes(addr, at, src[tot..tot + k], k == m);
      out := if k == m then Copied else BadCopy;
    }

    /** A round from the start of the write on. */
    method WriteRound(inum: nat, off: nat, n: nat, src: seq<nat>, tot: nat, ghost s: Fs, ghost r: nat)
      returns (out: Outcome, m: nat)
      requires LoopAt(sb, s, St(), nmeta, inum, off, n, src, tot, ledger, r, logged) == true && Accounted() == true
      requires tot < n && |src| <= n && inum < |s.inodes| && off <= s.inodes[inum].size && off + n <= MAXFILE * BSIZE
      modifies this`used, this`disk, this`inodes, this`owner, this`logged, this`ledger
      ensures Accounted() == true && old(logged) <= logged && |used| == |old(used)| && |inodes| == |old(inodes)|
      ensures out.Copied? ==> 0 < m <= n - tot
      ensures out.Copied? ==> LoopAt(sb, s, St(), nmeta, inum, off, n, src, tot + m, ledger, r + 1, logged) == true
      ensures !out.Copied? ==>
                LoopEnd(sb, s, St(), nmeta, inum, off, n, src, tot, StoredBy(out, tot, m, src), ledger, r + 1, logged)
                  == true
      ensures (out.DiskFull? ==> NoneFree()) && (out.BadCopy? ==> |src| < n)
    {
      ghost var t, l, g := St(), ledger, logged;
      LoopRound(sb, s, t, nmeta, inum, off, n, src, tot, l, r, g);
      out, m := WriteNext(inum, off, n, src, tot, (off + tot) / BSIZE, s, r);
      if out.Copied? {
        RoundOn(sb, s, t, St(), nmeta, inum, off, n, src, tot, l, ledger, r, g, logged, out, m);
      } else {
        RoundOut(sb, s, t, St(), nmeta, inum, off, n, src, tot, l, ledger, r, g, logged, out, m);
      }
    }

    /** The loop of writei(). */
    method WriteLoop(inum: nat, off: nat, n: nat, src: seq<nat>) returns (tot: nat, w: nat, ghost r: nat)
      requires Inv(St(), nmeta) && inum < |inodes| && |src| <= n && off <= inodes[inum].size
      requires off + n <= MAXFILE * BSIZE
      requires ledger == Nothing && before == logged
      modifies this`used, this`disk, this`inodes, this`owner, this`logged, this`ledger
      ensures Accounted() == true && old(logged) <= logged && |used| == |old(used)| && |inodes| == |old(inodes)|
      ensures LoopEnd(sb, old(St()), St(), nmeta, inum, off, n, src, tot, w, ledger, r, logged) == true
      ensures tot < n ==> w == |src| < n || NoneFree()
    {
      ghost var s := St();
      tot, r := 0, 0;
      LoopStart(sb, s, nmeta, inum, off, n, src, logged);
      while tot < n
        invariant tot <= n && LoopAt(sb, s, St(), nmeta, inum, off, n, src, tot, ledger, r, logged) == true
        invariant Accounted() == true && old(logged) <= logged && |used| == |s.used| && |inodes| == |s.inodes|
        decreases n - tot
      {
        var out, m := WriteRound(inum, off, n, src, tot, s, r);
        r := r + 1;
        if !out.Copied? {
          w := StoredBy(out, tot, m, src);
          return;
        }
        tot := tot + m;
      }
      LoopDone(sb, s, St(), nmeta, inum, off, n, src, ledger, r, logged);
      w := tot;
    }

    /** The end of writei(): the new size, and iupdate(). */
    method SetSize(inum: nat, end: nat)
      requires inum < |inodes|
      modifies this`inodes, this`logged
      ensures St() == Resized(old(St()), inum, Max(old(inodes)[inum].size, end))
      ensures logged == old(logged) + {IBlock(sb, inum)}
    {
      if end > inodes[inum].size { inodes := inodes[inum := inodes[inum].(size := end)]; }
      logged := logged + {IBlock(sb, inum)};
    }

    /** writei() after its range checks. */
    method WriteInRange(inum: nat, off: nat, n: nat, src: seq<nat>) returns (tot: nat, w: nat)
      requires Inv(St(), nmeta) && inum < |inodes| && |src| <= n && off <= inodes[inum].size
      requires off + n <= MAXFILE * BSIZE
      modifies this`used, this`disk, this`inodes, this`owner, this`logged, this`ledger, this`before, this`body
      ensures Written(old(St()), St(), nmeta, inum, off, src, tot, w) == true && tot <= w <= |src|
      ensures old(logged) <= body && logged == body + {IBlock(sb, inum)}
      ensures tot < n ==> w == |src| < n || NoneFree()
      ensures OutLogged(sb, old(St()), St(), inum, off, n, src, tot, w, old(logged), logged, old(LaidOut())) == true
      ensures Reserved(old(St()), inum, off, n, old(logged), body) == true
    {
      ghost var s := St();
      before, ledger := logged, Nothing;
      ghost var r;
      tot, w, r := WriteLoop(inum, off, n, src);
      ghost var t, low := St(), LaidOut();
      body := logged;
      SetSize(inum, off + tot);
      WriteDone(sb, s, t, nmeta, inum, off, n, src, tot, w, ledger, r, before, body, low);
    }

    /** writei(): returns how many bytes it wrote, or -1.  src is the part of the source that can be read;
        offsets and counts are 32-bit. */
    method Writei(inum: nat, off: nat, n: nat, src: seq<nat>) returns (ret: int, w: nat)
      requires Inv(St(), nmeta) && inum < |inodes| && off < 0x1_0000_0000 && n < 0x1_0000_0000 && |src| <= n
      modifies this`used, this`disk, this`inodes, this`owner, this`logged, this`ledger, this`before, this`body
      ensures ret == -1 <==> off > old(inodes)[inum].size || off + n > MAXFILE * BSIZE
      ensures ret == -1 ==> St() == old(St()) && logged == old(logged)
      ensures ret != -1 ==> 0 <= ret <= n && Written(old(St()), St(), nmeta, inum, off, src, ret, w)
      ensures 0 <= ret < n ==> w == |src| < n || NoneFree()
      ensures ret != -1 ==>
                OutLogged(sb, old(St()), St(), inum, off, n, src, ret, w, old(logged), logged, old(LaidOut()))
      ensures ret != -1 ==> old(logged) <= body && logged == body + {IBlock(sb, inum)}
      ensures ret != -1 && WholeFile(old(St()), inum) && n <= 3 * BSIZE ==> |body - old(logged)| < MAXOPBLOCKS
    {
      if off > inodes[inum].size || (off + n) % 0x1_0000_0000 < off { return -1, 0; }
      if (off + n) % 0x1_0000_0000 > MAXFILE * BSIZE { return -1, 0; }
      ghost var s := St();
      ret, w := WriteInRange(inum, off, n, src);
      if WholeFile(s, inum) && n <= 3 * BSIZE { WriteBudget(s, inum, off, n, old(logged), body); }
    }

    /** One chunk of filewrite(), a transaction of its own: begin_op(), writei(), end_op(). */
    method WriteChunk(inum: nat, off: nat, n1: nat, part: seq<nat>) returns (ret: int, w: nat)
      requires Inv(St(), nmeta) && Whole(St()) && inum < |inodes| && off < 0x1_0000_0000
      requires n1 <= 3 * BSIZE && |part| <= n1
      modifies this`used, this`disk, this`inodes, this`owner, this`logged, this`ledger, this`before, this`body
      ensures ret == -1 <==> off > old(inodes)[inum].size || off + n1 > MAXFILE * BSIZE
      ensures ret == -1 ==> St() == old(St()) && logged == {}
      ensures ret != -1 ==> 0 <= ret <= n1 && Written(old(St()), St(), nmeta, inum, off, part, ret, w)
      ensures 0 <= ret < n1 ==> w == |part| < n1 || NoneFree()
      ensures ret != -1 ==> OutLogged(sb, old(St()), St(), inum, off, n1, part, ret, w, {}, logged, old(LaidOut()))
      ensures ret != -1 ==> logged == body + {IBlock(sb, inum)} && |body| < MAXOPBLOCKS
    {
      logged := {};
      ret, w := Writei(inum, off, n1, part);
      assert body - {} == body;
    }

    /** One round of filewrite(): r bytes of n1 written in full, w in all. */
    method NextChunk(inum: nat, off: nat, n: nat, src: seq<nat>, tot: nat, ghost s: Fs, ghost logs: seq<ChunkLog>)
      returns (n1: nat, r: int, w: nat, ghost logs': seq<ChunkLog>)
      requires Filing(sb, s, St(), nmeta, inum, off, src, tot, tot, Union(logs)) == true
      requires ChunksOk(sb, logs, inum, MAXOPBLOCKS) == true && tot < n && |src| <= n && off + n < 0x1_0000_0000
      modifies this`used, this`disk, this`inodes, this`owner, this`logged, this`ledger, this`before, this`body
      ensures 0 < n1 <= n - tot && r <= n1 && ChunksOk(sb, logs', inum, MAXOPBLOCKS) == true
      ensures r == -1 ==> off + tot > old(inodes)[inum].size || off + n > MAXFILE * BSIZE
      ensures r == -1 ==> St() == old(St()) && logs' == logs
      ensures r != -1 ==> r >= 0 && off + tot <= old(inodes)[inum].size
      ensures r != -1 ==> (r < n1 ==> tot + w == |src| < n || NoneFree()) && (r == n1 ==> w == r)
      ensures r != -1 ==> Filing(sb, s, St(), nmeta, inum, off, src, tot + r, tot + w, Union(logs')) == true
    {
      ghost var t := St();
      logs' := logs;
      n1 := if n - tot > 3 * BSIZE then 3 * BSIZE else n - tot;
      var part := src[tot..if tot + n1 < |src| then tot + n1 else |src|];
      r, w := WriteChunk(inum, off + tot, n1, part);
      if r != -1 {
        FilingMore(sb, s, t, St(), nmeta, inum, off, src, tot, n1, part, r, w, Union(logs), logged, old(LaidOut()));
        FilingSnoc(sb, s, St(), nmeta, inum, off, src, tot + r, tot + w, logs, body, logged, MAXOPBLOCKS);
        logs' := logs + [ChunkLog(body, IBlock(sb, inum))];
      }
    }

    /** filewrite() on a file.  logs is what the chunks logged.  It holds all that changed, but for a block that a
        failing copy left torn.  Each chunk logs fewer than MAXOPBLOCKS blocks before the inode, so that every
        log_write() is within what begin_op() reserved.  src is the part of the source that can be read. */
    method FileWrite(inum: nat, off: nat, n: nat, src: seq<nat>)
      returns (ret: int, tot: nat, w: nat, ghost logs: seq<ChunkLog>)
      requires Inv(St(), nmeta) && Whole(St()) && inum < |inodes| && off + n < 0x1_0000_0000 && |src| <= n
      modifies this`used, this`disk, this`inodes, this`owner, this`logged, this`ledger, this`before, this`body
      ensures Filing(sb, old(St()), St(), nmeta, inum, off, src, tot, w, Union(logs)) == true
      ensures ret == if tot == n then n else -1
      ensures tot < n ==> off > old(inodes)[inum].size || off + n > MAXFILE * BSIZE || w == |src| < n || NoneFree()
      ensures ChunksOk(sb, logs, inum, MAXOPBLOCKS)
    {
      ghost var s := St();
      FilingStart(sb, s, nmeta, inum, off, src);
      tot, w, logs := 0, 0, [];
      while tot < n
        invariant tot <= n && w == tot && inum < |s.inodes| && (tot > 0 ==> off <= s.inodes[inum].size)
        invariant Filing(sb, s, St(), nmeta, inum, off, src, tot, tot, Union(logs)) == true
        invariant ChunksOk(sb, logs, inum, MAXOPBLOCKS) == true
      {
        FilingSize(sb, s, St(), nmeta, inum, off, src, tot, Union(logs));
        var n1, r, w1;
        n1, r, w1, logs := NextChunk(inum, off, n, src, tot, s, logs);
        if r == -1 { return -1, tot, w, logs; }
        w, tot := tot + w1, tot + r;
        if r != n1 { return -1, tot, w, logs; }
      }
      ret := n;
    }

    /** One round of readi().  room is how many bytes either_copyout() can store. */
    method ReadNext(inum: nat, off: nat, len: nat, room: nat, dst: seq<nat>, ghost s: Fs)
      returns (out: Outcome, dst': seq<nat>)
      requires Reading(s, St(), nmeta, inum) && Accounted() && inum < |s.inodes| && ReadSoFar(s, inum, off, dst)
      requires |dst| < len && |dst| <= room && off + len <= s.inodes[inum].size <= MAXFILE * BSIZE
      modifies this`used, this`disk, this`inodes, this`owner, this`logged, this`ledger
      ensures Reading(s, St(), nmeta, inum) && Accounted() && (WholeFile(s, inum) ==> logged == old(logged))
      ensures ReadSoFar(s, inum, off, dst') && |dst'| <= len && |dst'| <= room
      ensures out.DiskFull? ==> dst' == dst && !WholeFile(s, inum) && NoneFree()
      ensures out.Copied? ==> |dst'| > |dst|
      ensures out.BadCopy? ==> |dst'| == room < len
    {
      ghost var t := St();
      var bn, at := (off + |dst|) / BSIZE, (off + |dst|) % BSIZE;
      var addr := Bmap(inum, bn);
      ReadingBmap(s, t, St(), nmeta, inum, bn);
      if addr == 0 { return DiskFull, dst; }
      var m := if len - |dst| < BSIZE - at then len - |dst| else BSIZE - at;
      var k := if m < room - |dst| then m else room - |dst|;
      ReadMore(s, St(), nmeta, inum, off, dst, k, bn, at);
      return if k == m then Copied else BadCopy, dst + disk[addr][at..at + k];
    }

    /** readi(): the bytes of the file from off on, as many as there are; -1 if the copy fails.  On a file
        without holes it changes nothing and comes up short only at the end of the file. */
    method Readi(inum: nat, off: nat, n: nat, room: nat) returns (ret: int, dst: seq<nat>)
      requires Inv(St(), nmeta) && inum < |inodes| && off < 0x1_0000_0000 && n < 0x1_0000_0000
      requires inodes[inum].size <= MAXFILE * BSIZE
      modifies this`used, this`disk, this`inodes, this`owner, this`logged, this`ledger, this`before
      ensures Reading(old(St()), St(), nmeta, inum) && (WholeFile(old(St()), inum) ==> logged == old(logged))
      ensures ReadSoFar(old(St()), inum, off, dst)
      ensures var size := old(inodes)[inum].size;
              var len := if off > size || off + n >= 0x1_0000_0000 then 0 else if off + n > size then size - off else n;
              && |dst| <= len
              && (ret == -1 ==> |dst| == room < len)
              && (ret != -1 ==> ret == |dst|)
              && (WholeFile(old(St()), inum) ==> ret == if room < len then -1 else len)
    {
      dst := [];
      if off > inodes[inum].size || (off + n) % 0x1_0000_0000 < off { return 0, []; }
      var len := if off + n > inodes[inum].size then inodes[inum].size - off else n;
      ghost var s := St();
      before, ledger := logged, Nothing;
      while |dst| < len
        invariant |dst| <= len && |dst| <= room && ReadSoFar(s, inum, off, dst) && Accounted()
        invariant Reading(s, St(), nmeta, inum) == true
        invariant WholeFile(s, inum) ==> logged == old(logged)
        decreases len - |dst|
      {
        var out, dst' := ReadNext(inum, off, len, room, dst, s);
        if out.DiskFull? { return |dst|, dst; }
        if out.BadCopy? { return -1, dst'; }
        dst := dst';
      }
      ret := |dst|;
    }

    /** The direct blocks in itrunc(). */
    method FreeDirect(inum: nat)
      requires Inv(St(), nmeta) && inum < |inodes|
      modifies this`used, this`inodes, this`logged
      ensures FreedBits(old(St()), used, inum, NDIRECT, 0) && old(logged) <= logged
      ensures BitsLogged(sb, old(used), used, logged)
      ensures var ip := old(inodes)[inum];
              inodes == old(inodes)[inum := Inode(ip.size, NoAddrs()[NDIRECT := ip.addrs[NDIRECT]])]
    {
      ghost var s := St();
      ghost var ip := inodes[inum];
      var i := 0;
      while i < NDIRECT
        invariant i <= NDIRECT && FreedBits(s, used, inum, i, 0) && old(logged) <= logged
        invariant BitsLogged(sb, s.used, used, logged)
        invariant |inodes| == |s.inodes| && (forall x :: 0 <= x < |inodes| && x != inum ==> inodes[x] == s.inodes[x])
        invariant inodes[inum].size == ip.size && |inodes[inum].addrs| == NDIRECT + 1
        invariant forall k :: 0 <= k <= NDIRECT ==> inodes[inum].addrs[k] == if k < i then 0 else ip.addrs[k]
      {
        FreeOne(s, nmeta, used, Addr(inum, i), i, 0, i + 1, 0);
        if inodes[inum].addrs[i] != 0 {
          Bfree(inodes[inum].addrs[i]);
          inodes := inodes[inum := inodes[inum].(addrs := inodes[inum].addrs[i := 0])];
        }
        i := i + 1;
      }
      assert inodes[inum].addrs == NoAddrs()[NDIRECT := ip.addrs[NDIRECT]];
    }

    /** The indirect block and its entries in itrunc(). */
    method FreeIndirect(inum: nat, a: nat, ghost s: Fs)
      requires Inv(s, nmeta) && inum < |s.inodes| && a == At(s, Addr(inum, NDIRECT)) && disk == s.disk
      requires FreedBits(s, used, inum, NDIRECT, 0)
      modifies this`used, this`logged
      ensures FreedBits(s, used, inum, NDIRECT + 1, NINDIRECT) && old(logged) <= logged
      ensures BitsLogged(sb, old(used), used, logged)
    {
      if a != 0 {
        HeldBlock(s, nmeta, Addr(inum, NDIRECT));
        var j := 0;
        while j < NINDIRECT
          invariant j <= NINDIRECT && FreedBits(s, used, inum, NDIRECT, j) && old(logged) <= logged
          invariant BitsLogged(sb, old(used), used, logged)
        {
          FreeOne(s, nmeta, used, Entry(inum, j), NDIRECT, j, NDIRECT, j + 1);
          if Get32(disk[a], j) != 0 { Bfree(Get32(disk[a], j)); }
          j := j + 1;
        }
        FreeOne(s, nmeta, used, Addr(inum, NDIRECT), NDIRECT, NINDIRECT, NDIRECT + 1, NINDIRECT);
        Bfree(a);
      } else {
        NoIndirect(s, nmeta, used, inum);
      }
    }

    /** itrunc(): every block of the file is freed, each with its bit set at that time ("freeing free
        block" is not reached), and no other. */
    method Itrunc(inum: nat)
      requires Inv(St(), nmeta) && inum < |inodes|
      modifies this`used, this`inodes, this`owner, this`logged
      ensures FreedBits(old(St()), used, inum, NDIRECT + 1, NINDIRECT)
      ensures St() == Truncated(old(St()), inum, used) && Inv(St(), nmeta)
      ensures Whole(old(St())) ==> Whole(St())
      ensures old(logged) <= logged && AllLogged(sb, old(St()), St(), logged)
    {
      ghost var s := St();
      FreeDirect(inum);
      ghost var used1, logged1 := used, logged;
      FreeIndirect(inum, inodes[inum].addrs[NDIRECT], s);
      inodes := inodes[inum := Inode(0, NoAddrs())];
      owner := map b | b in owner && owner[b].inum != inum :: owner[b];
      logged := logged + {IBlock(sb, inum)};
      BitsTrans(sb, s.used, used1, used, logged1, logged);
      TruncatedInv(s, nmeta, inum, used);
      if Whole(s) { TruncatedWhole(s, inum, used); }
    }
  }
}
