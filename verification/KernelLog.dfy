/** The loops of kernel/log.c, run in place, proved to take the disk through exactly the images that
    RedoLog reasons about. */
module KernelLog {
  import opened RedoLog

  datatype Outcome = Ok | Panic(msg: string)

  /** What log_write does to the list of logged blocks: absorption or a new slot. */
  function Record(blocks: seq<int>, b: int): (r: seq<int>) {
    if b in blocks then blocks else blocks + [b]
  }

  lemma RecordKeepsLogOk(g: Layout, blocks: seq<int>, b: int, nblocks: nat)
    requires LogOk(g, blocks, nblocks) && 0 <= b < nblocks && !InLog(g, b)
    requires |blocks| < LOGSIZE && |blocks| < g.size - 1
    ensures LogOk(g, Record(blocks, b), nblocks)
    ensures forall x :: x in Record(blocks, b) <==> x in blocks || x == b
  {
  }

  /** log_write's tests, in the source's order; the space test comes before absorption. */
  function LogWriteOutcome(n: int, size: int, outstanding: int): (r: Outcome) {
    if n >= LOGSIZE || n >= size - 1 then Panic("too big a transaction")
    else if outstanding < 1 then Panic("log_write outside of trans")
    else Ok
  }

  /** begin_op's admission test. */
  predicate Admits(n: int, outstanding: int, committing: bool) {
    !committing && n + (outstanding + 1) * MAXOPBLOCKS <= LOGSIZE
  }

  // ---------------------------------------------------------------- lists of images

  function LogTrace(g: Layout, d: Image, view: Image, blocks: seq<int>, k: nat): (t: seq<Image>)
    requires |view| == |d| && LayoutOk(g, d) && LogOk(g, blocks, |d|) && k <= |blocks|
    ensures |t| == k
  {
    if k == 0 then [] else LogTrace(g, d, view, blocks, k - 1) + [LogState(g, d, view, blocks, k)]
  }

  function InstallTrace(g: Layout, d: Image, blocks: seq<int>, j: nat): (t: seq<Image>)
    requires LayoutOk(g, d) && LogOk(g, blocks, |d|) && j <= |blocks|
    ensures |t| == j
  {
    if j == 0 then [] else InstallTrace(g, d, blocks, j - 1) + [InstallState(g, d, blocks, j)]
  }

  /** All images the disk has while commit runs. */
  function CommitTrace(g: Layout, d: Image, view: Image, blocks: seq<int>): (t: seq<Image>)
    requires |view| == |d| && LayoutOk(g, d) && LogOk(g, blocks, |d|)
    ensures |t| == CommitLength(blocks)
  {
    if blocks == [] then []
    else
      var s := SealState(g, d, view, blocks);
      LogTrace(g, d, view, blocks, |blocks|) + [s] + InstallTrace(g, s, blocks, |blocks|)
      + [CommitState(g, d, view, blocks, CommitLength(blocks))]
  }

  /** All images the disk has while recovery runs. */
  function RecoverTrace(g: Layout, d: Image): (t: seq<Image>)
    requires HeadOk(g, d)
    ensures |t| == RecoverLength(g, d)
  {
    var blocks := Head(d[g.start]);
    InstallTrace(g, d, blocks, |blocks|) + [Recovered(g, d)]
  }

  lemma {:induction false} LogTraceAt(g: Layout, d: Image, view: Image, blocks: seq<int>, k: nat, i: nat)
    requires |view| == |d| && LayoutOk(g, d) && LogOk(g, blocks, |d|) && i < k <= |blocks|
    ensures LogTrace(g, d, view, blocks, k)[i] == LogState(g, d, view, blocks, i + 1)
  {
    if i < k - 1 { LogTraceAt(g, d, view, blocks, k - 1, i); }
  }

  lemma {:induction false} InstallTraceAt(g: Layout, d: Image, blocks: seq<int>, j: nat, i: nat)
    requires LayoutOk(g, d) && LogOk(g, blocks, |d|) && i < j <= |blocks|
    ensures InstallTrace(g, d, blocks, j)[i] == InstallState(g, d, blocks, i + 1)
  {
    if i < j - 1 { InstallTraceAt(g, d, blocks, j - 1, i); }
  }

  lemma CommitTraceAt(g: Layout, d: Image, view: Image, blocks: seq<int>, i: nat)
    requires |view| == |d| && LayoutOk(g, d) && LogOk(g, blocks, |d|) && i < CommitLength(blocks)
    ensures CommitTrace(g, d, view, blocks)[i] == CommitState(g, d, view, blocks, i + 1)
  {
    var n := |blocks|;
    if i < n {
      LogTraceAt(g, d, view, blocks, n, i);
    } else if n < i <= 2 * n {
      InstallTraceAt(g, SealState(g, d, view, blocks), blocks, n, i - n - 1);
    }
  }

  lemma RecoverTraceAt(g: Layout, d: Image, i: nat)
    requires HeadOk(g, d) && i < RecoverLength(g, d)
    ensures RecoverTrace(g, d)[i] == RecoverState(g, d, i + 1)
  {
    var blocks := Head(d[g.start]);
    if i < |blocks| { InstallTraceAt(g, d, blocks, |blocks|, i); }
  }

  // ---------------------------------------------------------------- cache and disk

  /** Disk and cache hold the same log region. */
  ghost predicate SameLog(g: Layout, x: Image, y: Image) {
    |x| == |y| && LayoutOk(g, x) && LayoutOk(g, y) && forall b {:trigger InLog(g, b)} :: InLog(g, b) ==> x[b] == y[b]
  }

  /** The next source block of write_log still has its cached contents. */
  lemma NextLogged(g: Layout, v: Image, blocks: seq<int>, k: nat)
    requires LayoutOk(g, v) && LogOk(g, blocks, |v|) && k < |blocks|
    ensures LogState(g, v, v, blocks, k)[blocks[k]] == v[blocks[k]]
  {
    LogStateAt(g, v, v, blocks, k);
  }

  /** The next source block of install_trans is still as it was logged. */
  lemma NextInstalled(g: Layout, d: Image, v: Image, blocks: seq<int>, k: nat)
    requires SameLog(g, d, v) && LogOk(g, blocks, |d|) && k < |blocks|
    ensures InstallState(g, v, blocks, k)[g.start + 1 + k] == v[g.start + 1 + k] == d[g.start + 1 + k]
  {
    assert InLog(g, g.start + 1 + k) && InLog(g, g.start);
    InstallElsewhere(g, v, blocks, k);
  }

  /** Writing the same log, header or copies to both keeps the log regions equal. */
  lemma {:induction false} SameLogLogged(g: Layout, d: Image, v: Image, view: Image, blocks: seq<int>, k: nat)
    requires SameLog(g, d, v) && |view| == |d| && LogOk(g, blocks, |d|) && k <= |blocks|
    ensures SameLog(g, LogState(g, d, view, blocks, k), LogState(g, v, view, blocks, k))
  {
    LogKeepsHead(g, d, view, blocks, k);
    if k > 0 { SameLogLogged(g, d, v, view, blocks, k - 1); }
  }

  lemma SameLogSealed(g: Layout, d: Image, v: Image, blocks: seq<int>)
    requires SameLog(g, d, v) && LogOk(g, blocks, |d|)
    ensures SameLog(g, SealState(g, d, v, blocks), SealState(g, v, v, blocks))
  {
    SameLogLogged(g, d, v, v, blocks, |blocks|);
    LogKeepsHead(g, d, v, blocks, |blocks|);
    LogKeepsHead(g, v, v, blocks, |blocks|);
    assert InLog(g, g.start);
  }

  lemma SameLogInstalled(g: Layout, d: Image, v: Image, blocks: seq<int>)
    requires SameLog(g, d, v) && LogOk(g, blocks, |d|)
    ensures SameLog(g, InstallState(g, d, blocks, |blocks|), InstallState(g, v, blocks, |blocks|))
  {
    InstallKeepsLog(g, d, blocks, |blocks|);
    InstallKeepsLog(g, v, blocks, |blocks|);
    assert InLog(g, g.start);
  }

  lemma InstallKeepsLog(g: Layout, x: Image, blocks: seq<int>, j: nat)
    requires LayoutOk(g, x) && LogOk(g, blocks, |x|) && j <= |blocks|
    ensures forall b {:trigger InLog(g, b)} :: InLog(g, b) ==> InstallState(g, x, blocks, j)[b] == x[b]
  {
    InstallElsewhere(g, x, blocks, j);
  }

  lemma Unpin(blocks: seq<int>, i: nat)
    requires i < |blocks|
    ensures multiset(blocks[i..]) - multiset{blocks[i]} == multiset(blocks[i + 1..])
  {
    assert blocks[i..] == [blocks[i]] + blocks[i + 1..];
  }

  lemma HomeWrite(g: Layout, d: Image, v: Image, b: int, data: Block)
    requires SameLog(g, d, v) && 0 <= b < |v| && !InLog(g, b)
    ensures SameLog(g, d, v[b := data])
  {
    assert InLog(g, g.start);
  }

  /** The slot log_write finds, filled in place, is Record. */
  lemma RecordInPlace(block: seq<int>, n: nat, b: int, i: nat)
    requires i <= n < |block| && (i < n ==> block[i] == b) && b !in block[..i]
    ensures block[i := b][..if i == n then n + 1 else n] == Record(block[..n], b)
    ensures multiset(Record(block[..n], b)) ==
              if i == n then multiset(block[..n]) + multiset{b} else multiset(block[..n])
  {
    assert i < n ==> block[..n][i] == b;
  }

  /** What readers see is not changed by a commit. */
  lemma CommitInvisible(g: Layout, v: Image, blocks: seq<int>)
    requires HeadOk(g, v) && Head(v[g.start]) == [] && LogOk(g, blocks, |v|)
    ensures SameHome(g, CommitState(g, v, v, blocks, CommitLength(blocks)), v)
  {
    CommitSteps(g, v, v, blocks, CommitLength(blocks));
    assert Target(v, v, blocks) == v;
  }

  /** The global `log` together with the block layer under it: disk is what survives a stop, view
      is what bread returns (the cached copy if there is one, else the disk).  history is the list
      of all images the disk has had. */
  class Log {
    const g: Layout
    var disk: Image
    var view: Image
    ghost var history: seq<Image>
    var outstanding: int
    var committing: bool
    var n: int
    var block: seq<int>
    var pins: multiset<int>

    ghost predicate Shape()
      reads this
    {
      && |block| == LOGSIZE
      && n <= LOGSIZE
      && |view| == |disk|
      && LayoutOk(g, disk)
      && LayoutOk(g, view)
      && LogOk(g, Logged(), |disk|)
    }

    ghost function Logged(): (s: seq<int>)
      reads this
      requires n <= |block|
    {
      if n <= 0 then [] else block[..n]
    }

    /** Between commits: the header on disk is empty, and exactly the logged blocks are pinned. */
    ghost predicate Valid()
      reads this
    {
      && Shape()
      && 0 <= n
      && HeadOk(g, disk)
      && Head(disk[g.start]) == []
      && SameLog(g, disk, view)
      && pins == multiset(Logged())
    }

    method Bwrite(b: int, data: Block)
      requires 0 <= b < |disk| == |view|
      modifies this`disk, this`view, this`history
      ensures disk == old(disk)[b := data] && view == old(view)[b := data]
      ensures history == old(history) + [disk]
    {
      disk, view := disk[b := data], view[b := data];
      history := history + [disk];
    }

    method WriteLog()
      requires Shape()
      modifies this`disk, this`view, this`history
      ensures disk == LogState(g, old(disk), old(view), Logged(), |Logged()|)
      ensures view == LogState(g, old(view), old(view), Logged(), |Logged()|)
      ensures history == old(history) + LogTrace(g, old(disk), old(view), Logged(), |Logged()|)
    {
      ghost var d, v, h, blocks := disk, view, history, Logged();
      var tail := 0;
      while tail < n
        invariant 0 <= tail <= |blocks|
        invariant disk == LogState(g, d, v, blocks, tail)
        invariant view == LogState(g, v, v, blocks, tail)
        invariant history == h + LogTrace(g, d, v, blocks, tail)
      {
        NextLogged(g, v, blocks, tail);
        Bwrite(g.start + tail + 1, view[block[tail]]);
        tail := tail + 1;
      }
    }

    /** install_trans has copied k blocks since disk, view and history were d, v and h. */
    ghost predicate Copied(d: Image, v: Image, h: seq<Image>, k: nat)
      reads this
    {
      && |block| == LOGSIZE
      && n <= LOGSIZE
      && SameLog(g, d, v)
      && LogOk(g, Logged(), |d|)
      && k <= |Logged()|
      && disk == InstallState(g, d, Logged(), k)
      && view == InstallState(g, v, Logged(), k)
      && history == h + InstallTrace(g, d, Logged(), k)
    }

    /** The body of install_trans, without the pin. */
    method CopyBlock(tail: nat, ghost d: Image, ghost v: Image, ghost h: seq<Image>)
      requires Copied(d, v, h, tail) && tail < n
      modifies this`disk, this`view, this`history
      ensures Copied(d, v, h, tail + 1)
    {
      NextInstalled(g, d, v, Logged(), tail);
      Bwrite(block[tail], view[g.start + 1 + tail]);
    }

    method InstallTrans(recovering: bool)
      requires Shape() && SameLog(g, disk, view)
      requires !recovering ==> pins == multiset(Logged())
      modifies this`disk, this`view, this`history, this`pins
      ensures disk == InstallState(g, old(disk), Logged(), |Logged()|)
      ensures view == InstallState(g, old(view), Logged(), |Logged()|)
      ensures history == old(history) + InstallTrace(g, old(disk), Logged(), |Logged()|)
      ensures pins == if recovering then old(pins) else multiset{}
    {
      ghost var d, v, h, blocks := disk, view, history, Logged();
      var tail := 0;
      while tail < n
        invariant 0 <= tail <= |blocks| && Copied(d, v, h, tail)
        invariant pins == if recovering then old(pins) else multiset(blocks[tail..])
      {
        CopyBlock(tail, d, v, h);
        Unpin(blocks, tail);
        if !recovering { pins := pins - multiset{block[tail]}; }
        tail := tail + 1;
      }
    }

    method ReadHead()
      requires g.start < |view| && |view[g.start]| == WORDS && view[g.start][0] <= LOGSIZE == |block|
      modifies this`n, this`block
      ensures |block| == LOGSIZE && n <= LOGSIZE && Logged() == Head(view[g.start])
    {
      var lh := view[g.start];
      n := lh[0];
      var i := 0;
      while i < n
        invariant 0 <= i && (0 < n ==> i <= n) && (n <= 0 ==> i == 0) && n == lh[0]
        invariant |block| == LOGSIZE && forall j :: 0 <= j < i ==> block[j] == lh[1 + j]
      {
        block := block[i := lh[i + 1]];
        i := i + 1;
      }
    }

    method WriteHead()
      requires Shape() && 0 <= n && view[g.start] == disk[g.start]
      modifies this`disk, this`view, this`history
      ensures disk == HeadState(g, old(disk), Logged())
      ensures view == HeadState(g, old(view), Logged())
      ensures history == old(history) + [disk]
    {
      var hb := view[g.start];
      ghost var hb0 := hb;
      hb := hb[0 := n];
      var i := 0;
      while i < n
        invariant 0 <= i <= n && |hb| == WORDS && hb[0] == n
        invariant hb[1..1 + i] == block[..i]
        invariant hb[1 + i..] == hb0[1 + i..]
      {
        hb := hb[i + 1 := block[i]];
        i := i + 1;
      }
      assert hb == [n] + hb[1..1 + n] + hb[1 + n..];
      Bwrite(g.start, hb);
    }

    /** Boot: the cache is cold, so reads see the disk. */
    method RecoverFromLog()
      requires |block| == LOGSIZE && view == disk && HeadOk(g, disk) && pins == multiset{}
      modifies this`disk, this`view, this`history, this`pins, this`n, this`block
      ensures Valid() && n == 0 && disk == view == Recovered(g, old(disk))
      ensures history == old(history) + RecoverTrace(g, old(disk))
    {
      ReadHead();
      InstallKeepsHead(g, disk, Logged(), |Logged()|);
      InstallTrans(true);
      n := 0;
      HeadRoundTrip(disk[g.start], []);
      WriteHead();
    }

    /** The part of commit that ends with the commit point. */
    method Seal()
      requires Valid()
      modifies this`disk, this`view, this`history
      ensures Shape()
      ensures disk == SealState(g, old(disk), old(view), Logged())
      ensures view == SealState(g, old(view), old(view), Logged())
      ensures history == old(history) + LogTrace(g, old(disk), old(view), Logged(), |Logged()|) + [disk]
    {
      assert InLog(g, g.start);
      LogKeepsHead(g, disk, view, Logged(), |Logged()|);
      LogKeepsHead(g, view, view, Logged(), |Logged()|);
      WriteLog();
      WriteHead();
    }

    /** The rest of commit: copy home, and clear the header. */
    method InstallAndClear()
      requires Shape() && 0 < n && SameLog(g, disk, view) && pins == multiset(Logged())
      modifies this`disk, this`view, this`history, this`pins, this`n
      ensures Valid() && n == 0
      ensures LayoutOk(g, InstallState(g, old(disk), old(Logged()), |old(Logged())|))
      ensures LayoutOk(g, InstallState(g, old(view), old(Logged()), |old(Logged())|))
      ensures disk == HeadState(g, InstallState(g, old(disk), old(Logged()), |old(Logged())|), [])
      ensures view == HeadState(g, InstallState(g, old(view), old(Logged()), |old(Logged())|), [])
      ensures history == old(history) + InstallTrace(g, old(disk), old(Logged()), |old(Logged())|) + [disk]
    {
      SameLogInstalled(g, disk, view, Logged());
      assert InLog(g, g.start);
      InstallTrans(false);
      n := 0;
      HeadRoundTrip(disk[g.start], []);
      WriteHead();
    }

    method Commit()
      requires Valid()
      modifies this`disk, this`view, this`history, this`pins, this`n
      ensures Valid() && n == 0
      ensures disk == CommitState(g, old(disk), old(view), old(Logged()), CommitLength(old(Logged())))
      ensures view == CommitState(g, old(view), old(view), old(Logged()), CommitLength(old(Logged())))
      ensures history == old(history) + CommitTrace(g, old(disk), old(view), old(Logged()))
    {
      if n > 0 {
        SameLogSealed(g, disk, view, Logged());
        Seal();
        InstallAndClear();
      }
    }

    /** One pass of begin_op's loop under log.lock; when it does not admit, the caller sleeps.  An admitted operation
        and all the others that are open find room for MAXOPBLOCKS blocks each. */
    method TryBeginOp() returns (admitted: bool)
      modifies this`outstanding
      ensures admitted == Admits(n, old(outstanding), committing)
      ensures outstanding == old(outstanding) + (if admitted then 1 else 0)
      ensures admitted ==> !committing && n + outstanding * MAXOPBLOCKS <= LOGSIZE
    {
      if committing {
        admitted := false;
      } else if n + (outstanding + 1) * MAXOPBLOCKS > LOGSIZE {
        admitted := false;
      } else {
        outstanding := outstanding + 1;
        admitted := true;
      }
    }

    /** The absorption loop of log_write. */
    method FindSlot(b: int) returns (i: int)
      requires 0 <= n <= |block|
      ensures 0 <= i <= n && (i < n ==> block[i] == b) && b !in block[..i]
    {
      i := 0;
      while i < n && block[i] != b
        invariant 0 <= i <= n && b !in block[..i]
      {
        i := i + 1;
      }
    }

    /** The rest of log_write: fill the slot, and pin the buffer if the slot is new. */
    method FillSlot(b: int)
      requires |block| == LOGSIZE && 0 <= n < LOGSIZE && pins == multiset(Logged())
      modifies this`n, this`block, this`pins
      ensures |block| == LOGSIZE && 0 <= n <= LOGSIZE && pins == multiset(Logged())
      ensures Logged() == Record(old(Logged()), b)
    {
      var i := FindSlot(b);
      RecordInPlace(block, n, b, i);
      block := block[i := b];
      if i == n {
        pins := pins + multiset{b};
        n := n + 1;
      }
    }

    /** The caller has put data into its buffer for block b; log_write records the block. */
    method LogWrite(b: int, data: Block) returns (r: Outcome)
      requires Valid() && 0 <= b < |disk| && !InLog(g, b)
      modifies this`view, this`n, this`block, this`pins
      ensures r == LogWriteOutcome(old(n), g.size, outstanding)
      ensures r.Ok? ==> Valid() && Logged() == Record(old(Logged()), b)
      ensures view == old(view)[b := data]
    {
      HomeWrite(g, disk, view, b, data);
      view := view[b := data];
      if n >= LOGSIZE || n >= g.size - 1 { return Panic("too big a transaction"); }
      if outstanding < 1 { return Panic("log_write outside of trans"); }
      RecordKeepsLogOk(g, Logged(), b, |disk|);
      FillSlot(b);
      r := Ok;
    }

    /** end_op, commit included: no other operation can be admitted while committing is set. */
    method EndOp() returns (r: Outcome)
      requires Valid()
      modifies this`disk, this`view, this`history, this`pins, this`n, this`outstanding, this`committing
      ensures r == if old(committing) then Panic("log.committing") else Ok
      ensures r.Ok? ==> Valid() && outstanding == old(outstanding) - 1 && !committing
      ensures r.Ok? && outstanding == 0 ==>
                && n == 0
                && disk == CommitState(g, old(disk), old(view), old(Logged()), CommitLength(old(Logged())))
                && view == CommitState(g, old(view), old(view), old(Logged()), CommitLength(old(Logged())))
                && history == old(history) + CommitTrace(g, old(disk), old(view), old(Logged()))
      ensures r.Ok? && outstanding != 0 ==>
                unchanged(this`disk, this`view, this`history, this`pins, this`n)
    {
      outstanding := outstanding - 1;
      if committing { return Panic("log.committing"); }
      if outstanding == 0 {
        committing := true;
        Commit();
        committing := false;
      }
      r := Ok;
    }
  }
}
