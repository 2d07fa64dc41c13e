/** The redo log of kernel/log.c: what commit and recovery make of the disk, block write by block
    write, and why a stop between any two of those writes is harmless.

    A disk is a sequence of blocks and a block write is atomic, so the images a stop can leave
    behind are exactly the images between two writes: CommitState and RecoverState list them.  The
    class in KernelLog runs the source's loops and is proved to go through exactly these images. */
module RedoLog {

  const MAXOPBLOCKS := 10
  const LOGSIZE := 3 * MAXOPBLOCKS

  /** BSIZE / sizeof(int): a block is seen as its C ints. */
  const WORDS := 256

  type Block = seq<int>
  type Image = seq<Block>

  /** Header at block start, log data blocks after it; size counts the header too. */
  datatype Layout = Layout(start: nat, size: nat)

  predicate InLog(g: Layout, b: int) {
    g.start <= b < g.start + g.size
  }

  /** Two images agree on every block outside the log region. */
  ghost predicate SameHome(g: Layout, x: Image, y: Image) {
    |x| == |y| && forall b :: 0 <= b < |x| && !InLog(g, b) ==> x[b] == y[b]
  }

  /** The log region lies on the disk and its first block can hold a header. */
  ghost predicate LayoutOk(g: Layout, d: Image) {
    0 < g.size && g.start + g.size <= |d| && |d[g.start]| == WORDS
  }

  /** Home blocks only, with room for all of them in header and region. */
  ghost predicate LogOk(g: Layout, blocks: seq<int>, nblocks: nat) {
    && |blocks| <= LOGSIZE
    && |blocks| < g.size
    && forall i :: 0 <= i < |blocks| ==> 0 <= blocks[i] < nblocks && !InLog(g, blocks[i])
  }

  // ---------------------------------------------------------------- header block

  /** What write_head leaves in the header block: words past the count keep their old values. */
  function WithHead(old_: Block, blocks: seq<int>): (b: Block)
    requires |blocks| <= LOGSIZE && |old_| == WORDS
  {
    [|blocks|] + blocks + old_[1 + |blocks|..]
  }

  /** What read_head loads. */
  function Head(b: Block): (blocks: seq<int>)
    requires |b| == WORDS && b[0] <= LOGSIZE
  {
    if b[0] <= 0 then [] else b[1..1 + b[0]]
  }

  lemma HeadRoundTrip(old_: Block, blocks: seq<int>)
    requires |blocks| <= LOGSIZE && |old_| == WORDS
    ensures |WithHead(old_, blocks)| == WORDS && WithHead(old_, blocks)[0] == |blocks|
    ensures Head(WithHead(old_, blocks)) == blocks
  {
    assert WithHead(old_, blocks)[1..1 + |blocks|] == blocks;
  }

  /** The header on disk can be read back. */
  ghost predicate HeadOk(g: Layout, d: Image) {
    LayoutOk(g, d) && d[g.start][0] <= LOGSIZE && LogOk(g, Head(d[g.start]), |d|)
  }

  // ---------------------------------------------------------------- the images of the disk

  /** write_log after k of its block writes: cached contents go to the log region. */
  function LogState(g: Layout, d: Image, view: Image, blocks: seq<int>, k: nat): (x: Image)
    requires |view| == |d| && LayoutOk(g, d) && LogOk(g, blocks, |d|) && k <= |blocks|
    ensures |x| == |d|
  {
    if k == 0 then d else LogState(g, d, view, blocks, k - 1)[g.start + k := view[blocks[k - 1]]]
  }

  /** install_trans after j of its block writes: the log region of d goes to the home blocks. */
  function InstallState(g: Layout, d: Image, blocks: seq<int>, j: nat): (x: Image)
    requires LayoutOk(g, d) && LogOk(g, blocks, |d|) && j <= |blocks|
    ensures |x| == |d|
  {
    if j == 0 then d else InstallState(g, d, blocks, j - 1)[blocks[j - 1] := d[g.start + j]]
  }

  /** write_head */
  function HeadState(g: Layout, d: Image, blocks: seq<int>): (x: Image)
    requires LayoutOk(g, d) && LogOk(g, blocks, |d|)
    ensures |x| == |d| && LayoutOk(g, x)
  {
    HeadRoundTrip(d[g.start], blocks);
    d[g.start := WithHead(d[g.start], blocks)]
  }

  /** The image right after the commit point, the header write of commit. */
  function SealState(g: Layout, d: Image, view: Image, blocks: seq<int>): (x: Image)
    requires |view| == |d| && LayoutOk(g, d) && LogOk(g, blocks, |d|)
    ensures |x| == |d| && LayoutOk(g, x)
  {
    LogKeepsHead(g, d, view, blocks, |blocks|);
    HeadState(g, LogState(g, d, view, blocks, |blocks|), blocks)
  }

  /** The number of block writes commit issues. */
  function CommitLength(blocks: seq<int>): nat {
    if blocks == [] then 0 else 2 * |blocks| + 2
  }

  /** commit after k of its block writes: log, header, copies, cleared header. */
  function CommitState(g: Layout, d: Image, view: Image, blocks: seq<int>, k: nat): (x: Image)
    requires |view| == |d| && LayoutOk(g, d) && LogOk(g, blocks, |d|) && k <= CommitLength(blocks)
    ensures |x| == |d|
  {
    if k <= |blocks| then LogState(g, d, view, blocks, k)
    else
      var s := SealState(g, d, view, blocks);
      if k <= 2 * |blocks| + 1 then InstallState(g, s, blocks, k - |blocks| - 1)
      else
        InstallKeepsHead(g, s, blocks, |blocks|);
        HeadState(g, InstallState(g, s, blocks, |blocks|), [])
  }

  function RecoverLength(g: Layout, d: Image): nat
    requires HeadOk(g, d)
  {
    |Head(d[g.start])| + 1
  }

  /** recover_from_log after j of its block writes: copies, cleared header. */
  function RecoverState(g: Layout, d: Image, j: nat): (x: Image)
    requires HeadOk(g, d) && j <= RecoverLength(g, d)
    ensures |x| == |d|
  {
    var blocks := Head(d[g.start]);
    if j <= |blocks| then InstallState(g, d, blocks, j)
    else
      InstallKeepsHead(g, d, blocks, |blocks|);
      HeadState(g, InstallState(g, d, blocks, |blocks|), [])
  }

  /** The disk after a recovery that was allowed to finish. */
  function Recovered(g: Layout, d: Image): (x: Image)
    requires HeadOk(g, d)
    ensures |x| == |d|
  {
    RecoverState(g, d, RecoverLength(g, d))
  }

  /** The disk after the transaction: every logged block has its cached contents. */
  function Target(d: Image, view: Image, blocks: seq<int>): (y: Image)
    requires |view| == |d|
  {
    seq(|d|, b requires 0 <= b < |d| => if b in blocks then view[b] else d[b])
  }

  lemma {:induction false} LogKeepsHead(g: Layout, d: Image, view: Image, blocks: seq<int>, k: nat)
    requires |view| == |d| && LayoutOk(g, d) && LogOk(g, blocks, |d|) && k <= |blocks|
    ensures LogState(g, d, view, blocks, k)[g.start] == d[g.start]
  {
    if k > 0 { LogKeepsHead(g, d, view, blocks, k - 1); }
  }

  lemma {:induction false} InstallKeepsHead(g: Layout, d: Image, blocks: seq<int>, j: nat)
    requires LayoutOk(g, d) && LogOk(g, blocks, |d|) && j <= |blocks|
    ensures InstallState(g, d, blocks, j)[g.start] == d[g.start]
  {
    if j > 0 { InstallKeepsHead(g, d, blocks, j - 1); }
  }

  // ---------------------------------------------------------------- what survives a stop

  /** Recovery of x owes y: the header lists blocks, the log holds y's contents for them, and every
      other home block is already as in y. */
  ghost predicate Sealed(g: Layout, x: Image, y: Image, blocks: seq<int>) {
    && |x| == |y|
    && HeadOk(g, x)
    && blocks == Head(x[g.start])
    && (forall i :: 0 <= i < |blocks| ==> x[g.start + 1 + i] == y[blocks[i]])
    && (forall b {:trigger InLog(g, b)} :: 0 <= b < |x| && !InLog(g, b) && b !in blocks ==> x[b] == y[b])
  }

  lemma {:induction false} InstallElsewhere(g: Layout, x: Image, blocks: seq<int>, j: nat)
    requires LayoutOk(g, x) && LogOk(g, blocks, |x|) && j <= |blocks|
    ensures forall b :: 0 <= b < |x| && (InLog(g, b) || b !in blocks) ==> InstallState(g, x, blocks, j)[b] == x[b]
  {
    if j > 0 {
      InstallElsewhere(g, x, blocks, j - 1);
      assert blocks[j - 1] in blocks && !InLog(g, blocks[j - 1]);
    }
  }

  lemma {:induction false} InstallThere(g: Layout, x: Image, y: Image, blocks: seq<int>, j: nat)
    requires Sealed(g, x, y, blocks) && j <= |blocks|
    ensures forall i :: 0 <= i < j ==> InstallState(g, x, blocks, j)[blocks[i]] == y[blocks[i]]
  {
    if j > 0 {
      InstallThere(g, x, y, blocks, j - 1);
      assert x[g.start + 1 + (j - 1)] == y[blocks[j - 1]];
    }
  }

  /** Copies keep an image sealed. */
  lemma InstallSealed(g: Layout, x: Image, y: Image, blocks: seq<int>, j: nat)
    requires Sealed(g, x, y, blocks) && j <= |blocks|
    ensures Sealed(g, InstallState(g, x, blocks, j), y, blocks)
  {
    InstallElsewhere(g, x, blocks, j);
    var z := InstallState(g, x, blocks, j);
    assert InLog(g, g.start);
    forall i | 0 <= i < |blocks| ensures z[g.start + 1 + i] == y[blocks[i]] {
      assert InLog(g, g.start + 1 + i);
    }
  }

  lemma InstalledHome(g: Layout, x: Image, y: Image, blocks: seq<int>)
    requires Sealed(g, x, y, blocks)
    ensures SameHome(g, InstallState(g, x, blocks, |blocks|), y)
  {
    InstallElsewhere(g, x, blocks, |blocks|);
    InstallThere(g, x, y, blocks, |blocks|);
    var z := InstallState(g, x, blocks, |blocks|);
    forall b | 0 <= b < |z| && !InLog(g, b) ensures z[b] == y[b] {
      if b in blocks {
        var i :| 0 <= i < |blocks| && blocks[i] == b;
      }
    }
  }

  /** An empty header owes nothing. */
  lemma EmptyHeader(g: Layout, x: Image, y: Image)
    requires LayoutOk(g, x) && SameHome(g, x, y)
    ensures Sealed(g, HeadState(g, x, []), y, []) && SameHome(g, HeadState(g, x, []), y)
  {
    HeadRoundTrip(x[g.start], []);
  }

  /** Recovery stopped after j of its writes still owes the same image; once finished, it has paid. */
  lemma RecoverySteps(g: Layout, x: Image, y: Image, blocks: seq<int>, j: nat)
    requires Sealed(g, x, y, blocks) && j <= RecoverLength(g, x)
    ensures Sealed(g, RecoverState(g, x, j), y, if j <= |blocks| then blocks else [])
    ensures j > |blocks| ==> SameHome(g, RecoverState(g, x, j), y)
  {
    if j <= |blocks| {
      InstallSealed(g, x, y, blocks, j);
    } else {
      InstallKeepsHead(g, x, blocks, |blocks|);
      InstalledHome(g, x, y, blocks);
      EmptyHeader(g, InstallState(g, x, blocks, |blocks|), y);
    }
  }

  /** x is what a series of recoveries makes of d, the i-th one stopped after stops[i] writes. */
  ghost predicate Restarted(g: Layout, d: Image, stops: seq<nat>, x: Image)
    decreases |stops|
  {
    if stops == [] then x == d
    else
      && HeadOk(g, d)
      && stops[0] <= RecoverLength(g, d)
      && Restarted(g, RecoverState(g, d, stops[0]), stops[1..], x)
  }

  lemma {:induction false} RestartsAreHarmless(g: Layout, d: Image, y: Image, blocks: seq<int>, stops: seq<nat>,
                                               x: Image)
    requires Sealed(g, d, y, blocks) && Restarted(g, d, stops, x)
    ensures HeadOk(g, x) && SameHome(g, Recovered(g, x), y)
    decreases |stops|
  {
    if stops == [] {
      RecoverySteps(g, d, y, blocks, RecoverLength(g, d));
    } else {
      RecoverySteps(g, d, y, blocks, stops[0]);
      var blocks' := if stops[0] <= |blocks| then blocks else [];
      RestartsAreHarmless(g, RecoverState(g, d, stops[0]), y, blocks', stops[1..], x);
    }
  }

  // ---------------------------------------------------------------- crash atomicity

  lemma {:induction false} LogStateAt(g: Layout, d: Image, view: Image, blocks: seq<int>, k: nat)
    requires |view| == |d| && LayoutOk(g, d) && LogOk(g, blocks, |d|) && k <= |blocks|
    ensures forall i :: 0 <= i < k ==> LogState(g, d, view, blocks, k)[g.start + 1 + i] == view[blocks[i]]
    ensures forall b :: 0 <= b < |d| && !InLog(g, b) ==> LogState(g, d, view, blocks, k)[b] == d[b]
  {
    if k > 0 {
      LogStateAt(g, d, view, blocks, k - 1);
      assert InLog(g, g.start + k);
    }
  }

  /** Before the header write: still the old image. */
  lemma CommitEarly(g: Layout, d: Image, view: Image, blocks: seq<int>, k: nat)
    requires |view| == |d| && LogOk(g, blocks, |d|) && HeadOk(g, d) && Head(d[g.start]) == []
    requires k <= |blocks|
    ensures Sealed(g, LogState(g, d, view, blocks, k), d, [])
  {
    LogStateAt(g, d, view, blocks, k);
    LogKeepsHead(g, d, view, blocks, k);
  }

  /** Right after it: the whole new image. */
  lemma CommitPoint(g: Layout, d: Image, view: Image, blocks: seq<int>)
    requires |view| == |d| && LayoutOk(g, d) && LogOk(g, blocks, |d|)
    ensures Sealed(g, SealState(g, d, view, blocks), Target(d, view, blocks), blocks)
  {
    var n := |blocks|;
    LogStateAt(g, d, view, blocks, n);
    LogKeepsHead(g, d, view, blocks, n);
    HeadRoundTrip(d[g.start], blocks);
    assert InLog(g, g.start);
  }

  /** Stop commit after any k of its writes. */
  lemma CommitSteps(g: Layout, d: Image, view: Image, blocks: seq<int>, k: nat)
    requires |view| == |d| && LogOk(g, blocks, |d|) && HeadOk(g, d) && Head(d[g.start]) == []
    requires k <= CommitLength(blocks)
    ensures Sealed(g, CommitState(g, d, view, blocks, k),
                   if k <= |blocks| then d else Target(d, view, blocks),
                   if |blocks| < k <= 2 * |blocks| + 1 then blocks else [])
    ensures k == 2 * |blocks| + 2 ==> SameHome(g, CommitState(g, d, view, blocks, k), Target(d, view, blocks))
  {
    if k <= |blocks| {
      CommitEarly(g, d, view, blocks, k);
    } else {
      var s := SealState(g, d, view, blocks);
      var y := Target(d, view, blocks);
      CommitPoint(g, d, view, blocks);
      if k <= 2 * |blocks| + 1 {
        InstallSealed(g, s, y, blocks, k - |blocks| - 1);
      } else {
        InstallKeepsHead(g, s, blocks, |blocks|);
        InstalledHome(g, s, y, blocks);
        EmptyHeader(g, InstallState(g, s, blocks, |blocks|), y);
      }
    }
  }

  /** Crash atomicity: stop commit after any k writes, then stop recovery any number of times,
      then let one recovery finish.  The home blocks are all as before the transaction or all as
      after it, and the switch is write number |blocks| + 1, the header write. */
  lemma CrashAtomicity(g: Layout, d: Image, view: Image, blocks: seq<int>, k: nat, stops: seq<nat>, x: Image)
    requires |view| == |d| && LogOk(g, blocks, |d|) && HeadOk(g, d) && Head(d[g.start]) == []
    requires k <= CommitLength(blocks)
    requires Restarted(g, CommitState(g, d, view, blocks, k), stops, x)
    ensures HeadOk(g, x)
    ensures SameHome(g, Recovered(g, x), if k <= |blocks| then d else Target(d, view, blocks))
  {
    CommitSteps(g, d, view, blocks, k);
    RestartsAreHarmless(g, CommitState(g, d, view, blocks, k), if k <= |blocks| then d else Target(d, view, blocks),
                        if |blocks| < k <= 2 * |blocks| + 1 then blocks else [], stops, x);
  }
}
