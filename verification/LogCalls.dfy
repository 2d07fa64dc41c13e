/** The calls of kernel/log.c and the runs of LogRuns are the same thing: begin_op(), log_write(), end_op() and
    recovery, as the class of KernelLog executes them, make exactly the steps of a run, and a run can go on as they
    do. */
module LogCalls {
  import opened Common
  import opened RedoLog
  import opened KernelLog
  import opened LogRuns

  /** es, and then n times e. */
  function More(es: seq<Event>, e: Event, n: nat): seq<Event> {
    if n == 0 then es else More(es, e, n - 1) + [e]
  }

  /** A property of a run and the number of times that e has been added. */
  lemma {:induction false} Iterate(property: (seq<Event>, nat) -> bool, es: seq<Event>, e: Event, k: nat, n: nat)
    requires k <= n && property(es, 0)
    requires forall x: seq<Event>, i: nat :: i < n && property(x, i) ==> property(x + [e], i + 1)
    ensures property(More(es, e, k), k)
    decreases k
  {
    if k > 0 { Iterate(property, es, e, k - 1, n); }
  }

  ghost predicate Reached(g: Layout, d0: Image, es: seq<Event>, s: State) {
    Exec(g, d0, es) == Some(s)
  }

  lemma ExecOneMore(g: Layout, d0: Image, es: seq<Event>, s: State, e: Event)
    requires CleanDisk(g, d0) && Exec(g, d0, es) == Some(s)
    ensures Safe(g, s) && Exec(g, d0, es + [e]) == Step(g, s, e)
  {
    RunInv(g, d0, es);
    assert (es + [e])[..|es|] == es;
  }

  // ---------------------------------------------------------------- a commit runs to its end

  /** A commit that started in s, after k of its writes. */
  function AfterWrites(g: Layout, s: State, k: nat): State
    requires Safe(g, s) && k <= CommitLength(s.blocks)
  {
    var s' := s.(open := [], disk := CommitState(g, s.disk, s.view, s.blocks, k), mode := Committing(s.disk, k));
    if k <= |s.blocks| then s' else s'.(committed := s.committed + [s.current], current := [], floor := s.started)
  }

  /** The state after a commit that started in s. */
  function AfterCommit(g: Layout, s: State): State
    requires Safe(g, s)
  {
    AfterWrites(g, s, CommitLength(s.blocks)).(mode := Running, blocks := [])
  }

  lemma EndStarts(g: Layout, s: State)
    requires Safe(g, s) && s.mode.Running? && |s.open| == 1
    ensures Step(g, s, End(0)) == Some(AfterWrites(g, s, 0))
  {
  }

  lemma NextWrite(g: Layout, s: State, k: nat)
    requires Safe(g, s) && k < CommitLength(s.blocks) && Safe(g, AfterWrites(g, s, k))
    ensures Step(g, AfterWrites(g, s, k), CommitWrite) == Some(AfterWrites(g, s, k + 1))
  {
  }

  lemma LastWrite(g: Layout, s: State)
    requires Safe(g, s) && Safe(g, AfterWrites(g, s, CommitLength(s.blocks)))
    ensures Step(g, AfterWrites(g, s, CommitLength(s.blocks)), CommitReturn) == Some(AfterCommit(g, s))
  {
  }

  lemma {:induction false} WriteRuns(g: Layout, d0: Image, es: seq<Event>, s: State, k: nat)
    requires CleanDisk(g, d0) == true && Safe(g, s) && k < CommitLength(s.blocks)
    requires Reached(g, d0, es, AfterWrites(g, s, k)) == true
    ensures Reached(g, d0, es + [CommitWrite], AfterWrites(g, s, k + 1)) == true
  {
    ExecOneMore(g, d0, es, AfterWrites(g, s, k), CommitWrite);
    NextWrite(g, s, k);
  }

  lemma {:induction false} EndRuns(g: Layout, d0: Image, es: seq<Event>, s: State)
    requires CleanDisk(g, d0) == true && Reached(g, d0, es, s) == true && Safe(g, s) && s.mode.Running? && |s.open| == 1
    ensures Reached(g, d0, es + [End(0)], AfterWrites(g, s, 0)) == true
  {
    ExecOneMore(g, d0, es, s, End(0));
    EndStarts(g, s);
  }

  lemma {:induction false} CommitWrites(g: Layout, d0: Image, es: seq<Event>, s: State, k: nat)
    requires CleanDisk(g, d0) == true && Safe(g, s) && Reached(g, d0, es, AfterWrites(g, s, 0)) == true
    requires k <= CommitLength(s.blocks)
    ensures Reached(g, d0, More(es, CommitWrite, k), AfterWrites(g, s, k)) == true
    decreases k
  {
    if k > 0 {
      CommitWrites(g, d0, es, s, k - 1);
      WriteRuns(g, d0, More(es, CommitWrite, k - 1), s, k - 1);
    }
  }

  /** A run that goes on with the last end_op(). */
  function WithLastEnd(es: seq<Event>, blocks: seq<int>): seq<Event> {
    More(es + [End(0)], CommitWrite, CommitLength(blocks)) + [CommitReturn]
  }

  lemma {:induction false} ReturnRuns(g: Layout, d0: Image, es: seq<Event>, s: State)
    requires CleanDisk(g, d0) == true && Safe(g, s)
    requires Reached(g, d0, es, AfterWrites(g, s, CommitLength(s.blocks))) == true
    ensures Reached(g, d0, es + [CommitReturn], AfterCommit(g, s)) == true
  {
    ExecOneMore(g, d0, es, AfterWrites(g, s, CommitLength(s.blocks)), CommitReturn);
    LastWrite(g, s);
  }

  lemma {:induction false} LastEndRuns(g: Layout, d0: Image, es: seq<Event>, s: State)
    requires CleanDisk(g, d0) == true && Reached(g, d0, es, s) == true && Safe(g, s) && s.mode.Running? && |s.open| == 1
    ensures Reached(g, d0, WithLastEnd(es, s.blocks), AfterCommit(g, s)) == true
  {
    EndRuns(g, d0, es, s);
    CommitWrites(g, d0, es + [End(0)], s, CommitLength(s.blocks));
    ReturnRuns(g, d0, More(es + [End(0)], CommitWrite, CommitLength(s.blocks)), s);
  }

  lemma CommitInPlace(g: Layout, d: Image, view: Image, blocks: seq<int>, current: seq<Rec>, y: Image)
    requires RunningInv(g, view, blocks, current, d, y) && LogOk(g, blocks, |d|)
    ensures SameHome(g, CommitState(g, d, view, blocks, CommitLength(blocks)), view)
    ensures blocks == [] ==> current == []
  {
    CommitSteps(g, d, view, blocks, CommitLength(blocks));
    TargetIsView(g, d, view, blocks);
    if blocks == [] { FirstLogged(blocks, current); }
  }

  /** A run that is not in a commit or a recovery. */
  lemma {:induction false} RunningNow(g: Layout, d0: Image, es: seq<Event>, s: State)
    requires CleanDisk(g, d0) && Exec(g, d0, es) == Some(s) && s.mode.Running?
    ensures Safe(g, s) == true && LogOk(g, s.blocks, |s.disk|) == true
    ensures RunningInv(g, s.view, s.blocks, s.current, s.disk, Durable(d0, s.committed)) == true
  {
    RunInv(g, d0, es);
  }

  /** end_op() of the last open operation can run its commit to the end, and then all that was logged is in place on the
      disk; end_op() of another one writes nothing and keeps the log as it is. */
  lemma {:induction false} EndOpCommits(g: Layout, d0: Image, es: seq<Event>, s: State, i: nat)
    requires CleanDisk(g, d0) == true && Exec(g, d0, es) == Some(s) && s.mode.Running? && i < |s.open|
    ensures |s.open| == 1 ==>
              var r := Exec(g, d0, WithLastEnd(es, s.blocks));
              && r.Some? && r.value.mode.Running? && r.value.blocks == [] && r.value.open == []
              && SameHome(g, r.value.disk, s.view) && r.value.view == s.view && r.value.current == []
              && r.value.committed == s.committed + (if s.blocks == [] then [] else [s.current])
    ensures |s.open| > 1 ==> Exec(g, d0, es + [End(i)]) == Some(s.(open := s.open[..i] + s.open[i + 1..]))
  {
    if |s.open| == 1 {
      RunningNow(g, d0, es, s);
      LastEndRuns(g, d0, es, s);
      CommitInPlace(g, s.disk, s.view, s.blocks, s.current, Durable(d0, s.committed));
    } else {
      OtherEndRuns(g, d0, es, s, i);
    }
  }

  lemma {:induction false} OtherEndRuns(g: Layout, d0: Image, es: seq<Event>, s: State, i: nat)
    requires CleanDisk(g, d0) == true && Exec(g, d0, es) == Some(s) && s.mode.Running? && i < |s.open| && |s.open| > 1
    ensures Exec(g, d0, es + [End(i)]) == Some(s.(open := s.open[..i] + s.open[i + 1..]))
  {
    ExecOneMore(g, d0, es, s, End(i));
  }

  // ---------------------------------------------------------------- a recovery runs to its end

  function AfterCopies(g: Layout, s: State, k: nat): State
    requires HeadOk(g, s.disk) && k <= RecoverLength(g, s.disk)
  {
    s.(disk := RecoverState(g, s.disk, k), mode := Recovering(s.disk, k))
  }

  function AfterRecovery(g: Layout, s: State): State
    requires HeadOk(g, s.disk)
  {
    s.(disk := Recovered(g, s.disk), view := Recovered(g, s.disk), mode := Running)
  }

  lemma NextCopy(g: Layout, s: State, k: nat)
    requires HeadOk(g, s.disk) && k < RecoverLength(g, s.disk) && Safe(g, AfterCopies(g, s, k))
    ensures Step(g, AfterCopies(g, s, k), RecoverWrite) == Some(AfterCopies(g, s, k + 1))
  {
  }

  lemma LastCopy(g: Layout, s: State)
    requires HeadOk(g, s.disk) && Safe(g, AfterCopies(g, s, RecoverLength(g, s.disk)))
    ensures Step(g, AfterCopies(g, s, RecoverLength(g, s.disk)), RecoverReturn) == Some(AfterRecovery(g, s))
  {
  }

  /** The run es leads to a recovery that started in s and has made k of its n writes. */
  ghost predicate Copied(g: Layout, d0: Image, es: seq<Event>, s: State, k: nat, n: nat) {
    HeadOk(g, s.disk) && k <= n == RecoverLength(g, s.disk) && Reached(g, d0, es, AfterCopies(g, s, k))
  }

  lemma {:induction false} CopyRuns(g: Layout, d0: Image, es: seq<Event>, s: State, k: nat, n: nat)
    requires CleanDisk(g, d0) == true && Copied(g, d0, es, s, k, n) && k < n
    ensures Copied(g, d0, es + [RecoverWrite], s, k + 1, n) == true
  {
    ExecOneMore(g, d0, es, AfterCopies(g, s, k), RecoverWrite);
    NextCopy(g, s, k);
  }

  lemma {:induction false} Copies(g: Layout, d0: Image, es: seq<Event>, s: State, n: nat)
    requires CleanDisk(g, d0) == true && Copied(g, d0, es, s, 0, n) == true
    ensures Copied(g, d0, More(es, RecoverWrite, n), s, n, n) == true
  {
    var property := (x: seq<Event>, i: nat) => Copied(g, d0, x, s, i, n);
    forall x: seq<Event>, i: nat | i < n && property(x, i) ensures property(x + [RecoverWrite], i + 1) {
      CopyRuns(g, d0, x, s, i, n);
    }
    Iterate(property, es, RecoverWrite, n, n);
  }

  /** A run that goes on with recover_from_log(). */
  function WithRecovery(es: seq<Event>, g: Layout, d: Image): seq<Event>
    requires HeadOk(g, d)
  {
    More(es, RecoverWrite, RecoverLength(g, d)) + [RecoverReturn]
  }

  lemma {:induction false} RecoveryRuns(g: Layout, d0: Image, es: seq<Event>, s: State)
    requires CleanDisk(g, d0) == true && Reached(g, d0, es, s) == true && HeadOk(g, s.disk)
    requires s.mode == Recovering(s.disk, 0)
    ensures Reached(g, d0, WithRecovery(es, g, s.disk), AfterRecovery(g, s)) == true
  {
    var n := RecoverLength(g, s.disk);
    RecoverStart(g, s.disk);
    Copies(g, d0, es, s, n);
    RecoveredRuns(g, d0, More(es, RecoverWrite, n), s);
  }

  lemma {:induction false} RecoveredRuns(g: Layout, d0: Image, es: seq<Event>, s: State)
    requires CleanDisk(g, d0) == true && HeadOk(g, s.disk)
    requires Reached(g, d0, es, AfterCopies(g, s, RecoverLength(g, s.disk))) == true
    ensures Reached(g, d0, es + [RecoverReturn], AfterRecovery(g, s)) == true
  {
    ExecOneMore(g, d0, es, AfterCopies(g, s, RecoverLength(g, s.disk)), RecoverReturn);
    LastCopy(g, s);
  }

  /** The state after a stop in s. */
  function Stopped(s: State): State {
    s.(view := s.disk, blocks := [], open := [], mode := Recovering(s.disk, 0), current := [], floor := s.started,
       crashed := s.started)
  }

  lemma {:induction false} CrashRuns(g: Layout, d0: Image, es: seq<Event>, s: State)
    requires CleanDisk(g, d0) && Exec(g, d0, es) == Some(s)
    ensures Exec(g, d0, es + [Crash]) == Some(Stopped(s)) && HeadOk(g, s.disk)
    ensures Sealed(g, s.disk, Durable(d0, s.committed), Head(s.disk[g.start])) == true
  {
    ExecOneMore(g, d0, es, s, Crash);
    RunInv(g, d0, es);
    OwesDurable(g, d0, s);
  }

  lemma {:induction false} BeginRuns(g: Layout, d0: Image, es: seq<Event>, s: State)
    requires CleanDisk(g, d0) && Exec(g, d0, es) == Some(s) && s.mode.Running? && s.blocks == [] && s.open == []
    ensures Exec(g, d0, es + [Begin]).Some?
  {
    ExecOneMore(g, d0, es, s, Begin);
  }

  /** A stop at any time, and then a recovery that completes: the committed transactions are in place, nothing is in the
      log, and begin_op() admits an operation. */
  lemma {:induction false} RebootRecovers(g: Layout, d0: Image, es: seq<Event>, s: State)
    requires CleanDisk(g, d0) == true && Exec(g, d0, es) == Some(s)
    ensures HeadOk(g, s.disk)
    ensures var r := Exec(g, d0, WithRecovery(es + [Crash], g, s.disk));
            && r.Some? && r.value.mode.Running? && r.value.view == r.value.disk == Recovered(g, s.disk)
            && r.value.blocks == [] && r.value.open == [] && r.value.committed == s.committed
            && SameHome(g, r.value.disk, Durable(d0, s.committed))
            && Exec(g, d0, WithRecovery(es + [Crash], g, s.disk) + [Begin]).Some?
  {
    CrashRuns(g, d0, es, s);
    RecoveryRuns(g, d0, es + [Crash], Stopped(s));
    RecoverySteps(g, s.disk, Durable(d0, s.committed), Head(s.disk[g.start]), RecoverLength(g, s.disk));
    BeginRuns(g, d0, WithRecovery(es + [Crash], g, s.disk), AfterRecovery(g, Stopped(s)));
  }

  // ---------------------------------------------------------------- calls are steps

  /** The fields of the kernel's log are those of state s. */
  ghost predicate Same(g: Layout, s: State, disk: Image, view: Image, blocks: seq<int>, outstanding: int,
                       committing: bool) {
    && s.mode.Running? && !committing && s.disk == disk && SameHome(g, s.view, view) && s.blocks == blocks
    && |s.open| == outstanding
  }

  lemma {:induction false} LogOfViews(g: Layout, d: Image, v: Image, v': Image, blocks: seq<int>, k: nat)
    requires SameHome(g, v, v') && |v| == |d| && LayoutOk(g, d) && LogOk(g, blocks, |d|) && k <= |blocks|
    ensures LogState(g, d, v, blocks, k) == LogState(g, d, v', blocks, k)
    decreases k
  {
    if k > 0 { LogOfViews(g, d, v, v', blocks, k - 1); }
  }

  /** A commit looks at home blocks of the cache only. */
  lemma CommitOfViews(g: Layout, d: Image, v: Image, v': Image, blocks: seq<int>, k: nat)
    requires SameHome(g, v, v') && |v| == |d| && LayoutOk(g, d) && LogOk(g, blocks, |d|) && k <= CommitLength(blocks)
    ensures CommitState(g, d, v, blocks, k) == CommitState(g, d, v', blocks, k)
  {
    LogOfViews(g, d, v, v', blocks, if k <= |blocks| then k else |blocks|);
  }

  /** What LogWrite() and Step make of a block. */
  lemma SameAfterWrite(g: Layout, s: State, i: nat, b: int, data: Block, view: Image, outstanding: int)
    requires Safe(g, s) && Same(g, s, s.disk, view, s.blocks, outstanding, false) && 0 <= b < |s.disk| && !InLog(g, b)
    ensures i < outstanding ==>
              (Step(g, s, LogBlock(i, b, data)).Some? <==> LogWriteOutcome(|s.blocks|, g.size, outstanding).Ok?)
    ensures i >= outstanding ==> Step(g, s, LogBlock(i, b, data)).None?
    ensures Step(g, s, LogBlock(i, b, data)).Some? ==>
              Same(g, Step(g, s, LogBlock(i, b, data)).value, s.disk, view[b := data], Record(s.blocks, b), outstanding,
                   false)
  {
  }

  lemma SameAfterBegin(g: Layout, s: State, view: Image, outstanding: int)
    requires Safe(g, s) && Same(g, s, s.disk, view, s.blocks, outstanding, false)
    ensures Step(g, s, Begin).Some? <==> Admits(|s.blocks|, outstanding, false)
    ensures Step(g, s, Begin).Some? ==> Same(g, Step(g, s, Begin).value, s.disk, view, s.blocks, outstanding + 1, false)
  {
  }

  lemma {:induction false} BeginSame(g: Layout, d0: Image, es: seq<Event>, s: State, view: Image, outstanding: int)
    requires CleanDisk(g, d0) == true && Reached(g, d0, es, s) && Same(g, s, s.disk, view, s.blocks, outstanding, false)
    ensures Exec(g, d0, es + [Begin]).Some? <==> Admits(|s.blocks|, outstanding, false)
    ensures Exec(g, d0, es + [Begin]).Some? ==>
              Same(g, Exec(g, d0, es + [Begin]).value, s.disk, view, s.blocks, outstanding + 1, false) == true
  {
    ExecOneMore(g, d0, es, s, Begin);
    SameAfterBegin(g, s, view, outstanding);
  }

  lemma {:induction false} WriteSame(g: Layout, d0: Image, es: seq<Event>, s: State, i: nat, b: int, data: Block,
                                     view: Image, outstanding: int)
    requires CleanDisk(g, d0) == true && Reached(g, d0, es, s) && Same(g, s, s.disk, view, s.blocks, outstanding, false)
    requires 0 <= b < |s.disk| == |view| && !InLog(g, b) && (i < outstanding || outstanding == 0)
    ensures Exec(g, d0, es + [LogBlock(i, b, data)]).Some? <==> LogWriteOutcome(|s.blocks|, g.size, outstanding).Ok?
    ensures Exec(g, d0, es + [LogBlock(i, b, data)]).Some? ==>
              Same(g, Exec(g, d0, es + [LogBlock(i, b, data)]).value, s.disk, view[b := data], Record(s.blocks, b),
                   outstanding, false) == true
  {
    ExecOneMore(g, d0, es, s, LogBlock(i, b, data));
    SameAfterWrite(g, s, i, b, data, view, outstanding);
  }

  lemma SameAfterCommit(g: Layout, s: State, view: Image)
    requires Safe(g, s) && Same(g, s, s.disk, view, s.blocks, 1, false) && HeadOk(g, view) && Head(view[g.start]) == []
    ensures Same(g, AfterCommit(g, s), CommitState(g, s.disk, view, s.blocks, CommitLength(s.blocks)),
                 CommitState(g, view, view, s.blocks, CommitLength(s.blocks)), [], 0, false)
  {
    CommitOfViews(g, s.disk, s.view, view, s.blocks, CommitLength(s.blocks));
    CommitInvisible(g, view, s.blocks);
  }

  lemma {:induction false} RebootSame(g: Layout, d0: Image, es: seq<Event>, s: State)
    requires CleanDisk(g, d0) == true && Exec(g, d0, es) == Some(s)
    ensures HeadOk(g, s.disk) && Exec(g, d0, WithRecovery(es + [Crash], g, s.disk)).Some?
    ensures Same(g, Exec(g, d0, WithRecovery(es + [Crash], g, s.disk)).value, Recovered(g, s.disk),
                 Recovered(g, s.disk), [], 0, false) == true
  {
    CrashRuns(g, d0, es, s);
    RecoveryRuns(g, d0, es + [Crash], Stopped(s));
  }

  /** The disks of a commit in a run are those that commit() passes through. */
  lemma {:induction false} TraceIsRun(g: Layout, d0: Image, es: seq<Event>, s: State, view: Image, i: nat)
    requires CleanDisk(g, d0) == true && Exec(g, d0, es) == Some(s) && Safe(g, s)
    requires Same(g, s, s.disk, view, s.blocks, 1, false) && i < CommitLength(s.blocks)
    ensures var r := Exec(g, d0, More(es + [End(0)], CommitWrite, i + 1));
            r.Some? && r.value.disk == CommitTrace(g, s.disk, view, s.blocks)[i]
  {
    EndRuns(g, d0, es, s);
    CommitWrites(g, d0, es + [End(0)], s, i + 1);
    CommitOfViews(g, s.disk, s.view, view, s.blocks, i + 1);
    CommitTraceAt(g, s.disk, view, s.blocks, i);
  }

  /** The kernel's log, and the run that its calls make. */
  class Kernel {
    const log: Log
    ghost const d0: Image
    ghost var es: seq<Event>

    /** The state of the run. */
    ghost function Now(): State
      reads this
      requires Exec(log.g, d0, es).Some?
    {
      Exec(log.g, d0, es).value
    }

    ghost predicate Valid()
      reads this, log
    {
      && log.Valid() && CleanDisk(log.g, d0) == true && Exec(log.g, d0, es).Some?
      && Same(log.g, Now(), log.disk, log.view, log.Logged(), log.outstanding, log.committing)
    }

    /** Boot on a disk with an empty log. */
    constructor (l: Log)
      requires |l.block| == LOGSIZE && l.view == l.disk && CleanDisk(l.g, l.disk) && l.pins == multiset{}
      requires l.outstanding == 0 && !l.committing
      modifies l
      ensures Valid() && log == l && d0 == old(l.disk) && es == WithRecovery([], l.g, d0)
    {
      log, d0, es := l, l.disk, [];
      new;
      RecoveryRuns(l.g, d0, [], Boot(d0));
      l.RecoverFromLog();
      es := WithRecovery([], l.g, d0);
    }

    /** What is in memory is lost, and the log is recovered. */
    method Restart()
      requires log.Valid() && !log.committing
      modifies log
      ensures log.Valid() && !log.committing && log.outstanding == 0 && log.n == 0
      ensures log.disk == log.view == Recovered(log.g, old(log.disk))
    {
      log.view, log.pins, log.outstanding := log.disk, multiset{}, 0;
      log.RecoverFromLog();
    }

    /** The machine stops between two calls and boots again. */
    method Reboot()
      requires Valid()
      modifies this, log
      ensures Valid() && es == WithRecovery(old(es) + [Crash], log.g, old(log.disk))
    {
      RebootSame(log.g, d0, es, Now());
      es := WithRecovery(es + [Crash], log.g, log.disk);
      Restart();
    }

    /** begin_op(), up to the point where it sleeps: admits exactly if the run can go on with Begin. */
    method BeginOp() returns (admitted: bool)
      requires Valid()
      modifies this, log
      ensures Valid() && es == old(es) + (if admitted then [Begin] else [])
      ensures admitted <==> Exec(log.g, d0, old(es) + [Begin]).Some?
    {
      BeginSame(log.g, d0, es, Now(), log.view, log.outstanding);
      admitted := log.TryBeginOp();
      if admitted {
        es := es + [Begin];
      }
    }

    /** log_write() by the i-th open operation: panics exactly if the run cannot go on with it. */
    method LogWrite(ghost i: nat, b: int, data: Block) returns (r: Outcome)
      requires Valid() && 0 <= b < |log.disk| && !InLog(log.g, b) && (i < log.outstanding || log.outstanding == 0)
      modifies this, log
      ensures r.Ok? <==> Exec(log.g, d0, old(es) + [LogBlock(i, b, data)]).Some?
      ensures r.Ok? ==> Valid() && es == old(es) + [LogBlock(i, b, data)]
    {
      WriteSame(log.g, d0, es, Now(), i, b, data, log.view, log.outstanding);
      r := log.LogWrite(b, data);
      if r.Ok? {
        es := es + [LogBlock(i, b, data)];
      }
    }

    /** end_op() by the i-th open operation, with the whole commit if it is the last one. */
    method EndOp(ghost i: nat) returns (r: Outcome)
      requires Valid() && i < log.outstanding
      modifies this, log
      ensures r.Ok? && Valid()
      ensures es == if old(log.outstanding) == 1 then WithLastEnd(old(es), old(log.Logged())) else old(es) + [End(i)]
    {
      ghost var s := Now();
      RunningNow(log.g, d0, es, s);
      if log.outstanding == 1 {
        LastEndRuns(log.g, d0, es, s);
        SameAfterCommit(log.g, s, log.view);
      } else {
        OtherEndRuns(log.g, d0, es, s, i);
      }
      es := if log.outstanding == 1 then WithLastEnd(es, log.Logged()) else es + [End(i)];
      r := log.EndOp();
    }
  }
}
