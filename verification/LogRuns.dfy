/** All runs of the file-system log: operations are admitted, write blocks and end in any
    interleaving, the machine stops between any two block writes of a commit or of a recovery, and
    reboots into recovery. */
module LogRuns {
  import opened Common
  import opened RedoLog
  import opened KernelLog

  /** One log_write call: operation op gave block b the contents data. */
  datatype Rec = Rec(op: nat, b: int, data: Block)

  /** An operation between begin_op and end_op; spent counts the header slots it has taken. */
  datatype OpState = OpState(id: nat, spent: nat)

  datatype Mode =
    | Running
    | Committing(base: Image, k: nat)
    | Recovering(base: Image, k: nat)

  /** The kernel's log state, then history: all records ever issued, the records of the open
      transaction, the transactions whose header write happened, the number of the first operation
      that can belong to the open transaction, and that of the first operation since the last stop. */
  datatype State = State(disk: Image, view: Image, blocks: seq<int>, open: seq<OpState>, mode: Mode, started: nat,
                         all: seq<Rec>, current: seq<Rec>, committed: seq<seq<Rec>>, floor: nat, crashed: nat)

  datatype Event =
    | Begin
    | LogBlock(i: nat, b: int, data: Block)
    | End(i: nat)
    | CommitWrite
    | CommitReturn
    | Crash
    | RecoverWrite
    | RecoverReturn

  function Boot(d: Image): (s: State) {
    State(d, d, [], [], Recovering(d, 0), 0, [], [], [], 0, 0)
  }

  /** The step e takes in state s, if it can happen there. */
  function Step(g: Layout, s: State, e: Event): (r: Option<State>)
    requires Safe(g, s)
  {
    match e
    case Begin =>
      if s.mode.Running? && Admits(|s.blocks|, |s.open|, false)
      then Some(s.(open := s.open + [OpState(s.started, 0)], started := s.started + 1))
      else None
    case LogBlock(i, b, data) =>
      if s.mode.Running? && i < |s.open| && 0 <= b < |s.disk| && !InLog(g, b)
         && LogWriteOutcome(|s.blocks|, g.size, |s.open|).Ok?
      then
        var op := s.open[i];
        var rec := Rec(op.id, b, data);
        var cost := if b in s.blocks then 0 else 1;
        Some(s.(view := s.view[b := data], blocks := Record(s.blocks, b),
                open := s.open[i := op.(spent := op.spent + cost)],
                all := s.all + [rec], current := s.current + [rec]))
      else None
    case End(i) =>
      if s.mode.Running? && i < |s.open| then
        var open := s.open[..i] + s.open[i + 1..];
        Some(s.(open := open, mode := if open == [] then Committing(s.disk, 0) else Running))
      else None
    case CommitWrite =>
      if s.mode.Committing? && s.mode.k < CommitLength(s.blocks) then
        var k := s.mode.k;
        var s' := s.(disk := CommitState(g, s.mode.base, s.view, s.blocks, k + 1),
                     mode := Committing(s.mode.base, k + 1));
        Some(if k == |s.blocks| then s'.(committed := s.committed + [s.current], current := [], floor := s.started)
             else s')
      else None
    case CommitReturn =>
      if s.mode.Committing? && s.mode.k == CommitLength(s.blocks)
      then Some(s.(mode := Running, blocks := []))
      else None
    case Crash =>
      Some(s.(view := s.disk, blocks := [], open := [], mode := Recovering(s.disk, 0), current := [],
              floor := s.started, crashed := s.started))
    case RecoverWrite =>
      if s.mode.Recovering? && s.mode.k < RecoverLength(g, s.mode.base) then
        var k := s.mode.k;
        Some(s.(disk := RecoverState(g, s.mode.base, k + 1), mode := Recovering(s.mode.base, k + 1)))
      else None
    case RecoverReturn =>
      if s.mode.Recovering? && s.mode.k == RecoverLength(g, s.mode.base)
      then Some(s.(mode := Running, view := s.disk))
      else None
  }

  /** What the steps need in order to be defined. */
  ghost predicate Safe(g: Layout, s: State) {
    && |s.view| == |s.disk|
    && LayoutOk(g, s.disk)
    && LogOk(g, s.blocks, |s.disk|)
    && match s.mode
       case Running => true
       case Committing(base, k) => LayoutOk(g, base) && |base| == |s.disk| && k <= CommitLength(s.blocks)
       case Recovering(base, k) => HeadOk(g, base) && |base| == |s.disk| && k <= RecoverLength(g, base)
  }

  // ---------------------------------------------------------------- what the disk must hold

  /** The records applied to an image in the order they were issued. */
  function Replay(d: Image, recs: seq<Rec>): (y: Image)
    ensures |y| == |d|
  {
    if recs == [] then d
    else
      var r := recs[|recs| - 1];
      var y := Replay(d, recs[..|recs| - 1]);
      if 0 <= r.b < |d| then y[r.b := r.data] else y
  }

  function Durable(d: Image, committed: seq<seq<Rec>>): (y: Image)
    ensures |y| == |d|
  {
    if committed == [] then d
    else Replay(Durable(d, committed[..|committed| - 1]), committed[|committed| - 1])
  }

  lemma ReplaySnoc(d: Image, recs: seq<Rec>, r: Rec)
    requires 0 <= r.b < |d|
    ensures Replay(d, recs + [r]) == Replay(d, recs)[r.b := r.data]
  {
    assert (recs + [r])[..|recs|] == recs;
  }

  lemma DurableSnoc(d: Image, committed: seq<seq<Rec>>, group: seq<Rec>)
    ensures Durable(d, committed + [group]) == Replay(Durable(d, committed), group)
  {
    assert (committed + [group])[..|committed|] == committed;
  }

  /** Outside the logged blocks the cache holds what the disk holds. */
  ghost predicate CleanOutside(g: Layout, view: Image, d: Image, blocks: seq<int>) {
    |view| == |d| && forall b :: 0 <= b < |d| && !InLog(g, b) && b !in blocks ==> view[b] == d[b]
  }

  /** An open transaction on disk d, which owes y. */
  ghost predicate RunningInv(g: Layout, view: Image, blocks: seq<int>, current: seq<Rec>, d: Image, y: Image) {
    && HeadOk(g, d)
    && Head(d[g.start]) == []
    && SameHome(g, d, y)
    && SameHome(g, view, Replay(y, current))
    && CleanOutside(g, view, d, blocks)
    && (forall j :: 0 <= j < |current| ==> current[j].b in blocks)
  }

  /** The disk that a commit starts from. */
  ghost predicate CommitBase(g: Layout, base: Image, view: Image, blocks: seq<int>, nblocks: nat) {
    HeadOk(g, base) && Head(base[g.start]) == [] && |base| == |view| == nblocks && LogOk(g, blocks, nblocks)
  }

  /** After k writes of a commit: the transaction is open up to the header write, and part of y from then on. */
  ghost predicate CommitOwes(g: Layout, base: Image, view: Image, blocks: seq<int>, current: seq<Rec>, k: nat,
                             y: Image) {
    if k <= |blocks| then RunningInv(g, view, blocks, current, base, y)
    else
      && current == [] && |view| == |base|
      && SameHome(g, Target(base, view, blocks), y) && SameHome(g, view, y)
  }

  ghost predicate CommittingInv(g: Layout, s: State, base: Image, k: nat, y: Image) {
    && s.open == [] && CommitBase(g, base, s.view, s.blocks, |s.disk|) && k <= CommitLength(s.blocks)
    && s.disk == CommitState(g, base, s.view, s.blocks, k)
    && CommitOwes(g, base, s.view, s.blocks, s.current, k, y)
  }

  ghost predicate RecoveringInv(g: Layout, s: State, base: Image, k: nat, y: Image) {
    && HeadOk(g, base)
    && Sealed(g, base, y, Head(base[g.start]))
    && k <= RecoverLength(g, base)
    && s.disk == RecoverState(g, base, k)
    && s.current == [] && s.blocks == [] && s.open == []
  }

  /** In every mode: what the disk owes is exactly the committed transactions. */
  ghost predicate DiskInv(g: Layout, d0: Image, s: State) {
    && Safe(g, s)
    && |s.disk| == |d0|
    && match s.mode
       case Running => RunningInv(g, s.view, s.blocks, s.current, s.disk, Durable(d0, s.committed))
       case Committing(base, k) => CommittingInv(g, s, base, k, Durable(d0, s.committed))
       case Recovering(base, k) => RecoveringInv(g, s, base, k, Durable(d0, s.committed))
  }

  /** A stop in any state satisfying the invariant leaves the committed transactions recoverable. */
  lemma {:induction false} OwesDurable(g: Layout, d0: Image, s: State)
    requires DiskInv(g, d0, s)
    ensures HeadOk(g, s.disk) && Sealed(g, s.disk, Durable(d0, s.committed), Head(s.disk[g.start]))
  {
    var y := Durable(d0, s.committed);
    match s.mode
    case Running =>
    case Committing(base, k) =>
      CommitSteps(g, base, s.view, s.blocks, k);
      SealedHome(g, s.disk, if k <= |s.blocks| then base else Target(base, s.view, s.blocks), y);
    case Recovering(base, k) =>
      RecoverySteps(g, base, y, Head(base[g.start]), k);
  }

  /** Owing an image is owing its home blocks. */
  lemma SealedHome(g: Layout, x: Image, y: Image, z: Image)
    requires HeadOk(g, x) && Sealed(g, x, y, Head(x[g.start])) && SameHome(g, y, z)
    ensures Sealed(g, x, z, Head(x[g.start]))
  {
  }

  // ---------------------------------------------------------------- every step keeps the invariant

  lemma {:induction false} LogBlockKeeps(g: Layout, d0: Image, s: State, i: nat, b: int, data: Block)
    requires DiskInv(g, d0, s) && Step(g, s, LogBlock(i, b, data)).Some?
    ensures DiskInv(g, d0, Step(g, s, LogBlock(i, b, data)).value) == true
  {
    var y := Durable(d0, s.committed);
    RecordKeepsLogOk(g, s.blocks, b, |s.disk|);
    ReplaySnoc(y, s.current, Rec(s.open[i].id, b, data));
  }

  /** The header write makes the open transaction part of what the disk owes. */
  lemma {:induction false} CommitPointOwes(g: Layout, base: Image, view: Image, blocks: seq<int>, current: seq<Rec>,
                                           y: Image)
    requires RunningInv(g, view, blocks, current, base, y) == true
    ensures CommitOwes(g, base, view, blocks, [], |blocks| + 1, Replay(y, current))
  {
    TargetIsView(g, base, view, blocks);
  }

  lemma {:induction false} CommitNextOwes(g: Layout, base: Image, view: Image, blocks: seq<int>, current: seq<Rec>,
                                          k: nat, y: Image)
    requires CommitOwes(g, base, view, blocks, current, k, y) && k != |blocks|
    ensures CommitOwes(g, base, view, blocks, current, k + 1, y)
  {
  }

  lemma CommitStateFine(g: Layout, base: Image, view: Image, blocks: seq<int>, k: nat)
    requires CommitBase(g, base, view, blocks, |base|) == true && k <= CommitLength(blocks)
    ensures |CommitState(g, base, view, blocks, k)| == |base| && LayoutOk(g, CommitState(g, base, view, blocks, k))
  {
    CommitSteps(g, base, view, blocks, k);
  }

  lemma {:induction false} CommitWriteKeeps(g: Layout, d0: Image, s: State)
    requires DiskInv(g, d0, s) && Step(g, s, CommitWrite).Some?
    ensures DiskInv(g, d0, Step(g, s, CommitWrite).value) == true
  {
    CommitStateFine(g, s.mode.base, s.view, s.blocks, s.mode.k + 1);
    if s.mode.k == |s.blocks| { CommitPointKeeps(g, d0, s); } else { CommitOtherKeeps(g, d0, s); }
  }

  lemma {:induction false} CommitPointKeeps(g: Layout, d0: Image, s: State)
    requires DiskInv(g, d0, s) && Step(g, s, CommitWrite).Some? && s.mode.k == |s.blocks|
    requires LayoutOk(g, CommitState(g, s.mode.base, s.view, s.blocks, s.mode.k + 1))
    ensures DiskInv(g, d0, Step(g, s, CommitWrite).value) == true
  {
    DurableSnoc(d0, s.committed, s.current);
    CommitPointOwes(g, s.mode.base, s.view, s.blocks, s.current, Durable(d0, s.committed));
  }

  lemma {:induction false} CommitOtherKeeps(g: Layout, d0: Image, s: State)
    requires DiskInv(g, d0, s) && Step(g, s, CommitWrite).Some? && s.mode.k != |s.blocks|
    requires LayoutOk(g, CommitState(g, s.mode.base, s.view, s.blocks, s.mode.k + 1))
    ensures DiskInv(g, d0, Step(g, s, CommitWrite).value) == true
  {
    CommitNextOwes(g, s.mode.base, s.view, s.blocks, s.current, s.mode.k, Durable(d0, s.committed));
  }

  lemma TargetIsView(g: Layout, d: Image, view: Image, blocks: seq<int>)
    requires CleanOutside(g, view, d, blocks)
    ensures SameHome(g, Target(d, view, blocks), view)
  {
  }

  /** The disk when a commit has returned. */
  lemma {:induction false} CommitReturnRuns(g: Layout, base: Image, view: Image, blocks: seq<int>, current: seq<Rec>,
                                            k: nat, y: Image)
    requires CommitBase(g, base, view, blocks, |base|) && k == CommitLength(blocks)
    requires CommitOwes(g, base, view, blocks, current, k, y)
    ensures RunningInv(g, view, [], current, CommitState(g, base, view, blocks, k), y)
  {
    CommitSteps(g, base, view, blocks, k);
    CommitReturned(g, base, view, blocks, current, k, y);
  }

  lemma {:induction false} CommitReturnKeeps(g: Layout, d0: Image, s: State)
    requires DiskInv(g, d0, s) && Step(g, s, CommitReturn).Some?
    ensures DiskInv(g, d0, Step(g, s, CommitReturn).value) == true
  {
    CommitReturnRuns(g, s.mode.base, s.view, s.blocks, s.current, s.mode.k, Durable(d0, s.committed));
  }

  lemma {:induction false} CrashKeeps(g: Layout, d0: Image, s: State)
    requires DiskInv(g, d0, s)
    ensures DiskInv(g, d0, Step(g, s, Crash).value) == true
  {
    OwesDurable(g, d0, s);
    CrashedOwes(g, d0, s);
  }

  lemma {:induction false} CrashedOwes(g: Layout, d0: Image, s: State)
    requires Safe(g, s) && |s.disk| == |d0| && HeadOk(g, s.disk)
    requires Sealed(g, s.disk, Durable(d0, s.committed), Head(s.disk[g.start])) == true
    ensures DiskInv(g, d0, Step(g, s, Crash).value) == true
  {
    RecoverStart(g, s.disk);
  }

  lemma RecoverStart(g: Layout, d: Image)
    requires HeadOk(g, d)
    ensures RecoverState(g, d, 0) == d
  {
  }

  lemma RecoverStateFine(g: Layout, base: Image, y: Image, k: nat)
    requires HeadOk(g, base) && Sealed(g, base, y, Head(base[g.start])) == true && k <= RecoverLength(g, base)
    ensures |RecoverState(g, base, k)| == |base| && LayoutOk(g, RecoverState(g, base, k))
  {
    RecoverySteps(g, base, y, Head(base[g.start]), k);
  }

  lemma {:induction false} RecoverWriteKeeps(g: Layout, d0: Image, s: State)
    requires DiskInv(g, d0, s) && Step(g, s, RecoverWrite).Some?
    ensures DiskInv(g, d0, Step(g, s, RecoverWrite).value) == true
  {
    RecoverStateFine(g, s.mode.base, Durable(d0, s.committed), s.mode.k + 1);
  }

  /** The disk when a recovery has returned. */
  lemma {:induction false} RecoverReturnRuns(g: Layout, base: Image, y: Image)
    requires HeadOk(g, base) && Sealed(g, base, y, Head(base[g.start])) == true
    ensures LayoutOk(g, RecoverState(g, base, RecoverLength(g, base)))
    ensures var d := RecoverState(g, base, RecoverLength(g, base)); RunningInv(g, d, [], [], d, y)
  {
    RecoverySteps(g, base, y, Head(base[g.start]), RecoverLength(g, base));
  }

  lemma {:induction false} RecoverReturnKeeps(g: Layout, d0: Image, s: State)
    requires DiskInv(g, d0, s) && Step(g, s, RecoverReturn).Some?
    ensures DiskInv(g, d0, Step(g, s, RecoverReturn).value) == true
  {
    RecoverReturnRuns(g, s.mode.base, Durable(d0, s.committed));
  }

  lemma {:induction false} StepKeepsDiskInv(g: Layout, d0: Image, s: State, e: Event)
    requires DiskInv(g, d0, s) && Step(g, s, e).Some?
    ensures DiskInv(g, d0, Step(g, s, e).value) == true
  {
    match e
    case Begin =>
    case LogBlock(i, b, data) => LogBlockKeeps(g, d0, s, i, b, data);
    case End(i) => EndKeeps(g, d0, s, i);
    case CommitWrite => CommitWriteKeeps(g, d0, s);
    case CommitReturn => CommitReturnKeeps(g, d0, s);
    case Crash => CrashKeeps(g, d0, s);
    case RecoverWrite => RecoverWriteKeeps(g, d0, s);
    case RecoverReturn => RecoverReturnKeeps(g, d0, s);
  }

  lemma {:induction false} EndKeeps(g: Layout, d0: Image, s: State, i: nat)
    requires DiskInv(g, d0, s) && Step(g, s, End(i)).Some?
    ensures DiskInv(g, d0, Step(g, s, End(i)).value) == true
  {
  }

  // ---------------------------------------------------------------- operations are not split

  /** The records of one operation. */
  function OpRecs(recs: seq<Rec>, op: nat): (r: seq<Rec>) {
    if recs == [] then []
    else
      var last := recs[|recs| - 1];
      OpRecs(recs[..|recs| - 1], op) + if last.op == op then [last] else []
  }

  lemma OpRecsSnoc(recs: seq<Rec>, r: Rec, op: nat)
    ensures OpRecs(recs + [r], op) == OpRecs(recs, op) + if r.op == op then [r] else []
  {
    assert (recs + [r])[..|recs|] == recs;
  }

  ghost predicate InGroup(committed: seq<seq<Rec>>, i: nat, op: nat) {
    i < |committed| && OpRecs(committed[i], op) != []
  }

  ghost predicate Committed(committed: seq<seq<Rec>>, op: nat) {
    exists i: nat :: InGroup(committed, i, op)
  }

  /** A committed group has all records of an operation or none, and only of closed ones. */
  ghost predicate GroupOk(s: State, i: nat, op: nat) {
    InGroup(s.committed, i, op) ==> op < s.floor && OpRecs(s.committed[i], op) == OpRecs(s.all, op)
  }

  /** What was written by an operation is in the open transaction, or committed, or was lost in a stop. */
  ghost predicate OpOk(s: State, op: nat) {
    && (op >= s.floor ==> OpRecs(s.all, op) == OpRecs(s.current, op))
    && (op < s.floor || op >= s.started ==> OpRecs(s.current, op) == [])
    && (s.crashed <= op < s.floor && OpRecs(s.all, op) != [] ==> Committed(s.committed, op))
  }

  ghost predicate OpsInv(s: State) {
    && s.crashed <= s.floor <= s.started
    && (forall i :: 0 <= i < |s.open| ==> s.floor <= s.open[i].id < s.started)
    && (forall op: nat :: OpOk(s, op)) && (forall i: nat, op: nat :: GroupOk(s, i, op))
  }

  lemma KnownOp(s: State, i: nat, op: nat)
    requires OpsInv(s)
    ensures OpOk(s, op) && GroupOk(s, i, op)
  {
  }

  lemma {:induction false} LogBlockKeepsOps(g: Layout, s: State, i: nat, b: int, data: Block)
    requires Safe(g, s) && OpsInv(s) && Step(g, s, LogBlock(i, b, data)).Some?
    ensures OpsInv(Step(g, s, LogBlock(i, b, data)).value)
  {
    var s' := Step(g, s, LogBlock(i, b, data)).value;
    var r := Rec(s.open[i].id, b, data);
    forall op: nat ensures OpOk(s', op) {
      KnownOp(s, 0, op);
      OpRecsSnoc(s.all, r, op);
      OpRecsSnoc(s.current, r, op);
    }
    forall j: nat, op: nat ensures GroupOk(s', j, op) {
      KnownOp(s, j, op);
      OpRecsSnoc(s.all, r, op);
    }
  }

  lemma {:induction false} CommitPointKeepsOps(g: Layout, s: State)
    requires Safe(g, s) && OpsInv(s) && s.open == [] && Step(g, s, CommitWrite).Some? && s.mode.k == |s.blocks|
    ensures OpsInv(Step(g, s, CommitWrite).value)
  {
    var s' := Step(g, s, CommitWrite).value;
    var n := |s.committed|;
    forall op: nat ensures OpOk(s', op) {
      KnownOp(s, 0, op);
      if Committed(s.committed, op) {
        var i: nat :| InGroup(s.committed, i, op);
        assert InGroup(s'.committed, i, op);
      }
      if OpRecs(s.current, op) != [] { assert InGroup(s'.committed, n, op); }
    }
    forall i: nat, op: nat ensures GroupOk(s', i, op) {
      KnownOp(s, i, op);
      assert i < n ==> s'.committed[i] == s.committed[i];
    }
  }

  /** A stop: the open transaction is lost. */
  lemma {:induction false} CrashKeepsOps(g: Layout, s: State)
    requires Safe(g, s) && OpsInv(s)
    ensures OpsInv(Step(g, s, Crash).value)
  {
    var s' := Step(g, s, Crash).value;
    forall op: nat ensures OpOk(s', op) { KnownOp(s, 0, op); }
    forall i: nat, op: nat ensures GroupOk(s', i, op) { KnownOp(s, i, op); }
  }

  /** The records are as before. */
  lemma {:induction false} SameRecsKeepOps(s: State, s': State)
    requires OpsInv(s) && s'.all == s.all && s'.current == s.current && s'.committed == s.committed
    requires s'.floor == s.floor && s'.crashed == s.crashed && s.started <= s'.started
    requires forall i :: 0 <= i < |s'.open| ==> s'.floor <= s'.open[i].id < s'.started
    ensures OpsInv(s')
  {
    forall op: nat ensures OpOk(s', op) { KnownOp(s, 0, op); }
    forall i: nat, op: nat ensures GroupOk(s', i, op) { KnownOp(s, i, op); }
  }

  lemma {:induction false} StepKeepsOpsInv(g: Layout, d0: Image, s: State, e: Event)
    requires DiskInv(g, d0, s) && OpsInv(s) && Step(g, s, e).Some?
    ensures OpsInv(Step(g, s, e).value)
  {
    var s' := Step(g, s, e).value;
    match e
    case LogBlock(i, b, data) => LogBlockKeepsOps(g, s, i, b, data);
    case Crash => CrashKeepsOps(g, s);
    case CommitWrite =>
      if s.mode.k == |s.blocks| { CommitPointKeepsOps(g, s); } else { SameRecsKeepOps(s, s'); }
    case _ => SameRecsKeepOps(s, s');
  }

  // ---------------------------------------------------------------- runs

  /** The state after the events es from a boot on disk d0, if they can happen in this order.
      RunInv shows that Safe never stands in the way. */
  ghost function Exec(g: Layout, d0: Image, es: seq<Event>): (r: Option<State>) {
    if es == [] then Some(Boot(d0))
    else
      match Exec(g, d0, es[..|es| - 1])
      case None => None
      case Some(s) => if Safe(g, s) then Step(g, s, es[|es| - 1]) else None
  }

  /** A freshly made or cleanly shut down file system: nothing in the log. */
  ghost predicate CleanDisk(g: Layout, d: Image) {
    HeadOk(g, d) && Head(d[g.start]) == []
  }

  lemma {:induction false} RunInv(g: Layout, d0: Image, es: seq<Event>)
    requires CleanDisk(g, d0) && Exec(g, d0, es).Some?
    ensures DiskInv(g, d0, Exec(g, d0, es).value) && OpsInv(Exec(g, d0, es).value)
  {
    if es != [] {
      RunInv(g, d0, es[..|es| - 1]);
      StepKeepsDiskInv(g, d0, Exec(g, d0, es[..|es| - 1]).value, es[|es| - 1]);
      StepKeepsOpsInv(g, d0, Exec(g, d0, es[..|es| - 1]).value, es[|es| - 1]);
    }
  }

  /** Crash safety of every run: stop the machine after any events, stop the following recoveries
      any number of times, and let one finish.  The home blocks are exactly those of the committed
      transactions, and each transaction holds, for every operation, all of its records or none. */
  lemma {:induction false} CrashSafety(g: Layout, d0: Image, es: seq<Event>, stops: seq<nat>, x: Image)
    requires CleanDisk(g, d0) && Exec(g, d0, es).Some?
    requires Restarted(g, Exec(g, d0, es).value.disk, stops, x)
    ensures var s := Exec(g, d0, es).value;
            && HeadOk(g, x)
            && SameHome(g, Recovered(g, x), Durable(d0, s.committed))
            && (forall i: nat, op: nat :: InGroup(s.committed, i, op) ==>
                 OpRecs(s.committed[i], op) == OpRecs(s.all, op))
  {
    var s := Exec(g, d0, es).value;
    RunInv(g, d0, es);
    forall i: nat, op: nat | InGroup(s.committed, i, op) ensures OpRecs(s.committed[i], op) == OpRecs(s.all, op) {
      KnownOp(s, i, op);
    }
    OwesDurable(g, d0, s);
    RestartsAreHarmless(g, s.disk, Durable(d0, s.committed), Head(s.disk[g.start]), stops, x);
  }

  /** When a commit returns, every operation since the last stop is in a committed transaction. */
  lemma {:induction false} CommitReturnDurable(g: Layout, d0: Image, s: State, op: nat)
    requires DiskInv(g, d0, s) && OpsInv(s) && Step(g, s, CommitReturn).Some?
    ensures s.current == [] && SameHome(g, s.view, Durable(d0, s.committed))
    ensures op >= s.crashed && OpRecs(s.all, op) != [] ==> Committed(s.committed, op)
  {
    CommitReturned(g, s.mode.base, s.view, s.blocks, s.current, s.mode.k, Durable(d0, s.committed));
    KnownOp(s, 0, op);
  }

  lemma {:induction false} CommitReturned(g: Layout, base: Image, view: Image, blocks: seq<int>, current: seq<Rec>,
                                          k: nat, y: Image)
    requires CommitOwes(g, base, view, blocks, current, k, y) && k == CommitLength(blocks)
    ensures current == [] && SameHome(g, view, y)
  {
    if blocks == [] { FirstLogged(blocks, current); }
  }

  lemma FirstLogged(blocks: seq<int>, current: seq<Rec>)
    requires forall j :: 0 <= j < |current| ==> current[j].b in blocks
    ensures current != [] ==> current[0].b in blocks
  {
  }

  /** Committed transactions stay committed. */
  lemma {:induction false} StepGrows(g: Layout, s: State, e: Event)
    requires Safe(g, s) && Step(g, s, e).Some?
    ensures s.committed <= Step(g, s, e).value.committed
  {
  }

  lemma {:induction false} CommittedGrows(g: Layout, d0: Image, es: seq<Event>, more: seq<Event>)
    requires Exec(g, d0, es + more).Some?
    ensures Exec(g, d0, es).Some? && Exec(g, d0, es).value.committed <= Exec(g, d0, es + more).value.committed
  {
    if more == [] {
      assert es + more == es;
    } else {
      var init := more[..|more| - 1];
      assert (es + more)[..|es + more| - 1] == es + init;
      CommittedGrows(g, d0, es, init);
      StepGrows(g, Exec(g, d0, es + init).value, more[|more| - 1]);
    }
  }

  lemma {:induction false} ReturnedIsDurable(g: Layout, d0: Image, es: seq<Event>, op: nat)
    requires CleanDisk(g, d0) && Exec(g, d0, es + [CommitReturn]).Some?
    ensures var s := Exec(g, d0, es + [CommitReturn]).value;
            && SameHome(g, s.view, Durable(d0, s.committed))
            && (op >= s.crashed && OpRecs(s.all, op) != [] ==> HasAll(s.committed, op, OpRecs(s.all, op)))
  {
    assert (es + [CommitReturn])[..|es|] == es;
    var s := Exec(g, d0, es).value;
    RunInv(g, d0, es);
    CommitReturnDurable(g, d0, s, op);
    if op >= s.crashed && OpRecs(s.all, op) != [] {
      var i: nat :| InGroup(s.committed, i, op);
      KnownOp(s, i, op);
    }
  }

  /** One of the groups has exactly these records of an operation. */
  ghost predicate HasAll(committed: seq<seq<Rec>>, op: nat, recs: seq<Rec>) {
    exists i: nat :: InGroup(committed, i, op) && OpRecs(committed[i], op) == recs
  }

  lemma {:induction false} HasAllGrows(a: seq<seq<Rec>>, b: seq<seq<Rec>>, op: nat, recs: seq<Rec>)
    requires HasAll(a, op, recs) && a <= b
    ensures HasAll(b, op, recs)
  {
    var i: nat :| InGroup(a, i, op) && OpRecs(a[i], op) == recs;
    assert a[i] == b[i] && InGroup(b, i, op);
  }

  /** Durability: once a commit has returned, the cache shows exactly the committed blocks; whatever happens then and
      however recoveries are stopped, the next one that completes gives the transactions committed by then, those of
      the time of the return first, and among them all of the records of every operation that had written since the
      last stop before. */
  lemma {:induction false} CommitIsDurable(g: Layout, d0: Image, es: seq<Event>, more: seq<Event>, stops: seq<nat>,
                                           x: Image, op: nat)
    requires CleanDisk(g, d0) && Exec(g, d0, es + [CommitReturn] + more).Some?
    requires Restarted(g, Exec(g, d0, es + [CommitReturn] + more).value.disk, stops, x)
    ensures Exec(g, d0, es + [CommitReturn]).Some? && HeadOk(g, x)
    ensures var s, s' := Exec(g, d0, es + [CommitReturn]).value, Exec(g, d0, es + [CommitReturn] + more).value;
            && SameHome(g, s.view, Durable(d0, s.committed))
            && s.committed <= s'.committed
            && SameHome(g, Recovered(g, x), Durable(d0, s'.committed))
            && (op >= s.crashed && OpRecs(s.all, op) != [] ==> HasAll(s'.committed, op, OpRecs(s.all, op)))
  {
    var es' := es + [CommitReturn];
    CommittedGrows(g, d0, es', more);
    CrashSafety(g, d0, es' + more, stops, x);
    ReturnedIsDurable(g, d0, es, op);
    var s, s' := Exec(g, d0, es').value, Exec(g, d0, es' + more).value;
    if op >= s.crashed && OpRecs(s.all, op) != [] {
      HasAllGrows(s.committed, s'.committed, op, OpRecs(s.all, op));
    }
  }
}
