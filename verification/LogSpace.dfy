/** Space in the log: what begin_op reserves is enough, when the log region is large enough. */
module LogSpace {
  import opened Common
  import opened RedoLog
  import opened KernelLog
  import opened LogRuns

  /** The header slots that open operations may still take. */
  function Unspent(open: seq<OpState>): int {
    if open == [] then 0
    else Unspent(open[..|open| - 1]) + MAXOPBLOCKS - open[|open| - 1].spent
  }

  lemma {:induction false} UnspentAppend(a: seq<OpState>, b: seq<OpState>)
    ensures Unspent(a + b) == Unspent(a) + Unspent(b)
  {
    if b == [] {
      assert a + b == a;
    } else {
      assert (a + b)[..|a + b| - 1] == a + b[..|b| - 1];
      UnspentAppend(a, b[..|b| - 1]);
    }
  }

  lemma {:induction false} UnspentSplit(open: seq<OpState>, i: nat)
    requires i < |open|
    ensures Unspent(open) == Unspent(open[..i]) + Unspent(open[i + 1..]) + MAXOPBLOCKS - open[i].spent
  {
    assert open == open[..i] + ([open[i]] + open[i + 1..]);
    UnspentAppend(open[..i], [open[i]] + open[i + 1..]);
    UnspentAppend([open[i]], open[i + 1..]);
    assert [open[i]][..0] == [];
  }

  ghost predicate WithinBudget(open: seq<OpState>) {
    forall i :: 0 <= i < |open| ==> open[i].spent <= MAXOPBLOCKS
  }

  lemma {:induction false} UnspentBound(open: seq<OpState>)
    requires WithinBudget(open)
    ensures 0 <= Unspent(open) <= |open| * MAXOPBLOCKS
  {
    if open != [] { UnspentBound(open[..|open| - 1]); }
  }

  /** The reservation: slots taken plus slots that may still be taken fit the log. */
  ghost predicate Reserved(s: State) {
    WithinBudget(s.open) && |s.blocks| + Unspent(s.open) <= LOGSIZE
  }

  /** k operations that have taken no slot yet. */
  function Untouched(k: nat): (open: seq<OpState>)
    ensures |open| == k
  {
    if k == 0 then [] else Untouched(k - 1) + [OpState(0, 0)]
  }

  lemma {:induction false} UntouchedUnspent(k: nat)
    ensures WithinBudget(Untouched(k)) && Unspent(Untouched(k)) == k * MAXOPBLOCKS
  {
    if k > 0 {
      UntouchedUnspent(k - 1);
      assert Untouched(k)[..k - 1] == Untouched(k - 1);
    }
  }

  /** However little the k open operations have taken, the log has room for all that they and one more may take. */
  ghost predicate RoomForOneMore(n: nat, k: nat) {
    forall open :: |open| == k && WithinBudget(open) ==> n + Unspent(open + [OpState(0, 0)]) <= LOGSIZE
  }

  /** begin_op() admits an operation exactly if there is room for one more. */
  lemma {:induction false} AdmitsIffRoom(n: nat, k: nat)
    ensures Admits(n, k, false) <==> RoomForOneMore(n, k)
  {
    assert [OpState(0, 0)][..0] == [];
    UntouchedUnspent(k);
    UnspentAppend(Untouched(k), [OpState(0, 0)]);
    if Admits(n, k, false) {
      forall open | |open| == k && WithinBudget(open) ensures n + Unspent(open + [OpState(0, 0)]) <= LOGSIZE {
        UnspentBound(open);
        UnspentAppend(open, [OpState(0, 0)]);
      }
    }
  }

  /** An operation that has taken MAXOPBLOCKS slots writes no further block. */
  ghost predicate Frugal(s: State, e: Event) {
    e.LogBlock? && e.i < |s.open| ==> s.open[e.i].spent < MAXOPBLOCKS
  }

  lemma {:induction false} BeginKeepsReserved(s: State)
    requires Reserved(s) && Admits(|s.blocks|, |s.open|, false)
    ensures Reserved(s.(open := s.open + [OpState(s.started, 0)]))
  {
    UnspentBound(s.open);
    UnspentAppend(s.open, [OpState(s.started, 0)]);
    assert [OpState(s.started, 0)][..0] == [];
  }

  lemma {:induction false} SpendKeepsReserved(open: seq<OpState>, i: nat, cost: nat)
    requires WithinBudget(open) && i < |open| && open[i].spent + cost <= MAXOPBLOCKS
    ensures var open' := open[i := open[i].(spent := open[i].spent + cost)];
            WithinBudget(open') && Unspent(open') + cost == Unspent(open)
  {
    var open' := open[i := open[i].(spent := open[i].spent + cost)];
    UnspentSplit(open, i);
    UnspentSplit(open', i);
    assert open'[..i] == open[..i] && open'[i + 1..] == open[i + 1..];
  }

  lemma {:induction false} EndKeepsReserved(open: seq<OpState>, i: nat)
    requires WithinBudget(open) && i < |open|
    ensures WithinBudget(open[..i] + open[i + 1..]) && Unspent(open[..i] + open[i + 1..]) <= Unspent(open)
  {
    UnspentSplit(open, i);
    UnspentAppend(open[..i], open[i + 1..]);
  }

  lemma {:induction false} StepKeepsReserved(g: Layout, s: State, e: Event)
    requires Safe(g, s) && Reserved(s) && Frugal(s, e) && Step(g, s, e).Some?
    ensures Reserved(Step(g, s, e).value)
  {
    match e
    case Begin => BeginKeepsReserved(s);
    case LogBlock(i, b, data) => SpendKeepsReserved(s.open, i, if b in s.blocks then 0 else 1);
    case End(i) => EndKeepsReserved(s.open, i);
    case _ => UnspentBound(s.open);
  }

  /** Every operation of the run stays within its budget. */
  ghost predicate FrugalRun(g: Layout, d0: Image, es: seq<Event>) {
    es == [] ||
    var init := es[..|es| - 1];
    FrugalRun(g, d0, init) && (Exec(g, d0, init).Some? ==> Frugal(Exec(g, d0, init).value, es[|es| - 1]))
  }

  lemma {:induction false} RunsReserve(g: Layout, d0: Image, es: seq<Event>)
    requires CleanDisk(g, d0) && FrugalRun(g, d0, es) && Exec(g, d0, es).Some?
    ensures Reserved(Exec(g, d0, es).value)
  {
    if es != [] {
      var init := es[..|es| - 1];
      RunInv(g, d0, init);
      RunsReserve(g, d0, init);
      StepKeepsReserved(g, Exec(g, d0, init).value, es[|es| - 1]);
    }
  }

  /** While a commit runs there is no open operation, and no event but a stop can change the header
      or the cached blocks it is writing, until it returns. */
  lemma {:induction false} CommitIsAlone(g: Layout, d0: Image, es: seq<Event>, e: Event)
    requires CleanDisk(g, d0) && Exec(g, d0, es).Some? && Exec(g, d0, es + [e]).Some?
    requires Exec(g, d0, es).value.mode.Committing? && !e.Crash?
    ensures var s, s' := Exec(g, d0, es).value, Exec(g, d0, es + [e]).value;
            && s.open == s'.open == []
            && s'.view == s.view
            && (e.CommitReturn? || s'.blocks == s.blocks)
  {
    assert (es + [e])[..|es|] == es;
    RunInv(g, d0, es);
  }

  /** log_write never panics for an operation with budget left, if the log region has a header block
      and LOGSIZE data blocks. */
  lemma {:induction false} NoPanic(g: Layout, d0: Image, es: seq<Event>, i: nat)
    requires CleanDisk(g, d0) && FrugalRun(g, d0, es) && Exec(g, d0, es).Some?
    requires i < |Exec(g, d0, es).value.open| && Exec(g, d0, es).value.open[i].spent < MAXOPBLOCKS
    ensures |Exec(g, d0, es).value.blocks| < LOGSIZE
    ensures g.size > LOGSIZE ==>
              LogWriteOutcome(|Exec(g, d0, es).value.blocks|, g.size, |Exec(g, d0, es).value.open|).Ok?
  {
    var s := Exec(g, d0, es).value;
    RunsReserve(g, d0, es);
    UnspentSplit(s.open, i);
    UnspentBound(s.open[..i]);
    UnspentBound(s.open[i + 1..]);
  }

  // ---------------------------------------------------------------- operations that write few blocks

  function BlocksOf(recs: seq<Rec>): set<int> {
    set r | r in recs :: r.b
  }

  lemma {:induction false} BlocksOfSnoc(recs: seq<Rec>, r: Rec)
    ensures BlocksOf(recs + [r]) == BlocksOf(recs) + {r.b}
    ensures |BlocksOf(recs + [r])| == |BlocksOf(recs)| + if r.b in BlocksOf(recs) then 0 else 1
  {
    forall b ensures b in BlocksOf(recs + [r]) <==> b in BlocksOf(recs) + {r.b} {
      if b in BlocksOf(recs) {
        var x :| x in recs && x.b == b;
        assert x in recs + [r];
      }
      assert r in recs + [r];
    }
    assert BlocksOf(recs) + {r.b} == if r.b in BlocksOf(recs) then BlocksOf(recs) else BlocksOf(recs) + {r.b};
  }

  /** The different blocks that the operation in place i has written. */
  ghost function BlocksBy(s: State, i: nat): set<int>
    requires i < |s.open|
  {
    BlocksOf(OpRecs(s.all, s.open[i].id))
  }

  /** An operation has taken at most a slot for each block that it has written. */
  ghost predicate SpentOk(s: State, i: nat) {
    i < |s.open| ==> s.open[i].spent <= |BlocksBy(s, i)|
  }

  ghost predicate SpentInv(s: State) {
    forall i: nat :: SpentOk(s, i)
  }

  /** What an open operation has written is in the log. */
  lemma {:induction false} WrittenIsLogged(recs: seq<Rec>, op: nat, blocks: seq<int>, b: int)
    requires (forall j :: 0 <= j < |recs| ==> recs[j].b in blocks) && b in BlocksOf(OpRecs(recs, op))
    ensures b in blocks
  {
    if recs != [] {
      var init, last := recs[..|recs| - 1], recs[|recs| - 1];
      assert recs == init + [last];
      OpRecsSnoc(init, last, op);
      if last.op == op { BlocksOfSnoc(OpRecs(init, op), last); }
      if b in BlocksOf(OpRecs(init, op)) { WrittenIsLogged(init, op, blocks, b); }
    }
  }

  lemma {:induction false} LogBlockKeepsSpent(g: Layout, d0: Image, s: State, i: nat, b: int, data: Block)
    requires DiskInv(g, d0, s) && OpsInv(s) && SpentInv(s) && Step(g, s, LogBlock(i, b, data)).Some?
    ensures SpentInv(Step(g, s, LogBlock(i, b, data)).value)
  {
    var s' := Step(g, s, LogBlock(i, b, data)).value;
    var r := Rec(s.open[i].id, b, data);
    CurrentIsLogged(g, d0, s);
    forall j: nat ensures SpentOk(s', j) {
      assert SpentOk(s, j);
      if j < |s.open| {
        KnownOp(s, 0, s.open[j].id);
        BlocksGrow(s.all, s.current, r, s.open[j].id, s.blocks);
      }
    }
  }

  lemma {:induction false} CurrentIsLogged(g: Layout, d0: Image, s: State)
    requires DiskInv(g, d0, s) && s.mode.Running?
    ensures forall j :: 0 <= j < |s.current| ==> s.current[j].b in s.blocks
  {
  }

  /** A log_write() that takes a slot is of a block that the operation has not written before. */
  lemma {:induction false} BlocksGrow(all: seq<Rec>, current: seq<Rec>, r: Rec, op: nat, blocks: seq<int>)
    requires OpRecs(all, op) == OpRecs(current, op) && forall j :: 0 <= j < |current| ==> current[j].b in blocks
    ensures var before, after := |BlocksOf(OpRecs(all, op))|, |BlocksOf(OpRecs(all + [r], op))|;
            before <= after && (op == r.op && r.b !in blocks ==> before < after)
  {
    OpRecsSnoc(all, r, op);
    assert OpRecs(all, op) + [] == OpRecs(all, op);
    if op == r.op {
      BlocksOfSnoc(OpRecs(all, op), r);
      if r.b in BlocksOf(OpRecs(all, op)) { WrittenIsLogged(current, op, blocks, r.b); }
    }
  }

  lemma {:induction false} StepKeepsSpent(g: Layout, d0: Image, s: State, e: Event)
    requires DiskInv(g, d0, s) && OpsInv(s) && SpentInv(s) && Step(g, s, e).Some?
    ensures SpentInv(Step(g, s, e).value)
  {
    if e.LogBlock? {
      LogBlockKeepsSpent(g, d0, s, e.i, e.b, e.data);
    } else {
      var s' := Step(g, s, e).value;
      forall j: nat ensures SpentOk(s', j) {
        assert SpentOk(s, j) && SpentOk(s, j + 1);
      }
    }
  }

  lemma {:induction false} RunSpent(g: Layout, d0: Image, es: seq<Event>)
    requires CleanDisk(g, d0) && Exec(g, d0, es).Some?
    ensures SpentInv(Exec(g, d0, es).value)
  {
    if es != [] {
      var init := es[..|es| - 1];
      RunInv(g, d0, init);
      RunSpent(g, d0, init);
      StepKeepsSpent(g, d0, Exec(g, d0, init).value, es[|es| - 1]);
    }
  }

  /** The operation has written fewer than MAXOPBLOCKS different blocks before this log_write(). */
  ghost predicate Thrifty(s: State, e: Event) {
    e.LogBlock? && e.i < |s.open| ==> |BlocksBy(s, e.i)| < MAXOPBLOCKS
  }

  ghost predicate ThriftyRun(g: Layout, d0: Image, es: seq<Event>) {
    es == [] ||
    var init := es[..|es| - 1];
    ThriftyRun(g, d0, init) && (Exec(g, d0, init).Some? ==> Thrifty(Exec(g, d0, init).value, es[|es| - 1]))
  }

  /** A bound on the different blocks that each operation writes bounds the slots that it takes. */
  lemma {:induction false} ThriftyIsFrugal(g: Layout, d0: Image, es: seq<Event>)
    requires CleanDisk(g, d0) && ThriftyRun(g, d0, es)
    ensures FrugalRun(g, d0, es)
  {
    if es != [] {
      var init, e := es[..|es| - 1], es[|es| - 1];
      ThriftyIsFrugal(g, d0, init);
      if Exec(g, d0, init).Some? {
        RunSpent(g, d0, init);
        if e.LogBlock? { assert SpentOk(Exec(g, d0, init).value, e.i); }
      }
    }
  }

  /** So log_write() does not panic for an operation that has written fewer than MAXOPBLOCKS different blocks, as every
      chunk of filewrite() has at each of its log_write() calls. */
  lemma {:induction false} ThriftyNoPanic(g: Layout, d0: Image, es: seq<Event>, i: nat)
    requires CleanDisk(g, d0) && ThriftyRun(g, d0, es) && Exec(g, d0, es).Some? && g.size > LOGSIZE
    requires i < |Exec(g, d0, es).value.open| && |BlocksBy(Exec(g, d0, es).value, i)| < MAXOPBLOCKS
    ensures LogWriteOutcome(|Exec(g, d0, es).value.blocks|, g.size, |Exec(g, d0, es).value.open|).Ok?
  {
    ThriftyIsFrugal(g, d0, es);
    RunSpent(g, d0, es);
    assert SpentOk(Exec(g, d0, es).value, i);
    NoPanic(g, d0, es, i);
  }

  // ---------------------------------------------------------------- the bound is exact

  function Spent(n: nat, j: nat): nat {
    if n <= MAXOPBLOCKS * j then 0 else if n <= MAXOPBLOCKS * (j + 1) then n - MAXOPBLOCKS * j else MAXOPBLOCKS
  }

  ghost predicate Filled(g: Layout, s: State, n: nat, nblocks: nat) {
    && |s.disk| == nblocks
    && s.mode.Running?
    && |s.open| == 3
    && (forall j :: 0 <= j < 3 ==> s.open[j].spent == Spent(n, j))
    && Safe(g, s)
    && |s.blocks| == n
    && (forall j :: 0 <= j < n ==> s.blocks[j] == g.start + g.size + j)
  }

  lemma {:induction false} RunSnoc(g: Layout, d0: Image, es: seq<Event>, e: Event)
    requires Exec(g, d0, es).Some? && Safe(g, Exec(g, d0, es).value)
    requires FrugalRun(g, d0, es) && Frugal(Exec(g, d0, es).value, e)
    ensures Exec(g, d0, es + [e]) == Step(g, Exec(g, d0, es).value, e)
    ensures FrugalRun(g, d0, es + [e])
  {
    assert (es + [e])[..|es|] == es;
  }

  ghost predicate Reaches(g: Layout, d0: Image, es: seq<Event>, n: nat) {
    FrugalRun(g, d0, es) && Exec(g, d0, es).Some? && Filled(g, Exec(g, d0, es).value, n, |d0|)
  }

  /** Boot, then three operations at once. */
  lemma {:induction false} WarmUp(g: Layout, d0: Image) returns (es: seq<Event>)
    requires CleanDisk(g, d0)
    ensures Reaches(g, d0, es, 0)
  {
    es := [];
    RunSnoc(g, d0, es, RecoverWrite);
    es := es + [RecoverWrite];
    RunSnoc(g, d0, es, RecoverReturn);
    es := es + [RecoverReturn];
    RunSnoc(g, d0, es, Begin);
    es := es + [Begin];
    RunSnoc(g, d0, es, Begin);
    es := es + [Begin];
    RunSnoc(g, d0, es, Begin);
    es := es + [Begin];
  }

  lemma {:induction false} FillOne(g: Layout, s: State, n: nat, nblocks: nat)
    requires Filled(g, s, n, nblocks) && n < LOGSIZE && n < g.size - 1 && g.start + g.size + n < nblocks
    ensures var e := LogBlock(n / MAXOPBLOCKS, g.start + g.size + n, []);
            Frugal(s, e) && Step(g, s, e).Some? && Filled(g, Step(g, s, e).value, n + 1, nblocks)
  {
  }

  lemma {:induction false} FillNext(g: Layout, d0: Image, es: seq<Event>, n: nat)
    requires Reaches(g, d0, es, n) && n < LOGSIZE && n < g.size - 1 && g.start + g.size + n < |d0|
    ensures Reaches(g, d0, es + [LogBlock(n / MAXOPBLOCKS, g.start + g.size + n, [])], n + 1)
  {
    FillOne(g, Exec(g, d0, es).value, n, |d0|);
    RunSnoc(g, d0, es, LogBlock(n / MAXOPBLOCKS, g.start + g.size + n, []));
  }

  /** Then blocks are logged until n slots are taken. */
  lemma {:induction false} Fill(g: Layout, d0: Image, n: nat) returns (es: seq<Event>)
    requires CleanDisk(g, d0) && g.start + g.size + LOGSIZE <= |d0|
    requires n <= LOGSIZE && n < g.size
    ensures Reaches(g, d0, es, n)
  {
    es := WarmUp(g, d0);
    var i := 0;
    while i < n
      invariant 0 <= i <= n && Reaches(g, d0, es, i)
    {
      FillNext(g, d0, es, i);
      es := es + [LogBlock(i / MAXOPBLOCKS, g.start + g.size + i, [])];
      i := i + 1;
    }
  }

  /** Some run in which every operation keeps its budget makes log_write panic with budget left. */
  ghost predicate PanicReachable(g: Layout, d0: Image) {
    exists es, i: nat :: PanicAfter(g, d0, es, i)
  }

  ghost predicate PanicAfter(g: Layout, d0: Image, es: seq<Event>, i: nat) {
    && FrugalRun(g, d0, es)
    && Exec(g, d0, es).Some?
    && var s := Exec(g, d0, es).value;
       i < |s.open| && s.open[i].spent < MAXOPBLOCKS && !LogWriteOutcome(|s.blocks|, g.size, |s.open|).Ok?
  }

  /** The reservation is sufficient exactly when the region holds a header and LOGSIZE data blocks.
      mkfs makes a region of LOGSIZE blocks, so the panic is reachable on its images. */
  lemma {:induction false} ReservationSuffices(g: Layout, d0: Image)
    requires CleanDisk(g, d0) && g.start + g.size + LOGSIZE <= |d0|
    ensures !PanicReachable(g, d0) <==> g.size > LOGSIZE
  {
    if g.size > LOGSIZE {
      forall es, i: nat ensures !PanicAfter(g, d0, es, i) {
        if PanicAfter(g, d0, es, i) { NoPanic(g, d0, es, i); }
      }
    } else {
      var es := Fill(g, d0, g.size - 1);
      assert PanicAfter(g, d0, es, (g.size - 1) / MAXOPBLOCKS);
    }
  }

  /** The space test precedes absorption: however large the region, operations that have each logged
      MAXOPBLOCKS blocks can bring the log to a state where rewriting a logged block panics. */
  lemma {:induction false} AbsorptionPanics(g: Layout, d0: Image) returns (es: seq<Event>)
    requires CleanDisk(g, d0) && g.start + g.size + LOGSIZE <= |d0| && g.size > LOGSIZE
    ensures FrugalRun(g, d0, es) && Exec(g, d0, es).Some?
    ensures var s := Exec(g, d0, es).value;
            && |s.open| == 3 && WithinBudget(s.open)
            && s.blocks != [] && Record(s.blocks, s.blocks[0]) == s.blocks
            && !LogWriteOutcome(|s.blocks|, g.size, |s.open|).Ok?
  {
    es := Fill(g, d0, LOGSIZE);
  }
}
