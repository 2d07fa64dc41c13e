/** What sleep() and wakeup() promise, in every run of the step system of Scheduling. */
module SleepWakeup {
  import opened Common
  import opened Scheduling

  // ---------------------------------------------------------------- how a process changes

  /** In sleep() and not awake yet. */
  predicate Pending(q: Proc) {
    q.pc.SleepEnter? || q.pc.SleepBoth? || q.pc.SleepAlone? || (q.pc.SleepMarked? && q.state.Sleeping?)
  }

  /** A process only becomes pending by a new call of sleep(), and stays on its channel. */
  predicate Evolves(q: Proc, q': Proc) {
    && q.epoch <= q'.epoch
    && (q.epoch == q'.epoch && Pending(q') ==>
          && Pending(q) && q'.pc.ch == q.pc.ch && q'.pc.lk == q.pc.lk
          && (q.pc.SleepAlone? || q.pc.SleepMarked? ==> q'.pc.SleepAlone? || q'.pc.SleepMarked?))
  }

  /** The process that a step of p looks at or changes beside p. */
  function Other(s: State, p: nat, a: Act): Option<nat>
    requires p < |s.procs|
  {
    match a
    case WakeSet => if s.procs[p].pc.WakingLocked? then Some(s.procs[p].pc.i) else None
    case Kill(q) => Some(q)
    case Fork(q) => Some(q)
    case Reap(q) => Some(q)
    case _ => None
  }

  lemma ThreadFrame(s: State, p: nat, a: Act, x: nat)
    requires Base(s) == true && ThreadEnabled(s, p, a) == true && x < |s.procs| && x != p && Other(s, p, a) != Some(x)
    ensures |ThreadNext(s, p, a).procs| == |s.procs| && ThreadNext(s, p, a).procs[x] == s.procs[x]
  {
  }

  lemma ActorEvolves(s: State, p: nat, a: Act)
    requires Base(s) == true && ThreadEnabled(s, p, a) == true && Other(s, p, a) == None
    ensures |ThreadNext(s, p, a).procs| == |s.procs| && Evolves(s.procs[p], ThreadNext(s, p, a).procs[p])
  {
    if OfWakeup(a) { WakerEvolves(s, p, a); } else { SleeperEvolves(s, p, a); }
  }

  lemma WakerEvolves(s: State, p: nat, a: Act)
    requires Base(s) == true && ThreadEnabled(s, p, a) == true && Other(s, p, a) == None && OfWakeup(a)
    ensures |ThreadNext(s, p, a).procs| == |s.procs| && Evolves(s.procs[p], ThreadNext(s, p, a).procs[p])
  {
  }

  lemma SleeperEvolves(s: State, p: nat, a: Act)
    requires Base(s) == true && ThreadEnabled(s, p, a) == true && !OfWakeup(a)
    ensures |ThreadNext(s, p, a).procs| == |s.procs| && Evolves(s.procs[p], ThreadNext(s, p, a).procs[p])
  {
    KnownProc(s, p);
  }

  lemma OtherEvolves(s: State, p: nat, a: Act, x: nat)
    requires Base(s) == true && ThreadEnabled(s, p, a) == true && Other(s, p, a).Some? && x < |s.procs|
    ensures |ThreadNext(s, p, a).procs| == |s.procs| && Evolves(s.procs[x], ThreadNext(s, p, a).procs[x])
  {
    KnownProc(s, p);
    KnownProc(s, x);
  }

  lemma StepEvolves(s: State, t: Step, x: nat)
    requires Base(s) == true && Enabled(s, t) == true && x < |s.procs|
    ensures |Next(s, t).procs| == |s.procs| && Evolves(s.procs[x], Next(s, t).procs[x])
  {
    match t
    case Thread(p, a) =>
      if Other(s, p, a).Some? {
        OtherEvolves(s, p, a, x);
      } else if x == p {
        ActorEvolves(s, p, a);
      } else {
        ThreadFrame(s, p, a, x);
      }
    case Sched(c, a) => SchedEvolves(s, c, a, x);
    case Intr(c, a) => HandEvolves(s, c, a, x);
  }

  lemma SameProcs(s: State, t: Step)
    requires |s.plock| == |s.procs| && Enabled(s, t) == true
    ensures |Next(s, t).procs| == |s.procs|
  {
    match t
    case Thread(p, a) => ThreadShape(s, p, a);
    case Sched(c, a) => SchedShape(s, c, a);
    case Intr(c, a) => HandShape(s, c, a);
  }

  lemma ThreadShape(s: State, p: nat, a: Act)
    requires |s.plock| == |s.procs| && ThreadEnabled(s, p, a) == true
    ensures |ThreadNext(s, p, a).procs| == |s.procs| && ThreadNext(s, p, a).hand == s.hand
  {
  }

  lemma SchedShape(s: State, c: nat, a: SchedAct)
    requires |s.plock| == |s.procs| && SchedEnabled(s, c, a) == true
    ensures |SchedNext(s, c, a).procs| == |s.procs| && SchedNext(s, c, a).hand == s.hand
  {
  }

  lemma HandShape(s: State, c: nat, a: HandAct)
    requires |s.plock| == |s.procs| && HandEnabled(s, c, a) == true
    ensures |HandNext(s, c, a).procs| == |s.procs|
  {
  }

  lemma SchedEvolves(s: State, c: nat, a: SchedAct, x: nat)
    requires Base(s) == true && SchedEnabled(s, c, a) == true && x < |s.procs|
    ensures |SchedNext(s, c, a).procs| == |s.procs| && Evolves(s.procs[x], SchedNext(s, c, a).procs[x])
  {
  }

  lemma HandEvolves(s: State, c: nat, a: HandAct, x: nat)
    requires Base(s) == true && HandEnabled(s, c, a) == true && x < |s.procs|
    ensures |HandNext(s, c, a).procs| == |s.procs| && Evolves(s.procs[x], HandNext(s, c, a).procs[x])
  {
  }

  // ---------------------------------------------------------------- calls of wakeup()

  /** Who calls wakeup(): a process, or the interrupt handler of a CPU. */
  datatype Waker = Process(p: nat) | Handler(c: nat)

  /** A call of wakeup(ch) that is about to look at process i, or has its lock. */
  datatype Wake = Wake(ch: nat, i: nat, due: map<nat, nat>, locked: bool)

  function ByPc(pc: Pc): Option<Wake> {
    match pc
    case Waking(ch, i, due) => Some(Wake(ch, i, due, false))
    case WakingLocked(ch, i, due) => Some(Wake(ch, i, due, true))
    case _ => None
  }

  function ByHand(h: Hand): Option<Wake> {
    match h
    case HandWaking(ch, i, due) => Some(Wake(ch, i, due, false))
    case HandLocked(ch, i, due) => Some(Wake(ch, i, due, true))
    case _ => None
  }

  function WakeOf(s: State, w: Waker): Option<Wake> {
    match w
    case Process(p) => if p < |s.procs| then ByPc(s.procs[p].pc) else None
    case Handler(c) => if c < |s.hand| then ByHand(s.hand[c]) else None
  }

  /** A waker skips the process it runs in. */
  predicate IsOwn(s: State, w: Waker, i: nat) {
    match w
    case Process(p) => i == p
    case Handler(c) => c < |s.cpus| && s.cpus[c].cur == Some(i)
  }

  /** How a call of wakeup() goes on: it stays where it is, takes a lock, skips its own process, or is past process i
      after it has looked at it. */
  ghost predicate GoesOn(s: State, s': State, w: Waker, k: Wake, k': Wake) {
    && k'.due == k.due && k'.ch == k.ch
    && (k'.i == k.i || (k'.i == k.i + 1 && (IsOwn(s, w, k.i) || (k.locked && Looked(s, s', k)))))
  }

  ghost predicate Looked(s: State, s': State, k: Wake) {
    k.i < |s.procs| == |s'.procs| && s'.procs[k.i] == WakeTarget(s, k.ch, k.i).procs[k.i]
  }

  /** It starts at process 0, with everybody due that is asleep. */
  ghost predicate Starts(s: State, k': Wake) {
    k' == Wake(k'.ch, 0, Due(s, k'.ch), false)
  }

  ghost predicate WakeMoves(s: State, s': State, w: Waker) {
    WakeOf(s', w).Some? ==>
      || Starts(s, WakeOf(s', w).value)
      || (WakeOf(s, w).Some? && GoesOn(s, s', w, WakeOf(s, w).value, WakeOf(s', w).value))
  }

  lemma SamePcMoves(s: State, s': State, w: Waker)
    requires WakeOf(s', w) == WakeOf(s, w)
    ensures WakeMoves(s, s', w)
  {
  }

  lemma ActorMoves(s: State, p: nat, a: Act)
    requires Base(s) == true && ThreadEnabled(s, p, a) == true
    ensures WakeMoves(s, ThreadNext(s, p, a), Process(p))
  {
    if OfWakeup(a) { WakerActs(s, p, a); } else { SleeperActs(s, p, a); }
  }

  lemma SleeperActs(s: State, p: nat, a: Act)
    requires Base(s) == true && ThreadEnabled(s, p, a) == true && !OfWakeup(a)
    ensures WakeMoves(s, ThreadNext(s, p, a), Process(p))
  {
    if WakeOf(ThreadNext(s, p, a), Process(p)).Some? {
      assert WakeOf(ThreadNext(s, p, a), Process(p)) == WakeOf(s, Process(p));
    }
  }

  lemma WakerActs(s: State, p: nat, a: Act)
    requires Base(s) == true && ThreadEnabled(s, p, a) == true && OfWakeup(a)
    ensures WakeMoves(s, ThreadNext(s, p, a), Process(p))
  {
    KnownProc(s, p);
    if a.WakeSet? { SetMoves(s, p); }
  }

  lemma SetMoves(s: State, p: nat)
    requires Base(s) == true && ThreadEnabled(s, p, WakeSet) == true
    ensures WakeMoves(s, ThreadNext(s, p, WakeSet), Process(p))
  {
    KnownProc(s, p);
    var s', k := ThreadNext(s, p, WakeSet), WakeOf(s, Process(p)).value;
    assert Looked(s, s', k);
  }

  lemma OtherMoves(s: State, p: nat, a: Act, x: nat)
    requires Base(s) == true && ThreadEnabled(s, p, a) == true && x != p
    ensures WakeMoves(s, ThreadNext(s, p, a), Process(x))
  {
    var s' := ThreadNext(s, p, a);
    if x < |s.procs| {
      if Other(s, p, a) != Some(x) { ThreadFrame(s, p, a, x); }
      if !a.Fork? { SamePcMoves(s, s', Process(x)); }
    }
  }

  lemma ThreadMoves(s: State, p: nat, a: Act, w: Waker)
    requires Base(s) == true && ThreadEnabled(s, p, a) == true
    ensures WakeMoves(s, ThreadNext(s, p, a), w)
  {
    match w
    case Process(x) => if x == p { ActorMoves(s, p, a); } else { OtherMoves(s, p, a, x); }
    case Handler(_) => SamePcMoves(s, ThreadNext(s, p, a), w);
  }

  lemma SchedMoves(s: State, c: nat, a: SchedAct, w: Waker)
    requires Base(s) == true && SchedEnabled(s, c, a) == true
    ensures WakeMoves(s, SchedNext(s, c, a), w)
  {
    SamePcMoves(s, SchedNext(s, c, a), w);
  }

  lemma HandMoves(s: State, c: nat, a: HandAct, w: Waker)
    requires Base(s) == true && HandEnabled(s, c, a) == true
    ensures WakeMoves(s, HandNext(s, c, a), w)
  {
    if w != Handler(c) { SamePcMoves(s, HandNext(s, c, a), w); }
  }

  lemma StepMoves(s: State, t: Step, w: Waker)
    requires Base(s) == true && Enabled(s, t) == true
    ensures WakeMoves(s, Next(s, t), w)
  {
    match t
    case Thread(p, a) => ThreadMoves(s, p, a, w);
    case Sched(c, a) => SchedMoves(s, c, a, w);
    case Intr(c, a) => HandMoves(s, c, a, w);
  }

  // ---------------------------------------------------------------- no wakeup is lost

  /** Of those due, the ones still pending have not been looked at yet. */
  ghost predicate DueOk(s: State, k: Wake, x: nat) {
    x in k.due ==>
      && x < |s.procs| && k.due[x] <= s.procs[x].epoch
      && (k.due[x] == s.procs[x].epoch && Pending(s.procs[x]) ==> InSleepOn(s.procs[x], k.ch) && k.i <= x)
  }

  ghost predicate DueInv(s: State, w: Waker, x: nat) {
    WakeOf(s, w).Some? ==> DueOk(s, WakeOf(s, w).value, x)
  }

  ghost predicate DoneOk(s: State, x: nat, e: nat) {
    (x, e) in s.done ==>
      x < |s.procs| && e <= s.procs[x].epoch && (e == s.procs[x].epoch ==> !Pending(s.procs[x]))
  }

  ghost predicate WakeInv(s: State) {
    (forall w, x: nat :: DueInv(s, w, x)) && (forall x: nat, e: nat :: DoneOk(s, x, e))
  }

  /** The point of p->lock: when wakeup() holds it, a process that is due is either awake or visibly SLEEPING on the
      channel. */
  lemma LockedIsVisible(s: State, w: Waker)
    requires Base(s) == true && WakeOf(s, w).Some? && WakeOf(s, w).value.locked
    ensures var k := WakeOf(s, w).value;
            && k.i < |s.procs|
            && var q := s.procs[k.i];
               Pending(q) && InSleepOn(q, k.ch) ==> q.pc.SleepMarked? && q.state.Sleeping? && q.chan == Some(k.ch)
  {
    match w
    case Process(p) => KnownProc(s, p); KnownProc(s, s.procs[p].pc.i);
    case Handler(c) => KnownCpu(s, c); KnownProc(s, s.hand[c].i);
  }

  /** The process that a waker skips is not asleep. */
  lemma OwnIsAwake(s: State, w: Waker, i: nat)
    requires Base(s) == true && WakeOf(s, w).Some? && IsOwn(s, w, i) && i < |s.procs|
    ensures !Pending(s.procs[i])
  {
    match w
    case Process(p) =>
    case Handler(c) => KnownCpu(s, c);
  }

  lemma DueKept(s: State, s': State, w: Waker, x: nat)
    requires Base(s) == true && DueInv(s, w, x) && WakeMoves(s, s', w) && |s'.procs| == |s.procs|
    requires x < |s.procs| ==> Evolves(s.procs[x], s'.procs[x])
    ensures DueInv(s', w, x)
  {
    if WakeOf(s', w).Some? && x in WakeOf(s', w).value.due && !Starts(s, WakeOf(s', w).value) {
      var k, k' := WakeOf(s, w).value, WakeOf(s', w).value;
      if k'.i == k.i + 1 && x == k.i && k.due[x] == s.procs[x].epoch { LookedIsAwake(s, s', w, k, k'); }
    }
  }

  lemma LookedIsAwake(s: State, s': State, w: Waker, k: Wake, k': Wake)
    requires Base(s) == true && WakeOf(s, w) == Some(k) && GoesOn(s, s', w, k, k') && k'.i == k.i + 1
    requires k.i < |s.procs| == |s'.procs| && Evolves(s.procs[k.i], s'.procs[k.i])
    requires Pending(s.procs[k.i]) ==> InSleepOn(s.procs[k.i], k.ch)
    ensures s'.procs[k.i].epoch == s.procs[k.i].epoch ==> !Pending(s'.procs[k.i])
  {
    if IsOwn(s, w, k.i) { OwnIsAwake(s, w, k.i); } else { LockedIsVisible(s, w); }
  }

  /** What a step adds to done comes from a call of wakeup() that is past the last process. */
  lemma DoneBy(s: State, t: Step, x: nat, e: nat) returns (w: Waker)
    requires Base(s) == true && Enabled(s, t) == true && (x, e) in Next(s, t).done && (x, e) !in s.done
    ensures WakeOf(s, w).Some? && x in WakeOf(s, w).value.due && WakeOf(s, w).value.due[x] == e
    ensures WakeOf(s, w).value.i == |s.procs|
  {
    match t
    case Thread(p, a) =>
      ThreadDone(s, p, a);
      w := Process(p);
    case Sched(c, a) => w := Handler(c);
    case Intr(c, a) => w := Handler(c);
  }

  lemma ThreadDone(s: State, p: nat, a: Act)
    requires |s.plock| == |s.procs| && ThreadEnabled(s, p, a) == true
    ensures ThreadNext(s, p, a).done == s.done
        || (a.WakeReturn? && ThreadNext(s, p, a).done == s.done + Woke(s.procs[p].pc.due))
  {
  }

  lemma DoneKept(s: State, t: Step, x: nat, e: nat)
    requires Base(s) == true && WakeInv(s) && Enabled(s, t) == true
    ensures DoneOk(Next(s, t), x, e)
  {
    if (x, e) in Next(s, t).done {
      if (x, e) in s.done {
        assert DoneOk(s, x, e);
      } else {
        var w := DoneBy(s, t, x, e);
        assert DueInv(s, w, x);
      }
      StepEvolves(s, t, x);
    }
  }

  lemma StepKeepsWakeInv(s: State, t: Step)
    requires Base(s) == true && WakeInv(s) && Enabled(s, t) == true
    ensures WakeInv(Next(s, t))
  {
    var s' := Next(s, t);
    forall w, x: nat ensures DueInv(s', w, x) {
      assert DueInv(s, w, x);
      StepMoves(s, t, w);
      SameProcs(s, t);
      if x < |s.procs| { StepEvolves(s, t, x); }
      DueKept(s, s', w, x);
    }
    forall x: nat, e: nat ensures DoneOk(s', x, e) { DoneKept(s, t, x, e); }
  }

  // ---------------------------------------------------------------- sleep locks do not stall

  /** Waiting in acquiresleep() for sleep lock k. */
  predicate WaitsFor(q: Proc, k: nat) {
    Pending(q) && q.pc.ch == k && q.pc.lk == k
  }

  /** Process w on CPU c holds spin lock k in wakeup(k). */
  ghost predicate Holder(s: State, c: nat, w: nat, k: nat) {
    && Free(s, c) && s.cpus[c].pc == InProc(w) && k in SpinsOf(s, c) && w < |s.procs| && s.procs[w].mode.On?
    && ByPc(s.procs[w].pc).Some? && ByPc(s.procs[w].pc).value.ch == k
  }

  /** The process that has just dropped sleep lock k still holds its spin lock and will wake x. */
  ghost predicate CoveredBy(s: State, x: nat, k: nat, c: nat, w: nat) {
    && Holder(s, c, w, k) && x < |s.procs|
    && var pc := s.procs[w].pc;
       pc.i <= x && x in pc.due && pc.due[x] == s.procs[x].epoch
  }

  ghost predicate Covered(s: State, x: nat, k: nat) {
    exists c: nat, w: nat :: CoveredBy(s, x, k, c, w)
  }

  ghost predicate NoStall(s: State, x: nat, k: nat) {
    x < |s.procs| && WaitsFor(s.procs[x], k) && k !in s.held ==> Covered(s, x, k)
  }

  ghost predicate StallInv(s: State) {
    forall x: nat, k: nat :: NoStall(s, x, k)
  }

  lemma CoveredByDrop(s: State, p: nat, k: nat, x: nat)
    requires Base(s) == true && ThreadEnabled(s, p, DropSleepLock(k)) == true && x < |s.procs|
    requires WaitsFor(s.procs[x], k)
    ensures Covered(ThreadNext(s, p, DropSleepLock(k)), x, k)
  {
    var s', c := ThreadNext(s, p, DropSleepLock(k)), Here(s, p);
    KnownProc(s, p);
    KnownProc(s, x);
    assert x in Due(s, k);
    assert SpinsOf(s', c) == SpinsOf(s, c);
    assert CoveredBy(s', x, k, c, p);
  }

  /** A running process is changed by its own steps only. */
  lemma RunningFrame(s: State, t: Step, w: nat)
    requires Base(s) == true && Enabled(s, t) == true && w < |s.procs| && s.procs[w].state.Running?
    requires s.procs[w].mode.On?
    requires !(t.Thread? && t.p == w)
    ensures |Next(s, t).procs| == |s.procs| && Next(s, t).procs[w] == s.procs[w]
  {
    KnownProc(s, w);
    match t
    case Thread(p, a) => if Other(s, p, a) != Some(w) { ThreadFrame(s, p, a, w); }
    case Sched(c, a) =>
    case Intr(c, a) =>
  }

  /** The spin locks and the place of CPU c, on which process w runs, are not changed by others. */
  lemma ThreadKeepsCpu(s: State, p: nat, a: Act, c: nat, w: nat, k: nat)
    requires Base(s) == true && ThreadEnabled(s, p, a) == true && Holder(s, c, w, k) && p != w
    ensures var s' := ThreadNext(s, p, a);
            Free(s', c) && s'.cpus[c] == s.cpus[c] && k in SpinsOf(s', c)
  {
    KnownProc(s, p);
    KnownCpu(s, c);
    ThreadShape(s, p, a);
    CpuKept(s, p, a, c);
    SpinKept(s, p, a, c, k);
  }

  lemma CpuKept(s: State, p: nat, a: Act, c: nat)
    requires |s.plock| == |s.procs| && ThreadEnabled(s, p, a) == true && Here(s, p) != c < |s.cpus|
    ensures |ThreadNext(s, p, a).cpus| == |s.cpus| && ThreadNext(s, p, a).cpus[c] == s.cpus[c]
  {
  }

  lemma SpinKept(s: State, p: nat, a: Act, c: nat, k: nat)
    requires Base(s) == true && ThreadEnabled(s, p, a) == true && Here(s, p) != c && k in SpinsOf(s, c)
    ensures k in SpinsOf(ThreadNext(s, p, a), c)
  {
    KnownProc(s, p);
  }

  lemma SchedKeepsCpu(s: State, c': nat, a: SchedAct, c: nat, w: nat, k: nat)
    requires Base(s) == true && SchedEnabled(s, c', a) == true && Holder(s, c, w, k)
    ensures var s' := SchedNext(s, c', a);
            Free(s', c) && s'.cpus[c] == s.cpus[c] && k in SpinsOf(s', c)
  {
  }

  lemma HandKeepsOther(s: State, c': nat, a: HandAct, c: nat, w: nat, k: nat)
    requires Base(s) == true && HandEnabled(s, c', a) == true && Holder(s, c, w, k)
    ensures var s' := HandNext(s, c', a);
            Free(s', c) && s'.cpus[c] == s.cpus[c] && k in SpinsOf(s', c)
  {
    KnownCpu(s, c);
  }

  lemma HolderKept(s: State, t: Step, c: nat, w: nat, k: nat)
    requires Base(s) == true && Enabled(s, t) == true && Holder(s, c, w, k) && !(t.Thread? && t.p == w)
    ensures Holder(Next(s, t), c, w, k) && |Next(s, t).procs| == |s.procs| && Next(s, t).procs[w] == s.procs[w]
  {
    KnownCpu(s, c);
    KnownProc(s, w);
    RunningFrame(s, t, w);
    match t
    case Thread(p, a) => ThreadKeepsCpu(s, p, a, c, w, k);
    case Sched(c', a) => SchedKeepsCpu(s, c', a, c, w, k);
    case Intr(c', a) => HandKeepsOther(s, c', a, c, w, k);
  }

  /** A process that holds a spin lock in wakeup() goes on there. */
  lemma HolderWakes(s: State, c: nat, w: nat, k: nat, a: Act)
    requires Base(s) == true && Holder(s, c, w, k) && ThreadEnabled(s, w, a) == true && s.procs[w].pc.i < |s.procs|
    ensures (a.WakeAcquire? || a.WakeSet?) && Here(s, w) == c
  {
    KnownCpu(s, c);
    KnownProc(s, w);
  }

  lemma CoveredByAcquire(s: State, w: nat, x: nat, k: nat, c: nat)
    requires Base(s) == true && ThreadEnabled(s, w, WakeAcquire) == true && CoveredBy(s, x, k, c, w)
    requires WaitsFor(s.procs[x], k)
    ensures CoveredBy(ThreadNext(s, w, WakeAcquire), x, k, c, w)
  {
    KnownCpu(s, c);
    assert SpinsOf(ThreadNext(s, w, WakeAcquire), c) == SpinsOf(s, c);
  }

  lemma CoveredBySet(s: State, w: nat, x: nat, k: nat, c: nat)
    requires Base(s) == true && DueInv(s, Process(w), x) && ThreadEnabled(s, w, WakeSet) == true
    requires CoveredBy(s, x, k, c, w)
    requires |ThreadNext(s, w, WakeSet).procs| == |s.procs| && WaitsFor(ThreadNext(s, w, WakeSet).procs[x], k)
    requires WaitsFor(s.procs[x], k)
    ensures CoveredBy(ThreadNext(s, w, WakeSet), x, k, c, w)
  {
    KnownCpu(s, c);
    KnownProc(s, w);
    LockedIsVisible(s, Process(w));
    assert SpinsOf(ThreadNext(s, w, WakeSet), c) == SpinsOf(s, c);
  }

  /** x stays covered while it waits. */
  lemma CoveredKept(s: State, t: Step, x: nat, k: nat, c: nat, w: nat)
    requires Base(s) == true && DueInv(s, Process(w), x) && Enabled(s, t) == true && CoveredBy(s, x, k, c, w)
    requires WaitsFor(s.procs[x], k)
    requires x < |s.procs| == |Next(s, t).procs| && WaitsFor(Next(s, t).procs[x], k)
    requires Next(s, t).procs[x].epoch == s.procs[x].epoch
    ensures CoveredBy(Next(s, t), x, k, c, w)
  {
    if t.Thread? && t.p == w {
      HolderWakes(s, c, w, k, t.a);
      if t.a.WakeAcquire? { CoveredByAcquire(s, w, x, k, c); } else { CoveredBySet(s, w, x, k, c); }
    } else {
      HolderKept(s, t, c, w, k);
    }
  }

  /** Sleep lock k is dropped by its owner only. */
  lemma DroppedBy(s: State, t: Step, k: nat)
    requires |s.plock| == |s.procs| && Enabled(s, t) == true && k in s.held && k !in Next(s, t).held
    ensures t.Thread? && t.a == DropSleepLock(k)
  {
    match t
    case Thread(p, a) => ThreadHeld(s, p, a, k);
    case Sched(c, a) =>
    case Intr(c, a) =>
  }

  lemma ThreadHeld(s: State, p: nat, a: Act, k: nat)
    requires |s.plock| == |s.procs| && ThreadEnabled(s, p, a) == true && k in s.held
    ensures k in ThreadNext(s, p, a).held || a == DropSleepLock(k)
  {
  }

  /** A process calls sleep() only by its own step, and acquiresleep() only while the sleep lock is taken. */
  lemma EpochBy(s: State, t: Step, x: nat)
    requires |s.plock| == |s.procs| && Enabled(s, t) == true && x < |s.procs| == |Next(s, t).procs|
    requires Next(s, t).procs[x].epoch != s.procs[x].epoch
    ensures t.Thread? && t.p == x && t.a.CallSleep?
  {
    match t
    case Thread(p, a) => ThreadEpoch(s, p, a, x);
    case Sched(c, a) =>
    case Intr(c, a) =>
  }

  lemma ThreadEpoch(s: State, p: nat, a: Act, x: nat)
    requires |s.plock| == |s.procs| && ThreadEnabled(s, p, a) == true && x < |s.procs| == |ThreadNext(s, p, a).procs|
    ensures ThreadNext(s, p, a).procs[x].epoch == s.procs[x].epoch || (p == x && a.CallSleep?)
  {
  }

  lemma NoStallKept(s: State, t: Step, x: nat, k: nat)
    requires Base(s) == true && WakeInv(s) && Enabled(s, t) == true && NoStall(s, x, k)
    ensures NoStall(Next(s, t), x, k)
  {
    var s' := Next(s, t);
    SameProcs(s, t);
    if x < |s.procs| && WaitsFor(s'.procs[x], k) && k !in s'.held {
      StepEvolves(s, t, x);
      if s'.procs[x].epoch != s.procs[x].epoch { EpochBy(s, t, x); }
      if k in s.held {
        DroppedBy(s, t, k);
        CoveredByDrop(s, t.p, k, x);
      } else {
        var c: nat, w: nat :| CoveredBy(s, x, k, c, w);
        assert DueInv(s, Process(w), x);
        CoveredKept(s, t, x, k, c, w);
      }
    }
  }

  // ---------------------------------------------------------------- every run

  ghost predicate Inv(s: State) {
    Base(s) && WakeInv(s) && StallInv(s)
  }

  /** Nothing runs yet: every CPU is in its scheduler, processes are UNUSED or RUNNABLE. */
  ghost predicate Init(s: State) {
    && |s.plock| == |s.procs| && |s.hand| == |s.cpus|
    && (forall c :: 0 <= c < |s.cpus| ==> s.cpus[c] == Cpu(None, Idle) && s.hand[c] == NoHand)
    && (forall p :: 0 <= p < |s.procs| ==>
          s.plock[p].None? && s.procs[p].cpu.None? && s.procs[p].mode.Off? && s.procs[p].pc.Exec?
          && (s.procs[p].state.Unused? || s.procs[p].state.Runnable?))
    && s.intr == {} && s.spin == map[] && s.held == map[] && s.done == {}
  }

  lemma InitInv(s: State)
    requires Init(s)
    ensures Inv(s)
  {
    forall w, x: nat ensures DueInv(s, w, x) { assert WakeOf(s, w) == None; }
    forall c | 0 <= c < |s.cpus| ensures CpuInv(s, c) { assert SpinsOf(s, c) == {}; }
  }

  lemma StepKeepsInv(s: State, t: Step)
    requires Inv(s) && Enabled(s, t) == true
    ensures Inv(Next(s, t)) == true
  {
    StepKeepsBase(s, t);
    StepKeepsWakeInv(s, t);
    forall x: nat, k: nat ensures NoStall(Next(s, t), x, k) {
      assert NoStall(s, x, k);
      NoStallKept(s, t, x, k);
    }
  }

  /** s is reached from an initial state by the steps ts. */
  ghost predicate Reaches(s0: State, ts: seq<Step>, s: State)
    decreases |ts|
  {
    if ts == [] then s == s0
    else |s0.plock| == |s0.procs| && Enabled(s0, ts[0]) == true && Reaches(Next(s0, ts[0]), ts[1..], s)
  }

  lemma {:induction false} RunInv(s0: State, ts: seq<Step>, s: State)
    requires Inv(s0) == true && Reaches(s0, ts, s)
    ensures Inv(s) == true
    decreases |ts|
  {
    if ts != [] {
      StepKeepsInv(s0, ts[0]);
      RunInv(Next(s0, ts[0]), ts[1..], s);
    }
  }

  /** The step by which a call of wakeup() returns. */
  function ReturnOf(w: Waker): Step {
    match w
    case Process(p) => Thread(p, WakeReturn)
    case Handler(c) => Intr(c, HandWakeReturn)
  }

  /** Until wakeup() returns, its caller stays in that same call. */
  lemma ProcessStays(s: State, t: Step, p: nat)
    requires Base(s) == true && Enabled(s, t) == true && t != Thread(p, WakeReturn) && WakeOf(s, Process(p)).Some?
    ensures WakeOf(Next(s, t), Process(p)).Some?
    ensures WakeOf(Next(s, t), Process(p)).value.due == WakeOf(s, Process(p)).value.due
  {
    KnownProc(s, p);
    match t
    case Thread(q, a) =>
      if q == p {
        ActorStays(s, p, a);
      } else if Other(s, q, a) != Some(p) {
        ThreadFrame(s, q, a, p);
      } else {
        OtherStays(s, q, a, p);
      }
    case Sched(c, a) => SchedStays(s, c, a, p);
    case Intr(c, a) => HandStays(s, c, a, p);
  }

  lemma SchedStays(s: State, c: nat, a: SchedAct, p: nat)
    requires |s.plock| == |s.procs| && SchedEnabled(s, c, a) == true
    ensures WakeOf(SchedNext(s, c, a), Process(p)) == WakeOf(s, Process(p))
  {
  }

  lemma HandStays(s: State, c: nat, a: HandAct, p: nat)
    requires |s.plock| == |s.procs| && HandEnabled(s, c, a) == true
    ensures WakeOf(HandNext(s, c, a), Process(p)) == WakeOf(s, Process(p))
  {
  }

  lemma ActorStays(s: State, p: nat, a: Act)
    requires Base(s) == true && ThreadEnabled(s, p, a) == true && a != WakeReturn && WakeOf(s, Process(p)).Some?
    ensures WakeOf(ThreadNext(s, p, a), Process(p)).Some?
    ensures WakeOf(ThreadNext(s, p, a), Process(p)).value.due == WakeOf(s, Process(p)).value.due
  {
    KnownProc(s, p);
  }

  lemma OtherStays(s: State, q: nat, a: Act, p: nat)
    requires Base(s) == true && ThreadEnabled(s, q, a) == true && p != q && Other(s, q, a) == Some(p)
    requires WakeOf(s, Process(p)).Some?
    ensures WakeOf(ThreadNext(s, q, a), Process(p)) == WakeOf(s, Process(p))
  {
    KnownProc(s, p);
  }

  lemma HandlerStays(s: State, t: Step, c: nat)
    requires Base(s) == true && Enabled(s, t) == true && t != Intr(c, HandWakeReturn) && WakeOf(s, Handler(c)).Some?
    ensures WakeOf(Next(s, t), Handler(c)).Some?
    ensures WakeOf(Next(s, t), Handler(c)).value.due == WakeOf(s, Handler(c)).value.due
  {
    match t
    case Thread(p, a) => ThreadShape(s, p, a);
    case Sched(d, a) => SchedShape(s, d, a);
    case Intr(d, a) => HandActorStays(s, d, a, c);
  }

  lemma HandActorStays(s: State, d: nat, a: HandAct, c: nat)
    requires Base(s) == true && HandEnabled(s, d, a) == true && !(d == c && a.HandWakeReturn?)
    requires WakeOf(s, Handler(c)).Some?
    ensures WakeOf(HandNext(s, d, a), Handler(c)).Some?
    ensures WakeOf(HandNext(s, d, a), Handler(c)).value.due == WakeOf(s, Handler(c)).value.due
  {
  }

  lemma {:induction false} SameWakeup(s: State, ts: seq<Step>, s': State, w: Waker)
    requires Inv(s) && Reaches(s, ts, s') && ReturnOf(w) !in ts && WakeOf(s, w).Some?
    ensures WakeOf(s', w).Some? && WakeOf(s', w).value.due == WakeOf(s, w).value.due
    decreases |ts|
  {
    if ts != [] {
      assert ts[0] in ts;
      match w {
        case Process(p) => ProcessStays(s, ts[0], p);
        case Handler(c) => HandlerStays(s, ts[0], c);
      }
      StepKeepsInv(s, ts[0]);
      SameWakeup(Next(s, ts[0]), ts[1..], s', w);
    }
  }

  lemma StepDoneGrows(s: State, t: Step)
    requires |s.plock| == |s.procs| && Enabled(s, t) == true
    ensures s.done <= Next(s, t).done
  {
    if t.Thread? { ThreadDone(s, t.p, t.a); }
  }

  lemma {:induction false} DoneGrows(s: State, ts: seq<Step>, s': State)
    requires Reaches(s, ts, s')
    ensures s.done <= s'.done
    decreases |ts|
  {
    if ts != [] {
      StepDoneGrows(s, ts[0]);
      DoneGrows(Next(s, ts[0]), ts[1..], s');
    }
  }

  /** The step by which w calls wakeup(ch). */
  function CallOf(w: Waker, ch: nat): Step {
    match w
    case Process(p) => Thread(p, CallWakeup(ch))
    case Handler(c) => Intr(c, HandWakeup(ch))
  }

  /** w has spin lock lk. */
  predicate HasSpin(s: State, w: Waker, lk: nat) {
    match w
    case Process(p) => p < |s.procs| && s.procs[p].cpu.Some? && lk in SpinsOf(s, Here(s, p))
    case Handler(c) => lk in SpinsOf(s, c)
  }

  /** Whoever holds lk when it calls wakeup(ch) finds everybody that is in sleep(ch, lk) due. */
  lemma SleeperIsDue(s: State, w: Waker, ch: nat, lk: nat, x: nat)
    requires Base(s) == true && Enabled(s, CallOf(w, ch)) == true && HasSpin(s, w, lk)
    requires x < |s.procs| && Pending(s.procs[x]) && s.procs[x].pc.ch == ch && s.procs[x].pc.lk == lk
    ensures x in Due(s, ch) && Due(s, ch)[x] == s.procs[x].epoch
    ensures WakeOf(Next(s, CallOf(w, ch)), w) == Some(Wake(ch, 0, Due(s, ch), false))
  {
    KnownProc(s, x);
    match w
    case Process(p) => KnownProc(s, p);
    case Handler(c) => KnownCpu(s, c);
  }

  lemma ReturnRecords(s: State, w: Waker, x: nat)
    requires |s.plock| == |s.procs| && Enabled(s, ReturnOf(w)) == true && WakeOf(s, w).Some?
    requires x in WakeOf(s, w).value.due
    ensures (x, WakeOf(s, w).value.due[x]) in Next(s, ReturnOf(w)).done
  {
  }

  lemma WakeupIsRecorded(s: State, ts: seq<Step>, s': State, w: Waker, x: nat)
    requires Inv(s) && Reaches(s, ts, s') && ReturnOf(w) !in ts && WakeOf(s, w).Some? && x in WakeOf(s, w).value.due
    requires |s'.plock| == |s'.procs| && Enabled(s', ReturnOf(w)) == true
    ensures Inv(Next(s', ReturnOf(w))) == true && (x, WakeOf(s, w).value.due[x]) in Next(s', ReturnOf(w)).done
  {
    RunInv(s, ts, s');
    SameWakeup(s, ts, s', w);
    ReturnRecords(s', w, x);
    StepKeepsInv(s', ReturnOf(w));
  }

  lemma NotPendingAgain(s: State, x: nat, e: nat)
    requires Inv(s) && (x, e) in s.done
    ensures x < |s.procs| && (s.procs[x].epoch > e || !Pending(s.procs[x]))
  {
    assert DoneOk(s, x, e);
  }

  /** No lost wakeup.  Process x has called sleep(ch, lk) and is not awake when a process or an interrupt handler that
      holds lk calls wakeup(ch).  From the moment that wakeup() has returned, in every continuation, x is never again
      pending in that call of sleep(). */
  lemma NoLostWakeup(s0: State, ts1: seq<Step>, s1: State, w: Waker, ch: nat, lk: nat, x: nat,
                     ts2: seq<Step>, s2: State, ts3: seq<Step>, s3: State)
    requires Init(s0) && Reaches(s0, ts1, s1) && |s1.plock| == |s1.procs|
    requires Enabled(s1, CallOf(w, ch)) == true && HasSpin(s1, w, lk)
    requires x < |s1.procs| && Pending(s1.procs[x]) && s1.procs[x].pc.ch == ch && s1.procs[x].pc.lk == lk
    requires Reaches(Next(s1, CallOf(w, ch)), ts2, s2) && ReturnOf(w) !in ts2
    requires |s2.plock| == |s2.procs| && Enabled(s2, ReturnOf(w)) == true
    requires Reaches(Next(s2, ReturnOf(w)), ts3, s3)
    ensures x < |s3.procs|
    ensures s3.procs[x].epoch > s1.procs[x].epoch || !Pending(s3.procs[x])
  {
    InitInv(s0);
    RunInv(s0, ts1, s1);
    SleeperIsDue(s1, w, ch, lk, x);
    StepKeepsInv(s1, CallOf(w, ch));
    WakeupIsRecorded(Next(s1, CallOf(w, ch)), ts2, s2, w, x);
    DoneGrows(Next(s2, ReturnOf(w)), ts3, s3);
    RunInv(Next(s2, ReturnOf(w)), ts3, s3);
    NotPendingAgain(s3, x, s1.procs[x].epoch);
  }

  /** A process is RUNNING only while exactly one CPU has it as its proc. */
  lemma OneCpuEach(s0: State, ts: seq<Step>, s: State, p: nat)
    requires Init(s0) && Reaches(s0, ts, s) && p < |s.procs| && s.procs[p].state.Running?
    ensures exists c :: 0 <= c < |s.cpus| && s.cpus[c].cur == Some(p)
                        && forall d :: 0 <= d < |s.cpus| && s.cpus[d].cur == Some(p) ==> d == c
  {
    InitInv(s0);
    RunInv(s0, ts, s);
    KnownProc(s, p);
    var c := Here(s, p);
    assert s.cpus[c].cur == Some(p);
    forall d | 0 <= d < |s.cpus| && s.cpus[d].cur == Some(p) ensures d == c { KnownCpu(s, d); }
  }

  /** The locks of a CPU that is about to switch: p->lock, and what p held too much when it called sleep() or exit(). */
  lemma LocksAtSched(s: State, p: nat)
    requires Base(s) == true && AtSched(s, p)
    ensures PlocksOf(s, Here(s, p)) == {p} && Here(s, p) !in s.intr
    ensures SpinsOf(s, Here(s, p)) == {} <==> s.procs[p].mode.Yielding? || !s.procs[p].extra
  {
    var c := Here(s, p);
    KnownProc(s, p);
    NoIntrHere(s, c, p);
    forall q: nat ensures q in PlocksOf(s, c) <==> q == p { if q < |s.procs| { KnownProc(s, q); } }
  }

  /** The four checks of sched(): p->lock is held, p is not RUNNING and interrupts are off; and noff is 1 if and only if
      p held no spin lock but the one that sleep() releases, when it called sleep() or exit(). */
  lemma SchedChecks(s0: State, ts: seq<Step>, s: State, p: nat)
    requires Init(s0) && Reaches(s0, ts, s) && AtSched(s, p)
    ensures var c := Here(s, p);
            && p < |s.plock| && s.plock[p] == Some(c)
            && !s.procs[p].state.Running?
            && c !in s.intr
            && (Noff(s, c) == 1 <==> s.procs[p].mode.Yielding? || !s.procs[p].extra)
  {
    InitInv(s0);
    RunInv(s0, ts, s);
    KnownProc(s, p);
    LocksAtSched(s, p);
    if SpinsOf(s, Here(s, p)) != {} { assert |SpinsOf(s, Here(s, p))| > 0; }
  }

  /** extra is what it says: it is set when the process calls sleep() or exit(). */
  lemma ExtraIs(s: State, p: nat, ch: nat, k: nat)
    requires |s.plock| == |s.procs|
    ensures ThreadEnabled(s, p, CallSleep(ch, k)) ==>
              (ThreadNext(s, p, CallSleep(ch, k)).procs[p].extra <==> SpinsOf(s, Here(s, p)) != {k})
    ensures ThreadEnabled(s, p, Exit) ==>
              (ThreadNext(s, p, Exit).procs[p].extra <==> SpinsOf(s, Here(s, p)) != {})
  {
  }

  /** Sleep locks do not stall: when neither sleep lock k nor the spin lock inside it is taken, no process is asleep
      waiting for it. */
  lemma SleepLockDoesNotStall(s0: State, ts: seq<Step>, s: State, k: nat, x: nat)
    requires Init(s0) && Reaches(s0, ts, s) && k !in s.held && k !in s.spin && x < |s.procs|
    ensures !WaitsFor(s.procs[x], k)
  {
    InitInv(s0);
    RunInv(s0, ts, s);
    assert NoStall(s, x, k);
  }
}
