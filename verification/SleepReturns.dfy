/** sleep() from its call to its return: a process is in it until it has its lock again, and, when nothing is in the
    way, sleep(), wakeup() and the scheduler take a process all the way down and up again. */
module SleepReturns {
  import opened Common
  import opened Scheduling
  import opened SleepWakeup

  // ---------------------------------------------------------------- until the lock is held again

  /** In a call of sleep(_, lk). */
  predicate InCall(q: Proc, lk: nat) {
    match q.pc
    case SleepEnter(_, k) => k == lk
    case SleepBoth(_, k) => k == lk
    case SleepAlone(_, k) => k == lk
    case SleepMarked(_, k) => k == lk
    case Reacquire(k) => k == lk
    case _ => false
  }

  /** In s, process p is at Exec and holds lk. */
  predicate Returned(s: State, p: nat, lk: nat) {
    p < |s.procs| && s.procs[p].pc.Exec? && s.procs[p].cpu.Some? && lk in SpinsOf(s, Here(s, p))
  }

  lemma OwnStep(s: State, p: nat, a: Act, lk: nat)
    requires Base(s) == true && ThreadEnabled(s, p, a) == true && p < |s.procs| && InCall(s.procs[p], lk)
    ensures |ThreadNext(s, p, a).procs| == |s.procs| && ThreadNext(s, p, a).procs[p].epoch == s.procs[p].epoch
    ensures if a.SleepReacquire? then Returned(ThreadNext(s, p, a), p, lk) else InCall(ThreadNext(s, p, a).procs[p], lk)
  {
    KnownProc(s, p);
    if OfWakeup(a) { OwnWaker(s, p, a, lk); }
  }

  lemma OwnWaker(s: State, p: nat, a: Act, lk: nat)
    requires Base(s) == true && ThreadEnabled(s, p, a) == true && p < |s.procs| && OfWakeup(a)
    ensures !InCall(s.procs[p], lk)
  {
  }

  lemma OtherStep(s: State, q: nat, a: Act, p: nat, lk: nat)
    requires Base(s) == true && ThreadEnabled(s, q, a) == true && p < |s.procs| && p != q && InCall(s.procs[p], lk)
    ensures |ThreadNext(s, q, a).procs| == |s.procs| && ThreadNext(s, q, a).procs[p].epoch == s.procs[p].epoch
    ensures InCall(ThreadNext(s, q, a).procs[p], lk)
  {
    KnownProc(s, p);
    if Other(s, q, a) != Some(p) { ThreadFrame(s, q, a, p); }
  }

  lemma SchedLeaves(s: State, c: nat, a: SchedAct, p: nat)
    requires |s.plock| == |s.procs| && SchedEnabled(s, c, a) == true && p < |s.procs|
    ensures |SchedNext(s, c, a).procs| == |s.procs|
    ensures SchedNext(s, c, a).procs[p].pc == s.procs[p].pc && SchedNext(s, c, a).procs[p].epoch == s.procs[p].epoch
  {
  }

  lemma HandLeaves(s: State, c: nat, a: HandAct, p: nat)
    requires |s.plock| == |s.procs| && HandEnabled(s, c, a) == true && p < |s.procs|
    ensures |HandNext(s, c, a).procs| == |s.procs|
    ensures HandNext(s, c, a).procs[p].pc == s.procs[p].pc && HandNext(s, c, a).procs[p].epoch == s.procs[p].epoch
  {
  }

  /** A step leaves process p in its call of sleep(), or is the acquire() of lk by which that call returns. */
  lemma CallGoesOn(s: State, t: Step, p: nat, lk: nat)
    requires Base(s) == true && Enabled(s, t) == true && p < |s.procs| && InCall(s.procs[p], lk)
    ensures |Next(s, t).procs| == |s.procs| && Next(s, t).procs[p].epoch == s.procs[p].epoch
    ensures if t == Thread(p, SleepReacquire) then Returned(Next(s, t), p, lk) else InCall(Next(s, t).procs[p], lk)
  {
    match t
    case Thread(q, a) => if q == p { OwnStep(s, p, a, lk); } else { OtherStep(s, q, a, p, lk); }
    case Sched(c, a) => SchedLeaves(s, c, a, p);
    case Intr(c, a) => HandLeaves(s, c, a, p);
  }

  lemma {:induction false} StaysInCall(s: State, ts: seq<Step>, s': State, p: nat, lk: nat)
    requires Inv(s) == true && Reaches(s, ts, s') && Thread(p, SleepReacquire) !in ts
    requires p < |s.procs| && InCall(s.procs[p], lk)
    ensures p < |s'.procs| && InCall(s'.procs[p], lk) && s'.procs[p].epoch == s.procs[p].epoch
    decreases |ts|
  {
    if ts != [] {
      assert ts[0] in ts;
      CallGoesOn(s, ts[0], p, lk);
      StepKeepsInv(s, ts[0]);
      StaysInCall(Next(s, ts[0]), ts[1..], s', p, lk);
    }
  }

  /** sleep() returns with its lock.  After process p has called sleep(ch, lk), it is inside that call in every
      continuation until it acquires lk, whatever else happens; and when a step takes it out of the call, that step is
      the acquire and p holds lk. */
  lemma SleepReturnsLocked(s0: State, ts1: seq<Step>, s1: State, p: nat, ch: nat, lk: nat, ts2: seq<Step>, s2: State,
                           t: Step)
    requires Init(s0) && Reaches(s0, ts1, s1) && |s1.plock| == |s1.procs|
    requires Enabled(s1, Thread(p, CallSleep(ch, lk))) == true
    requires Reaches(Next(s1, Thread(p, CallSleep(ch, lk))), ts2, s2) && Thread(p, SleepReacquire) !in ts2
    requires |s2.plock| == |s2.procs| && Enabled(s2, t) == true
    ensures p < |s2.procs| && InCall(s2.procs[p], lk) && s2.procs[p].epoch == s1.procs[p].epoch + 1
    ensures p < |Next(s2, t).procs|
    ensures if t == Thread(p, SleepReacquire) then Returned(Next(s2, t), p, lk) else InCall(Next(s2, t).procs[p], lk)
  {
    InitInv(s0);
    RunInv(s0, ts1, s1);
    var call := Thread(p, CallSleep(ch, lk));
    StepKeepsInv(s1, call);
    StaysInCall(Next(s1, call), ts2, s2, p, lk);
    RunInv(Next(s1, call), ts2, s2);
    CallGoesOn(s2, t, p, lk);
  }

  // ---------------------------------------------------------------- down and up again

  lemma {:induction false} ReachesOneMore(s0: State, ts: seq<Step>, s: State, t: Step)
    requires Reaches(s0, ts, s) && |s.plock| == |s.procs| && Enabled(s, t) == true
    ensures Reaches(s0, ts + [t], Next(s, t))
    decreases |ts|
  {
    if ts == [] {
      assert (ts + [t])[1..] == [];
    } else {
      ReachesOneMore(Next(s0, ts[0]), ts[1..], s, t);
      assert (ts + [t])[1..] == ts[1..] + [t];
    }
  }

  /** Process p as q, its lock with l, CPU c as k with spin locks spin: everything else as in s, interrupts off. */
  function Put(s: State, p: nat, q: Proc, l: Option<nat>, c: nat, k: Cpu, spin: map<nat, nat>): State
    requires p < |s.procs| == |s.plock| && c < |s.cpus|
  {
    s.(procs := s.procs[p := q], plock := s.plock[p := l], cpus := s.cpus[c := k], spin := spin, intr := s.intr - {c})
  }

  lemma PutPut(s: State, p: nat, q: Proc, l: Option<nat>, c: nat, k: Cpu, spin: map<nat, nat>, q': Proc,
               l': Option<nat>, k': Cpu, spin': map<nat, nat>)
    requires p < |s.procs| == |s.plock| && c < |s.cpus|
    ensures Put(Put(s, p, q, l, c, k, spin), p, q', l', c, k', spin') == Put(s, p, q', l', c, k', spin')
  {
  }

  lemma SleepCall(s: State, p: nat, c: nat, ch: nat, lk: nat)
    requires Base(s) == true && ThreadEnabled(s, p, CallSleep(ch, lk)) == true
    requires c == Here(s, p) && SpinsOf(s, c) == {lk}
    ensures c < |s.cpus| && s.cpus[c] == Cpu(Some(p), InProc(p)) && c !in s.intr
    ensures ThreadNext(s, p, CallSleep(ch, lk)) ==
              Put(s, p, s.procs[p].(pc := SleepEnter(ch, lk), epoch := s.procs[p].epoch + 1, extra := false),
                  s.plock[p], c, s.cpus[c], s.spin)
  {
    KnownProc(s, p);
    var q := s.procs[p].(pc := SleepEnter(ch, lk), epoch := s.procs[p].epoch + 1, extra := false);
    assert ThreadNext(s, p, CallSleep(ch, lk)).procs[p] == q;
  }

  /** A process on CPU c that is not in an interrupt handler, with the spin locks of c. */
  predicate OnCpu(s: State, p: nat, c: nat) {
    && p < |s.procs| == |s.plock| && c < |s.cpus| == |s.hand| && s.hand[c].NoHand?
    && s.procs[p].cpu == Some(c) && s.procs[p].mode.On? && c !in s.intr
  }

  lemma SleepLocks(s: State, p: nat, c: nat)
    requires OnCpu(s, p, c) && s.procs[p].pc.SleepEnter? && s.plock[p].None?
    ensures var q := s.procs[p];
            var s1 := Put(s, p, q.(pc := SleepBoth(q.pc.ch, q.pc.lk)), Some(c), c, s.cpus[c], s.spin);
            var s2 := Put(s, p, q.(pc := SleepAlone(q.pc.ch, q.pc.lk)), Some(c), c, s.cpus[c], s.spin - {q.pc.lk});
            && ThreadEnabled(s, p, SleepAcquire) && ThreadNext(s, p, SleepAcquire) == s1
            && ThreadEnabled(s1, p, SleepRelease) && ThreadNext(s1, p, SleepRelease) == s2
  {
  }

  lemma SleepMarks(s: State, p: nat, c: nat)
    requires OnCpu(s, p, c) && s.procs[p].pc.SleepAlone? && s.plock[p] == Some(c) && SpinsOf(s, c) == {}
    ensures var q := s.procs[p];
            var q1 := q.(pc := SleepMarked(q.pc.ch, q.pc.lk), chan := Some(q.pc.ch), state := Sleeping);
            var s1 := Put(s, p, q1, Some(c), c, s.cpus[c], s.spin);
            var s2 := Put(s, p, q1.(mode := Off, cpu := None), Some(c), c, s.cpus[c].(pc := Back(p)), s.spin);
            && ThreadEnabled(s, p, SleepMark) && ThreadNext(s, p, SleepMark) == s1
            && ThreadEnabled(s1, p, Swtch) && ThreadNext(s1, p, Swtch) == s2
  {
    var q := s.procs[p];
    var q1 := q.(pc := SleepMarked(q.pc.ch, q.pc.lk), chan := Some(q.pc.ch), state := Sleeping);
    var s1 := Put(s, p, q1, Some(c), c, s.cpus[c], s.spin);
    assert s1.plock == s.plock && s1.cpus == s.cpus;
    assert SpinsOf(s1, c) == SpinsOf(s, c);
  }

  lemma BackReleases(s: State, p: nat, c: nat)
    requires p < |s.procs| == |s.plock| && c < |s.cpus| == |s.hand| && s.hand[c].NoHand? && s.cpus[c].pc == Back(p)
    requires c !in s.intr
    ensures SchedEnabled(s, c, SchedRelease)
    ensures SchedNext(s, c, SchedRelease) == Put(s, p, s.procs[p], None, c, Cpu(None, Idle), s.spin)
  {
  }

  lemma WokenChosen(s: State, p: nat, c: nat)
    requires p < |s.procs| == |s.plock| && c < |s.cpus| == |s.hand| && s.hand[c].NoHand? && s.cpus[c].pc.Idle?
    requires s.plock[p].None? && s.procs[p].state.Runnable?
    ensures var s1 := Put(s, p, s.procs[p], Some(c), c, s.cpus[c].(pc := Chose(p)), s.spin);
            var s2 := Put(s, p, s.procs[p].(state := Running, mode := Resumed, cpu := Some(c)), Some(c), c,
                          Cpu(Some(p), InProc(p)), s.spin);
            && SchedEnabled(s, c, SchedAcquire(p)) && SchedNext(s, c, SchedAcquire(p)) == s1
            && SchedEnabled(s1, c, SchedChoose) && SchedNext(s1, c, SchedChoose) == s2
  {
  }

  lemma WokenReacquires(s: State, p: nat, c: nat)
    requires p < |s.procs| == |s.plock| && c < |s.cpus| == |s.hand| && s.hand[c].NoHand? && c !in s.intr
    requires s.procs[p].cpu == Some(c) && s.procs[p].mode.Resumed? && s.procs[p].pc.SleepMarked?
    requires s.procs[p].pc.lk !in s.spin
    ensures var q := s.procs[p];
            var s1 := Put(s, p, q.(pc := Reacquire(q.pc.lk), chan := None, mode := On), None, c, s.cpus[c], s.spin);
            var s2 := Put(s, p, q.(pc := Exec, chan := None, mode := On), None, c, s.cpus[c], s.spin[q.pc.lk := c]);
            && ThreadEnabled(s, p, Resume) && ThreadNext(s, p, Resume) == s1
            && ThreadEnabled(s1, p, SleepReacquire) && ThreadNext(s1, p, SleepReacquire) == s2
  {
  }

  lemma TwoSteps(s: State, ts: seq<Step>, s1: State, t: Step, u: Step)
    requires Reaches(s, ts, s1) && |s1.plock| == |s1.procs| && Enabled(s1, t) == true
    requires |Next(s1, t).plock| == |Next(s1, t).procs| && Enabled(Next(s1, t), u) == true
    ensures Reaches(s, ts + [t] + [u], Next(Next(s1, t), u))
  {
    ReachesOneMore(s, ts, s1, t);
    ReachesOneMore(s, ts + [t], Next(s1, t), u);
  }

  /** Process q asleep in sleep(ch, lk), switched out. */
  function Asleep(q: Proc, ch: nat, lk: nat): Proc {
    q.(pc := SleepMarked(ch, lk), chan := Some(ch), state := Sleeping, mode := Off, cpu := None, epoch := q.epoch + 1,
       extra := false)
  }

  /** The same, with p->lock held and lk released, about to be marked. */
  function Alone(q: Proc, ch: nat, lk: nat): Proc {
    q.(pc := SleepAlone(ch, lk), epoch := q.epoch + 1, extra := false)
  }

  lemma SleepBegins(s: State, p: nat, c: nat, ch: nat, lk: nat) returns (ts: seq<Step>)
    requires Base(s) == true && ThreadEnabled(s, p, CallSleep(ch, lk)) == true && s.plock[p].None?
    requires c == Here(s, p) && SpinsOf(s, c) == {lk}
    ensures c < |s.cpus| && Reaches(s, ts, Put(s, p, Alone(s.procs[p], ch, lk), Some(c), c, s.cpus[c], s.spin - {lk}))
  {
    SleepCall(s, p, c, ch, lk);
    var q := s.procs[p].(pc := SleepEnter(ch, lk), epoch := s.procs[p].epoch + 1, extra := false);
    var s1 := Put(s, p, q, None, c, s.cpus[c], s.spin);
    ReachesOneMore(s, [], s, Thread(p, CallSleep(ch, lk)));
    ts := [] + [Thread(p, CallSleep(ch, lk))];
    SleepLocks(s1, p, c);
    TwoSteps(s, ts, s1, Thread(p, SleepAcquire), Thread(p, SleepRelease));
    ts := ts + [Thread(p, SleepAcquire)] + [Thread(p, SleepRelease)];
    PutPut(s, p, q, None, c, s.cpus[c], s.spin, Alone(s.procs[p], ch, lk), Some(c), s.cpus[c], s.spin - {lk});
  }

  lemma SleepEnds(s0: State, ts: seq<Step>, s: State, p: nat, c: nat) returns (ts': seq<Step>)
    requires Reaches(s0, ts, s) && OnCpu(s, p, c) && s.procs[p].pc.SleepAlone? && s.plock[p] == Some(c)
    requires SpinsOf(s, c) == {}
    ensures var q := s.procs[p];
            var q1 := q.(pc := SleepMarked(q.pc.ch, q.pc.lk), chan := Some(q.pc.ch), state := Sleeping, mode := Off,
                         cpu := None);
            Reaches(s0, ts', Put(s, p, q1, None, c, Cpu(None, Idle), s.spin))
  {
    var q := s.procs[p];
    var q1 := q.(pc := SleepMarked(q.pc.ch, q.pc.lk), chan := Some(q.pc.ch), state := Sleeping, mode := Off,
                 cpu := None);
    SleepMarks(s, p, c);
    TwoSteps(s0, ts, s, Thread(p, SleepMark), Thread(p, Swtch));
    var s1 := Put(s, p, q1, Some(c), c, s.cpus[c].(pc := Back(p)), s.spin);
    BackReleases(s1, p, c);
    ReachesOneMore(s0, ts + [Thread(p, SleepMark)] + [Thread(p, Swtch)], s1, Sched(c, SchedRelease));
    ts' := ts + [Thread(p, SleepMark)] + [Thread(p, Swtch)] + [Sched(c, SchedRelease)];
    PutPut(s, p, q1, Some(c), c, s.cpus[c].(pc := Back(p)), s.spin, q1, None, Cpu(None, Idle), s.spin);
  }

  /** sleep(): a process that runs on c and holds lk and nothing else, with p->lock free, gets to sleep; c is back in
      its scheduler, p->lock and lk are free, and nothing else has changed. */
  lemma SleepGoesDown(s: State, p: nat, c: nat, ch: nat, lk: nat) returns (ts: seq<Step>)
    requires Base(s) == true && ThreadEnabled(s, p, CallSleep(ch, lk)) == true && s.plock[p].None?
    requires c == Here(s, p) && SpinsOf(s, c) == {lk}
    ensures c < |s.cpus|
    ensures Reaches(s, ts, Put(s, p, Asleep(s.procs[p], ch, lk), None, c, Cpu(None, Idle), s.spin - {lk}))
  {
    ts := SleepBegins(s, p, c, ch, lk);
    var q, q' := Alone(s.procs[p], ch, lk), Asleep(s.procs[p], ch, lk);
    var s1 := Put(s, p, q, Some(c), c, s.cpus[c], s.spin - {lk});
    assert SpinsOf(s1, c) == SpinsOf(s, c) - {lk};
    ts := SleepEnds(s, ts, s1, p, c);
    PutPut(s, p, q, Some(c), c, s.cpus[c], s.spin - {lk}, q', None, Cpu(None, Idle), s.spin - {lk});
  }

  /** Process q running on CPU c, in no call of sleep(). */
  function Ran(q: Proc, c: nat): Proc {
    q.(state := Running, pc := Exec, chan := None, mode := On, cpu := Some(c))
  }

  /** A process that a wakeup() or kill() has made RUNNABLE can be run by any CPU that is in its scheduler, and returns
      from sleep() with lk if it is free. */
  lemma WokenComesBack(s: State, p: nat, c: nat) returns (ts: seq<Step>)
    requires p < |s.procs| == |s.plock| && c < |s.cpus| == |s.hand| && s.hand[c].NoHand? && s.cpus[c].pc.Idle?
    requires s.plock[p].None? && s.procs[p].state.Runnable? && s.procs[p].pc.SleepMarked? && s.procs[p].pc.lk !in s.spin
    ensures var q := s.procs[p];
            Reaches(s, ts, Put(s, p, Ran(q, c), None, c, Cpu(Some(p), InProc(p)), s.spin[q.pc.lk := c]))
  {
    var q := s.procs[p];
    var q1 := q.(state := Running, mode := Resumed, cpu := Some(c));
    var s1 := Put(s, p, q1, Some(c), c, Cpu(Some(p), InProc(p)), s.spin);
    WokenChosen(s, p, c);
    TwoSteps(s, [], s, Sched(c, SchedAcquire(p)), Sched(c, SchedChoose));
    ts := [] + [Sched(c, SchedAcquire(p))] + [Sched(c, SchedChoose)];
    WokenReacquires(s1, p, c);
    TwoSteps(s, ts, s1, Thread(p, Resume), Thread(p, SleepReacquire));
    ts := ts + [Thread(p, Resume)] + [Thread(p, SleepReacquire)];
    PutPut(s, p, q1, Some(c), c, Cpu(Some(p), InProc(p)), s.spin, Ran(q, c), None, Cpu(Some(p), InProc(p)),
           s.spin[q.pc.lk := c]);
  }

  lemma YieldSteps(s: State, p: nat, c: nat)
    requires Base(s) == true && ThreadEnabled(s, p, Yield) == true && c == Here(s, p)
    ensures c < |s.cpus|
    ensures var q := s.procs[p].(state := Runnable, mode := Yielding);
            var s1 := Put(s, p, q, Some(c), c, s.cpus[c], s.spin);
            && ThreadNext(s, p, Yield) == s1 && ThreadEnabled(s1, p, Swtch)
            && ThreadNext(s1, p, Swtch) ==
                 Put(s, p, q.(mode := Off, cpu := None), Some(c), c, s.cpus[c].(pc := Back(p)), s.spin)
  {
    KnownProc(s, p);
    var q := s.procs[p].(state := Runnable, mode := Yielding);
    var s1 := Put(s, p, q, Some(c), c, s.cpus[c], s.spin);
    assert s1.cpus == s.cpus;
    assert SpinsOf(s1, c) == SpinsOf(s, c);
  }

  /** yield(): the process stays where it is, RUNNABLE, and the CPU is back in its scheduler. */
  lemma YieldGivesWay(s: State, p: nat, c: nat) returns (ts: seq<Step>)
    requires Base(s) == true && ThreadEnabled(s, p, Yield) == true && c == Here(s, p)
    ensures c < |s.cpus|
    ensures Reaches(s, ts, Put(s, p, s.procs[p].(state := Runnable, mode := Off, cpu := None), None, c, Cpu(None, Idle),
                               s.spin))
  {
    KnownProc(s, p);
    var q := s.procs[p].(state := Runnable, mode := Yielding);
    YieldSteps(s, p, c);
    TwoSteps(s, [], s, Thread(p, Yield), Thread(p, Swtch));
    var q2, k := q.(mode := Off, cpu := None), s.cpus[c].(pc := Back(p));
    var s2 := Put(s, p, q2, Some(c), c, k, s.spin);
    BackReleases(s2, p, c);
    ts := [] + [Thread(p, Yield)] + [Thread(p, Swtch)];
    ReachesOneMore(s, ts, s2, Sched(c, SchedRelease));
    ts := ts + [Sched(c, SchedRelease)];
    PutPut(s, p, q2, Some(c), c, k, s.spin, q2, None, Cpu(None, Idle), s.spin);
  }

  lemma FirstStep(s: State, t: Step, ts: seq<Step>, s': State)
    requires |s.plock| == |s.procs| && Enabled(s, t) == true && Reaches(Next(s, t), ts, s')
    ensures Reaches(s, [t] + ts, s')
  {
    assert ([t] + ts)[1..] == ts;
  }

  /** kill() of a process that sleeps: any CPU that is in its scheduler can then take it out of sleep(). */
  lemma KilledComesBack(s: State, p: nat, q: nat, c: nat) returns (ts: seq<Step>)
    requires Base(s) == true && ThreadEnabled(s, p, Kill(q)) == true && s.procs[q].state.Sleeping?
    requires c < |s.cpus| && s.hand[c].NoHand? && s.cpus[c].pc.Idle? && s.procs[q].pc.SleepMarked?
    requires s.procs[q].pc.lk !in s.spin
    ensures var x := s.procs[q];
            Reaches(s, ts, Put(s, q, Ran(x, c), None, c, Cpu(Some(q), InProc(q)), s.spin[x.pc.lk := c]))
  {
    var s1, x := ThreadNext(s, p, Kill(q)), s.procs[q];
    var us := WokenComesBack(s1, q, c);
    assert s1.procs[q := Ran(x, c)] == s.procs[q := Ran(x, c)];
    FirstStep(s, Thread(p, Kill(q)), us,
              Put(s, q, Ran(x, c), None, c, Cpu(Some(q), InProc(q)), s.spin[x.pc.lk := c]));
    ts := [Thread(p, Kill(q))] + us;
  }

  lemma ExitSteps(s: State, p: nat, c: nat)
    requires Base(s) == true && ThreadEnabled(s, p, Exit) == true && c == Here(s, p) && SpinsOf(s, c) == {}
    ensures c < |s.cpus|
    ensures var q := s.procs[p].(state := Zombie, pc := Exiting, extra := false);
            var s1 := Put(s, p, q, Some(c), c, s.cpus[c], s.spin);
            && ThreadNext(s, p, Exit) == s1 && ThreadEnabled(s1, p, Swtch)
            && ThreadNext(s1, p, Swtch) ==
                 Put(s, p, q.(mode := Off, cpu := None), Some(c), c, s.cpus[c].(pc := Back(p)), s.spin)
  {
    KnownProc(s, p);
    var q := s.procs[p].(state := Zombie, pc := Exiting, extra := false);
    var s1 := Put(s, p, q, Some(c), c, s.cpus[c], s.spin);
    assert s1.cpus == s.cpus;
    assert SpinsOf(s1, c) == SpinsOf(s, c);
  }

  /** exit(): a process that holds no spin lock becomes a ZOMBIE that no CPU runs, with its lock free. */
  lemma ExitGoesDown(s: State, p: nat, c: nat) returns (ts: seq<Step>)
    requires Base(s) == true && ThreadEnabled(s, p, Exit) == true && c == Here(s, p) && SpinsOf(s, c) == {}
    ensures c < |s.cpus|
    ensures var q := s.procs[p].(state := Zombie, pc := Exiting, extra := false, mode := Off, cpu := None);
            Reaches(s, ts, Put(s, p, q, None, c, Cpu(None, Idle), s.spin))
  {
    KnownProc(s, p);
    ExitSteps(s, p, c);
    TwoSteps(s, [], s, Thread(p, Exit), Thread(p, Swtch));
    var q := s.procs[p].(state := Zombie, pc := Exiting, extra := false, mode := Off, cpu := None);
    var k := s.cpus[c].(pc := Back(p));
    var s2 := Put(s, p, q, Some(c), c, k, s.spin);
    BackReleases(s2, p, c);
    ts := [] + [Thread(p, Exit)] + [Thread(p, Swtch)];
    ReachesOneMore(s, ts, s2, Sched(c, SchedRelease));
    ts := ts + [Sched(c, SchedRelease)];
    PutPut(s, p, q, Some(c), c, k, s.spin, q, None, Cpu(None, Idle), s.spin);
  }

  /** A process that fork() has made can be run by any CPU that is in its scheduler. */
  lemma ForkedRuns(s: State, p: nat, q: nat, c: nat) returns (ts: seq<Step>)
    requires Base(s) == true && ThreadEnabled(s, p, Fork(q)) == true
    requires c < |s.cpus| && s.hand[c].NoHand? && s.cpus[c].pc.Idle?
    ensures Reaches(s, ts, Put(s, q, Ran(s.procs[q], c), None, c, Cpu(Some(q), InProc(q)), s.spin))
  {
    var s1 := ThreadNext(s, p, Fork(q));
    ReachesOneMore(s, [], s, Thread(p, Fork(q)));
    ts := [] + [Thread(p, Fork(q))];
    WokenChosen(s1, q, c);
    TwoSteps(s, ts, s1, Sched(c, SchedAcquire(q)), Sched(c, SchedChoose));
    ts := ts + [Sched(c, SchedAcquire(q))] + [Sched(c, SchedChoose)];
    var x := s1.procs[q].(state := Running, mode := Resumed, cpu := Some(c));
    var s2 := Put(s1, q, x, Some(c), c, Cpu(Some(q), InProc(q)), s.spin);
    ReachesOneMore(s, ts, s2, Thread(q, Resume));
    ts := ts + [Thread(q, Resume)];
    assert ThreadNext(s2, q, Resume) == Put(s, q, Ran(s.procs[q], c), None, c, Cpu(Some(q), InProc(q)), s.spin);
  }

  // ---------------------------------------------------------------- wakeup() to its end

  /** From s to s', the processes from i on that slept on ch became RUNNABLE, but for own, and no other process has
      changed; locks and CPUs are as before. */
  ghost predicate SweptAt(s: State, s': State, ch: nat, i: nat, own: Option<nat>, x: nat) {
    x < |s.procs| == |s'.procs| && own != Some(x) ==>
      var q := s.procs[x];
      s'.procs[x] == if x >= i && q.state.Sleeping? && q.chan == Some(ch) then q.(state := Runnable) else q
  }

  ghost predicate Swept(s: State, s': State, ch: nat, i: nat, own: Option<nat>) {
    && |s'.procs| == |s.procs| && s'.plock == s.plock && s'.cpus == s.cpus && s'.spin == s.spin && s'.held == s.held
    && (forall x: nat :: SweptAt(s, s', ch, i, own, x))
  }

  ghost predicate AllFree(s: State) {
    |s.plock| == |s.procs| && forall x: nat :: x < |s.plock| ==> s.plock[x].None?
  }

  /** Process p, on its CPU, can look at the next process in wakeup(). */
  ghost predicate Sweeping(s: State, p: nat) {
    At(s, p) && s.procs[p].pc.Waking? && s.procs[p].pc.i <= |s.procs| && AllFree(s)
  }

  /** The state after one round of the loop in wakeup(). */
  function Round(s: State, p: nat): State
    requires p < |s.procs| && s.procs[p].cpu.Some? && s.procs[p].pc.Waking? && s.procs[p].pc.i < |s.procs|
  {
    var pc := s.procs[p].pc;
    var s1 := WithPc(WakeTarget(s, pc.ch, pc.i), p, Waking(pc.ch, pc.i + 1, pc.due));
    if pc.i == p then WithPc(s, p, Waking(pc.ch, pc.i + 1, pc.due)) else PushOff(s1, Here(s, p))
  }

  lemma RoundSteps(s: State, p: nat)
    requires Sweeping(s, p) && s.procs[p].pc.i < |s.procs|
    ensures ThreadEnabled(s, p, WakeAcquire) == true
    ensures var s1 := ThreadNext(s, p, WakeAcquire);
            if s.procs[p].pc.i == p then s1 == Round(s, p)
            else
              && |s1.plock| == |s1.procs| && ThreadEnabled(s1, p, WakeSet) == true
              && ThreadNext(s1, p, WakeSet) == Round(s, p)
  {
    var pc := s.procs[p].pc;
    if pc.i != p {
      var s2 := ThreadNext(ThreadNext(s, p, WakeAcquire), p, WakeSet);
      assert s2.plock == s.plock;
      assert s2.procs == Round(s, p).procs;
    }
  }

  lemma RoundRuns(s0: State, ts0: seq<Step>, s: State, p: nat) returns (ts: seq<Step>)
    requires Reaches(s0, ts0, s) == true && Sweeping(s, p) && s.procs[p].pc.i < |s.procs|
    ensures Reaches(s0, ts, Round(s, p)) == true
  {
    RoundSteps(s, p);
    ReachesOneMore(s0, ts0, s, Thread(p, WakeAcquire));
    ts := ts0 + [Thread(p, WakeAcquire)];
    if s.procs[p].pc.i != p {
      ReachesOneMore(s0, ts, ThreadNext(s, p, WakeAcquire), Thread(p, WakeSet));
      ts := ts + [Thread(p, WakeSet)];
    }
  }

  lemma RoundSweeps(s: State, p: nat)
    requires Sweeping(s, p) && s.procs[p].pc.i < |s.procs|
    ensures Sweeping(Round(s, p), p) == true && |Round(s, p).procs| == |s.procs|
    ensures Round(s, p).procs[p].pc.i == s.procs[p].pc.i + 1
  {
  }

  /** From s to s', process p finished its wakeup(). */
  ghost predicate SweepDone(s: State, s': State, p: nat) {
    && p < |s.procs| == |s'.procs| && s.procs[p].pc.Waking?
    && Swept(s, s', s.procs[p].pc.ch, s.procs[p].pc.i, Some(p))
    && s'.procs[p] == s.procs[p].(pc := Exec) && Woke(s.procs[p].pc.due) <= s'.done
  }

  lemma RoundSwept(s: State, s': State, p: nat)
    requires Sweeping(s, p) && s.procs[p].pc.i < |s.procs| && SweepDone(Round(s, p), s', p)
    ensures SweepDone(s, s', p) == true
  {
    var ch, i := s.procs[p].pc.ch, s.procs[p].pc.i;
    forall x: nat ensures SweptAt(s, s', ch, i, Some(p), x) { assert SweptAt(Round(s, p), s', ch, i + 1, Some(p), x); }
  }

  lemma SweepEnds(s0: State, ts0: seq<Step>, s: State, p: nat) returns (ts: seq<Step>, s': State)
    requires Reaches(s0, ts0, s) == true && Sweeping(s, p) && s.procs[p].pc.i == |s.procs|
    ensures Reaches(s0, ts, s') == true && SweepDone(s, s', p) == true
  {
    ReachesOneMore(s0, ts0, s, Thread(p, WakeReturn));
    ts, s' := ts0 + [Thread(p, WakeReturn)], ThreadNext(s, p, WakeReturn);
  }

  lemma {:induction false} WakeLoop(s0: State, ts0: seq<Step>, s: State, p: nat, left: nat)
    returns (ts: seq<Step>, s': State)
    requires Reaches(s0, ts0, s) == true && Sweeping(s, p) && s.procs[p].pc.i + left == |s.procs|
    ensures Reaches(s0, ts, s') == true && SweepDone(s, s', p) == true
    decreases left
  {
    if left == 0 {
      ts, s' := SweepEnds(s0, ts0, s, p);
    } else {
      var us := RoundRuns(s0, ts0, s, p);
      RoundSweeps(s, p);
      ts, s' := WakeLoop(s0, us, Round(s, p), p, left - 1);
      RoundSwept(s, s', p);
    }
  }

  /** wakeup(ch) by process p, when no process lock is taken, can run to its end: then every other process that was
      SLEEPING on ch is RUNNABLE, and no other has changed. */
  lemma WakeupWakes(s: State, p: nat, ch: nat) returns (ts: seq<Step>, s': State)
    requires |s.plock| == |s.procs| && ThreadEnabled(s, p, CallWakeup(ch)) == true && AllFree(s)
    ensures Reaches(s, ts, s') && Swept(s, s', ch, 0, Some(p))
    ensures s'.procs[p] == s.procs[p] && Woke(Due(s, ch)) <= s'.done
  {
    var t := Thread(p, CallWakeup(ch));
    var s1 := Next(s, t);
    ReachesOneMore(s, [], s, t);
    ts, s' := WakeLoop(s, [] + [t], s1, p, |s.procs|);
    forall x: nat ensures SweptAt(s, s', ch, 0, Some(p), x) { assert SweptAt(s1, s', ch, 0, Some(p), x); }
  }

  /** The same for the interrupt handler of CPU c. */
  ghost predicate HandSweeping(s: State, c: nat) {
    c < |s.hand| == |s.cpus| && s.hand[c].HandWaking? && s.hand[c].i <= |s.procs| && AllFree(s)
  }

  function HandRound(s: State, c: nat): State
    requires c < |s.hand| == |s.cpus| && s.hand[c].HandWaking? && s.hand[c].i < |s.procs|
  {
    var h := s.hand[c];
    var s1 := if s.cpus[c].cur == Some(h.i) then s else WakeTarget(s, h.ch, h.i);
    s1.(hand := s.hand[c := HandWaking(h.ch, h.i + 1, h.due)])
  }

  lemma HandRoundSteps(s: State, c: nat)
    requires HandSweeping(s, c) && s.hand[c].i < |s.procs|
    ensures HandEnabled(s, c, HandWakeAcquire) == true
    ensures var s1 := HandNext(s, c, HandWakeAcquire);
            if s.cpus[c].cur == Some(s.hand[c].i) then s1 == HandRound(s, c)
            else
              && |s1.plock| == |s1.procs| && HandEnabled(s1, c, HandWakeSet) == true
              && HandNext(s1, c, HandWakeSet) == HandRound(s, c)
  {
    var h := s.hand[c];
    if s.cpus[c].cur != Some(h.i) {
      var s2 := HandNext(HandNext(s, c, HandWakeAcquire), c, HandWakeSet);
      assert s2.plock == s.plock;
      assert s2.hand == HandRound(s, c).hand;
    }
  }

  lemma HandRoundRuns(s0: State, ts0: seq<Step>, s: State, c: nat) returns (ts: seq<Step>)
    requires Reaches(s0, ts0, s) == true && HandSweeping(s, c) && s.hand[c].i < |s.procs|
    ensures Reaches(s0, ts, HandRound(s, c)) == true
  {
    HandRoundSteps(s, c);
    ReachesOneMore(s0, ts0, s, Intr(c, HandWakeAcquire));
    ts := ts0 + [Intr(c, HandWakeAcquire)];
    if s.cpus[c].cur != Some(s.hand[c].i) {
      ReachesOneMore(s0, ts, HandNext(s, c, HandWakeAcquire), Intr(c, HandWakeSet));
      ts := ts + [Intr(c, HandWakeSet)];
    }
  }

  lemma HandRoundSwept(s: State, s': State, c: nat)
    requires HandSweeping(s, c) && s.hand[c].i < |s.procs|
    requires Swept(HandRound(s, c), s', s.hand[c].ch, s.hand[c].i + 1, s.cpus[c].cur)
    ensures Swept(s, s', s.hand[c].ch, s.hand[c].i, s.cpus[c].cur) == true
  {
    var ch, i, own := s.hand[c].ch, s.hand[c].i, s.cpus[c].cur;
    forall x: nat ensures SweptAt(s, s', ch, i, own, x) { assert SweptAt(HandRound(s, c), s', ch, i + 1, own, x); }
  }

  lemma HandSweepEnds(s0: State, ts0: seq<Step>, s: State, c: nat) returns (ts: seq<Step>, s': State)
    requires Reaches(s0, ts0, s) == true && HandSweeping(s, c) && s.hand[c].i == |s.procs|
    ensures Reaches(s0, ts, s') == true && Swept(s, s', s.hand[c].ch, s.hand[c].i, s.cpus[c].cur) == true
    ensures s'.hand == s.hand[c := HandExec] && Woke(s.hand[c].due) <= s'.done
  {
    ReachesOneMore(s0, ts0, s, Intr(c, HandWakeReturn));
    ts, s' := ts0 + [Intr(c, HandWakeReturn)], HandNext(s, c, HandWakeReturn);
  }

  lemma {:induction false} HandLoop(s0: State, ts0: seq<Step>, s: State, c: nat) returns (ts: seq<Step>, s': State)
    requires Reaches(s0, ts0, s) == true && HandSweeping(s, c) == true
    ensures Reaches(s0, ts, s') == true && Swept(s, s', s.hand[c].ch, s.hand[c].i, s.cpus[c].cur) == true
    ensures s'.hand == s.hand[c := HandExec] && Woke(s.hand[c].due) <= s'.done
    decreases |s.procs| - s.hand[c].i
  {
    if s.hand[c].i == |s.procs| {
      ts, s' := HandSweepEnds(s0, ts0, s, c);
    } else {
      var us := HandRoundRuns(s0, ts0, s, c);
      ts, s' := HandLoop(s0, us, HandRound(s, c), c);
      HandRoundSwept(s, s', c);
    }
  }

  /** wakeup(ch) by an interrupt handler, which looks at all processes but the one that it interrupted. */
  lemma HandlerWakes(s: State, c: nat, ch: nat) returns (ts: seq<Step>, s': State)
    requires |s.plock| == |s.procs| && HandEnabled(s, c, HandWakeup(ch)) == true && AllFree(s)
    ensures Reaches(s, ts, s') && Swept(s, s', ch, 0, s.cpus[c].cur)
    ensures s'.hand == s.hand && Woke(Due(s, ch)) <= s'.done
  {
    var s1 := HandNext(s, c, HandWakeup(ch));
    ReachesOneMore(s, [], s, Intr(c, HandWakeup(ch)));
    ts, s' := HandLoop(s, [] + [Intr(c, HandWakeup(ch))], s1, c);
    var own := s.cpus[c].cur;
    forall x: nat ensures SweptAt(s, s', ch, 0, own, x) { assert SweptAt(s1, s', ch, 0, own, x); }
  }

  // ---------------------------------------------------------------- locks exclude

  /** Process p runs on c and has spin lock k. */
  predicate Holding(s: State, p: nat, c: nat, k: nat) {
    && p < |s.procs| && s.procs[p].cpu == Some(c) && c < |s.hand| && s.hand[c].NoHand?
    && k in s.spin && s.spin[k] == c
  }

  /** Process p gives spin lock k back. */
  predicate Releases(s: State, p: nat, k: nat, t: Step) {
    t == Thread(p, ReleaseSpin(k)) || (t == Thread(p, SleepRelease) && p < |s.procs| && InCall(s.procs[p], k))
  }

  lemma HoldingOwn(s: State, p: nat, c: nat, k: nat, a: Act)
    requires Base(s) == true && Holding(s, p, c, k) && ThreadEnabled(s, p, a) == true
    requires !Releases(s, p, k, Thread(p, a))
    ensures Holding(ThreadNext(s, p, a), p, c, k)
  {
    KnownProc(s, p);
    assert k in SpinsOf(s, c);
    ThreadShape(s, p, a);
  }

  lemma HoldingOther(s: State, p: nat, c: nat, k: nat, q: nat, a: Act)
    requires Base(s) == true && Holding(s, p, c, k) && ThreadEnabled(s, q, a) == true && q != p
    ensures Holding(ThreadNext(s, q, a), p, c, k)
  {
    OtherSpins(s, p, c, k, q, a);
    ThreadShape(s, q, a);
    if Other(s, q, a) != Some(p) { ThreadFrame(s, q, a, p); } else { KnownProc(s, p); }
  }

  /** Another process is on another CPU, and does not release k. */
  lemma OtherSpins(s: State, p: nat, c: nat, k: nat, q: nat, a: Act)
    requires Base(s) == true && Holding(s, p, c, k) && ThreadEnabled(s, q, a) == true && q != p
    ensures k in ThreadNext(s, q, a).spin && ThreadNext(s, q, a).spin[k] == c
  {
    KnownProc(s, p);
    KnownProc(s, q);
  }

  lemma HoldingSched(s: State, p: nat, c: nat, k: nat, d: nat, a: SchedAct)
    requires Base(s) == true && Holding(s, p, c, k) && SchedEnabled(s, d, a) == true
    ensures Holding(SchedNext(s, d, a), p, c, k)
  {
    KnownProc(s, p);
    KnownCpu(s, d);
  }

  lemma HoldingHand(s: State, p: nat, c: nat, k: nat, d: nat, a: HandAct)
    requires Base(s) == true && Holding(s, p, c, k) && HandEnabled(s, d, a) == true
    ensures Holding(HandNext(s, d, a), p, c, k)
  {
    KnownProc(s, p);
    assert k in SpinsOf(s, c);
    KnownCpu(s, c);
  }

  lemma HoldingGoesOn(s: State, t: Step, p: nat, c: nat, k: nat)
    requires Base(s) == true && Enabled(s, t) == true && Holding(s, p, c, k) && !Releases(s, p, k, t)
    ensures Holding(Next(s, t), p, c, k)
  {
    match t
    case Thread(q, a) => if q == p { HoldingOwn(s, p, c, k, a); } else { HoldingOther(s, p, c, k, q, a); }
    case Sched(d, a) => HoldingSched(s, p, c, k, d, a);
    case Intr(d, a) => HoldingHand(s, p, c, k, d, a);
  }

  /** None of the steps is a release of k by p. */
  ghost predicate NeverReleases(s: State, ts: seq<Step>, p: nat, k: nat)
    decreases |ts|
  {
    ts == [] || (!Releases(s, p, k, ts[0]) && |s.plock| == |s.procs| && Enabled(s, ts[0]) == true
                 && NeverReleases(Next(s, ts[0]), ts[1..], p, k))
  }

  lemma {:induction false} StaysHolding(s: State, ts: seq<Step>, s': State, p: nat, c: nat, k: nat)
    requires Inv(s) == true && Reaches(s, ts, s') && NeverReleases(s, ts, p, k) && Holding(s, p, c, k)
    ensures Holding(s', p, c, k)
    decreases |ts|
  {
    if ts != [] {
      HoldingGoesOn(s, ts[0], p, c, k);
      StepKeepsInv(s, ts[0]);
      StaysHolding(Next(s, ts[0]), ts[1..], s', p, c, k);
    }
  }

  lemma TakesLock(s: State, p: nat, k: nat)
    requires Base(s) == true && ThreadEnabled(s, p, AcquireSpin(k)) == true
    ensures Holding(ThreadNext(s, p, AcquireSpin(k)), p, Here(s, p), k)
  {
    KnownProc(s, p);
  }

  /** Mutual exclusion.  After process p has acquired spin lock k, and until it releases it, p stays on its CPU, no
      interrupt handler runs there, and neither another process nor a handler can acquire k. */
  lemma SpinLockExcludes(s0: State, ts1: seq<Step>, s1: State, p: nat, k: nat, ts2: seq<Step>, s2: State, q: nat,
                         c: nat)
    requires Init(s0) && Reaches(s0, ts1, s1) && |s1.plock| == |s1.procs|
    requires ThreadEnabled(s1, p, AcquireSpin(k)) == true
    requires Reaches(ThreadNext(s1, p, AcquireSpin(k)), ts2, s2)
    requires NeverReleases(ThreadNext(s1, p, AcquireSpin(k)), ts2, p, k)
    ensures Holding(s2, p, Here(s1, p), k) && |s2.plock| == |s2.procs|
    ensures !ThreadEnabled(s2, q, AcquireSpin(k)) && !HandEnabled(s2, c, HandAcquire(k))
  {
    InitInv(s0);
    RunInv(s0, ts1, s1);
    TakesLock(s1, p, k);
    StepKeepsInv(s1, Thread(p, AcquireSpin(k)));
    StaysHolding(ThreadNext(s1, p, AcquireSpin(k)), ts2, s2, p, Here(s1, p), k);
    RunInv(ThreadNext(s1, p, AcquireSpin(k)), ts2, s2);
  }

  lemma SleepLockKept(s: State, p: nat, k: nat, q: nat, a: Act)
    requires |s.plock| == |s.procs| && ThreadEnabled(s, q, a) == true && k in s.held && s.held[k] == p
    requires !(q == p && a == DropSleepLock(k))
    ensures k in ThreadNext(s, q, a).held && ThreadNext(s, q, a).held[k] == p
  {
  }

  /** A sleep lock stays with the process that took it until that process drops it. */
  lemma SleepLockStays(s: State, t: Step, p: nat, k: nat)
    requires |s.plock| == |s.procs| && Enabled(s, t) == true && k in s.held && s.held[k] == p
    requires t != Thread(p, DropSleepLock(k))
    ensures k in Next(s, t).held && Next(s, t).held[k] == p
  {
    if t.Thread? { SleepLockKept(s, p, k, t.p, t.a); }
  }

  lemma {:induction false} StaysHeld(s: State, ts: seq<Step>, s': State, p: nat, k: nat)
    requires Inv(s) == true && Reaches(s, ts, s') && Thread(p, DropSleepLock(k)) !in ts && k in s.held && s.held[k] == p
    ensures k in s'.held && s'.held[k] == p
    decreases |ts|
  {
    if ts != [] {
      assert ts[0] in ts;
      SleepLockStays(s, ts[0], p, k);
      StepKeepsInv(s, ts[0]);
      StaysHeld(Next(s, ts[0]), ts[1..], s', p, k);
    }
  }

  /** After process p has taken sleep lock k, and until it drops it, whether it runs or not, nobody else can take k. */
  lemma SleepLockExcludes(s0: State, ts1: seq<Step>, s1: State, p: nat, k: nat, ts2: seq<Step>, s2: State, q: nat)
    requires Init(s0) && Reaches(s0, ts1, s1) && |s1.plock| == |s1.procs|
    requires ThreadEnabled(s1, p, TakeSleepLock(k)) == true
    requires Reaches(ThreadNext(s1, p, TakeSleepLock(k)), ts2, s2) && Thread(p, DropSleepLock(k)) !in ts2
    ensures k in s2.held && s2.held[k] == p && |s2.plock| == |s2.procs|
    ensures !ThreadEnabled(s2, q, TakeSleepLock(k)) && (q != p ==> !ThreadEnabled(s2, q, DropSleepLock(k)))
  {
    InitInv(s0);
    RunInv(s0, ts1, s1);
    StepKeepsInv(s1, Thread(p, TakeSleepLock(k)));
    StaysHeld(ThreadNext(s1, p, TakeSleepLock(k)), ts2, s2, p, k);
    RunInv(ThreadNext(s1, p, TakeSleepLock(k)), ts2, s2);
  }

  /** wait() frees the entry of a zombie for the next fork(). */
  lemma ReapedIsFree(s: State, p: nat, q: nat)
    requires Base(s) == true && ThreadEnabled(s, p, Reap(q)) == true
    ensures |ThreadNext(s, p, Reap(q)).plock| == |ThreadNext(s, p, Reap(q)).procs|
    ensures ThreadEnabled(ThreadNext(s, p, Reap(q)), p, Fork(q))
  {
    KnownProc(s, p);
    KnownProc(s, q);
  }

  /** acquire() and release() of a spin lock, by a process or a handler, leave all locks as they were. */
  lemma LocksComeBack(s: State, p: nat, c: nat, k: nat)
    requires |s.plock| == |s.procs|
    ensures ThreadEnabled(s, p, AcquireSpin(k)) ==>
              var s1 := ThreadNext(s, p, AcquireSpin(k));
              ThreadEnabled(s1, p, ReleaseSpin(k)) && ThreadNext(s1, p, ReleaseSpin(k)).spin == s.spin
    ensures HandEnabled(s, c, HandAcquire(k)) ==>
              var s1 := HandNext(s, c, HandAcquire(k));
              HandEnabled(s1, c, HandRelease(k)) && HandNext(s1, c, HandRelease(k)) == s
  {
    assert k !in s.spin ==> s.spin[k := c] - {k} == s.spin;
    if ThreadEnabled(s, p, AcquireSpin(k)) { assert s.spin[k := Here(s, p)] - {k} == s.spin; }
  }

  // ---------------------------------------------------------------- interrupts

  /** A CPU that holds no lock can be interrupted; after the handler it goes on as before, with interrupts on. */
  lemma InterruptComesAndGoes(s: State, c: nat)
    requires Base(s) == true && Free(s, c) && Noff(s, c) == 0
    ensures Reaches(s, [] + [Intr(c, IntrOn)] + [Intr(c, IntrEnter)] + [Intr(c, IntrLeave)], s.(intr := s.intr + {c}))
  {
    var s1 := HandNext(s, c, IntrOn);
    TwoSteps(s, [], s, Intr(c, IntrOn), Intr(c, IntrEnter));
    var s2 := HandNext(s1, c, IntrEnter);
    assert SpinsOf(s2, c) == SpinsOf(s, c) == {};
    ReachesOneMore(s, [] + [Intr(c, IntrOn)] + [Intr(c, IntrEnter)], s2, Intr(c, IntrLeave));
    var s3 := HandNext(s2, c, IntrLeave);
    assert s3.hand == s.hand && s3.intr == s.intr + {c};
  }

  /** The handler of CPU c has spin lock k. */
  predicate HandHolding(s: State, c: nat, k: nat) {
    c < |s.hand| && !s.hand[c].NoHand? && k in s.spin && s.spin[k] == c
  }

  lemma HandHoldingThread(s: State, c: nat, k: nat, q: nat, a: Act)
    requires Base(s) == true && HandHolding(s, c, k) && ThreadEnabled(s, q, a) == true
    ensures HandHolding(ThreadNext(s, q, a), c, k)
  {
    KnownProc(s, q);
    ThreadShape(s, q, a);
  }

  /** What the handler of a CPU has locked stays locked until it releases it. */
  lemma HandlerLockStays(s: State, t: Step, c: nat, k: nat)
    requires Base(s) == true && Enabled(s, t) == true && HandHolding(s, c, k) && t != Intr(c, HandRelease(k))
    ensures HandHolding(Next(s, t), c, k)
  {
    assert k in SpinsOf(s, c);
    match t
    case Thread(q, a) => HandHoldingThread(s, c, k, q, a);
    case Sched(d, a) => SchedShape(s, d, a);
    case Intr(d, a) =>
  }

  lemma {:induction false} StaysHandHolding(s: State, ts: seq<Step>, s': State, c: nat, k: nat)
    requires Inv(s) == true && Reaches(s, ts, s') && Intr(c, HandRelease(k)) !in ts && HandHolding(s, c, k)
    ensures HandHolding(s', c, k)
    decreases |ts|
  {
    if ts != [] {
      assert ts[0] in ts;
      HandlerLockStays(s, ts[0], c, k);
      StepKeepsInv(s, ts[0]);
      StaysHandHolding(Next(s, ts[0]), ts[1..], s', c, k);
    }
  }

  /** Mutual exclusion for interrupt handlers: from acquire() to release(), the handler does not return and nobody else
      can acquire the lock. */
  lemma HandlerLockExcludes(s0: State, ts1: seq<Step>, s1: State, c: nat, k: nat, ts2: seq<Step>, s2: State, q: nat,
                            d: nat)
    requires Init(s0) && Reaches(s0, ts1, s1) && |s1.plock| == |s1.procs| && HandEnabled(s1, c, HandAcquire(k)) == true
    requires Reaches(HandNext(s1, c, HandAcquire(k)), ts2, s2) && Intr(c, HandRelease(k)) !in ts2
    ensures HandHolding(s2, c, k) && |s2.plock| == |s2.procs|
    ensures !ThreadEnabled(s2, q, AcquireSpin(k)) && !HandEnabled(s2, d, HandAcquire(k))
  {
    InitInv(s0);
    RunInv(s0, ts1, s1);
    StepKeepsInv(s1, Intr(c, HandAcquire(k)));
    StaysHandHolding(HandNext(s1, c, HandAcquire(k)), ts2, s2, c, k);
    RunInv(HandNext(s1, c, HandAcquire(k)), ts2, s2);
  }
}
