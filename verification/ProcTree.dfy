/** fork(), exit(), wait() and reparent() of kernel/proc.c as a step system over the process table.

    A step is one access to shared state under the lock that guards it: wait_lock for parents and for the
    move to ZOMBIE, p->lock for the other states.  Running and runnable are one state here, Live.  A process
    in wait() sleeps on its own address, where nobody else does, so wakeup(x) is one step on process x; the
    loop that looks for sleepers is in SleepWakeup. */
module ProcTree {
  import opened Common

  datatype ProcState = Unused | Used | Live | Asleep | Zombie

  /** Where a process is. */
  datatype Pc =
    | User
    | Forking(np: nat)        // allocproc() done
    | ForkLast(np: nat)       // np->parent set
    | Reparenting(i: nat)     // in exit(), has wait_lock, proc[i] is next
    | ReparentWake(i: nat)    // proc[i] was given to init, which is to be woken
    | ExitWake                // the parent is to be woken
    | ExitMark                // p->state = ZOMBIE is next
    | Gone
    | Scanning(i: nat, kids: bool)   // in wait(), has wait_lock, proc[i] is next
    | MustSleep(late: bool)   // has wait_lock, has children and was not killed; late: killed since
    | SleepOwn(late: bool)    // in sleep(), has its own p->lock, wait_lock released
    | InSleep(late: bool)

  /** maker is, for a process that fork() has not finished, the one that makes it; forker is the pid of the process
      that called fork(). */
  datatype Proc = Proc(state: ProcState, parent: Option<nat>, pid: nat, killed: bool, pc: Pc, maker: Option<nat>,
                       forker: nat)

  const NoProc := Proc(Unused, None, 0, false, User, None, 0)

  /** reaped holds the pids that wait() has returned, exited those of processes that have called exit(), byPid the
      process with a pid. */
  datatype State = State(procs: seq<Proc>, init: nat, nextpid: nat, wlock: Option<nat>, reaped: set<nat>,
                         exited: set<nat>, byPid: map<nat, nat>)

  datatype Step =
    | AllocProc(p: nat, np: nat)
    | ForkFails(p: nat)
    | SetParent(p: nat)
    | MakeRunnable(p: nat)
    | CallExit(p: nat)              // up to acquire(&wait_lock)
    | Reparent(p: nat)
    | WakeInit(p: nat)
    | WakeParent(p: nat)
    | BecomeZombie(p: nat)          // and release(&wait_lock)
    | CallWait(p: nat)              // up to acquire(&wait_lock)
    | Scan(p: nat)
    | Reap(p: nat)
    | CopyFails(p: nat)             // copyout() of the exit status fails
    | WaitFails(p: nat)             // no children, or killed
    | WaitGoesOn(p: nat)
    | CallSleep(p: nat)             // acquire(&p->lock); release(&wait_lock)
    | SleepMark(p: nat)
    | Rescan(p: nat)                // sleep() returned
    | Kill(p: nat, q: nat)

  predicate HoldsWait(pc: Pc) {
    pc.Reparenting? || pc.ReparentWake? || pc.ExitWake? || pc.ExitMark? || pc.Scanning? || pc.MustSleep?
  }

  /** Asleep in wait(), or about to be. */
  predicate Quiet(x: Proc) {
    x.pc.SleepOwn? || (x.pc.InSleep? && x.state.Asleep?)
  }

  predicate At(s: State, p: nat) {
    p < |s.procs| && s.procs[p].state.Live?
  }

  predicate OwnLockFree(s: State, q: nat) {
    q < |s.procs| && !s.procs[q].pc.SleepOwn?
  }

  predicate Enabled(s: State, t: Step) {
    t.p < |s.procs| &&
    var p := s.procs[t.p];
    match t
    case AllocProc(_, np) => At(s, t.p) && p.pc.User? && np < |s.procs| && s.procs[np].state.Unused?
    case ForkFails(_) => At(s, t.p) && p.pc.Forking? && p.pc.np < |s.procs|
    case SetParent(_) => At(s, t.p) && p.pc.Forking? && p.pc.np < |s.procs| && s.wlock.None?
    case MakeRunnable(_) => At(s, t.p) && p.pc.ForkLast? && p.pc.np < |s.procs|
    case CallExit(_) => At(s, t.p) && p.pc.User? && t.p != s.init && s.wlock.None?
    case Reparent(_) => At(s, t.p) && p.pc.Reparenting? && p.pc.i < |s.procs|
    case WakeInit(_) => At(s, t.p) && p.pc.ReparentWake? && OwnLockFree(s, s.init)
    case WakeParent(_) => At(s, t.p) && p.pc.ExitWake? && p.parent.Some? && OwnLockFree(s, p.parent.value)
    case BecomeZombie(_) => At(s, t.p) && p.pc.ExitMark?
    case CallWait(_) => At(s, t.p) && p.pc.User? && s.wlock.None?
    case Scan(_) => At(s, t.p) && p.pc.Scanning? && p.pc.i < |s.procs|
                    && !(s.procs[p.pc.i].parent == Some(t.p) && s.procs[p.pc.i].state.Zombie?)
    case Reap(_) => At(s, t.p) && p.pc.Scanning? && p.pc.i < |s.procs|
                    && s.procs[p.pc.i].parent == Some(t.p) && s.procs[p.pc.i].state.Zombie?
    case CopyFails(_) => At(s, t.p) && p.pc.Scanning? && p.pc.i < |s.procs|
                         && s.procs[p.pc.i].parent == Some(t.p) && s.procs[p.pc.i].state.Zombie?
    case WaitFails(_) => At(s, t.p) && p.pc.Scanning? && p.pc.i == |s.procs| && (!p.pc.kids || p.killed)
    case WaitGoesOn(_) => At(s, t.p) && p.pc.Scanning? && p.pc.i == |s.procs| && p.pc.kids && !p.killed
    case CallSleep(_) => At(s, t.p) && p.pc.MustSleep?
    case SleepMark(_) => At(s, t.p) && p.pc.SleepOwn?
    case Rescan(_) => At(s, t.p) && p.pc.InSleep? && s.wlock.None?
    case Kill(_, q) => At(s, t.p) && p.pc.User? && OwnLockFree(s, q)
  }

  function WithPc(s: State, p: nat, pc: Pc): State
    requires p < |s.procs|
  {
    s.(procs := s.procs[p := s.procs[p].(pc := pc)])
  }

  /** wakeup(x) */
  function Woken(p: Proc): Proc {
    if p.state.Asleep? then p.(state := Live) else p
  }

  function Killed(p: Proc): Proc {
    Woken(p).(killed := true, pc := if p.pc.MustSleep? then MustSleep(true) else p.pc)
  }

  /** allocproc(): process np is taken, with a new pid. */
  function Allocated(s: State, p: nat, np: nat): State
    requires p < |s.procs| && np < |s.procs|
  {
    s.(procs := s.procs[np := Proc(Used, None, s.nextpid, s.procs[np].killed, User, Some(p), s.procs[p].pid)]
                       [p := s.procs[p].(pc := Forking(np))],
       nextpid := s.nextpid + 1, byPid := s.byPid[s.nextpid := np])
  }

  /** Process p goes to pc' and changes process o. */
  function Both(s: State, p: nat, pc': Pc, o: nat, q: Proc): State
    requires p < |s.procs| && o < |s.procs|
  {
    s.(procs := s.procs[o := q][p := s.procs[p].(pc := pc')])
  }

  /** After entry i of the loop in reparent(). */
  function NextEntry(s: State, i: nat): Pc {
    if i + 1 == |s.procs| then ExitWake else Reparenting(i + 1)
  }

  function Apply(s: State, t: Step): State
    requires Enabled(s, t)
  {
    var p := s.procs[t.p];
    match t
    case AllocProc(_, np) => Allocated(s, t.p, np)
    case ForkFails(_) => Both(s, t.p, User, p.pc.np, NoProc)
    case SetParent(_) => Both(s, t.p, ForkLast(p.pc.np), p.pc.np, s.procs[p.pc.np].(parent := Some(t.p)))
    case MakeRunnable(_) => Both(s, t.p, User, p.pc.np, s.procs[p.pc.np].(state := Live, maker := None))
    case CallExit(_) => WithPc(s, t.p, Reparenting(0)).(wlock := Some(t.p), exited := s.exited + {p.pid})
    case Reparent(_) =>
      if s.procs[p.pc.i].parent == Some(t.p)
      then Both(s, t.p, ReparentWake(p.pc.i), p.pc.i, s.procs[p.pc.i].(parent := Some(s.init)))
      else WithPc(s, t.p, NextEntry(s, p.pc.i))
    case WakeInit(_) => Both(s, t.p, NextEntry(s, p.pc.i), s.init, Woken(s.procs[s.init]))
    case WakeParent(_) => Both(s, t.p, ExitMark, p.parent.value, Woken(s.procs[p.parent.value]))
    case BecomeZombie(_) => s.(procs := s.procs[t.p := p.(state := Zombie, pc := Gone)], wlock := None)
    case CallWait(_) => WithPc(s, t.p, Scanning(0, false)).(wlock := Some(t.p))
    case Scan(_) => WithPc(s, t.p, Scanning(p.pc.i + 1, p.pc.kids || s.procs[p.pc.i].parent == Some(t.p)))
    case Reap(_) => Both(s, t.p, User, p.pc.i, NoProc).(wlock := None, reaped := s.reaped + {s.procs[p.pc.i].pid})
    case CopyFails(_) => WithPc(s, t.p, User).(wlock := None)
    case WaitFails(_) => WithPc(s, t.p, User).(wlock := None)
    case WaitGoesOn(_) => WithPc(s, t.p, MustSleep(false))
    case CallSleep(_) => WithPc(s, t.p, SleepOwn(p.pc.late)).(wlock := None)
    case SleepMark(_) => s.(procs := s.procs[t.p := p.(state := Asleep, pc := InSleep(p.pc.late))])
    case Rescan(_) => WithPc(s, t.p, Scanning(0, false)).(wlock := Some(t.p))
    case Kill(_, q) => s.(procs := s.procs[q := Killed(s.procs[q])])
  }

  // ---------------------------------------------------------------- invariant

  predicate Makes(pc: Pc, np: nat) {
    pc == Forking(np) || pc == ForkLast(np)
  }

  predicate Forks(pc: Pc) {
    pc.Forking? || pc.ForkLast?
  }

  predicate Exits(pc: Pc) {
    pc.Reparenting? || pc.ReparentWake? || pc.ExitWake? || pc.ExitMark?
  }

  /** States and locks of a process. */
  ghost predicate KindOk(s: State, p: nat) {
    p < |s.procs| ==>
      var q := s.procs[p];
      && (HoldsWait(q.pc) <==> s.wlock == Some(p))
      && (q.state.Unused? ==> q.pc.User? && q.parent.None? && q.maker.None?)
      && (q.state.Live? || q.state.Asleep? || q.state.Zombie? ==> q.maker.None? && (p != s.init ==> q.parent.Some?))
      && (p == s.init ==> q.parent.None? && (q.state.Live? || q.state.Asleep?) && !Exits(q.pc))
      && (q.state.Asleep? ==> q.pc.InSleep?)
      && (q.state.Zombie? <==> q.pc.Gone?)
      && (q.pc.Reparenting? || q.pc.ReparentWake? ==> q.pc.i < |s.procs|)
      && (Exits(q.pc) || q.state.Zombie? ==> q.pid in s.exited)
  }

  /** A process that is being made, and the one that makes it. */
  ghost predicate MakeOk(s: State, p: nat) {
    p < |s.procs| ==>
      var q := s.procs[p];
      && (q.state.Used? ==>
           && q.pc.User? && q.maker.Some? && q.maker.value < |s.procs|
           && Makes(s.procs[q.maker.value].pc, p)
           && q.parent == (if s.procs[q.maker.value].pc.ForkLast? then q.maker else None))
      && (Forks(q.pc) ==>
            q.pc.np < |s.procs| && q.pc.np != p && s.procs[q.pc.np].state.Used? && s.procs[q.pc.np].maker == Some(p)
            && s.procs[q.pc.np].pid > q.pid && s.procs[q.pc.np].forker == q.pid)
  }

  /** Pids are unique, and older for ancestors. */
  ghost predicate PidOk(s: State, p: nat) {
    p < |s.procs| && s.init < |s.procs| && !s.procs[p].state.Unused? ==>
      var pid := s.procs[p].pid;
      && pid < s.nextpid && pid !in s.reaped && pid in s.byPid && s.byPid[pid] == p
      && (p != s.init ==> pid > s.procs[s.init].pid)
  }

  ghost predicate ProcOk(s: State, p: nat) {
    KindOk(s, p) && MakeOk(s, p) && PidOk(s, p)
  }

  /** A process and its parent. */
  ghost predicate LinkOk(s: State, q: nat) {
    q < |s.procs| && s.procs[q].parent.Some? ==>
      var x := s.procs[q].parent.value;
      && x < |s.procs| && x != q && (s.procs[x].state.Live? || s.procs[x].state.Asleep?)
      && s.procs[x].pid < s.procs[q].pid
      && (s.procs[q].state.Zombie? && Quiet(s.procs[x]) ==>
            x == s.init && s.wlock.Some? && s.wlock.value < |s.procs| && s.procs[s.wlock.value].pc.ReparentWake?)
      && (s.procs[q].pc.ExitMark? ==> !Quiet(s.procs[x]))
      && Passed(s.procs[x].pc, q, s.procs[q].state.Zombie?)
      && (s.procs[x].pid == s.procs[q].forker || (x == s.init && s.procs[q].forker in s.exited))
  }

  /** Process q can be a child of a process that is at pc. */
  predicate Passed(pc: Pc, q: nat, zombie: bool) {
    match pc
    case Reparenting(i) => q >= i
    case ReparentWake(i) => q > i
    case ExitWake => false
    case ExitMark => false
    case Scanning(i, _) => zombie ==> q >= i
    case MustSleep(_) => !zombie
    case _ => true
  }

  ghost predicate Inv(s: State) {
    && s.init < |s.procs|
    && (forall p :: ProcOk(s, p))
    && (forall q :: LinkOk(s, q))
    && (forall r :: r in s.reaped ==> r < s.nextpid)
  }

  lemma Known(s: State, p: nat)
    requires Inv(s)
    ensures ProcOk(s, p) && LinkOk(s, p)
  {
  }

  // ---------------------------------------------------------------- steps of one process

  /** Process p moves from pc to pc', and only wait_lock changes hands otherwise. */
  ghost predicate Moves(s: State, s': State, p: nat, pc': Pc) {
    p < |s.procs| && s.init < |s.procs| && s.procs[p].state.Live? &&
    var pc := s.procs[p].pc;
    && s' == WithPc(s, p, pc').(wlock := s'.wlock, exited := s'.exited) && s.exited <= s'.exited
    && (Exits(pc') ==> s.procs[p].pid in s'.exited)
    && (s.wlock.None? || s.wlock == Some(p)) && s'.wlock == (if HoldsWait(pc') then Some(p) else None)
    && !Forks(pc) && !Forks(pc') && !pc.ReparentWake? && !pc'.ReparentWake? && !pc'.ExitMark? && !pc'.Gone?
    && (p == s.init ==> !Exits(pc')) && (pc'.Reparenting? ==> pc'.i < |s.procs|)
    && (forall x :: Follows(s, p, pc', x))
  }

  ghost predicate Follows(s: State, p: nat, pc': Pc, x: nat) {
    x < |s.procs| && p < |s.procs| && s.procs[x].parent == Some(p) ==>
      && Passed(pc', x, s.procs[x].state.Zombie?)
      && (s.procs[x].state.Zombie? && Quiet(s.procs[p].(pc := pc')) ==> Quiet(s.procs[p]))
  }

  lemma MovesProcs(s: State, s': State, p: nat, pc': Pc, x: nat)
    requires Inv(s) && Moves(s, s', p, pc')
    ensures ProcOk(s', x)
  {
    Known(s, p);
    Known(s, x);
  }

  lemma MovesLinks(s: State, s': State, p: nat, pc': Pc, x: nat)
    requires Inv(s) && Moves(s, s', p, pc')
    ensures LinkOk(s', x)
  {
    Known(s, p);
    Known(s, x);
    assert Follows(s, p, pc', x);
  }

  lemma MovesOk(s: State, s': State, p: nat, pc': Pc)
    requires Inv(s) && Moves(s, s', p, pc')
    ensures Inv(s')
  {
    forall x ensures ProcOk(s', x) { MovesProcs(s, s', p, pc', x); }
    forall x ensures LinkOk(s', x) { MovesLinks(s, s', p, pc', x); }
  }

  /** reparent() looks at a process that is not a child. */
  predicate PassesBy(s: State, t: Step) {
    t.Reparent? && Enabled(s, t) && s.procs[s.procs[t.p].pc.i].parent != Some(t.p)
  }

  lemma ExitMoves(s: State, t: Step)
    requires Inv(s) && Enabled(s, t) && (t.CallExit? || PassesBy(s, t))
    ensures Inv(Apply(s, t))
  {
    var pc' := Apply(s, t).procs[t.p].pc;
    Known(s, t.p);
    forall x ensures Follows(s, t.p, pc', x) { Known(s, x); }
    MovesOk(s, Apply(s, t), t.p, pc');
  }

  lemma WaitMoves(s: State, t: Step)
    requires Inv(s) && Enabled(s, t)
    requires t.CallWait? || t.Scan? || t.CopyFails? || t.WaitFails? || t.WaitGoesOn? || t.Rescan? || t.CallSleep?
    ensures Inv(Apply(s, t)) == true
  {
    var pc' := Apply(s, t).procs[t.p].pc;
    Known(s, t.p);
    forall x ensures Follows(s, t.p, pc', x) { WaitFollows(s, t, x); }
    MovesOk(s, Apply(s, t), t.p, pc');
  }

  lemma WaitFollows(s: State, t: Step, x: nat)
    requires Inv(s) && Enabled(s, t)
    requires t.CallWait? || t.Scan? || t.CopyFails? || t.WaitFails? || t.WaitGoesOn? || t.Rescan? || t.CallSleep?
    ensures Follows(s, t.p, Apply(s, t).procs[t.p].pc, x)
  {
    Known(s, x);
  }

  // ---------------------------------------------------------------- steps that change another process

  function Reparented(s: State, p: nat, i: nat): State
    requires p < |s.procs| && i < |s.procs|
  {
    Both(s, p, ReparentWake(i), i, s.procs[i].(parent := Some(s.init)))
  }

  function InitWoken(s: State, p: nat): State
    requires p < |s.procs| && s.init < |s.procs| && s.procs[p].pc.ReparentWake?
  {
    Both(s, p, NextEntry(s, s.procs[p].pc.i), s.init, Woken(s.procs[s.init]))
  }

  function ParentWoken(s: State, p: nat, o: nat): State
    requires p < |s.procs| && o < |s.procs|
  {
    Both(s, p, ExitMark, o, Woken(s.procs[o]))
  }

  function Died(s: State, p: nat): State
    requires p < |s.procs|
  {
    s.(procs := s.procs[p := s.procs[p].(state := Zombie, pc := Gone)], wlock := None)
  }

  function Collected(s: State, p: nat, i: nat): State
    requires p < |s.procs| && i < |s.procs|
  {
    Both(s, p, User, i, NoProc).(wlock := None, reaped := s.reaped + {s.procs[i].pid})
  }

  function Marked(s: State, p: nat): State
    requires p < |s.procs| && s.procs[p].pc.SleepOwn?
  {
    s.(procs := s.procs[p := s.procs[p].(state := Asleep, pc := InSleep(s.procs[p].pc.late))])
  }

  function AfterKill(s: State, q: nat): State
    requires q < |s.procs|
  {
    s.(procs := s.procs[q := Killed(s.procs[q])])
  }

  lemma AllocProcProcs(s: State, p: nat, np: nat, x: nat)
    requires Inv(s) && At(s, p) && s.procs[p].pc.User? && np < |s.procs| && s.procs[np].state.Unused?
    ensures ProcOk(Allocated(s, p, np), x)
  {
    Known(s, p);
    Known(s, x);
    Known(s, np);
  }

  lemma AllocProcLinks(s: State, p: nat, np: nat, x: nat)
    requires Inv(s) && At(s, p) && s.procs[p].pc.User? && np < |s.procs| && s.procs[np].state.Unused?
    ensures LinkOk(Allocated(s, p, np), x)
  {
    Known(s, p);
    Known(s, x);
    Known(s, np);
  }

  lemma ForkFailsProcs(s: State, p: nat, x: nat)
    requires Inv(s) && At(s, p) && s.procs[p].pc.Forking? && s.procs[p].pc.np < |s.procs|
    ensures ProcOk(Both(s, p, User, s.procs[p].pc.np, NoProc), x)
  {
    Known(s, p);
    Known(s, x);
    Known(s, s.procs[p].pc.np);
  }

  lemma ForkFailsLinks(s: State, p: nat, x: nat)
    requires Inv(s) && At(s, p) && s.procs[p].pc.Forking? && s.procs[p].pc.np < |s.procs|
    ensures LinkOk(Both(s, p, User, s.procs[p].pc.np, NoProc), x)
  {
    Known(s, p);
    Known(s, x);
    Known(s, s.procs[p].pc.np);
  }

  lemma SetParentProcs(s: State, p: nat, x: nat)
    requires Inv(s) && At(s, p) && s.procs[p].pc.Forking? && s.wlock.None? && s.procs[p].pc.np < |s.procs|
    ensures ProcOk(Both(s, p, ForkLast(s.procs[p].pc.np), s.procs[p].pc.np,
        s.procs[s.procs[p].pc.np].(parent := Some(p))), x)
  {
    Known(s, p);
    Known(s, x);
    Known(s, s.procs[p].pc.np);
  }

  lemma SetParentLinks(s: State, p: nat, x: nat)
    requires Inv(s) && At(s, p) && s.procs[p].pc.Forking? && s.wlock.None? && s.procs[p].pc.np < |s.procs|
    ensures LinkOk(Both(s, p, ForkLast(s.procs[p].pc.np), s.procs[p].pc.np,
        s.procs[s.procs[p].pc.np].(parent := Some(p))), x)
  {
    Known(s, p);
    Known(s, x);
    Known(s, s.procs[p].pc.np);
  }

  lemma MakeRunnableProcs(s: State, p: nat, x: nat)
    requires Inv(s) && At(s, p) && s.procs[p].pc.ForkLast? && s.procs[p].pc.np < |s.procs|
    ensures ProcOk(Both(s, p, User, s.procs[p].pc.np, s.procs[s.procs[p].pc.np].(state := Live, maker := None)), x)
  {
    Known(s, p);
    Known(s, x);
    Known(s, s.procs[p].pc.np);
  }

  lemma MakeRunnableLinks(s: State, p: nat, x: nat)
    requires Inv(s) && At(s, p) && s.procs[p].pc.ForkLast? && s.procs[p].pc.np < |s.procs|
    ensures LinkOk(Both(s, p, User, s.procs[p].pc.np, s.procs[s.procs[p].pc.np].(state := Live, maker := None)), x)
  {
    Known(s, p);
    Known(s, x);
    Known(s, s.procs[p].pc.np);
  }

  lemma ReparentProcs(s: State, p: nat, i: nat, x: nat)
    requires Inv(s) && At(s, p) && s.procs[p].pc == Reparenting(i) && i < |s.procs| && s.procs[i].parent == Some(p)
    ensures ProcOk(Reparented(s, p, i), x)
  {
    Known(s, p);
    Known(s, x);
    Known(s, i);
    Known(s, s.init);
  }

  lemma ReparentLinks(s: State, p: nat, i: nat, x: nat)
    requires Inv(s) && At(s, p) && s.procs[p].pc == Reparenting(i) && i < |s.procs| && s.procs[i].parent == Some(p)
    ensures LinkOk(Reparented(s, p, i), x)
  {
    Known(s, p);
    Known(s, x);
    Known(s, i);
    Known(s, s.init);
  }

  lemma WakeInitProcs(s: State, p: nat, x: nat)
    requires Inv(s) && At(s, p) && s.procs[p].pc.ReparentWake? && OwnLockFree(s, s.init)
    ensures ProcOk(InitWoken(s, p), x)
  {
    Known(s, p);
    Known(s, x);
    Known(s, s.init);
  }

  lemma WakeInitLinks(s: State, p: nat, x: nat)
    requires Inv(s) && At(s, p) && s.procs[p].pc.ReparentWake? && OwnLockFree(s, s.init)
    ensures LinkOk(InitWoken(s, p), x)
  {
    Known(s, p);
    Known(s, x);
    Known(s, s.init);
  }

  lemma WakeParentProcs(s: State, p: nat, o: nat, x: nat)
    requires Inv(s) && At(s, p) && s.procs[p].pc.ExitWake? && s.procs[p].parent == Some(o) && OwnLockFree(s, o)
    ensures ProcOk(ParentWoken(s, p, o), x)
  {
    Known(s, p);
    Known(s, x);
    Known(s, o);
  }

  lemma WakeParentLinks(s: State, p: nat, o: nat, x: nat)
    requires Inv(s) && At(s, p) && s.procs[p].pc.ExitWake? && s.procs[p].parent == Some(o) && OwnLockFree(s, o)
    ensures LinkOk(ParentWoken(s, p, o), x)
  {
    Known(s, p);
    Known(s, x);
    Known(s, o);
  }

  lemma BecomeZombieProcs(s: State, p: nat, o: nat, x: nat)
    requires Inv(s) && At(s, p) && s.procs[p].pc.ExitMark? && s.procs[p].parent == Some(o)
    ensures ProcOk(Died(s, p), x)
  {
    Known(s, p);
    Known(s, x);
    Known(s, o);
  }

  lemma BecomeZombieLinks(s: State, p: nat, o: nat, x: nat)
    requires Inv(s) && At(s, p) && s.procs[p].pc.ExitMark? && s.procs[p].parent == Some(o)
    ensures LinkOk(Died(s, p), x)
  {
    Known(s, p);
    Known(s, x);
    Known(s, o);
  }

  lemma ReapProcs(s: State, p: nat, i: nat, x: nat)
    requires Inv(s) && At(s, p) && s.procs[p].pc.Scanning? && s.procs[p].pc.i == i < |s.procs|
    requires s.procs[i].parent == Some(p) && s.procs[i].state.Zombie?
    ensures ProcOk(Collected(s, p, i), x)
  {
    Known(s, p);
    Known(s, x);
    Known(s, i);
  }

  lemma ReapLinks(s: State, p: nat, i: nat, x: nat)
    requires Inv(s) && At(s, p) && s.procs[p].pc.Scanning? && s.procs[p].pc.i == i < |s.procs|
    requires s.procs[i].parent == Some(p) && s.procs[i].state.Zombie?
    ensures LinkOk(Collected(s, p, i), x)
  {
    Known(s, p);
    Known(s, x);
    Known(s, i);
  }

  lemma SleepMarkProcs(s: State, p: nat, x: nat)
    requires Inv(s) && At(s, p) && s.procs[p].pc.SleepOwn?
    ensures ProcOk(Marked(s, p), x)
  {
    Known(s, p);
    Known(s, x);
    Known(s, p);
  }

  lemma SleepMarkLinks(s: State, p: nat, x: nat)
    requires Inv(s) && At(s, p) && s.procs[p].pc.SleepOwn?
    ensures LinkOk(Marked(s, p), x)
  {
    Known(s, p);
    Known(s, x);
    Known(s, p);
  }

  lemma KillKind(s: State, p: nat, x: nat)
    requires Inv(s) && OwnLockFree(s, p)
    ensures KindOk(AfterKill(s, p), x)
  {
    Known(s, x);
  }

  lemma KillMake(s: State, p: nat, x: nat)
    requires Inv(s) && OwnLockFree(s, p)
    ensures MakeOk(AfterKill(s, p), x)
  {
    Known(s, x);
    Known(s, p);
  }

  lemma KillProcs(s: State, p: nat, x: nat)
    requires Inv(s) && OwnLockFree(s, p)
    ensures ProcOk(AfterKill(s, p), x)
  {
    KillKind(s, p, x);
    KillMake(s, p, x);
    Known(s, x);
  }

  lemma KillLinks(s: State, p: nat, x: nat)
    requires Inv(s) && OwnLockFree(s, p)
    ensures LinkOk(AfterKill(s, p), x)
  {
    Known(s, p);
    Known(s, x);
    Known(s, s.init);
  }

  // ---------------------------------------------------------------- all steps, all runs

  lemma OtherSteps(s: State, t: Step, x: nat)
    requires Inv(s) && Enabled(s, t)
    requires t.AllocProc? || t.ForkFails? || t.SetParent? || t.MakeRunnable? || (t.Reparent? && !PassesBy(s, t))
        || t.WakeInit?
             || t.WakeParent? || t.BecomeZombie? || t.Reap? || t.SleepMark? || t.Kill?
    ensures ProcOk(Apply(s, t), x) && LinkOk(Apply(s, t), x)
  {
    match t
    case AllocProc(p, np) => AllocProcProcs(s, p, np, x); AllocProcLinks(s, p, np, x);
    case ForkFails(p) => ForkFailsProcs(s, p, x); ForkFailsLinks(s, p, x);
    case SetParent(p) => SetParentProcs(s, p, x); SetParentLinks(s, p, x);
    case MakeRunnable(p) => MakeRunnableProcs(s, p, x); MakeRunnableLinks(s, p, x);
    case Reparent(p) => ReparentProcs(s, p, s.procs[p].pc.i, x); ReparentLinks(s, p, s.procs[p].pc.i, x);
    case WakeInit(p) => WakeInitProcs(s, p, x); WakeInitLinks(s, p, x);
    case WakeParent(p) =>
      var o := s.procs[p].parent.value;
      WakeParentProcs(s, p, o, x);
      WakeParentLinks(s, p, o, x);
    case BecomeZombie(p) =>
      Known(s, p);
      var o := s.procs[p].parent.value;
      BecomeZombieProcs(s, p, o, x);
      BecomeZombieLinks(s, p, o, x);
    case Reap(p) => ReapProcs(s, p, s.procs[p].pc.i, x); ReapLinks(s, p, s.procs[p].pc.i, x);
    case SleepMark(p) => SleepMarkProcs(s, p, x); SleepMarkLinks(s, p, x);
    case Kill(_, q) => KillProcs(s, q, x); KillLinks(s, q, x);
  }

  lemma StepKeepsInv(s: State, t: Step)
    requires Inv(s) && Enabled(s, t)
    ensures Inv(Apply(s, t))
  {
    if t.CallExit? || PassesBy(s, t) {
      ExitMoves(s, t);
    } else if t.CallWait? || t.Scan? || t.CopyFails? || t.WaitFails? || t.WaitGoesOn? || t.Rescan? || t.CallSleep? {
      WaitMoves(s, t);
    } else {
      var s' := Apply(s, t);
      forall x ensures ProcOk(s', x) { OtherSteps(s, t, x); }
      forall x ensures LinkOk(s', x) { OtherSteps(s, t, x); }
      if t.Reap? { Known(s, s.procs[t.p].pc.i); }
    }
  }

  // ---------------------------------------------------------------- what wait() knows

  predicate IsChild(s: State, p: nat, q: nat) {
    q < |s.procs| && s.procs[q].parent == Some(p)
  }

  ghost predicate HasChild(s: State, p: nat, n: nat) {
    exists q: nat :: q < n && IsChild(s, p, q)
  }

  /** While it scans, wait() knows about the part of the table that it has seen; a process that is going to sleep has
      children, and was killed only if that happened since it looked. */
  ghost predicate WaitOk(s: State, p: nat) {
    p < |s.procs| ==>
      var q := s.procs[p];
      match q.pc
      case Scanning(i, kids) => i <= |s.procs| && (kids <==> HasChild(s, p, i))
      case MustSleep(late) => HasChild(s, p, |s.procs|) && (q.killed <==> late)
      case SleepOwn(late) => HasChild(s, p, |s.procs|) && (q.killed <==> late)
      case InSleep(late) => HasChild(s, p, |s.procs|) && (q.state.Asleep? ==> (q.killed <==> late))
      case _ => true
  }

  ghost predicate WaitInv(s: State) {
    forall p :: WaitOk(s, p)
  }

  /** The steps that change who is whose child. */
  predicate Moved(s: State, t: Step, x: nat) {
    match t
    case SetParent(p) => x == p
    case Reap(p) => x == p
    case Reparent(p) => x == p || x == s.init
    case _ => false
  }

  lemma SameChild(s: State, t: Step, x: nat, q: nat)
    requires Inv(s) && Enabled(s, t) && !Moved(s, t, x)
    ensures IsChild(Apply(s, t), x, q) <==> IsChild(s, x, q)
  {
    if q < |s.procs| {
      Known(s, t.p);
      if t.AllocProc? || t.ForkFails? || t.SetParent? || t.MakeRunnable? {
        if t.AllocProc? { Known(s, t.np); } else { Known(s, s.procs[t.p].pc.np); }
      } else if !t.Reap? && !t.Reparent? {
        ParentStays(s, t, q);
      }
    }
  }

  lemma ParentStays(s: State, t: Step, q: nat)
    requires Enabled(s, t) && q < |s.procs| && !t.Reap? && !t.Reparent?
    requires !(t.AllocProc? || t.ForkFails? || t.SetParent? || t.MakeRunnable?)
    ensures Apply(s, t).procs[q].parent == s.procs[q].parent
  {
  }

  lemma SameChildren(s: State, t: Step, x: nat, n: nat)
    requires Inv(s) && Enabled(s, t) && !Moved(s, t, x)
    ensures HasChild(Apply(s, t), x, n) <==> HasChild(s, x, n)
  {
    forall q: nat ensures IsChild(Apply(s, t), x, q) <==> IsChild(s, x, q) { SameChild(s, t, x, q); }
  }

  /** Processes are given to init and not taken from it by others. */
  lemma InitKeeps(s: State, t: Step, n: nat)
    requires Inv(s) && Enabled(s, t) && t.Reparent? && HasChild(s, s.init, n)
    ensures HasChild(Apply(s, t), s.init, n)
  {
    var q: nat :| q < n && IsChild(s, s.init, q);
    assert IsChild(Apply(s, t), s.init, q);
  }

  /** A step of another process leaves x where it is, or takes it out of wait(). */
  lemma OtherStays(s: State, t: Step, x: nat)
    requires Inv(s) && Enabled(s, t) && x < |s.procs| && x != t.p && Waits(Apply(s, t).procs[x].pc)
    ensures var q, q' := s.procs[x], Apply(s, t).procs[x];
            if t.Kill? && t.q == x then q' == Killed(q) else q'.pc == q.pc && q'.killed == q.killed && Calmer(q, q')
  {
  }

  predicate Waits(pc: Pc) {
    pc.Scanning? || pc.MustSleep? || pc.SleepOwn? || pc.InSleep?
  }

  predicate Calmer(q: Proc, q': Proc) {
    q'.state.Asleep? ==> q.state.Asleep?
  }

  lemma OtherWaitOk(s: State, t: Step, x: nat)
    requires Inv(s) && WaitOk(s, x) && Enabled(s, t) && x < |s.procs| && x != t.p
    ensures WaitOk(Apply(s, t), x)
  {
    var q, s' := s.procs[x], Apply(s, t);
    if Waits(s'.procs[x].pc) {
      OtherStays(s, t, x);
      Known(s, x);
      Known(s, t.p);
      var n := if q.pc.Scanning? then q.pc.i else |s.procs|;
      if Moved(s, t, x) {
        if HasChild(s, x, n) { InitKeeps(s, t, n); }
      } else {
        SameChildren(s, t, x, n);
      }
    }
  }

  /** One more process seen. */
  lemma OneMoreChild(s: State, p: nat, i: nat)
    ensures HasChild(s, p, i + 1) <==> HasChild(s, p, i) || IsChild(s, p, i)
  {
    if HasChild(s, p, i) {
      var q: nat :| q < i && IsChild(s, p, q);
    }
    if IsChild(s, p, i) { assert i < i + 1; }
  }

  lemma OwnWaitOk(s: State, t: Step)
    requires Inv(s) && WaitOk(s, t.p) && Enabled(s, t)
    ensures WaitOk(Apply(s, t), t.p)
  {
    var q := s.procs[t.p];
    if Waits(Apply(s, t).procs[t.p].pc) {
      Known(s, t.p);
      SameChildren(s, t, t.p, if q.pc.Scanning? then q.pc.i else |s.procs|);
      if t.Scan? {
        OneMoreChild(s, t.p, q.pc.i);
        SameChildren(s, t, t.p, q.pc.i + 1);
      }
    }
  }

  lemma StepKeepsWaitInv(s: State, t: Step)
    requires Inv(s) && WaitInv(s) && Enabled(s, t)
    ensures WaitInv(Apply(s, t))
  {
    var s' := Apply(s, t);
    forall x: nat ensures WaitOk(s', x) {
      assert WaitOk(s, x);
      if x == t.p { OwnWaitOk(s, t); } else if x < |s.procs| { OtherWaitOk(s, t, x); }
    }
  }

  /** Only init, with the first pid. */
  ghost predicate Start(s: State) {
    && s.init < |s.procs| && s.procs[s.init] == Proc(Live, None, 1, false, User, None, 0)
    && (forall p :: 0 <= p < |s.procs| && p != s.init ==> s.procs[p] == NoProc)
    && s.nextpid == 2 && s.wlock.None? && s.reaped == {} && s.exited == {} && s.byPid == map[1 := s.init]
  }

  ghost predicate Reaches(s0: State, ts: seq<Step>, s: State)
    decreases |ts|
  {
    if ts == [] then s == s0 else Enabled(s0, ts[0]) && Reaches(Apply(s0, ts[0]), ts[1..], s)
  }

  lemma StartInv(s: State)
    requires Start(s)
    ensures Inv(s) && WaitInv(s)
  {
  }

  lemma {:induction false} RunInv(s0: State, ts: seq<Step>, s: State)
    requires Inv(s0) && WaitInv(s0) && Reaches(s0, ts, s)
    ensures Inv(s) && WaitInv(s)
    decreases |ts|
  {
    if ts != [] {
      StepKeepsInv(s0, ts[0]);
      StepKeepsWaitInv(s0, ts[0]);
      RunInv(Apply(s0, ts[0]), ts[1..], s);
    }
  }

  /** In every reachable state a process that fork() has published has a parent that is neither a zombie
      nor unused and has a smaller pid; only init has none. */
  lemma ParentsAreAlive(s0: State, ts: seq<Step>, s: State, q: nat)
    requires Start(s0) && Reaches(s0, ts, s) && q < |s.procs| && q != s.init
    requires s.procs[q].state.Live? || s.procs[q].state.Asleep? || s.procs[q].state.Zombie?
    ensures s.procs[q].parent.Some? && s.procs[q].parent.value < |s.procs|
    ensures var x := s.procs[s.procs[q].parent.value]; (x.state.Live? || x.state.Asleep?) && x.pid < s.procs[q].pid
  {
    StartInv(s0);
    RunInv(s0, ts, s);
    Known(s, q);
  }

  /** n steps up from q. */
  function Up(s: State, q: nat, n: nat): nat {
    if n == 0 then q
    else
      var x := Up(s, q, n - 1);
      if x < |s.procs| && s.procs[x].parent.Some? then s.procs[x].parent.value else x
  }

  lemma {:induction false} UpFrom(s: State, q: nat, n: nat)
    requires q < |s.procs| && s.procs[q].parent.Some?
    ensures Up(s, s.procs[q].parent.value, n) == Up(s, q, n + 1)
  {
    if n > 0 { UpFrom(s, q, n - 1); }
  }

  lemma {:induction false} RootOf(s: State, q: nat) returns (n: nat)
    requires Inv(s) && q < |s.procs| && (s.procs[q].state.Live? || s.procs[q].state.Asleep? || s.procs[q].state.Zombie?)
    ensures Up(s, q, n) == s.init
    decreases s.procs[q].pid
  {
    if q == s.init { return 0; }
    Known(s, q);
    var m := RootOf(s, s.procs[q].parent.value);
    UpFrom(s, q, m);
    n := m + 1;
  }

  /** Parents form a tree with init at its root: every process reaches init by going up. */
  lemma InitIsRoot(s0: State, ts: seq<Step>, s: State, q: nat) returns (n: nat)
    requires Start(s0) && Reaches(s0, ts, s) && q < |s.procs|
    requires s.procs[q].state.Live? || s.procs[q].state.Asleep? || s.procs[q].state.Zombie?
    ensures Up(s, q, n) == s.init
  {
    StartInv(s0);
    RunInv(s0, ts, s);
    n := RootOf(s, q);
  }

  /** Whenever wait_lock is free, no parent sleeps in wait() while it has a zombie child. */
  lemma NoParentSleepsOnZombie(s0: State, ts: seq<Step>, s: State, q: nat)
    requires Start(s0) && Reaches(s0, ts, s) && q < |s.procs| && s.procs[q].state.Zombie? && s.wlock.None?
    ensures s.procs[q].parent.Some? && s.procs[q].parent.value < |s.procs|
    ensures !s.procs[s.procs[q].parent.value].state.Asleep?
  {
    StartInv(s0);
    RunInv(s0, ts, s);
    Known(s, q);
    Known(s, s.procs[q].parent.value);
  }

  /** wait() returns each pid at most once, and the pid of one process only. */
  lemma ReapedOnce(s0: State, ts: seq<Step>, s: State, t: Step)
    requires Start(s0) && Reaches(s0, ts, s) && Enabled(s, t) && t.Reap?
    ensures s.procs[s.procs[t.p].pc.i].pid !in s.reaped && s.procs[s.procs[t.p].pc.i].pid in Apply(s, t).reaped
  {
    StartInv(s0);
    RunInv(s0, ts, s);
    Known(s, s.procs[t.p].pc.i);
  }

  lemma {:induction false} ReachesOneMore(s0: State, ts: seq<Step>, s: State, t: Step)
    requires Reaches(s0, ts, s) && Enabled(s, t)
    ensures Reaches(s0, ts + [t], Apply(s, t))
    decreases |ts|
  {
    if ts == [] {
      assert (ts + [t])[1..] == [];
    } else {
      ReachesOneMore(Apply(s0, ts[0]), ts[1..], s, t);
      assert (ts + [t])[1..] == ts[1..] + [t];
    }
  }

  // ---------------------------------------------------------------- fork() and exit() to their end

  /** fork() of a process for which allocproc() finds a free entry, with wait_lock free: the child is there, with a new
      pid and the caller as its parent, and nothing else has changed. */
  lemma ForkMakesChild(s: State, p: nat, np: nat) returns (ts: seq<Step>)
    requires At(s, p) && s.procs[p].pc.User? && np < |s.procs| && s.procs[np].state.Unused? && s.wlock.None?
    ensures var child := Proc(Live, Some(p), s.nextpid, s.procs[np].killed, User, None, s.procs[p].pid);
            Reaches(s, ts, s.(procs := s.procs[np := child], nextpid := s.nextpid + 1,
                              byPid := s.byPid[s.nextpid := np]))
  {
    var s1 := Apply(s, AllocProc(p, np));
    ReachesOneMore(s, [], s, AllocProc(p, np));
    ts := [] + [AllocProc(p, np)];
    var s2 := Apply(s1, SetParent(p));
    ReachesOneMore(s, ts, s1, SetParent(p));
    ts := ts + [SetParent(p)];
    ReachesOneMore(s, ts, s2, MakeRunnable(p));
    ts := ts + [MakeRunnable(p)];
    var child := Proc(Live, Some(p), s.nextpid, s.procs[np].killed, User, None, s.procs[p].pid);
    assert Apply(s2, MakeRunnable(p)).procs == s.procs[np := child];
  }

  /** From s to s', the children of p from number i on, and before n, went to init; no other process has another
      parent. */
  ghost predicate GivenAt(s: State, s': State, p: nat, i: nat, n: nat, q: nat) {
    q < |s.procs| == |s'.procs| ==>
      s'.procs[q].parent == if i <= q < n && s.procs[q].parent == Some(p) then Some(s.init) else s.procs[q].parent
  }

  ghost predicate Given(s: State, s': State, p: nat, i: nat, n: nat) {
    |s'.procs| == |s.procs| && s'.init == s.init && forall q: nat :: GivenAt(s, s', p, i, n, q)
  }

  /** A set of states that satisfy the invariant and that no step leaves. */
  ghost predicate Fine(reach: State -> bool, s: State) {
    reach(s) ==> Inv(s)
  }

  ghost predicate Stays(reach: State -> bool, s: State, t: Step) {
    reach(s) && Enabled(s, t) ==> reach(Apply(s, t))
  }

  ghost predicate Closed(reach: State -> bool) {
    (forall s :: Fine(reach, s)) && (forall s, t :: Stays(reach, s, t))
  }

  lemma Goes(reach: State -> bool, s: State, t: Step)
    requires Closed(reach) == true && reach(s) && Enabled(s, t)
    ensures reach(Apply(s, t))
  {
    assert Stays(reach, s, t);
  }

  /** A process that can be woken: one that is about to sleep gets to sleep first. */
  lemma LockComesFree(reach: State -> bool, s: State, x: nat, p: nat) returns (s1: State)
    requires Closed(reach) == true && reach(s) && x < |s.procs| && p < |s.procs| && p != x
    ensures reach(s1) && OwnLockFree(s1, x) && Given(s, s1, p, 0, 0)
    ensures s1.procs[p] == s.procs[p] && s1.wlock == s.wlock
  {
    s1 := s;
    if s.procs[x].pc.SleepOwn? {
      SleepOwnIsLive(reach, s, x);
      Goes(reach, s, SleepMark(x));
      s1 := Apply(s, SleepMark(x));
    }
  }

  lemma SleepOwnIsLive(reach: State -> bool, s: State, x: nat)
    requires Closed(reach) == true && reach(s) && x < |s.procs| && s.procs[x].pc.SleepOwn?
    ensures s.procs[x].state.Live?
  {
    assert Fine(reach, s);
    Known(s, x);
  }

  /** A process in exit() is not init. */
  lemma NotInit(reach: State -> bool, s: State, p: nat)
    requires Closed(reach) == true && reach(s) && At(s, p) && Exits(s.procs[p].pc)
    ensures p != s.init && s.init < |s.procs|
    ensures s.procs[p].parent.Some? && s.procs[p].parent.value < |s.procs| && s.procs[p].parent.value != p
  {
    assert Fine(reach, s);
    Known(s, p);
  }

  lemma WakeInitRuns(reach: State -> bool, s: State, p: nat, i: nat) returns (s1: State)
    requires Closed(reach) == true && reach(s) && At(s, p) && s.procs[p].pc == ReparentWake(i) && i < |s.procs|
    ensures reach(s1) && At(s1, p) && s1.procs[p].pc == NextEntry(s, i) && Given(s, s1, p, 0, 0)
  {
    NotInit(reach, s, p);
    var s2 := LockComesFree(reach, s, s.init, p);
    Goes(reach, s2, WakeInit(p));
    s1 := Apply(s2, WakeInit(p));
    forall q: nat ensures GivenAt(s, s1, p, 0, 0, q) { assert GivenAt(s, s2, p, 0, 0, q); }
  }

  /** One process in the loop of reparent(). */
  lemma ReparentOne(reach: State -> bool, s: State, p: nat, i: nat) returns (s1: State)
    requires Closed(reach) == true && reach(s) && At(s, p) && s.procs[p].pc == Reparenting(i) && i < |s.procs|
    ensures reach(s1) && At(s1, p) && s1.procs[p].pc == NextEntry(s, i) && Given(s, s1, p, i, i + 1)
  {
    NotInit(reach, s, p);
    Goes(reach, s, Reparent(p));
    s1 := Apply(s, Reparent(p));
    if s.procs[i].parent == Some(p) {
      var s2, n := s1, i + 1;
      s1 := WakeInitRuns(reach, s2, p, i);
      forall q: nat ensures GivenAt(s, s1, p, i, n, q) { assert GivenAt(s2, s1, p, 0, 0, q); }
    }
  }

  lemma GivenMore(s: State, s1: State, s': State, p: nat, i: nat)
    requires Given(s, s1, p, i, i + 1) && Given(s1, s', p, i + 1, |s.procs|)
    ensures Given(s, s', p, i, |s.procs|)
  {
    var n := |s.procs|;
    forall q: nat ensures GivenAt(s, s', p, i, n, q) {
      assert GivenAt(s, s1, p, i, i + 1, q) && GivenAt(s1, s', p, i + 1, n, q);
    }
  }

  lemma {:induction false} ReparentAll(reach: State -> bool, s: State, p: nat, i: nat) returns (s': State)
    requires Closed(reach) == true && reach(s) && At(s, p) && s.procs[p].pc == Reparenting(i) && i < |s.procs|
    ensures reach(s') && At(s', p) && s'.procs[p].pc.ExitWake? && Given(s, s', p, i, |s.procs|)
    decreases |s.procs| - i
  {
    s' := ReparentOne(reach, s, p, i);
    if i + 1 < |s.procs| {
      var s1 := s';
      s' := ReparentAll(reach, s1, p, i + 1);
      GivenMore(s, s1, s', p, i);
    }
  }

  lemma ExitLast(reach: State -> bool, s: State, p: nat) returns (s': State)
    requires Closed(reach) == true && reach(s) && At(s, p) && s.procs[p].pc.ExitWake?
    ensures reach(s') && Given(s, s', p, 0, 0) && s'.procs[p].state.Zombie? && s'.wlock.None?
  {
    NotInit(reach, s, p);
    var s1 := LockComesFree(reach, s, s.procs[p].parent.value, p);
    Goes(reach, s1, WakeParent(p));
    var s2 := Apply(s1, WakeParent(p));
    Goes(reach, s2, BecomeZombie(p));
    s' := Apply(s2, BecomeZombie(p));
    forall q: nat ensures GivenAt(s, s', p, 0, 0, q) { assert GivenAt(s, s1, p, 0, 0, q); }
  }

  ghost predicate Reachable(s0: State, s: State) {
    exists ts :: Reaches(s0, ts, s)
  }

  lemma ReachableClosed(s0: State)
    requires Start(s0)
    ensures Closed(s => Reachable(s0, s))
  {
    var reach := s => Reachable(s0, s);
    StartInv(s0);
    forall s ensures Fine(reach, s) {
      if reach(s) {
        var ts :| Reaches(s0, ts, s);
        RunInv(s0, ts, s);
      }
    }
    forall s, t ensures Stays(reach, s, t) {
      if reach(s) && Enabled(s, t) {
        var ts :| Reaches(s0, ts, s);
        ReachesOneMore(s0, ts, s, t);
      }
    }
  }

  /** exit() of a process other than init, with wait_lock free, can run to its end: the process is a ZOMBIE, all of its
      children are children of init, every other process has the parent it had, and wait_lock is free again. */
  lemma ExitEnds(s0: State, s: State, p: nat) returns (s': State)
    requires Start(s0) && Reachable(s0, s) == true && At(s, p) && s.procs[p].pc.User? && p != s.init && s.wlock.None?
    ensures Reachable(s0, s') == true && Given(s, s', p, 0, |s.procs|)
    ensures s'.procs[p].state.Zombie? && s'.wlock.None?
  {
    var reach := s => Reachable(s0, s);
    ReachableClosed(s0);
    s' := ExitRuns(reach, s, p);
  }

  lemma ExitRuns(reach: State -> bool, s: State, p: nat) returns (s': State)
    requires Closed(reach) == true && reach(s) && At(s, p) && s.procs[p].pc.User? && p != s.init && s.wlock.None?
    ensures reach(s') && Given(s, s', p, 0, |s.procs|) && s'.procs[p].state.Zombie? && s'.wlock.None?
  {
    Goes(reach, s, CallExit(p));
    var s1 := Apply(s, CallExit(p));
    var s2 := ReparentAll(reach, s1, p, 0);
    s' := ExitLast(reach, s2, p);
    var n := |s.procs|;
    forall q: nat ensures GivenAt(s, s', p, 0, n, q) {
      assert GivenAt(s1, s2, p, 0, n, q) && GivenAt(s2, s', p, 0, 0, q);
    }
  }

  predicate ZombieChild(s: State, p: nat, q: nat) {
    q < |s.procs| && s.procs[q].parent == Some(p) && s.procs[q].state.Zombie?
  }

  /** wait() passes the processes that are not what it looks for. */
  lemma {:induction false} ScanTo(reach: State -> bool, s: State, p: nat, z: nat) returns (kids: bool)
    requires Closed(reach) == true && reach(s) && At(s, p)
    requires s.procs[p].pc.Scanning? && s.procs[p].pc.i <= z < |s.procs|
    requires forall q: nat :: s.procs[p].pc.i <= q < z ==> !ZombieChild(s, p, q)
    ensures reach(WithPc(s, p, Scanning(z, kids)))
    decreases z - s.procs[p].pc.i
  {
    if s.procs[p].pc.i == z {
      kids := s.procs[p].pc.kids;
      assert WithPc(s, p, Scanning(z, kids)) == s;
    } else {
      assert !ZombieChild(s, p, s.procs[p].pc.i);
      Goes(reach, s, Scan(p));
      var s1 := Apply(s, Scan(p));
      forall q: nat | s1.procs[p].pc.i <= q < z ensures !ZombieChild(s1, p, q) { assert !ZombieChild(s, p, q); }
      kids := ScanTo(reach, s1, p, z);
      assert WithPc(s1, p, Scanning(z, kids)) == WithPc(s, p, Scanning(z, kids));
    }
  }

  lemma FirstZombie(s: State, p: nat, z: nat) returns (first: nat)
    requires ZombieChild(s, p, z)
    ensures first <= z && ZombieChild(s, p, first) && forall q: nat :: q < first ==> !ZombieChild(s, p, q)
  {
    first := 0;
    while !ZombieChild(s, p, first)
      invariant first <= z && forall q: nat :: q < first ==> !ZombieChild(s, p, q)
      decreases z - first
    {
      first := first + 1;
    }
  }

  lemma WaitRuns(reach: State -> bool, s: State, p: nat, z: nat)
    requires Closed(reach) == true && reach(s) && At(s, p) && s.procs[p].pc.User? && s.wlock.None? && p != z
    requires ZombieChild(s, p, z) && forall q: nat :: q < z ==> !ZombieChild(s, p, q)
    ensures reach(s.(procs := s.procs[z := NoProc], reaped := s.reaped + {s.procs[z].pid}))
  {
    Goes(reach, s, CallWait(p));
    var s1 := Apply(s, CallWait(p));
    forall q: nat | q < z ensures !ZombieChild(s1, p, q) { assert !ZombieChild(s, p, q); }
    var kids := ScanTo(reach, s1, p, z);
    var s2 := WithPc(s1, p, Scanning(z, kids));
    Goes(reach, s2, Reap(p));
    assert Apply(s2, Reap(p)).procs == s.procs[z := NoProc];
  }

  /** wait() of a process that has a zombie child, with wait_lock free, can run to its end: it frees the first such
      child, returns its pid, and changes nothing else. */
  lemma WaitReaps(s0: State, s: State, p: nat, z: nat) returns (first: nat)
    requires Start(s0) && Reachable(s0, s) == true && At(s, p) && s.procs[p].pc.User? && s.wlock.None?
    requires ZombieChild(s, p, z)
    ensures first <= z && ZombieChild(s, p, first) && forall q: nat :: q < first ==> !ZombieChild(s, p, q)
    ensures Reachable(s0, s.(procs := s.procs[first := NoProc], reaped := s.reaped + {s.procs[first].pid})) == true
  {
    ReachableClosed(s0);
    first := FirstZombie(s, p, z);
    WaitRuns(x => Reachable(s0, x), s, p, first);
  }

  // ---------------------------------------------------------------- how calls end

  /** The steps by which wait(), or fork(), of process p returns. */
  predicate EndsWait(t: Step, p: nat) {
    t == Reap(p) || t == CopyFails(p) || t == WaitFails(p)
  }

  predicate EndsFork(t: Step, p: nat) {
    t == ForkFails(p) || t == MakeRunnable(p)
  }

  lemma OwnCallGoesOn(s: State, t: Step)
    requires Enabled(s, t)
    ensures var q, q' := s.procs[t.p], Apply(s, t).procs[t.p];
            && (Waits(q.pc) && !EndsWait(t, t.p) ==> Waits(q'.pc))
            && (Forks(q.pc) && !EndsFork(t, t.p) ==> Forks(q'.pc) && q'.pc.np == q.pc.np)
            && (Exits(q.pc) ==> Exits(q'.pc) || q'.state.Zombie?)
            && !q.state.Zombie?
  {
  }

  lemma OtherCallGoesOn(s: State, t: Step, p: nat)
    requires Enabled(s, t) && p < |s.procs| && p != t.p && KindOk(s, p) && MakeOk(s, p) && MakeOk(s, t.p)
    ensures var q, q' := s.procs[p], Apply(s, t).procs[p];
            && (Waits(q.pc) ==> Waits(q'.pc))
            && (Forks(q.pc) ==> Forks(q'.pc) && q'.pc.np == q.pc.np)
            && (Exits(q.pc) ==> Exits(q'.pc))
            && (q.state.Zombie? ==> q'.state.Zombie? || (t.Reap? && q'.state.Unused? && q.pid in Apply(s, t).reaped))
  {
  }

  /** A process stays in wait() until it has a child's pid, cannot store its status, has no children or is killed; it
      stays in fork() until that has failed or made a process; and from exit() it does not return, its entry being
      free again only when wait() has collected it. */
  lemma CallsGoOn(s: State, t: Step, p: nat)
    requires Inv(s) && Enabled(s, t) && p < |s.procs|
    ensures var q, q' := s.procs[p], Apply(s, t).procs[p];
            && (Waits(q.pc) && !EndsWait(t, p) ==> Waits(q'.pc))
            && (Forks(q.pc) && !EndsFork(t, p) ==> Forks(q'.pc) && q'.pc.np == q.pc.np)
            && (Exits(q.pc) ==> Exits(q'.pc) || q'.state.Zombie?)
            && (q.state.Zombie? ==> q'.state.Zombie? || (t.Reap? && q'.state.Unused? && q.pid in Apply(s, t).reaped))
  {
    Known(s, p);
    if p == t.p {
      OwnCallGoesOn(s, t);
    } else {
      Known(s, t.p);
      OtherCallGoesOn(s, t, p);
    }
  }

  // ---------------------------------------------------------------- wait() and its children

  lemma WaitKnows(s: State, p: nat)
    requires Inv(s) && WaitOk(s, p) && At(s, p) && s.procs[p].pc.Scanning?
    ensures s.procs[p].pc.kids <==> HasChild(s, p, s.procs[p].pc.i)
    ensures s.procs[p].pc.i < |s.procs| ==> (Enabled(s, Reap(p)) <==> ZombieChild(s, p, s.procs[p].pc.i))
    ensures s.procs[p].pc.i == |s.procs| ==>
              && (Enabled(s, WaitFails(p)) <==> s.procs[p].killed || !HasChild(s, p, |s.procs|))
              && (Enabled(s, WaitGoesOn(p)) <==> !s.procs[p].killed && HasChild(s, p, |s.procs|))
              && (forall q: nat :: IsChild(s, p, q) ==> !s.procs[q].state.Zombie?)
  {
    if s.procs[p].pc.i == |s.procs| {
      forall q: nat | IsChild(s, p, q) ensures !s.procs[q].state.Zombie? { Known(s, q); }
    }
  }

  /** While wait() scans the table, havekids says if one of the processes seen so far is a child.  At the end of the
      table wait() fails if and only if the process has been killed or has no child, and goes on to sleep if and only
      if it has one. */
  lemma WaitDecides(s0: State, ts: seq<Step>, s: State, p: nat)
    requires Start(s0) && Reaches(s0, ts, s) == true && At(s, p) && s.procs[p].pc.Scanning?
    ensures s.procs[p].pc.kids <==> HasChild(s, p, s.procs[p].pc.i)
    ensures s.procs[p].pc.i < |s.procs| ==> (Enabled(s, Reap(p)) <==> ZombieChild(s, p, s.procs[p].pc.i))
    ensures s.procs[p].pc.i == |s.procs| ==>
              && (Enabled(s, WaitFails(p)) <==> s.procs[p].killed || !HasChild(s, p, |s.procs|))
              && (Enabled(s, WaitGoesOn(p)) <==> !s.procs[p].killed && HasChild(s, p, |s.procs|))
              && (forall q: nat :: IsChild(s, p, q) ==> !s.procs[q].state.Zombie?)
  {
    StartInv(s0);
    RunInv(s0, ts, s);
    assert WaitOk(s, p);
    WaitKnows(s, p);
  }

  /** A process asleep in wait() has a child.  It has been killed if and only if that happened after killed() and before
      sleep() took p->lock. */
  lemma SleeperHasChild(s0: State, ts: seq<Step>, s: State, p: nat)
    requires Start(s0) && Reaches(s0, ts, s) && p < |s.procs| && s.procs[p].state.Asleep?
    ensures HasChild(s, p, |s.procs|)
    ensures s.procs[p].pc.InSleep? && (s.procs[p].killed <==> s.procs[p].pc.late)
  {
    StartInv(s0);
    RunInv(s0, ts, s);
    Known(s, p);
    assert WaitOk(s, p);
  }

  /** A process is the child of the one that forked it, and once that one is in exit(), of that one or init. */
  lemma ParentIsForker(s0: State, ts: seq<Step>, s: State, p: nat, q: nat)
    requires Start(s0) && Reaches(s0, ts, s) && p < |s.procs| && IsChild(s, p, q)
    ensures s.procs[p].pid == s.procs[q].forker || (p == s.init && s.procs[q].forker in s.exited)
  {
    StartInv(s0);
    RunInv(s0, ts, s);
    Known(s, q);
  }

  /** A table of two processes: init at pc, and its child. */
  function Two(pc: Pc, child: Proc, wlock: Option<nat>): State {
    State([Proc(Live, None, 1, false, pc, None, 0), child], 0, 3, wlock, {}, {}, map[1 := 0, 2 := 1])
  }

  const FirstChild := Proc(Live, Some(0), 2, false, User, None, 1)

  lemma ForkedReached() returns (s0: State, ts: seq<Step>)
    ensures Start(s0) && Reaches(s0, ts, Two(User, FirstChild, None))
  {
    s0 := State([Proc(Live, None, 1, false, User, None, 0), NoProc], 0, 2, None, {}, {}, map[1 := 0]);
    var made := Proc(Used, None, 2, false, User, Some(0), 1);
    var s1, s2 := Two(Forking(1), made, None), Two(ForkLast(1), made.(parent := Some(0)), None);
    assert Apply(s0, AllocProc(0, 1)) == s1;
    ReachesOneMore(s0, [], s0, AllocProc(0, 1));
    assert Apply(s1, SetParent(0)) == s2;
    ReachesOneMore(s0, [] + [AllocProc(0, 1)], s1, SetParent(0));
    ReachesOneMore(s0, [] + [AllocProc(0, 1)] + [SetParent(0)], s2, MakeRunnable(0));
    assert Apply(s2, MakeRunnable(0)) == Two(User, FirstChild, None);
    ts := [] + [AllocProc(0, 1)] + [SetParent(0)] + [MakeRunnable(0)];
  }

  lemma TwoStep(s0: State, ts: seq<Step>, pc: Pc, wlock: Option<nat>, t: Step, pc': Pc, wlock': Option<nat>)
    requires Reaches(s0, ts, Two(pc, FirstChild, wlock)) && Enabled(Two(pc, FirstChild, wlock), t)
    requires Apply(Two(pc, FirstChild, wlock), t) == Two(pc', FirstChild, wlock')
    ensures Reaches(s0, ts + [t], Two(pc', FirstChild, wlock'))
  {
    ReachesOneMore(s0, ts, Two(pc, FirstChild, wlock), t);
  }

  /** init with a child, about to sleep in wait(). */
  lemma WaitingReached() returns (s0: State, ts: seq<Step>)
    ensures Start(s0) && Reaches(s0, ts, Two(MustSleep(false), FirstChild, Some(0)))
  {
    s0, ts := ForkedReached();
    TwoStep(s0, ts, User, None, CallWait(0), Scanning(0, false), Some(0));
    ts := ts + [CallWait(0)];
    TwoStep(s0, ts, Scanning(0, false), Some(0), Scan(0), Scanning(1, false), Some(0));
    ts := ts + [Scan(0)];
    TwoStep(s0, ts, Scanning(1, false), Some(0), Scan(0), Scanning(2, true), Some(0));
    ts := ts + [Scan(0)];
    TwoStep(s0, ts, Scanning(2, true), Some(0), WaitGoesOn(0), MustSleep(false), Some(0));
    ts := ts + [WaitGoesOn(0)];
  }

  /** A kill() between killed() and sleep(): the process sleeps in wait() although it has been killed. */
  lemma KillComesLate() returns (s0: State, ts: seq<Step>, s: State)
    ensures Start(s0) && Reaches(s0, ts, s) && |s.procs| == 2 && s.procs[0].killed && s.procs[0].state.Asleep?
  {
    s0, ts := WaitingReached();
    s := Two(MustSleep(false), FirstChild, Some(0));
    ReachesOneMore(s0, ts, s, Kill(1, 0));
    ts, s := ts + [Kill(1, 0)], Apply(s, Kill(1, 0));
    ReachesOneMore(s0, ts, s, CallSleep(0));
    ts, s := ts + [CallSleep(0)], Apply(s, CallSleep(0));
    ReachesOneMore(s0, ts, s, SleepMark(0));
    ts, s := ts + [SleepMark(0)], Apply(s, SleepMark(0));
  }
}
