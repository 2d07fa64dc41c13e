/** sleep, wakeup, sched, scheduler and yield of kernel/proc.c, the sleep locks of kernel/sleeplock.c on top of them,
    and device interrupts, as a step system: any number of CPUs and processes, every interleaving of the single lock
    operations.

    A step is one acquire, one release, or one change made under a lock that the stepping CPU holds.  swtch is one
    step that hands a CPU, together with the p->lock it holds, from a process to its scheduler or back.  An interrupt
    handler runs on top of whatever its CPU was doing, which goes on when the handler has returned. */
module Scheduling {
  import opened Common

  datatype ProcState = Unused | Sleeping | Runnable | Running | Zombie

  /** Where the kernel thread of a process is.  ch is a channel, lk a spin lock; the Sleep points follow the lines of
      sleep(). */
  datatype Pc =
    | Exec                                           // any other kernel or user code
    | SleepEnter(ch: nat, lk: nat)                   // holds lk, about to acquire p->lock
    | SleepBoth(ch: nat, lk: nat)                    // holds both, about to release lk
    | SleepAlone(ch: nat, lk: nat)                   // holds p->lock, about to mark itself SLEEPING
    | SleepMarked(ch: nat, lk: nat)                  // marked; in sched(), or switched out there
    | Reacquire(lk: nat)                             // awake, about to acquire lk again
    | Waking(ch: nat, i: nat, due: map<nat, nat>)    // in wakeup(ch), about to look at process i
    | WakingLocked(ch: nat, i: nat, due: map<nat, nat>)  // holds the lock of process i
    | Exiting                                        // holds p->lock, marked ZOMBIE

  /** Whether the thread executes, is in yield() with p->lock held before its swtch, is switched out, or has just been
      switched to and still holds p->lock. */
  datatype Mode = On | Yielding | Off | Resumed

  /** epoch counts the sleep() calls of this process; cpu is where it runs; extra says whether it held more spin locks
      than sleep() releases when it last called sleep() or exit(). */
  datatype Proc = Proc(state: ProcState, chan: Option<nat>, pc: Pc, mode: Mode, cpu: Option<nat>, epoch: nat,
                       extra: bool)

  datatype CpuPc =
    | Idle                // scheduler loop, no lock held
    | Chose(p: nat)       // scheduler holds p->lock, looks at p->state
    | InProc(p: nat)      // switched to p
    | Back(p: nat)        // p switched back; still holds p->lock

  datatype Cpu = Cpu(cur: Option<nat>, pc: CpuPc)

  /** The interrupt handler of a CPU: not active, or in wakeup(), or elsewhere. */
  datatype Hand =
    | NoHand
    | HandExec
    | HandWaking(ch: nat, i: nat, due: map<nat, nat>)
    | HandLocked(ch: nat, i: nat, due: map<nat, nat>)

  /** plock[p] is the CPU holding p->lock; spin maps the other held spin locks to their CPU; intr is the CPUs with
      interrupts enabled; held maps a locked sleep lock to its owner.  Sleep lock k uses spin lock k and channel k.
      done collects the (process, epoch) pairs that finished wakeups were due to wake. */
  datatype State = State(procs: seq<Proc>, plock: seq<Option<nat>>, cpus: seq<Cpu>, hand: seq<Hand>, intr: set<nat>,
                         spin: map<nat, nat>, held: map<nat, nat>, done: set<(nat, nat)>)

  /** What a process does next. */
  datatype Act =
    | AcquireSpin(k: nat)
    | ReleaseSpin(k: nat)
    | CallSleep(ch: nat, k: nat)
    | SleepAcquire
    | SleepRelease
    | SleepMark
    | Swtch
    | Resume
    | SleepReacquire
    | Yield
    | CallWakeup(ch: nat)
    | WakeAcquire
    | WakeSet
    | WakeReturn
    | Kill(q: nat)
    | TakeSleepLock(k: nat)
    | DropSleepLock(k: nat)
    | Fork(q: nat)
    | Exit
    | Reap(q: nat)

  /** What a scheduler does next. */
  datatype SchedAct = SchedRelease | SchedAcquire(q: nat) | SchedChoose

  /** Interrupts of a CPU, and what its handler does next. */
  datatype HandAct =
    | IntrOn
    | IntrOff
    | IntrEnter
    | IntrLeave
    | HandAcquire(k: nat)
    | HandRelease(k: nat)
    | HandWakeup(ch: nat)
    | HandWakeAcquire
    | HandWakeSet
    | HandWakeReturn

  datatype Step = Thread(p: nat, a: Act) | Sched(c: nat, sa: SchedAct) | Intr(c: nat, ha: HandAct)

  // ---------------------------------------------------------------- steps

  /** The CPU is not in an interrupt handler. */
  predicate Free(s: State, c: nat) {
    c < |s.cpus| == |s.hand| && s.hand[c].NoHand?
  }

  /** Process p has a CPU that executes it. */
  predicate Has(s: State, p: nat) {
    p < |s.procs| && s.procs[p].cpu.Some? && Free(s, s.procs[p].cpu.value)
  }

  predicate At(s: State, p: nat) {
    Has(s, p) && s.procs[p].mode.On?
  }

  function Here(s: State, p: nat): nat
    requires p < |s.procs| && s.procs[p].cpu.Some?
  {
    s.procs[p].cpu.value
  }

  /** The spin locks that CPU c holds, other than those of processes. */
  function SpinsOf(s: State, c: nat): set<nat> {
    set k | k in s.spin && s.spin[k] == c
  }

  predicate FreeLock(s: State, q: nat) {
    q < |s.plock| && s.plock[q].None?
  }

  /** The process locks that CPU c holds. */
  function PlocksOf(s: State, c: nat): set<nat> {
    set q: nat | q < |s.plock| && s.plock[q] == Some(c)
  }

  /** mycpu()->noff: the locks that CPU c holds. */
  function Noff(s: State, c: nat): nat {
    |SpinsOf(s, c)| + |PlocksOf(s, c)|
  }

  predicate InSleepOn(q: Proc, ch: nat) {
    (q.pc.SleepAlone? || q.pc.SleepMarked?) && q.pc.ch == ch
  }

  /** The processes a wakeup(ch) called now must not miss, with the sleep() call each is in. */
  function Due(s: State, ch: nat): map<nat, nat> {
    map x: nat | x < |s.procs| && InSleepOn(s.procs[x], ch) :: s.procs[x].epoch
  }

  /** About to call swtch() in sched(). */
  predicate AtSched(s: State, p: nat) {
    && Has(s, p)
    && (s.procs[p].mode.Yielding? || (s.procs[p].mode.On? && (s.procs[p].pc.SleepMarked? || s.procs[p].pc.Exiting?)))
  }

  predicate ThreadEnabled(s: State, p: nat, a: Act)
    requires |s.plock| == |s.procs|
  {
    match a
    case AcquireSpin(k) => At(s, p) && s.procs[p].pc.Exec? && k !in s.spin
    case ReleaseSpin(k) => At(s, p) && s.procs[p].pc.Exec? && k in SpinsOf(s, Here(s, p))
    case CallSleep(ch, k) =>
      At(s, p) && s.procs[p].pc.Exec? && k in SpinsOf(s, Here(s, p)) && (ch == k ==> k in s.held)
    case SleepAcquire => At(s, p) && s.procs[p].pc.SleepEnter? && FreeLock(s, p)
    case SleepRelease => At(s, p) && s.procs[p].pc.SleepBoth?
    case SleepMark => At(s, p) && s.procs[p].pc.SleepAlone?
    case Swtch => AtSched(s, p) && SpinsOf(s, Here(s, p)) == {}
    case Resume => Has(s, p) && s.procs[p].mode.Resumed?
    case SleepReacquire => At(s, p) && s.procs[p].pc.Reacquire? && s.procs[p].pc.lk !in s.spin
    case Yield =>
      && At(s, p) && Here(s, p) in s.intr && FreeLock(s, p)
      && (s.procs[p].pc.Exec? || s.procs[p].pc.Reacquire? || s.procs[p].pc.Waking?)
    case CallWakeup(ch) => At(s, p) && s.procs[p].pc.Exec?
    case WakeAcquire =>
      && At(s, p) && s.procs[p].pc.Waking? && s.procs[p].pc.i < |s.procs|
      && (s.procs[p].pc.i == p || FreeLock(s, s.procs[p].pc.i))
    case WakeSet => At(s, p) && s.procs[p].pc.WakingLocked? && s.procs[p].pc.i < |s.procs|
    case WakeReturn => At(s, p) && s.procs[p].pc.Waking? && s.procs[p].pc.i == |s.procs|
    case Kill(q) => At(s, p) && s.procs[p].pc.Exec? && FreeLock(s, q)
    case TakeSleepLock(k) => At(s, p) && s.procs[p].pc.Exec? && k in SpinsOf(s, Here(s, p)) && k !in s.held
    case DropSleepLock(k) =>
      At(s, p) && s.procs[p].pc.Exec? && k in SpinsOf(s, Here(s, p)) && k in s.held && s.held[k] == p
    case Fork(q) => At(s, p) && s.procs[p].pc.Exec? && FreeLock(s, q) && s.procs[q].state.Unused?
    case Exit => At(s, p) && s.procs[p].pc.Exec? && FreeLock(s, p)
    case Reap(q) => At(s, p) && s.procs[p].pc.Exec? && FreeLock(s, q) && s.procs[q].state.Zombie?
  }

  predicate SchedEnabled(s: State, c: nat, a: SchedAct)
    requires |s.plock| == |s.procs|
  {
    match a
    case SchedRelease => Free(s, c) && s.cpus[c].pc.Back? && s.cpus[c].pc.p < |s.procs|
    case SchedAcquire(q) => Free(s, c) && s.cpus[c].pc.Idle? && FreeLock(s, q)
    case SchedChoose => Free(s, c) && s.cpus[c].pc.Chose? && s.cpus[c].pc.p < |s.procs|
  }

  /** Interrupts are enabled by pop_off() of the last lock, and where no lock is held. */
  predicate HandEnabled(s: State, c: nat, a: HandAct)
    requires |s.plock| == |s.procs|
  {
    && c < |s.hand| == |s.cpus|
    && match a
       case IntrOn => s.hand[c].NoHand? && Noff(s, c) == 0
       case IntrOff => c in s.intr
       case IntrEnter => s.hand[c].NoHand? && c in s.intr
       case IntrLeave => s.hand[c].HandExec? && SpinsOf(s, c) == {}
       case HandAcquire(k) => s.hand[c].HandExec? && k !in s.spin
       case HandRelease(k) => s.hand[c].HandExec? && k in SpinsOf(s, c)
       case HandWakeup(ch) => s.hand[c].HandExec?
       case HandWakeAcquire =>
         && s.hand[c].HandWaking? && s.hand[c].i < |s.procs|
         && (s.cpus[c].cur == Some(s.hand[c].i) || FreeLock(s, s.hand[c].i))
       case HandWakeSet => s.hand[c].HandLocked? && s.hand[c].i < |s.procs|
       case HandWakeReturn => s.hand[c].HandWaking? && s.hand[c].i == |s.procs|
  }

  predicate Enabled(s: State, t: Step)
    requires |s.plock| == |s.procs|
  {
    match t
    case Thread(p, a) => ThreadEnabled(s, p, a)
    case Sched(c, a) => SchedEnabled(s, c, a)
    case Intr(c, a) => HandEnabled(s, c, a)
  }

  function Woken(q: Proc): Proc {
    if q.state.Sleeping? then q.(state := Runnable) else q
  }

  function WithPc(s: State, p: nat, pc: Pc): State
    requires p < |s.procs|
  {
    s.(procs := s.procs[p := s.procs[p].(pc := pc)])
  }

  /** push_off() in acquire(): no interrupts while a lock is held. */
  function PushOff(s: State, c: nat): State {
    s.(intr := s.intr - {c})
  }

  /** scheduler() with p->lock held: run p if it is RUNNABLE, else let it go. */
  function SchedChosen(s: State, c: nat, p: nat): State
    requires c < |s.cpus| && p < |s.procs| == |s.plock|
  {
    if s.procs[p].state.Runnable?
    then s.(procs := s.procs[p := s.procs[p].(state := Running, mode := Resumed, cpu := Some(c))],
            cpus := s.cpus[c := Cpu(Some(p), InProc(p))])
    else s.(plock := s.plock[p := None], cpus := s.cpus[c := s.cpus[c].(pc := Idle)])
  }

  /** A thread gets its CPU back: sleep() clears chan, and sleep(), yield() and forkret() all release p->lock. */
  function SwitchedTo(q: Proc): Proc {
    if q.pc.SleepMarked? then q.(pc := Reacquire(q.pc.lk), chan := None, mode := On) else q.(mode := On)
  }

  /** wakeup(ch) looks at process i. */
  function WakeTarget(s: State, ch: nat, i: nat): State
    requires i < |s.procs|
  {
    var q := s.procs[i];
    if q.state.Sleeping? && q.chan == Some(ch) then s.(procs := s.procs[i := q.(state := Runnable)]) else s
  }

  /** wakeup() by p releases the lock of the process it looked at and goes on to the next. */
  function WakeAdvance(s: State, p: nat): State
    requires p < |s.procs| == |s.plock| && s.procs[p].pc.WakingLocked? && s.procs[p].pc.i < |s.procs|
  {
    var pc := s.procs[p].pc;
    WithPc(s, p, Waking(pc.ch, pc.i + 1, pc.due)).(plock := s.plock[pc.i := None])
  }

  function HandAdvance(s: State, c: nat): State
    requires c < |s.hand| && s.hand[c].HandLocked? && s.hand[c].i < |s.plock|
  {
    var h := s.hand[c];
    s.(hand := s.hand[c := HandWaking(h.ch, h.i + 1, h.due)], plock := s.plock[h.i := None])
  }

  function Woke(due: map<nat, nat>): set<(nat, nat)> {
    set x | x in due :: (x, due[x])
  }

  function ThreadNext(s: State, p: nat, a: Act): State
    requires |s.plock| == |s.procs| && ThreadEnabled(s, p, a) == true
  {
    match a
    case AcquireSpin(k) => PushOff(s, Here(s, p)).(spin := s.spin[k := Here(s, p)])
    case ReleaseSpin(k) => s.(spin := s.spin - {k})
    case CallSleep(ch, k) =>
      s.(procs := s.procs[p := s.procs[p].(pc := SleepEnter(ch, k), epoch := s.procs[p].epoch + 1,
                                           extra := SpinsOf(s, Here(s, p)) != {k})])
    case SleepAcquire =>
      var pc := s.procs[p].pc;
      PushOff(WithPc(s, p, SleepBoth(pc.ch, pc.lk)), Here(s, p)).(plock := s.plock[p := Some(Here(s, p))])
    case SleepRelease =>
      var pc := s.procs[p].pc;
      WithPc(s, p, SleepAlone(pc.ch, pc.lk)).(spin := s.spin - {pc.lk})
    case SleepMark =>
      var pc := s.procs[p].pc;
      s.(procs := s.procs[p := s.procs[p].(pc := SleepMarked(pc.ch, pc.lk), chan := Some(pc.ch), state := Sleeping)])
    case Swtch =>
      var c := Here(s, p);
      s.(procs := s.procs[p := s.procs[p].(mode := Off, cpu := None)],
         cpus := s.cpus[c := s.cpus[c].(pc := Back(p))])
    case Resume =>
      s.(procs := s.procs[p := SwitchedTo(s.procs[p])], plock := s.plock[p := None])
    case SleepReacquire =>
      PushOff(WithPc(s, p, Exec), Here(s, p)).(spin := s.spin[s.procs[p].pc.lk := Here(s, p)])
    case Yield =>
      PushOff(s, Here(s, p)).(procs := s.procs[p := s.procs[p].(state := Runnable, mode := Yielding)],
                              plock := s.plock[p := Some(Here(s, p))])
    case CallWakeup(ch) => WithPc(s, p, Waking(ch, 0, Due(s, ch)))
    case WakeAcquire =>
      var pc := s.procs[p].pc;
      if pc.i == p then WithPc(s, p, Waking(pc.ch, pc.i + 1, pc.due))
      else
        var s1 := WithPc(s, p, WakingLocked(pc.ch, pc.i, pc.due));
        PushOff(s1, Here(s, p)).(plock := s.plock[pc.i := Some(Here(s, p))])
    case WakeSet =>
      WakeAdvance(WakeTarget(s, s.procs[p].pc.ch, s.procs[p].pc.i), p)
    case WakeReturn =>
      WithPc(s, p, Exec).(done := s.done + Woke(s.procs[p].pc.due))
    case Kill(q) => s.(procs := s.procs[q := Woken(s.procs[q])])
    case TakeSleepLock(k) => s.(held := s.held[k := p])
    case DropSleepLock(k) => WithPc(s, p, Waking(k, 0, Due(s, k))).(held := s.held - {k})
    case Fork(q) =>
      s.(procs := s.procs[q := s.procs[q].(state := Runnable, chan := None, pc := Exec)])
    case Exit =>
      PushOff(s, Here(s, p)).(procs := s.procs[p := s.procs[p].(state := Zombie, pc := Exiting,
                                                                extra := SpinsOf(s, Here(s, p)) != {})],
                              plock := s.plock[p := Some(Here(s, p))])
    case Reap(q) => s.(procs := s.procs[q := s.procs[q].(state := Unused)])
  }

  function SchedNext(s: State, c: nat, a: SchedAct): State
    requires |s.plock| == |s.procs| && SchedEnabled(s, c, a) == true
  {
    match a
    case SchedRelease =>
      s.(plock := s.plock[s.cpus[c].pc.p := None], cpus := s.cpus[c := Cpu(None, Idle)])
    case SchedAcquire(q) =>
      PushOff(s, c).(plock := s.plock[q := Some(c)], cpus := s.cpus[c := s.cpus[c].(pc := Chose(q))])
    case SchedChoose => SchedChosen(s, c, s.cpus[c].pc.p)
  }

  function HandNext(s: State, c: nat, a: HandAct): State
    requires |s.plock| == |s.procs| && HandEnabled(s, c, a) == true
  {
    match a
    case IntrOn => s.(intr := s.intr + {c})
    case IntrOff => PushOff(s, c)
    case IntrEnter => PushOff(s, c).(hand := s.hand[c := HandExec])
    case IntrLeave => s.(hand := s.hand[c := NoHand], intr := s.intr + {c})
    case HandAcquire(k) => s.(spin := s.spin[k := c])
    case HandRelease(k) => s.(spin := s.spin - {k})
    case HandWakeup(ch) => s.(hand := s.hand[c := HandWaking(ch, 0, Due(s, ch))])
    case HandWakeAcquire =>
      var h := s.hand[c];
      if s.cpus[c].cur == Some(h.i) then s.(hand := s.hand[c := HandWaking(h.ch, h.i + 1, h.due)])
      else s.(hand := s.hand[c := HandLocked(h.ch, h.i, h.due)], plock := s.plock[h.i := Some(c)])
    case HandWakeSet =>
      HandAdvance(WakeTarget(s, s.hand[c].ch, s.hand[c].i), c)
    case HandWakeReturn =>
      s.(hand := s.hand[c := HandExec], done := s.done + Woke(s.hand[c].due))
  }

  function Next(s: State, t: Step): (s': State)
    requires |s.plock| == |s.procs| && Enabled(s, t) == true
  {
    match t
    case Thread(p, a) => ThreadNext(s, p, a)
    case Sched(c, a) => SchedNext(s, c, a)
    case Intr(c, a) => HandNext(s, c, a)
  }

  // ---------------------------------------------------------------- who holds what

  /** The thread holds its own p->lock. */
  predicate OwnsSelf(q: Proc) {
    match q.mode
    case On => q.pc.SleepBoth? || q.pc.SleepAlone? || q.pc.SleepMarked? || q.pc.Exiting?
    case Yielding => true
    case Resumed => true
    case Off => false
  }

  /** Running, and holding no lock. */
  predicate Interruptible(q: Proc) {
    q.mode.On? && q.state.Running? && (q.pc.Exec? || q.pc.Reacquire? || q.pc.Waking?)
  }

  /** CPU c has a reason to hold the lock of process q. */
  predicate Holds(s: State, c: nat, q: nat) {
    && c < |s.cpus| == |s.hand|
    && if !s.hand[c].NoHand? then s.hand[c].HandLocked? && s.hand[c].i == q
       else
         match s.cpus[c].pc
         case Idle => false
         case Chose(p) => p == q
         case Back(p) => p == q
         case InProc(p) =>
           && p < |s.procs|
           && ((p == q && OwnsSelf(s.procs[p]))
               || (s.procs[p].mode.On? && s.procs[p].pc.WakingLocked? && s.procs[p].pc.i == q))
  }

  ghost predicate CpuInv(s: State, c: nat)
    requires c < |s.cpus| == |s.hand| && |s.plock| == |s.procs|
  {
    match s.cpus[c].pc
    case Idle => s.cpus[c].cur.None? && (s.hand[c].NoHand? ==> SpinsOf(s, c) == {})
    case Chose(p) =>
      && p < |s.procs| && s.plock[p] == Some(c) && s.cpus[c].cur.None? && SpinsOf(s, c) == {} && s.hand[c].NoHand?
    case InProc(p) =>
      && p < |s.procs| && s.procs[p].cpu == Some(c) && s.cpus[c].cur == Some(p)
      && (!s.hand[c].NoHand? ==> Interruptible(s.procs[p]))
    case Back(p) =>
      && p < |s.procs| && s.plock[p] == Some(c) && s.procs[p].cpu.None? && s.cpus[c].cur == Some(p)
      && SpinsOf(s, c) == {} && s.hand[c].NoHand?
  }

  ghost predicate HandInv(s: State, c: nat)
    requires c < |s.cpus| == |s.hand| && |s.plock| == |s.procs|
  {
    && (s.hand[c].HandWaking? ==> s.hand[c].i <= |s.procs|)
    && (s.hand[c].HandLocked? ==>
          s.hand[c].i < |s.procs| && s.plock[s.hand[c].i] == Some(c) && s.cpus[c].cur != Some(s.hand[c].i))
  }

  /** Interrupts are enabled only on a CPU that holds no lock. */
  ghost predicate IntrInv(s: State, c: nat) {
    c in s.intr ==> Free(s, c) && SpinsOf(s, c) == {} && PlocksOf(s, c) == {}
  }

  /** A process that runs on CPU c. */
  ghost predicate OnCpuInv(s: State, p: nat, c: nat)
    requires p < |s.procs| && |s.plock| == |s.procs|
  {
    var q := s.procs[p];
    && c < |s.cpus| == |s.hand|
    && s.cpus[c].pc == InProc(p)
    && (q.pc.Waking? ==> q.pc.i <= |s.procs|)
    && (OwnsSelf(q) ==> s.plock[p] == Some(c))
    && match q.mode
       case Off => false
       case Yielding => q.state.Runnable? && SpinsOf(s, c) == {} && (q.pc.Exec? || q.pc.Reacquire? || q.pc.Waking?)
       case Resumed =>
         && q.state.Running? && SpinsOf(s, c) == {}
         && (q.pc.Exec? || q.pc.Reacquire? || q.pc.Waking? || (q.pc.SleepMarked? && q.chan == Some(q.pc.ch)))
       case On => ExecInv(s, p, c)
  }

  /** What it has to do with locks, point by point. */
  ghost predicate ExecInv(s: State, p: nat, c: nat)
    requires p < |s.procs| && |s.plock| == |s.procs| && c < |s.hand|
  {
    var q, spins := s.procs[p], SpinsOf(s, c);
    match q.pc
    case Exec => q.state.Running?
    case SleepEnter(_, lk) => q.state.Running? && lk in spins && (q.extra <==> spins != {lk})
    case SleepBoth(_, lk) => q.state.Running? && lk in spins && (q.extra <==> spins != {lk})
    case SleepAlone(_, _) => q.state.Running? && (q.extra <==> spins != {})
    case SleepMarked(ch, _) => q.state.Sleeping? && q.chan == Some(ch) && (q.extra <==> spins != {})
    case Reacquire(_) => q.state.Running? && (s.hand[c].NoHand? ==> spins == {})
    case Waking(_, _, _) => q.state.Running?
    case WakingLocked(_, i, _) => q.state.Running? && i < |s.procs| && i != p && s.plock[i] == Some(c)
    case Exiting => q.state.Zombie? && (q.extra <==> spins != {})
  }

  /** A process that is switched out. */
  ghost predicate OffCpuInv(s: State, p: nat)
    requires p < |s.procs|
  {
    var q := s.procs[p];
    && q.mode.Off?
    && (q.pc.Waking? ==> q.pc.i <= |s.procs|)
    && match q.state
       case Running => false
       case Sleeping => q.pc.SleepMarked? && q.chan == Some(q.pc.ch)
       case Runnable => q.pc.Exec? || q.pc.Reacquire? || q.pc.Waking? || (q.pc.SleepMarked? && q.chan == Some(q.pc.ch))
       case Zombie => q.pc.Exiting?
       case Unused => q.pc.Exiting? || q.pc.Exec?
  }

  ghost predicate ProcInv(s: State, p: nat)
    requires p < |s.procs| && |s.plock| == |s.procs|
  {
    match s.procs[p].cpu
    case Some(c) => OnCpuInv(s, p, c)
    case None => OffCpuInv(s, p)
  }

  ghost predicate LockInv(s: State, q: nat)
    requires q < |s.plock|
  {
    s.plock[q].Some? ==> Holds(s, s.plock[q].value, q)
  }

  ghost predicate SpinInv(s: State, k: nat) {
    k in s.spin ==> s.spin[k] < |s.cpus|
  }

  ghost predicate Base(s: State) {
    && |s.plock| == |s.procs| && |s.hand| == |s.cpus|
    && (forall c :: 0 <= c < |s.cpus| ==> CpuInv(s, c))
    && (forall c :: 0 <= c < |s.cpus| ==> HandInv(s, c))
    && (forall c: nat :: IntrInv(s, c))
    && (forall p :: 0 <= p < |s.procs| ==> ProcInv(s, p))
    && (forall q :: 0 <= q < |s.plock| ==> LockInv(s, q))
    && (forall k: nat :: SpinInv(s, k))
  }

  lemma KnownCpu(s: State, c: nat)
    requires Base(s) == true && c < |s.cpus|
    ensures CpuInv(s, c) && HandInv(s, c) && IntrInv(s, c)
  {
  }

  lemma KnownProc(s: State, p: nat)
    requires Base(s) == true && p < |s.procs|
    ensures ProcInv(s, p) && LockInv(s, p)
    ensures s.procs[p].cpu.Some? ==> Here(s, p) < |s.cpus| && CpuInv(s, Here(s, p)) && IntrInv(s, Here(s, p))
  {
  }

  // ---------------------------------------------------------------- steps of one CPU

  /** Spin locks of other CPUs are as they were. */
  ghost predicate SameSpins(s: State, s': State, d: nat) {
    SpinsOf(s', d) == SpinsOf(s, d)
  }

  ghost predicate SpinBy(s: State, s': State, c: nat) {
    forall d: nat :: d != c ==> SameSpins(s, s', d)
  }

  /** CPU c changes its spin locks, lock j if there is a process j, and its interrupt flag; it holds lock j before or
      after. */
  ghost predicate LocksBy(s: State, s': State, c: nat, j: nat) {
    && |s.procs| == |s'.procs| == |s.plock| == |s'.plock| && s'.cpus == s.cpus && SpinBy(s, s', c)
    && (forall d :: d in s'.intr && d != c ==> d in s.intr)
    && if j < |s.procs| then
         && s'.plock == s.plock[j := s'.plock[j]]
         && (s.plock[j] == None || s.plock[j] == Some(c))
         && (s'.plock[j] == None || s'.plock[j] == Some(c))
       else s'.plock == s.plock
  }

  /** Process p on CPU c takes such a step, and changes itself. */
  ghost predicate Local(s: State, s': State, p: nat, c: nat, j: nat) {
    && LocksBy(s, s', c, j) && s'.hand == s.hand && Free(s, c)
    && p < |s.procs| && s.procs[p].cpu == s'.procs[p].cpu == Some(c)
    && s'.procs == s.procs[p := s'.procs[p]]
    && (j != p ==> OwnsSelf(s.procs[p]) == OwnsSelf(s'.procs[p]))
    && (s.procs[p].mode.On? && s.procs[p].pc.WakingLocked? ==> s.procs[p].pc.i == j)
  }

  lemma SamePlocks(s: State, s': State, c: nat, j: nat, d: nat)
    requires LocksBy(s, s', c, j) && d != c
    ensures PlocksOf(s', d) == PlocksOf(s, d)
  {
  }

  lemma LocksKeepIntr(s: State, s': State, c: nat, j: nat, d: nat)
    requires Base(s) == true && LocksBy(s, s', c, j) && d != c && |s'.hand| == |s.hand|
    requires d < |s.hand| ==> s'.hand[d] == s.hand[d]
    ensures IntrInv(s', d)
  {
    SamePlocks(s, s', c, j, d);
    assert IntrInv(s, d) && SameSpins(s, s', d);
  }

  lemma LocalKeepsProc(s: State, s': State, p: nat, c: nat, j: nat, x: nat)
    requires Base(s) == true && Local(s, s', p, c, j) && x < |s.procs| && x != p
    ensures ProcInv(s', x)
  {
    KnownProc(s, x);
    KnownProc(s, p);
    if s.procs[x].cpu.Some? { assert SameSpins(s, s', Here(s, x)); }
  }

  lemma LocalKeepsCpu(s: State, s': State, p: nat, c: nat, j: nat, x: nat)
    requires Base(s) == true && Local(s, s', p, c, j) && x < |s.cpus|
    ensures CpuInv(s', x) && HandInv(s', x)
  {
    KnownCpu(s, x);
    KnownProc(s, p);
    assert x != c ==> SameSpins(s, s', x);
  }

  lemma LocalKeepsLock(s: State, s': State, p: nat, c: nat, j: nat, x: nat)
    requires Base(s) == true && Local(s, s', p, c, j) && x < |s.procs| && x != j
    ensures LockInv(s', x)
  {
    KnownProc(s, x);
    KnownProc(s, p);
  }

  lemma LocalKeepsBase(s: State, s': State, p: nat, c: nat, j: nat)
    requires Base(s) == true && Local(s, s', p, c, j) == true
    requires ProcInv(s', p) && (j < |s.procs| ==> LockInv(s', j))
    requires (forall k: nat :: SpinInv(s', k)) && IntrInv(s', c)
    ensures Base(s') == true
  {
    forall x | 0 <= x < |s'.cpus| ensures CpuInv(s', x) && HandInv(s', x) { LocalKeepsCpu(s, s', p, c, j, x); }
    forall x: nat ensures IntrInv(s', x) { if x != c { LocksKeepIntr(s, s', c, j, x); } }
    forall x | 0 <= x < |s'.procs| ensures ProcInv(s', x) { if x != p { LocalKeepsProc(s, s', p, c, j, x); } }
    forall x | 0 <= x < |s'.plock| ensures LockInv(s', x) { if x != j { LocalKeepsLock(s, s', p, c, j, x); } }
  }

  /** A switched-out process q is replaced by q', still switched out. */
  lemma PokeKeepsBase(s: State, x: nat, q': Proc)
    requires Base(s) == true && x < |s.procs| && s.procs[x].cpu.None? && q'.cpu.None?
    requires OffCpuInv(s.(procs := s.procs[x := q']), x)
    ensures Base(s.(procs := s.procs[x := q'])) == true
  {
    var s' := s.(procs := s.procs[x := q']);
    forall c | 0 <= c < |s'.cpus| ensures CpuInv(s', c) && HandInv(s', c) { KnownCpu(s, c); }
    forall c: nat ensures IntrInv(s', c) { assert IntrInv(s, c); }
    forall p | 0 <= p < |s'.procs| ensures ProcInv(s', p) { KnownProc(s, p); }
    forall q | 0 <= q < |s'.plock| ensures LockInv(s', q) {
      KnownProc(s, q);
      if s.plock[q].Some? { KnownCpu(s, s.plock[q].value); }
    }
    forall k: nat ensures SpinInv(s', k) { assert SpinInv(s, k); }
  }

  /** Nobody can look like SLEEPING, UNUSED or ZOMBIE while its lock is free and yet be on a CPU. */
  lemma FreeIsOff(s: State, q: nat)
    requires Base(s) == true && q < |s.procs| && s.plock[q].None?
    requires !s.procs[q].state.Running?
    ensures s.procs[q].cpu.None?
  {
    KnownProc(s, q);
  }

  // ---------------------------------------------------------------- steps of processes

  lemma AcquiredSpins(s: State, s': State, c: nat, k: nat)
    requires s'.spin == s.spin[k := c] && k !in s.spin
    ensures SpinBy(s, s', c) && SpinsOf(s', c) == SpinsOf(s, c) + {k}
  {
    forall d: nat | d != c ensures SameSpins(s, s', d) {}
  }

  lemma ReleasedSpins(s: State, s': State, c: nat, k: nat)
    requires s'.spin == s.spin - {k} && k in SpinsOf(s, c)
    ensures SpinBy(s, s', c) && SpinsOf(s', c) == SpinsOf(s, c) - {k}
  {
    forall d: nat | d != c ensures SameSpins(s, s', d) {}
  }

  /** Steps that acquire or release a spin lock, at Exec. */
  lemma SpinSteps(s: State, p: nat, a: Act)
    requires Base(s) == true && ThreadEnabled(s, p, a) == true && (a.AcquireSpin? || a.ReleaseSpin?)
    ensures Base(ThreadNext(s, p, a)) == true
  {
    var s', c := ThreadNext(s, p, a), Here(s, p);
    KnownProc(s, p);
    if a.AcquireSpin? { AcquiredSpins(s, s', c, a.k); } else { ReleasedSpins(s, s', c, a.k); }
    forall k: nat ensures SpinInv(s', k) { assert SpinInv(s, k); }
    LocalKeepsBase(s, s', p, c, |s.procs|);
  }

  lemma SameLocks(s: State, s': State, c: nat)
    requires Base(s) == true && s'.spin == s.spin && |s'.cpus| == |s.cpus|
    ensures SpinBy(s, s', c) && (forall k: nat :: SpinInv(s', k)) && SpinsOf(s', c) == SpinsOf(s, c)
    ensures s'.plock == s.plock ==> PlocksOf(s', c) == PlocksOf(s, c)
  {
    forall d: nat ensures SameSpins(s, s', d) {}
    forall k: nat ensures SpinInv(s', k) { assert SpinInv(s, k); }
  }

  /** Steps into sleep() that leave all locks alone, and taking a free sleep lock. */
  lemma SleepSteps(s: State, p: nat, a: Act)
    requires Base(s) == true && ThreadEnabled(s, p, a) == true && (a.CallSleep? || a.SleepMark? || a.TakeSleepLock?)
    ensures Base(ThreadNext(s, p, a)) == true
  {
    var s', c := ThreadNext(s, p, a), Here(s, p);
    KnownProc(s, p);
    SameLocks(s, s', c);
    LocalKeepsBase(s, s', p, c, |s.procs|);
  }

  /** Steps into and out of wakeup(). */
  lemma WakeSteps(s: State, p: nat, a: Act)
    requires Base(s) == true && ThreadEnabled(s, p, a) == true && (a.CallWakeup? || a.WakeReturn? || a.DropSleepLock?)
    ensures Base(ThreadNext(s, p, a)) == true
  {
    var s', c := ThreadNext(s, p, a), Here(s, p);
    KnownProc(s, p);
    SameLocks(s, s', c);
    LocalKeepsBase(s, s', p, c, |s.procs|);
  }

  lemma SleepReleaseStep(s: State, p: nat)
    requires Base(s) == true && ThreadEnabled(s, p, SleepRelease) == true
    ensures Base(ThreadNext(s, p, SleepRelease)) == true
  {
    var s', c := ThreadNext(s, p, SleepRelease), Here(s, p);
    KnownProc(s, p);
    ReleasedSpins(s, s', c, s.procs[p].pc.lk);
    forall k: nat ensures SpinInv(s', k) { assert SpinInv(s, k); }
    LocalKeepsBase(s, s', p, c, |s.procs|);
  }

  lemma SleepReacquireStep(s: State, p: nat)
    requires Base(s) == true && ThreadEnabled(s, p, SleepReacquire) == true
    ensures Base(ThreadNext(s, p, SleepReacquire)) == true
  {
    var s', c := ThreadNext(s, p, SleepReacquire), Here(s, p);
    KnownProc(s, p);
    AcquiredSpins(s, s', c, s.procs[p].pc.lk);
    forall k: nat ensures SpinInv(s', k) { assert SpinInv(s, k); }
    LocalKeepsBase(s, s', p, c, |s.procs|);
  }

  /** A process takes its own lock. */
  lemma TakeOwnLockSteps(s: State, p: nat, a: Act)
    requires Base(s) == true && ThreadEnabled(s, p, a) == true && (a.Yield? || a.Exit? || a.SleepAcquire?)
    ensures Base(ThreadNext(s, p, a)) == true
  {
    var s', c := ThreadNext(s, p, a), Here(s, p);
    KnownProc(s, p);
    SameLocks(s, s', c);
    LocalKeepsBase(s, s', p, c, p);
  }

  /** A process releases its own lock after swtch(). */
  lemma ResumeStep(s: State, p: nat, a: Act)
    requires Base(s) == true && ThreadEnabled(s, p, a) == true && (a.Resume?)
    ensures Base(ThreadNext(s, p, a)) == true
  {
    var s', c := ThreadNext(s, p, a), Here(s, p);
    KnownProc(s, p);
    SameLocks(s, s', c);
    LocalKeepsBase(s, s', p, c, p);
  }

  lemma WakeAcquireStep(s: State, p: nat)
    requires Base(s) == true && ThreadEnabled(s, p, WakeAcquire) == true
    ensures Base(ThreadNext(s, p, WakeAcquire)) == true
  {
    var s', c, i := ThreadNext(s, p, WakeAcquire), Here(s, p), s.procs[p].pc.i;
    KnownProc(s, p);
    KnownProc(s, i);
    SameLocks(s, s', c);
    LocalKeepsBase(s, s', p, c, if i == p then |s.procs| else i);
  }

  lemma WakeTargetKeepsBase(s: State, ch: nat, i: nat)
    requires Base(s) == true && i < |s.procs| && (s.procs[i].state.Sleeping? ==> s.procs[i].cpu.None?)
    ensures Base(WakeTarget(s, ch, i)) == true
  {
    KnownProc(s, i);
    if WakeTarget(s, ch, i) != s { PokeKeepsBase(s, i, s.procs[i].(state := Runnable)); }
  }

  /** A process whose lock is held by the handler of a CPU, or by another process, is not on its way into sched(). */
  lemma LockedIsOff(s: State, c: nat, i: nat)
    requires Base(s) == true && i < |s.procs| && s.plock[i] == Some(c) && c < |s.cpus|
    requires s.procs[i].state.Sleeping?
    requires !s.hand[c].NoHand? || (s.cpus[c].pc.InProc? && s.cpus[c].pc.p != i)
    ensures s.procs[i].cpu.None?
  {
    KnownProc(s, i);
    KnownCpu(s, c);
  }

  lemma WakeSetStep(s: State, p: nat)
    requires Base(s) == true && ThreadEnabled(s, p, WakeSet) == true
    ensures Base(ThreadNext(s, p, WakeSet)) == true
  {
    var pc, c := s.procs[p].pc, Here(s, p);
    KnownProc(s, p);
    var s1 := WakeTarget(s, pc.ch, pc.i);
    if s.procs[pc.i].state.Sleeping? { LockedIsOff(s, c, pc.i); }
    WakeTargetKeepsBase(s, pc.ch, pc.i);
    WakeAdvanceStep(s1, p);
  }

  lemma WakeAdvanceStep(s: State, p: nat)
    requires Base(s) == true && ThreadEnabled(s, p, WakeSet) == true
    ensures Base(WakeAdvance(s, p)) == true
  {
    var s', c, i := WakeAdvance(s, p), Here(s, p), s.procs[p].pc.i;
    KnownProc(s, p);
    SameLocks(s, s', c);
    LocalKeepsBase(s, s', p, c, i);
  }

  lemma OtherProcessSteps(s: State, p: nat, a: Act)
    requires Base(s) == true && ThreadEnabled(s, p, a) == true && (a.Kill? || a.Fork? || a.Reap?)
    ensures Base(ThreadNext(s, p, a)) == true
  {
    var q, s' := a.q, ThreadNext(s, p, a);
    KnownProc(s, q);
    if a.Kill? && !s.procs[q].state.Sleeping? {
      assert s' == s;
    } else {
      FreeIsOff(s, q);
      PokeKeepsBase(s, q, s'.procs[q]);
    }
  }

  // ---------------------------------------------------------------- steps of schedulers

  /** Only CPU c changes what it runs; process x keeps its place. */
  ghost predicate SchedBy(s: State, s': State, c: nat) {
    && |s.procs| == |s'.procs| == |s.plock| == |s'.plock| && Free(s, c) && s'.hand == s.hand && s'.spin == s.spin
    && |s'.cpus| == |s.cpus| && s'.cpus == s.cpus[c := s'.cpus[c]] && s'.intr <= s.intr && c !in s'.intr
    && (forall q :: 0 <= q < |s.plock| && s'.plock[q] != s.plock[q] ==>
          (s.plock[q] == None || s.plock[q] == Some(c)) && (s'.plock[q] == None || s'.plock[q] == Some(c)))
  }

  lemma SchedKeepsIntr(s: State, s': State, c: nat, d: nat)
    requires Base(s) == true && SchedBy(s, s', c)
    ensures IntrInv(s', d) && SameSpins(s, s', d)
  {
    assert IntrInv(s, d);
    if d != c { assert PlocksOf(s', d) == PlocksOf(s, d); }
  }

  lemma SchedKeepsRest(s: State, s': State, c: nat)
    requires Base(s) == true && SchedBy(s, s', c)
    ensures (forall d: nat :: IntrInv(s', d)) && (forall k: nat :: SpinInv(s', k)) && SpinBy(s, s', c)
    ensures SpinsOf(s', c) == SpinsOf(s, c)
  {
    forall d: nat ensures IntrInv(s', d) && SameSpins(s, s', d) { SchedKeepsIntr(s, s', c, d); }
    forall k: nat ensures SpinInv(s', k) { assert SpinInv(s, k); }
  }

  lemma SchedReleaseStep(s: State, c: nat)
    requires Base(s) == true && SchedEnabled(s, c, SchedRelease) == true
    ensures Base(SchedNext(s, c, SchedRelease)) == true
  {
    var s' := SchedNext(s, c, SchedRelease);
    KnownCpu(s, c);
    KnownProc(s, s.cpus[c].pc.p);
    NoIntrHere(s, c, s.cpus[c].pc.p);
    SchedKeepsRest(s, s', c);
    forall x | 0 <= x < |s'.cpus| ensures CpuInv(s', x) && HandInv(s', x) {
      KnownCpu(s, x);
      assert x != c ==> SameSpins(s, s', x);
    }
    forall x | 0 <= x < |s'.procs| ensures ProcInv(s', x) && LockInv(s', x) {
      KnownProc(s, x);
      SchedKeepsProc(s, s', c, x);
    }
  }

  /** A CPU that holds a process lock has interrupts off. */
  lemma NoIntrHere(s: State, c: nat, q: nat)
    requires Base(s) == true && q < |s.plock| && s.plock[q] == Some(c)
    ensures c !in s.intr
  {
    assert IntrInv(s, c);
    assert q in PlocksOf(s, c);
  }

  /** A process on another CPU, or on none and not the one that the scheduler holds. */
  lemma SchedKeepsProc(s: State, s': State, c: nat, x: nat)
    requires Base(s) == true && SchedBy(s, s', c) == true && x < |s.procs| && s'.procs == s.procs
    requires !s.cpus[c].pc.InProc? && SpinBy(s, s', c)
    requires s.plock[x] == Some(c) ==> s'.plock[x] == None || s'.cpus[c].pc == Chose(x)
    requires s'.plock[x] == Some(c) ==> s'.cpus[c].pc == Chose(x)
    ensures ProcInv(s', x) && LockInv(s', x)
  {
    KnownProc(s, x);
    if s.procs[x].cpu.Some? { assert Here(s, x) != c && SameSpins(s, s', Here(s, x)); }
  }

  lemma SchedAcquireStep(s: State, c: nat, q: nat)
    requires Base(s) == true && SchedEnabled(s, c, SchedAcquire(q)) == true
    ensures Base(SchedNext(s, c, SchedAcquire(q)))
  {
    var s' := SchedNext(s, c, SchedAcquire(q));
    KnownCpu(s, c);
    SchedKeepsRest(s, s', c);
    forall x | 0 <= x < |s'.cpus| ensures CpuInv(s', x) && HandInv(s', x) {
      KnownCpu(s, x);
      assert x != c ==> SameSpins(s, s', x);
    }
    forall x | 0 <= x < |s'.procs| ensures ProcInv(s', x) && LockInv(s', x) {
      KnownProc(s, x);
      SchedKeepsProc(s, s', c, x);
    }
  }

  lemma SchedSkipStep(s: State, c: nat, p: nat)
    requires Base(s) == true && Free(s, c) && s.cpus[c].pc == Chose(p) && p < |s.procs| && !s.procs[p].state.Runnable?
    ensures Base(SchedChosen(s, c, p)) == true
  {
    var s' := SchedChosen(s, c, p);
    KnownCpu(s, c);
    NoIntrHere(s, c, p);
    SchedKeepsRest(s, s', c);
    forall x | 0 <= x < |s'.cpus| ensures CpuInv(s', x) && HandInv(s', x) {
      KnownCpu(s, x);
      assert x != c ==> SameSpins(s, s', x);
    }
    forall x | 0 <= x < |s'.procs| ensures ProcInv(s', x) && LockInv(s', x) {
      KnownProc(s, x);
      SchedKeepsProc(s, s', c, x);
    }
  }

  /** The scheduler and process p exchange CPU c. */
  lemma SwitchKeepsOther(s: State, s': State, c: nat, p: nat, x: nat)
    requires Base(s) == true && SchedBy(s, s', c) == true && SpinBy(s, s', c) && s'.plock == s.plock
    requires x < |s.procs| && x != p && p < |s.procs| == |s'.procs| && s'.procs == s.procs[p := s'.procs[p]]
    requires (s.procs[p].cpu == None || s.procs[p].cpu == Some(c)) && c < |s.cpus|
    requires s.plock[p] == Some(c) && (s.cpus[c].pc == Chose(p) || s.cpus[c].pc == InProc(p))
    requires s.cpus[c].pc.InProc? ==> OwnsSelf(s.procs[p]) && !(s.procs[p].mode.On? && s.procs[p].pc.WakingLocked?)
    ensures ProcInv(s', x) && LockInv(s', x)
  {
    KnownProc(s, x);
    KnownCpu(s, c);
    if s.procs[x].cpu.Some? { assert Here(s, x) != c && SameSpins(s, s', Here(s, x)); }
    if s.plock[x].Some? { KnownCpu(s, s.plock[x].value); }
  }

  lemma SwitchKeepsCpu(s: State, s': State, c: nat, p: nat, x: nat)
    requires Base(s) == true && SchedBy(s, s', c) == true && SpinBy(s, s', c) && s'.plock == s.plock
    requires x < |s.cpus| && x != c && p < |s.procs| == |s'.procs| && s'.procs == s.procs[p := s'.procs[p]]
    requires s.plock[p] == Some(c)
    requires s.procs[p].cpu == None || s.procs[p].cpu == Some(c)
    ensures CpuInv(s', x) && HandInv(s', x)
  {
    KnownCpu(s, x);
    assert SameSpins(s, s', x);
  }

  lemma SchedRunStep(s: State, c: nat, p: nat)
    requires Base(s) == true && Free(s, c) && s.cpus[c].pc == Chose(p) && p < |s.procs| && s.procs[p].state.Runnable?
    ensures Base(SchedChosen(s, c, p)) == true
  {
    var s' := SchedChosen(s, c, p);
    KnownCpu(s, c);
    KnownProc(s, p);
    NoIntrHere(s, c, p);
    SchedKeepsRest(s, s', c);
    forall x | 0 <= x < |s'.cpus| ensures CpuInv(s', x) && HandInv(s', x) {
      if x != c { SwitchKeepsCpu(s, s', c, p, x); }
    }
    forall x | 0 <= x < |s'.procs| ensures ProcInv(s', x) && LockInv(s', x) {
      if x != p { SwitchKeepsOther(s, s', c, p, x); }
    }
  }

  lemma SwtchStep(s: State, p: nat)
    requires Base(s) == true && ThreadEnabled(s, p, Swtch) == true
    ensures Base(ThreadNext(s, p, Swtch)) == true
  {
    var s', c := ThreadNext(s, p, Swtch), Here(s, p);
    KnownProc(s, p);
    NoIntrHere(s, c, p);
    SchedKeepsRest(s, s', c);
    forall x | 0 <= x < |s'.cpus| ensures CpuInv(s', x) && HandInv(s', x) {
      if x != c { SwitchKeepsCpu(s, s', c, p, x); }
    }
    forall x | 0 <= x < |s'.procs| ensures ProcInv(s', x) && LockInv(s', x) {
      if x != p { SwitchKeepsOther(s, s', c, p, x); }
    }
  }

  // ---------------------------------------------------------------- steps of interrupt handlers

  /** The handler of CPU c takes a step. */
  ghost predicate HandBy(s: State, s': State, c: nat, j: nat) {
    && LocksBy(s, s', c, j) && s'.procs == s.procs && c !in s'.intr
    && c < |s.hand| == |s'.hand| == |s.cpus| && s'.hand == s.hand[c := s'.hand[c]]
    && !s.hand[c].NoHand? && !s'.hand[c].NoHand?
    && (s.hand[c].HandLocked? ==> s.hand[c].i == j)
  }

  lemma HandKeepsProc(s: State, s': State, c: nat, j: nat, x: nat)
    requires Base(s) == true && HandBy(s, s', c, j) && x < |s.procs|
    ensures ProcInv(s', x)
  {
    KnownProc(s, x);
    if s.procs[x].cpu.Some? && Here(s, x) != c { assert SameSpins(s, s', Here(s, x)); }
  }

  lemma HandKeepsCpu(s: State, s': State, c: nat, j: nat, x: nat)
    requires Base(s) == true && HandBy(s, s', c, j) && x < |s.cpus|
    ensures CpuInv(s', x) && (x != c ==> HandInv(s', x))
  {
    KnownCpu(s, x);
    KnownCpu(s, c);
    if x != c { assert SameSpins(s, s', x); }
  }

  lemma HandKeepsLock(s: State, s': State, c: nat, j: nat, x: nat)
    requires Base(s) == true && HandBy(s, s', c, j) && x < |s.procs| && x != j
    ensures LockInv(s', x)
  {
    KnownProc(s, x);
  }

  lemma HandKeepsBase(s: State, s': State, c: nat, j: nat)
    requires Base(s) == true && HandBy(s, s', c, j) == true && HandInv(s', c) && (j < |s.procs| ==> LockInv(s', j))
    requires forall k: nat :: SpinInv(s', k)
    ensures Base(s') == true
  {
    forall x | 0 <= x < |s'.cpus| ensures CpuInv(s', x) && HandInv(s', x) { HandKeepsCpu(s, s', c, j, x); }
    forall x: nat ensures IntrInv(s', x) { if x != c { LocksKeepIntr(s, s', c, j, x); } }
    forall x | 0 <= x < |s'.procs| ensures ProcInv(s', x) { HandKeepsProc(s, s', c, j, x); }
    forall x | 0 <= x < |s'.plock| ensures LockInv(s', x) { if x != j { HandKeepsLock(s, s', c, j, x); } }
  }

  lemma HandlerIsOff(s: State, c: nat)
    requires Base(s) == true && c < |s.hand| && !s.hand[c].NoHand?
    ensures c !in s.intr
  {
    KnownCpu(s, c);
  }

  lemma HandSpinSteps(s: State, c: nat, a: HandAct)
    requires Base(s) == true && HandEnabled(s, c, a) == true && (a.HandAcquire? || a.HandRelease?)
    ensures Base(HandNext(s, c, a)) == true
  {
    var s' := HandNext(s, c, a);
    HandlerIsOff(s, c);
    KnownCpu(s, c);
    if a.HandAcquire? { AcquiredSpins(s, s', c, a.k); } else { ReleasedSpins(s, s', c, a.k); }
    forall k: nat ensures SpinInv(s', k) { assert SpinInv(s, k); }
    HandKeepsBase(s, s', c, |s.procs|);
  }

  lemma HandQuietSteps(s: State, c: nat, a: HandAct)
    requires Base(s) == true && HandEnabled(s, c, a) == true && (a.HandWakeup? || a.HandWakeReturn?)
    ensures Base(HandNext(s, c, a)) == true
  {
    var s' := HandNext(s, c, a);
    HandlerIsOff(s, c);
    SameLocks(s, s', c);
    HandKeepsBase(s, s', c, |s.procs|);
  }

  lemma HandWakeAcquireStep(s: State, c: nat)
    requires Base(s) == true && HandEnabled(s, c, HandWakeAcquire) == true
    ensures Base(HandNext(s, c, HandWakeAcquire)) == true
  {
    var s', i := HandNext(s, c, HandWakeAcquire), s.hand[c].i;
    HandlerIsOff(s, c);
    SameLocks(s, s', c);
    HandKeepsBase(s, s', c, if s.cpus[c].cur == Some(i) then |s.procs| else i);
  }

  lemma HandAdvanceStep(s: State, c: nat)
    requires Base(s) == true && HandEnabled(s, c, HandWakeSet) == true
    ensures Base(HandAdvance(s, c)) == true
  {
    var s', i := HandAdvance(s, c), s.hand[c].i;
    HandlerIsOff(s, c);
    KnownCpu(s, c);
    SameLocks(s, s', c);
    HandKeepsBase(s, s', c, i);
  }

  lemma HandWakeSetStep(s: State, c: nat)
    requires Base(s) == true && HandEnabled(s, c, HandWakeSet) == true
    ensures Base(HandNext(s, c, HandWakeSet)) == true
  {
    var h := s.hand[c];
    KnownCpu(s, c);
    if s.procs[h.i].state.Sleeping? { LockedIsOff(s, c, h.i); }
    WakeTargetKeepsBase(s, h.ch, h.i);
    HandAdvanceStep(WakeTarget(s, h.ch, h.i), c);
  }

  /** Interrupts are switched on or off. */
  lemma IntrFlagSteps(s: State, c: nat, a: HandAct)
    requires Base(s) == true && HandEnabled(s, c, a) == true && (a.IntrOn? || a.IntrOff?)
    ensures Base(HandNext(s, c, a)) == true
  {
    var s' := HandNext(s, c, a);
    assert IntrInv(s, c);
    forall x | 0 <= x < |s'.cpus| ensures CpuInv(s', x) && HandInv(s', x) { KnownCpu(s, x); SameLocks(s, s', x); }
    forall x: nat ensures IntrInv(s', x) { assert IntrInv(s, x); SameLocks(s, s', x); }
    forall x | 0 <= x < |s'.procs| ensures ProcInv(s', x) && LockInv(s', x) {
      KnownProc(s, x);
      if s.procs[x].cpu.Some? { SameLocks(s, s', Here(s, x)); }
    }
    SameLocks(s, s', c);
  }

  /** A handler starts or ends on a CPU that holds no lock. */
  ghost predicate Turn(s: State, s': State, c: nat) {
    && c < |s.hand| == |s.cpus| == |s'.hand| && s'.hand == s.hand[c := s'.hand[c]]
    && s' == s.(hand := s'.hand, intr := s'.intr) && SpinsOf(s, c) == {} && PlocksOf(s, c) == {}
    && (forall d :: d in s'.intr && d != c ==> d in s.intr)
    && ((s.hand[c].NoHand? && s'.hand[c].HandExec? && c !in s'.intr) || (s.hand[c].HandExec? && s'.hand[c].NoHand?))
  }

  /** What runs on a CPU that holds no lock can be interrupted. */
  lemma LocklessIsInterruptible(s: State, c: nat)
    requires Base(s) == true && Free(s, c) && SpinsOf(s, c) == {} && PlocksOf(s, c) == {}
    ensures s.cpus[c].pc.Idle?
        || (s.cpus[c].pc.InProc? && s.cpus[c].pc.p < |s.procs| && Interruptible(s.procs[s.cpus[c].pc.p]))
  {
    KnownCpu(s, c);
    forall q: nat | q < |s.plock| ensures s.plock[q] != Some(c) { assert q !in PlocksOf(s, c); }
    if s.cpus[c].pc.InProc? { KnownProc(s, s.cpus[c].pc.p); }
  }

  lemma TurnKeepsProc(s: State, s': State, c: nat, x: nat)
    requires Base(s) == true && Turn(s, s', c) && x < |s.procs|
    ensures ProcInv(s', x) && LockInv(s', x)
  {
    KnownProc(s, x);
    assert x !in PlocksOf(s, c);
    if s.procs[x].cpu.Some? { SameLocks(s, s', Here(s, x)); }
  }

  lemma TurnKeepsBase(s: State, s': State, c: nat)
    requires Base(s) == true && Turn(s, s', c) == true
    ensures Base(s') == true
  {
    if s.hand[c].NoHand? { LocklessIsInterruptible(s, c); }
    forall x | 0 <= x < |s'.cpus| ensures CpuInv(s', x) && HandInv(s', x) { KnownCpu(s, x); SameLocks(s, s', x); }
    forall x: nat ensures IntrInv(s', x) { assert IntrInv(s, x); SameLocks(s, s', x); }
    forall x | 0 <= x < |s'.procs| ensures ProcInv(s', x) && LockInv(s', x) { TurnKeepsProc(s, s', c, x); }
    SameLocks(s, s', c);
  }

  lemma HandlerHoldsNothing(s: State, c: nat)
    requires Base(s) == true && c < |s.hand| && s.hand[c].HandExec?
    ensures PlocksOf(s, c) == {}
  {
    forall q: nat | q < |s.plock| && s.plock[q] == Some(c) ensures false { KnownProc(s, q); }
  }

  lemma TurnSteps(s: State, c: nat, a: HandAct)
    requires Base(s) == true && HandEnabled(s, c, a) == true && (a.IntrEnter? || a.IntrLeave?)
    ensures Base(HandNext(s, c, a)) == true
  {
    assert IntrInv(s, c);
    if a.IntrLeave? { HandlerHoldsNothing(s, c); }
    TurnKeepsBase(s, HandNext(s, c, a), c);
  }

  // ---------------------------------------------------------------- every step

  predicate OfWakeup(a: Act) {
    a.CallWakeup? || a.WakeReturn? || a.DropSleepLock? || a.WakeAcquire? || a.WakeSet? || a.Kill? || a.Fork? || a.Reap?
  }

  lemma WakersKeepBase(s: State, p: nat, a: Act)
    requires Base(s) == true && ThreadEnabled(s, p, a) == true && OfWakeup(a)
    ensures Base(ThreadNext(s, p, a)) == true
  {
    match a
    case CallWakeup(_) => WakeSteps(s, p, a);
    case WakeReturn => WakeSteps(s, p, a);
    case DropSleepLock(_) => WakeSteps(s, p, a);
    case WakeAcquire => WakeAcquireStep(s, p);
    case WakeSet => WakeSetStep(s, p);
    case _ => OtherProcessSteps(s, p, a);
  }

  lemma SleepersKeepBase(s: State, p: nat, a: Act)
    requires Base(s) == true && ThreadEnabled(s, p, a) == true && !OfWakeup(a)
    ensures Base(ThreadNext(s, p, a)) == true
  {
    match a
    case AcquireSpin(_) => SpinSteps(s, p, a);
    case ReleaseSpin(_) => SpinSteps(s, p, a);
    case CallSleep(_, _) => SleepSteps(s, p, a);
    case SleepMark => SleepSteps(s, p, a);
    case TakeSleepLock(_) => SleepSteps(s, p, a);
    case SleepRelease => SleepReleaseStep(s, p);
    case SleepReacquire => SleepReacquireStep(s, p);
    case Resume => ResumeStep(s, p, a);
    case Swtch => SwtchStep(s, p);
    case _ => TakeOwnLockSteps(s, p, a);
  }

  lemma ThreadKeepsBase(s: State, p: nat, a: Act)
    requires Base(s) == true && ThreadEnabled(s, p, a) == true
    ensures Base(ThreadNext(s, p, a)) == true
  {
    if OfWakeup(a) { WakersKeepBase(s, p, a); } else { SleepersKeepBase(s, p, a); }
  }

  lemma SchedKeepsBase(s: State, c: nat, a: SchedAct)
    requires Base(s) == true && SchedEnabled(s, c, a) == true
    ensures Base(SchedNext(s, c, a)) == true
  {
    match a
    case SchedRelease => SchedReleaseStep(s, c);
    case SchedAcquire(q) => SchedAcquireStep(s, c, q);
    case SchedChoose =>
      var p := s.cpus[c].pc.p;
      if s.procs[p].state.Runnable? { SchedRunStep(s, c, p); } else { SchedSkipStep(s, c, p); }
  }

  lemma HandlerKeepsBase(s: State, c: nat, a: HandAct)
    requires Base(s) == true && HandEnabled(s, c, a) == true
    ensures Base(HandNext(s, c, a)) == true
  {
    match a
    case IntrOn => IntrFlagSteps(s, c, a);
    case IntrOff => IntrFlagSteps(s, c, a);
    case IntrEnter => TurnSteps(s, c, a);
    case IntrLeave => TurnSteps(s, c, a);
    case HandAcquire(_) => HandSpinSteps(s, c, a);
    case HandRelease(_) => HandSpinSteps(s, c, a);
    case HandWakeup(_) => HandQuietSteps(s, c, a);
    case HandWakeReturn => HandQuietSteps(s, c, a);
    case HandWakeAcquire => HandWakeAcquireStep(s, c);
    case HandWakeSet => HandWakeSetStep(s, c);
  }

  /** Every step of every process, scheduler and interrupt handler keeps the lock and CPU discipline. */
  lemma StepKeepsBase(s: State, t: Step)
    requires Base(s) == true && Enabled(s, t) == true
    ensures Base(Next(s, t)) == true
  {
    match t
    case Thread(p, a) => ThreadKeepsBase(s, p, a);
    case Sched(c, a) => SchedKeepsBase(s, c, a);
    case Intr(c, a) => HandlerKeepsBase(s, c, a);
  }
}
