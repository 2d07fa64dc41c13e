/** The descriptors and rings that the driver of kernel/virtio_disk.c shares with the disk device (split
    virtqueues, section 2.6 of Virtio 1.1), as a state that driver, device and interrupt handler change in
    turn. */
module VirtioRing {
  import opened Common

  const NUM := 8
  const WRAP := 0x1_0000     // ring indices are 16 bits

  /** Where a request is: the driver has published it as number a; the device has taken it; the device has
      reported it as number u, with status 0 if it is good; the interrupt handler has seen that. */
  datatype Phase = Pending(a: nat) | Taken | Used(u: nat, good: bool) | Seen

  /** A request: the second and third descriptor of its chain (the first is its name), the buffer, and the
      number under which it was published. */
  datatype Req = Req(mid: nat, last: nat, buf: nat, id: nat, phase: Phase)

  /** Place k of the chain that starts at head. */
  datatype Place = Place(head: nat, k: nat)

  /** The first line is what driver and device see.  The rest is ghost: requests by head, where each
      descriptor is used, the request of each buffer, and how many requests have been published (pub), taken by the
      device (got), reported (rep) and seen (seen) since boot, with the requests that are in those states. */
  datatype Ring = Ring(
    free: seq<bool>, next: seq<nat>, chained: seq<bool>, info: seq<nat>, ok: seq<bool>, avail: seq<nat>,
    usedRing: seq<nat>, busy: set<nat>,
    reqs: map<nat, Req>, own: map<nat, Place>, inFlight: map<nat, nat>, pub: nat, got: nat, rep: nat, seen: nat,
    taken: set<nat>, done: set<nat>, completed: set<nat>, byId: map<nat, nat>)

  function Slot(n: nat): nat {
    n % NUM
  }

  lemma SlotsDiffer(a: nat, b: nat)
    requires a < b < a + NUM
    ensures Slot(a) != Slot(b) && Slot(a) < NUM && Slot(b) < NUM
  {
  }

  /** 16-bit indices select the same slots, and tell numbers apart that differ by less than 65536. */
  lemma Wraps(a: nat, b: nat)
    ensures Slot(a % WRAP) == Slot(a) && (a % WRAP + 1) % WRAP == (a + 1) % WRAP
    ensures a <= b < a + WRAP ==> (a % WRAP == b % WRAP <==> a == b)
  {
    SlotWraps(a);
    if a <= b < a + WRAP && a % WRAP == b % WRAP { assert b - a == (b / WRAP - a / WRAP) * WRAP; }
  }

  lemma SlotWraps(a: nat)
    ensures Slot(a % WRAP) == Slot(a) && (a % WRAP + 1) % WRAP == (a + 1) % WRAP
  {
    assert a == a / WRAP * WRAP + a % WRAP;
    assert WRAP == 8192 * NUM;
  }

  // ---------------------------------------------------------------- invariant

  ghost predicate Shape(s: Ring) {
    |s.free| == |s.next| == |s.chained| == |s.info| == |s.ok| == |s.avail| == |s.usedRing| == NUM
  }

  function Part(r: Req, head: nat, k: nat): nat {
    if k == 0 then head else if k == 1 then r.mid else r.last
  }

  /** A descriptor is free, or it is in one place of one chain. */
  ghost predicate DescOk(s: Ring, d: nat) {
    && (d in s.own ==>
         && d < NUM && s.own[d].head in s.reqs && s.own[d].k < 3
         && Part(s.reqs[s.own[d].head], s.own[d].head, s.own[d].k) == d)
    && (d < NUM && |s.free| == NUM ==> (s.free[d] <==> d !in s.own))
  }

  ghost predicate ChainOk(s: Ring, h: nat) {
    h in s.reqs && Shape(s) ==>
      var r := s.reqs[h];
      && h < NUM && r.mid < NUM && r.last < NUM
      && h in s.own && s.own[h] == Place(h, 0) && r.mid in s.own && s.own[r.mid] == Place(h, 1) && r.last in s.own
      && s.own[r.last] == Place(h, 2)
      && s.chained[h] && s.next[h] == r.mid && s.chained[r.mid] && s.next[r.mid] == r.last && !s.chained[r.last]
  }

  ghost predicate PhaseOk(s: Ring, h: nat) {
    h in s.reqs && h < NUM && Shape(s) ==>
      var r := s.reqs[h];
      && s.info[h] == r.buf && r.buf in s.inFlight && s.inFlight[r.buf] == h && r.id < s.pub && r.id in s.byId
      && s.byId[r.id] == h
      && (r.buf in s.busy <==> !r.phase.Seen?)
      && (h in s.taken <==> r.phase.Taken?) && (h in s.done <==> r.phase.Seen?)
      && (r.id in s.completed <==> (r.phase.Used? && r.phase.good) || r.phase.Seen?)
      && match r.phase
         case Pending(a) => s.got <= a < s.pub && s.avail[Slot(a)] == h && r.id == a
         case Used(u, good) => s.rep <= s.pub && s.seen <= u < s.rep && s.usedRing[Slot(u)] == h && s.ok[h] == good
         case _ => true
  }

  /** What the device is to find in the available ring. */
  ghost predicate AvailOk(s: Ring, a: nat) {
    s.got <= a < s.pub && |s.avail| == NUM ==>
      var h := s.avail[Slot(a)];
      h in s.reqs && s.reqs[h].phase == Pending(a)
  }

  /** What the handler is to find in the used ring. */
  ghost predicate UsedOk(s: Ring, u: nat) {
    s.seen <= u < s.rep && |s.usedRing| == NUM ==>
      var h := s.usedRing[Slot(u)];
      h in s.reqs && s.reqs[h].phase.Used? && s.reqs[h].phase.u == u
  }

  ghost predicate Counts(s: Ring) {
    && s.seen <= s.rep <= s.got <= s.pub
    && |s.taken| == s.got - s.rep
    && |s.done| + s.pub - s.seen == |s.reqs|
    && |s.own| == 3 * |s.reqs|
  }

  ghost predicate MemberOk(s: Ring, x: nat) {
    && (x in s.taken || x in s.done ==> x in s.reqs)
    && (x in s.completed ==> x < s.pub)
    && (x in s.busy ==> x in s.inFlight)
    && (x in s.inFlight ==> s.inFlight[x] in s.reqs && s.reqs[s.inFlight[x]].buf == x)
  }

  ghost predicate Inv(s: Ring) {
    && Shape(s) && Counts(s)
    && (forall d :: DescOk(s, d)) && (forall h :: ChainOk(s, h)) && (forall h :: PhaseOk(s, h))
    && (forall a :: AvailOk(s, a)) && (forall u :: UsedOk(s, u)) && (forall x :: MemberOk(s, x))
  }

  lemma KnownDesc(s: Ring, d: nat)
    requires Inv(s)
    ensures DescOk(s, d) && MemberOk(s, d)
  {
  }

  lemma KnownReq(s: Ring, h: nat)
    requires Inv(s)
    ensures ChainOk(s, h) && PhaseOk(s, h)
  {
  }

  lemma KnownSlots(s: Ring, n: nat)
    requires Inv(s)
    ensures AvailOk(s, n) && UsedOk(s, n)
  {
  }

  function Indices(n: nat): (r: set<nat>)
    ensures |r| == n && forall x: nat :: x in r <==> x < n
  {
    if n == 0 then {} else Indices(n - 1) + {n - 1}
  }

  /** Three descriptors each, out of eight: at most two requests at a time. */
  lemma AtMostTwo(s: Ring)
    requires Inv(s)
    ensures |s.reqs| <= 2 && s.pub - s.seen <= 2
  {
    forall d | d in s.own ensures d < NUM { KnownDesc(s, d); }
    assert s.own.Keys <= Indices(NUM);
    SubsetSize(s.own.Keys, Indices(NUM));
  }

  /** All descriptors are free, no request has been made. */
  ghost predicate Unused(s: Ring) {
    && (forall d :: 0 <= d < |s.free| ==> s.free[d]) && s.reqs == map[] && s.busy == {} && s.completed == {}
    && s.pub == s.got == s.rep == s.seen == 0
  }

  function Empty(): Ring {
    Ring(seq(NUM, _ => true), seq(NUM, _ => 0), seq(NUM, _ => false), seq(NUM, _ => 0), seq(NUM, _ => false),
         seq(NUM, _ => 0), seq(NUM, _ => 0), {},
         map[], map[], map[], 0, 0, 0, 0, {}, {}, {}, map[])
  }

  lemma EmptyUnused()
    ensures Unused(Empty()) == true
  {
  }

  lemma EmptyInv()
    ensures Inv(Empty()) == true
  {
    var s := Empty();
    forall d ensures DescOk(s, d) {}
    forall h ensures ChainOk(s, h) {}
    forall h ensures PhaseOk(s, h) {}
    forall a ensures AvailOk(s, a) {}
    forall u ensures UsedOk(s, u) {}
    forall x ensures MemberOk(s, x) {}
  }

  // ---------------------------------------------------------------- steps

  /** virtio_disk_rw() up to its wait: the chain h, m, l for buffer b is filled in and published. */
  function Submit(s: Ring, h: nat, m: nat, l: nat, b: nat): Ring
    requires Shape(s) && h < NUM && m < NUM && l < NUM
  {
    s.(free := s.free[h := false][m := false][l := false], next := s.next[h := m][m := l][l := 0],
       chained := s.chained[h := true][m := true][l := false], info := s.info[h := b], ok := s.ok[h := false],
       avail := s.avail[Slot(s.pub) := h], busy := s.busy + {b},
       reqs := s.reqs[h := Req(m, l, b, s.pub, Pending(s.pub))],
       own := s.own[h := Place(h, 0)][m := Place(h, 1)][l := Place(h, 2)], inFlight := s.inFlight[b := h],
       pub := s.pub + 1, byId := s.byId[s.pub := h])
  }

  ghost predicate CanSubmit(s: Ring, h: nat, m: nat, l: nat, b: nat) {
    && Inv(s) == true && h < NUM && m < NUM && l < NUM && h != m && h != l && m != l
    && s.free[h] && s.free[m] && s.free[l] && b !in s.inFlight
  }

  lemma FreeIsUnused(s: Ring, d: nat)
    requires Inv(s) && d < NUM && s.free[d]
    ensures d !in s.own && d !in s.reqs
  {
    KnownDesc(s, d);
    KnownReq(s, d);
  }

  /** The three descriptors are in no chain, and there is room in the rings. */
  ghost predicate Fresh(s: Ring, h: nat, m: nat, l: nat, b: nat) {
    && Shape(s) && h < NUM && m < NUM && l < NUM && h != m && h != l && m != l
    && h !in s.own && m !in s.own && l !in s.own && h !in s.reqs && b !in s.inFlight && b !in s.busy
    && s.seen <= s.rep <= s.got <= s.pub < s.seen + NUM
  }

  lemma SubmitInv(s: Ring, h: nat, m: nat, l: nat, b: nat)
    requires CanSubmit(s, h, m, l, b) == true
    ensures Inv(Submit(s, h, m, l, b))
  {
    var s' := Submit(s, h, m, l, b);
    FreeIsUnused(s, h);
    FreeIsUnused(s, m);
    FreeIsUnused(s, l);
    AtMostTwo(s);
    KnownDesc(s, b);
    KnownDesc(s, h);
    KnownDesc(s, s.pub);
    SubmitCounts(s, h, m, l, b);
    forall d ensures DescOk(s', d) && MemberOk(s', d) { KnownDesc(s, d); SubmitDesc(s, h, m, l, b, d); }
    forall x ensures ChainOk(s', x) && PhaseOk(s', x) { KnownReq(s, x); SubmitReq(s, h, m, l, b, x); }
    forall n: nat ensures AvailOk(s', n) && UsedOk(s', n) { KnownSlots(s, n); SubmitSlots(s, h, m, l, b, n); }
  }

  lemma SubmitCounts(s: Ring, h: nat, m: nat, l: nat, b: nat)
    requires Fresh(s, h, m, l, b) && Counts(s)
    ensures Counts(Submit(s, h, m, l, b))
  {
    OwnThree(s.own, h, m, l);
    OneMore(s.reqs, h, Req(m, l, b, s.pub, Pending(s.pub)));
  }

  lemma OneMore<T>(a: map<nat, T>, h: nat, x: T)
    requires h !in a
    ensures |a[h := x]| == |a| + 1
  {
    assert a[h := x].Keys == a.Keys + {h};
    assert |a[h := x].Keys| == |a[h := x]| && |a.Keys| == |a|;
  }

  lemma OwnThree(a: map<nat, Place>, h: nat, m: nat, l: nat)
    requires h !in a && m !in a && l !in a && h != m && h != l && m != l
    ensures |a[h := Place(h, 0)][m := Place(h, 1)][l := Place(h, 2)]| == |a| + 3
  {
    OneMore(a, h, Place(h, 0));
    OneMore(a[h := Place(h, 0)], m, Place(h, 1));
    OneMore(a[h := Place(h, 0)][m := Place(h, 1)], l, Place(h, 2));
  }

  lemma SubmitDesc(s: Ring, h: nat, m: nat, l: nat, b: nat, d: nat)
    requires Fresh(s, h, m, l, b) && DescOk(s, d) && MemberOk(s, d)
    ensures DescOk(Submit(s, h, m, l, b), d) && MemberOk(Submit(s, h, m, l, b), d)
  {
  }

  lemma SubmitReq(s: Ring, h: nat, m: nat, l: nat, b: nat, x: nat)
    requires Fresh(s, h, m, l, b) && ChainOk(s, x) && PhaseOk(s, x) && s.pub !in s.completed && h !in s.taken
    requires h !in s.done
    ensures ChainOk(Submit(s, h, m, l, b), x) && PhaseOk(Submit(s, h, m, l, b), x)
  {
    if x in s.reqs && s.reqs[x].phase.Pending? { SlotsDiffer(s.reqs[x].phase.a, s.pub); }
  }

  lemma SubmitSlots(s: Ring, h: nat, m: nat, l: nat, b: nat, n: nat)
    requires Fresh(s, h, m, l, b) && AvailOk(s, n) && UsedOk(s, n)
    ensures AvailOk(Submit(s, h, m, l, b), n) && UsedOk(Submit(s, h, m, l, b), n)
  {
    if s.got <= n < s.pub { SlotsDiffer(n, s.pub); }
  }

  /** The links of free descriptors do not matter. */
  lemma ScratchInv(s: Ring, next: seq<nat>, chained: seq<bool>)
    requires Inv(s) && |next| == |chained| == NUM
    requires forall d :: 0 <= d < NUM && !s.free[d] ==> next[d] == s.next[d] && chained[d] == s.chained[d]
    ensures Inv(s.(next := next, chained := chained))
  {
    var s' := s.(next := next, chained := chained);
    forall d ensures DescOk(s', d) && MemberOk(s', d) { KnownDesc(s, d); }
    forall x ensures ChainOk(s', x) && PhaseOk(s', x) {
      KnownReq(s, x);
      if x in s.reqs { KnownDesc(s, x); KnownDesc(s, s.reqs[x].mid); KnownDesc(s, s.reqs[x].last); }
    }
    forall n: nat ensures AvailOk(s', n) && UsedOk(s', n) { KnownSlots(s, n); }
  }

  /** A request enters another phase. */
  function Enter(s: Ring, h: nat, phase: Phase): Ring
    requires h in s.reqs
  {
    s.(reqs := s.reqs[h := s.reqs[h].(phase := phase)])
  }

  /** The device takes the next request. */
  function Take(s: Ring): Ring
    requires Shape(s) && s.avail[Slot(s.got)] in s.reqs
  {
    var h := s.avail[Slot(s.got)];
    Enter(s, h, Taken).(got := s.got + 1, taken := s.taken + {h})
  }

  lemma TakeInv(s: Ring)
    requires Inv(s) && s.got < s.pub
    ensures s.avail[Slot(s.got)] in s.reqs && s.reqs[s.avail[Slot(s.got)]].phase == Pending(s.got) && Inv(Take(s))
  {
    KnownSlots(s, s.got);
    var h := s.avail[Slot(s.got)];
    KnownReq(s, h);
    var s' := Take(s);
    assert s'.reqs.Keys == s.reqs.Keys;
    forall d ensures DescOk(s', d) && MemberOk(s', d) { KnownDesc(s, d); }
    forall x ensures ChainOk(s', x) && PhaseOk(s', x) { TakeReq(s, h, x); }
    forall n: nat ensures AvailOk(s', n) && UsedOk(s', n) { KnownSlots(s, n); }
  }

  lemma TakeReq(s: Ring, h: nat, x: nat)
    requires Inv(s) && h == s.avail[Slot(s.got)] && h in s.reqs && s.reqs[h].phase == Pending(s.got)
    ensures ChainOk(Take(s), x) && PhaseOk(Take(s), x)
  {
    KnownReq(s, x);
    KnownReq(s, h);
  }

  /** The device has finished a request, or failed to, and reports it, in any order. */
  function Report(s: Ring, h: nat, good: bool): Ring
    requires Shape(s) && h in s.reqs && h < NUM
  {
    Enter(s, h, Used(s.rep, good)).(usedRing := s.usedRing[Slot(s.rep) := h], ok := s.ok[h := good], rep := s.rep + 1,
                                    taken := s.taken - {h},
                                    completed := s.completed + if good then {s.reqs[h].id} else {})
  }

  lemma ReportInv(s: Ring, h: nat, good: bool)
    requires Inv(s) && h in s.taken
    ensures h in s.reqs && h < NUM && s.reqs[h].phase.Taken? && Inv(Report(s, h, good))
  {
    KnownDesc(s, h);
    KnownReq(s, h);
    AtMostTwo(s);
    var s' := Report(s, h, good);
    assert s'.reqs.Keys == s.reqs.Keys;
    assert |s.taken| > 0 by { assert s.taken == (s.taken - {h}) + {h}; }
    forall d ensures DescOk(s', d) && MemberOk(s', d) { KnownDesc(s, d); }
    forall x ensures ChainOk(s', x) && PhaseOk(s', x) { KnownReq(s, x); ReportReq(s, h, good, x); }
    forall n: nat ensures AvailOk(s', n) && UsedOk(s', n) { KnownSlots(s, n); ReportSlots(s, h, good, n); }
  }

  lemma ReportReq(s: Ring, h: nat, good: bool, x: nat)
    requires Shape(s) && h in s.reqs && h < NUM && s.reqs[h].phase.Taken?
    requires s.seen <= s.rep < s.got <= s.pub < s.seen + NUM
    requires ChainOk(s, x) && PhaseOk(s, x) && PhaseOk(s, h)
    ensures ChainOk(Report(s, h, good), x) && PhaseOk(Report(s, h, good), x)
  {
    if x in s.reqs && s.reqs[x].phase.Used? && s.seen <= s.reqs[x].phase.u < s.rep {
      SlotsDiffer(s.reqs[x].phase.u, s.rep);
    }
  }

  lemma ReportSlots(s: Ring, h: nat, good: bool, n: nat)
    requires Shape(s) && h in s.reqs && h < NUM && s.reqs[h].phase.Taken?
    requires s.seen <= s.rep < s.got <= s.pub < s.seen + NUM
    requires AvailOk(s, n) && UsedOk(s, n)
    ensures AvailOk(Report(s, h, good), n) && UsedOk(Report(s, h, good), n)
  {
    if s.seen <= n < s.rep { SlotsDiffer(n, s.rep); }
  }

  /** The interrupt handler sees the next report, of status 0. */
  function See(s: Ring): Ring
    requires Shape(s) && s.usedRing[Slot(s.seen)] in s.reqs
  {
    var h := s.usedRing[Slot(s.seen)];
    Enter(s, h, Seen).(busy := s.busy - {s.reqs[h].buf}, seen := s.seen + 1, done := s.done + {h})
  }

  /** What the handler finds in the used ring. */
  lemma NextReport(s: Ring)
    requires Inv(s) && s.seen < s.rep
    ensures var h := s.usedRing[Slot(s.seen)];
            && h in s.reqs && h < NUM && s.info[h] == s.reqs[h].buf
            && s.reqs[h].phase == Used(s.seen, s.ok[h])
  {
    KnownSlots(s, s.seen);
    KnownReq(s, s.usedRing[Slot(s.seen)]);
    KnownDesc(s, s.usedRing[Slot(s.seen)]);
  }

  lemma SeeInv(s: Ring)
    requires Inv(s) && s.seen < s.rep && s.usedRing[Slot(s.seen)] < NUM && s.ok[s.usedRing[Slot(s.seen)]]
    ensures s.usedRing[Slot(s.seen)] in s.reqs && Inv(See(s))
  {
    var h := s.usedRing[Slot(s.seen)];
    NextReport(s);
    KnownReq(s, h);
    var s' := See(s);
    assert s'.reqs.Keys == s.reqs.Keys;
    forall d ensures DescOk(s', d) && MemberOk(s', d) { KnownDesc(s, d); }
    forall x ensures ChainOk(s', x) && PhaseOk(s', x) { SeeReq(s, h, x); }
    forall n: nat ensures AvailOk(s', n) && UsedOk(s', n) { KnownSlots(s, n); }
  }

  lemma SeeReq(s: Ring, h: nat, x: nat)
    requires Inv(s) && h == s.usedRing[Slot(s.seen)] && h in s.reqs && h < NUM && s.reqs[h].phase == Used(s.seen, true)
    ensures ChainOk(See(s), x) && PhaseOk(See(s), x)
  {
    KnownReq(s, x);
    KnownReq(s, h);
  }

  /** The end of virtio_disk_rw(): the chain is freed. */
  function Release(s: Ring, h: nat): Ring
    requires Shape(s) && h in s.reqs && h < NUM && s.reqs[h].mid < NUM && s.reqs[h].last < NUM
  {
    var r := s.reqs[h];
    s.(free := s.free[h := true][r.mid := true][r.last := true], next := s.next[h := 0][r.mid := 0][r.last := 0],
       chained := s.chained[h := false][r.mid := false][r.last := false], reqs := s.reqs - {h},
       own := s.own - {h, r.mid, r.last}, inFlight := s.inFlight - {r.buf}, done := s.done - {h})
  }

  lemma ReleaseInv(s: Ring, h: nat)
    requires Inv(s) && h in s.reqs && s.reqs[h].phase.Seen?
    ensures h < NUM && s.reqs[h].mid < NUM && s.reqs[h].last < NUM && Inv(Release(s, h))
  {
    KnownReq(s, h);
    var s' := Release(s, h);
    ReleaseCounts(s, h);
    forall d ensures DescOk(s', d) && MemberOk(s', d) { ReleaseDesc(s, h, d); }
    forall x ensures ChainOk(s', x) && PhaseOk(s', x) { ReleaseReq(s, h, x); }
    forall n: nat ensures AvailOk(s', n) && UsedOk(s', n) { KnownSlots(s, n); }
  }

  lemma ReleaseCounts(s: Ring, h: nat)
    requires Inv(s) && h in s.reqs && h < NUM && s.reqs[h].mid < NUM && s.reqs[h].last < NUM && s.reqs[h].phase.Seen?
    ensures Counts(Release(s, h))
  {
    KnownReq(s, h);
    var s', r := Release(s, h), s.reqs[h];
    var three := {h, r.mid, r.last};
    assert |three| == 3 && three <= s.own.Keys && s'.own.Keys == s.own.Keys - three;
    assert s'.reqs.Keys == s.reqs.Keys - {h};
  }

  lemma ReleaseDesc(s: Ring, h: nat, d: nat)
    requires Inv(s) && h in s.reqs && h < NUM && s.reqs[h].mid < NUM && s.reqs[h].last < NUM && s.reqs[h].phase.Seen?
    ensures DescOk(Release(s, h), d) && MemberOk(Release(s, h), d)
  {
    KnownReq(s, h);
    KnownDesc(s, d);
  }

  lemma ReleaseReq(s: Ring, h: nat, x: nat)
    requires Inv(s) && h in s.reqs && h < NUM && s.reqs[h].mid < NUM && s.reqs[h].last < NUM && s.reqs[h].phase.Seen?
    ensures ChainOk(Release(s, h), x) && PhaseOk(Release(s, h), x)
  {
    KnownReq(s, h);
    KnownReq(s, x);
  }
}
