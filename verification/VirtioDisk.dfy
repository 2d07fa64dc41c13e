/** The driver of kernel/virtio_disk.c, in place on the state of VirtioRing.  Each method is a section under
    vdisk_lock, one round of the interrupt handler, or an action of the device; they may come in any
    order. */
module VirtioDisk {
  import opened VirtioRing

  class Disk {
    var free: seq<bool>
    var next: seq<nat>
    var chained: seq<bool>      // VRING_DESC_F_NEXT
    var info: seq<nat>          // info[].b
    var ok: seq<bool>           // info[].status == 0
    var avail: seq<nat>         // avail->ring
    var availIdx: nat           // avail->idx, 16 bits
    var usedRing: seq<nat>
    var devUsedIdx: nat         // used->idx, 16 bits
    var usedIdx: nat            // used_idx, 16 bits
    var devAvailIdx: nat        // how far the device has read avail->ring, 16 bits
    var busy: set<nat>          // buffers with b->disk == 1
    ghost var st: Ring          // the same, with the book-keeping

    /** The fields are those of st. */
    ghost predicate Mirrors(free0: seq<bool>)
      reads this
    {
      && free0 == st.free && next == st.next && chained == st.chained && info == st.info && ok == st.ok
      && avail == st.avail && usedRing == st.usedRing && busy == st.busy
      && availIdx == st.pub % WRAP && devAvailIdx == st.got % WRAP && devUsedIdx == st.rep % WRAP
      && usedIdx == st.seen % WRAP
    }

    /** (== true: the invariant as a whole.) */
    ghost predicate Valid()
      reads this
    {
      Inv(st) == true && Mirrors(free)
    }

    /** The queue that virtio_disk_init() sets up: all descriptors free, all indices 0. */
    static method EmptyQueue() returns (e: Ring)
      ensures Inv(e) == true && Unused(e) == true
    {
      EmptyInv();
      EmptyUnused();
      e := Empty();
    }

    constructor()
      ensures Valid() && Unused(st) == true
    {
      var e := EmptyQueue();
      free, next, chained, info, ok, avail := e.free, e.next, e.chained, e.info, e.ok, e.avail;
      usedRing, busy := e.usedRing, e.busy;
      availIdx, devUsedIdx, usedIdx, devAvailIdx := 0, 0, 0, 0;
      st := e;
    }

    /** alloc_desc(): NUM stands for -1. */
    method AllocDesc() returns (i: nat)
      requires |free| == NUM
      modifies this`free
      ensures i <= NUM && (i == NUM ==> free == old(free) && forall d :: 0 <= d < NUM ==> !free[d])
      ensures i < NUM ==> old(free)[i] && free == old(free)[i := false]
    {
      i := 0;
      while i < NUM
        invariant i <= NUM && free == old(free) && forall d :: 0 <= d < i ==> !free[d]
      {
        if free[i] {
          free := free[i := false];
          return;
        }
        i := i + 1;
      }
    }

    /** free_desc(): panics on a descriptor that is free already. */
    method FreeDesc(i: nat)
      requires |free| == |next| == |chained| == NUM && i < NUM && !free[i]
      modifies this`free, this`next, this`chained
      ensures free == old(free)[i := true] && next == old(next)[i := 0] && chained == old(chained)[i := false]
    {
      next, chained, free := next[i := 0], chained[i := false], free[i := true];
    }

    /** alloc3_desc(): three different free descriptors, or none and nothing taken. */
    method Alloc3() returns (got3: bool, h: nat, m: nat, l: nat)
      requires |free| == |next| == |chained| == NUM
      modifies this`free, this`next, this`chained
      ensures |next| == |chained| == NUM
      ensures forall d :: 0 <= d < NUM && !old(free)[d] ==> next[d] == old(next)[d] && chained[d] == old(chained)[d]
      ensures !got3 ==> free == old(free) && forall a, b, c :: 0 <= a < b < c < NUM ==> !(free[a] && free[b] && free[c])
      ensures got3 ==> h < NUM && m < NUM && l < NUM && h != m && h != l && m != l
      ensures got3 ==>
                old(free)[h] && old(free)[m] && old(free)[l] && free == old(free)[h := false][m := false][l := false]
    {
      h, m, l := 0, 0, 0;
      h := AllocDesc();
      if h == NUM { return false, 0, 0, 0; }
      m := AllocDesc();
      if m == NUM {
        FreeDesc(h);
        assert free == old(free);
        return false, 0, 0, 0;
      }
      l := AllocDesc();
      if l == NUM {
        FreeDesc(h);
        FreeDesc(m);
        assert free == old(free);
        return false, 0, 0, 0;
      }
      got3 := true;
    }

    /** The three descriptors are linked, and info[] is set. */
    method FillChain(h: nat, m: nat, l: nat, b: nat)
      requires h < NUM && m < NUM && l < NUM && |next| == |chained| == |ok| == |info| == NUM
      modifies this`next, this`chained, this`info, this`ok, this`busy
      ensures next == old(next)[h := m][m := l][l := 0] && chained == old(chained)[h := true][m := true][l := false]
      ensures info == old(info)[h := b] && ok == old(ok)[h := false] && busy == old(busy) + {b}
    {
      next, chained := next[h := m], chained[h := true];
      next, chained := next[m := l], chained[m := true];
      ok := ok[h := false];
      next, chained := next[l := 0], chained[l := false];
      busy, info := busy + {b}, info[h := b];
    }

    /** The chain is filled in and added to the available ring. */
    method Publish(h: nat, m: nat, l: nat, b: nat, ghost free0: seq<bool>)
      requires Shape(st) && h < NUM && m < NUM && l < NUM && Mirrors(free0)
      requires free == free0[h := false][m := false][l := false]
      modifies this`next, this`chained, this`info, this`ok, this`avail, this`availIdx, this`busy, this`st
      ensures Mirrors(free) && st == Submit(old(st), h, m, l, b)
    {
      Wraps(st.pub, st.pub);
      FillChain(h, m, l, b);
      avail := avail[availIdx % NUM := h];
      availIdx := (availIdx + 1) % WRAP;
      st := Submit(st, h, m, l, b);
    }

    /** virtio_disk_rw() up to its wait.  If there are no three free descriptors, it sleeps and tries again.
        The caller holds the lock of b, so b is in no other request. */
    method Start(b: nat) returns (started: bool, h: nat)
      requires Valid() && b !in st.inFlight
      modifies this`free, this`next, this`chained, this`info, this`ok, this`avail, this`availIdx, this`busy, this`st
      ensures Valid()
      ensures !started ==>
          && st == old(st).(next := next, chained := chained)
          && forall a, b, c :: 0 <= a < b < c < NUM ==> !(free[a] && free[b] && free[c])
      ensures started ==> h !in old(st).reqs && h in st.reqs && st.reqs == old(st).reqs[h := st.reqs[h]]
      ensures started ==>
                && st.reqs[h].buf == b && st.reqs[h].id == old(st).pub && busy == old(busy) + {b}
                && st.completed == old(st).completed
    {
      var m, l;
      started, h, m, l := Alloc3();
      ScratchInv(st, next, chained);
      st := st.(next := next, chained := chained);
      if started {
        FreeIsUnused(st, h);
        SubmitInv(st, h, m, l, b);
        Publish(h, m, l, b, old(free));
      }
    }

    /** The device reads the next entry of the available ring. */
    method DeviceTakes() returns (any: bool, h: nat)
      requires Valid()
      modifies this`devAvailIdx, this`st
      ensures Valid() && (any <==> old(st).got < st.pub) && (!any ==> unchanged(this))
      ensures any ==>
                && h in old(st).reqs && old(st).reqs[h].phase == Pending(old(st).got)
                && st == Enter(old(st), h, Taken).(got := st.got, taken := st.taken)
    {
      AtMostTwo(st);
      Wraps(st.got, st.pub);
      any, h := devAvailIdx != availIdx, 0;
      if any {
        TakeInv(st);
        h := avail[devAvailIdx % NUM];
        devAvailIdx := (devAvailIdx + 1) % WRAP;
        st := Take(st);
      }
    }

    /** The device has done any of the requests it took, or has failed to: it sets the status and adds to the used
        ring, in a slot that the handler has finished with. */
    method DeviceReports(h: nat, good: bool)
      requires Valid() && h in st.taken
      modifies this`usedRing, this`devUsedIdx, this`ok, this`st
      ensures Valid() && h in old(st).reqs
      ensures st.reqs == old(st).reqs[h := old(st).reqs[h].(phase := Used(old(st).rep, good))]
      ensures st.completed == old(st).completed + if good then {old(st).reqs[h].id} else {}
    {
      ReportInv(st, h, good);
      Wraps(st.rep, st.rep);
      usedRing := usedRing[devUsedIdx % NUM := h];
      ok := ok[h := good];
      devUsedIdx := (devUsedIdx + 1) % WRAP;
      st := Report(st, h, good);
    }

    /** One round of virtio_disk_intr(): it stops exactly when all reports have been seen, and panics exactly if the
        device has reported that it failed. */
    method Interrupt() returns (any: bool, panicked: bool, id: nat)
      requires Valid()
      modifies this`busy, this`usedIdx, this`st
      ensures Valid() && (any <==> old(st).seen < old(st).rep)
      ensures any ==> id in old(st).reqs && old(st).reqs[id].phase.Used? && old(st).reqs[id].phase.u == old(st).seen
      ensures panicked <==> any && !old(st).reqs[id].phase.good
      ensures !any || panicked ==> unchanged(this)
      ensures any && !panicked ==> st.reqs == old(st).reqs[id := old(st).reqs[id].(phase := Seen)]
      ensures any && !panicked ==> busy == old(busy) - {old(st).reqs[id].buf}
    {
      AtMostTwo(st);
      Wraps(st.seen, st.rep);
      any, panicked, id := usedIdx != devUsedIdx, false, 0;
      if any {
        NextReport(st);
        id := usedRing[usedIdx % NUM];
        if !ok[id] {
          panicked := true;
          return;
        }
        SeeInv(st);
        busy := busy - {info[id]};
        usedIdx := (usedIdx + 1) % WRAP;
        st := See(st);
      }
    }

    /** free_chain(), for a chain of three. */
    method FreeChain(h: nat, ghost r: Req)
      requires |free| == |next| == |chained| == NUM
      requires h < NUM && r.mid < NUM && r.last < NUM && h != r.mid && h != r.last && r.mid != r.last
      requires !free[h] && !free[r.mid] && !free[r.last]
      requires chained[h] && next[h] == r.mid && chained[r.mid] && next[r.mid] == r.last && !chained[r.last]
      modifies this`free, this`next, this`chained
      ensures free == old(free)[h := true][r.mid := true][r.last := true]
      ensures next == old(next)[h := 0][r.mid := 0][r.last := 0]
      ensures chained == old(chained)[h := false][r.mid := false][r.last := false]
    {
      var i, more := h, true;
      ghost var k := 0;
      while more
        invariant 0 <= k <= 3 && (more <==> k < 3) && (more ==> i == Part(r, h, k))
        invariant k == 0 ==> free == old(free) && next == old(next) && chained == old(chained)
        invariant k == 1 ==>
                    free == old(free)[h := true] && next == old(next)[h := 0] && chained == old(chained)[h := false]
        invariant k == 2 ==> free == old(free)[h := true][r.mid := true] && next == old(next)[h := 0][r.mid := 0]
                             && chained == old(chained)[h := false][r.mid := false]
        invariant k == 3 ==>
                    && free == old(free)[h := true][r.mid := true][r.last := true]
                    && next == old(next)[h := 0][r.mid := 0][r.last := 0]
                             && chained == old(chained)[h := false][r.mid := false][r.last := false]
        decreases 3 - k
      {
        var flag, nxt := chained[i], next[i];
        FreeDesc(i);
        if flag { i := nxt; } else { more := false; }
        k := k + 1;
      }
    }

    /** The end of virtio_disk_rw(), once b->disk is clear: by then the device has completed this very
        request with status 0; "free_desc 2" is not reached. */
    method Finish(h: nat)
      requires Valid() && h in st.reqs && st.reqs[h].buf !in busy
      modifies this`free, this`next, this`chained, this`st
      ensures Valid() && old(st).reqs[h].phase.Seen? && old(st).reqs[h].id in st.completed
      ensures st.reqs == old(st).reqs - {h} && st.inFlight == old(st).inFlight - {old(st).reqs[h].buf}
    {
      ghost var r := st.reqs[h];
      KnownReq(st, h);
      KnownDesc(st, h);
      KnownDesc(st, r.mid);
      KnownDesc(st, r.last);
      ReleaseInv(st, h);
      FreeChain(h, r);
      st := Release(st, h);
    }
  }
}
