/** User memory: the functions of kernel/vm.c and kernel/kalloc.c, run in place on the frames of
    PageTable.  Loop invariants write P(..) == true so that the verifier takes the predicate whole and
    leaves its parts to the lemmas about it; so do a few contracts. */
module UserMemory {
  import opened Common
  import opened PageTable
  import opened UserBytes

  class Kernel {
    var freelist: seq<nat>
    var tables: map<nat, seq<Pte>>
    var data: map<nat, seq<int>>
    ghost var tag: map<nat, Tag>

    ghost function St(): Mem
      reads this
    {
      Mem(freelist, tables, data, tag)
    }

    /** kinit(): freerange() hands the frames from lo to hi to kfree(), one after the other. */
    constructor(lo: nat, hi: nat)
      ensures St() == FirstMem(lo, hi) && Inv(St())
    {
      FirstMemInv(lo, hi);
      var l := FreeFrames(lo, hi);
      freelist, tables, data, tag := l, map[], map[], map[];
    }

    static method FreeFrames(lo: nat, hi: nat) returns (l: seq<nat>)
      ensures l == FreeRange(lo, hi)
    {
      l := [];
      var p := lo;
      while p < hi
        invariant lo <= p && (p <= hi || p == lo) && l == FreeRange(lo, p)
      {
        l := [p] + l;
        p := p + 1;
      }
    }

    /** kalloc() */
    method Kalloc() returns (r: Option<nat>)
      modifies this`freelist
      ensures r == if old(freelist) == [] then None else Some(old(freelist)[0])
      ensures freelist == if old(freelist) == [] then [] else old(freelist)[1..]
    {
      if freelist == [] {
        r := None;
      } else {
        r := Some(freelist[0]);
        freelist := freelist[1..];
      }
    }

    /** kfree(): only for a frame that is in use by nobody. */
    method Kfree(x: nat)
      requires Loose(St(), x)
      modifies this`freelist, this`data, this`tables
      ensures St() == Freed(old(St()), x)
      ensures old(Inv(St())) ==> Inv(St())
    {
      if Inv(St()) { FreeKeepsInv(St(), x); }
      freelist, data, tables := [x] + freelist, data - {x}, tables - {x};
    }

    /** The body of walk()'s loop: from table f to the next level, by entry i. */
    method Descend(f: nat, i: nat, alloc: bool) returns (r: Option<nat>)
      requires Inv(St()) && f in tag && Fits(tag[f].pos, i)
      modifies this`freelist, this`tables, this`tag
      ensures Inv(St()) && Extends(old(St()), St())
      ensures !alloc ==> St() == old(St())
      ensures r.None? ==> St() == old(St()) && Entry(St(), f, i).None? && (alloc ==> freelist == [])
      ensures r.Some? ==> Entry(St(), f, i).Some? && r.value == Entry(St(), f, i).value.ppn
      ensures r.Some? ==> r.value in tag && tag[r.value] == Tag(tag[f].root, Child(tag[f].pos, i), f)
      ensures |old(freelist)| <= |freelist| + 1
    {
      assert EntryOk(St(), f, i);
      var pte := tables[f][i];
      if pte.v {
        r := Some(pte.ppn);
      } else {
        if !alloc { return None; }
        ghost var s := St();
        var m := Kalloc();
        if m.None? { return None; }
        AddTableExtends(s, f, i);
        tables := tables[m.value := seq(ENTRIES, _ => NoPte)];
        tables := tables[f := tables[f][i := Pte(true, NoPerm, m.value)]];
        tag := tag[m.value := Tag(tag[f].root, Child(tag[f].pos, i), f)];
        assert St() == AddTable(s, f, i);
        r := m;
      }
    }

    /** walk(): the place of the entry for va, in a lowest-level table. */
    method Walk(root: nat, va: nat, alloc: bool) returns (slot: Option<(nat, nat)>)
      requires Inv(St()) && IsRoot(St(), root) && va < MAXVPN * PGSIZE
      modifies this`freelist, this`tables, this`tag
      ensures Inv(St()) && Extends(old(St()), St()) && IsRoot(St(), root)
      ensures !alloc ==> St() == old(St())
      ensures var p := PosOf(va / PGSIZE);
              && (slot.None? ==> BotOf(St(), root, p.i, p.j).None? && (alloc ==> freelist == []))
              && (slot.Some? ==> BotOf(St(), root, p.i, p.j) == Some(slot.value.0) && slot.value.1 == p.k)
      ensures slot.Some? ==> BotTable(St(), slot.value.0) && tag[slot.value.0].root == root
                             && Child(tag[slot.value.0].pos, slot.value.1) == PosOf(va / PGSIZE)
      ensures |old(freelist)| <= |freelist| + (if slot.Some? then 2 else 1)
    {
      var table := root;
      var level := 2;
      assert LinkOk(St(), root);
      IndicesArePlace(va);
      while level > 0
        invariant 0 <= level <= 2 && Inv(St()) && Extends(old(St()), St()) && IsRoot(St(), root)
        invariant !alloc ==> St() == old(St())
        invariant table in tag && tag[table].root == root
        invariant tag[table].pos == if level == 2 then Root else if level == 1 then Mid(PX(2, va))
            else Bot(PX(2, va), PX(1, va))
        invariant level == 2 ==> table == root
        invariant |old(freelist)| <= |freelist| + 2 - level
      {
        ghost var s := St();
        var r := Descend(table, PX(level, va), alloc);
        ExtendsTrans(old(St()), s, St());
        if r.None? {
          if level == 1 { MidIsFound(St(), table); }
          return None;
        }
        table := r.value;
        level := level - 1;
      }
      assert EntryOk(St(), table, 0);
      BotIsFound(St(), table);
      slot := Some((table, PX(0, va)));
    }

    /** The entry of page v, if there is one. */
    method Lookup(root: nat, v: nat) returns (e: Option<Pte>)
      requires Inv(St()) && IsRoot(St(), root)
      modifies this`freelist, this`tables, this`tag
      ensures St() == old(St())
      ensures e == if v < MAXVPN then Trans(St(), root, v) else None
    {
      if v >= MAXVPN { return None; }
      var slot := Walk(root, v * PGSIZE, false);
      if slot.None? { return None; }
      var (f, k) := slot.value;
      e := if tables[f][k].v then Some(tables[f][k]) else None;
    }

    /** The body of mappages()'s loop: one page.  The page must not be mapped yet. */
    method MapPage(root: nat, v: nat, ppn: nat, perm: Perm) returns (ok: bool)
      requires Inv(St()) && IsRoot(St(), root) && IsLeaf(perm) && Mappable(St(), v, ppn) && Trans(St(), root, v).None?
      modifies this`freelist, this`tables, this`tag
      ensures Inv(St()) && KeepsRoots(old(St()), St()) && data == old(data)
      ensures !ok ==> Extends(old(St()), St()) && freelist == []
      ensures |old(freelist)| <= |freelist| + (if ok then 2 else 1)
      ensures ok ==> MapsExactly(old(St()), St(), root, v, 1, ppn, perm)
      ensures ok ==> Frames(St()) == Frames(old(St())) + (if ForeignPage(v) then {} else {ppn})
    {
      ForeignPages(v);
      var slot := Walk(root, v * PGSIZE, true);
      if slot.None? { return false; }
      ghost var t := St();
      ExtendsKeepsTrans(old(St()), t, root, v);
      assert Mappable(t, v, ppn) by { if !ForeignPage(v) { assert ppn !in Frames(t); } }
      var (f, k) := slot.value;
      SetLeafMaps(t, f, v, root, Pte(true, perm, ppn));
      ExtendThenMap(old(St()), t, SetLeaf(t, f, k, Pte(true, perm, ppn)), root, v, 1, ppn, perm);
      tables := tables[f := tables[f][k := Pte(true, perm, ppn)]];
      if !ForeignPage(v) { tag := tag[ppn := Tag(root, PosOf(v), f)]; }
      assert St() == SetLeaf(t, f, k, Pte(true, perm, ppn));
      ok := true;
    }

    /** One round of mappages(): page number m of the n pages from v on. */
    method MapNext(root: nat, v: nat, m: nat, ppn: nat, perm: Perm, ghost s: Mem, ghost n: nat) returns (ok: bool)
      requires IsRoot(s, root) && IsLeaf(perm) && m < n && AllCanMap(s, root, v, n, ppn) == true
      requires Progress(s, St(), root, v, m, ppn, perm) == true
      modifies this`freelist, this`tables, this`tag
      ensures Progress(s, St(), root, v, if ok then m + 1 else m, ppn, perm)
      ensures !ok ==> freelist == []
    {
      ghost var t := St();
      NextCanMap(s, t, root, v, n, m, ppn, perm);
      ok := MapPage(root, v + m, ppn + m, perm);
      if ok {
        MapStep(s, t, St(), root, v, m, ppn, perm);
      } else {
        MapStop(s, t, St(), root, v, m, ppn, perm);
      }
    }

    /** mappages(): on success exactly the n pages are mapped; when memory runs out, exactly the first
        m of them. */
    method MapPages(root: nat, v: nat, n: nat, ppn: nat, perm: Perm) returns (ok: bool, m: nat)
      requires Inv(St()) && IsRoot(St(), root) && IsLeaf(perm) && n > 0
      requires AllCanMap(St(), root, v, n, ppn)
      modifies this`freelist, this`tables, this`tag
      ensures Progress(old(St()), St(), root, v, m, ppn, perm) == true
      ensures m <= n && (ok <==> m == n) && (!ok ==> freelist == [])
    {
      ghost var s := St();
      m, ok := 0, true;
      NoProgress(s, root, v, ppn, perm);
      while ok && m < n
        invariant m <= n && Progress(s, St(), root, v, m, ppn, perm) == true
        invariant !ok ==> freelist == [] && m < n
        decreases ok, n - m
      {
        ok := MapNext(root, v, m, ppn, perm, s, n);
        if ok { m := m + 1; }
      }
    }

    /** The body of uvmunmap()'s loop: panics if the page is not mapped.  The caller frees pages exactly if they
        belong to the address space. */
    method UnmapPage(root: nat, v: nat, doFree: bool) returns (ok: bool)
      requires Inv(St()) && IsRoot(St(), root) && (v < MAXVPN ==> (doFree <==> !ForeignPage(v)))
      modifies this`freelist, this`tables, this`data, this`tag
      ensures ok <==> v < MAXVPN && Trans(old(St()), root, v).Some?
      ensures if ok then Shrinking(old(St()), St(), root, v, 1) else St() == old(St())
    {
      ghost var s := St();
      if v >= MAXVPN { return false; }
      var slot := Walk(root, v * PGSIZE, false);
      if slot.None? { return false; }
      var (f, k) := slot.value;
      if !tables[f][k].v { return false; }
      ClearLeafUnmaps(s, f, v, root);
      var x := tables[f][k].ppn;
      tables := tables[f := tables[f][k := NoPte]];
      if doFree {
        tag := tag - {x};
        assert St() == ClearLeaf(s, f, k);
        ghost var t := St();
        Kfree(x);
        PushFrames(t.freelist, s.tag.Keys, x);
        FreeKeepsTrans(t, x, root, v, s);
      }
      ok := true;
    }

    /** uvmunmap(): removes exactly the pages v .. v + n - 1, or panics at the first of them that is not mapped, with
        the m pages before it removed. */
    method UvmUnmap(root: nat, v: nat, n: nat, doFree: bool) returns (ok: bool, m: nat)
      requires Inv(St()) && IsRoot(St(), root)
      requires if doFree then v + n <= MAXVPN - 2 else v >= MAXVPN - 2
      modifies this`freelist, this`tables, this`data, this`tag
      ensures ok <==> RangeMapped(old(St()), root, v, n)
      ensures m <= n && (ok <==> m == n) && RangeMapped(old(St()), root, v, m)
      ensures Shrinking(old(St()), St(), root, v, m) == true
    {
      ghost var s := St();
      m, ok := 0, true;
      NoneMapped(s, root, v);
      while m < n
        invariant m <= n && RangeMapped(s, root, v, m) == true && Shrinking(s, St(), root, v, m) == true
      {
        ghost var t := St();
        StillMapped(s, t, root, v, m);
        RangeOneMore(s, root, v, m, n);
        if v + m < MAXVPN { ForeignPages(v + m); }
        ok := UnmapPage(root, v + m, doFree);
        if !ok { return; }
        UnmapStep(s, t, St(), root, v, m);
        m := m + 1;
      }
    }

    /** uvmdealloc(): panics exactly if a page between the two sizes is not mapped. */
    method UvmDealloc(root: nat, oldsz: nat, newsz: nat) returns (ok: bool, sz: nat)
      requires Inv(St()) && IsRoot(St(), root) && PageUp(oldsz) <= MAXVPN - 2
      modifies this`freelist, this`tables, this`data, this`tag
      ensures ok <==> RangeMapped(old(St()), root, PageUp(newsz), Excess(oldsz, newsz))
      ensures ok ==> sz == if newsz >= oldsz then oldsz else newsz
      ensures ok ==> Shrinking(old(St()), St(), root, PageUp(newsz), Excess(oldsz, newsz)) == true
    {
      NoneMapped(St(), root, PageUp(newsz));
      if newsz >= oldsz { return true, oldsz; }
      ok := true;
      if PageUp(newsz) < PageUp(oldsz) {
        var m;
        ok, m := UvmUnmap(root, PageUp(newsz), PageUp(oldsz) - PageUp(newsz), true);
      }
      sz := newsz;
    }

    /** kalloc(), fill, mappages(), and kfree() if that fails: a new page for page number v, or nothing. */
    method AllocPage(root: nat, v: nat, perm: Perm, bytes: seq<int>, ghost c: nat -> NewPage) returns (ok: bool)
      requires Inv(St()) && IsRoot(St(), root) && IsLeaf(perm) && v < MAXVPN - 2 && Trans(St(), root, v).None?
      requires c(v) == NewPage(perm, bytes) && |bytes| == PGSIZE
      modifies this`freelist, this`tables, this`data, this`tag
      ensures ok ==> Grown(old(St()), St(), root, v, v + 1, c)
      ensures !ok ==> Grown(old(St()), St(), root, v, v, c)
      ensures |old(freelist)| <= if ok then |freelist| + 3 else 2
    {
      ghost var t := St();
      var mem := Kalloc();
      if mem.None? { return false; }
      TakenKeepsInv(t, bytes);
      ForeignPages(v);
      var x := mem.value;
      data := data[x := bytes];
      ghost var t1 := St();
      assert Trans(t1, root, v) == Trans(t, root, v);
      ok := MapPage(root, v, x, perm);
      if ok {
        FreshPage(t, St(), root, v, perm, bytes, c);
      } else {
        ghost var u := St();
        assert Loose(u, x) by { assert x !in Frames(t1); }
        Kfree(x);
        forall r: nat, w: nat ensures GrownAt(t, St(), root, v, v, c, r, w) { GivenBack(t, u, bytes, r, w); }
        GivenBackFrames(t, u, bytes);
      }
    }

    /** One round of uvmalloc(). */
    method GrowNext(root: nat, a: nat, v: nat, perm: Perm, bytes: seq<int>, ghost s: Mem, ghost c: nat -> NewPage)
      returns (ok: bool)
      requires Inv(s) && IsRoot(s, root) && UserPages(s, root, a) && |Frames(s)| < MAXVPN - 2
      requires a <= v && IsLeaf(perm) && Grown(s, St(), root, a, v, c) && c(v) == NewPage(perm, bytes)
      requires |bytes| == PGSIZE
      modifies this`freelist, this`tables, this`data, this`tag
      ensures v < MAXVPN - 2 && Grown(s, St(), root, a, if ok then v + 1 else v, c)
      ensures |old(freelist)| <= if ok then |freelist| + 3 else 2
    {
      ghost var t := St();
      GrownUserPages(s, t, root, a, v, c);
      SizeFits(t, root, v);
      assert UserPage(t, root, v, v);
      ok := AllocPage(root, v, perm, bytes, c);
      if ok {
        GrownOneMore(s, t, St(), root, a, v, c);
      } else {
        GrownStays(s, t, St(), root, a, v, c);
      }
    }

    /** The error path of uvmalloc(). */
    method Abandon(root: nat, a: nat, v: nat, ghost s: Mem, ghost c: nat -> NewPage)
      requires IsRoot(s, root) && UserPages(s, root, a) && a <= v < MAXVPN - 2 && Grown(s, St(), root, a, v, c)
      modifies this`freelist, this`tables, this`data, this`tag
      ensures Grown(s, St(), root, a, a, c)
    {
      ghost var u := St();
      GrownMapped(s, u, root, a, v, c);
      var ok, sz := UvmDealloc(root, v * PGSIZE, a * PGSIZE);
      GrownUndone(s, u, St(), root, a, v, c);
    }

    /** uvmalloc(): the process grows to newsz, or nothing changes but for page-table pages; no frame is
        lost either way.  A page and two tables for each page are enough to succeed. */
    method UvmAlloc(root: nat, oldsz: nat, newsz: nat, xperm: Perm) returns (sz: nat)
      requires Inv(St()) && IsRoot(St(), root) && UserPages(St(), root, PageUp(oldsz)) && |Frames(St())| < MAXVPN - 2
      modifies this`freelist, this`tables, this`data, this`tag
      ensures newsz < oldsz ==> sz == oldsz && St() == old(St())
      ensures newsz >= oldsz && sz != 0 ==> sz == newsz
      ensures newsz >= oldsz ==>
                Grown(old(St()), St(), root, PageUp(oldsz), PageUp(if sz == newsz then newsz else oldsz),
                  ZeroPages(xperm))
      ensures newsz >= oldsz ==>
                Zeroed(old(St()), St(), root, PageUp(oldsz) * PGSIZE,
                  PageUp(if sz == newsz then newsz else oldsz) * PGSIZE, xperm)
      ensures newsz >= oldsz && 3 * (PageUp(newsz) - PageUp(oldsz)) <= |old(freelist)| ==> sz == newsz
    {
      if newsz < oldsz { return oldsz; }
      ghost var s := St();
      var a := PageUp(oldsz);
      var v := a;
      ghost var c := ZeroPages(xperm);
      GrownByNothing(s, root, a, c);
      while v * PGSIZE < newsz
        invariant a <= v && (v > a ==> (v - 1) * PGSIZE < newsz) && Grown(s, St(), root, a, v, c) == true
        invariant |old(freelist)| <= |freelist| + 3 * (v - a)
        decreases newsz - v * PGSIZE
      {
        var ok := GrowNext(root, a, v, UserPerm(xperm), Zeros(), s, c);
        if !ok {
          Abandon(root, a, v, s, c);
          GrownZeroed(s, St(), root, a, a, xperm);
          return 0;
        }
        v := v + 1;
      }
      LastPage(oldsz, newsz, v);
      GrownZeroed(s, St(), root, a, v, xperm);
      sz := newsz;
    }

    /** One round of uvmcopy(). */
    method CopyNext(old_: nat, new_: nat, v: nat, ghost n: nat, ghost s: Mem, ghost c: nat -> NewPage)
      returns (ok: bool)
      requires Inv(s) && IsRoot(s, old_) && IsRoot(s, new_) && old_ != new_ && UserPages(s, new_, 0)
      requires |Frames(s)| < MAXVPN - 2 && UserPages(s, old_, n) && v < n
      requires c == CopyOf(s, old_) && Grown(s, St(), new_, 0, v, c) == true
      modifies this`freelist, this`tables, this`data, this`tag
      ensures Grown(s, St(), new_, 0, if ok then v + 1 else 0, c)
      ensures |old(freelist)| <= if ok then |freelist| + 3 else 2
    {
      SizeFits(s, old_, n);
      assert UserPage(s, old_, n, v);
      ParentPage(s, St(), old_, new_, v);
      var e := Lookup(old_, v);
      ok := GrowNext(new_, 0, v, e.value.perm, data[e.value.ppn], s, c);
      if !ok {
        Abandon(new_, 0, v, s, c);
      }
    }

    /** uvmcopy(): the child gets a copy of every page of the parent with the same permissions, or
        nothing at all.  (Rounds says that these are the rounds of the loop over byte addresses.) */
    method UvmCopy(old_: nat, new_: nat, sz: nat) returns (ok: bool)
      requires Inv(St()) && IsRoot(St(), old_) && IsRoot(St(), new_) && old_ != new_
      requires UserPages(St(), old_, PageUp(sz)) && UserPages(St(), new_, 0) && |Frames(St())| < MAXVPN - 2
      modifies this`freelist, this`tables, this`data, this`tag
      ensures Grown(old(St()), St(), new_, 0, if ok then PageUp(sz) else 0, CopyOf(old(St()), old_))
      ensures Forked(old(St()), St(), old_, new_, if ok then PageUp(sz) * PGSIZE else 0)
      ensures 3 * PageUp(sz) <= |old(freelist)| ==> ok
    {
      ghost var s := St();
      ghost var c := CopyOf(s, old_);
      var v := 0;
      GrownByNothing(s, new_, 0, c);
      ok := true;
      while ok && v < PageUp(sz)
        invariant v <= PageUp(sz) && Grown(s, St(), new_, 0, if ok then v else 0, c) == true
        invariant if ok then |old(freelist)| <= |freelist| + 3 * v else |old(freelist)| < 3 * v
        decreases ok, PageUp(sz) - v
      {
        ok := CopyNext(old_, new_, v, PageUp(sz), s, c);
        v := v + 1;
      }
      GrownForked(s, St(), old_, new_, if ok then v else 0, PageUp(sz));
    }

    /** The body of freewalk()'s loop. */
    method FreeEntry(f: nat, i: nat, ghost s: Mem)
      requires Walked(s, St(), f, i) && i < ENTRIES && !s.tag[f].pos.Page? && NoLeaves(s, s.tag[f].root)
      modifies this`freelist, this`tables, this`data, this`tag
      ensures Walked(s, St(), f, i + 1)
      decreases Level(s.tag[f].pos), 0
    {
      ghost var t := St();
      var pte := tables[f][i];
      assert EntryOk(t, f, i);
      FewerNoLeaves(s, t, s.tag[f].root);
      if pte.v && !IsLeaf(pte.perm) {
        Freewalk(pte.ppn);
        WalkedChild(s, t, St(), f, i);
        tables := tables[f := tables[f][i := NoPte]];
      } else if pte.v {
        LeafIsMapped(t, f, i);
        assert false;
      } else {
        WalkedEmpty(s, t, f, i);
      }
    }

    /** freewalk(): frees a table without leaves below it, and everything below it. */
    method Freewalk(f: nat)
      requires Inv(St()) && f in tag && !tag[f].pos.Page? && NoLeaves(St(), tag[f].root)
      modifies this`freelist, this`tables, this`data, this`tag
      ensures Gone(old(St()), St(), f)
      decreases Level(tag[f].pos), 1
    {
      ghost var s := St();
      assert EntryOk(s, f, 0);
      var i := 0;
      while i < ENTRIES
        invariant i <= ENTRIES && Walked(s, St(), f, i) == true
      {
        FreeEntry(f, i, s);
        i := i + 1;
      }
      ghost var t := St();
      WalkedAll(s, t, f);
      tag := tag - {f};
      Kfree(f);
    }

    /** uvmfree(): every frame of the address space is freed, and nothing else changes. */
    method UvmFree(root: nat, sz: nat)
      requires Inv(St()) && IsRoot(St(), root) && PageUp(sz) <= MAXVPN - 2 && UserPages(St(), root, PageUp(sz))
      requires Trans(St(), root, MAXVPN - 2).None? && Trans(St(), root, MAXVPN - 1).None?
      modifies this`freelist, this`tables, this`data, this`tag
      ensures Released(old(St()), St(), root)
    {
      ghost var s := St();
      PagesMapped(s, root, PageUp(sz));
      var ok, m := UvmUnmap(root, 0, PageUp(sz), true);
      ghost var t := St();
      UnmappedAll(s, t, root, PageUp(sz));
      assert LinkOk(t, root);
      Freewalk(root);
      ReleasedAll(s, t, St(), root, PageUp(sz));
    }

    /** uvmcreate() */
    method UvmCreate() returns (r: Option<nat>)
      requires Inv(St())
      modifies this`freelist, this`tables, this`tag
      ensures r.None? ==> St() == old(St()) && freelist == []
      ensures r.Some? ==>
                Inv(St()) && IsRoot(St(), r.value) && NoLeaves(St(), r.value) && Frames(St()) == Frames(old(St()))
      ensures r.Some? ==> !IsRoot(old(St()), r.value) && forall q: nat, w: nat :: PageSame(old(St()), St(), q, w)
    {
      ghost var s := St();
      r := Kalloc();
      if r.None? { return; }
      NewSpaceIsEmpty(s);
      tables := tables[r.value := seq(ENTRIES, _ => NoPte)];
      tag := tag[r.value := Tag(r.value, Root, r.value)];
      assert St() == NewSpace(s);
    }

    /** copyout(): succeeds exactly if the whole range is writable by the user; in any case the data up to the
        first byte that is not is stored, and no other byte changes. */
    method CopyOut(root: nat, dstva: nat, src: seq<int>) returns (ok: bool, m: nat)
      requires Inv(St()) && IsRoot(St(), root) && KernelOnly(St(), root)
      modifies this`freelist, this`tables, this`data, this`tag
      ensures ok <==> CanWrite(old(St()), root, dstva, |src|)
      ensures m <= |src| && (if ok then m == |src| else m < |src| && !ByteWritable(old(St()), root, dstva + m))
      ensures Stored(old(St()), St(), root, dstva, src, m)
    {
      ghost var s := St();
      m := 0;
      NothingStored(s, root, dstva, src);
      while m < |src|
        invariant m <= |src| && CanWrite(s, root, dstva, m) && Stored(s, St(), root, dstva, src, m) == true
      {
        var at := dstva + m;
        ghost var t := St();
        SameTables(s, t, root, at / PGSIZE);
        var e := Lookup(root, at / PGSIZE);
        assert ByteWritable(s, root, at) <==> e.Some? && e.value.perm.u && e.value.perm.w;
        if e.None? || !e.value.perm.u || !e.value.perm.w { return false, m; }
        var n := Chunk(at, |src| - m);
        UserFrame(t, root, at / PGSIZE);
        var x := e.value.ppn;
        StoreChunk(s, t, root, dstva, src, m, n);
        ChunkWritable(s, root, dstva, m, n);
        data := data[x := Splice(data[x], at % PGSIZE, src[m..m + n])];
        m := m + n;
      }
      ok := true;
    }

    /** copyin(): succeeds exactly if the whole range is readable by the user, and then returns its
        bytes. */
    method CopyIn(root: nat, srcva: nat, len: nat) returns (ok: bool, dst: seq<int>)
      requires Inv(St()) && IsRoot(St(), root) && KernelOnly(St(), root)
      modifies this`freelist, this`tables, this`tag
      ensures St() == old(St())
      ensures ok <==> CanRead(St(), root, srcva, len)
      ensures |dst| <= len && Loaded(St(), root, srcva, dst)
      ensures if ok then |dst| == len else |dst| < len && !ByteReadable(St(), root, srcva + |dst|)
    {
      dst := [];
      while |dst| < len
        invariant St() == old(St())
        invariant |dst| <= len && CanRead(St(), root, srcva, |dst|) && Loaded(St(), root, srcva, dst)
        decreases len - |dst|
      {
        var at := srcva + |dst|;
        var e := Lookup(root, at / PGSIZE);
        assert ByteReadable(St(), root, at) <==> e.Some? && e.value.perm.u;
        if e.None? || !e.value.perm.u { return false, dst; }
        var n := Chunk(at, len - |dst|);
        UserFrame(St(), root, at / PGSIZE);
        LoadChunk(St(), root, srcva, dst, n);
        ChunkReadable(St(), root, srcva, |dst|, n);
        dst := dst + data[e.value.ppn][at % PGSIZE..at % PGSIZE + n];
      }
      ok := true;
    }
  }
}
