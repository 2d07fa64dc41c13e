/** Sv39 page tables (section 4.4 of the RISC-V Privileged Architecture, version 20211203) as
    kernel/vm.c builds them out of the pages of kernel/kalloc.c.

    Pages are named by frame numbers (physical address / 4096).  tables holds the frames that are in
    use as page-table pages, data the frames in use as user pages, freelist the free ones. */
module PageTable {
  import opened Common

  const PGSIZE := 4096
  const ENTRIES := 512
  const MAXVPN := 0x400_0000   // MAXVA / PGSIZE
  const ROOT_ENTRIES := 256    // MAXVA leaves the upper half of the root table unused

  datatype Perm = Perm(r: bool, w: bool, x: bool, u: bool)

  const NoPerm := Perm(false, false, false, false)

  /** A leaf entry has a permission bit; an entry without is a pointer to the next level. */
  predicate IsLeaf(p: Perm) {
    p.r || p.w || p.x
  }

  datatype Pte = Pte(v: bool, perm: Perm, ppn: nat)

  const NoPte := Pte(false, NoPerm, 0)

  /** Where in an address space a frame is used. */
  datatype Pos = Root | Mid(i: nat) | Bot(i: nat, j: nat) | Page(i: nat, j: nat, k: nat)

  /** The address space (named by its root frame), the place, and the frame of the table above. */
  datatype Tag = Tag(root: nat, pos: Pos, parent: nat)

  datatype Mem = Mem(freelist: seq<nat>, tables: map<nat, seq<Pte>>, data: map<nat, seq<int>>, tag: map<nat, Tag>)

  function Child(pos: Pos, i: nat): Pos {
    match pos
    case Root => Mid(i)
    case Mid(a) => Bot(a, i)
    case Bot(a, b) => Page(a, b, i)
    case Page(_, _, _) => pos
  }

  function Above(pos: Pos): Pos {
    match pos
    case Root => Root
    case Mid(_) => Root
    case Bot(a, _) => Mid(a)
    case Page(a, b, _) => Bot(a, b)
  }

  function Last(pos: Pos): nat {
    match pos
    case Root => 0
    case Mid(i) => i
    case Bot(_, j) => j
    case Page(_, _, k) => k
  }

  /** The trampoline and trapframe pages, the two highest: mapped in every user address space, but
      owned by the kernel image and by the process. */
  predicate Foreign(pos: Pos) {
    pos == Page(255, 511, 511) || pos == Page(255, 511, 510)
  }

  // ---------------------------------------------------------------- invariant

  /** Entry i of table f leads to the frame that is tagged as its child, and only the lowest level
      has leaves. */
  ghost predicate EntryOk(s: Mem, f: nat, i: nat) {
    f in s.tag && !s.tag[f].pos.Page? && i < ENTRIES ==>
      && f in s.tables && |s.tables[f]| == ENTRIES
      && var e := s.tables[f][i];
         var c := Tag(s.tag[f].root, Child(s.tag[f].pos, i), f);
         e.v ==>
           && (IsLeaf(e.perm) <==> c.pos.Page?)
           && (Foreign(c.pos) || (e.ppn in s.tag && s.tag[e.ppn] == c))
  }

  /** A tagged frame is reached from the table its tag names. */
  ghost predicate LinkOk(s: Mem, f: nat) {
    f in s.tag ==>
      var t := s.tag[f];
      && (t.pos.Page? ==> f in s.data && |s.data[f]| == PGSIZE && !Foreign(t.pos))
      && Last(t.pos) < ENTRIES && (t.pos.Mid? ==> t.pos.i < ROOT_ENTRIES)
      && if t.pos.Root? then t.root == f
         else
           && t.parent in s.tag && t.parent in s.tables && |s.tables[t.parent]| == ENTRIES
           && s.tag[t.parent].root == t.root && s.tag[t.parent].pos == Above(t.pos)
           && s.tables[t.parent][Last(t.pos)].v && s.tables[t.parent][Last(t.pos)].ppn == f
  }

  ghost predicate Differ(l: seq<nat>, a: int, b: int) {
    0 <= a < b < |l| ==> l[a] != l[b]
  }

  ghost predicate Distinct(l: seq<nat>) {
    forall a, b :: Differ(l, a, b)
  }

  ghost predicate FreeOk(s: Mem) {
    Distinct(s.freelist) && forall f :: f in s.freelist ==> f !in s.tag
  }

  lemma PopDistinct(l: seq<nat>)
    requires Distinct(l) && l != []
    ensures Distinct(l[1..]) && l[0] !in l[1..] && forall f :: f in l[1..] ==> f in l
  {
    forall a, b ensures Differ(l[1..], a, b) { assert Differ(l, a + 1, b + 1); }
    forall b | 0 <= b < |l[1..]| ensures l[1..][b] != l[0] { assert Differ(l, 0, b + 1); }
  }

  lemma PushDistinct(l: seq<nat>, x: nat)
    requires Distinct(l) && x !in l
    ensures Distinct([x] + l) && forall f :: f in [x] + l <==> f == x || f in l
  {
    forall a, b ensures Differ([x] + l, a, b) { assert Differ(l, a - 1, b - 1); }
  }

  ghost predicate Inv(s: Mem) {
    && (forall f, i :: EntryOk(s, f, i))
    && (forall f :: LinkOk(s, f))
    && FreeOk(s)
  }

  ghost predicate IsRoot(s: Mem, root: nat) {
    root in s.tag && s.tag[root].pos.Root?
  }

  // ---------------------------------------------------------------- the flat map

  /** Entry i of table f, if it is there and valid. */
  function Entry(s: Mem, f: nat, i: nat): Option<Pte> {
    if f in s.tables && i < |s.tables[f]| && s.tables[f][i].v then Some(s.tables[f][i]) else None
  }

  function MidOf(s: Mem, root: nat, i: nat): Option<nat> {
    match Entry(s, root, i) case None => None case Some(e) => Some(e.ppn)
  }

  function BotOf(s: Mem, root: nat, i: nat, j: nat): Option<nat> {
    match MidOf(s, root, i)
    case None => None
    case Some(m) => match Entry(s, m, j) case None => None case Some(e) => Some(e.ppn)
  }

  /** The translation of the page with indices i, j, k. */
  function Leaf(s: Mem, root: nat, i: nat, j: nat, k: nat): Option<Pte> {
    match BotOf(s, root, i, j)
    case None => None
    case Some(b) => Entry(s, b, k)
  }

  lemma MidTag(s: Mem, root: nat, i: nat)
    requires Inv(s) && IsRoot(s, root) && i < ENTRIES && MidOf(s, root, i).Some?
    ensures var m := MidOf(s, root, i).value;
            m in s.tag && s.tag[m] == Tag(root, Mid(i), root) && i < ROOT_ENTRIES
  {
    assert EntryOk(s, root, i) && LinkOk(s, root) && LinkOk(s, MidOf(s, root, i).value);
  }

  lemma BotTag(s: Mem, root: nat, i: nat, j: nat)
    requires Inv(s) && IsRoot(s, root) && i < ENTRIES && j < ENTRIES && BotOf(s, root, i, j).Some?
    ensures var m, b := MidOf(s, root, i).value, BotOf(s, root, i, j).value;
            b in s.tag && s.tag[b] == Tag(root, Bot(i, j), m)
  {
    MidTag(s, root, i);
    assert EntryOk(s, MidOf(s, root, i).value, j);
  }

  // ---------------------------------------------------------------- single steps

  /** There can be a table page below entry i of a table at pos. */
  predicate Fits(pos: Pos, i: nat) {
    (pos.Root? && i < ROOT_ENTRIES) || (pos.Mid? && i < ENTRIES)
  }

  /** A new table page below entry i of table f. */
  function AddTable(s: Mem, f: nat, i: nat): Mem
    requires s.freelist != [] && f in s.tables && i < |s.tables[f]| && f in s.tag
  {
    var g := s.freelist[0];
    Mem(s.freelist[1..],
        s.tables[g := seq(ENTRIES, _ => NoPte)][f := s.tables[f][i := Pte(true, NoPerm, g)]],
        s.data,
        s.tag[g := Tag(s.tag[f].root, Child(s.tag[f].pos, i), f)])
  }

  lemma AddTableInv(s: Mem, f: nat, i: nat)
    requires Inv(s) && s.freelist != [] && f in s.tag && Fits(s.tag[f].pos, i)
    requires f in s.tables && |s.tables[f]| == ENTRIES && !s.tables[f][i].v
    ensures Inv(AddTable(s, f, i))
  {
    var s' := AddTable(s, f, i);
    PopDistinct(s.freelist);
    forall x, y ensures EntryOk(s', x, y) { assert EntryOk(s, x, y); }
    forall x ensures LinkOk(s', x) { assert LinkOk(s, x); }
  }

  /** Adding a table changes no translation, in any address space. */
  lemma AddTableKeepsLeaf(s: Mem, f: nat, x: nat, root: nat, i: nat, j: nat, k: nat)
    requires Inv(s) && s.freelist != [] && f in s.tag && Fits(s.tag[f].pos, x)
    requires f in s.tables && |s.tables[f]| == ENTRIES && !s.tables[f][x].v
    requires IsRoot(s, root) && i < ENTRIES && j < ENTRIES && k < ENTRIES
    ensures Leaf(AddTable(s, f, x), root, i, j, k) == Leaf(s, root, i, j, k)
  {
    var s', g := AddTable(s, f, x), s.freelist[0];
    assert g !in s.tag;
    if MidOf(s, root, i).Some? {
      MidTag(s, root, i);
      if BotOf(s, root, i, j).Some? { BotTag(s, root, i, j); }
    }
  }

  /** *pte = PA2PTE(pa) | perm | PTE_V at entry k of a lowest-level table. */
  function SetLeaf(s: Mem, f: nat, k: nat, e: Pte): Mem
    requires f in s.tables && k < |s.tables[f]| && f in s.tag
  {
    var pos := Child(s.tag[f].pos, k);
    s.(tables := s.tables[f := s.tables[f][k := e]],
       tag := if Foreign(pos) then s.tag else s.tag[e.ppn := Tag(s.tag[f].root, pos, f)])
  }

  /** A frame that kalloc() has handed out and that is not in any address space yet. */
  ghost predicate Loose(s: Mem, x: nat) {
    x !in s.tag && x !in s.freelist
  }

  ghost predicate BotTable(s: Mem, f: nat) {
    f in s.tag && s.tag[f].pos.Bot? && f in s.tables && |s.tables[f]| == ENTRIES
  }

  lemma SetLeafInv(s: Mem, f: nat, k: nat, e: Pte)
    requires Inv(s) && BotTable(s, f) && k < ENTRIES && !s.tables[f][k].v && e.v && IsLeaf(e.perm)
    requires Foreign(Child(s.tag[f].pos, k)) || (Loose(s, e.ppn) && e.ppn in s.data && |s.data[e.ppn]| == PGSIZE)
    ensures Inv(SetLeaf(s, f, k, e))
  {
    var s' := SetLeaf(s, f, k, e);
    forall x, y ensures EntryOk(s', x, y) { assert EntryOk(s, x, y); }
    forall x ensures LinkOk(s', x) { assert LinkOk(s, x); }
  }

  /** It changes the translation of that page only. */
  lemma SetLeafAt(s: Mem, f: nat, x: nat, e: Pte, root: nat, i: nat, j: nat, k: nat)
    requires Inv(s) && BotTable(s, f) && x < ENTRIES
    requires IsRoot(s, root) && i < ENTRIES && j < ENTRIES && k < ENTRIES
    ensures Leaf(SetLeaf(s, f, x, e), root, i, j, k)
         == if s.tag[f].root == root && Child(s.tag[f].pos, x) == Page(i, j, k) && BotOf(s, root, i, j) == Some(f)
            then (if e.v then Some(e) else None) else Leaf(s, root, i, j, k)
  {
    if MidOf(s, root, i).Some? {
      MidTag(s, root, i);
      if BotOf(s, root, i, j).Some? { BotTag(s, root, i, j); }
    }
  }

  lemma MidIsFound(s: Mem, f: nat)
    requires Inv(s) && f in s.tag && s.tag[f].pos.Mid?
    ensures IsRoot(s, s.tag[f].root) && MidOf(s, s.tag[f].root, s.tag[f].pos.i) == Some(f)
  {
    assert LinkOk(s, f);
    assert LinkOk(s, s.tag[f].parent);
  }

  /** A tagged lowest-level table is the one walk() finds for its indices. */
  lemma BotIsFound(s: Mem, f: nat)
    requires Inv(s) && BotTable(s, f)
    ensures var t := s.tag[f]; IsRoot(s, t.root) && BotOf(s, t.root, t.pos.i, t.pos.j) == Some(f)
  {
    assert LinkOk(s, f);
    assert LinkOk(s, s.tag[f].parent);
    assert LinkOk(s, s.tag[s.tag[f].parent].parent);
  }

  /** *pte = 0. */
  function ClearLeaf(s: Mem, f: nat, k: nat): Mem
    requires f in s.tables && k < |s.tables[f]| && f in s.tag
  {
    s.(tables := s.tables[f := s.tables[f][k := NoPte]],
       tag := if Foreign(Child(s.tag[f].pos, k)) then s.tag else s.tag - {s.tables[f][k].ppn})
  }

  lemma ClearLeafInv(s: Mem, f: nat, k: nat)
    requires Inv(s) && BotTable(s, f) && k < ENTRIES && s.tables[f][k].v
    ensures Inv(ClearLeaf(s, f, k))
  {
    var s' := ClearLeaf(s, f, k);
    assert EntryOk(s, f, k);
    forall x, y ensures EntryOk(s', x, y) { assert EntryOk(s, x, y); }
    forall x ensures LinkOk(s', x) { assert LinkOk(s, x); }
  }

  lemma ClearLeafAt(s: Mem, f: nat, x: nat, root: nat, i: nat, j: nat, k: nat)
    requires Inv(s) && BotTable(s, f) && x < ENTRIES && s.tables[f][x].v
    requires IsRoot(s, root) && i < ENTRIES && j < ENTRIES && k < ENTRIES
    ensures Leaf(ClearLeaf(s, f, x), root, i, j, k)
         == if s.tag[f].root == root && Child(s.tag[f].pos, x) == Page(i, j, k) && BotOf(s, root, i, j) == Some(f)
            then None else Leaf(s, root, i, j, k)
  {
    assert EntryOk(s, f, x);
    if MidOf(s, root, i).Some? {
      MidTag(s, root, i);
      if BotOf(s, root, i, j).Some? { BotTag(s, root, i, j); }
    }
  }

  // ---------------------------------------------------------------- virtual addresses

  /** PX(level, va): nine bits of the address. */
  function PX(level: nat, va: nat): (i: nat)
    requires level <= 2
    ensures i < ENTRIES
  {
    if level == 0 then va / 0x1000 % ENTRIES
    else if level == 1 then va / 0x20_0000 % ENTRIES
    else va / 0x4000_0000 % ENTRIES
  }

  /** The place of the page with number v: places in order, each entry of a lowest-level table after
      the one before, the way an odometer counts. */
  ghost function PosOf(v: nat): (p: Pos)
    ensures p.Page? && p.i < ENTRIES && p.j < ENTRIES && p.k < ENTRIES
  {
    if v == 0 then Page(0, 0, 0) else Next(PosOf(v - 1))
  }

  ghost function Next(p: Pos): (q: Pos)
    requires p.Page? && p.i < ENTRIES && p.j < ENTRIES && p.k < ENTRIES
    ensures q.Page? && q.i < ENTRIES && q.j < ENTRIES && q.k < ENTRIES
  {
    if p.k + 1 < ENTRIES then Page(p.i, p.j, p.k + 1)
    else if p.j + 1 < ENTRIES then Page(p.i, p.j + 1, 0)
    else if p.i + 1 < ENTRIES then Page(p.i + 1, 0, 0)
    else Page(0, 0, 0)
  }

  /** The page at a place. */
  function PageAt(i: nat, j: nat, k: nat): nat {
    i * 0x4_0000 + j * 0x200 + k
  }

  lemma {:induction false} PlaceValue(v: nat)
    requires v < MAXVPN
    ensures var p := PosOf(v); PageAt(p.i, p.j, p.k) == v && p.i < ROOT_ENTRIES
  {
    if v > 0 { PlaceValue(v - 1); }
  }

  lemma PlaceUnique(p: Pos, q: Pos)
    requires p.Page? && p.j < ENTRIES && p.k < ENTRIES && q.Page? && q.j < ENTRIES && q.k < ENTRIES
    requires PageAt(p.i, p.j, p.k) == PageAt(q.i, q.j, q.k)
    ensures p == q
  {
    var a, b := p.j * 0x200 + p.k, q.j * 0x200 + q.k;
    assert a < 0x4_0000 && b < 0x4_0000;
    assert p.i == q.i by { assert (p.i - q.i) * 0x4_0000 == b - a; }
    assert p.j == q.j;
  }

  lemma PageAtPlace(i: nat, j: nat, k: nat)
    requires i < ROOT_ENTRIES && j < ENTRIES && k < ENTRIES
    ensures PageAt(i, j, k) < MAXVPN && PosOf(PageAt(i, j, k)) == Page(i, j, k)
  {
    PlaceValue(PageAt(i, j, k));
    PlaceUnique(PosOf(PageAt(i, j, k)), Page(i, j, k));
  }

  lemma Digits(va: nat)
    requires va < MAXVPN * PGSIZE
    ensures va / PGSIZE == PageAt(PX(2, va), PX(1, va), PX(0, va)) && PX(2, va) < ROOT_ENTRIES
  {
    var v := va / PGSIZE;
    assert va / 0x20_0000 == v / 0x200;
    assert va / 0x4000_0000 == v / 0x4_0000;
    assert v / 0x4_0000 == (v / 0x200) / 0x200;
  }

  /** walk()'s three indices are the place of the page that holds va: below MAXVA no two pages have the
      same indices, and every place is some page's. */
  lemma IndicesArePlace(va: nat)
    requires va < MAXVPN * PGSIZE
    ensures PosOf(va / PGSIZE) == Page(PX(2, va), PX(1, va), PX(0, va)) && PX(2, va) < ROOT_ENTRIES
  {
    Digits(va);
    PlaceValue(va / PGSIZE);
    PlaceUnique(PosOf(va / PGSIZE), Page(PX(2, va), PX(1, va), PX(0, va)));
  }

  /** Different pages have different places. */
  lemma PageIndices(v: nat, w: nat)
    requires v < MAXVPN && w < MAXVPN
    ensures PosOf(v) == PosOf(w) <==> v == w
  {
    PlaceValue(v);
    PlaceValue(w);
  }

  /** The flat map that a page table stands for: from page numbers to leaf entries. */
  ghost function Trans(s: Mem, root: nat, v: nat): Option<Pte> {
    Leaf(s, root, PosOf(v).i, PosOf(v).j, PosOf(v).k)
  }

  /** The two highest pages are the foreign ones. */
  predicate ForeignPage(v: nat) {
    v >= MAXVPN - 2
  }

  lemma ForeignPages(w: nat)
    requires w < MAXVPN
    ensures Foreign(PosOf(w)) <==> ForeignPage(w)
  {
    PlaceValue(w);
  }

  // ---------------------------------------------------------------- frames

  /** Free frames and frames in address spaces. */
  ghost function Frames(s: Mem): set<nat> {
    (set f | f in s.freelist) + s.tag.Keys
  }

  ghost predicate SameLeaf(s: Mem, s': Mem, root: nat, i: nat, j: nat, k: nat) {
    IsRoot(s, root) && i < ENTRIES && j < ENTRIES && k < ENTRIES ==> Leaf(s', root, i, j, k) == Leaf(s, root, i, j, k)
  }

  /** s' has at most more page-table pages: no translation, tag or page contents differ, and no frame
      is lost. */
  ghost predicate Extends(s: Mem, s': Mem) {
    && Frames(s') == Frames(s)
    && s'.data == s.data
    && (forall f :: f in s.tag ==> f in s'.tag && s'.tag[f] == s.tag[f])
    && (forall f :: f in s'.tag && f !in s.tag ==> !s'.tag[f].pos.Page? && !s'.tag[f].pos.Root?)
    && (forall root: nat, i: nat, j: nat, k: nat :: SameLeaf(s, s', root, i, j, k))
  }

  lemma ExtendsTrans(s: Mem, t: Mem, u: Mem)
    requires Extends(s, t) && Extends(t, u)
    ensures Extends(s, u)
  {
    forall root: nat, i: nat, j: nat, k: nat ensures SameLeaf(s, u, root, i, j, k) {
      assert SameLeaf(s, t, root, i, j, k) && SameLeaf(t, u, root, i, j, k);
    }
  }

  lemma AddTableExtends(s: Mem, f: nat, i: nat)
    requires Inv(s) && s.freelist != [] && f in s.tag && Fits(s.tag[f].pos, i)
    requires f in s.tables && |s.tables[f]| == ENTRIES && !s.tables[f][i].v
    ensures Inv(AddTable(s, f, i)) && Extends(s, AddTable(s, f, i))
  {
    var s' := AddTable(s, f, i);
    AddTableInv(s, f, i);
    forall root: nat, a: nat, b: nat, c: nat ensures SameLeaf(s, s', root, a, b, c) {
      if IsRoot(s, root) && a < ENTRIES && b < ENTRIES && c < ENTRIES { AddTableKeepsLeaf(s, f, i, root, a, b, c); }
    }
    PopFrames(s.freelist, s.tag.Keys);
  }

  lemma PopFrames(l: seq<nat>, t: set<nat>)
    requires l != []
    ensures (set f | f in l[1..]) + (t + {l[0]}) == (set f | f in l) + t
  {
    assert forall f :: f in l <==> f == l[0] || f in l[1..];
  }

  /** kfree() */
  function Freed(s: Mem, x: nat): Mem {
    s.(freelist := [x] + s.freelist, data := s.data - {x}, tables := s.tables - {x})
  }

  lemma FreeKeepsInv(s: Mem, x: nat)
    requires Inv(s) && Loose(s, x)
    ensures Inv(Freed(s, x))
  {
    var s' := Freed(s, x);
    PushDistinct(s.freelist, x);
    forall a, b ensures EntryOk(s', a, b) { assert EntryOk(s, a, b); }
    forall a ensures LinkOk(s', a) { assert LinkOk(s, a); }
  }

  // ---------------------------------------------------------------- ranges of pages

  /** From s to s', exactly the pages v .. v + n - 1 of root were mapped, to consecutive frames. */
  ghost predicate MapAt(s: Mem, s': Mem, root: nat, v: nat, n: nat, ppn: nat, perm: Perm, r: nat, w: nat) {
    IsRoot(s, r) && w < MAXVPN ==>
      Trans(s', r, w) == if r == root && v <= w < v + n then Some(Pte(true, perm, ppn + w - v)) else Trans(s, r, w)
  }

  ghost predicate MapsExactly(s: Mem, s': Mem, root: nat, v: nat, n: nat, ppn: nat, perm: Perm) {
    forall r: nat, w: nat :: MapAt(s, s', root, v, n, ppn, perm, r, w)
  }

  /** From s to s', exactly the pages v .. v + n - 1 of root were unmapped. */
  ghost predicate UnmapAt(s: Mem, s': Mem, root: nat, v: nat, n: nat, r: nat, w: nat) {
    IsRoot(s, r) && w < MAXVPN ==>
      Trans(s', r, w) == if r == root && v <= w < v + n then None else Trans(s, r, w)
  }

  ghost predicate UnmapsExactly(s: Mem, s': Mem, root: nat, v: nat, n: nat) {
    forall r: nat, w: nat :: UnmapAt(s, s', root, v, n, r, w)
  }

  /** Every address space of s is still there. */
  ghost predicate KeepsRoots(s: Mem, s': Mem) {
    forall r :: IsRoot(s, r) ==> IsRoot(s', r)
  }

  ghost predicate Mappable(s: Mem, v: nat, ppn: nat) {
    v < MAXVPN && (ForeignPage(v) || (Loose(s, ppn) && ppn in s.data && |s.data[ppn]| == PGSIZE))
  }

  /** Setting the entry walk() found for page v. */
  lemma SetLeafMaps(s: Mem, f: nat, v: nat, root: nat, e: Pte)
    requires Inv(s) && BotTable(s, f) && s.tag[f].root == root && v < MAXVPN && e.v && IsLeaf(e.perm)
    requires Child(s.tag[f].pos, PosOf(v).k) == PosOf(v) && Trans(s, root, v).None? && Mappable(s, v, e.ppn)
    ensures var s' := SetLeaf(s, f, PosOf(v).k, e);
            && Inv(s') && KeepsRoots(s, s')
            && MapsExactly(s, s', root, v, 1, e.ppn, e.perm)
            && Frames(s') == Frames(s) + (if ForeignPage(v) then {} else {e.ppn})
  {
    var x := PosOf(v).k;
    var s' := SetLeaf(s, f, x, e);
    ForeignPages(v);
    BotIsFound(s, f);
    SetLeafInv(s, f, x, e);
    forall r: nat, w: nat ensures MapAt(s, s', root, v, 1, e.ppn, e.perm, r, w) {
      if IsRoot(s, r) && w < MAXVPN {
        SetLeafAt(s, f, x, e, r, PosOf(w).i, PosOf(w).j, PosOf(w).k);
        PageIndices(v, w);
      }
    }
  }

  /** Clearing the entry of a mapped page. */
  lemma ClearLeafUnmaps(s: Mem, f: nat, v: nat, root: nat)
    requires Inv(s) && BotTable(s, f) && s.tag[f].root == root && v < MAXVPN
    requires Child(s.tag[f].pos, PosOf(v).k) == PosOf(v) && Trans(s, root, v).Some?
    ensures s.tables[f][PosOf(v).k].v && s.tables[f][PosOf(v).k] == Trans(s, root, v).value
    ensures IsLeaf(Trans(s, root, v).value.perm)
    ensures var s', x := ClearLeaf(s, f, PosOf(v).k), Trans(s, root, v).value.ppn;
            && Inv(s') && KeepsRoots(s, s')
            && UnmapsExactly(s, s', root, v, 1)
            && (!ForeignPage(v) ==> x in s.tag && s.tag[x].pos == PosOf(v) && s'.tag == s.tag - {x} && Loose(s', x))
            && (ForeignPage(v) ==> s'.tag == s.tag)
  {
    var x := PosOf(v).k;
    var s' := ClearLeaf(s, f, x);
    ForeignPages(v);
    BotIsFound(s, f);
    assert EntryOk(s, f, x);
    ClearLeafInv(s, f, x);
    forall r: nat, w: nat ensures UnmapAt(s, s', root, v, 1, r, w) {
      if IsRoot(s, r) && w < MAXVPN {
        ClearLeafAt(s, f, x, r, PosOf(w).i, PosOf(w).j, PosOf(w).k);
        PageIndices(v, w);
      }
    }
  }

  lemma ExtendsKeepsTrans(s: Mem, s': Mem, r: nat, w: nat)
    requires Extends(s, s') && IsRoot(s, r)
    ensures Trans(s', r, w) == Trans(s, r, w)
  {
    assert SameLeaf(s, s', r, PosOf(w).i, PosOf(w).j, PosOf(w).k);
  }

  lemma ExtendThenMap(s: Mem, t: Mem, u: Mem, root: nat, v: nat, n: nat, ppn: nat, perm: Perm)
    requires Extends(s, t) && MapsExactly(t, u, root, v, n, ppn, perm)
    ensures MapsExactly(s, u, root, v, n, ppn, perm)
  {
    forall r: nat, w: nat ensures MapAt(s, u, root, v, n, ppn, perm, r, w) {
      assert MapAt(t, u, root, v, n, ppn, perm, r, w);
      if IsRoot(s, r) { ExtendsKeepsTrans(s, t, r, w); }
    }
  }

  lemma MapOneMore(s: Mem, t: Mem, u: Mem, root: nat, v: nat, n: nat, ppn: nat, perm: Perm)
    requires MapsExactly(s, t, root, v, n, ppn, perm) && MapsExactly(t, u, root, v + n, 1, ppn + n, perm)
    requires KeepsRoots(s, t)
    ensures MapsExactly(s, u, root, v, n + 1, ppn, perm)
  {
    var n' := n + 1;
    forall r: nat, w: nat ensures MapAt(s, u, root, v, n', ppn, perm, r, w) {
      assert MapAt(s, t, root, v, n, ppn, perm, r, w) && MapAt(t, u, root, v + n, 1, ppn + n, perm, r, w);
    }
  }

  lemma MapThenExtend(s: Mem, t: Mem, u: Mem, root: nat, v: nat, n: nat, ppn: nat, perm: Perm)
    requires MapsExactly(s, t, root, v, n, ppn, perm) && Extends(t, u) && KeepsRoots(s, t)
    ensures MapsExactly(s, u, root, v, n, ppn, perm)
  {
    forall r: nat, w: nat ensures MapAt(s, u, root, v, n, ppn, perm, r, w) {
      assert MapAt(s, t, root, v, n, ppn, perm, r, w);
      if IsRoot(s, r) { ExtendsKeepsTrans(t, u, r, w); }
    }
  }

  lemma UnmapOneMore(s: Mem, t: Mem, u: Mem, root: nat, v: nat, n: nat)
    requires UnmapsExactly(s, t, root, v, n) && UnmapsExactly(t, u, root, v + n, 1) && KeepsRoots(s, t)
    ensures UnmapsExactly(s, u, root, v, n + 1)
  {
    var n' := n + 1;
    forall r: nat, w: nat ensures UnmapAt(s, u, root, v, n', r, w) {
      assert UnmapAt(s, t, root, v, n, r, w) && UnmapAt(t, u, root, v + n, 1, r, w);
    }
  }

  /** The frames that pages v .. v + n - 1 bring into an address space when mapped from ppn on. */
  ghost function Brought(v: nat, n: nat, ppn: nat): (fs: set<nat>)
    ensures forall x :: x in fs ==> ppn <= x < ppn + n
  {
    if n == 0 then {}
    else Brought(v, n - 1, ppn) + if ForeignPage(v + n - 1) then {} else {ppn + n - 1}
  }

  lemma BroughtOneMore(fs: set<nat>, fs1: set<nat>, fs2: set<nat>, v: nat, m: nat, ppn: nat)
    requires fs1 == fs + Brought(v, m, ppn) && fs2 == fs1 + (if ForeignPage(v + m) then {} else {ppn + m})
    ensures fs2 == fs + Brought(v, m + 1, ppn)
  {
  }

  ghost predicate CanMap(s: Mem, root: nat, v: nat, n: nat, ppn: nat, w: nat) {
    v <= w < v + n ==> Mappable(s, w, ppn + w - v) && Trans(s, root, w).None?
  }

  ghost predicate AllCanMap(s: Mem, root: nat, v: nat, n: nat, ppn: nat) {
    forall w: nat :: CanMap(s, root, v, n, ppn, w)
  }

  /** mappages() has mapped the first m pages. */
  ghost predicate Progress(s: Mem, t: Mem, root: nat, v: nat, m: nat, ppn: nat, perm: Perm) {
    && Inv(t) && KeepsRoots(s, t) && t.data == s.data
    && MapsExactly(s, t, root, v, m, ppn, perm)
    && Frames(t) == Frames(s) + Brought(v, m, ppn)
  }

  lemma NoProgress(s: Mem, root: nat, v: nat, ppn: nat, perm: Perm)
    requires Inv(s)
    ensures Progress(s, s, root, v, 0, ppn, perm)
  {
  }

  /** The next page still can be mapped ... */
  lemma NextCanMap(s: Mem, t: Mem, root: nat, v: nat, n: nat, m: nat, ppn: nat, perm: Perm)
    requires IsRoot(s, root) && m < n && AllCanMap(s, root, v, n, ppn) && Progress(s, t, root, v, m, ppn, perm)
    ensures Mappable(t, v + m, ppn + m) && Trans(t, root, v + m).None?
  {
    assert CanMap(s, root, v, n, ppn, v + m);
    assert MapAt(s, t, root, v, m, ppn, perm, root, v + m);
    if !ForeignPage(v + m) {
      assert ppn + m !in Frames(s) && ppn + m !in Frames(t);
    }
  }

  /** ... and is one more, or there was no memory for its tables. */
  lemma MapStep(s: Mem, t: Mem, u: Mem, root: nat, v: nat, m: nat, ppn: nat, perm: Perm)
    requires Progress(s, t, root, v, m, ppn, perm) && Inv(u) && KeepsRoots(t, u) && u.data == t.data
    requires MapsExactly(t, u, root, v + m, 1, ppn + m, perm)
    requires Frames(u) == Frames(t) + (if ForeignPage(v + m) then {} else {ppn + m})
    ensures Progress(s, u, root, v, m + 1, ppn, perm)
  {
    MapOneMore(s, t, u, root, v, m, ppn, perm);
    BroughtOneMore(Frames(s), Frames(t), Frames(u), v, m, ppn);
  }

  lemma MapStop(s: Mem, t: Mem, u: Mem, root: nat, v: nat, m: nat, ppn: nat, perm: Perm)
    requires Progress(s, t, root, v, m, ppn, perm) && Inv(u) && KeepsRoots(t, u) && Extends(t, u)
    ensures Progress(s, u, root, v, m, ppn, perm)
  {
    MapThenExtend(s, t, u, root, v, m, ppn, perm);
  }

  /** No page contents were changed. */
  ghost predicate KeepsData(s: Mem, s': Mem) {
    forall y :: y in s'.data ==> y in s.data && s'.data[y] == s.data[y]
  }

  ghost predicate FewerTags(s: Mem, s': Mem) {
    forall x :: x in s'.tag ==> x in s.tag && s'.tag[x] == s.tag[x]
  }

  /** uvmunmap() has unmapped the first m pages. */
  ghost predicate Shrinking(s: Mem, t: Mem, root: nat, v: nat, m: nat) {
    && Inv(t) && KeepsRoots(s, t) && KeepsData(s, t) && FewerTags(s, t)
    && UnmapsExactly(s, t, root, v, m)
    && Frames(t) == Frames(s)
  }

  lemma UnmapStep(s: Mem, t: Mem, u: Mem, root: nat, v: nat, m: nat)
    requires Shrinking(s, t, root, v, m) && Shrinking(t, u, root, v + m, 1)
    ensures Shrinking(s, u, root, v, m + 1)
  {
    UnmapOneMore(s, t, u, root, v, m);
  }

  ghost predicate IsMapped(s: Mem, root: nat, v: nat, n: nat, w: nat) {
    v <= w < v + n ==> w < MAXVPN && Trans(s, root, w).Some?
  }

  /** The pages v .. v + n - 1 are all mapped. */
  ghost predicate RangeMapped(s: Mem, root: nat, v: nat, n: nat) {
    forall w: nat :: IsMapped(s, root, v, n, w)
  }

  lemma NoneMapped(s: Mem, root: nat, v: nat)
    requires Inv(s)
    ensures RangeMapped(s, root, v, 0) && Shrinking(s, s, root, v, 0)
  {
  }

  /** The next page is as it was. */
  lemma StillMapped(s: Mem, t: Mem, root: nat, v: nat, m: nat)
    requires IsRoot(s, root) && Shrinking(s, t, root, v, m)
    ensures IsRoot(t, root) && (v + m < MAXVPN ==> Trans(t, root, v + m) == Trans(s, root, v + m))
  {
    assert UnmapAt(s, t, root, v, m, root, v + m);
  }

  /** One more page, or the first that is not mapped. */
  lemma RangeOneMore(s: Mem, root: nat, v: nat, m: nat, n: nat)
    requires RangeMapped(s, root, v, m) && m < n
    ensures RangeMapped(s, root, v, m + 1) <==> v + m < MAXVPN && Trans(s, root, v + m).Some?
    ensures RangeMapped(s, root, v, n) ==> RangeMapped(s, root, v, m + 1)
  {
    var k := m + 1;
    if v + m < MAXVPN && Trans(s, root, v + m).Some? {
      forall w: nat ensures IsMapped(s, root, v, k, w) { assert IsMapped(s, root, v, m, w); }
    } else {
      assert !IsMapped(s, root, v, k, v + m) && !IsMapped(s, root, v, n, v + m);
    }
  }

  lemma PushFrames(l: seq<nat>, t: set<nat>, x: nat)
    requires x in t
    ensures (set f | f in [x] + l) + (t - {x}) == (set f | f in l) + t
  {
  }

  /** Freeing a loose frame changes no translation. */
  lemma FreeKeepsLeaf(s: Mem, x: nat, root: nat, i: nat, j: nat, k: nat)
    requires Inv(s) && Loose(s, x) && IsRoot(s, root) && i < ENTRIES && j < ENTRIES && k < ENTRIES
    ensures Leaf(Freed(s, x), root, i, j, k)
         == Leaf(s, root, i, j, k)
  {
    if MidOf(s, root, i).Some? {
      MidTag(s, root, i);
      if BotOf(s, root, i, j).Some? { BotTag(s, root, i, j); }
    }
  }

  lemma FreeKeepsTrans(s: Mem, x: nat, root: nat, v: nat, s0: Mem)
    requires Inv(s) && Loose(s, x) && KeepsRoots(s0, s) && UnmapsExactly(s0, s, root, v, 1)
    ensures UnmapsExactly(s0, Freed(s, x), root, v, 1)
  {
    var s' := Freed(s, x);
    forall r: nat, w: nat ensures UnmapAt(s0, s', root, v, 1, r, w) {
      assert UnmapAt(s0, s, root, v, 1, r, w);
      if IsRoot(s0, r) { FreeKeepsLeaf(s, x, r, PosOf(w).i, PosOf(w).j, PosOf(w).k); }
    }
  }

  function PageUp(sz: nat): nat {
    (sz + PGSIZE - 1) / PGSIZE
  }

  /** Below the foreign pages, exactly the first n pages are mapped. */
  ghost predicate UserPage(s: Mem, root: nat, n: nat, w: nat) {
    w < MAXVPN - 2 ==> (Trans(s, root, w).Some? <==> w < n)
  }

  ghost predicate UserPages(s: Mem, root: nat, n: nat) {
    forall w: nat :: UserPage(s, root, n, w)
  }

  /** The contents of a user page. */
  ghost function Content(s: Mem, root: nat, w: nat): Option<seq<int>> {
    if w < MAXVPN - 2 && Trans(s, root, w).Some? && Trans(s, root, w).value.ppn in s.data
    then Some(s.data[Trans(s, root, w).value.ppn]) else None
  }

  /** Page w of address space r is translated as before and has the same contents. */
  ghost predicate PageSame(s: Mem, s': Mem, r: nat, w: nat) {
    IsRoot(s, r) && w < MAXVPN ==> Trans(s', r, w) == Trans(s, r, w) && Content(s', r, w) == Content(s, r, w)
  }

  /** The frame of a mapped user page. */
  lemma PageFrame(s: Mem, root: nat, w: nat)
    requires Inv(s) && IsRoot(s, root) && w < MAXVPN - 2 && Trans(s, root, w).Some?
    ensures var x := Trans(s, root, w).value.ppn;
            && x in s.tag && s.tag[x].root == root && s.tag[x].pos == PosOf(w)
            && x in s.data && |s.data[x]| == PGSIZE
  {
    var i, j, k := PosOf(w).i, PosOf(w).j, PosOf(w).k;
    BotTag(s, root, i, j);
    assert EntryOk(s, BotOf(s, root, i, j).value, k);
    ForeignPages(w);
    assert LinkOk(s, Trans(s, root, w).value.ppn);
  }

  /** Unmapping leaves the contents of the other pages alone. */
  lemma ShrinkingKeeps(s: Mem, t: Mem, root: nat, v: nat, n: nat, r: nat, w: nat)
    requires Inv(s) && Shrinking(s, t, root, v, n) && !(r == root && v <= w < v + n)
    ensures PageSame(s, t, r, w)
  {
    assert UnmapAt(s, t, root, v, n, r, w);
    if IsRoot(s, r) && w < MAXVPN - 2 && Trans(s, r, w).Some? {
      PageFrame(s, r, w);
      PageFrame(t, r, w);
    }
  }

  function Zeros(): (z: seq<int>)
    ensures |z| == PGSIZE
  {
    seq(PGSIZE, _ => 0)
  }

  /** What a new page is to be: its permissions and contents. */
  datatype NewPage = NewPage(perm: Perm, bytes: seq<int>)

  /** The first free frame has been taken and filled. */
  function Taken(t: Mem, bytes: seq<int>): Mem
    requires t.freelist != []
  {
    t.(freelist := t.freelist[1..], data := t.data[t.freelist[0] := bytes])
  }

  /** From s to t, pages a .. b - 1 of root appeared as c says, and nothing else changed. */
  ghost predicate GrownAt(s: Mem, t: Mem, root: nat, a: nat, b: nat, c: nat -> NewPage, r: nat, w: nat) {
    if IsRoot(s, r) && r == root && a <= w < b
    then Trans(t, r, w).Some? && Trans(t, r, w).value.perm == c(w).perm && Content(t, r, w) == Some(c(w).bytes)
    else PageSame(s, t, r, w)
  }

  ghost predicate Grown(s: Mem, t: Mem, root: nat, a: nat, b: nat, c: nat -> NewPage) {
    && Inv(t) && KeepsRoots(s, t) && Frames(t) == Frames(s)
    && (forall r: nat, w: nat :: GrownAt(s, t, root, a, b, c, r, w))
  }

  lemma GrownOneMore(s: Mem, t: Mem, u: Mem, root: nat, a: nat, b: nat, c: nat -> NewPage)
    requires Grown(s, t, root, a, b, c) && Grown(t, u, root, b, b + 1, c) && a <= b < MAXVPN - 2
    ensures Grown(s, u, root, a, b + 1, c)
  {
    var b' := b + 1;
    forall r: nat, w: nat ensures GrownAt(s, u, root, a, b', c, r, w) {
      assert GrownAt(s, t, root, a, b, c, r, w) && GrownAt(t, u, root, b, b', c, r, w);
    }
  }

  /** A page taken from the free list, cleared and mapped. */
  lemma FreshPage(t: Mem, u: Mem, root: nat, v: nat, perm: Perm, bytes: seq<int>, c: nat -> NewPage)
    requires c(v) == NewPage(perm, bytes) && |bytes| == PGSIZE
    requires Inv(t) && t.freelist != [] && IsRoot(t, root) && v < MAXVPN - 2
    requires Inv(u) && KeepsRoots(Taken(t, bytes), u) && u.data == Taken(t, bytes).data
    requires MapsExactly(Taken(t, bytes), u, root, v, 1, t.freelist[0], perm)
    requires Frames(u) == Frames(Taken(t, bytes)) + {t.freelist[0]}
    ensures Grown(t, u, root, v, v + 1, c)
  {
    var x := t.freelist[0];
    var t1 := Taken(t, bytes);
    PopFrames(t.freelist, t.tag.Keys);
    assert Frames(u) == Frames(t);
    var v' := v + 1;
    forall r: nat, w: nat ensures GrownAt(t, u, root, v, v', c, r, w) {
      assert MapAt(t1, u, root, v, 1, x, perm, r, w);
      assert Trans(t1, r, w) == Trans(t, r, w);
      if IsRoot(t, r) && w < MAXVPN - 2 && Trans(t, r, w).Some? { PageFrame(t, r, w); }
    }
  }

  /** mem is in use, but not in an address space. */
  lemma TakenKeepsInv(t: Mem, bytes: seq<int>)
    requires Inv(t) && t.freelist != []
    ensures Inv(Taken(t, bytes)) && Loose(Taken(t, bytes), t.freelist[0])
  {
    var t1 := Taken(t, bytes);
    PopDistinct(t.freelist);
    forall a, b ensures EntryOk(t1, a, b) { assert EntryOk(t, a, b); }
    forall a ensures LinkOk(t1, a) { assert LinkOk(t, a); }
  }

  /** Page w was neither mapped, unmapped nor changed by an attempt that failed. */
  lemma GivenBack(t: Mem, u: Mem, bytes: seq<int>, r: nat, w: nat)
    requires Inv(t) && t.freelist != [] && Inv(u) && Loose(u, t.freelist[0])
    requires Extends(Taken(t, bytes), u)
    ensures PageSame(t, Freed(u, t.freelist[0]), r, w)
  {
    var x := t.freelist[0];
    var t1 := Taken(t, bytes);
    if IsRoot(t, r) {
      assert IsRoot(t1, r);
      ExtendsKeepsTrans(t1, u, r, w);
      FreeKeepsLeaf(u, x, r, PosOf(w).i, PosOf(w).j, PosOf(w).k);
      assert Trans(t1, r, w) == Trans(t, r, w);
      if w < MAXVPN - 2 && Trans(t, r, w).Some? { PageFrame(t, r, w); }
    }
  }

  lemma GivenBackFrames(t: Mem, u: Mem, bytes: seq<int>)
    requires t.freelist != [] && Extends(Taken(t, bytes), u)
    ensures Frames(Freed(u, t.freelist[0])) == Frames(t)
  {
    PopFrames(t.freelist, t.tag.Keys);
    var x := t.freelist[0];
    var t1 := Taken(t, bytes);
    assert Frames(t) == Frames(t1) + {x};
  }

  ghost predicate AllMapped(s: Mem, root: nat, n: nat) {
    n <= MAXVPN - 2 && forall w: nat :: w < n ==> Trans(s, root, w).Some?
  }

  ghost predicate PlacedBelow(s: Mem, x: nat, n: nat) {
    x in s.tag && exists w: nat :: w < n && s.tag[x].pos == PosOf(w)
  }

  lemma NotPlacedBelow(s: Mem, x: nat, n: nat)
    requires n < MAXVPN && x in s.tag && s.tag[x].pos == PosOf(n)
    ensures !PlacedBelow(s, x, n) && PlacedBelow(s, x, n + 1)
    ensures forall y :: PlacedBelow(s, y, n) ==> PlacedBelow(s, y, n + 1)
  {
    forall w: nat | w < n ensures PosOf(w) != PosOf(n) { PageIndices(w, n); }
  }

  /** The frames of pages 0 .. n - 1: as many as pages. */
  ghost function PageFrames(s: Mem, root: nat, n: nat): (fs: set<nat>)
    requires Inv(s) && IsRoot(s, root) && AllMapped(s, root, n)
    ensures |fs| == n && fs <= s.tag.Keys && (forall x :: x in fs ==> PlacedBelow(s, x, n))
  {
    if n == 0 then {}
    else
      var x := Trans(s, root, n - 1).value.ppn;
      PageFrame(s, root, n - 1);
      var rest := PageFrames(s, root, n - 1);
      NotPlacedBelow(s, x, n - 1);
      rest + {x}
  }

  /** There cannot be more pages than frames. */
  lemma PagesFit(s: Mem, root: nat, n: nat)
    requires Inv(s) && IsRoot(s, root) && AllMapped(s, root, n)
    ensures n <= |Frames(s)|
  {
    SubsetSize(PageFrames(s, root, n), Frames(s));
  }

  lemma SizeFits(s: Mem, root: nat, n: nat)
    requires Inv(s) && IsRoot(s, root) && UserPages(s, root, n) && |Frames(s)| < MAXVPN - 2
    ensures n < MAXVPN - 2
  {
    if n >= MAXVPN - 2 {
      forall w: nat | w < MAXVPN - 2 ensures Trans(s, root, w).Some? { assert UserPage(s, root, n, w); }
      PagesFit(s, root, MAXVPN - 2);
    }
  }

  lemma GrownUserPages(s: Mem, t: Mem, root: nat, a: nat, b: nat, c: nat -> NewPage)
    requires IsRoot(s, root) && UserPages(s, root, a) && Grown(s, t, root, a, b, c) && a <= b
    ensures UserPages(t, root, b)
  {
    forall w: nat ensures UserPage(t, root, b, w) {
      assert UserPage(s, root, a, w) && GrownAt(s, t, root, a, b, c, root, w);
    }
  }

  /** Growing and then giving the new pages back changes nothing. */
  lemma GrownUndone(s: Mem, t: Mem, u: Mem, root: nat, a: nat, b: nat, c: nat -> NewPage)
    requires IsRoot(s, root) && UserPages(s, root, a) && a <= b < MAXVPN - 2
    requires Grown(s, t, root, a, b, c) && Shrinking(t, u, root, a, b - a)
    ensures Grown(s, u, root, a, a, c)
  {
    forall r: nat, w: nat ensures GrownAt(s, u, root, a, a, c, r, w) {
      assert GrownAt(s, t, root, a, b, c, r, w) && UserPage(s, root, a, w);
      if r == root && a <= w < b {
        assert UnmapAt(t, u, root, a, b - a, r, w);
      } else {
        ShrinkingKeeps(t, u, root, a, b - a, r, w);
      }
    }
  }

  lemma GrownStays(s: Mem, t: Mem, u: Mem, root: nat, a: nat, b: nat, c: nat -> NewPage)
    requires Grown(s, t, root, a, b, c) && Grown(t, u, root, b, b, c) && a <= b <= MAXVPN - 2
    ensures Grown(s, u, root, a, b, c)
  {
    forall r: nat, w: nat ensures GrownAt(s, u, root, a, b, c, r, w) {
      assert GrownAt(s, t, root, a, b, c, r, w) && GrownAt(t, u, root, b, b, c, r, w);
    }
  }

  lemma GrownMapped(s: Mem, t: Mem, root: nat, a: nat, b: nat, c: nat -> NewPage)
    requires IsRoot(s, root) && UserPages(s, root, a) && Grown(s, t, root, a, b, c) && a <= b <= MAXVPN - 2
    ensures PageUp(a * PGSIZE) == a && PageUp(b * PGSIZE) == b && RangeMapped(t, root, a, b - a)
  {
    GrownUserPages(s, t, root, a, b, c);
    var n := b - a;
    forall w: nat ensures IsMapped(t, root, a, n, w) { assert UserPage(t, root, b, w); }
  }

  lemma PagesMapped(s: Mem, root: nat, n: nat)
    requires UserPages(s, root, n) && n <= MAXVPN - 2
    ensures RangeMapped(s, root, 0, n)
  {
    forall w: nat ensures IsMapped(s, root, 0, n, w) { assert UserPage(s, root, n, w); }
  }

  /** The pages that uvmdealloc() gives up. */
  function Excess(oldsz: nat, newsz: nat): (n: nat)
    ensures newsz <= oldsz ==> PageUp(newsz) + n == PageUp(oldsz)
  {
    if newsz < oldsz then PageUp(oldsz) - PageUp(newsz) else 0
  }

  /** When uvmdealloc() does not panic, for a process with n pages: oldsz can be larger than the process only if it
      gives up no page. */
  lemma DeallocIff(s: Mem, root: nat, n: nat, oldsz: nat, newsz: nat)
    requires UserPages(s, root, n) && n <= MAXVPN - 2 && newsz < oldsz && PageUp(oldsz) <= MAXVPN - 2
    ensures RangeMapped(s, root, PageUp(newsz), Excess(oldsz, newsz))
       <==> PageUp(oldsz) <= n || PageUp(oldsz) == PageUp(newsz)
  {
    var v, k := PageUp(newsz), Excess(oldsz, newsz);
    if v < PageUp(oldsz) {
      var last := PageUp(oldsz) - 1;
      assert UserPage(s, root, n, last);
      if PageUp(oldsz) <= n {
        forall w: nat ensures IsMapped(s, root, v, k, w) { assert UserPage(s, root, n, w); }
      } else {
        assert !IsMapped(s, root, v, k, last);
      }
    }
  }

  ghost function ZeroPages(xperm: Perm): nat -> NewPage {
    (w: nat) => NewPage(UserPerm(xperm), Zeros())
  }

  /** PTE_R | PTE_U | xperm */
  function UserPerm(xperm: Perm): Perm {
    xperm.(r := true, u := true)
  }

  lemma GrownByNothing(s: Mem, root: nat, a: nat, c: nat -> NewPage)
    requires Inv(s)
    ensures Grown(s, s, root, a, a, c)
  {
  }

  lemma LastPage(oldsz: nat, newsz: nat, v: nat)
    requires oldsz <= newsz <= v * PGSIZE && PageUp(oldsz) <= v && (v > PageUp(oldsz) ==> (v - 1) * PGSIZE < newsz)
    ensures v == PageUp(newsz)
  {
  }

  // ---------------------------------------------------------------- fork: copying an address space

  /** The pages of an address space, as they are to be copied. */
  ghost function CopyOf(s: Mem, root: nat): nat -> NewPage {
    (w: nat) => NewPage(if Trans(s, root, w).Some? then Trans(s, root, w).value.perm else NoPerm,
                 if Content(s, root, w).Some? then Content(s, root, w).value else [])
  }

  /** for(i = 0; i < sz; i += PGSIZE) makes PageUp(sz) rounds. */
  lemma Rounds(v: nat, sz: nat)
    ensures v * PGSIZE < sz <==> v < PageUp(sz)
  {
  }

  /** While the child grows, page v of the parent stays what it was. */
  lemma ParentPage(s: Mem, t: Mem, old_: nat, new_: nat, v: nat)
    requires Inv(s) && IsRoot(s, old_) && old_ != new_ && v < MAXVPN - 2 && Trans(s, old_, v).Some?
    requires Grown(s, t, new_, 0, v, CopyOf(s, old_))
    ensures Trans(t, old_, v) == Trans(s, old_, v)
    ensures var e := Trans(s, old_, v).value;
            && IsLeaf(e.perm) && e.ppn in t.data && |t.data[e.ppn]| == PGSIZE
            && CopyOf(s, old_)(v) == NewPage(e.perm, t.data[e.ppn])
  {
    assert GrownAt(s, t, new_, 0, v, CopyOf(s, old_), old_, v);
    PageFrame(s, old_, v);
    PageFrame(t, old_, v);
    var i, j, k := PosOf(v).i, PosOf(v).j, PosOf(v).k;
    BotTag(s, old_, i, j);
    assert EntryOk(s, BotOf(s, old_, i, j).value, k);
  }

  // ---------------------------------------------------------------- freeing page-table pages

  ghost predicate NoLeaf(s: Mem, root: nat, i: nat, j: nat, k: nat) {
    i < ENTRIES && j < ENTRIES && k < ENTRIES ==> Leaf(s, root, i, j, k).None?
  }

  ghost predicate NoLeaves(s: Mem, root: nat) {
    forall i: nat, j: nat, k: nat :: NoLeaf(s, root, i, j, k)
  }

  /** q lies in the subtree of p. */
  predicate BelowEq(p: Pos, q: Pos) {
    match p
    case Root => true
    case Mid(i) => !q.Root? && q.i == i
    case Bot(i, j) => (q.Bot? || q.Page?) && q.i == i && q.j == j
    case Page(_, _, _) => q == p
  }

  /** q lies in the subtree of one of the first n children of p. */
  predicate BelowFirst(p: Pos, q: Pos, n: nat) {
    p != q && BelowEq(p, q)
    && match p
       case Root => !q.Root? && q.i < n
       case Mid(_) => (q.Bot? || q.Page?) && q.j < n
       case Bot(_, _) => q.Page? && q.k < n
       case Page(_, _, _) => false
  }

  /** The entry that leads to a frame with tag t, cleared. */
  function Detached(s: Mem, t: Tag): Mem {
    if t.pos.Root? || t.parent !in s.tables || Last(t.pos) >= |s.tables[t.parent]| then s
    else s.(tables := s.tables[t.parent := s.tables[t.parent][Last(t.pos) := NoPte]])
  }

  /** Which frames remain after the subtree at t is gone, or only its first n children. */
  ghost predicate TagsWithout(tag: map<nat, Tag>, tag': map<nat, Tag>, t: Tag) {
    && (forall x :: x in tag' <==> x in tag && !(tag[x].root == t.root && BelowEq(t.pos, tag[x].pos)))
    && (forall x :: x in tag' ==> tag'[x] == tag[x])
  }

  ghost predicate TagsWithoutFirst(tag: map<nat, Tag>, tag': map<nat, Tag>, t: Tag, n: nat) {
    && (forall x :: x in tag' <==> x in tag && !(tag[x].root == t.root && BelowFirst(t.pos, tag[x].pos, n)))
    && (forall x :: x in tag' ==> tag'[x] == tag[x])
  }

  lemma TagsOneMore(tag: map<nat, Tag>, tag1: map<nat, Tag>, tag2: map<nat, Tag>, t: Tag, n: nat, parent: nat)
    requires TagsWithoutFirst(tag, tag1, t, n) && !t.pos.Page?
    requires TagsWithout(tag1, tag2, Tag(t.root, Child(t.pos, n), parent))
    ensures TagsWithoutFirst(tag, tag2, t, n + 1)
  {
  }

  /** All indices in tags are in range. */
  lemma TagBounds(s: Mem, x: nat)
    requires Inv(s) && x in s.tag
    ensures var p := s.tag[x].pos;
            && (!p.Root? ==> p.i < ENTRIES) && (p.Bot? || p.Page? ==> p.j < ENTRIES) && (p.Page? ==> p.k < ENTRIES)
  {
    assert LinkOk(s, x);
    if !s.tag[x].pos.Root? {
      assert LinkOk(s, s.tag[x].parent);
      if s.tag[x].pos.Page? { assert LinkOk(s, s.tag[s.tag[x].parent].parent); }
    }
  }

  /** Two frames are never used at the same place. */
  lemma PlaceIsUnique(s: Mem, x: nat, y: nat)
    requires Inv(s) && x in s.tag && y in s.tag && s.tag[x].root == s.tag[y].root && s.tag[x].pos == s.tag[y].pos
    requires !s.tag[x].pos.Page?
    ensures x == y
  {
    assert LinkOk(s, x) && LinkOk(s, y);
    if !s.tag[x].pos.Root? {
      assert LinkOk(s, s.tag[x].parent) && LinkOk(s, s.tag[y].parent);
      if s.tag[x].pos.Bot? {
        assert LinkOk(s, s.tag[s.tag[x].parent].parent) && LinkOk(s, s.tag[s.tag[y].parent].parent);
      }
    }
  }

  /** A table with no valid entry is taken out of its address space and freed. */
  lemma FreeTableInv(s: Mem, f: nat)
    requires Inv(s) && f in s.tag && !s.tag[f].pos.Page?
    requires f in s.tables && |s.tables[f]| == ENTRIES && forall i :: 0 <= i < ENTRIES ==> !s.tables[f][i].v
    ensures var s' := Freed(s.(tag := s.tag - {f}), f);
            && Inv(Detached(s', s.tag[f]))
            && Frames(s') == Frames(s)
  {
    var t := s.tag[f];
    var s1 := s.(tag := s.tag - {f});
    var s2 := Detached(Freed(s1, f), t);
    PushDistinct(s.freelist, f);
    assert LinkOk(s, f);
    forall x, y ensures EntryOk(s2, x, y) {
      assert EntryOk(s, x, y);
    }
    forall x ensures LinkOk(s2, x) {
      assert LinkOk(s, x);
    }
    PushFrames(s.freelist, s.tag.Keys, f);
  }

  /** Entries were only cleared. */
  ghost predicate Fewer(s: Mem, s': Mem) {
    forall x: nat, y: nat :: Entry(s', x, y).Some? ==> Entry(s', x, y) == Entry(s, x, y)
  }

  lemma FewerNoLeaves(s: Mem, s': Mem, root: nat)
    requires Fewer(s, s') && NoLeaves(s, root)
    ensures NoLeaves(s', root)
  {
    forall i: nat, j: nat, k: nat ensures NoLeaf(s', root, i, j, k) { assert NoLeaf(s, root, i, j, k); }
  }

  /** Frames still in use, other than f, were not touched. */
  ghost predicate Untouched(s: Mem, s': Mem, f: nat) {
    forall x :: x in s'.tag && x != f ==>
      && (x in s.tables ==> x in s'.tables && s'.tables[x] == s.tables[x])
      && (x in s.data ==> x in s'.data && s'.data[x] == s.data[x])
  }

  /** Address spaces other than the one being freed are the same. */
  lemma OthersUntouched(s: Mem, s': Mem, f: nat, r: nat, w: nat)
    requires Inv(s) && Untouched(s, s', f) && f in s.tag && s.tag[f].root != r
    requires forall x :: x in s.tag && s.tag[x].root == r ==> x in s'.tag
    ensures PageSame(s, s', r, w)
  {
    if IsRoot(s, r) {
      assert LinkOk(s, r);
      var i, j := PosOf(w).i, PosOf(w).j;
      assert EntryOk(s, r, i);
      if MidOf(s, r, i).Some? {
        MidTag(s, r, i);
        assert EntryOk(s, MidOf(s, r, i).value, j);
        if BotOf(s, r, i, j).Some? {
          BotTag(s, r, i, j);
          assert EntryOk(s, BotOf(s, r, i, j).value, 0);
        }
      }
      if w < MAXVPN - 2 && Trans(s, r, w).Some? { PageFrame(s, r, w); }
    }
  }

  function Level(pos: Pos): nat {
    match pos
    case Root => 3
    case Mid(_) => 2
    case Bot(_, _) => 1
    case Page(_, _, _) => 0
  }

  /** freewalk(f) has dealt with the first n entries. */
  ghost predicate Walked(s: Mem, s': Mem, f: nat, n: nat) {
    && f in s.tag && f in s.tables && |s.tables[f]| == ENTRIES
    && Inv(s') && f in s'.tag && s'.tag[f] == s.tag[f]
    && f in s'.tables && |s'.tables[f]| == ENTRIES
    && TagsWithoutFirst(s.tag, s'.tag, s.tag[f], n)
    && Frames(s') == Frames(s) && Fewer(s, s') && Untouched(s, s', f)
    && (forall y :: 0 <= y < n <= ENTRIES ==> !s'.tables[f][y].v)
    && (forall y :: n <= y < ENTRIES ==> s'.tables[f][y] == s.tables[f][y])
  }

  /** All of the subtree at f is gone, and only the entry above it still points there. */
  ghost predicate Gone(s: Mem, s': Mem, f: nat) {
    && f in s.tag
    && Inv(Detached(s', s.tag[f]))
    && TagsWithout(s.tag, s'.tag, s.tag[f])
    && Frames(s') == Frames(s) && Fewer(s, s') && Untouched(s, s', f)
  }

  /** freewalk() has freed the child of f at entry i and clears the entry. */
  lemma WalkedChild(s: Mem, t: Mem, u: Mem, f: nat, i: nat)
    requires Walked(s, t, f, i) && i < ENTRIES && !s.tag[f].pos.Page?
    requires t.tables[f][i].v && !IsLeaf(t.tables[f][i].perm) && Gone(t, u, t.tables[f][i].ppn)
    ensures f in u.tables && i < |u.tables[f]|
    ensures Walked(s, u.(tables := u.tables[f := u.tables[f][i := NoPte]]), f, i + 1)
  {
    var c := t.tables[f][i].ppn;
    assert EntryOk(t, f, i);
    var v := u.(tables := u.tables[f := u.tables[f][i := NoPte]]);
    assert Detached(u, t.tag[c]) == v;
    TagsOneMore(s.tag, t.tag, v.tag, s.tag[f], i, f);
    WalkedFewer(s, t, u, v, f, i);
  }

  lemma WalkedFewer(s: Mem, t: Mem, u: Mem, v: Mem, f: nat, i: nat)
    requires Fewer(s, t) && Fewer(t, u) && f in u.tables && i < |u.tables[f]|
    requires v == u.(tables := u.tables[f := u.tables[f][i := NoPte]])
    ensures Fewer(s, v)
  {
    forall x: nat, y: nat | Entry(v, x, y).Some? ensures Entry(v, x, y) == Entry(s, x, y) {
      assert Entry(v, x, y) == Entry(u, x, y) == Entry(t, x, y);
    }
  }

  /** Every place above a frame in use is in use too. */
  lemma Ancestor(s: Mem, x: nat, q: Pos) returns (y: nat)
    requires Inv(s) && x in s.tag && BelowEq(q, s.tag[x].pos)
    ensures y in s.tag && s.tag[y].root == s.tag[x].root && s.tag[y].pos == q
  {
    y := x;
    assert LinkOk(s, x);
    if s.tag[y].pos != q { y := s.tag[y].parent; assert LinkOk(s, y); }
    if s.tag[y].pos != q { y := s.tag[y].parent; assert LinkOk(s, y); }
    if s.tag[y].pos != q { y := s.tag[y].parent; }
  }

  /** Nothing is below an invalid entry. */
  lemma WalkedEmpty(s: Mem, t: Mem, f: nat, i: nat)
    requires Walked(s, t, f, i) && i < ENTRIES && !s.tag[f].pos.Page? && !t.tables[f][i].v
    ensures Walked(s, t, f, i + 1)
  {
    var q := Child(s.tag[f].pos, i);
    forall x | x in t.tag && t.tag[x].root == s.tag[f].root ensures !BelowEq(q, t.tag[x].pos) {
      if BelowEq(q, t.tag[x].pos) {
        var y := Ancestor(t, x, q);
        assert LinkOk(t, y);
        PlaceIsUnique(t, t.tag[y].parent, f);
      }
    }
    TagsOneMore(s.tag, t.tag, t.tag, s.tag[f], i, f);
  }

  /** A valid entry with permissions is a leaf mapping. */
  lemma LeafIsMapped(s: Mem, f: nat, i: nat)
    requires Inv(s) && f in s.tag && !s.tag[f].pos.Page? && i < ENTRIES
    requires Entry(s, f, i).Some? && IsLeaf(Entry(s, f, i).value.perm)
    ensures !NoLeaves(s, s.tag[f].root)
  {
    assert EntryOk(s, f, i);
    BotIsFound(s, f);
    TagBounds(s, f);
    var t := s.tag[f];
    assert !NoLeaf(s, t.root, t.pos.i, t.pos.j, i);
  }

  /** After the last entry, the table itself goes. */
  lemma WalkedAll(s: Mem, t: Mem, f: nat)
    requires Inv(s) && Walked(s, t, f, ENTRIES) && !s.tag[f].pos.Page?
    ensures Gone(s, Freed(t.(tag := t.tag - {f}), f), f)
  {
    var u := Freed(t.(tag := t.tag - {f}), f);
    FreeTableInv(t, f);
    forall x | x in s.tag ensures x in u.tag
      <==> !(s.tag[x].root == s.tag[f].root && BelowEq(s.tag[f].pos, s.tag[x].pos)) {
      TagBounds(s, x);
      if s.tag[x].root == s.tag[f].root && s.tag[x].pos == s.tag[f].pos { PlaceIsUnique(s, x, f); }
    }
    assert Fewer(s, u) by {
      forall x: nat, y: nat | Entry(u, x, y).Some? ensures Entry(u, x, y) == Entry(s, x, y) {
        assert Entry(u, x, y) == Entry(t, x, y);
      }
    }
  }

  /** An address space without a mapped page has no leaf. */
  lemma AllUnmapped(s: Mem, root: nat)
    requires Inv(s) && IsRoot(s, root) && forall w: nat :: w < MAXVPN ==> Trans(s, root, w).None?
    ensures NoLeaves(s, root)
  {
    forall i: nat, j: nat, k: nat ensures NoLeaf(s, root, i, j, k) {
      if i < ENTRIES && j < ENTRIES && k < ENTRIES {
        if i < ROOT_ENTRIES {
          PageAtPlace(i, j, k);
          assert Trans(s, root, PageAt(i, j, k)).None?;
        } else if MidOf(s, root, i).Some? {
          MidTag(s, root, i);
        }
      }
    }
  }

  /** All that is left of an address space that had its first n pages and nothing else. */
  lemma UnmappedAll(s: Mem, t: Mem, root: nat, n: nat)
    requires IsRoot(s, root) && UserPages(s, root, n) && n <= MAXVPN - 2
    requires Trans(s, root, MAXVPN - 2).None? && Trans(s, root, MAXVPN - 1).None?
    requires Shrinking(s, t, root, 0, n)
    ensures IsRoot(t, root) && NoLeaves(t, root)
  {
    forall w: nat | w < MAXVPN ensures Trans(t, root, w).None? {
      assert UnmapAt(s, t, root, 0, n, root, w);
      assert UserPage(s, root, n, w);
    }
    AllUnmapped(t, root);
  }

  /** The address space is gone: its frames are free, and every other one is the same. */
  ghost predicate Released(s: Mem, s': Mem, root: nat) {
    && Inv(s') && Frames(s') == Frames(s)
    && (forall x :: x in s.tag && s.tag[x].root == root ==> x in s'.freelist)
    && (forall r: nat, w: nat :: r != root ==> PageSame(s, s', r, w))
  }

  lemma ReleasedAll(s: Mem, t: Mem, u: Mem, root: nat, n: nat)
    requires Inv(s) && IsRoot(s, root) && Shrinking(s, t, root, 0, n) && IsRoot(t, root) && Gone(t, u, root)
    ensures Released(s, u, root)
  {
    assert LinkOk(t, root);
    assert Detached(u, t.tag[root]) == u;
    forall x | x in s.tag && s.tag[x].root == root ensures x in u.freelist {
      assert x in Frames(u);
    }
    forall r: nat, w: nat | r != root ensures PageSame(s, u, r, w) {
      ShrinkingKeeps(s, t, root, 0, n, r, w);
      OthersUntouched(t, u, root, r, w);
    }
  }

  // ---------------------------------------------------------------- new address spaces

  /** The root table that uvmcreate() makes of the first free frame. */
  function NewSpace(s: Mem): Mem
    requires s.freelist != []
  {
    var f := s.freelist[0];
    s.(freelist := s.freelist[1..], tables := s.tables[f := seq(ENTRIES, _ => NoPte)],
       tag := s.tag[f := Tag(f, Root, f)])
  }

  /** It is a new, empty address space. */
  lemma NewSpaceIsEmpty(s: Mem)
    requires Inv(s) && s.freelist != []
    ensures var s', root := NewSpace(s), s.freelist[0];
            && Inv(s') && IsRoot(s', root) && !IsRoot(s, root) && NoLeaves(s', root)
            && Frames(s') == Frames(s)
            && forall r: nat, w: nat :: PageSame(s, s', r, w)
  {
    var s', root := NewSpace(s), s.freelist[0];
    PopDistinct(s.freelist);
    forall x, y ensures EntryOk(s', x, y) { assert EntryOk(s, x, y); }
    forall x ensures LinkOk(s', x) { assert LinkOk(s, x); }
    forall i: nat, j: nat, k: nat ensures NoLeaf(s', root, i, j, k) {}
    PopFrames(s.freelist, s.tag.Keys);
    forall r: nat, w: nat ensures PageSame(s, s', r, w) { NewSpaceKeeps(s, r, w); }
  }

  lemma NewSpaceKeeps(s: Mem, r: nat, w: nat)
    requires Inv(s) && s.freelist != []
    ensures PageSame(s, NewSpace(s), r, w)
  {
    if IsRoot(s, r) {
      var i, j := PosOf(w).i, PosOf(w).j;
      if MidOf(s, r, i).Some? {
        MidTag(s, r, i);
        if BotOf(s, r, i, j).Some? { BotTag(s, r, i, j); }
      }
    }
  }

  // ---------------------------------------------------------------- the first state

  /** Frames lo .. hi - 1, each put in front of the list. */
  function FreeRange(lo: nat, hi: nat): (l: seq<nat>)
    ensures lo <= hi ==> |l| == hi - lo
  {
    if hi <= lo then [] else [hi - 1] + FreeRange(lo, hi - 1)
  }

  lemma {:induction false} FreeRangeHas(lo: nat, hi: nat, f: nat)
    ensures f in FreeRange(lo, hi) <==> lo <= f < hi
  {
    if lo < hi { FreeRangeHas(lo, hi - 1, f); }
  }

  lemma {:induction false} FreeRangeDistinct(lo: nat, hi: nat)
    ensures Distinct(FreeRange(lo, hi))
  {
    if lo < hi {
      FreeRangeDistinct(lo, hi - 1);
      FreeRangeHas(lo, hi - 1, hi - 1);
      PushDistinct(FreeRange(lo, hi - 1), hi - 1);
    }
  }

  /** All frames are free, and there is no address space. */
  function FirstMem(lo: nat, hi: nat): Mem {
    Mem(FreeRange(lo, hi), map[], map[], map[])
  }

  lemma FirstMemInv(lo: nat, hi: nat)
    ensures Inv(FirstMem(lo, hi))
  {
    FreeRangeDistinct(lo, hi);
  }

  /** A new address space on a machine with one frame: uvmdealloc(pagetable, 1, 0) panics. */
  lemma DeallocTooFar()
    ensures var s := NewSpace(FirstMem(7, 8));
            Inv(s) && IsRoot(s, 7) && UserPages(s, 7, 0) && !RangeMapped(s, 7, PageUp(0), Excess(1, 0))
  {
    var s0 := FirstMem(7, 8);
    assert s0.freelist[0] == 7;
    FirstMemInv(7, 8);
    NewSpaceIsEmpty(s0);
    var s := NewSpace(s0);
    forall w: nat ensures UserPage(s, 7, 0, w) { if w < MAXVPN { EmptyPage(s, 7, w); } }
    DeallocIff(s, 7, 0, 1, 0);
  }

  lemma EmptyPage(s: Mem, root: nat, w: nat)
    requires NoLeaves(s, root) && w < MAXVPN
    ensures Trans(s, root, w).None?
  {
    var p := PosOf(w);
    assert NoLeaf(s, root, p.i, p.j, p.k);
  }
}
