/** Directory entries and link counts: the state that sys_link(), sys_unlink(), create() and iput() change
    (kernel/sysfile.c:100-258, kernel/fs.c:307-331, 490-538). */
module Links {
  const ROOTINO := 1
  const DIRSIZ := 14

  datatype Kind = Free | Dir | File        // File stands for devices, too

  /** inum 0 marks an empty entry. */
  datatype Dirent = Dirent(inum: nat, name: string)

  datatype Node = Node(kind: Kind, nlink: nat, ents: seq<Dirent>)

  /** pend counts, for each inode, the calls of sys_link() that have raised nlink and not yet added their
      entry.  home is, for a directory, the entry that names it. */
  datatype Tree = Tree(nodes: seq<Node>, pend: seq<nat>, home: map<nat, (nat, nat)>)

  /** Names count up to DIRSIZ characters. */
  function Key(name: string): string {
    if |name| > DIRSIZ then name[..DIRSIZ] else name
  }

  predicate Linked(s: Tree, d: nat) {
    d < |s.nodes| && s.nodes[d].kind.Dir? && s.nodes[d].nlink > 0
  }

  /** Entry k of directory d. */
  predicate Has(s: Tree, d: nat, k: nat) {
    d < |s.nodes| && k < |s.nodes[d].ents| && s.nodes[d].ents[k].inum != 0
  }

  function Target(s: Tree, d: nat, k: nat): nat {
    if Has(s, d, k) then s.nodes[d].ents[k].inum else 0
  }

  /** An entry that link counts count: in a linked directory, and not ".". */
  predicate Counted(s: Tree, d: nat, k: nat) {
    Linked(s, d) && Has(s, d, k) && s.nodes[d].ents[k].name != "."
  }

  /** The counted entries that name inode i. */
  ghost function Refs(s: Tree, i: nat): set<(nat, nat)> {
    set d, k | 0 <= d < |s.nodes| && 0 <= k < |s.nodes[d].ents| && Counted(s, d, k)
      && s.nodes[d].ents[k].inum == i :: (d, k)
  }

  lemma InRefs(s: Tree, i: nat, d: nat, k: nat)
    ensures (d, k) in Refs(s, i) <==> Counted(s, d, k) && Target(s, d, k) == i
  {
  }

  // ---------------------------------------------------------------- invariant

  /** nlink is the number of counted entries that name the inode, and of links under way. */
  ghost predicate CountOk(s: Tree, i: nat) {
    i < |s.nodes| && |s.pend| == |s.nodes| ==>
      && s.nodes[i].nlink == |Refs(s, i)| + s.pend[i]
      && (s.nodes[i].kind.Free? ==> s.nodes[i] == Node(Free, 0, []))
      && (s.nodes[i].kind.Dir? ==> s.pend[i] == 0)
  }

  /** Entries of a linked directory: "." and ".." first, then others; a directory has one home. */
  ghost predicate EntryOk(s: Tree, d: nat, k: nat) {
    Linked(s, d) && Has(s, d, k) ==>
      var e := s.nodes[d].ents[k];
      && e.inum < |s.nodes|
      && (k == 0 ==> e == Dirent(d, ".")) && (k == 1 ==> e.name == "..")
      && (k >= 2 ==> e.name != "." && e.name != "..")
      && (k >= 2 && s.nodes[e.inum].kind.Dir? ==>
            Linked(s, e.inum) && e.inum != ROOTINO && e.inum != d && e.inum in s.home && s.home[e.inum] == (d, k)
              && Target(s, e.inum, 1) == d)
  }

  ghost predicate DirOk(s: Tree, d: nat) {
    d < |s.nodes| && s.nodes[d].kind.Dir? ==>
      && (s.nodes[d].nlink == 0 ==> forall k :: Dots(s, d, k))
      && (s.nodes[d].nlink > 0 ==>
            && Has(s, d, 0) && Has(s, d, 1)
            && if d == ROOTINO then Target(s, d, 1) == d
               else
                 && d in s.home && s.home[d].0 == Target(s, d, 1) && s.home[d].1 >= 2
                 && Linked(s, s.home[d].0) && Target(s, s.home[d].0, s.home[d].1) == d)
  }

  /** A removed directory has nothing but "." and "..". */
  ghost predicate Dots(s: Tree, d: nat, k: nat) {
    Has(s, d, k) ==>
      && k < 2 && s.nodes[d].ents[k].name == (if k == 0 then "." else "..")
      && s.nodes[d].ents[k].inum < |s.nodes|
  }

  /** Nothing after "." and "..". */
  ghost predicate Bare(s: Tree, d: nat, k: nat) {
    Has(s, d, k) ==> k < 2
  }

  /** No two entries of a directory have the same name. */
  ghost predicate NamesDiffer(s: Tree, d: nat, j: nat, k: nat) {
    Linked(s, d) && Has(s, d, j) && Has(s, d, k) && j != k ==> s.nodes[d].ents[j].name != s.nodes[d].ents[k].name
  }

  ghost predicate Inv(s: Tree) {
    && |s.pend| == |s.nodes| && Linked(s, ROOTINO)
    && (forall i :: CountOk(s, i)) && (forall d, k :: EntryOk(s, d, k)) && (forall d :: DirOk(s, d))
    && (forall d, j, k :: NamesDiffer(s, d, j, k))
  }

  lemma Known(s: Tree, d: nat, k: nat)
    requires Inv(s)
    ensures CountOk(s, d) && EntryOk(s, d, k) && DirOk(s, d)
  {
  }

  /** What mkfs makes: a root directory that is its own parent, and free inodes. */
  function FirstTree(n: nat): Tree
    requires n > ROOTINO
  {
    var root := Node(Dir, 1, [Dirent(ROOTINO, "."), Dirent(ROOTINO, "..")]);
    Tree(seq(n, i => if i == ROOTINO then root else Node(Free, 0, [])),
         seq(n, _ => 0), map[])
  }

  lemma FirstTreeInv(n: nat)
    requires n > ROOTINO
    ensures Inv(FirstTree(n))
  {
    var s := FirstTree(n);
    forall i ensures CountOk(s, i) {
      forall d: nat, k: nat ensures (d, k) in Refs(s, i) <==> i == ROOTINO && (d, k) == (ROOTINO, 1) {
        InRefs(s, i, d, k);
      }
      assert Refs(s, i) == if i == ROOTINO then {(ROOTINO, 1)} else {};
    }
    forall d, k ensures EntryOk(s, d, k) {}
    forall d ensures DirOk(s, d) {}
    forall d, j, k ensures NamesDiffer(s, d, j, k) {}
  }

  /** An inode that a counted entry names has a link: "unlink: nlink < 1" is not reached. */
  lemma NamedHasLink(s: Tree, d: nat, k: nat)
    requires Inv(s) && Counted(s, d, k)
    ensures Target(s, d, k) < |s.nodes| && s.nodes[Target(s, d, k)].nlink >= 1 && !s.nodes[Target(s, d, k)].kind.Free?
  {
    var i := Target(s, d, k);
    Known(s, d, k);
    Known(s, i, 0);
    InRefs(s, i, d, k);
    assert Refs(s, i) != {};
  }

  // ---------------------------------------------------------------- writing an entry

  function SetEnts(s: Tree, d: nat, ents: seq<Dirent>): Tree
    requires d < |s.nodes|
  {
    s.(nodes := s.nodes[d := s.nodes[d].(ents := ents)])
  }

  /** Entry k of directory d, an empty one or a new one at the end, is written. */
  function Written(s: Tree, d: nat, k: nat, e: Dirent): Tree
    requires d < |s.nodes| && k <= |s.nodes[d].ents|
  {
    var ents := s.nodes[d].ents;
    SetEnts(s, d, if k < |ents| then ents[k := e] else ents + [e])
  }

  /** Entries of other places are as before. */
  lemma WrittenAt(s: Tree, d: nat, k: nat, e: Dirent, x: nat, y: nat)
    requires d < |s.nodes| && k <= |s.nodes[d].ents|
    ensures var s' := Written(s, d, k, e);
            && (Linked(s', x) <==> Linked(s, x))
            && (Has(s', x, y) <==> if (x, y) == (d, k) then e.inum != 0 else Has(s, x, y))
            && (Has(s', x, y) ==> s'.nodes[x].ents[y] == if (x, y) == (d, k) then e else s.nodes[x].ents[y])
  {
  }

  lemma WrittenRefs(s: Tree, d: nat, k: nat, e: Dirent, i: nat)
    requires d < |s.nodes| && k <= |s.nodes[d].ents| && i != 0
    ensures Refs(Written(s, d, k, e), i)
         == Refs(s, i) - {(d, k)} + (if Linked(s, d) && e.inum == i && e.name != "." then {(d, k)} else {})
  {
    var s' := Written(s, d, k, e);
    forall x: nat, y: nat ensures (x, y) in Refs(s', i)
        <==> (x, y) in Refs(s, i) - {(d, k)} + (if Linked(s, d) && e.inum == i && e.name != "." then {(d, k)} else {}) {
      WrittenAt(s, d, k, e, x, y);
      InRefs(s', i, x, y);
      InRefs(s, i, x, y);
    }
  }

  /** Adding an entry for i makes its count right again, after nlink was raised for it, if and only if the
      directory is a linked one: nothing keeps create() and link() from a directory that was removed. */
  lemma LinkedIffCounted(s: Tree, d: nat, k: nat, name: string, i: nat)
    requires Inv(s) && d < |s.nodes| && s.nodes[d].kind.Dir? && k <= |s.nodes[d].ents| && !Has(s, d, k)
    requires 0 < i < |s.nodes| && s.pend[i] > 0 && (Linked(s, d) ==> name != ".")
    ensures CountOk(Written(s, d, k, Dirent(i, name)).(pend := s.pend[i := s.pend[i] - 1]), i) <==> Linked(s, d)
  {
    LinkDoneRefs(s, d, k, name, i);
    PlusOne(Refs(s, i), (d, k));
    KnownCount(s, i);
  }

  lemma KnownCount(s: Tree, i: nat)
    requires Inv(s) && i < |s.nodes|
    ensures |s.pend| == |s.nodes| && CountOk(s, i)
  {
  }

  lemma LinkDoneRefs(s: Tree, d: nat, k: nat, name: string, i: nat)
    requires d < |s.nodes| && k <= |s.nodes[d].ents| && !Has(s, d, k) && 0 < i < |s.pend| && s.pend[i] > 0
    requires (Linked(s, d) ==> name != ".")
    ensures (d, k) !in Refs(s, i)
    ensures Refs(Written(s, d, k, Dirent(i, name)).(pend := s.pend[i := s.pend[i] - 1]), i)
         == if Linked(s, d) then Refs(s, i) + {(d, k)} else Refs(s, i)
  {
    WrittenRefs(s, d, k, Dirent(i, name), i);
    SamePend(Written(s, d, k, Dirent(i, name)), s.pend[i := s.pend[i] - 1], i, 0);
    InRefs(s, i, d, k);
  }

  lemma PlusOne<T>(a: set<T>, x: T)
    requires x !in a
    ensures |a + {x}| == |a| + 1 && a + {} == a
  {
  }

  // ---------------------------------------------------------------- the steps

  ghost predicate Fresh(s: Tree, d: nat, name: string) {
    forall k :: NotNamed(s, d, name, k)
  }

  /** A new entry would make the directory grow. */
  ghost predicate Full(s: Tree, d: nat) {
    d < |s.nodes| && forall k: nat :: k < |s.nodes[d].ents| ==> Has(s, d, k)
  }

  ghost predicate NotNamed(s: Tree, d: nat, name: string, k: nat) {
    Has(s, d, k) ==> s.nodes[d].ents[k].name != name
  }

  /** dirlink() can put name into entry k of a directory. */
  ghost predicate CanPlace(s: Tree, d: nat, k: nat, name: string) {
    Inv(s) && d < |s.nodes| && s.nodes[d].kind.Dir? && k <= |s.nodes[d].ents| && !Has(s, d, k) && Fresh(s, d, name)
  }

  ghost predicate CanAdd(s: Tree, d: nat, k: nat, name: string) {
    Linked(s, d) && CanPlace(s, d, k, name)
  }

  lemma AddedPlace(s: Tree, d: nat, k: nat, name: string)
    requires CanAdd(s, d, k, name)
    ensures k >= 2 && name != "." && name != ".."
  {
    Known(s, d, 0);
    Known(s, d, 1);
    assert NotNamed(s, d, name, 0) && NotNamed(s, d, name, 1);
  }

  function WithLink(s: Tree, i: nat, n: nat): Tree
    requires i < |s.nodes|
  {
    s.(nodes := s.nodes[i := s.nodes[i].(nlink := n)])
  }

  /** A change of nlink that leaves the set of linked directories alone. */
  lemma WithLinkSame(s: Tree, i: nat, n: nat, x: nat)
    requires i < |s.nodes| && (s.nodes[i].kind.Dir? ==> (n > 0 <==> s.nodes[i].nlink > 0))
    ensures Refs(WithLink(s, i, n), x) == Refs(s, x)
  {
    var s' := WithLink(s, i, n);
    forall d: nat, k: nat ensures (d, k) in Refs(s', x) <==> (d, k) in Refs(s, x) {
      InRefs(s', x, d, k);
      InRefs(s, x, d, k);
    }
  }

  /** ip->nlink++ in sys_link(), and ip->nlink-- at its label bad. */
  function Relink(s: Tree, i: nat, n: nat, p: nat): Tree
    requires i < |s.nodes| == |s.pend|
  {
    WithLink(s, i, n).(pend := s.pend[i := p])
  }

  lemma RelinkInv(s: Tree, i: nat, n: nat, p: nat)
    requires Inv(s) && i < |s.nodes| && s.nodes[i].kind.File? && n - s.nodes[i].nlink == p - s.pend[i]
    ensures Inv(Relink(s, i, n, p))
  {
    var s' := Relink(s, i, n, p);
    forall x ensures CountOk(s', x) { RelinkCount(s, i, n, p, x); }
    forall d, k ensures EntryOk(s', d, k) { Known(s, d, k); }
    forall d ensures DirOk(s', d) { SameDir(s, s', d); }
    forall d, j, k ensures NamesDiffer(s', d, j, k) { assert NamesDiffer(s, d, j, k); }
  }

  lemma RelinkCount(s: Tree, i: nat, n: nat, p: nat, x: nat)
    requires Inv(s) && i < |s.nodes| && s.nodes[i].kind.File? && n - s.nodes[i].nlink == p - s.pend[i]
    ensures CountOk(Relink(s, i, n, p), x)
  {
    Known(s, x, 0);
    WithLinkSame(s, i, n, x);
    SamePend(WithLink(s, i, n), s.pend[i := p], x, 0);
  }

  /** Calls under way do not matter for entries and directories. */
  lemma SamePend(s: Tree, pend: seq<nat>, d: nat, k: nat)
    ensures var s' := s.(pend := pend);
            && Refs(s', d) == Refs(s, d) && (EntryOk(s, d, k) ==> EntryOk(s', d, k)) && (DirOk(s, d) ==> DirOk(s', d))
  {
    var s' := s.(pend := pend);
    if d < |s.nodes| && s.nodes[d].kind.Dir? && s.nodes[d].nlink == 0 && DirOk(s, d) {
      forall y ensures Dots(s', d, y) { assert Dots(s, d, y); }
    }
  }

  /** A directory whose entries, and those of its home, are as before. */
  lemma SameDir(s: Tree, s': Tree, d: nat)
    requires Inv(s) && |s'.nodes| == |s.nodes| && s'.home == s.home
    requires forall x :: 0 <= x < |s.nodes| ==>
               s'.nodes[x].kind == s.nodes[x].kind && s'.nodes[x].ents == s.nodes[x].ents
    requires forall x :: 0 <= x < |s.nodes| && s.nodes[x].kind.Dir? ==> s'.nodes[x].nlink == s.nodes[x].nlink
    ensures DirOk(s', d)
  {
    Known(s, d, 0);
    if d < |s.nodes| && s.nodes[d].kind.Dir? && s.nodes[d].nlink == 0 {
      forall k ensures Dots(s', d, k) { assert Dots(s, d, k); }
    }
  }

  /** dirlink() in sys_link() */
  function LinkDone(s: Tree, d: nat, k: nat, name: string, i: nat): Tree
    requires d < |s.nodes| && k <= |s.nodes[d].ents| && i < |s.pend| && s.pend[i] > 0
  {
    Written(s, d, k, Dirent(i, name)).(pend := s.pend[i := s.pend[i] - 1])
  }

  lemma LinkDoneInv(s: Tree, d: nat, k: nat, name: string, i: nat)
    requires CanAdd(s, d, k, name) && 0 < i < |s.nodes| && s.nodes[i].kind.File? && s.pend[i] > 0
    ensures Inv(LinkDone(s, d, k, name, i))
  {
    AddedPlace(s, d, k, name);
    var e, s' := Dirent(i, name), LinkDone(s, d, k, name, i);
    forall x ensures CountOk(s', x) {
      Known(s, x, 0);
      if x == i { LinkedIffCounted(s, d, k, name, i); } else { LinkDoneOther(s, d, k, name, i, x); }
    }
    forall x, y ensures EntryOk(s', x, y) {
      AddKeepsEntry(s, d, k, e, x, y);
      SamePend(Written(s, d, k, e), s'.pend, x, y);
    }
    forall x ensures DirOk(s', x) { AddKeepsDir(s, d, k, e, x); SamePend(Written(s, d, k, e), s'.pend, x, 0); }
    forall x, y, z ensures NamesDiffer(s', x, y, z) { AddKeepsNames(s, d, k, e, x, y, z); }
  }

  /** sys_link() keeps the invariant if and only if the directory is a linked one. */
  lemma LinkDoneIff(s: Tree, d: nat, k: nat, name: string, i: nat)
    requires CanPlace(s, d, k, name) && 0 < i < |s.nodes| && s.nodes[i].kind.File? && s.pend[i] > 0
    ensures Inv(LinkDone(s, d, k, name, i)) <==> Linked(s, d)
  {
    if Linked(s, d) {
      LinkDoneInv(s, d, k, name, i);
    } else {
      LinkedIffCounted(s, d, k, name, i);
    }
  }

  /** The root directory, the removed directory 2, and file 3 with a link under way. */
  function RemovedDirectory(): Tree {
    Tree([Node(Free, 0, []), Node(Dir, 1, [Dirent(ROOTINO, "."), Dirent(ROOTINO, "..")]),
          Node(Dir, 0, [Dirent(2, "."), Dirent(ROOTINO, "..")]), Node(File, 1, [])], [0, 0, 0, 1], map[])
  }

  /** A link made there leaves file 3 with nlink 1 and no entry in any linked directory. */
  lemma LinkInRemoved()
    ensures Inv(RemovedDirectory()) && CanPlace(RemovedDirectory(), 2, 2, "f")
    ensures !CountOk(LinkDone(RemovedDirectory(), 2, 2, "f", 3), 3)
  {
    var s := RemovedDirectory();
    forall i ensures CountOk(s, i) {
      forall d: nat, k: nat ensures (d, k) in Refs(s, i) <==> i == ROOTINO && (d, k) == (ROOTINO, 1) {
        InRefs(s, i, d, k);
      }
      assert Refs(s, i) == if i == ROOTINO then {(ROOTINO, 1)} else {};
    }
    forall d, k ensures EntryOk(s, d, k) {}
    forall d ensures DirOk(s, d) { forall k ensures d == 2 ==> Dots(s, d, k) {} }
    forall d, j, k ensures NamesDiffer(s, d, j, k) {}
    forall k ensures NotNamed(s, 2, "f", k) {}
    LinkDoneIff(s, 2, 2, "f", 3);
    LinkedIffCounted(s, 2, 2, "f", 3);
  }

  lemma LinkDoneOther(s: Tree, d: nat, k: nat, name: string, i: nat, x: nat)
    requires CanAdd(s, d, k, name) && 0 < i < |s.nodes| && s.pend[i] > 0 && x != i
    ensures CountOk(LinkDone(s, d, k, name, i), x)
  {
    Known(s, x, 0);
    var e := Dirent(i, name);
    var t := Written(s, d, k, e);
    forall a: nat, b: nat ensures (a, b) in Refs(LinkDone(s, d, k, name, i), x) <==> (a, b) in Refs(s, x) {
      WrittenAt(s, d, k, e, a, b);
      InRefs(LinkDone(s, d, k, name, i), x, a, b);
      InRefs(s, x, a, b);
    }
    assert Refs(LinkDone(s, d, k, name, i), x) == Refs(s, x);
  }

  /** A new entry for a file, or the empty entry, leaves the shape of directories alone. */
  lemma AddKeepsEntry(s: Tree, d: nat, k: nat, e: Dirent, x: nat, y: nat)
    requires Inv(s) && Linked(s, d) && 2 <= k <= |s.nodes[d].ents| && !Has(s, d, k) && e.inum < |s.nodes|
    requires e.inum != 0 ==> s.nodes[e.inum].kind.File? && e.name != "." && e.name != ".."
    ensures EntryOk(Written(s, d, k, e), x, y)
  {
    var s' := Written(s, d, k, e);
    WrittenAt(s, d, k, e, x, y);
    Known(s, x, y);
    if Linked(s', x) && Has(s', x, y) && (x, y) != (d, k) {
      var i := s.nodes[x].ents[y].inum;
      WrittenAt(s, d, k, e, i, 1);
    }
  }

  lemma AddKeepsDir(s: Tree, d: nat, k: nat, e: Dirent, x: nat)
    requires Inv(s) && Linked(s, d) && 2 <= k <= |s.nodes[d].ents| && !Has(s, d, k)
    ensures DirOk(Written(s, d, k, e), x)
  {
    var s' := Written(s, d, k, e);
    Known(s, x, 0);
    WrittenAt(s, d, k, e, x, 0);
    WrittenAt(s, d, k, e, x, 1);
    if x < |s.nodes| && s.nodes[x].kind.Dir? {
      if s.nodes[x].nlink == 0 {
        forall y ensures Dots(s', x, y) { assert Dots(s, x, y); WrittenAt(s, d, k, e, x, y); }
      } else if x != ROOTINO {
        WrittenAt(s, d, k, e, s.home[x].0, s.home[x].1);
      }
    }
  }

  lemma AddKeepsNames(s: Tree, d: nat, k: nat, e: Dirent, x: nat, y: nat, z: nat)
    requires Inv(s) && Linked(s, d) && k <= |s.nodes[d].ents| && (e.inum != 0 ==> Fresh(s, d, e.name))
    ensures NamesDiffer(Written(s, d, k, e), x, y, z)
  {
    WrittenAt(s, d, k, e, x, y);
    WrittenAt(s, d, k, e, x, z);
    assert NamesDiffer(s, x, y, z);
    if e.inum != 0 { assert NotNamed(s, d, e.name, y) && NotNamed(s, d, e.name, z); }
  }

  // ---------------------------------------------------------------- sys_unlink()

  const NoEntry := Dirent(0, "")

  /** The entry of a file is cleared, and ip->nlink--. */
  function UnlinkFile(s: Tree, d: nat, k: nat): Tree
    requires d < |s.nodes| && k < |s.nodes[d].ents| && Target(s, d, k) < |s.nodes| && s.nodes[Target(s, d, k)].nlink > 0
  {
    var i := Target(s, d, k);
    WithLink(Written(s, d, k, NoEntry), i, s.nodes[i].nlink - 1)
  }

  /** Entry k >= 2 of a linked directory, of a file. */
  ghost predicate FileEntry(s: Tree, d: nat, k: nat) {
    Inv(s) && Linked(s, d) && k >= 2 && Has(s, d, k) && Target(s, d, k) < |s.nodes|
      && s.nodes[Target(s, d, k)].kind.File?
  }

  lemma UnlinkFileInv(s: Tree, d: nat, k: nat)
    requires FileEntry(s, d, k)
    ensures s.nodes[Target(s, d, k)].nlink > 0 && Inv(UnlinkFile(s, d, k))
  {
    var i := Target(s, d, k);
    Known(s, d, k);
    NamedHasLink(s, d, k);
    var t := Written(s, d, k, NoEntry);
    var s' := UnlinkFile(s, d, k);
    forall x ensures CountOk(s', x) { UnlinkFileCount(s, d, k, x); }
    forall x, y ensures EntryOk(s', x, y) { WrittenAt(s, d, k, NoEntry, x, y); UnlinkFileEntry(s, d, k, x, y); }
    forall x ensures DirOk(s', x) { UnlinkFileDir(s, d, k, x); }
    forall x, y, z ensures NamesDiffer(s', x, y, z) {
      AddKeepsNames(s, d, k, NoEntry, x, y, z);
      assert NamesDiffer(t, x, y, z);
    }
  }

  lemma UnlinkFileRefs(s: Tree, d: nat, k: nat, x: nat)
    requires FileEntry(s, d, k) && s.nodes[Target(s, d, k)].nlink > 0
    ensures Refs(UnlinkFile(s, d, k), x) == Refs(s, x) - {(d, k)}
    ensures (d, k) in Refs(s, x) <==> x == Target(s, d, k)
  {
    var i := Target(s, d, k);
    Known(s, d, k);
    WithLinkSame(Written(s, d, k, NoEntry), i, s.nodes[i].nlink - 1, x);
    ClearedRefs(s, d, k, x);
    InRefs(s, x, d, k);
  }

  lemma UnlinkFileCount(s: Tree, d: nat, k: nat, x: nat)
    requires FileEntry(s, d, k) && s.nodes[Target(s, d, k)].nlink > 0
    ensures CountOk(UnlinkFile(s, d, k), x)
  {
    UnlinkFileRefs(s, d, k, x);
    LessOne(Refs(s, x), (d, k));
    Known(s, d, k);
    Known(s, x, 0);
  }

  lemma ClearedRefs(s: Tree, d: nat, k: nat, x: nat)
    requires d < |s.nodes| && k < |s.nodes[d].ents|
    ensures Refs(Written(s, d, k, NoEntry), x) == Refs(s, x) - {(d, k)}
  {
    var t := Written(s, d, k, NoEntry);
    forall a: nat, b: nat ensures (a, b) in Refs(t, x) <==> (a, b) in Refs(s, x) - {(d, k)} {
      WrittenAt(s, d, k, NoEntry, a, b);
      InRefs(t, x, a, b);
      InRefs(s, x, a, b);
    }
  }

  lemma LessOne<T>(a: set<T>, x: T)
    ensures |a - {x}| == if x in a then |a| - 1 else |a|
  {
    if x in a { assert a == (a - {x}) + {x}; } else { assert a - {x} == a; }
  }

  lemma UnlinkFileEntry(s: Tree, d: nat, k: nat, x: nat, y: nat)
    requires FileEntry(s, d, k) && s.nodes[Target(s, d, k)].nlink > 0
    ensures EntryOk(UnlinkFile(s, d, k), x, y)
  {
    var s' := UnlinkFile(s, d, k);
    WrittenAt(s, d, k, NoEntry, x, y);
    Known(s, x, y);
    if Linked(s, x) && Has(s, x, y) && (x, y) != (d, k) {
      WrittenAt(s, d, k, NoEntry, s.nodes[x].ents[y].inum, 1);
    }
  }

  lemma UnlinkFileDir(s: Tree, d: nat, k: nat, x: nat)
    requires FileEntry(s, d, k) && s.nodes[Target(s, d, k)].nlink > 0
    ensures DirOk(UnlinkFile(s, d, k), x)
  {
    var s' := UnlinkFile(s, d, k);
    Known(s, x, 0);
    WrittenAt(s, d, k, NoEntry, x, 0);
    WrittenAt(s, d, k, NoEntry, x, 1);
    if x < |s.nodes| && s.nodes[x].kind.Dir? {
      if s.nodes[x].nlink == 0 {
        forall y ensures Dots(s', x, y) { assert Dots(s, x, y); WrittenAt(s, d, k, NoEntry, x, y); }
      } else if x != ROOTINO {
        WrittenAt(s, d, k, NoEntry, s.home[x].0, s.home[x].1);
      }
    }
  }

  /** An empty directory: entry k of d, with nothing but "." and ".." in it. */
  ghost predicate DirEntry(s: Tree, d: nat, k: nat) {
    && Inv(s) && Linked(s, d) && k >= 2 && Has(s, d, k) && Target(s, d, k) < |s.nodes|
         && s.nodes[Target(s, d, k)].kind.Dir?
    && forall y :: Bare(s, Target(s, d, k), y)
  }

  /** An empty directory has one link, and its parent has at least two. */
  lemma EmptyDirLinks(s: Tree, d: nat, k: nat)
    requires DirEntry(s, d, k)
    ensures var i := Target(s, d, k);
            i != d && i != ROOTINO && Linked(s, i) && Refs(s, i) == {(d, k)} && s.nodes[i].nlink == 1
              && s.nodes[d].nlink >= 2
  {
    var i := Target(s, d, k);
    Known(s, d, k);
    Known(s, i, 1);
    forall x: nat, y: nat ensures (x, y) in Refs(s, i) <==> (x, y) == (d, k) { OnlyHome(s, d, k, x, y); }
    assert Refs(s, i) == {(d, k)};
    InRefs(s, d, i, 1);
    UpLink(s, d);
    var up := if d == ROOTINO then (d, 1) else s.home[d];
    TwoMembers(Refs(s, d), (i, 1), up);
    Known(s, d, 0);
  }

  lemma TwoMembers<T>(a: set<T>, x: T, y: T)
    requires x in a && y in a && x != y
    ensures |a| >= 2
  {
    assert a == (a - {x, y}) + {x, y};
  }

  /** The entry by which a linked directory is reached. */
  lemma UpLink(s: Tree, d: nat)
    requires Inv(s) && Linked(s, d)
    ensures if d == ROOTINO then (d, 1) in Refs(s, d) else d in s.home && s.home[d] in Refs(s, d) && s.home[d].1 >= 2
  {
    Known(s, d, 1);
    if d == ROOTINO {
      InRefs(s, d, d, 1);
    } else {
      var (p, k) := s.home[d];
      Known(s, p, k);
      InRefs(s, d, p, k);
    }
  }

  lemma KnownBare(s: Tree, d: nat, k: nat, y: nat)
    requires DirEntry(s, d, k)
    ensures Bare(s, Target(s, d, k), y)
  {
  }

  lemma OnlyHome(s: Tree, d: nat, k: nat, x: nat, y: nat)
    requires DirEntry(s, d, k)
    ensures (x, y) in Refs(s, Target(s, d, k)) <==> (x, y) == (d, k)
  {
    var i := Target(s, d, k);
    Known(s, d, k);
    Known(s, x, y);
    InRefs(s, i, x, y);
    if (x, y) in Refs(s, i) && y == 1 {
      Known(s, x, 1);
      if x != ROOTINO { KnownBare(s, d, k, s.home[x].1); }
    }
  }

  /** The entry is cleared, dp->nlink-- for "..", ip->nlink--. */
  function UnlinkDir(s: Tree, d: nat, k: nat): Tree
    requires d < |s.nodes| && k < |s.nodes[d].ents| && Target(s, d, k) < |s.nodes| && Target(s, d, k) != d
    requires s.nodes[d].nlink > 0 && s.nodes[Target(s, d, k)].nlink > 0
  {
    var i := Target(s, d, k);
    var t := WithLink(Written(s, d, k, NoEntry), d, s.nodes[d].nlink - 1);
    WithLink(t, i, s.nodes[i].nlink - 1).(home := s.home - {i})
  }

  /** What is where after UnlinkDir. */
  lemma UnlinkDirAt(s: Tree, d: nat, k: nat, x: nat, y: nat)
    requires DirEntry(s, d, k) && Target(s, d, k) != d && Linked(s, Target(s, d, k))
    requires s.nodes[Target(s, d, k)].nlink == 1 && s.nodes[d].nlink >= 2
    ensures var s' := UnlinkDir(s, d, k);
            && (Linked(s', x) <==> Linked(s, x) && x != Target(s, d, k))
            && (Has(s', x, y) <==> Has(s, x, y) && (x, y) != (d, k))
            && (Has(s', x, y) ==> s'.nodes[x].ents[y] == s.nodes[x].ents[y])
  {
    WrittenAt(s, d, k, NoEntry, x, y);
  }

  /** The counted entry that goes for inode x. */
  function Removed(s: Tree, d: nat, k: nat, x: nat): (nat, nat) {
    if x == Target(s, d, k) then (d, k) else (Target(s, d, k), 1)
  }

  lemma UnlinkDirRef(s: Tree, d: nat, k: nat, x: nat, a: nat, b: nat)
    requires DirEntry(s, d, k) && Target(s, d, k) != d && Linked(s, Target(s, d, k))
    requires s.nodes[Target(s, d, k)].nlink == 1 && s.nodes[d].nlink >= 2
    requires Refs(s, Target(s, d, k)) == {(d, k)}
    ensures (a, b) in Refs(UnlinkDir(s, d, k), x) <==> (a, b) in Refs(s, x) && (a, b) != Removed(s, d, k, x)
  {
    var i := Target(s, d, k);
    Known(s, d, k);
    Known(s, i, 1);
    UnlinkDirAt(s, d, k, a, b);
    InRefs(UnlinkDir(s, d, k), x, a, b);
    InRefs(s, x, a, b);
    KnownBare(s, d, k, b);
    Known(s, i, b);
  }

  lemma UnlinkDirRefs(s: Tree, d: nat, k: nat, x: nat)
    requires DirEntry(s, d, k) && Target(s, d, k) != d && Linked(s, Target(s, d, k))
    requires s.nodes[Target(s, d, k)].nlink == 1 && s.nodes[d].nlink >= 2
    requires Refs(s, Target(s, d, k)) == {(d, k)}
    ensures Refs(UnlinkDir(s, d, k), x) == Refs(s, x) - {Removed(s, d, k, x)}
  {
    forall a: nat, b: nat ensures (a, b) in Refs(UnlinkDir(s, d, k), x)
      <==> (a, b) in Refs(s, x) - {Removed(s, d, k, x)} {
      UnlinkDirRef(s, d, k, x, a, b);
    }
  }

  lemma UnlinkDirCount(s: Tree, d: nat, k: nat, x: nat)
    requires DirEntry(s, d, k) && Target(s, d, k) != d && Linked(s, Target(s, d, k))
    requires s.nodes[Target(s, d, k)].nlink == 1 && s.nodes[d].nlink >= 2
    requires Refs(s, Target(s, d, k)) == {(d, k)}
    ensures CountOk(UnlinkDir(s, d, k), x)
  {
    if x < |s.nodes| {
      KnownCount(s, x);
      UnlinkDirRefs(s, d, k, x);
      LessOne(Refs(s, x), Removed(s, d, k, x));
      RemovedIs(s, d, k, x);
    }
  }

  lemma RemovedIs(s: Tree, d: nat, k: nat, x: nat)
    requires DirEntry(s, d, k) && Target(s, d, k) != d && Linked(s, Target(s, d, k))
    ensures Removed(s, d, k, x) in Refs(s, x) <==> x == Target(s, d, k) || x == d
  {
    var i := Target(s, d, k);
    Known(s, d, k);
    Known(s, i, 1);
    InRefs(s, x, i, 1);
    InRefs(s, x, d, k);
  }

  lemma UnlinkDirInv(s: Tree, d: nat, k: nat)
    requires DirEntry(s, d, k)
    ensures Target(s, d, k) != d && s.nodes[d].nlink > 0 && s.nodes[Target(s, d, k)].nlink > 0
    ensures Inv(UnlinkDir(s, d, k))
  {
    EmptyDirLinks(s, d, k);
    var i, s' := Target(s, d, k), UnlinkDir(s, d, k);
    forall x ensures CountOk(s', x) { UnlinkDirCount(s, d, k, x); }
    forall x, y ensures EntryOk(s', x, y) { UnlinkDirEntry(s, d, k, x, y); }
    forall x ensures DirOk(s', x) { UnlinkDirDir(s, d, k, x); }
    forall x, y, z ensures NamesDiffer(s', x, y, z) {
      assert NamesDiffer(s, x, y, z);
      UnlinkDirAt(s, d, k, x, y);
      UnlinkDirAt(s, d, k, x, z);
    }
    UnlinkDirAt(s, d, k, ROOTINO, 0);
  }

  lemma UnlinkDirEntry(s: Tree, d: nat, k: nat, x: nat, y: nat)
    requires DirEntry(s, d, k) && Target(s, d, k) != d && Linked(s, Target(s, d, k))
    requires s.nodes[Target(s, d, k)].nlink == 1 && s.nodes[d].nlink >= 2
    ensures EntryOk(UnlinkDir(s, d, k), x, y)
  {
    var i, s' := Target(s, d, k), UnlinkDir(s, d, k);
    Known(s, d, k);
    Known(s, x, y);
    UnlinkDirAt(s, d, k, x, y);
    if Linked(s', x) && Has(s', x, y) { UnlinkDirAt(s, d, k, s.nodes[x].ents[y].inum, 1); }
  }

  lemma UnlinkDirDir(s: Tree, d: nat, k: nat, x: nat)
    requires DirEntry(s, d, k) && Target(s, d, k) != d && Linked(s, Target(s, d, k))
    requires s.nodes[Target(s, d, k)].nlink == 1 && s.nodes[d].nlink >= 2
    ensures DirOk(UnlinkDir(s, d, k), x)
  {
    var i, s' := Target(s, d, k), UnlinkDir(s, d, k);
    Known(s, x, 0);
    UnlinkDirAt(s, d, k, x, 0);
    UnlinkDirAt(s, d, k, x, 1);
    if x < |s.nodes| && s.nodes[x].kind.Dir? {
      if s'.nodes[x].nlink == 0 {
        forall y ensures Dots(s', x, y) {
          if x == i { KnownBare(s, d, k, y); Known(s, i, y); } else { assert Dots(s, x, y); }
          UnlinkDirAt(s, d, k, x, y);
        }
      } else if x != ROOTINO {
        UnlinkDirAt(s, d, k, s.home[x].0, s.home[x].1);
        KnownBare(s, d, k, s.home[x].1);
      }
    }
  }

  // ---------------------------------------------------------------- create() and iput()

  /** A node that is and was no linked directory may change. */
  lemma PassiveRefs(s: Tree, i: nat, node: Node, x: nat)
    requires i < |s.nodes| && !Linked(s, i) && !(node.kind.Dir? && node.nlink > 0)
    ensures Refs(s.(nodes := s.nodes[i := node]), x) == Refs(s, x)
  {
    var s' := s.(nodes := s.nodes[i := node]);
    forall a: nat, b: nat ensures (a, b) in Refs(s', x) <==> (a, b) in Refs(s, x) {
      InRefs(s', x, a, b);
      InRefs(s, x, a, b);
    }
  }

  /** What create() puts into a new inode. */
  function FirstNode(i: nat, d: nat, isDir: bool): Node {
    if isDir then Node(Dir, 1, [Dirent(i, "."), Dirent(d, "..")]) else Node(File, 1, [])
  }

  /** ialloc() and ip->nlink = 1 for a file: its entry is still to come. */
  function Born(s: Tree, i: nat): Tree
    requires i < |s.nodes| == |s.pend|
  {
    s.(nodes := s.nodes[i := Node(File, 1, [])], pend := s.pend[i := 1])
  }

  /** iput() of the last reference to an inode without links. */
  function Reclaimed(s: Tree, i: nat): Tree
    requires i < |s.nodes|
  {
    s.(nodes := s.nodes[i := Node(Free, 0, [])])
  }

  /** An inode without links is named by no counted entry. */
  lemma NoLinksNoNames(s: Tree, i: nat, x: nat, y: nat)
    requires Inv(s) && i < |s.nodes| && s.nodes[i].nlink == 0
    ensures s.pend[i] == 0 && Refs(s, i) == {} && (Counted(s, x, y) ==> Target(s, x, y) != i)
  {
    Known(s, i, 0);
    InRefs(s, i, x, y);
  }

  /** A new kind for an inode without links: entries and directories are as before. */
  lemma PassiveInv(s: Tree, i: nat, node: Node, pend: seq<nat>)
    requires Inv(s) && i < |s.nodes| && s.nodes[i].nlink == 0 && !node.kind.Dir? && |pend| == |s.nodes|
    requires forall x :: 0 <= x < |pend| ==> pend[x] == if x == i then node.nlink else s.pend[x]
    requires node.kind.Free? ==> node == Node(Free, 0, [])
    ensures Inv(s.(nodes := s.nodes[i := node], pend := pend))
  {
    var t := s.(nodes := s.nodes[i := node]);
    var s' := t.(pend := pend);
    NoLinksNoNames(s, i, 0, 0);
    forall x ensures CountOk(s', x) { Known(s, x, 0); PassiveRefs(s, i, node, x); SamePend(t, pend, x, 0); }
    forall x, y ensures EntryOk(s', x, y) { Known(s, x, y); NoLinksNoNames(s, i, x, y); }
    forall x ensures DirOk(s', x) { PassiveDir(s, i, node, pend, x); }
    forall x, y, z ensures NamesDiffer(s', x, y, z) { assert NamesDiffer(s, x, y, z); }
  }

  lemma PassiveDir(s: Tree, i: nat, node: Node, pend: seq<nat>, x: nat)
    requires Inv(s) && i < |s.nodes| && s.nodes[i].nlink == 0 && !node.kind.Dir?
    ensures DirOk(s.(nodes := s.nodes[i := node], pend := pend), x)
  {
    var s' := s.(nodes := s.nodes[i := node], pend := pend);
    Known(s, x, 1);
    if x < |s.nodes| && s.nodes[x].kind.Dir? && s.nodes[x].nlink == 0 && x != i {
      forall y ensures Dots(s', x, y) { assert Dots(s, x, y); }
    }
  }

  lemma BornInv(s: Tree, i: nat)
    requires Inv(s) && i < |s.nodes| && s.nodes[i].kind.Free?
    ensures Inv(Born(s, i))
  {
    Known(s, i, 0);
    PassiveInv(s, i, Node(File, 1, []), s.pend[i := 1]);
  }

  lemma ReclaimedInv(s: Tree, i: nat)
    requires Inv(s) && i < |s.nodes| && s.nodes[i].nlink == 0
    ensures Inv(Reclaimed(s, i))
  {
    NoLinksNoNames(s, i, 0, 0);
    PassiveInv(s, i, Node(Free, 0, []), s.pend);
  }

  /** A new directory i with "." and "..", its entry in d, and dp->nlink++. */
  function NewDir(s: Tree, d: nat, k: nat, name: string, i: nat): Tree
    requires d < |s.nodes| && k <= |s.nodes[d].ents| && i < |s.nodes| && i != d
  {
    var t := Written(s, d, k, Dirent(i, name));
    WithLink(t.(nodes := t.nodes[i := FirstNode(i, d, true)], home := s.home[i := (d, k)]), d, s.nodes[d].nlink + 1)
  }

  ghost predicate CanMake(s: Tree, d: nat, k: nat, name: string, i: nat) {
    Linked(s, d) && CanPut(s, d, k, name, i)
  }

  ghost predicate CanPut(s: Tree, d: nat, k: nat, name: string, i: nat) {
    CanPlace(s, d, k, name) && 0 < i < |s.nodes| && s.nodes[i].kind.Free? && i != d && d != 0
  }

  /** Making a directory keeps the invariant if and only if the directory it is made in is a linked one. */
  lemma NewDirIff(s: Tree, d: nat, k: nat, name: string, i: nat)
    requires CanPut(s, d, k, name, i)
    ensures Inv(NewDir(s, d, k, name, i)) <==> Linked(s, d)
  {
    if Linked(s, d) { NewDirInv(s, d, k, name, i); } else { NewDirInRemoved(s, d, k, name, i); }
  }

  /** A directory made in a removed one gives that one a link again, though no entry names it. */
  lemma NewDirInRemoved(s: Tree, d: nat, k: nat, name: string, i: nat)
    requires CanPut(s, d, k, name, i) && s.nodes[d].nlink == 0
    ensures !DirOk(NewDir(s, d, k, name, i), d)
  {
    var s' := NewDir(s, d, k, name, i);
    if DirOk(s', d) {
      var h := s'.home[d];
      WrittenAt(s, d, k, Dirent(i, name), h.0, h.1);
      RemovedHasNoHome(s, d, h.0, h.1);
      assert h.0 != i;
      assert s'.nodes[h.0].ents == Written(s, d, k, Dirent(i, name)).nodes[h.0].ents;
      KnownDots(s, d, h.1);
    }
  }

  lemma RemovedHasNoHome(s: Tree, d: nat, x: nat, y: nat)
    requires Inv(s) && d < |s.nodes| && s.nodes[d].kind.Dir? && s.nodes[d].nlink == 0
    ensures d != ROOTINO && (Linked(s, x) && Has(s, x, y) && y >= 2 ==> Target(s, x, y) != d)
  {
    Known(s, x, y);
    if Counted(s, x, y) { NamedHasLink(s, x, y); }
  }

  lemma NewDirAt(s: Tree, d: nat, k: nat, name: string, i: nat, x: nat, y: nat)
    requires CanMake(s, d, k, name, i)
    ensures var s' := NewDir(s, d, k, name, i);
            && (Linked(s', x) <==> Linked(s, x) || x == i)
            && (x != i ==> (Has(s', x, y) <==> Has(s, x, y) || (x, y) == (d, k)))
            && (x != i && Has(s', x, y) ==> s'.nodes[x].ents[y] == if (x, y) == (d, k) then Dirent(i, name)
                 else s.nodes[x].ents[y])
            && (Has(s', i, y) <==> y < 2) && s'.nodes[i].ents == [Dirent(i, "."), Dirent(d, "..")]
  {
    WrittenAt(s, d, k, Dirent(i, name), x, y);
  }

  /** The counted entries that NewDir adds for inode x. */
  function Added(d: nat, k: nat, i: nat, x: nat): set<(nat, nat)> {
    if x == i then {(d, k)} else if x == d then {(i, 1)} else {}
  }

  lemma NewDirRef(s: Tree, d: nat, k: nat, name: string, i: nat, x: nat, a: nat, b: nat)
    requires CanMake(s, d, k, name, i)
    ensures (a, b) in Refs(NewDir(s, d, k, name, i), x) <==> (a, b) in Refs(s, x) || (a, b) in Added(d, k, i, x)
  {
    AddedPlace(s, d, k, name);
    NewDirAt(s, d, k, name, i, a, b);
    InRefs(NewDir(s, d, k, name, i), x, a, b);
    InRefs(s, x, a, b);
    if a == i { NoLinksHere(s, i, x, b); }
  }

  lemma NoLinksHere(s: Tree, i: nat, x: nat, b: nat)
    requires Inv(s) && i < |s.nodes| && s.nodes[i].kind.Free?
    ensures (i, b) !in Refs(s, x)
  {
    InRefs(s, x, i, b);
  }

  lemma NewDirRefs(s: Tree, d: nat, k: nat, name: string, i: nat, x: nat)
    requires CanMake(s, d, k, name, i)
    ensures Refs(NewDir(s, d, k, name, i), x) == Refs(s, x) + Added(d, k, i, x)
  {
    forall a: nat, b: nat ensures (a, b) in Refs(NewDir(s, d, k, name, i), x)
      <==> (a, b) in Refs(s, x) + Added(d, k, i, x) {
      NewDirRef(s, d, k, name, i, x, a, b);
    }
  }

  lemma NewDirRefsDiffer(s: Tree, d: nat, k: nat, name: string, i: nat, x: nat)
    requires CanMake(s, d, k, name, i)
    ensures Refs(s, x) !! Added(d, k, i, x)
  {
    InRefs(s, x, d, k);
    NoLinksHere(s, i, x, 1);
  }

  lemma UnionSize<T>(a: set<T>, b: set<T>)
    requires a !! b
    ensures |a + b| == |a| + |b|
  {
  }

  lemma NewDirCount(s: Tree, d: nat, k: nat, name: string, i: nat, x: nat)
    requires CanMake(s, d, k, name, i)
    ensures CountOk(NewDir(s, d, k, name, i), x)
  {
    NewDirRefs(s, d, k, name, i, x);
    NewDirRefsDiffer(s, d, k, name, i, x);
    UnionSize(Refs(s, x), Added(d, k, i, x));
    Known(s, x, 0);
    Known(s, i, 0);
  }

  lemma NewDirInv(s: Tree, d: nat, k: nat, name: string, i: nat)
    requires CanMake(s, d, k, name, i)
    ensures Inv(NewDir(s, d, k, name, i))
  {
    var s' := NewDir(s, d, k, name, i);
    forall x ensures CountOk(s', x) { NewDirCount(s, d, k, name, i, x); }
    forall x, y ensures EntryOk(s', x, y) { NewDirEntry(s, d, k, name, i, x, y); }
    forall x ensures DirOk(s', x) { NewDirDir(s, d, k, name, i, x); }
    forall x, y, z ensures NamesDiffer(s', x, y, z) {
      assert NamesDiffer(s, x, y, z) && NotNamed(s, d, name, y) && NotNamed(s, d, name, z);
      NewDirAt(s, d, k, name, i, x, y);
      NewDirAt(s, d, k, name, i, x, z);
    }
    NewDirAt(s, d, k, name, i, ROOTINO, 0);
  }

  lemma NewDirEntry(s: Tree, d: nat, k: nat, name: string, i: nat, x: nat, y: nat)
    requires CanMake(s, d, k, name, i)
    ensures EntryOk(NewDir(s, d, k, name, i), x, y)
  {
    var s' := NewDir(s, d, k, name, i);
    AddedPlace(s, d, k, name);
    Known(s, x, y);
    Known(s, i, 0);
    NewDirAt(s, d, k, name, i, x, y);
    if x != i && Linked(s', x) && Has(s', x, y) {
      if (x, y) != (d, k) {
        NamedIsNotFree(s, x, y);
        NewDirAt(s, d, k, name, i, s.nodes[x].ents[y].inum, 1);
      } else {
        NewDirAt(s, d, k, name, i, i, 1);
      }
    }
  }

  lemma NamedIsNotFree(s: Tree, x: nat, y: nat)
    requires Inv(s) && Linked(s, x) && Has(s, x, y)
    ensures Target(s, x, y) < |s.nodes| && !s.nodes[Target(s, x, y)].kind.Free?
  {
    Known(s, x, y);
    if Counted(s, x, y) { NamedHasLink(s, x, y); }
  }

  lemma NewDirDir(s: Tree, d: nat, k: nat, name: string, i: nat, x: nat)
    requires CanMake(s, d, k, name, i)
    ensures DirOk(NewDir(s, d, k, name, i), x)
  {
    var s' := NewDir(s, d, k, name, i);
    AddedPlace(s, d, k, name);
    Known(s, x, 0);
    Known(s, i, 0);
    NewDirAt(s, d, k, name, i, x, 0);
    NewDirAt(s, d, k, name, i, x, 1);
    NewDirAt(s, d, k, name, i, d, k);
    if x < |s.nodes| && s.nodes[x].kind.Dir? && x != i {
      if s.nodes[x].nlink == 0 {
        forall y ensures Dots(s', x, y) { assert Dots(s, x, y); NewDirAt(s, d, k, name, i, x, y); }
      } else if x != ROOTINO {
        NewDirAt(s, d, k, name, i, s.home[x].0, s.home[x].1);
      }
    }
  }

  // ---------------------------------------------------------------- a directory as a map from names

  ghost predicate EntryIs(s: Tree, d: nat, name: string, i: nat, k: nat) {
    Has(s, d, k) && s.nodes[d].ents[k] == Dirent(i, name)
  }

  /** The directory has name for inode i. */
  ghost predicate Resolves(s: Tree, d: nat, name: string, i: nat) {
    exists k :: EntryIs(s, d, name, i, k)
  }

  /** At most one inode for a name. */
  lemma ResolvesOnce(s: Tree, d: nat, name: string, i: nat, j: nat)
    requires Inv(s) && d < |s.nodes| && s.nodes[d].kind.Dir? && Resolves(s, d, name, i) && Resolves(s, d, name, j)
    ensures i == j
  {
    var a: nat :| EntryIs(s, d, name, i, a);
    var b: nat :| EntryIs(s, d, name, j, b);
    assert NamesDiffer(s, d, a, b);
    if s.nodes[d].nlink == 0 {
      KnownDots(s, d, a);
      KnownDots(s, d, b);
    }
  }

  /** sys_unlink() removes the name. */
  ghost predicate Removable(s: Tree, d: nat, name: string) {
    name != "." && name != ".." && exists i: nat :: Resolves(s, d, name, i) && Deletable(s, i)
  }

  ghost predicate Deletable(s: Tree, i: nat) {
    i < |s.nodes| && (s.nodes[i].kind.Dir? ==> forall k :: Bare(s, i, k))
  }

  /** create() returns an inode.  room0 and room say whether the new and the old directory can grow. */
  ghost predicate Creatable(s: Tree, d: nat, name: string, isDir: bool, room0: bool, room: bool) {
    if Fresh(s, d, name) then (exists i: nat :: IsFree(s, i)) && (isDir ==> room0) && (room || !Full(s, d))
    else !isDir && exists i: nat :: Resolves(s, d, name, i) && IsFile(s, i)
  }

  ghost predicate IsFree(s: Tree, i: nat) {
    0 < i < |s.nodes| && s.nodes[i].kind.Free?
  }

  ghost predicate IsFile(s: Tree, i: nat) {
    i < |s.nodes| && s.nodes[i].kind.File?
  }

  /** Deletable and IsFile need to be asked of the one inode found only. */
  lemma FoundIsTheOne(s: Tree, d: nat, name: string, k: nat)
    requires Inv(s) && d < |s.nodes| && s.nodes[d].kind.Dir? && Has(s, d, k) && s.nodes[d].ents[k].name == name
    ensures !Fresh(s, d, name) && Resolves(s, d, name, s.nodes[d].ents[k].inum) && s.nodes[d].ents[k].inum < |s.nodes|
    ensures forall j: nat :: Resolves(s, d, name, j) ==> j == s.nodes[d].ents[k].inum
  {
    assert !NotNamed(s, d, name, k);
    assert EntryIs(s, d, name, s.nodes[d].ents[k].inum, k);
    Known(s, d, k);
    if s.nodes[d].nlink == 0 { KnownDots(s, d, k); }
    forall j: nat | Resolves(s, d, name, j) ensures j == s.nodes[d].ents[k].inum {
      ResolvesOnce(s, d, name, j, s.nodes[d].ents[k].inum);
    }
  }

  lemma FreshResolvesNone(s: Tree, d: nat, name: string)
    requires Fresh(s, d, name)
    ensures forall j: nat :: !Resolves(s, d, name, j)
  {
    forall j: nat ensures !Resolves(s, d, name, j) {
      if Resolves(s, d, name, j) {
        var k: nat :| EntryIs(s, d, name, j, k);
        KnownFresh(s, d, name, k);
      }
    }
  }

  lemma KnownFresh(s: Tree, d: nat, name: string, k: nat)
    requires Fresh(s, d, name)
    ensures NotNamed(s, d, name, k)
  {
  }

  /** Writing an empty entry adds exactly that name, in that directory only. */
  lemma AddResolves(s: Tree, d: nat, k: nat, e: Dirent, x: nat, name: string, i: nat)
    requires d < |s.nodes| && k <= |s.nodes[d].ents| && !Has(s, d, k) && e.inum != 0
    ensures Resolves(Written(s, d, k, e), x, name, i) <==> Resolves(s, x, name, i) || (x == d && e == Dirent(i, name))
  {
    var s' := Written(s, d, k, e);
    if Resolves(s', x, name, i) {
      var y: nat :| EntryIs(s', x, name, i, y);
      WrittenAt(s, d, k, e, x, y);
      if (x, y) != (d, k) { assert EntryIs(s, x, name, i, y); }
    }
    if Resolves(s, x, name, i) {
      var y: nat :| EntryIs(s, x, name, i, y);
      WrittenAt(s, d, k, e, x, y);
      assert EntryIs(s', x, name, i, y);
    }
    if x == d && e == Dirent(i, name) {
      WrittenAt(s, d, k, e, d, k);
      assert EntryIs(s', d, name, i, k);
    }
  }

  /** Clearing an entry removes exactly its name. */
  lemma ClearResolves(s: Tree, d: nat, k: nat, x: nat, name: string, i: nat)
    requires Inv(s) && Linked(s, d) && Has(s, d, k)
    ensures Resolves(Written(s, d, k, NoEntry), x, name, i)
       <==> Resolves(s, x, name, i) && !(x == d && name == s.nodes[d].ents[k].name)
  {
    var s' := Written(s, d, k, NoEntry);
    if Resolves(s', x, name, i) {
      var y: nat :| EntryIs(s', x, name, i, y);
      WrittenAt(s, d, k, NoEntry, x, y);
      assert EntryIs(s, x, name, i, y);
      assert NamesDiffer(s, d, y, k);
    }
    if Resolves(s, x, name, i) && !(x == d && name == s.nodes[d].ents[k].name) {
      var y: nat :| EntryIs(s, x, name, i, y);
      WrittenAt(s, d, k, NoEntry, x, y);
      assert EntryIs(s', x, name, i, y);
    }
  }

  /** A name other than "." and ".." is only found in a linked directory. */
  lemma FoundInLinked(s: Tree, d: nat, k: nat)
    requires Inv(s) && d < |s.nodes| && s.nodes[d].kind.Dir? && Has(s, d, k)
    requires s.nodes[d].ents[k].name != "." && s.nodes[d].ents[k].name != ".."
    ensures Linked(s, d) && k >= 2 && Counted(s, d, k)
  {
    Known(s, d, k);
    if s.nodes[d].nlink == 0 { KnownDots(s, d, k); }
  }

  lemma KnownDots(s: Tree, d: nat, k: nat)
    requires Inv(s) && d < |s.nodes| && s.nodes[d].kind.Dir? && s.nodes[d].nlink == 0
    ensures Dots(s, d, k)
  {
    Known(s, d, k);
  }

  /** Names depend on the entries of the directory only. */
  lemma SameEntries(s: Tree, t: Tree, x: nat, name: string, i: nat)
    requires x < |s.nodes| == |t.nodes| && s.nodes[x].ents == t.nodes[x].ents
    ensures Resolves(s, x, name, i) <==> Resolves(t, x, name, i)
  {
    if Resolves(s, x, name, i) { var y: nat :| EntryIs(s, x, name, i, y); assert EntryIs(t, x, name, i, y); }
    if Resolves(t, x, name, i) { var y: nat :| EntryIs(t, x, name, i, y); assert EntryIs(s, x, name, i, y); }
  }

  lemma OutOfRange(s: Tree, x: nat, name: string, i: nat)
    ensures x >= |s.nodes| ==> !Resolves(s, x, name, i)
  {
  }

  /** s' has the entries of s, with entry k of d written, but perhaps in directory skip. */
  ghost predicate EntriesOf(s: Tree, s': Tree, d: nat, k: nat, e: Dirent, skip: nat) {
    && d < |s.nodes| == |s'.nodes| && k <= |s.nodes[d].ents|
    && forall x :: 0 <= x < |s.nodes| && x != skip ==> s'.nodes[x].ents == Written(s, d, k, e).nodes[x].ents
  }

  /** From s to s', exactly one name was added. */
  ghost predicate NameAdded(s: Tree, s': Tree, d: nat, name: string, i: nat, skip: nat) {
    forall x, n, j :: x != skip ==> (Resolves(s', x, n, j) <==> Resolves(s, x, n, j) || (x == d && n == name && j == i))
  }

  /** From s to s', exactly one name was removed. */
  ghost predicate NameRemoved(s: Tree, s': Tree, d: nat, name: string) {
    forall x, n, j :: Resolves(s', x, n, j) <==> Resolves(s, x, n, j) && !(x == d && n == name)
  }

  lemma EntriesAdd(s: Tree, s': Tree, d: nat, k: nat, name: string, i: nat, skip: nat)
    requires EntriesOf(s, s', d, k, Dirent(i, name), skip) && !Has(s, d, k) && i != 0
    ensures NameAdded(s, s', d, name, i, skip)
  {
    forall x: nat, n: string, j: nat | x != skip
        ensures Resolves(s', x, n, j) <==> Resolves(s, x, n, j) || (x == d && n == name && j == i) {
      AddResolves(s, d, k, Dirent(i, name), x, n, j);
      OutOfRange(s, x, n, j);
      OutOfRange(s', x, n, j);
      if x < |s.nodes| { SameEntries(Written(s, d, k, Dirent(i, name)), s', x, n, j); }
    }
  }

  lemma EntriesRemove(s: Tree, s': Tree, d: nat, k: nat)
    requires Inv(s) && Linked(s, d) && Has(s, d, k) && EntriesOf(s, s', d, k, NoEntry, |s.nodes|)
    ensures NameRemoved(s, s', d, s.nodes[d].ents[k].name)
  {
    forall x: nat, n: string, j: nat
        ensures Resolves(s', x, n, j) <==> Resolves(s, x, n, j) && !(x == d && n == s.nodes[d].ents[k].name) {
      ClearResolves(s, d, k, x, n, j);
      OutOfRange(s, x, n, j);
      OutOfRange(s', x, n, j);
      if x < |s.nodes| { SameEntries(Written(s, d, k, NoEntry), s', x, n, j); }
    }
  }

  /** A place found while the new inode is being set up is a place. */
  lemma CanStillPut(s: Tree, t: Tree, d: nat, k: nat, name: string, i: nat)
    requires Inv(s) && 0 < d < |s.nodes| && s.nodes[d].kind.Dir? && 0 < i < |s.nodes| && s.nodes[i].kind.Free?
    requires |t.nodes| == |s.nodes| && t.nodes[d] == s.nodes[d] && k <= |t.nodes[d].ents| && !Has(t, d, k)
    requires Fresh(t, d, name)
    ensures CanPut(s, d, k, name, i)
  {
    SameFresh(s, t, d, name);
  }

  lemma SameFresh(s: Tree, t: Tree, d: nat, name: string)
    requires d < |s.nodes| == |t.nodes| && t.nodes[d] == s.nodes[d]
    ensures (Fresh(s, d, name) <==> Fresh(t, d, name)) && (Full(s, d) <==> Full(t, d))
  {
    if Fresh(t, d, name) { forall y ensures NotNamed(s, d, name, y) { KnownFresh(t, d, name, y); } }
    if Fresh(s, d, name) { forall y ensures NotNamed(t, d, name, y) { KnownFresh(s, d, name, y); } }
    if Full(s, d) { forall y: nat | y < |t.nodes[d].ents| ensures Has(t, d, y) { assert Has(s, d, y); } }
    if Full(t, d) { forall y: nat | y < |s.nodes[d].ents| ensures Has(s, d, y) { assert Has(t, d, y); } }
  }

  lemma BornCanPlace(s: Tree, d: nat, k: nat, name: string, i: nat)
    requires CanPut(s, d, k, name, i)
    ensures |s.pend| == |s.nodes| && CanPlace(Born(s, i), d, k, name)
  {
    BornInv(s, i);
    SameFresh(s, Born(s, i), d, name);
  }
}
