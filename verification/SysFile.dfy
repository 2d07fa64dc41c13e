/** The system calls that make and remove directory entries (kernel/sysfile.c:100-258), in place.  Each
    method is a section that runs under the locks of the inodes it changes. */
module SysFile {
  import opened Links

  class Directories {
    var nodes: seq<Node>
    ghost var pend: seq<nat>
    ghost var home: map<nat, (nat, nat)>

    ghost function St(): Tree
      reads this
    {
      Tree(nodes, pend, home)
    }

    /** Stored names have at most DIRSIZ characters. */
    ghost predicate Short(d: int, k: int)
      reads this`nodes
    {
      0 <= d < |nodes| && 0 <= k < |nodes[d].ents| ==> |nodes[d].ents[k].name| <= DIRSIZ
    }

    ghost predicate Valid()
      reads this
    {
      Inv(St()) == true && forall d, k :: Short(d, k)
    }

    /** dirlookup(): the entry with that name, or the number of entries. */
    method DirLookup(d: nat, name: string) returns (k: nat)
      requires d < |nodes| && forall x, y :: Short(x, y)
      ensures k <= |nodes[d].ents|
      ensures k < |nodes[d].ents| ==> Has(St(), d, k) && nodes[d].ents[k].name == Key(name)
      ensures k == |nodes[d].ents| ==> Fresh(St(), d, Key(name))
    {
      k := 0;
      while k < |nodes[d].ents|
        invariant k <= |nodes[d].ents| && forall j: nat :: j < k ==> NotNamed(St(), d, Key(name), j)
      {
        assert Short(d, k);
        if nodes[d].ents[k].inum != 0 && Key(name) == Key(nodes[d].ents[k].name) { return; }
        k := k + 1;
      }
      forall j ensures NotNamed(St(), d, Key(name), j) {}
    }

    /** The first empty entry, or the number of entries. */
    method FindEmpty(d: nat) returns (k: nat)
      requires d < |nodes|
      ensures k <= |nodes[d].ents| && !Has(St(), d, k) && forall j: nat :: j < k ==> Has(St(), d, j)
    {
      k := 0;
      while k < |nodes[d].ents|
        invariant k <= |nodes[d].ents| && forall j: nat :: j < k ==> Has(St(), d, j)
      {
        if nodes[d].ents[k].inum == 0 { break; }
        k := k + 1;
      }
    }

    /** The place where dirlink() puts a new entry: it fails if the name is there already, or if the directory
        would have to grow and the disk is full. */
    method FindPlace(d: nat, name: string, room: bool) returns (ok: bool, k: nat)
      requires d < |nodes| && forall x, y :: Short(x, y)
      ensures ok <==> Fresh(St(), d, Key(name)) && (room || !Full(St(), d))
      ensures ok ==> k <= |nodes[d].ents| && !Has(St(), d, k)
    {
      var j := DirLookup(d, name);
      if j < |nodes[d].ents| {
        assert !NotNamed(St(), d, Key(name), j);
        return false, 0;
      }
      k := FindEmpty(d);
      ok := k < |nodes[d].ents| || room;
    }

    method WriteEntry(d: nat, k: nat, e: Dirent)
      requires d < |nodes| && k <= |nodes[d].ents| && |e.name| <= DIRSIZ && forall x, y :: Short(x, y)
      modifies this`nodes
      ensures St() == Written(old(St()), d, k, e) && forall x, y :: Short(x, y)
    {
      ghost var was := nodes;
      forall x, y ensures 0 <= x < |was| && 0 <= y < |was[x].ents| ==> |was[x].ents[y].name| <= DIRSIZ {
        assert Short(x, y);
      }
      if k < |nodes[d].ents| {
        nodes := nodes[d := nodes[d].(ents := nodes[d].ents[k := e])];
      } else {
        nodes := nodes[d := nodes[d].(ents := nodes[d].ents + [e])];
      }
    }

    method SetLink(i: nat, n: nat)
      requires i < |nodes| && forall x, y :: Short(x, y)
      modifies this`nodes
      ensures St() == WithLink(old(St()), i, n) && forall x, y :: Short(x, y)
    {
      ghost var was := nodes;
      forall x, y ensures 0 <= x < |was| && 0 <= y < |was[x].ents| ==> |was[x].ents[y].name| <= DIRSIZ {
        assert Short(x, y);
      }
      nodes := nodes[i := nodes[i].(nlink := n)];
    }

    /** sys_link() up to the first iunlock(): fails on a directory. */
    method LinkBegin(i: nat) returns (ok: bool)
      requires Valid() && i < |nodes| && !nodes[i].kind.Free?
      modifies this`nodes, this`pend
      ensures Valid() && (ok <==> !old(nodes)[i].kind.Dir?) && (!ok ==> St() == old(St()))
      ensures ok ==> St() == Relink(old(St()), i, old(nodes)[i].nlink + 1, old(pend)[i] + 1)
    {
      if nodes[i].kind.Dir? { return false; }
      RelinkInv(St(), i, nodes[i].nlink + 1, pend[i] + 1);
      SetLink(i, nodes[i].nlink + 1);
      pend := pend[i := pend[i] + 1];
      ok := true;
    }

    /** dirlink() in sys_link(), and the way back if it fails.  All link counts are right afterwards unless the entry
        went into a directory that had been removed. */
    method LinkEnd(d: nat, name: string, i: nat, room: bool) returns (ok: bool)
      requires Valid() && d < |nodes| && nodes[d].kind.Dir? && 0 < i < |nodes| && nodes[i].kind.File? && pend[i] > 0
      modifies this`nodes, this`pend
      ensures Valid() <==> !ok || Linked(old(St()), d)
      ensures ok <==> Fresh(old(St()), d, Key(name)) && (room || !Full(old(St()), d))
      ensures |nodes| == |old(nodes)| && pend == old(pend)[i := old(pend)[i] - 1]
      ensures ok ==> forall x :: 0 <= x < |nodes| ==>
          && nodes[x].nlink == old(nodes)[x].nlink
          && nodes[x].kind == old(nodes)[x].kind
      ensures ok ==> NameAdded(old(St()), St(), d, Key(name), i, |nodes|)
      ensures !ok ==>
                old(nodes)[i].nlink > 0 && nodes == old(nodes)[i := old(nodes)[i].(nlink := old(nodes)[i].nlink - 1)]
    {
      ghost var s := St();
      var k;
      ok, k := FindPlace(d, name, room);
      if ok {
        LinkDoneIff(s, d, k, Key(name), i);
        EntriesAdd(s, LinkDone(s, d, k, Key(name), i), d, k, Key(name), i, |nodes|);
        WriteEntry(d, k, Dirent(i, Key(name)));
        pend := pend[i := pend[i] - 1];
        assert St() == LinkDone(s, d, k, Key(name), i);
      } else {
        Known(s, i, 0);
        RelinkInv(s, i, nodes[i].nlink - 1, pend[i] - 1);
        SetLink(i, nodes[i].nlink - 1);
        pend := pend[i := pend[i] - 1];
        assert St() == Relink(s, i, s.nodes[i].nlink - 1, s.pend[i] - 1);
      }
    }

    /** isdirempty() */
    method IsDirEmpty(d: nat) returns (b: bool)
      requires d < |nodes|
      ensures b <==> forall k :: Bare(St(), d, k)
    {
      var k := 2;
      while k < |nodes[d].ents|
        invariant forall j: nat :: 2 <= j < k ==> !Has(St(), d, j)
      {
        if nodes[d].ents[k].inum != 0 {
          assert !Bare(St(), d, k);
          return false;
        }
        k := k + 1;
      }
      b := true;
    }

    /** The end of sys_unlink() for a file. */
    method RemoveFile(d: nat, k: nat)
      requires Valid() && FileEntry(St(), d, k) == true && d < |nodes| && k < |nodes[d].ents|
      modifies this`nodes
      ensures Valid() && NameRemoved(old(St()), St(), d, old(nodes)[d].ents[k].name)
    {
      ghost var s := St();
      UnlinkFileInv(s, d, k);
      EntriesRemove(s, UnlinkFile(s, d, k), d, k);
      var i := nodes[d].ents[k].inum;
      var n := nodes[i].nlink;
      WriteEntry(d, k, NoEntry);
      SetLink(i, n - 1);
    }

    /** The end of sys_unlink() for an empty directory. */
    method RemoveDir(d: nat, k: nat)
      requires Valid() && DirEntry(St(), d, k) == true && d < |nodes| && k < |nodes[d].ents|
      modifies this`nodes, this`home
      ensures Valid() && NameRemoved(old(St()), St(), d, old(nodes)[d].ents[k].name)
    {
      ghost var s := St();
      UnlinkDirInv(s, d, k);
      EntriesRemove(s, UnlinkDir(s, d, k), d, k);
      var i := nodes[d].ents[k].inum;
      var m, n := nodes[d].nlink, nodes[i].nlink;
      WriteEntry(d, k, NoEntry);
      SetLink(d, m - 1);
      SetLink(i, n - 1);
      home := home - {i};
      assert St() == UnlinkDir(s, d, k);
    }

    /** sys_unlink(): fails on "." and "..", on a name that is not there and on a directory that is not empty;
        otherwise exactly that name goes.  "unlink: nlink < 1" is not reached. */
    method Unlink(d: nat, name: string) returns (ok: bool)
      requires Valid() && d < |nodes| && nodes[d].kind.Dir?
      modifies this`nodes, this`home
      ensures Valid() && (ok <==> Removable(old(St()), d, Key(name)))
      ensures if ok then Linked(old(St()), d) && NameRemoved(old(St()), St(), d, Key(name)) else St() == old(St())
    {
      ok := false;
      if Key(name) == "." || Key(name) == ".." { return; }
      var k := DirLookup(d, name);
      if k == |nodes[d].ents| {
        FreshResolvesNone(St(), d, Key(name));
        return;
      }
      FoundIsTheOne(St(), d, Key(name), k);
      FoundInLinked(St(), d, k);
      var i := nodes[d].ents[k].inum;
      NamedHasLink(St(), d, k);
      if nodes[i].kind.Dir? {
        var empty := IsDirEmpty(i);
        assert empty <==> Deletable(St(), i);
        if !empty { return; }
        RemoveDir(d, k);
      } else {
        RemoveFile(d, k);
      }
      ok := true;
    }

    /** ialloc(): the first free inode, or the number of inodes. */
    method FindFree() returns (i: nat)
      requires |nodes| > 0
      ensures 0 < i <= |nodes| && (i < |nodes| ==> nodes[i].kind.Free?) && forall j :: 0 < j < i ==>
                !nodes[j].kind.Free?
    {
      i := 1;
      while i < |nodes|
        invariant 0 < i <= |nodes| && forall j :: 0 < j < i ==> !nodes[j].kind.Free?
      {
        if nodes[i].kind.Free? { return; }
        i := i + 1;
      }
    }

    /** create().  It fails if the name is there (unless a file may be opened), if there is no free inode, or if
        the disk is full; then nothing has changed.  All link counts are right afterwards unless something new was
        made in a directory that had been removed. */
    method Create(d: nat, name: string, isDir: bool, room0: bool, room: bool) returns (i: nat)
      requires Valid() && 0 < d < |nodes| && nodes[d].kind.Dir?
      modifies this`nodes, this`pend, this`home
      ensures i != 0 <==> Creatable(old(St()), d, Key(name), isDir, room0, room)
      ensures Valid() <==> i == 0 || !Fresh(old(St()), d, Key(name)) || Linked(old(St()), d)
      ensures i == 0 || !Fresh(old(St()), d, Key(name)) ==> St() == old(St())
      ensures i != 0 ==> i < |nodes| == |old(nodes)| && !nodes[i].kind.Free? && Resolves(St(), d, Key(name), i)
      ensures i != 0 && Fresh(old(St()), d, Key(name)) ==>
                IsFree(old(St()), i) && nodes[i] == FirstNode(i, d, isDir)
                  && NameAdded(old(St()), St(), d, Key(name), i, i)
    {
      ghost var s := St();
      var j := DirLookup(d, name);
      if j < |nodes[d].ents| {
        FoundIsTheOne(s, d, Key(name), j);
        var f := nodes[d].ents[j].inum;
        return if !isDir && nodes[f].kind.File? then f else 0;
      }
      i := CreateNew(d, name, isDir, room0, room);
    }

    /** create() of a name that is not there. */
    method CreateNew(d: nat, name: string, isDir: bool, room0: bool, room: bool) returns (i: nat)
      requires Valid() && 0 < d < |nodes| && nodes[d].kind.Dir? && Fresh(St(), d, Key(name))
      modifies this`nodes, this`pend, this`home
      ensures i != 0 <==> Creatable(old(St()), d, Key(name), isDir, room0, room)
      ensures Valid() <==> i == 0 || Linked(old(St()), d)
      ensures i == 0 ==> St() == old(St())
      ensures i != 0 ==>
                && i < |nodes| == |old(nodes)| && IsFree(old(St()), i) && nodes[i] == FirstNode(i, d, isDir) && i != d
                && NameAdded(old(St()), St(), d, Key(name), i, i)
    {
      ghost var s := St();
      i := FindFree();
      if i == |nodes| { return 0; }
      Known(s, i, 0);
      assert IsFree(s, i);
      SetNode(i, Node(if isDir then Dir else File, 1, []));
      if isDir {
        if !room0 {
          Abandon(i, s.nodes);
          return 0;
        }
        SetNode(i, Node(Dir, 1, [Dirent(i, "."), Dirent(d, "..")]));
      }
      SameFresh(s, St(), d, Key(name));
      var ok, k := FindPlace(d, name, room);
      if !ok {
        Abandon(i, s.nodes);
        return 0;
      }
      CanStillPut(s, St(), d, k, Key(name), i);
      if isDir { FinishDir(d, k, Key(name), i, s); } else { FinishFile(d, k, Key(name), i, s); }
    }

    /** Label fail of create(): ip->nlink = 0, and iput() frees the inode. */
    method Abandon(i: nat, ghost was: seq<Node>)
      requires i < |was| && was[i] == Node(Free, 0, []) && |nodes| == |was| && nodes == was[i := nodes[i]]
          && forall x, y :: Short(x, y)
      modifies this`nodes
      ensures nodes == was && forall x, y :: Short(x, y)
    {
      SetLink(i, 0);
      SetNode(i, Node(Free, 0, []));
    }

    /** dirlink(dp, name, ip->inum) for a file. */
    method FinishFile(d: nat, k: nat, name: string, i: nat, ghost s: Tree)
      requires CanPut(s, d, k, name, i) == true && |name| <= DIRSIZ && (forall x, y :: Short(x, y))
      requires i < |s.nodes| && St() == s.(nodes := s.nodes[i := FirstNode(i, d, false)]) && d < |nodes|
      requires k <= |nodes[d].ents|
      modifies this`nodes
      ensures (Valid() <==> Linked(s, d)) && |nodes| == |s.nodes| && nodes[i] == FirstNode(i, d, false)
      ensures NameAdded(s, St(), d, name, i, i)
    {
      BornInv(s, i);
      Known(s, i, 0);
      BornCanPlace(s, d, k, name, i);
      ghost var t := Born(s, i);
      LinkDoneIff(t, d, k, name, i);
      EntriesAdd(s, LinkDone(t, d, k, name, i), d, k, name, i, i);
      WriteEntry(d, k, Dirent(i, name));
      assert s.pend[i := 1][i := 0] == s.pend;
      assert St() == LinkDone(t, d, k, name, i);
    }

    /** dirlink(dp, name, ip->inum) and dp->nlink++ for a directory. */
    method FinishDir(d: nat, k: nat, name: string, i: nat, ghost s: Tree)
      requires CanPut(s, d, k, name, i) == true && |name| <= DIRSIZ && (forall x, y :: Short(x, y))
      requires i < |s.nodes| && St() == s.(nodes := s.nodes[i := FirstNode(i, d, true)]) && d < |nodes|
      requires k <= |nodes[d].ents|
      modifies this`nodes, this`home
      ensures (Valid() <==> Linked(s, d)) && |nodes| == |s.nodes| && nodes[i] == FirstNode(i, d, true)
      ensures NameAdded(s, St(), d, name, i, i)
    {
      NewDirIff(s, d, k, name, i);
      WriteEntry(d, k, Dirent(i, name));
      SetLink(d, nodes[d].nlink + 1);
      home := home[i := (d, k)];
      assert St() == NewDir(s, d, k, name, i);
      EntriesAdd(s, St(), d, k, name, i, i);
    }

    method SetNode(i: nat, node: Node)
      requires i < |nodes| && (forall x, y :: Short(x, y))
          && (forall y :: 0 <= y < |node.ents| ==> |node.ents[y].name| <= DIRSIZ)
      modifies this`nodes
      ensures nodes == old(nodes)[i := node] && forall x, y :: Short(x, y)
    {
      ghost var was := nodes;
      forall x, y ensures 0 <= x < |was| && 0 <= y < |was[x].ents| ==> |was[x].ents[y].name| <= DIRSIZ {
        assert Short(x, y);
      }
      nodes := nodes[i := node];
    }

    /** iput(): the last reference to an inode without links frees it. */
    method Iput(i: nat, last: bool)
      requires Valid() && i < |nodes|
      modifies this`nodes
      ensures Valid() && St() == if last && old(nodes)[i].nlink == 0 then Reclaimed(old(St()), i) else old(St())
    {
      if last && nodes[i].nlink == 0 {
        ReclaimedInv(St(), i);
        SetNode(i, Node(Free, 0, []));
      }
    }
  }
}
