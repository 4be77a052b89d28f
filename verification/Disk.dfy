/** The part of a file system the store writes to: nodes at locations, and the calls made on them.
    Locations are lexical; what a symbolic link leads to is not followed. */
module Disk {
  import opened GoStrings
  import opened Paths

  type Byte = b: int | 0 <= b < 256
  type Bytes = seq<Byte>
  type Loc = seq<string>

  datatype Node = File(data: Bytes) | Folder | Link(target: string)

  type Nodes = map<Loc, Node>

  datatype Errno = Exist | NotExist | NotDir | IsDir

  predicate IsFolder(nodes: Nodes, l: Loc) {
    l in nodes && nodes[l] == Folder
  }

  function Parent(l: Loc): Loc
    requires l != []
  {
    l[..|l| - 1]
  }

  /** The root is a folder and every node lies in one. */
  ghost predicate Rooted(nodes: Nodes) {
    && IsFolder(nodes, [])
    && forall l | l in nodes && l != [] :: IsFolder(nodes, Parent(l))
  }

  /** What a file is named holds no slash and is none of the special names. */
  ghost predicate PlainNames(nodes: Nodes) {
    forall l | l in nodes :: AllPlain(l)
  }

  lemma PlainAdded(nodes: Nodes, after: Nodes, l: Loc)
    requires PlainNames(nodes) && AllPlain(l) && forall m | m in after :: m in nodes || m <= l
    ensures PlainNames(after)
  {
  }

  lemma {:induction false} RootedAbove(nodes: Nodes, l: Loc, k: nat)
    requires Rooted(nodes) && l in nodes && k < |l|
    ensures IsFolder(nodes, l[..k])
    decreases |l|
  {
    if k < |l| - 1 {
      RootedAbove(nodes, Parent(l), k);
      assert Parent(l)[..k] == l[..k];
    }
  }

  lemma AboveIsFolder(nodes: Nodes, l: Loc, at: Loc)
    requires Rooted(nodes) && l in nodes && at < l
    ensures IsFolder(nodes, at)
  {
    RootedAbove(nodes, l, |at|);
    assert l[..|at|] == at;
  }

  /** `os.Lstat`; a file in the place of a directory is an error of its own. */
  function Lstat(nodes: Nodes, l: Loc): Result<Node, Errno> {
    if l in nodes then Ok(nodes[l])
    else if exists k | 0 <= k < |l| :: l[..k] in nodes && nodes[l[..k]].File? then Err(NotDir)
    else Err(NotExist)
  }

  /** `os.MkdirAll`. */
  function MkdirAll(nodes: Nodes, l: Loc): Result<Nodes, Errno> {
    if l in nodes then
      if nodes[l] == Folder then Ok(nodes) else Err(NotDir)
    else if l == [] then Ok(nodes[l := Folder])
    else
      match MkdirAll(nodes, Parent(l))
      case Err(e) => Err(e)
      case Ok(n) => Ok(n[l := Folder])
  }

  /** What a file holds after writing from its start without truncation: a longer file keeps its tail. */
  function Overlay(before: Bytes, data: Bytes): Bytes {
    if |before| <= |data| then data else data + before[|data|..]
  }

  /** Opening a file for writing, creating it when absent, and writing `data` from its start. Writing to
      a link leaves the modelled nodes as they are. */
  function Write(nodes: Nodes, l: Loc, data: Bytes, truncate: bool): Result<Nodes, Errno> {
    if l in nodes then
      match nodes[l]
      case File(before) => Ok(nodes[l := File(if truncate then data else Overlay(before, data))])
      case Folder => Err(IsDir)
      case Link(_) => Ok(nodes)
    else if l != [] && IsFolder(nodes, Parent(l)) then Ok(nodes[l := File(data)])
    else Err(NotExist)
  }

  /** `os.Symlink` and `os.Link` create a new entry in an existing directory. */
  function Create(nodes: Nodes, l: Loc, node: Node): Result<Nodes, Errno> {
    if l in nodes then Err(Exist)
    else if l != [] && IsFolder(nodes, Parent(l)) then Ok(nodes[l := node])
    else Err(NotExist)
  }

  /** `os.Link` to a file; the copy shares the content at the time of linking. */
  function HardLink(nodes: Nodes, from: Loc, l: Loc): Result<Nodes, Errno> {
    match Lstat(nodes, from)
    case Err(e) => Err(e)
    case Ok(Folder) => Err(IsDir)
    case Ok(node) => Create(nodes, l, node)
  }

  /** `os.Remove`: a file, a link, or an empty folder. */
  function Remove(nodes: Nodes, l: Loc): Result<Nodes, Errno> {
    if l !in nodes then Err(NotExist)
    else if l == [] || exists m | m in nodes :: l < m then Err(IsDir)
    else Ok(nodes - {l})
  }

  /** What is not a folder can be removed. */
  lemma RemoveSucceeds(nodes: Nodes, l: Loc)
    requires Rooted(nodes)
    ensures l in nodes && nodes[l] != Folder ==> Remove(nodes, l).Ok?
  {
    forall m | m in nodes && l < m ensures IsFolder(nodes, l) {
      AboveIsFolder(nodes, m, l);
    }
  }

  /** No node outside `base` differs between the two. */
  ghost predicate SameOutside(base: Loc, before: Nodes, after: Nodes) {
    forall l: Loc | !(base <= l) :: (l in before <==> l in after) && (l in before ==> before[l] == after[l])
  }

  /** `MkdirAll` changes nothing but the missing folders on the way. */
  lemma {:induction false} MkdirAllAdds(nodes: Nodes, l: Loc)
    requires MkdirAll(nodes, l).Ok?
    ensures
      var after := MkdirAll(nodes, l).value;
      && IsFolder(after, l)
      && (forall m | m in nodes :: m in after && after[m] == nodes[m])
      && (forall m | m in after && m !in nodes :: m <= l && after[m] == Folder)
  {
    if l !in nodes && l != [] {
      MkdirAllAdds(nodes, Parent(l));
      assert Parent(l) <= l;
    }
  }

  lemma {:induction false} MkdirAllRooted(nodes: Nodes, l: Loc)
    requires Rooted(nodes) && MkdirAll(nodes, l).Ok?
    ensures Rooted(MkdirAll(nodes, l).value)
  {
    if l !in nodes {
      MkdirAllRooted(nodes, Parent(l));
      MkdirAllAdds(nodes, Parent(l));
    }
  }

  /** `MkdirAll` succeeds exactly when nothing but folders is in the way. */
  lemma {:induction false} MkdirAllSucceeds(nodes: Nodes, l: Loc)
    requires Rooted(nodes)
    ensures MkdirAll(nodes, l).Ok? <==> forall k | 0 <= k <= |l| && l[..k] in nodes :: nodes[l[..k]] == Folder
  {
    if l in nodes {
      assert l[..|l|] == l;
      forall k | 0 <= k < |l| ensures IsFolder(nodes, l[..k]) {
        RootedAbove(nodes, l, k);
      }
    } else {
      MkdirAllSucceeds(nodes, Parent(l));
      assert forall k | 0 <= k < |l| :: Parent(l)[..k] == l[..k];
      assert l[..|l|] == l;
    }
  }

  lemma WriteKeepsRooted(nodes: Nodes, l: Loc, data: Bytes, truncate: bool)
    requires Rooted(nodes) && Write(nodes, l, data, truncate).Ok?
    ensures Rooted(Write(nodes, l, data, truncate).value)
  {
  }

  /** Writing verified content without truncation leaves exactly that content if and only if the file
      was not longer. */
  lemma OverlayExact(before: Bytes, data: Bytes)
    ensures Overlay(before, data) == data <==> |before| <= |data|
  {
  }

  /** The file system object the archive and store code calls. */
  class FileSystem {
    const cwd: string
    var nodes: Nodes

    ghost predicate Valid()
      reads this
    {
      IsAbs(cwd) && Rooted(nodes) && PlainNames(nodes)
    }

    constructor (cwd: string, nodes: Nodes)
      requires IsAbs(cwd) && Rooted(nodes) && PlainNames(nodes)
      ensures Valid() && this.cwd == cwd && this.nodes == nodes
    {
      this.cwd := cwd;
      this.nodes := nodes;
    }

    function At(path: string): Loc {
      Locate(cwd, path)
    }

    method Mkdirs(path: string) returns (ok: bool)
      requires Valid()
      modifies this
      ensures Valid()
      ensures ok <==> MkdirAll(old(nodes), At(path)).Ok?
      ensures nodes == if ok then MkdirAll(old(nodes), At(path)).value else old(nodes)
    {
      var r := MkdirAll(nodes, At(path));
      if r.Err? {
        return false;
      }
      MkdirAllRooted(nodes, At(path));
      MkdirAllAdds(nodes, At(path));
      LocatePlain(cwd, path);
      PlainAdded(nodes, r.value, At(path));
      nodes := r.value;
      return true;
    }

    method WriteFile(path: string, data: Bytes, truncate: bool) returns (ok: bool)
      requires Valid()
      modifies this
      ensures Valid()
      ensures ok <==> Write(old(nodes), At(path), data, truncate).Ok?
      ensures nodes == if ok then Write(old(nodes), At(path), data, truncate).value else old(nodes)
    {
      var r := Write(nodes, At(path), data, truncate);
      if r.Err? {
        return false;
      }
      LocatePlain(cwd, path);
      PlainAdded(nodes, r.value, At(path));
      nodes := r.value;
      return true;
    }

    method Symlink(target: string, path: string) returns (ok: bool)
      requires Valid()
      modifies this
      ensures Valid()
      ensures ok <==> Create(old(nodes), At(path), Link(target)).Ok?
      ensures nodes == if ok then Create(old(nodes), At(path), Link(target)).value else old(nodes)
    {
      var r := Create(nodes, At(path), Link(target));
      if r.Err? {
        return false;
      }
      LocatePlain(cwd, path);
      PlainAdded(nodes, r.value, At(path));
      nodes := r.value;
      return true;
    }

    method LinkFile(target: string, path: string) returns (ok: bool)
      requires Valid()
      modifies this
      ensures Valid()
      ensures ok <==> HardLink(old(nodes), At(target), At(path)).Ok?
      ensures nodes == if ok then HardLink(old(nodes), At(target), At(path)).value else old(nodes)
    {
      var r := HardLink(nodes, At(target), At(path));
      if r.Err? {
        return false;
      }
      LocatePlain(cwd, path);
      PlainAdded(nodes, r.value, At(path));
      nodes := r.value;
      return true;
    }

    /** `os.CreateTemp`, given the name it chooses. */
    method CreateTemp(path: string) returns (ok: bool)
      requires Valid()
      modifies this
      ensures Valid()
      ensures ok <==> Create(old(nodes), At(path), File([])).Ok?
      ensures nodes == if ok then Create(old(nodes), At(path), File([])).value else old(nodes)
    {
      var r := Create(nodes, At(path), File([]));
      if r.Err? {
        return false;
      }
      LocatePlain(cwd, path);
      PlainAdded(nodes, r.value, At(path));
      nodes := r.value;
      return true;
    }

    method RemoveFile(path: string) returns (ok: bool)
      requires Valid()
      modifies this
      ensures Valid()
      ensures ok <==> Remove(old(nodes), At(path)).Ok?
      ensures nodes == if ok then Remove(old(nodes), At(path)).value else old(nodes)
    {
      var r := Remove(nodes, At(path));
      if r.Err? {
        return false;
      }
      nodes := r.value;
      return true;
    }
  }
}
