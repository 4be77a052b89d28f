/** Directory archives: `tarDirectory` and `extractTarDirectory`. An archive is its sequence of headers. */
module Archive {
  import opened GoStrings
  import opened Paths
  import opened Disk

  datatype Kind = Regular | Directory | HardLinkEntry | SymLinkEntry | Special

  datatype Header = Header(name: string, kind: Kind, link: string, data: Bytes)

  /** A stream that ends early, or is not an archive, fails after its last readable header. */
  datatype Stream = Stream(headers: seq<Header>, torn: bool)

  // ---- Extraction ----

  /** No strict ancestor of `root + comps` below `root` is a link or cannot be examined. */
  ghost predicate Clear(nodes: Nodes, root: Loc, comps: seq<string>) {
    forall k | 0 < k < |comps| :: PassesAt(nodes, root, comps, k)
  }

  ghost predicate PassesAt(nodes: Nodes, root: Loc, comps: seq<string>, k: nat)
    requires k <= |comps|
  {
    Passes(Lstat(nodes, root + comps[..k]))
  }

  predicate Passes(info: Result<Node, Errno>) {
    match info
    case Ok(node) => !node.Link?
    case Err(e) => e == NotExist
  }

  /** The target's path relative to the base, when it stays in the base and meets no link below `root`. */
  ghost function CheckPath(nodes: Nodes, cwd: string, root: string, base: string, target: string): Option<string> {
    match Rel(base, target)
    case None => None
    case Some(path) =>
      if ClimbsOut(path) || !Clear(nodes, Locate(cwd, root), Parse(path).comps) then None else Some(path)
  }

  /** A checked path is made of plain names. */
  lemma CheckedPath(base: string, target: string)
    requires Rel(base, target).Some? && !ClimbsOut(Rel(base, target).value)
    ensures
      var path := Rel(base, target).value;
      AllPlain(Parse(path).comps) && path == RelPath(Parse(path).comps)
  {
    var path := Rel(base, target).value;
    RelIsRelative(base, target);
    ParseNormal(path);
    var p := Parse(path);
    assert path == Show(p) && !p.rooted;
    ClimbsOutComps(p);
    if p.comps != [] {
      NormalParts(p, 0);
    }
    forall c | c in p.comps ensures Plain(c) {}
  }

  method EnsureBasePath(fs: FileSystem, root: string, base: string, target: string) returns (r: Option<string>)
    requires fs.Valid()
    ensures r == CheckPath(fs.nodes, fs.cwd, root, base, target)
  {
    var rel := Rel(base, target);
    if rel.None? {
      return None;
    }
    var path := rel.value;
    RelIsRelative(base, target);
    var cleanPath := Clean(path);
    if cleanPath == ".." || HasPrefix(cleanPath, "../") {
      return None;
    }
    CheckedPath(base, target);
    var clear := WalkAncestors(fs, root, path, Parse(path).comps);
    if !clear {
      return None;
    }
    return Some(path);
  }

  /** The loop of `ensureBasePath`: from the parent of a relative path up to the base itself. */
  method WalkAncestors(fs: FileSystem, root: string, path: string, ghost comps: seq<string>) returns (ok: bool)
    requires fs.Valid()
    requires AllPlain(comps) && path == RelPath(comps)
    ensures ok <==> Clear(fs.nodes, Locate(fs.cwd, root), comps)
  {
    hide Dir, Show, Parse, Locate, JoinPath, Lstat;
    var dir := Dir(path);
    ghost var m := if comps == [] then 0 else |comps| - 1;
    assert comps[..|comps|] == comps;
    DirStep(comps, |comps|);
    while dir != "."
      invariant 0 <= m <= |comps| && dir == RelPath(comps[..m]) && (dir == "." <==> m == 0)
      invariant Clear(fs.nodes, Locate(fs.cwd, root), comps)
           <==> ClearBelow(fs.nodes, Locate(fs.cwd, root), comps, m)
      decreases m
    {
      var info := Lstat(fs.nodes, Locate(fs.cwd, JoinPath(root, dir)));
      WalkStep(fs.nodes, fs.cwd, root, comps, m, dir);
      if !Passes(info) {
        return false;
      }
      DirStep(comps, m);
      dir := Dir(dir);
      m := m - 1;
    }
    return true;
  }

  /** What is left to examine when the walk has come up to the first m names. */
  ghost predicate ClearBelow(nodes: Nodes, root: Loc, comps: seq<string>, m: nat)
    requires m <= |comps|
  {
    forall k | 0 < k <= m :: PassesAt(nodes, root, comps, k)
  }

  lemma WalkStep(nodes: Nodes, cwd: string, root: string, comps: seq<string>, m: nat, dir: string)
    requires AllPlain(comps) && 0 < m <= |comps| && dir == RelPath(comps[..m])
    ensures
      var passes := Passes(Lstat(nodes, Locate(cwd, JoinPath(root, dir))));
      ClearBelow(nodes, Locate(cwd, root), comps, m)
      <==> passes && ClearBelow(nodes, Locate(cwd, root), comps, m - 1)
  {
    LocateJoin(cwd, root, comps[..m]);
    assert PassesAt(nodes, Locate(cwd, root), comps, m) <==> Passes(Lstat(nodes, Locate(cwd, JoinPath(root, dir))));
  }

  /** One turn of the walk: the parent of the first m names is the first m - 1, and a dot ends it. */
  lemma DirStep(comps: seq<string>, m: nat)
    requires AllPlain(comps) && m <= |comps|
    ensures
      var up := if m == 0 then 0 else m - 1;
      && Dir(RelPath(comps[..m])) == RelPath(comps[..up])
      && (RelPath(comps[..up]) == "." <==> up == 0)
  {
    var up := if m == 0 then 0 else m - 1;
    assert AllPlain(comps[..m]) && AllPlain(comps[..up]);
    DirOf(comps[..m]);
    assert comps[..m][..up] == comps[..up];
    RelPathDot(comps[..up]);
  }

  /** Only the base itself is shown as a dot. */
  lemma RelPathDot(comps: seq<string>)
    requires AllPlain(comps)
    ensures RelPath(comps) == "." <==> comps == []
  {
    ParseRelPath(comps);
    ParseRelPath([]);
  }

  lemma DirOf(comps: seq<string>)
    requires AllPlain(comps)
    ensures Dir(RelPath(comps)) == RelPath(comps[..if comps == [] then 0 else |comps| - 1])
  {
    if comps == [] {
      assert comps[..0] == [];
      assert UpToSlash(".") == "" by { assert "."[..0] == ""; }
      assert Split("", '/') == [""];
    } else {
      DirPlain(comps);
    }
  }

  ghost function CheckLink(nodes: Nodes, cwd: string, dir: string, prefix: string, path: string, link: string): bool {
    var target := if IsAbs(link) then link else JoinPath(Dir(path), link);
    CheckPath(nodes, cwd, dir, prefix, target).Some?
  }

  method EnsureLinkPath(fs: FileSystem, root: string, base: string, link: string, target: string)
    returns (r: Option<string>)
    requires fs.Valid()
    ensures r == if CheckLink(fs.nodes, fs.cwd, root, base, link, target) then Some(target) else None
  {
    var path := target;
    if !IsAbs(target) {
      path := JoinPath(Dir(link), target);
    }
    var checked := EnsureBasePath(fs, root, base, path);
    if checked.None? {
      return None;
    }
    return Some(target);
  }

  /** What one header does: the nodes afterwards, or none when extraction stops with an error. */
  ghost function ExtractOne(nodes: Nodes, cwd: string, dir: string, prefix: string, h: Header): Option<Nodes> {
    match CheckPath(nodes, cwd, dir, prefix, h.name)
    case None => None
    case Some(rel) =>
      var path := JoinPath(dir, rel);
      var at := Locate(cwd, path);
      match h.kind
      case Regular => Succeeded(Write(nodes, at, h.data, true))
      case Directory => Succeeded(MkdirAll(nodes, at))
      case HardLinkEntry =>
        if CheckLink(nodes, cwd, dir, prefix, path, h.link) then Succeeded(HardLink(nodes, Locate(cwd, h.link), at))
        else None
      case SymLinkEntry =>
        if CheckLink(nodes, cwd, dir, prefix, path, h.link) then Succeeded(Create(nodes, at, Link(h.link)))
        else None
      case Special => Some(nodes)
  }

  function Succeeded(r: Result<Nodes, Errno>): Option<Nodes> {
    match r
    case Ok(n) => Some(n)
    case Err(_) => None
  }

  datatype Extracted = Extracted(nodes: Nodes, ok: bool)

  /** The headers in order, up to the first that fails. */
  ghost function Extract(nodes: Nodes, cwd: string, dir: string, prefix: string, headers: seq<Header>): Extracted
    decreases |headers|
  {
    if headers == [] then Extracted(nodes, true)
    else
      match ExtractOne(nodes, cwd, dir, prefix, headers[0])
      case None => Extracted(nodes, false)
      case Some(n) => Extract(n, cwd, dir, prefix, headers[1..])
  }

  method ExtractTarDirectory(fs: FileSystem, dir: string, prefix: string, r: Stream) returns (ok: bool)
    requires fs.Valid()
    modifies fs
    ensures fs.Valid()
    ensures
      var e := Extract(old(fs.nodes), fs.cwd, dir, prefix, r.headers);
      fs.nodes == e.nodes && ok == (e.ok && !r.torn)
  {
    ghost var before := fs.nodes;
    var i := 0;
    assert r.headers[0..] == r.headers;
    while i < |r.headers|
      invariant 0 <= i <= |r.headers|
      invariant fs.Valid()
      invariant Extract(before, fs.cwd, dir, prefix, r.headers)
             == Extract(fs.nodes, fs.cwd, dir, prefix, r.headers[i..])
    {
      var header := r.headers[i];
      assert r.headers[i..][0] == header && r.headers[i..][1..] == r.headers[i + 1..];
      i := i + 1;
      var checked := EnsureBasePath(fs, dir, prefix, header.name);
      if checked.None? {
        return false;
      }
      var path := JoinPath(dir, checked.value);
      var done := true;
      match header.kind {
        case Regular =>
          done := fs.WriteFile(path, header.data, true);
        case Directory =>
          done := fs.Mkdirs(path);
        case HardLinkEntry =>
          var target := EnsureLinkPath(fs, dir, prefix, path, header.link);
          if target.None? {
            return false;
          }
          done := fs.LinkFile(target.value, path);
        case SymLinkEntry =>
          var target := EnsureLinkPath(fs, dir, prefix, path, header.link);
          if target.None? {
            return false;
          }
          done := fs.Symlink(target.value, path);
        case Special =>
          continue;
      }
      if !done {
        return false;
      }
    }
    return !r.torn;
  }
}
