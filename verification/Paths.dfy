/** Go's `path/filepath` on Unix, as documented: Clean, Join, Rel, Dir and IsAbs, on strings, together with
    the view of a cleaned path as a list of components. */
module Paths {
  import opened GoStrings

  /** A cleaned path. */
  datatype Path = Path(rooted: bool, comps: seq<string>)

  predicate IsAbs(s: string) {
    s != "" && s[0] == '/'
  }

  /** One component met while cleaning: `.` and empty ones go, `..` undoes the component before it. */
  function PushComp(rooted: bool, stack: seq<string>, c: string): seq<string> {
    if c == "" || c == "." then stack
    else if c == ".." then
      if stack != [] && stack[|stack| - 1] != ".." then stack[..|stack| - 1]
      else if rooted then stack
      else stack + [c]
    else stack + [c]
  }

  function Fold(rooted: bool, stack: seq<string>, comps: seq<string>): seq<string>
    decreases |comps|
  {
    if comps == [] then stack else Fold(rooted, PushComp(rooted, stack, comps[0]), comps[1..])
  }

  function Parse(s: string): Path {
    Path(IsAbs(s), Fold(IsAbs(s), [], Split(s, '/')))
  }

  function Show(p: Path): string {
    if p.rooted then "/" + Join(p.comps, '/')
    else if p.comps == [] then "."
    else Join(p.comps, '/')
  }

  function Clean(s: string): string {
    Show(Parse(s))
  }

  /** `filepath.Join` of two elements: empty ones are skipped, the result is cleaned. */
  function JoinPath(a: string, b: string): string {
    if a != "" then Clean(a + "/" + b)
    else if b != "" then Clean(b)
    else ""
  }

  /** Everything up to and including the last slash. */
  function UpToSlash(s: string): string {
    if s == "" then ""
    else if s[|s| - 1] == '/' then s
    else UpToSlash(s[..|s| - 1])
  }

  function Dir(s: string): string {
    Clean(UpToSlash(s))
  }

  /** The length of the longest common prefix. */
  function Common(a: seq<string>, b: seq<string>): (n: nat)
    ensures n <= |a| && n <= |b|
    ensures a[..n] == b[..n]
    ensures n == |a| || n == |b| || a[n] != b[n]
  {
    if a != [] && b != [] && a[0] == b[0] then 1 + Common(a[1..], b[1..]) else 0
  }

  function Ups(n: nat): seq<string> {
    seq(n, _ => "..")
  }

  /** `filepath.Rel`: fails when exactly one path is absolute, or when the base climbs out of a directory
      whose name is not known. */
  function Rel(base: string, target: string): Option<string> {
    var b, t := Parse(base), Parse(target);
    var n := Common(b.comps, t.comps);
    if b.rooted != t.rooted || (n < |b.comps| && b.comps[n] == "..") then None
    else Some(Show(Path(false, Ups(|b.comps| - n) + t.comps[n..])))
  }

  /** `filepath.Abs` for a process whose working directory is `cwd`. */
  function Abs(cwd: string, s: string): string {
    if IsAbs(s) then Clean(s) else JoinPath(cwd, s)
  }

  // ---- Cleaned component lists ----

  predicate Plain(c: string) {
    c != "" && c != "." && c != ".." && '/' !in c
  }

  /** What cleaning leaves: plain names, after leading `..` when the path is relative. */
  predicate Normal(p: Path) {
    forall i | 0 <= i < |p.comps| ::
      Plain(p.comps[i]) || (!p.rooted && p.comps[i] == ".." && (i == 0 || p.comps[i - 1] == ".."))
  }

  lemma {:induction false} FoldConcat(rooted: bool, stack: seq<string>, a: seq<string>, b: seq<string>)
    ensures Fold(rooted, stack, a + b) == Fold(rooted, Fold(rooted, stack, a), b)
    decreases |a|
  {
    if a == [] {
      assert a + b == b;
    } else {
      FoldConcat(rooted, PushComp(rooted, stack, a[0]), a[1..], b);
      assert (a + b)[0] == a[0] && (a + b)[1..] == a[1..] + b;
    }
  }

  lemma {:induction false} FoldNormal(rooted: bool, stack: seq<string>, comps: seq<string>)
    requires Normal(Path(rooted, stack))
    requires forall c | c in comps :: '/' !in c
    ensures Normal(Path(rooted, Fold(rooted, stack, comps)))
    decreases |comps|
  {
    if comps != [] {
      FoldNormal(rooted, PushComp(rooted, stack, comps[0]), comps[1..]);
    }
  }

  lemma ParseNormal(s: string)
    ensures Normal(Parse(s))
  {
    FoldNormal(IsAbs(s), [], Split(s, '/'));
  }

  /** Folding a normal list onto its own beginning just completes it. */
  lemma {:induction false} FoldRest(rooted: bool, comps: seq<string>, n: nat)
    requires n <= |comps| && Normal(Path(rooted, comps))
    ensures Fold(rooted, comps[..n], comps[n..]) == comps
    decreases |comps| - n
  {
    if n < |comps| {
      assert comps[n..][0] == comps[n] && comps[n..][1..] == comps[n + 1..];
      assert PushComp(rooted, comps[..n], comps[n]) == comps[..n] + [comps[n]] == comps[..n + 1];
      FoldRest(rooted, comps, n + 1);
    } else {
      assert comps[..n] == comps;
    }
  }

  lemma {:induction false} FoldPlain(rooted: bool, stack: seq<string>, comps: seq<string>)
    requires forall c | c in comps :: Plain(c)
    ensures Fold(rooted, stack, comps) == stack + comps
    decreases |comps|
  {
    if comps != [] {
      assert comps[0] in comps;
      FoldPlain(rooted, PushComp(rooted, stack, comps[0]), comps[1..]);
      assert stack + [comps[0]] + comps[1..] == stack + comps;
    } else {
      assert stack + comps == stack;
    }
  }

  /** `..` components climb out of plain ones. */
  lemma {:induction false} FoldUps(rooted: bool, stack: seq<string>, n: nat)
    requires n <= |stack|
    requires forall i | |stack| - n <= i < |stack| :: stack[i] != ".."
    ensures Fold(rooted, stack, Ups(n)) == stack[..|stack| - n]
  {
    if n > 0 {
      assert Ups(n)[1..] == Ups(n - 1);
      var shorter := stack[..|stack| - 1];
      FoldUps(rooted, shorter, n - 1);
      assert shorter[..|shorter| - (n - 1)] == stack[..|stack| - n];
    } else {
      assert stack[..|stack|] == stack;
    }
  }

  lemma JoinStart(comps: seq<string>)
    requires |comps| > 0 && comps[0] != "" && '/' !in comps[0]
    ensures !IsAbs(Join(comps, '/'))
  {
    assert comps[0][0] in comps[0];
  }

  /** Folding what a shown path splits into gives its components back. */
  lemma FoldSplitShown(p: Path)
    requires Normal(p) && p.comps != []
    ensures Fold(p.rooted, [], Split(Show(p), '/')) == p.comps
  {
    hide Split, Join;
    var body := Join(p.comps, '/');
    assert Split(body, '/') == p.comps by {
      forall c | c in p.comps ensures '/' !in c {}
      SplitJoin(p.comps, '/');
    }
    assert Fold(p.rooted, [], p.comps) == p.comps by {
      hide Fold;
      FoldRest(p.rooted, p.comps, 0);
      assert p.comps[..0] == [] && p.comps[0..] == p.comps;
    }
    if p.rooted {
      hide Normal;
      assert Show(p) == "" + ['/'] + body;
      SplitConcat("", body, '/');
      SplitNone("", '/');
      assert ([""] + p.comps)[1..] == p.comps;
    }
  }

  /** Parsing what was shown: a cleaned path means itself. */
  lemma ParseShow(p: Path)
    requires Normal(p)
    ensures Parse(Show(p)) == p
  {
    if p.comps != [] {
      hide Join, Fold, Split;
      FoldSplitShown(p);
      JoinStart(p.comps);
    } else if p.rooted {
      assert Show(p) == "" + ['/'] + "";
      SplitConcat("", "", '/');
      assert ["", ""][1..] == [""];
      assert Fold(true, [], ["", ""]) == [];
    } else {
      SplitNone(".", '/');
    }
  }

  /** Joining: the second path's components are folded onto the first's. */
  lemma ParseJoin(a: string, b: string)
    ensures a != "" ==> Parse(JoinPath(a, b)) == Path(IsAbs(a), Fold(IsAbs(a), Parse(a).comps, Split(b, '/')))
    ensures a == "" && b != "" ==> Parse(JoinPath(a, b)) == Parse(b)
  {
    if a != "" {
      var s := a + "/" + b;
      assert s == a + ['/'] + b;
      SplitConcat(a, b, '/');
      FoldConcat(IsAbs(a), [], Split(a, '/'), Split(b, '/'));
      ParseNormal(s);
      ParseShow(Parse(s));
    } else if b != "" {
      ParseNormal(b);
      ParseShow(Parse(b));
    }
  }

  lemma CleanIdempotent(s: string)
    ensures Clean(Clean(s)) == Clean(s) && Parse(Clean(s)) == Parse(s)
  {
    ParseNormal(s);
    ParseShow(Parse(s));
  }

  // ---- Rel ----

  lemma NormalParts(p: Path, n: nat)
    requires Normal(p) && n <= |p.comps|
    ensures Normal(Path(p.rooted, p.comps[..n]))
    ensures n < |p.comps| && p.comps[n] != ".." ==> forall i | n <= i < |p.comps| :: Plain(p.comps[i])
  {
    if n < |p.comps| && p.comps[n] != ".." {
      for i := n to |p.comps|
        invariant forall j | n <= j < i :: Plain(p.comps[j])
      {
        assert i > n ==> Plain(p.comps[i - 1]);
      }
    }
  }

  /** The components `Rel` returns, and that they are already clean. */
  function RelComps(b: Path, t: Path): seq<string> {
    var n := Common(b.comps, t.comps);
    Ups(|b.comps| - n) + t.comps[n..]
  }

  lemma RelNormal(b: Path, t: Path)
    requires Normal(b) && Normal(t)
    requires var n := Common(b.comps, t.comps); n < |b.comps| ==> b.comps[n] != ".."
    ensures Normal(Path(false, RelComps(b, t)))
  {
    var n := Common(b.comps, t.comps);
    var ups := |b.comps| - n;
    var p := Path(false, RelComps(b, t));
    forall i | 0 <= i < |p.comps|
      ensures Plain(p.comps[i]) || (p.comps[i] == ".." && (i == 0 || p.comps[i - 1] == ".."))
    {
      if i > ups {
        assert p.comps[i] == t.comps[i - ups + n] && p.comps[i - 1] == t.comps[i - ups + n - 1];
      } else if i == ups {
        assert p.comps[i] == t.comps[n];
      }
    }
  }

  lemma RelParse(base: string, target: string)
    requires Rel(base, target).Some?
    ensures Parse(Rel(base, target).value) == Path(false, RelComps(Parse(base), Parse(target)))
    ensures Normal(Path(false, RelComps(Parse(base), Parse(target))))
  {
    ParseNormal(base);
    ParseNormal(target);
    RelNormal(Parse(base), Parse(target));
    ParseShow(Path(false, RelComps(Parse(base), Parse(target))));
  }

  /** `Rel` never yields an absolute path. */
  lemma RelIsRelative(base: string, target: string)
    requires Rel(base, target).Some?
    ensures !IsAbs(Rel(base, target).value) && Clean(Rel(base, target).value) == Rel(base, target).value
  {
    RelParse(base, target);
  }

  /** Climbing out of the base's own components and down the target's own ones. */
  lemma FoldRelComps(b: Path, t: Path)
    requires Normal(b) && Normal(t) && b.rooted == t.rooted
    requires var n := Common(b.comps, t.comps); n < |b.comps| ==> b.comps[n] != ".."
    ensures Fold(b.rooted, b.comps, RelComps(b, t)) == t.comps
  {
    hide Fold, Common, Ups;
    var n := Common(b.comps, t.comps);
    FoldConcat(b.rooted, b.comps, Ups(|b.comps| - n), t.comps[n..]);
    NormalParts(b, n);
    FoldUps(b.rooted, b.comps, |b.comps| - n);
    FoldRest(b.rooted, t.comps, n);
  }

  /** A joined path is clean. */
  lemma JoinClean(a: string, b: string)
    requires a != "" || b != ""
    ensures JoinPath(a, b) == Show(Parse(JoinPath(a, b)))
  {
    hide Parse, Show;
    CleanIdempotent(a + "/" + b);
    CleanIdempotent(b);
  }

  lemma ParseEmpty()
    ensures Parse("") == Path(false, [])
  {
    assert Split("", '/') == [""];
  }

  /** Following the relative path from the base arrives at the target. */
  lemma JoinRel(base: string, target: string)
    requires Rel(base, target).Some?
    ensures JoinPath(base, Rel(base, target).value) == Clean(target)
  {
    hide Parse, Show, Fold, Split, Common, Normal, JoinPath, Ups;
    var b, t := Parse(base), Parse(target);
    var rel := Rel(base, target).value;
    var p := Path(false, RelComps(b, t));
    ParseNormal(base);
    ParseNormal(target);
    ParseRooted(base);
    RelParse(base, target);
    ShownNotEmpty(p);
    JoinClean(base, rel);
    ParseJoin(base, rel);
    if base == "" {
      ParseEmpty();
      RelFromEmpty(t);
    } else {
      FoldShown(b.rooted, b.comps, p);
      FoldRelComps(b, t);
    }
  }

  lemma ParseRooted(s: string)
    ensures Parse(s).rooted == IsAbs(s)
  {
  }

  lemma RelFromEmpty(t: Path)
    ensures RelComps(Path(false, []), t) == t.comps
  {
  }

  lemma ShownNotEmpty(p: Path)
    requires Normal(p)
    ensures Show(p) != ""
  {
    if !p.rooted && p.comps != [] {
      assert p.comps[0] != "";
    }
  }

  /** The parts of a shown relative path are its components, or a single dot. */
  lemma ShowSplit(p: Path)
    requires Normal(p) && !p.rooted
    ensures Split(Show(p), '/') == if p.comps == [] then ["."] else p.comps
  {
    if p.comps == [] {
      SplitNone(".", '/');
    } else {
      SplitJoin(p.comps, '/');
    }
  }

  lemma FoldShown(rooted: bool, stack: seq<string>, p: Path)
    requires Normal(p) && !p.rooted
    ensures Fold(rooted, stack, Split(Show(p), '/')) == Fold(rooted, stack, p.comps)
  {
    ShowSplit(p);
    if p.comps == [] {
      assert ["."][1..] == [];
    }
  }

  /** The containment test made on the text of a relative path. */
  predicate ClimbsOut(rel: string) {
    HasPrefix(rel, "../") || rel == ".."
  }

  /** The test on the text is the test on the first component, so `..foo` does not count. */
  lemma ClimbsOutComps(p: Path)
    requires Normal(p) && !p.rooted
    ensures ClimbsOut(Show(p)) <==> p.comps != [] && p.comps[0] == ".."
  {
    if p.comps != [] {
      var c := p.comps[0];
      var s := Show(p);
      if |p.comps| == 1 {
        assert s == c && '/' !in c;
        assert |s| > 2 ==> s[2] in s;
        assert "../"[2] == '/';
      } else {
        assert s == c + ['/'] + Join(p.comps[1..], '/');
        assert s[|c|] == '/';
        if ClimbsOut(s) {
          FirstSlash(c, s);
        }
        if c == ".." {
          assert s[..3] == "../";
        }
      }
    }
  }

  lemma FirstSlash(c: string, s: string)
    requires '/' !in c && |c| < |s| && s[..|c|] == c && s[|c|] == '/'
    requires HasPrefix(s, "../") || s == ".."
    ensures c == ".."
  {
    assert forall i | 0 <= i < |c| :: s[i] == c[i] && c[i] in c;
    assert |s| > 2 ==> s[2] == "../"[2];
    assert |c| == 2;
  }

  /** The relative path stays inside exactly when the base's components begin the target's. */
  lemma RelInside(base: string, target: string)
    ensures Rel(base, target).Some? && !ClimbsOut(Rel(base, target).value)
       <==> Parse(base).rooted == Parse(target).rooted && Inside(Parse(base).comps, Parse(target).comps)
  {
    hide Show, Parse, ClimbsOut, Common, Normal, Ups;
    var b, t := Parse(base), Parse(target);
    ParseNormal(base);
    ParseNormal(target);
    RelCompsInside(b, t);
    if Rel(base, target).Some? {
      RelParse(base, target);
      ClimbsOutComps(Path(false, RelComps(b, t)));
    }
  }

  /** The components of the relative path begin with `..` unless the base's components begin the target's. */
  lemma RelCompsInside(b: Path, t: Path)
    requires Normal(b) && Normal(t)
    ensures
      var n := Common(b.comps, t.comps);
      var rel := RelComps(b, t);
      && (rel == [] || rel[0] != ".." <==> Inside(b.comps, t.comps))
      && (n < |b.comps| && b.comps[n] == ".." ==> !Inside(b.comps, t.comps))
  {
    var n := Common(b.comps, t.comps);
    if n == |b.comps| {
      assert b.comps[..n] == b.comps;
      assert RelComps(b, t) == t.comps[n..];
    } else {
      assert RelComps(b, t)[0] == "..";
    }
  }

  /** Component-wise containment that does not climb: the base's components begin the target's, and what
      follows does not start with `..`. */
  predicate Inside(base: seq<string>, target: seq<string>) {
    base <= target && (|base| < |target| ==> target[|base|] != "..")
  }

  /** Below an absolute base nothing climbs, so containment is being a prefix. */
  lemma InsideRooted(b: Path, t: Path)
    requires Normal(b) && Normal(t) && b.rooted && t.rooted
    ensures Inside(b.comps, t.comps) <==> b.comps <= t.comps
  {
  }

  // ---- Paths below a directory ----

  ghost predicate AllPlain(comps: seq<string>) {
    forall c | c in comps :: Plain(c)
  }

  /** The relative path with the given names. */
  function RelPath(comps: seq<string>): string {
    Show(Path(false, comps))
  }

  lemma PlainNormal(p: Path, comps: seq<string>)
    requires Normal(p) && AllPlain(comps)
    ensures Normal(Path(p.rooted, p.comps + comps))
    ensures Normal(Path(false, comps))
  {
    forall i | 0 <= i < |comps| ensures Plain(comps[i]) {
      assert comps[i] in comps;
    }
    var all := p.comps + comps;
    forall i | 0 <= i < |all|
      ensures Plain(all[i]) || (!p.rooted && all[i] == ".." && (i == 0 || all[i - 1] == ".."))
    {
      if i < |p.comps| {
        assert all[i] == p.comps[i] && (i > 0 ==> all[i - 1] == p.comps[i - 1]);
      } else {
        assert all[i] == comps[i - |p.comps|];
      }
    }
  }

  lemma ParseRelPath(comps: seq<string>)
    requires AllPlain(comps)
    ensures Parse(RelPath(comps)) == Path(false, comps) && !ClimbsOut(RelPath(comps))
    ensures RelPath(comps) != "" && !IsAbs(RelPath(comps))
    ensures Clean(RelPath(comps)) == RelPath(comps)
  {
    PlainNormal(Path(false, []), comps);
    ParseShow(Path(false, comps));
    ClimbsOutComps(Path(false, comps));
    ShownNotEmpty(Path(false, comps));
    assert comps != [] ==> comps[0] in comps;
  }

  /** Joining plain names to any path appends them to its components. */
  lemma JoinPlain(a: string, comps: seq<string>)
    requires AllPlain(comps)
    ensures Parse(JoinPath(a, RelPath(comps))) == Path(Parse(a).rooted, Parse(a).comps + comps)
    ensures Clean(JoinPath(a, RelPath(comps))) == JoinPath(a, RelPath(comps))
    ensures JoinPath(a, RelPath(comps)) != ""
  {
    var rel := RelPath(comps);
    ParseRelPath(comps);
    ParseJoin(a, rel);
    ParseNormal(a);
    PlainNormal(Parse(a), comps);
    if a == "" {
      assert Parse("").comps == [] by { assert Split("", '/') == [""]; }
      assert [] + comps == comps;
      CleanIdempotent(rel);
    } else {
      FoldShown(IsAbs(a), Parse(a).comps, Path(false, comps));
      FoldPlain(IsAbs(a), Parse(a).comps, comps);
      CleanIdempotent(a + "/" + rel);
    }
    ShownNotEmpty(Path(Parse(a).rooted, Parse(a).comps + comps));
  }

  /** A path made by appending plain names is found again by `Rel`. */
  lemma RelPlain(base: string, target: string, comps: seq<string>)
    requires AllPlain(comps)
    requires Parse(target) == Path(Parse(base).rooted, Parse(base).comps + comps)
    ensures Rel(base, target) == Some(RelPath(comps))
  {
    var b, t := Parse(base).comps, Parse(target).comps;
    CommonPrefix(b, comps);
    assert Ups(0) + t[|b|..] == comps;
  }

  lemma {:induction false} CommonPrefix(a: seq<string>, b: seq<string>)
    ensures Common(a, a + b) == |a|
  {
    if a != [] {
      CommonPrefix(a[1..], b);
      assert (a + b)[1..] == a[1..] + b;
    }
  }

  lemma {:induction false} UpToSlashOf(s: string, name: string)
    requires '/' !in name
    ensures UpToSlash(s + ['/'] + name) == s + ['/']
    ensures UpToSlash(name) == ""
  {
    var whole := s + ['/'] + name;
    if name == "" {
      assert whole == s + ['/'];
    } else {
      var shorter := name[..|name| - 1];
      UpToSlashOf(s, shorter);
      assert whole[..|whole| - 1] == s + ['/'] + shorter;
      assert whole[|whole| - 1] == name[|name| - 1] && name[|name| - 1] in name;
    }
  }

  /** The directory of a cleaned path drops its last component. */
  lemma DirShown(p: Path)
    requires Normal(p) && p.comps != []
    ensures Dir(Show(p)) == Show(Path(p.rooted, p.comps[..|p.comps| - 1]))
  {
    hide Fold, Split, UpToSlash, Join;
    var front, last := p.comps[..|p.comps| - 1], p.comps[|p.comps| - 1];
    var q := Path(p.rooted, front);
    assert Normal(q) && '/' !in last && p.comps == front + [last];
    ParseShow(q);
    if front == [] {
      JoinOne(last);
      UpToSlashOf("", last);
      ParseEmpty();
      if p.rooted {
        assert Show(p) == "" + ['/'] + last && Show(q) == "" + ['/'] by { JoinNone(); }
      }
    } else {
      JoinSnoc(front, last, '/');
      JoinStart(front);
      assert Show(p) == Show(q) + ['/'] + last;
      UpToSlashOf(Show(q), last);
      ParseLast(Show(q), last);
      ShownNotEmpty(q);
      assert Parse(Show(q) + ['/']) == q;
    }
  }

  lemma JoinOne(x: string)
    ensures Join([x], '/') == x
  {
  }

  lemma JoinNone()
    ensures Join([], '/') == ""
  {
  }

  /** The directory of a path below a directory drops its last name. */
  lemma DirPlain(comps: seq<string>)
    requires AllPlain(comps) && comps != []
    ensures Dir(RelPath(comps)) == RelPath(comps[..|comps| - 1])
  {
    hide Dir, Show;
    PlainNormal(Path(false, []), comps);
    DirShown(Path(false, comps));
  }

  /** The directory of a name joined to a path is where the path leads. */
  lemma DirOfJoin(a: string, x: string)
    requires Plain(x)
    ensures Parse(Dir(JoinPath(a, x))) == Parse(a)
    ensures JoinPath(a, x) == Show(Path(Parse(a).rooted, Parse(a).comps + [x]))
  {
    hide Dir, Show, JoinPath, Parse;
    assert AllPlain([x]) && x != "";
    NameShown(x);
    JoinPlain(a, [x]);
    JoinClean(a, x);
    ParseNormal(a);
    PlainNormal(Parse(a), [x]);
    var p := Path(Parse(a).rooted, Parse(a).comps + [x]);
    assert p.comps[..|p.comps| - 1] == Parse(a).comps;
    DirShown(p);
    ParseShow(Parse(a));
  }

  lemma NameShown(name: string)
    ensures RelPath([name]) == name
  {
  }

  // ---- Locations ----

  /** Where a path lies, as names below the root, for a process working in `cwd`. */
  function Locate(cwd: string, s: string): seq<string> {
    if IsAbs(s) then Parse(s).comps else Fold(true, Parse(cwd).comps, Parse(s).comps)
  }

  lemma {:induction false} PushCleaned(stack: seq<string>, done: seq<string>, c: string)
    requires Normal(Path(false, done))
    ensures Fold(true, stack, PushComp(false, done, c)) == PushComp(true, Fold(true, stack, done), c)
  {
    if c == ".." && done != [] && done[|done| - 1] != ".." {
      var front, last := done[..|done| - 1], done[|done| - 1];
      var at := Fold(true, stack, front);
      assert done == front + [last];
      FoldConcat(true, stack, front, [last]);
      FoldOne(true, at, last);
      assert (at + [last])[..|at|] == at;
    } else if c != "" && c != "." {
      FoldConcat(true, stack, done, [c]);
      FoldOne(true, Fold(true, stack, done), c);
    }
  }

  lemma FoldOne(rooted: bool, stack: seq<string>, c: string)
    ensures Fold(rooted, stack, [c]) == PushComp(rooted, stack, c)
  {
    assert [c][1..] == [];
  }

  /** Cleaning a relative path first makes no difference to where it leads. */
  lemma {:induction false} FoldCleaned(stack: seq<string>, done: seq<string>, comps: seq<string>)
    requires Normal(Path(false, done)) && forall c | c in comps :: '/' !in c
    ensures Fold(true, stack, Fold(false, done, comps)) == Fold(true, Fold(true, stack, done), comps)
    decreases |comps|
  {
    if comps != [] {
      PushCleaned(stack, done, comps[0]);
      FoldCleaned(stack, PushComp(false, done, comps[0]), comps[1..]);
    }
  }

  /** `Abs` names the location of a path. */
  lemma AbsLocate(cwd: string, s: string)
    requires IsAbs(cwd)
    ensures Parse(Abs(cwd, s)) == Path(true, Locate(cwd, s))
  {
    if IsAbs(s) {
      CleanIdempotent(s);
    } else {
      ParseJoin(cwd, s);
      FoldCleaned(Parse(cwd).comps, [], Split(s, '/'));
    }
  }

  lemma LocatePlain(cwd: string, s: string)
    requires IsAbs(cwd)
    ensures AllPlain(Locate(cwd, s))
  {
    AbsLocate(cwd, s);
    ParseNormal(Abs(cwd, s));
    assert Normal(Path(true, Locate(cwd, s)));
  }

  /** Joining plain names to a path goes that far below its location. */
  lemma LocateJoin(cwd: string, dir: string, comps: seq<string>)
    requires AllPlain(comps)
    ensures Locate(cwd, JoinPath(dir, RelPath(comps))) == Locate(cwd, dir) + comps
  {
    var path := JoinPath(dir, RelPath(comps));
    JoinPlain(dir, comps);
    assert Parse(path).rooted == IsAbs(path);
    if !IsAbs(dir) {
      FoldConcat(true, Parse(cwd).comps, Parse(dir).comps, comps);
      FoldPlain(true, Locate(cwd, dir), comps);
    }
  }

  lemma {:induction false} UpToSlashSplits(s: string)
    ensures UpToSlash(s) <= s && '/' !in s[|UpToSlash(s)|..]
    ensures UpToSlash(s) != "" ==> UpToSlash(s)[|UpToSlash(s)| - 1] == '/'
  {
    if s != "" && s[|s| - 1] != '/' {
      UpToSlashSplits(s[..|s| - 1]);
      var up := UpToSlash(s);
      assert s[|up|..] == s[..|s| - 1][|up|..] + [s[|s| - 1]];
    }
  }

  /** What a path, and the part before its last slash, parse to. */
  lemma ParseLast(q: string, last: string)
    requires '/' !in last
    ensures
      var r := IsAbs(q + ['/']);
      var done := Fold(r, [], Split(q, '/'));
      && Parse(q + ['/']) == Path(r, done)
      && Parse(q + ['/'] + last) == Path(r, PushComp(r, done, last))
      && Normal(Path(r, done))
  {
    var up, path := q + ['/'], q + ['/'] + last;
    var r := IsAbs(up);
    assert IsAbs(path) == r && up == q + ['/'] + "";
    SplitConcat(q, "", '/');
    SplitConcat(q, last, '/');
    SplitNone(last, '/');
    var done := Fold(r, [], Split(q, '/'));
    assert Split("", '/') == [""];
    FoldConcat(r, [], Split(q, '/'), [""]);
    FoldConcat(r, [], Split(q, '/'), [last]);
    FoldOne(r, done, "");
    FoldOne(r, done, last);
    FoldNormal(r, [], Split(q, '/'));
  }

  /** Cleaning a path does not move it. */
  lemma LocateClean(cwd: string, s: string)
    ensures Locate(cwd, Clean(s)) == Locate(cwd, s)
  {
    CleanIdempotent(s);
    assert Parse(Clean(s)).rooted == Parse(s).rooted;
  }

  lemma LocateLast(cwd: string, q: string, last: string)
    requires '/' !in last
    ensures Locate(cwd, q + ['/'] + last) == PushComp(true, Locate(cwd, q + ['/']), last)
  {
    ParseLast(q, last);
    if !IsAbs(q + ['/']) {
      PushCleaned(Parse(cwd).comps, Parse(q + ['/']).comps, last);
    }
  }

  /** A path leads one step, by its last name, from where its directory lies. */
  lemma LocateDir(cwd: string, path: string)
    ensures exists last :: Locate(cwd, path) == PushComp(true, Locate(cwd, Dir(path)), last)
  {
    hide UpToSlash, Clean, Locate, Parse, PushComp;
    var up := UpToSlash(path);
    UpToSlashSplits(path);
    LocateClean(cwd, up);
    var last := path[|up|..];
    assert path == up + last;
    if up == "" {
      LocateName(cwd, path);
    } else {
      assert up == up[..|up| - 1] + ['/'];
      LocateLast(cwd, up[..|up| - 1], last);
    }
    assert Locate(cwd, path) == PushComp(true, Locate(cwd, Dir(path)), last);
  }

  /** A path without a slash lies in the working directory. */
  lemma LocateName(cwd: string, name: string)
    requires '/' !in name
    ensures Locate(cwd, name) == PushComp(true, Locate(cwd, ""), name)
  {
    SplitNone(name, '/');
    if name != "" {
      assert name[0] in name;
    }
    assert Split("", '/') == [""];
    PushCleaned(Parse(cwd).comps, [], name);
    FoldOne(false, [], name);
  }
}
