/** The mount-option parsers of the applier: overlay and aufs. */
module Mounts {
  import opened GoStrings

  /** Every failure of the two parsers is containerd's InvalidArgument class. */
  datatype InvalidArgument = UpperNotFound | MultipleRw | RwNotFirst | UnhandledSuffix

  datatype Layers = Layers(upper: string, lower: seq<string>)

  type Parsed = Result<Layers, InvalidArgument>

  const BR := "br:"
  const RW := "=rw"
  const RO := "=ro+wh"
  const UPPERDIR := "upperdir="
  const LOWERDIR := "lowerdir="

  // ---- aufs ----

  /** The branches of all `br:` options, in order. */
  function Branches(options: seq<string>): seq<string> {
    if options == [] then []
    else (if HasPrefix(options[0], BR) then Split(TrimPrefix(options[0], BR), ':') else []) + Branches(options[1..])
  }

  /** Reads the branches left to right from what has been found so far. */
  function Read(branches: seq<string>, upper: string, lower: seq<string>): Parsed {
    if branches == [] then
      if upper == "" then Err(UpperNotFound) else Ok(Layers(upper, lower))
    else
      var b := branches[0];
      if HasSuffix(b, RW) then
        if upper != "" then Err(MultipleRw) else Read(branches[1..], TrimSuffix(b, RW), lower)
      else if HasSuffix(b, RO) then
        if upper == "" then Err(RwNotFirst) else Read(branches[1..], upper, lower + [TrimSuffix(b, RO)])
      else Err(UnhandledSuffix)
  }

  method GetAufsPath(options: seq<string>) returns (r: Parsed)
    ensures r == Read(Branches(options), "", [])
  {
    var upper, lower := "", [];
    for i := 0 to |options|
      invariant Read(Branches(options), "", []) == Read(Branches(options[i..]), upper, lower)
    {
      var o := options[i];
      assert options[i..][0] == o && options[i..][1..] == options[i + 1..];
      if !HasPrefix(o, BR) {
        assert Branches(options[i..]) == Branches(options[i + 1..]);
        continue;
      }
      o := TrimPrefix(o, BR);
      var parts := Split(o, ':');
      ghost var later := Branches(options[i + 1..]);
      assert parts[0..] == parts;
      for j := 0 to |parts|
        invariant Read(Branches(options), "", []) == Read(parts[j..] + later, upper, lower)
      {
        var b := parts[j];
        assert (parts[j..] + later)[0] == b && (parts[j..] + later)[1..] == parts[j + 1..] + later;
        if HasSuffix(b, RW) {
          if upper != "" {
            return Err(MultipleRw);
          }
          upper := TrimSuffix(b, RW);
        } else if HasSuffix(b, RO) {
          if upper == "" {
            return Err(RwNotFirst);
          }
          lower := lower + [TrimSuffix(b, RO)];
        } else {
          return Err(UnhandledSuffix);
        }
      }
      assert parts[|parts|..] + later == later;
    }
    if upper == "" {
      return Err(UpperNotFound);
    }
    return Ok(Layers(upper, lower));
  }

  function ReadOnly(lower: seq<string>): seq<string> {
    seq(|lower|, i requires 0 <= i < |lower| => lower[i] + RO)
  }

  /** The documented shape: the read-write branch, then the read-only ones. */
  function Canonical(l: Layers): seq<string> {
    [l.upper + RW] + ReadOnly(l.lower)
  }

  /** The option text `br:<upper>=rw[:<lower>=ro+wh]*`. */
  function Print(l: Layers): string {
    BR + Join(Canonical(l), ':')
  }

  lemma SuffixesDiffer(s: string)
    ensures HasSuffix(s + RW, RW) && TrimSuffix(s + RW, RW) == s
    ensures HasSuffix(s + RO, RO) && TrimSuffix(s + RO, RO) == s && !HasSuffix(s + RO, RW)
    ensures !HasSuffix(s + RW, RO)
  {
    var rw, ro := s + RW, s + RO;
    assert rw[|rw| - 3..] == RW && rw[..|rw| - 3] == s;
    assert ro[|ro| - 6..] == RO && ro[..|ro| - 6] == s;
    assert ro[|ro| - 3..][2] == 'h' && RW[2] == 'w';
    assert |rw| >= 6 ==> rw[|rw| - 6..][5] == 'w' && RO[5] == 'h';
  }

  lemma TrimmedSuffix(s: string, suffix: string)
    requires HasSuffix(s, suffix)
    ensures s == TrimSuffix(s, suffix) + suffix
  {
  }

  /** Once a read-write branch is known, exactly read-only branches may follow. */
  lemma {:induction false} ReadTail(branches: seq<string>, upper: string, lower: seq<string>, l: Layers)
    requires upper != ""
    ensures Read(branches, upper, lower) == Ok(l)
       <==> l.upper == upper && lower <= l.lower && branches == ReadOnly(l.lower[|lower|..])
  {
    if branches == [] {
      if lower <= l.lower && ReadOnly(l.lower[|lower|..]) == [] {
        assert l.lower == lower;
      }
    } else {
      var b := branches[0];
      if HasSuffix(b, RO) && !HasSuffix(b, RW) {
        var x := TrimSuffix(b, RO);
        TrimmedSuffix(b, RO);
        ReadTail(branches[1..], upper, lower + [x], l);
        if lower + [x] <= l.lower {
          assert l.lower[|lower|..] == [x] + l.lower[|lower| + 1..];
          assert ReadOnly(l.lower[|lower|..]) == [b] + ReadOnly(l.lower[|lower| + 1..]);
          assert branches == [b] + branches[1..];
        }
        if lower <= l.lower && branches == ReadOnly(l.lower[|lower|..]) {
          var rest := l.lower[|lower|..];
          SuffixesDiffer(rest[0]);
          assert b == rest[0] + RO;
          assert branches[1..] == ReadOnly(rest[1..]);
          assert rest[1..] == l.lower[|lower| + 1..];
          assert lower + [x] <= l.lower;
        }
      } else if lower <= l.lower && branches == ReadOnly(l.lower[|lower|..]) {
        SuffixesDiffer(l.lower[|lower|..][0]);
      }
    }
  }

  /** Any number of bare `=rw` branches, which name no directory, before the documented shape. */
  predicate Padded(branches: seq<string>, l: Layers) {
    branches == Canonical(l) || (branches != [] && branches[0] == RW && Padded(branches[1..], l))
  }

  /** Which branch lists are accepted, and with what answer. */
  lemma {:induction false} ReadExactly(branches: seq<string>, l: Layers)
    ensures Read(branches, "", []) == Ok(l) <==> l.upper != "" && Padded(branches, l)
  {
    if branches == [] {
    } else if branches[0] == RW {
      assert TrimSuffix(RW, RW) == "";
      ReadExactly(branches[1..], l);
      assert l.upper != "" ==> Canonical(l)[0] != RW;
    } else {
      ReadFirst(branches, l);
    }
  }

  lemma ReadFirst(branches: seq<string>, l: Layers)
    requires |branches| > 0 && branches[0] != RW
    ensures Read(branches, "", []) == Ok(l) <==> l.upper != "" && branches == Canonical(l)
  {
    var b := branches[0];
    SuffixesDiffer(l.upper);
    assert branches == [b] + branches[1..];
    if HasSuffix(b, RW) {
      var upper := TrimSuffix(b, RW);
      TrimmedSuffix(b, RW);
      assert upper != "";
      ReadTail(branches[1..], upper, [], l);
      assert l.lower[0..] == l.lower;
    }
    if branches == Canonical(l) {
      assert b == l.upper + RW && branches[1..] == ReadOnly(l.lower);
    }
  }

  /** None of the branches names a directory. */
  predicate AllBare(branches: seq<string>) {
    forall b | b in branches :: b == RW
  }

  lemma {:induction false} ReadBare(bare: seq<string>, rest: seq<string>)
    requires AllBare(bare)
    ensures Read(bare + rest, "", []) == Read(rest, "", [])
  {
    if bare == [] {
      assert bare + rest == rest;
    } else {
      assert bare[0] in bare && TrimSuffix(RW, RW) == "";
      assert (bare + rest)[0] == RW && (bare + rest)[1..] == bare[1..] + rest;
      assert forall b | b in bare[1..] :: b in bare;
      ReadBare(bare[1..], rest);
    }
  }

  lemma {:induction false} ReadLower(lower: seq<string>, rest: seq<string>, upper: string, before: seq<string>)
    requires upper != ""
    ensures Read(ReadOnly(lower) + rest, upper, before) == Read(rest, upper, before + lower)
  {
    if lower == [] {
      assert ReadOnly(lower) + rest == rest && before + lower == before;
    } else {
      var branches := ReadOnly(lower) + rest;
      SuffixesDiffer(lower[0]);
      assert branches[0] == lower[0] + RO && branches[1..] == ReadOnly(lower[1..]) + rest;
      ReadLower(lower[1..], rest, upper, before + [lower[0]]);
      assert before + [lower[0]] + lower[1..] == before + lower;
    }
  }

  lemma {:induction false} ReadPadded(first: seq<string>, rest: seq<string>, l: Layers)
    requires l.upper != "" && Padded(first, l)
    ensures Read(first + rest, "", []) == Read(rest, l.upper, l.lower)
  {
    assert (first + rest)[0] == first[0] && (first + rest)[1..] == first[1..] + rest;
    if first == Canonical(l) {
      SuffixesDiffer(l.upper);
      assert first[1..] == ReadOnly(l.lower);
      ReadLower(l.lower, rest, l.upper, []);
      assert [] + l.lower == l.lower;
    } else {
      assert TrimSuffix(RW, RW) == "";
      ReadPadded(first[1..], rest, l);
    }
  }

  /** Which error a branch list runs into, by its first branch that does not fit: a read-only one before any directory
      to write to, a second directory to write to, one of neither kind, or the end without any to write to. */
  lemma ReadErrors(first: seq<string>, b: string, rest: seq<string>, l: Layers)
    ensures AllBare(first) ==> Read(first, "", []) == Err(UpperNotFound)
    ensures AllBare(first) && HasSuffix(b, RO) ==> Read(first + [b] + rest, "", []) == Err(RwNotFirst)
    ensures l.upper != "" && Padded(first, l) && HasSuffix(b, RW) ==>
              Read(first + [b] + rest, "", []) == Err(MultipleRw)
    ensures (AllBare(first) || (l.upper != "" && Padded(first, l))) && !HasSuffix(b, RW) && !HasSuffix(b, RO) ==>
              Read(first + [b] + rest, "", []) == Err(UnhandledSuffix)
  {
    assert first + [b] + rest == first + ([b] + rest) && ([b] + rest)[0] == b;
    if AllBare(first) {
      ReadBare(first, []);
      assert first + [] == first;
      ReadBare(first, [b] + rest);
      if HasSuffix(b, RO) {
        TrimmedSuffix(b, RO);
        SuffixesDiffer(TrimSuffix(b, RO));
      }
    }
    if l.upper != "" && Padded(first, l) {
      ReadPadded(first, [b] + rest, l);
    }
  }

  /** The list holds one `br:` option, whose text after the prefix is `body`. */
  ghost predicate OneBr(options: seq<string>, body: string) {
    exists i | 0 <= i < |options| :: BrAt(options, i, body)
  }

  ghost predicate BrAt(options: seq<string>, i: nat, body: string)
    requires i < |options|
  {
    && options[i] == BR + body
    && forall j | 0 <= j < |options| && j != i :: !HasPrefix(options[j], BR)
  }

  lemma {:induction false} NoBranches(options: seq<string>)
    requires forall o | o in options :: !HasPrefix(o, BR)
    ensures Branches(options) == []
  {
    if options != [] {
      NoBranches(options[1..]);
    }
  }

  lemma {:induction false} OneBrBranches(options: seq<string>, i: nat, body: string)
    requires i < |options| && BrAt(options, i, body)
    ensures Branches(options) == Split(body, ':')
  {
    if i == 0 {
      NoBranches(options[1..]);
      assert TrimPrefix(BR + body, BR) == body;
    } else {
      assert BrAt(options[1..], i - 1, body);
      OneBrBranches(options[1..], i - 1, body);
    }
  }

  lemma CanonicalParts(l: Layers)
    requires ':' !in l.upper && forall s | s in l.lower :: ':' !in s
    ensures Split(Join(Canonical(l), ':'), ':') == Canonical(l)
  {
    SplitJoin(Canonical(l), ':');
  }

  /** The option written in the documented format parses back to exactly its directories. */
  lemma AufsRoundTrip(options: seq<string>, l: Layers)
    requires l.upper != "" && ':' !in l.upper && forall s | s in l.lower :: ':' !in s
    requires OneBr(options, Join(Canonical(l), ':'))
    ensures Read(Branches(options), "", []) == Ok(l)
  {
    var body := Join(Canonical(l), ':');
    var i: nat :| i < |options| && BrAt(options, i, body);
    OneBrBranches(options, i, body);
    CanonicalParts(l);
    ReadExactly(Canonical(l), l);
  }

  /** A parsed option is the printed form of its answer exactly when it has no bare `=rw` branch. */
  lemma AufsPrintsBack(options: seq<string>, body: string, l: Layers)
    requires OneBr(options, body)
    requires Read(Branches(options), "", []) == Ok(l)
    ensures BR + body == Print(l) <==> RW !in Split(body, ':')
  {
    var i: nat :| i < |options| && BrAt(options, i, body);
    OneBrBranches(options, i, body);
    var branches := Split(body, ':');
    ReadExactly(branches, l);
    JoinSplit(body, ':');
    NoBare(l);
    assert (BR + body)[3..] == body && Print(l)[3..] == Join(Canonical(l), ':');
    if branches != Canonical(l) {
      assert branches[0] == RW;
      PaddedHolds(branches, l);
      SplitJoin(Canonical(l), ':');
    }
  }

  lemma {:induction false} PaddedHolds(branches: seq<string>, l: Layers)
    requires Padded(branches, l)
    ensures forall p | p in Canonical(l) :: p in branches
  {
    if branches != Canonical(l) {
      PaddedHolds(branches[1..], l);
      assert forall p | p in branches[1..] :: p in branches;
    }
  }

  lemma NoBare(l: Layers)
    requires l.upper != ""
    ensures RW !in Canonical(l)
  {
    forall p | p in Canonical(l) ensures |p| > |RW| {}
  }

  // ---- overlay ----

  /** The value of the last option with the given prefix. */
  function LastValue(options: seq<string>, prefix: string): Option<string> {
    if options == [] then None
    else
      var last := |options| - 1;
      if HasPrefix(options[last], prefix) then Some(TrimPrefix(options[last], prefix))
      else LastValue(options[..last], prefix)
  }

  /** Later options win; an absent or empty `upperdir=` is the only error. */
  method GetOverlayPath(options: seq<string>) returns (r: Parsed)
    ensures r.Ok? <==> LastValue(options, UPPERDIR).Some? && LastValue(options, UPPERDIR) != Some("")
    ensures r.Ok? ==> Some(r.value.upper) == LastValue(options, UPPERDIR)
    ensures r.Ok? ==>
              match LastValue(options, LOWERDIR)
              case None => r.value.lower == []
              case Some(v) => Join(r.value.lower, ':') == v && r.value.lower == Split(v, ':')
    ensures r.Err? ==> r.error == UpperNotFound
  {
    var upper, lower := "", [];
    for i := 0 to |options|
      invariant match LastValue(options[..i], UPPERDIR) case None => upper == "" case Some(v) => upper == v
      invariant match LastValue(options[..i], LOWERDIR) case None => lower == [] case Some(v) => lower == Split(v, ':')
    {
      var o := options[i];
      assert options[..i + 1][..i] == options[..i];
      if HasPrefix(o, UPPERDIR) {
        assert !HasPrefix(o, LOWERDIR) by { assert o[0] == 'u'; }
        upper := TrimPrefix(o, UPPERDIR);
      } else if HasPrefix(o, LOWERDIR) {
        lower := Split(TrimPrefix(o, LOWERDIR), ':');
      }
    }
    assert options[..|options|] == options;
    if upper == "" {
      return Err(UpperNotFound);
    }
    if LastValue(options, LOWERDIR).Some? {
      JoinSplit(LastValue(options, LOWERDIR).value, ':');
    }
    return Ok(Layers(upper, lower));
  }
}
