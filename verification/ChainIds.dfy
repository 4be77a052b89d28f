/** Chain IDs: the names under which layer chains are committed, as computed by the OCI identity package. */
module ChainIds {

  type Digest = string

  /** The digest of two digests joined by a space. */
  type Hash = (Digest, Digest) -> Digest

  function Front<T>(s: seq<T>): seq<T>
    requires s != []
  {
    s[..|s| - 1]
  }

  function Last<T>(s: seq<T>): T
    requires s != []
  {
    s[|s| - 1]
  }

  function ChainID(h: Hash, chain: seq<Digest>): Digest {
    if chain == [] then ""
    else if |chain| == 1 then chain[0]
    else h(ChainID(h, Front(chain)), Last(chain))
  }

  /** What the protocol assumes of the hash, for the layer digests in use: no collisions, and no hash
      that is itself a layer digest or empty. */
  ghost predicate CollisionFree(h: Hash, layers: iset<Digest>) {
    && "" !in layers
    && (forall a, b :: h(a, b) !in layers && h(a, b) != "")
    && (forall a, b, c, d :: h(a, b) == h(c, d) ==> a == c && b == d)
  }

  /** A hash that is collision-free: its value tells its arguments apart. */
  function Pairing(a: Digest, b: Digest): Digest {
    if a == "" then "." + b else [',', a[0]] + Pairing(a[1..], b)
  }

  lemma {:induction false} PairingInjective(a: Digest, b: Digest, c: Digest, d: Digest)
    requires Pairing(a, b) == Pairing(c, d)
    ensures a == c && b == d
  {
    var left, right := Pairing(a, b), Pairing(c, d);
    assert left[0] == right[0] && (a == "" <==> c == "");
    if a == "" {
      assert left[1..] == b && right[1..] == d;
    } else {
      assert left[1] == a[0] && right[1] == c[0];
      assert left[2..] == Pairing(a[1..], b) && right[2..] == Pairing(c[1..], d);
      PairingInjective(a[1..], b, c[1..], d);
      assert a == [a[0]] + a[1..] && c == [c[0]] + c[1..];
    }
  }

  /** The assumption can be met: for this hash, by all digests that do not begin like its values. */
  lemma CollisionFreeHash()
    ensures CollisionFree(Pairing, iset d: Digest | d != "" && d[0] != '.' && d[0] != ',')
  {
    forall a, b, c, d | Pairing(a, b) == Pairing(c, d) ensures a == c && b == d {
      PairingInjective(a, b, c, d);
    }
  }

  ghost predicate Over(layers: iset<Digest>, chain: seq<Digest>) {
    forall i | 0 <= i < |chain| :: chain[i] in layers
  }

  lemma ChainIDEmpty(h: Hash, layers: iset<Digest>, chain: seq<Digest>)
    requires CollisionFree(h, layers) && Over(layers, chain)
    ensures ChainID(h, chain) == "" <==> chain == []
  {
  }

  /** Distinct chains have distinct names. */
  lemma {:induction false} ChainIDInjective(h: Hash, layers: iset<Digest>, a: seq<Digest>, b: seq<Digest>)
    requires CollisionFree(h, layers) && Over(layers, a) && Over(layers, b)
    requires ChainID(h, a) == ChainID(h, b)
    ensures a == b
  {
    ChainIDEmpty(h, layers, a);
    ChainIDEmpty(h, layers, b);
    if a != [] && b != [] {
      if |a| > 1 && |b| > 1 {
        ChainIDInjective(h, layers, Front(a), Front(b));
        assert a == Front(a) + [Last(a)] && b == Front(b) + [Last(b)];
      } else {
        assert |a| == 1 && |b| == 1;
      }
    }
  }

  /** Folding the first two digests into one leaves the chain's name as it was. */
  lemma {:induction false} ChainIDHead(h: Hash, a: Digest, b: Digest, rest: seq<Digest>)
    ensures ChainID(h, [h(a, b)] + rest) == ChainID(h, [a, b] + rest)
  {
    var short, long := [h(a, b)] + rest, [a, b] + rest;
    if rest == [] {
      assert Front(long) == [a];
    } else {
      ChainIDHead(h, a, b, Front(rest));
      assert Front(short) == [h(a, b)] + Front(rest) && Front(long) == [a, b] + Front(rest);
    }
  }

  /** The name of a longer chain joins the name of the chain below and the next layer, in this order. */
  lemma ChainIDNext(h: Hash, chain: seq<Digest>, d: Digest)
    ensures ChainID(h, []) == "" && ChainID(h, [d]) == d
    ensures chain != [] ==> ChainID(h, chain + [d]) == h(ChainID(h, chain), d)
  {
    assert chain != [] ==> Front(chain + [d]) == chain;
  }

  lemma ChainIDOne(h: Hash)
    ensures forall d :: ChainID(h, [d]) == d
  {
  }

  /** The in-place computation: every slot from `from` on ends with the name of the chain that starts at
      `from` and ends there. */
  method ChainIDs(h: Hash, dgsts: array<Digest>, from: nat)
    requires from <= dgsts.Length
    modifies dgsts
    ensures forall i | 0 <= i < from :: dgsts[i] == old(dgsts[i])
    ensures forall i | from <= i < dgsts.Length :: dgsts[i] == ChainID(h, old(dgsts[from..i + 1]))
    decreases dgsts.Length - from
  {
    hide ChainID;
    ChainIDOne(h);
    if dgsts.Length - from < 2 {
      assert forall i | from <= i < dgsts.Length :: dgsts[from..i + 1] == [dgsts[i]];
      return;
    }
    ghost var before := dgsts[..];
    var a, b := dgsts[from], dgsts[from + 1];
    dgsts[from + 1] := h(a, b);
    ghost var middle := dgsts[..];
    ChainIDs(h, dgsts, from + 1);
    forall i | from <= i < dgsts.Length ensures dgsts[i] == ChainID(h, before[from..i + 1]) {
      if i == from {
        assert before[from..i + 1] == [a];
      } else {
        var rest := before[from + 2..i + 1];
        assert middle[from + 1..i + 1] == [h(a, b)] + rest;
        assert before[from..i + 1] == [a, b] + rest;
        ChainIDHead(h, a, b, rest);
      }
    }
  }

  /** The entry point copies its argument, computes in place and returns the last slot. */
  method ComputeChainID(h: Hash, dgsts: seq<Digest>) returns (id: Digest)
    ensures id == ChainID(h, dgsts)
  {
    if |dgsts| == 0 {
      return "";
    }
    var chainIDs := new Digest[|dgsts|](i requires 0 <= i < |dgsts| => dgsts[i]);
    assert chainIDs[..] == dgsts;
    ChainIDs(h, chainIDs, 0);
    assert dgsts[0..|dgsts|] == dgsts;
    return chainIDs[|dgsts| - 1];
  }
}
