/** What unpacking a chain of layers amounts to, as a function of the snapshots already committed: the
    reference both drivers are proved against. */
module Unpack {
  import opened GoStrings
  import opened ChainIds
  import opened Snapshots
  import opened ProtocolResults

  datatype Descriptor = Descriptor(mediaType: string, digest: Digest, size: int)

  datatype Artifact = Artifact(blob: Descriptor)

  type Error = Option<Class>

  // ---- What a calm run does ----

  /** The committed snapshots once a chain is there: the missing ones added, each with its own content. */
  function Complete(h: Hash, committed: map<Digest, Snapshot>, chain: seq<Digest>): map<Digest, Snapshot> {
    if chain == [] || ChainID(h, chain) in committed then committed
    else Complete(h, committed, Front(chain))[ChainID(h, chain) := Snapshot(ChainID(h, Front(chain)), chain)]
  }

  /** The layers whose chain is not committed, lowest first. */
  function Missing(h: Hash, committed: map<Digest, Snapshot>, chain: seq<Digest>): seq<Digest> {
    if chain == [] || ChainID(h, chain) in committed then []
    else Missing(h, committed, Front(chain)) + [Last(chain)]
  }

  /** The length of the longest committed beginning of a chain. */
  function Depth(h: Hash, committed: map<Digest, Snapshot>, chain: seq<Digest>): (n: nat)
    ensures n <= |chain|
  {
    if chain == [] || ChainID(h, chain) in committed then |chain| else Depth(h, committed, Front(chain))
  }

  /** The name of the first i layers. */
  function NameOf(h: Hash, chain: seq<Digest>, i: nat): Digest
    requires i <= |chain|
  {
    ChainID(h, chain[..i])
  }

  lemma NamesDiffer(h: Hash, layers: iset<Digest>, chain: seq<Digest>, i: nat, j: nat)
    requires CollisionFree(h, layers) && Over(layers, chain) && i < j <= |chain|
    ensures NameOf(h, chain, i) != NameOf(h, chain, j)
  {
    if NameOf(h, chain, i) == NameOf(h, chain, j) {
      ChainIDInjective(h, layers, chain[..i], chain[..j]);
    }
  }

  /** Of the first m beginnings of a chain, those of length up to n are committed. */
  ghost predicate CommittedUpTo(h: Hash, committed: map<Digest, Snapshot>, chain: seq<Digest>, n: nat, m: nat)
    requires m <= |chain|
  {
    forall i | 0 < i <= m :: NameOf(h, chain, i) in committed <==> i <= n
  }

  /** `after` is `before` with the beginnings longer than n, up to m, committed under their own names. */
  ghost predicate Adds(
    h: Hash, before: map<Digest, Snapshot>, after: map<Digest, Snapshot>, chain: seq<Digest>, n: nat, m: nat)
    requires m <= |chain|
  {
    && (forall name | name in before :: name in after && after[name] == before[name])
    && (forall i | n < i <= m :: AddedAs(h, after, chain, i))
    && (forall name | name in after && name !in before :: exists i :: n < i <= m && name == NameOf(h, chain, i))
  }

  ghost predicate AddedAs(h: Hash, after: map<Digest, Snapshot>, chain: seq<Digest>, i: nat)
    requires 0 < i <= |chain|
  {
    && NameOf(h, chain, i) in after
    && after[NameOf(h, chain, i)] == Snapshot(NameOf(h, chain, i - 1), chain[..i])
  }

  /** The missing layers are the end of the chain from its longest committed beginning on. */
  lemma {:induction false} MissingExactly(h: Hash, layers: iset<Digest>, s: State, chain: seq<Digest>, m: nat)
    requires CollisionFree(h, layers) && PrefixClosed(h, layers, s) && Over(layers, chain) && m <= |chain|
    ensures
      var n := Depth(h, s.committed, chain[..m]);
      && n <= m
      && CommittedUpTo(h, s.committed, chain, n, m)
      && Missing(h, s.committed, chain[..m]) == chain[n..m]
  {
    hide CollisionFree, PrefixClosed, ChainID;
    if m == 0 {
    } else if NameOf(h, chain, m) in s.committed {
      CommittedChain(h, layers, s, chain[..m]);
      forall i | 0 < i <= m ensures NameOf(h, chain, i) in s.committed {
        assert chain[..m][..i] == chain[..i];
      }
    } else {
      MissingExactly(h, layers, s, chain, m - 1);
      assert Front(chain[..m]) == chain[..m - 1] && Last(chain[..m]) == chain[m - 1];
      var n := Depth(h, s.committed, chain[..m]);
      assert chain[n..m - 1] + [chain[m - 1]] == chain[n..m];
    }
  }

  /** Completing commits exactly the missing beginnings, each with its own parent and content. */
  lemma {:induction false} CompleteExactly(
    h: Hash, layers: iset<Digest>, committed: map<Digest, Snapshot>, chain: seq<Digest>, m: nat)
    requires CollisionFree(h, layers) && Over(layers, chain) && m <= |chain|
    ensures Adds(h, committed, Complete(h, committed, chain[..m]), chain, Depth(h, committed, chain[..m]), m)
  {
    hide CollisionFree, ChainID, Adds;
    if m > 0 && NameOf(h, chain, m) !in committed {
      assert Front(chain[..m]) == chain[..m - 1];
      CompleteExactly(h, layers, committed, chain, m - 1);
      AddsOne(h, layers, committed, Complete(h, committed, chain[..m - 1]), chain, Depth(h, committed, chain[..m]), m);
    } else {
      AddsNone(h, committed, chain, m);
    }
  }

  lemma AddsNone(h: Hash, committed: map<Digest, Snapshot>, chain: seq<Digest>, m: nat)
    requires m <= |chain|
    ensures Adds(h, committed, committed, chain, m, m)
  {
  }

  lemma AddsOne(h: Hash, layers: iset<Digest>, before: map<Digest, Snapshot>, after: map<Digest, Snapshot>,
                chain: seq<Digest>, n: nat, m: nat)
    requires CollisionFree(h, layers) && Over(layers, chain)
    requires n < m <= |chain| && NameOf(h, chain, m) !in before
    requires Adds(h, before, after, chain, n, m - 1)
    ensures Adds(h, before, after[NameOf(h, chain, m) := Snapshot(NameOf(h, chain, m - 1), chain[..m])], chain, n, m)
  {
    hide CollisionFree, NameOf;
    var name := NameOf(h, chain, m);
    var after' := after[name := Snapshot(NameOf(h, chain, m - 1), chain[..m])];
    forall i | n < i <= m ensures AddedAs(h, after', chain, i) {
      if i < m {
        NamesDiffer(h, layers, chain, i, m);
        assert AddedAs(h, after, chain, i);
      }
    }
    forall x | x in after' && x !in before ensures exists i :: n < i <= m && x == NameOf(h, chain, i) {
      if x != name {
        var i :| n < i <= m - 1 && x == NameOf(h, chain, i);
      }
    }
  }

  /** Completing the beginnings of a chain leaves the chain itself missing. */
  lemma StillMissing(h: Hash, layers: iset<Digest>, committed: map<Digest, Snapshot>, chain: seq<Digest>)
    requires CollisionFree(h, layers) && Over(layers, chain) && chain != []
    requires ChainID(h, chain) !in committed
    ensures ChainID(h, chain) !in Complete(h, committed, Front(chain))
    ensures Front(chain) != [] ==> ChainID(h, Front(chain)) in Complete(h, committed, Front(chain))
  {
    hide CollisionFree;
    var m := |chain| - 1;
    assert chain[..|chain|] == chain && Front(chain) == chain[..m];
    CompleteExactly(h, layers, committed, chain, m);
    if ChainID(h, chain) in Complete(h, committed, Front(chain)) {
      var i :| Depth(h, committed, chain[..m]) < i <= m && ChainID(h, chain) == NameOf(h, chain, i);
      NamesDiffer(h, layers, chain, i, |chain|);
    }
  }
}
