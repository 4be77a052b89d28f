/** `replaceOrAppendEnvValues`: the merge of an image's default environment with overrides. */
module EnvMerge {
  import opened GoStrings

  /** The part of an entry before its first `=`; the whole entry when it has none. */
  function Key(e: string): string {
    Split(e, '=')[0]
  }

  /** An override with a `=` sets its key; one without asks for the key to be unset. */
  predicate Sets(e: string) {
    '=' in e
  }

  function Keys(entries: seq<string>): set<string> {
    set e | e in entries :: Key(e)
  }

  /** The last override of a key, if any. */
  function LastFor(overrides: seq<string>, k: string): Option<string> {
    if overrides == [] then None
    else
      var last := |overrides| - 1;
      if Key(overrides[last]) == k then Some(overrides[last]) else LastFor(overrides[..last], k)
  }

  /** What an override leaves in the position of the default it meets. */
  function Effect(override: Option<string>, default: string): string {
    match override
    case None => default
    case Some(v) => if Sets(v) then v else ""
  }

  predicate IsLast(defaults: seq<string>, i: nat)
    requires i < |defaults|
  {
    forall j | i < j < |defaults| :: Key(defaults[j]) != Key(defaults[i])
  }

  /** Position i of the result before empty entries go: only the last default of a key is overridden. */
  function Slot(defaults: seq<string>, overrides: seq<string>, i: nat): string
    requires i < |defaults|
  {
    if IsLast(defaults, i) then Effect(LastFor(overrides, Key(defaults[i])), defaults[i]) else defaults[i]
  }

  function Slots(defaults: seq<string>, overrides: seq<string>): (slots: seq<string>)
    ensures |slots| == |defaults|
  {
    seq(|defaults|, i requires 0 <= i < |defaults| => Slot(defaults, overrides, i))
  }

  /** The overrides that set a key no default has, in order. */
  function Appended(defaults: seq<string>, overrides: seq<string>): seq<string> {
    if overrides == [] then []
    else
      var last := |overrides| - 1;
      Appended(defaults, overrides[..last])
      + (if Sets(overrides[last]) && Key(overrides[last]) !in Keys(defaults) then [overrides[last]] else [])
  }

  /** The entries that are not empty, in order. */
  function NonEmpty(entries: seq<string>): seq<string> {
    if entries == [] then []
    else (if entries[0] == "" then [] else [entries[0]]) + NonEmpty(entries[1..])
  }

  /** Every default in its own position with the effect of its last override, then the new keys. */
  function Merged(defaults: seq<string>, overrides: seq<string>): seq<string> {
    NonEmpty(Slots(defaults, overrides) + Appended(defaults, overrides))
  }

  lemma {:induction false} NonEmptyConcat(a: seq<string>, b: seq<string>)
    ensures NonEmpty(a + b) == NonEmpty(a) + NonEmpty(b)
  {
    if a == [] {
      assert a + b == b;
    } else {
      NonEmptyConcat(a[1..], b);
      assert (a + b)[0] == a[0] && (a + b)[1..] == a[1..] + b;
      var head := if a[0] == "" then [] else [a[0]];
      assert head + (NonEmpty(a[1..]) + NonEmpty(b)) == (head + NonEmpty(a[1..])) + NonEmpty(b);
    }
  }

  lemma {:induction false} NonEmptyDelete(entries: seq<string>, i: nat)
    requires i < |entries| && entries[i] == ""
    ensures NonEmpty(entries[..i] + entries[i + 1..]) == NonEmpty(entries)
  {
    assert entries == entries[..i] + [""] + entries[i + 1..];
    NonEmptyConcat(entries[..i] + [""], entries[i + 1..]);
    NonEmptyConcat(entries[..i], [""]);
    NonEmptyConcat(entries[..i], entries[i + 1..]);
  }

  lemma {:induction false} NonEmptyFull(entries: seq<string>)
    requires forall e | e in entries :: e != ""
    ensures NonEmpty(entries) == entries
  {
    if entries != [] {
      assert entries[0] in entries;
      forall e | e in entries[1..] ensures e != "" {
        assert e in entries;
      }
      NonEmptyFull(entries[1..]);
      assert entries == [entries[0]] + entries[1..];
    }
  }

  /** One more override changes the slot of its key's last default, and no other. */
  lemma SlotsStep(defaults: seq<string>, overrides: seq<string>, value: string, i: nat)
    requires i < |defaults|
    ensures Slot(defaults, overrides + [value], i)
         == if Key(defaults[i]) == Key(value) && IsLast(defaults, i) then Effect(Some(value), defaults[i])
            else Slot(defaults, overrides, i)
  {
    hide Key;
    assert (overrides + [value])[..|overrides|] == overrides;
  }

  lemma AppendedStep(defaults: seq<string>, overrides: seq<string>, value: string)
    ensures Appended(defaults, overrides + [value])
         == Appended(defaults, overrides)
            + (if Sets(value) && Key(value) !in Keys(defaults) then [value] else [])
  {
    assert (overrides + [value])[..|overrides|] == overrides;
  }

  /** One override applied to the list being built: in place at the cached position, or at the end. */
  lemma OverrideStep(defaults: seq<string>, overrides: seq<string>, value: string, at: Option<nat>)
    requires at.Some? ==> at.value < |defaults| && Key(defaults[at.value]) == Key(value) && IsLast(defaults, at.value)
    requires at.None? ==> Key(value) !in Keys(defaults)
    ensures
      var before := Slots(defaults, overrides) + Appended(defaults, overrides);
      var after := Slots(defaults, overrides + [value]) + Appended(defaults, overrides + [value]);
      after == if at.Some? then before[at.value := if Sets(value) then value else ""]
               else if Sets(value) then before + [value]
               else before
  {
    hide Key, LastFor, Appended, Slot;
    var slots, appended := Slots(defaults, overrides), Appended(defaults, overrides);
    var slots' := Slots(defaults, overrides + [value]);
    AppendedStep(defaults, overrides, value);
    forall i | 0 <= i < |defaults|
      ensures slots'[i] == if at == Some(i) then Effect(Some(value), defaults[i]) else slots[i]
    {
      SlotsStep(defaults, overrides, value, i);
      assert defaults[i] in defaults;
    }
    if at.Some? {
      assert defaults[at.value] in defaults;
      assert slots' == slots[at.value := Effect(Some(value), defaults[at.value])];
    } else {
      assert slots' == slots;
    }
  }

  /** The index cache built from the defaults: each key with the position of its last default. */
  ghost predicate Caches(cache: map<string, nat>, defaults: seq<string>) {
    && cache.Keys == Keys(defaults)
    && forall k | k in cache ::
         cache[k] < |defaults| && Key(defaults[cache[k]]) == k && IsLast(defaults, cache[k])
  }

  lemma CachesStep(cache: map<string, nat>, defaults: seq<string>, e: string)
    requires Caches(cache, defaults)
    ensures Caches(cache[Key(e) := |defaults|], defaults + [e])
  {
    hide Key;
    forall k | k in Keys(defaults + [e]) ensures k in Keys(defaults) + {Key(e)} {
      var x :| x in defaults + [e] && Key(x) == k;
    }
    forall x | x in defaults + [e] ensures Key(x) in Keys(defaults + [e]) {}
    forall x | x in defaults ensures Key(x) in Keys(defaults + [e]) {
      assert x in defaults + [e];
    }
    assert e in defaults + [e];
  }

  method ReplaceOrAppendEnvValues(defaults: seq<string>, overrides: seq<string>) returns (results: seq<string>)
    ensures results == Merged(defaults, overrides)
  {
    var cache: map<string, nat> := map[];
    results := [];
    for i := 0 to |defaults|
      invariant results == defaults[..i]
      invariant Caches(cache, defaults[..i])
    {
      CachesStep(cache, defaults[..i], defaults[i]);
      assert defaults[..i + 1] == defaults[..i] + [defaults[i]];
      results := results + [defaults[i]];
      cache := cache[Key(defaults[i]) := i];
    }
    assert defaults[..|defaults|] == defaults;
    assert results == Slots(defaults, []) + Appended(defaults, []);
    assert overrides[..0] == [];

    for n := 0 to |overrides|
      invariant results == Slots(defaults, overrides[..n]) + Appended(defaults, overrides[..n])
    {
      var value := overrides[n];
      var k := Key(value);
      assert overrides[..n + 1] == overrides[..n] + [value];
      OverrideStep(defaults, overrides[..n], value, if k in cache then Some(cache[k]) else None);
      if !Sets(value) {
        if k in cache {
          results := results[cache[k] := ""];
        }
        continue;
      }
      if k in cache {
        results := results[cache[k] := value];
      } else {
        results := results + [value];
      }
    }
    assert overrides[..|overrides|] == overrides;
    results := Compact(results);
  }

  /** The loop that removes the entries marked empty, in place. */
  method Compact(entries: seq<string>) returns (results: seq<string>)
    ensures results == NonEmpty(entries)
  {
    results := entries;
    var i := 0;
    while i < |results|
      invariant 0 <= i <= |results|
      invariant NonEmpty(results) == NonEmpty(entries)
      invariant forall j | 0 <= j < i :: results[j] != ""
      decreases |results| - i
    {
      if results[i] == "" {
        NonEmptyDelete(results, i);
        results := results[..i] + results[i + 1..];
        i := i - 1;
      }
      i := i + 1;
    }
    NonEmptyFull(results);
  }

  // ---- The order of the merged list ----

  /** `out` is what `entries` holds at the given positions, which rise. */
  ghost predicate Picks(entries: seq<string>, out: seq<string>, pick: seq<nat>) {
    && |out| == |pick|
    && (forall k | 0 <= k < |pick| :: pick[k] < |entries| && out[k] == entries[pick[k]])
    && (forall j, k | 0 <= j < k < |pick| :: pick[j] < pick[k])
  }

  lemma NoPicks(entries: seq<string>)
    ensures Picks(entries, [], [])
  {
  }

  lemma PicksMore(entries: seq<string>, out: seq<string>, pick: seq<nat>, e: string, taken: bool)
    requires Picks(entries, out, pick)
    ensures
      var more := if taken then pick + [|entries|] else pick;
      && Picks(entries + [e], if taken then out + [e] else out, more)
      && forall i | 0 <= i <= |entries| :: i in more <==> if i == |entries| then taken else i in pick
  {
    assert forall k | 0 <= k < |pick| :: pick[k] < |entries|;
  }

  lemma {:induction false} NonEmptyPicks(entries: seq<string>) returns (pick: seq<nat>)
    ensures Picks(entries, NonEmpty(entries), pick)
    ensures forall i | 0 <= i < |entries| :: i in pick <==> entries[i] != ""
    decreases |entries|
  {
    pick := [];
    if entries != [] {
      var n := |entries| - 1;
      var front, e := entries[..n], entries[n];
      assert entries == front + [e];
      pick := NonEmptyPicks(front);
      NonEmptyConcat(front, [e]);
      assert NonEmpty(entries) == NonEmpty(front) + NonEmpty([e]);
      assert NonEmpty([e]) == if e == "" then [] else [e];
      PicksMore(front, NonEmpty(front), pick, e, e != "");
      pick := if e != "" then pick + [n] else pick;
    }
  }

  lemma {:induction false} AppendedPicks(defaults: seq<string>, overrides: seq<string>) returns (pick: seq<nat>)
    ensures Picks(overrides, Appended(defaults, overrides), pick)
    ensures forall i | 0 <= i < |overrides| ::
              i in pick <==> Sets(overrides[i]) && Key(overrides[i]) !in Keys(defaults)
    decreases |overrides|
  {
    hide Key, Keys, Sets, Picks;
    pick := [];
    NoPicks(overrides);
    if overrides != [] {
      var n := |overrides| - 1;
      var front, e := overrides[..n], overrides[n];
      assert overrides == front + [e];
      pick := AppendedPicks(defaults, front);
      var taken := Sets(e) && Key(e) !in Keys(defaults);
      PicksMore(front, Appended(defaults, front), pick, e, taken);
      assert Appended(defaults, overrides)
          == if taken then Appended(defaults, front) + [e] else Appended(defaults, front);
      pick := if taken then pick + [n] else pick;
    }
  }

  /** A default that is still there after the merge. */
  predicate Survives(defaults: seq<string>, overrides: seq<string>, i: nat)
    requires i < |defaults|
  {
    if IsLast(defaults, i) && LastFor(overrides, Key(defaults[i])).Some?
    then Sets(LastFor(overrides, Key(defaults[i])).value)
    else defaults[i] != ""
  }

  /** The merged list is a first part, the surviving defaults in their order, each under its own key and with the
      last override of the key if it is the key's last default, and a second part, the overrides that set keys which
      no default has, in their order. */
  lemma MergedInOrder(defaults: seq<string>, overrides: seq<string>)
    returns (first: seq<string>, kept: seq<nat>, second: seq<string>, added: seq<nat>)
    ensures Merged(defaults, overrides) == first + second
    ensures |first| == |kept| && (forall j, k | 0 <= j < k < |kept| :: kept[j] < kept[k])
    ensures forall k | 0 <= k < |kept| ::
              && kept[k] < |defaults| && Key(first[k]) == Key(defaults[kept[k]])
              && first[k] == var v := LastFor(overrides, Key(defaults[kept[k]]));
                             if IsLast(defaults, kept[k]) && v.Some? then v.value else defaults[kept[k]]
    ensures forall i | 0 <= i < |defaults| :: i in kept <==> Survives(defaults, overrides, i)
    ensures Picks(overrides, second, added)
    ensures forall i | 0 <= i < |overrides| ::
              i in added <==> Sets(overrides[i]) && Key(overrides[i]) !in Keys(defaults)
  {
    hide Key, Keys, LastFor, IsLast;
    var slots := Slots(defaults, overrides);
    first, second := NonEmpty(slots), Appended(defaults, overrides);
    kept := NonEmptyPicks(slots);
    added := AppendedPicks(defaults, overrides);
    NonEmptyConcat(slots, second);
    forall e | e in second ensures e != "" {
      var k :| 0 <= k < |second| && second[k] == e;
      assert added[k] in added && Sets(overrides[added[k]]);
    }
    NonEmptyFull(second);
    forall i | 0 <= i < |defaults|
      ensures slots[i] != "" <==> Survives(defaults, overrides, i)
      ensures slots[i] != "" ==> Key(slots[i]) == Key(defaults[i])
    {
      SlotKey(defaults, overrides, i);
    }
    forall k | 0 <= k < |kept|
      ensures Key(first[k]) == Key(defaults[kept[k]])
      ensures first[k] == var v := LastFor(overrides, Key(defaults[kept[k]]));
                          if IsLast(defaults, kept[k]) && v.Some? then v.value else defaults[kept[k]]
    {
      assert kept[k] in kept;
    }
  }

  /** Where nothing is unset and no default is empty, every default keeps its position. */
  lemma DefaultsKeepPlaces(defaults: seq<string>, overrides: seq<string>, i: nat)
    requires i < |defaults| && (forall e | e in defaults :: e != "") && (forall v | v in overrides :: Sets(v))
    ensures i < |Merged(defaults, overrides)| && Key(Merged(defaults, overrides)[i]) == Key(defaults[i])
  {
    hide Key;
    var slots := Slots(defaults, overrides);
    forall e | e in slots ensures e != "" {
      var j :| 0 <= j < |slots| && slots[j] == e;
      LastForIn(overrides, Key(defaults[j]));
      assert defaults[j] in defaults;
    }
    NonEmptyConcat(slots, Appended(defaults, overrides));
    NonEmptyFull(slots);
    SlotKey(defaults, overrides, i);
    assert slots[i] in slots;
  }

  lemma {:induction false} LastForIn(overrides: seq<string>, k: string)
    ensures LastFor(overrides, k).Some? ==> LastFor(overrides, k).value in overrides
  {
    if overrides != [] {
      LastForIn(overrides[..|overrides| - 1], k);
    }
  }

  // ---- What the merged list means as an environment ----

  /** The environment a list of entries stands for: later entries win, empty ones say nothing. */
  function ToMap(entries: seq<string>): map<string, string> {
    if entries == [] then map[]
    else
      var last := |entries| - 1;
      var m := ToMap(entries[..last]);
      if entries[last] == "" then m else m[Key(entries[last]) := entries[last]]
  }

  /** Reference semantics: set or unset one key at a time, in order. */
  function Override(env: map<string, string>, overrides: seq<string>): map<string, string> {
    if overrides == [] then env
    else
      var last := |overrides| - 1;
      var m := Override(env, overrides[..last]);
      var v := overrides[last];
      if Sets(v) then m[Key(v) := v] else m - {Key(v)}
  }

  function Lookup(env: map<string, string>, k: string): Option<string> {
    if k in env then Some(env[k]) else None
  }

  /** The last non-empty entry of a key. */
  function LastEntry(entries: seq<string>, k: string): Option<string> {
    if entries == [] then None
    else
      var last := |entries| - 1;
      if entries[last] != "" && Key(entries[last]) == k then Some(entries[last]) else LastEntry(entries[..last], k)
  }

  lemma {:induction false} LookupToMap(entries: seq<string>, k: string)
    ensures Lookup(ToMap(entries), k) == LastEntry(entries, k)
  {
    if entries != [] {
      LookupToMap(entries[..|entries| - 1], k);
    }
  }

  lemma {:induction false} LookupOverride(env: map<string, string>, overrides: seq<string>, k: string)
    ensures Lookup(Override(env, overrides), k)
         == match LastFor(overrides, k)
            case None => Lookup(env, k)
            case Some(v) => if Sets(v) then Some(v) else None
  {
    if overrides != [] {
      LookupOverride(env, overrides[..|overrides| - 1], k);
    }
  }

  lemma {:induction false} LastEntryConcat(a: seq<string>, b: seq<string>, k: string)
    ensures LastEntry(a + b, k) == if LastEntry(b, k).Some? then LastEntry(b, k) else LastEntry(a, k)
  {
    if b == [] {
      assert a + b == a;
    } else {
      LastEntryConcat(a, b[..|b| - 1], k);
      assert (a + b)[..|a + b| - 1] == a + b[..|b| - 1];
    }
  }

  lemma {:induction false} LastEntryNonEmpty(entries: seq<string>, k: string)
    ensures LastEntry(NonEmpty(entries), k) == LastEntry(entries, k)
  {
    if entries != [] {
      var head := [entries[0]];
      LastEntryNonEmpty(entries[1..], k);
      assert entries == head + entries[1..];
      LastEntryConcat(head, entries[1..], k);
      assert head[..0] == [];
      LastEntryConcat(NonEmpty(head), NonEmpty(entries[1..]), k);
      assert NonEmpty(entries) == NonEmpty(head) + NonEmpty(entries[1..]);
    }
  }

  lemma {:induction false} LastEntryAppended(defaults: seq<string>, overrides: seq<string>, k: string)
    ensures LastEntry(Appended(defaults, overrides), k)
         == if k in Keys(defaults) then None else LastSet(overrides, k)
  {
    if overrides != [] {
      var last := |overrides| - 1;
      var v := overrides[last];
      var front := Appended(defaults, overrides[..last]);
      LastEntryAppended(defaults, overrides[..last], k);
      assert (front + [v])[..|front|] == front;
      assert Sets(v) ==> v != "";
      assert front + [] == front;
    }
  }

  /** The last override that sets a key, whether or not it was unset afterwards. */
  function LastSet(overrides: seq<string>, k: string): Option<string> {
    if overrides == [] then None
    else
      var last := |overrides| - 1;
      if Sets(overrides[last]) && Key(overrides[last]) == k then Some(overrides[last])
      else LastSet(overrides[..last], k)
  }

  lemma {:induction false} LastForKey(overrides: seq<string>, k: string)
    ensures LastFor(overrides, k).Some? ==> Key(LastFor(overrides, k).value) == k
    ensures LastFor(overrides, k).Some? && Sets(LastFor(overrides, k).value)
        ==> LastSet(overrides, k) == LastFor(overrides, k)
    ensures LastFor(overrides, k).None? ==> LastSet(overrides, k).None?
  {
    if overrides != [] {
      LastForKey(overrides[..|overrides| - 1], k);
    }
  }

  /** The defaults before the last one of a key. */
  function Earlier(defaults: seq<string>, k: string): seq<string> {
    if defaults == [] then []
    else
      var last := |defaults| - 1;
      if Key(defaults[last]) == k then defaults[..last] else Earlier(defaults[..last], k)
  }

  /** k's last override unsets it, yet an entry of k survives the merge: a new key that some override
      set first, or a non-empty default of k that is followed by another default of k. */
  predicate Stale(defaults: seq<string>, overrides: seq<string>, k: string) {
    && LastFor(overrides, k).Some?
    && !Sets(LastFor(overrides, k).value)
    && (if k in Keys(defaults) then LastEntry(Earlier(defaults, k), k).Some? else LastSet(overrides, k).Some?)
  }

  /** Reading a prefix of the slots: below the last default of k nothing of k has changed. */
  lemma {:induction false} LastEntrySlots(defaults: seq<string>, overrides: seq<string>, k: string, n: nat)
    requires n <= |defaults|
    requires forall j | n <= j < |defaults| :: Key(defaults[j]) != k
    ensures LastEntry(Slots(defaults, overrides)[..n], k)
         == if k !in Keys(defaults[..n]) then None
            else match LastFor(overrides, k)
                 case None => LastEntry(defaults[..n], k)
                 case Some(v) => if Sets(v) then Some(v) else LastEntry(Earlier(defaults[..n], k), k)
  {
    hide Key, LastFor, LastEntry, Earlier, Keys, Slots, Slot;
    LastForKey(overrides, k);
    if n == 0 {
      Nothing(k);
      assert Slots(defaults, overrides)[..0] == defaults[..0] == [];
    } else {
      var slots := Slots(defaults, overrides);
      var d := defaults[n - 1];
      assert slots[..n] == slots[..n - 1] + [slots[n - 1]] && defaults[..n] == defaults[..n - 1] + [d];
      Snoc(slots[..n - 1], slots[n - 1], k);
      Snoc(defaults[..n - 1], d, k);
      if Key(d) == k {
        LastSlot(defaults, overrides, n - 1);
        LastEntryUntouched(defaults, overrides, k, n - 1, n - 1);
      } else {
        LastEntrySlots(defaults, overrides, k, n - 1);
        SlotKey(defaults, overrides, n - 1);
      }
    }
  }

  lemma Nothing(k: string)
    ensures k !in Keys([]) && LastEntry([], k).None? && Earlier([], k) == []
  {
  }

  /** What one more entry at the end adds. */
  lemma Snoc(entries: seq<string>, e: string, k: string)
    ensures LastEntry(entries + [e], k) == if e != "" && Key(e) == k then Some(e) else LastEntry(entries, k)
    ensures Earlier(entries + [e], k) == if Key(e) == k then entries else Earlier(entries, k)
    ensures k in Keys(entries + [e]) <==> Key(e) == k || k in Keys(entries)
  {
    hide Key;
    assert (entries + [e])[..|entries|] == entries;
    assert e in entries + [e];
    forall x | x in entries ensures x in entries + [e] {}
  }

  lemma LastSlot(defaults: seq<string>, overrides: seq<string>, i: nat)
    requires i < |defaults| && IsLast(defaults, i)
    ensures Slots(defaults, overrides)[i] == Effect(LastFor(overrides, Key(defaults[i])), defaults[i])
  {
  }

  lemma SlotKey(defaults: seq<string>, overrides: seq<string>, i: nat)
    requires i < |defaults|
    ensures
      var slot := Slots(defaults, overrides)[i];
      slot == "" || Key(slot) == Key(defaults[i])
  {
    LastForKey(overrides, Key(defaults[i]));
  }

  lemma {:induction false} LastEntryUntouched(
    defaults: seq<string>, overrides: seq<string>, k: string, n: nat, m: nat)
    requires m <= n < |defaults| && Key(defaults[n]) == k
    ensures LastEntry(Slots(defaults, overrides)[..m], k) == LastEntry(defaults[..m], k)
  {
    hide Key, Effect, LastFor;
    if m > 0 {
      var slots := Slots(defaults, overrides);
      LastEntryUntouched(defaults, overrides, k, n, m - 1);
      assert slots[..m][..m - 1] == slots[..m - 1] && defaults[..m][..m - 1] == defaults[..m - 1];
      SlotKey(defaults, overrides, m - 1);
      assert Key(defaults[m - 1]) == k ==> !IsLast(defaults, m - 1);
    }
  }

  /** The environment the merge stands for, key by key and for all inputs. */
  lemma MergedLookup(defaults: seq<string>, overrides: seq<string>, k: string)
    ensures Lookup(ToMap(Merged(defaults, overrides)), k)
         == match LastFor(overrides, k)
            case None => Lookup(ToMap(defaults), k)
            case Some(v) =>
              if Sets(v) then Some(v)
              else if k in Keys(defaults) then LastEntry(Earlier(defaults, k), k)
              else LastSet(overrides, k)
  {
    var slots, appended := Slots(defaults, overrides), Appended(defaults, overrides);
    LookupToMap(Merged(defaults, overrides), k);
    LookupToMap(defaults, k);
    LastEntryNonEmpty(slots + appended, k);
    LastEntryConcat(slots, appended, k);
    LastEntryAppended(defaults, overrides, k);
    LastForKey(overrides, k);
    LastEntrySlots(defaults, overrides, k, |defaults|);
    assert slots[..|defaults|] == slots && defaults[..|defaults|] == defaults;
    if k !in Keys(defaults) {
      NoEntry(defaults, k);
    }
  }

  lemma {:induction false} NoEntry(entries: seq<string>, k: string)
    requires k !in Keys(entries)
    ensures LastEntry(entries, k).None?
  {
    if entries != [] {
      NoEntry(entries[..|entries| - 1], k);
    }
  }

  /** The merge agrees with overriding one key at a time exactly when no unset key is stale. */
  lemma MergeRefinesOverride(defaults: seq<string>, overrides: seq<string>)
    ensures ToMap(Merged(defaults, overrides)) == Override(ToMap(defaults), overrides)
       <==> forall k :: !Stale(defaults, overrides, k)
  {
    var merged, folded := ToMap(Merged(defaults, overrides)), Override(ToMap(defaults), overrides);
    forall k
      ensures Lookup(merged, k) == Lookup(folded, k) <==> !Stale(defaults, overrides, k)
    {
      MergedLookup(defaults, overrides, k);
      LookupOverride(ToMap(defaults), overrides, k);
    }
    if forall k :: !Stale(defaults, overrides, k) {
      forall k
        ensures (k in merged <==> k in folded) && (k in merged ==> merged[k] == folded[k])
      {
        assert !Stale(defaults, overrides, k);
        assert Lookup(merged, k) == Lookup(folded, k);
      }
    } else {
      var k :| Stale(defaults, overrides, k);
      assert Lookup(merged, k) != Lookup(folded, k);
    }
  }

  predicate SetThenUnset(defaults: seq<string>, overrides: seq<string>, k: string) {
    && k !in Keys(defaults)
    && LastSet(overrides, k).Some?
    && LastFor(overrides, k).Some?
    && !Sets(LastFor(overrides, k).value)
  }

  /** With one default per key, the only keys that can go wrong are new ones set and then unset. */
  lemma MergeRefinesOverrideForDistinctKeys(defaults: seq<string>, overrides: seq<string>)
    requires forall i | 0 <= i < |defaults| :: IsLast(defaults, i)
    ensures ToMap(Merged(defaults, overrides)) == Override(ToMap(defaults), overrides)
       <==> forall k :: !SetThenUnset(defaults, overrides, k)
  {
    MergeRefinesOverride(defaults, overrides);
    forall k
      ensures Stale(defaults, overrides, k) <==> SetThenUnset(defaults, overrides, k)
    {
      LastForKey(overrides, k);
      if k in Keys(defaults) {
        NoEarlier(defaults, k);
      }
    }
  }

  lemma {:induction false} NoEarlier(defaults: seq<string>, k: string)
    requires forall i | 0 <= i < |defaults| :: IsLast(defaults, i)
    ensures LastEntry(Earlier(defaults, k), k).None?
  {
    if defaults != [] {
      var last := |defaults| - 1;
      var front := defaults[..last];
      if Key(defaults[last]) == k {
        forall e | e in front ensures Key(e) != k {
          var i :| 0 <= i < last && front[i] == e;
          assert IsLast(defaults, i);
        }
        assert k !in Keys(front);
        NoEntry(front, k);
      } else {
        forall i | 0 <= i < last ensures IsLast(front, i) {
          assert IsLast(defaults, i);
        }
        NoEarlier(front, k);
      }
    }
  }

  lemma KeyOf(k: string, v: string)
    requires '=' !in k
    ensures Key(k + ['='] + v) == k && Key(k) == k
  {
    SplitAt(k, v, '=');
    SplitNone(k, '=');
  }

  /** Setting a new key and then unsetting it leaves it set: the cache never learns of appended entries. */
  lemma UnsetOfNewKeyIsLost(defaults: seq<string>, k: string, v: string)
    requires '=' !in k && k !in Keys(defaults)
    ensures
      var overrides := [k + ['='] + v, k];
      && k in ToMap(Merged(defaults, overrides))
      && k !in Override(ToMap(defaults), overrides)
  {
    KeyOf(k, v);
    var set_ := k + ['='] + v;
    var overrides := [set_, k];
    assert overrides[..1] == [set_] && overrides[..1][..0] == [];
    assert Sets(set_) && !Sets(k);
    assert LastFor(overrides, k) == Some(k);
    assert LastSet(overrides, k) == Some(set_) by {
      assert LastSet([set_], k) == Some(set_);
    }
    MergedLookup(defaults, overrides, k);
  }
}
