/** What restoring does with each successor of a push, in particular with those whose content is missing. */
module RestoreLaws {
  import opened GoStrings
  import opened Paths
  import opened Disk
  import opened RoundTrip
  import opened StoreSpec
  import opened PushEffects

  // ---- Passing over ----

  /** Content that was never stored: its digest is not indexed, and the fallback does not hold it. */
  predicate Unstored(s: State, i: Item) {
    i.digest !in s.index && Key(i) !in s.fallback
  }

  /** An item that restoring passes over: it has no name, its name exists, or its content was never stored. */
  predicate PassedOver(s: State, i: Item) {
    i.name == "" || i.name in s.names || Unstored(s, i)
  }

  lemma UnstoredFetch(c: Config, s: State, i: Item)
    ensures Unstored(s, i) ==> Fetch(c, s, i.(name := "")) == Err(NotFound)
    ensures Fetch(c, s, i.(name := "")).Ok? ==> !Unstored(s, i)
  {
    hide Locate;
  }

  /** Restoring never fails because something is missing. */
  lemma {:induction false} RestoreNeverMissing(c: Config, s: State, items: seq<Item>, t: string -> Trouble)
    ensures Restore(c, s, items, t).err != Some(NotFound)
    decreases |items|
  {
    hide Put, Fetch;
    if items != [] {
      var i := items[0];
      var data := Fetch(c, s, i.(name := ""));
      if data.Ok? {
        PutShape(c, s, i, data.value, t(i.name));
        RestoreNeverMissing(c, Put(c, s, i, data.value, t(i.name)).state, items[1..], t);
      }
      RestoreNeverMissing(c, s, items[1..], t);
    }
  }

  /** Where there is nothing to restore, or nothing to restore it from, restoring succeeds and changes nothing. */
  lemma {:induction false} RestoreNothing(c: Config, s: State, items: seq<Item>, t: string -> Trouble)
    requires forall i | i in items :: PassedOver(s, i)
    ensures Restore(c, s, items, t) == Done(s, None)
    decreases |items|
  {
    hide Put, Fetch;
    if items != [] {
      assert items[0] in items;
      UnstoredFetch(c, s, items[0]);
      assert forall i | i in items[1..] :: i in items;
      RestoreNothing(c, s, items[1..], t);
    }
  }

  /** An item without a name, whose name exists, or whose digest the store knows in no form. */
  predicate Idle(s: State, i: Item) {
    i.name == "" || i.name in s.names || (i.digest !in s.index && forall k | k in s.fallback :: k.digest != i.digest)
  }

  function Busy(s: State, items: seq<Item>): seq<Item> {
    if items == [] then [] else (if Idle(s, items[0]) then [] else [items[0]]) + Busy(s, items[1..])
  }

  /** Idle items can be dropped, wherever they stand in the list: they stay idle whatever is restored before. */
  lemma RestoreDrops(c: Config, s: State, items: seq<Item>, t: string -> Trouble)
    ensures Restore(c, s, items, t) == Restore(c, s, Busy(s, items), t)
  {
    RestoreDropsFrom(c, s, s, items, t);
  }

  lemma {:induction false} RestoreDropsFrom(c: Config, s0: State, s: State, items: seq<Item>, t: string -> Trouble)
    requires forall i :: Idle(s0, i) ==> Idle(s, i)
    ensures Restore(c, s, items, t) == Restore(c, s, Busy(s0, items), t)
    decreases |items|
  {
    hide Put, Fetch, Idle;
    if items != [] {
      var i := items[0];
      IdlePassed(c, s, i);
      IdlePassed(c, s0, i);
      var data := Fetch(c, s, i.(name := ""));
      if Idle(s0, i) {
        RestoreDropsFrom(c, s0, s, items[1..], t);
        assert Busy(s0, items) == Busy(s0, items[1..]);
      } else {
        var kept := Busy(s0, items);
        assert kept[0] == i && kept[1..] == Busy(s0, items[1..]);
        RestoreDropsFrom(c, s0, s, items[1..], t);
        if data.Ok? {
          var put := Put(c, s, i, data.value, t(i.name)).state;
          IdleStays(c, s, i, data.value, t(i.name));
          RestoreDropsFrom(c, s0, put, items[1..], t);
        }
      }
    }
  }

  lemma IdlePassed(c: Config, s: State, i: Item)
    ensures i.name == "" ==> Idle(s, i)
    ensures Idle(s, i) ==> i.name == "" || i.name in s.names || Fetch(c, s, i.(name := "")) == Err(NotFound)
  {
    hide Locate;
    assert Key(i).digest == i.digest;
  }

  /** Pushing what could be fetched makes no idle item busy. */
  lemma IdleStays(c: Config, s: State, i: Item, src: Source, t: Trouble)
    requires i.name != "" && Fetch(c, s, i.(name := "")).Ok?
    ensures forall other :: Idle(s, other) ==> Idle(Put(c, s, i, src, t).state, other)
  {
    hide Put, Locate;
    PutShape(c, s, i, src, t);
    PutDigests(c, s, i, src, t);
    assert Key(i).digest == i.digest;
  }

  // ---- Stopping ----

  /** Restoring a list is restoring its beginning and then the rest, unless the beginning fails. */
  lemma {:induction false} RestoreConcat(c: Config, s: State, a: seq<Item>, b: seq<Item>, t: string -> Trouble)
    ensures
      var first := Restore(c, s, a, t);
      Restore(c, s, a + b, t) == if first.err.Some? then first else Restore(c, first.state, b, t)
    decreases |a|
  {
    hide Put, Fetch;
    if a == [] {
      assert a + b == b;
    } else {
      var i := a[0];
      assert (a + b)[0] == i && (a + b)[1..] == a[1..] + b;
      RestoreConcat(c, s, a[1..], b, t);
      var data := Fetch(c, s, i.(name := ""));
      if data.Ok? {
        RestoreConcat(c, Put(c, s, i, data.value, t(i.name)).state, a[1..], b, t);
      }
    }
  }

  /** Everything before item j is restored, and item j cannot be: its content is there and cannot be opened, or
      its own push fails. */
  ghost predicate StopsAt(c: Config, s: State, items: seq<Item>, t: string -> Trouble, j: nat, done: Done)
    requires j < |items|
  {
    var before, i := Restore(c, s, items[..j], t), items[j];
    && before.err.None? && i.name != "" && i.name !in before.state.names
    && match Fetch(c, before.state, i.(name := ""))
       case Err(e) => e != NotFound && done == Done(before.state, Some(e))
       case Ok(src) => done.err.Some? && done == Put(c, before.state, i, src, t(i.name))
  }

  /** Restoring stops at the first item it cannot restore, and only there. */
  lemma RestoreStops(c: Config, s: State, items: seq<Item>, t: string -> Trouble, j: nat, done: Done)
    requires j < |items| && StopsAt(c, s, items, t, j, done)
    ensures Restore(c, s, items, t) == done && done.err.Some?
  {
    hide Put, Fetch;
    var before, i, rest := Restore(c, s, items[..j], t), items[j], items[j..];
    assert items == items[..j] + rest && rest[0] == i;
    RestoreConcat(c, s, items[..j], rest, t);
    var data := Fetch(c, before.state, i.(name := ""));
    if data.Ok? {
      PutShape(c, before.state, i, data.value, t(i.name));
    }
  }

  lemma {:induction false} RestoreFailsAt(c: Config, s: State, items: seq<Item>, t: string -> Trouble) returns (j: nat)
    requires Restore(c, s, items, t).err.Some?
    ensures j < |items| && StopsAt(c, s, items, t, j, Restore(c, s, items, t))
    decreases |items|
  {
    hide Put, Fetch;
    var front, last := items[..|items| - 1], items[|items| - 1];
    assert items == front + [last];
    RestoreConcat(c, s, front, [last], t);
    if Restore(c, s, front, t).err.Some? {
      j := RestoreFailsAt(c, s, front, t);
      assert items[..j] == front[..j];
    } else {
      j := |front|;
    }
  }

  /** When restoring fails, and how: exactly at some item that stops it. */
  lemma RestoreFailsExactly(c: Config, s: State, items: seq<Item>, t: string -> Trouble, e: Error)
    ensures Restore(c, s, items, t).err == Some(e)
       <==> exists j, done :: 0 <= j < |items| && StopsAt(c, s, items, t, j, done) && done.err == Some(e)
  {
    hide StopsAt;
    if Restore(c, s, items, t).err.Some? {
      var j := RestoreFailsAt(c, s, items, t);
    }
    forall j, done | 0 <= j < |items| && StopsAt(c, s, items, t, j, done)
      ensures Restore(c, s, items, t) == done
    {
      RestoreStops(c, s, items, t, j, done);
    }
  }
}
