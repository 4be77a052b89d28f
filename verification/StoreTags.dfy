/** References: tagging a descriptor in a store, and what resolving gives over a whole run. Descriptors carry
    their annotations by reference, so the maps live in a heap of their own. */
module StoreTags {
  import opened GoStrings
  import opened Paths
  import opened RoundTrip
  import opened StoreSpec
  import opened PushEffects
  import opened StoreResults
  import StoreLaws

  const TITLE := "org.opencontainers.image.title"
  const REF_NAME := "org.opencontainers.image.ref.name"
  const UNPACK := "io.deis.oras.content.unpack"
  const CHECKSUM := "io.deis.oras.content.digest"

  type Notes = map<string, string>

  /** A descriptor, whose annotations, if any, are found at an address. */
  datatype Desc<A> = Desc(mediaType: string, digest: Digest, size: int, notes: Option<A>)

  datatype Tags<A> = Tags(refs: map<string, Desc<A>>, notes: map<A, Notes>)

  function Note(notes: Notes, key: string): string {
    if key in notes then notes[key] else ""
  }

  function NotesOf<A>(notes: map<A, Notes>, d: Desc<A>): Notes {
    if d.notes.Some? && d.notes.value in notes then notes[d.notes.value] else map[]
  }

  /** What the store reads off a descriptor. */
  function Described(c: Config, notes: Notes, mediaType: string, digest: Digest, size: int): Item {
    Item(
      mediaType, digest, size, Note(notes, TITLE), Note(notes, UNPACK) == "true", Note(notes, CHECKSUM),
      c.parses(notes))
  }

  function ItemOf<A>(c: Config, notes: map<A, Notes>, d: Desc<A>): Item {
    Described(c, NotesOf(notes, d), d.mediaType, d.digest, d.size)
  }

  /** `Tag`: the reference is written into the descriptor's own annotations, or into new ones. */
  function Tag<A>(c: Config, s: State, tags: Tags<A>, d: Desc<A>, ref: string, spare: A): Result<Tags<A>, Error> {
    if ref == "" then Err(MissingReference)
    else if !Exists(s, ItemOf(c, tags.notes, d)) then Err(NotFound)
    else
      var at := Address(d, spare);
      Ok(Tags(tags.refs[ref := d.(notes := Some(at))], tags.notes[at := NotesOf(tags.notes, d)[REF_NAME := ref]]))
  }

  function Address<A>(d: Desc<A>, spare: A): A {
    if d.notes.Some? then d.notes.value else spare
  }

  function Resolve<A>(refs: map<string, Desc<A>>, ref: string): Result<Desc<A>, Error> {
    if ref == "" then Err(MissingReference)
    else if ref !in refs then Err(NotStored)
    else Ok(refs[ref])
  }

  /** When a tag succeeds, and all that it changes: the reference, which gets the same content, and one key of one map
      of annotations, the descriptor's own or a new one. */
  lemma TagExactly<A>(c: Config, s: State, tags: Tags<A>, d: Desc<A>, ref: string, spare: A)
    ensures
      var i, r := ItemOf(c, tags.notes, d), Tag(c, s, tags, d, ref, spare);
      && (r.Ok? <==> ref != "" && (i.name == "" || i.name in s.names)
                     && (i.digest in s.index || Key(i) in s.fallback))
      && (r == Err(MissingReference) <==> ref == "")
      && (r.Ok? ==>
            var at := if d.notes.Some? then d.notes.value else spare;
            && r.value.refs.Keys == tags.refs.Keys + {ref}
            && r.value.refs[ref] == Desc(d.mediaType, d.digest, d.size, Some(at))
            && (forall other | other in tags.refs && other != ref :: r.value.refs[other] == tags.refs[other])
            && at in r.value.notes && r.value.notes[at] == NotesOf(tags.notes, d)[REF_NAME := ref]
            && (forall b | b in tags.notes && b != at :: b in r.value.notes && r.value.notes[b] == tags.notes[b]))
  {
  }

  // ---- Runs ----

  datatype Event<A> = StoreEvent(op: Op) | TagEvent(desc: Desc<A>, ref: string, spare: A)

  datatype Full<A> = Full(store: State, tags: Tags<A>)

  ghost function Step<A>(c: Config, f: Full<A>, e: Event<A>): Full<A> {
    match e
    case StoreEvent(op) => f.(store := Apply(c, f.store, op))
    case TagEvent(d, ref, spare) =>
      match Tag(c, f.store, f.tags, d, ref, spare)
      case Ok(tags) => f.(tags := tags)
      case Err(_) => f
  }

  ghost function After<A>(c: Config, f: Full<A>, es: seq<Event<A>>): Full<A>
    decreases |es|
  {
    if es == [] then f else Step(c, After(c, f, es[..|es| - 1]), es[|es| - 1])
  }

  /** The k-th event is a tag of the reference, and it succeeds. */
  ghost predicate Tagged<A>(c: Config, f: Full<A>, es: seq<Event<A>>, k: nat, ref: string)
    requires k < |es|
  {
    && es[k].TagEvent? && es[k].ref == ref
    && var before := After(c, f, es[..k]); Tag(c, before.store, before.tags, es[k].desc, ref, es[k].spare).Ok?
  }

  /** New maps are new. */
  ghost predicate Allocates<A>(f: Full<A>, e: Event<A>) {
    e.TagEvent? ==>
      && (e.desc.notes.Some? ==> e.desc.notes.value in f.tags.notes)
      && e.spare !in f.tags.notes
  }

  ghost predicate AllAllocate<A>(c: Config, f: Full<A>, es: seq<Event<A>>) {
    forall k | 0 <= k < |es| :: Allocates(After(c, f, es[..k]), es[k])
  }

  lemma Prefix<A>(c: Config, f: Full<A>, es: seq<Event<A>>)
    requires es != [] && AllAllocate(c, f, es)
    ensures AllAllocate(c, f, es[..|es| - 1])
    ensures Allocates(After(c, f, es[..|es| - 1]), es[|es| - 1])
    ensures forall k, ref | 0 <= k < |es| - 1 ::
      Tagged(c, f, es[..|es| - 1], k, ref) <==> Tagged(c, f, es, k, ref)
  {
    hide After, Allocates, Tag;
    var shorter := es[..|es| - 1];
    forall k | 0 <= k < |shorter| ensures shorter[..k] == es[..k] && shorter[k] == es[k] {}
    forall k | 0 <= k < |shorter| ensures Allocates(After(c, f, shorter[..k]), shorter[k]) {
      assert Allocates(After(c, f, es[..k]), es[k]);
    }
  }

  // ---- What a reference resolves to ----

  /** A stored reference leads to content that exists, through annotations that exist. */
  ghost predicate Stored<A>(c: Config, f: Full<A>, ref: string)
    requires ref in f.tags.refs
  {
    var d := f.tags.refs[ref];
    && d.notes.Some? && d.notes.value in f.tags.notes && REF_NAME in f.tags.notes[d.notes.value]
    && Exists(f.store, ItemOf(c, f.tags.notes, d))
  }

  lemma AddGrows(c: Config, s: State, name: string, mediaType: string, path: string, t: Trouble, tree: Tree)
    ensures Keeps(s, Add(c, s, name, mediaType, path, t, tree).state)
  {
    hide Locate, AbsPath, Listing;
  }

  lemma ApplyGrows(c: Config, s: State, op: Op)
    ensures Keeps(s, Apply(c, s, op))
  {
    hide Put, Restore, Successors, Keeps, Add;
    match op
    case PushOp(i, src, t) =>
      var put := Put(c, s, i, src, t(i.name)).state;
      PutShape(c, s, i, src, t(i.name));
      KeepsTrans(s, s, s);
      var found := Successors(c, put, i);
      if found.Ok? {
        StoreLaws.RestoreGrows(c, put, found.value, t);
        KeepsTrans(s, put, Restore(c, put, found.value, t).state);
      }
    case AddOp(name, mediaType, path, t, tree) =>
      AddGrows(c, s, name, mediaType, path, t, tree);
  }

  lemma KeepsTrans(a: State, b: State, d: State)
    ensures Keeps(a, a)
    ensures Keeps(a, b) && Keeps(b, d) ==> Keeps(a, d)
  {
  }

  lemma ExistsGrows(s: State, s': State, i: Item)
    requires Keeps(s, s') && Exists(s, i)
    ensures Exists(s', i)
  {
  }

  /** Existence does not depend on the reference written into the annotations. */
  lemma ExistsRetagged(c: Config, s: State, notes: Notes, mediaType: string, digest: Digest, size: int, ref: string)
    ensures Exists(s, Described(c, notes[REF_NAME := ref], mediaType, digest, size))
       <==> Exists(s, Described(c, notes, mediaType, digest, size))
  {
    assert TITLE[25] != REF_NAME[25] && UNPACK[0] != REF_NAME[0] && CHECKSUM[0] != REF_NAME[0];
  }

  lemma StepStored<A>(c: Config, f: Full<A>, e: Event<A>, ref: string)
    requires Allocates(f, e) && ref in f.tags.refs && Stored(c, f, ref)
    ensures ref in Step(c, f, e).tags.refs && Stored(c, Step(c, f, e), ref)
  {
    hide Apply, Described, Exists, Keeps;
    var d := f.tags.refs[ref];
    match e
    case StoreEvent(op) =>
      ApplyGrows(c, f.store, op);
      ExistsGrows(f.store, Apply(c, f.store, op), ItemOf(c, f.tags.notes, d));
    case TagEvent(other, r, spare) =>
      ExistsRetagged(c, f.store, NotesOf(f.tags.notes, d), d.mediaType, d.digest, d.size, r);
      ExistsRetagged(c, f.store, NotesOf(f.tags.notes, other), other.mediaType, other.digest, other.size, r);
  }

  lemma TaggedStored<A>(c: Config, f: Full<A>, e: Event<A>)
    requires e.TagEvent? && Tag(c, f.store, f.tags, e.desc, e.ref, e.spare).Ok?
    ensures
      var f' := Step(c, f, e);
      && f'.tags.refs == f.tags.refs[e.ref := e.desc.(notes := Some(Address(e.desc, e.spare)))]
      && Stored(c, f', e.ref)
  {
    hide Described, Exists;
    var d := e.desc;
    ExistsRetagged(c, f.store, NotesOf(f.tags.notes, d), d.mediaType, d.digest, d.size, e.ref);
  }

  ghost predicate EverTagged<A>(c: Config, f: Full<A>, es: seq<Event<A>>, ref: string) {
    exists k | 0 <= k < |es| :: Tagged(c, f, es, k, ref)
  }

  lemma EverTaggedStep<A>(c: Config, f: Full<A>, es: seq<Event<A>>, ref: string)
    requires es != [] && AllAllocate(c, f, es)
    ensures EverTagged(c, f, es, ref) <==> EverTagged(c, f, es[..|es| - 1], ref) || Tagged(c, f, es, |es| - 1, ref)
  {
    hide Tagged, AllAllocate, After, Allocates;
    Prefix(c, f, es);
    var n := |es| - 1;
    if EverTagged(c, f, es, ref) {
      var k :| 0 <= k < |es| && Tagged(c, f, es, k, ref);
      assert k < n ==> Tagged(c, f, es[..n], k, ref);
    }
    if EverTagged(c, f, es[..n], ref) {
      var k :| 0 <= k < n && Tagged(c, f, es[..n], k, ref);
      assert Tagged(c, f, es, k, ref);
    }
  }

  /** A reference resolves if and only if it was tagged. */
  lemma {:induction false} ResolvesTagged<A>(c: Config, f: Full<A>, es: seq<Event<A>>, ref: string)
    requires f.tags.refs == map[] && AllAllocate(c, f, es)
    ensures Resolve(After(c, f, es).tags.refs, ref).Ok? <==> EverTagged(c, f, es, ref)
    decreases |es|
  {
    hide Apply, Exists, Described, AllAllocate, Allocates;
    if es != [] {
      hide EverTagged;
      Prefix(c, f, es);
      ResolvesTagged(c, f, es[..|es| - 1], ref);
      EverTaggedStep(c, f, es, ref);
    }
  }

  /** The last tag of a reference. */
  ghost predicate LastTag<A>(c: Config, f: Full<A>, es: seq<Event<A>>, k: nat, ref: string)
    requires k < |es|
  {
    Tagged(c, f, es, k, ref) && forall j | k < j < |es| :: !Tagged(c, f, es, j, ref)
  }

  lemma LastTagPrefix<A>(c: Config, f: Full<A>, es: seq<Event<A>>, k: nat, ref: string)
    requires AllAllocate(c, f, es) && k < |es| - 1 && LastTag(c, f, es, k, ref)
    ensures LastTag(c, f, es[..|es| - 1], k, ref) && !Tagged(c, f, es, |es| - 1, ref)
  {
    hide Tagged, AllAllocate, After, Allocates;
    Prefix(c, f, es);
    var shorter := es[..|es| - 1];
    forall j | k <= j < |shorter| ensures Tagged(c, f, shorter, j, ref) <==> Tagged(c, f, es, j, ref) {}
  }

  lemma {:induction false} LastTagStored<A>(c: Config, f: Full<A>, es: seq<Event<A>>, k: nat, ref: string)
    requires AllAllocate(c, f, es) && k < |es| && LastTag(c, f, es, k, ref)
    ensures
      var d := es[k].desc.(notes := Some(Address(es[k].desc, es[k].spare)));
      var f' := After(c, f, es);
      && Resolve(f'.tags.refs, ref) == Ok(d)
      && Stored(c, f', ref)
    decreases |es|
  {
    hide Apply, Exists, Described, AllAllocate, Allocates, Stored;
    var n := |es| - 1;
    Prefix(c, f, es);
    if k == n {
      TaggedStored(c, After(c, f, es[..n]), es[n]);
    } else {
      LastTagPrefix(c, f, es, k, ref);
      LastTagStored(c, f, es[..n], k, ref);
      StepStored(c, After(c, f, es[..n]), es[n], ref);
    }
  }

  /** In every run a reference resolves to the descriptor of its last tag, and that still exists. */
  lemma ResolvesToLastTag<A>(c: Config, f: Full<A>, es: seq<Event<A>>, k: nat, ref: string)
    requires AllAllocate(c, f, es) && k < |es| && LastTag(c, f, es, k, ref)
    ensures
      var f' := After(c, f, es);
      var r := Resolve(f'.tags.refs, ref);
      && r == Ok(es[k].desc.(notes := Some(Address(es[k].desc, es[k].spare))))
      && Exists(f'.store, ItemOf(c, f'.tags.notes, r.value))
  {
    hide Apply, Exists, Described, AllAllocate, Allocates, LastTag, After;
    LastTagStored(c, f, es, k, ref);
  }

  /** The k-th event is a successful tag of some reference through the annotations at an address. */
  ghost predicate TaggedThrough<A>(c: Config, f: Full<A>, es: seq<Event<A>>, k: nat, at: A)
    requires k < |es|
  {
    es[k].TagEvent? && Tagged(c, f, es, k, es[k].ref) && Address(es[k].desc, es[k].spare) == at
  }

  /** The ref-name annotation found through a resolved reference is that reference if and only if no other
      reference was tagged through the same annotations later. */
  lemma {:induction false} RefNameKept<A>(c: Config, f: Full<A>, es: seq<Event<A>>, k: nat, ref: string)
    requires AllAllocate(c, f, es) && k < |es| && LastTag(c, f, es, k, ref)
    ensures
      var at := Address(es[k].desc, es[k].spare);
      var notes := After(c, f, es).tags.notes;
      && at in notes && REF_NAME in notes[at]
      && (notes[at][REF_NAME] == ref <==> forall j | k < j < |es| :: !TaggedThrough(c, f, es, j, at))
    decreases |es|
  {
    hide Apply, Exists, Described, AllAllocate;
    var n := |es| - 1;
    var at := Address(es[k].desc, es[k].spare);
    Prefix(c, f, es);
    if k < n {
      LastTagPrefix(c, f, es, k, ref);
      RefNameKept(c, f, es[..n], k, ref);
      assert forall j | k < j < n :: TaggedThrough(c, f, es[..n], j, at) <==> TaggedThrough(c, f, es, j, at);
      if TaggedThrough(c, f, es, n, at) {
        assert es[n].ref != ref;
      }
    }
  }

  /** Two tags of one descriptor: both references resolve to it, and its annotations name the second. */
  lemma SharedAnnotations<A>(c: Config, f: Full<A>, d: Desc<A>, at: A, first: string, second: string)
    requires d.notes == Some(at) && at in f.tags.notes && Exists(f.store, ItemOf(c, f.tags.notes, d))
    requires first != "" && second != "" && first != second
    ensures
      var f' := Step(c, Step(c, f, TagEvent(d, first, at)), TagEvent(d, second, at));
      && Resolve(f'.tags.refs, first) == Ok(d) && Resolve(f'.tags.refs, second) == Ok(d)
      && Note(NotesOf(f'.tags.notes, d), REF_NAME) == second
  {
    hide Exists, Described;
    ExistsRetagged(c, f.store, f.tags.notes[at], d.mediaType, d.digest, d.size, first);
  }
}
