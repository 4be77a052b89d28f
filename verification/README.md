# Verified model of the artifact runtime

The repository unpacks container artifacts with containerd. This project models the parts of it that decide
something and proves what they promise:

* **The unpack protocol** (`aritfact/artifact.go`, driven by `aritfact/image.go`). A chain of layer digests
  becomes a chain of committed snapshots, each named by the ChainID of the layers below and including it.
  `Snapshots` is the snapshotter (Stat, Prepare, Apply, Commit, Remove as atomic steps that may fail with any
  error class). `Protocol` is the state machine of any number of clients, each running the recursive batch form
  or the incremental loop, interleaved with each other and with removals by others; `ProtocolSafety` and
  `ProtocolResults` are theorems about all its runs. `Drivers` is the code itself: methods with the recursion
  inside the retry loop, the key draws, the error classes and the deferred cleanup, where other clients run between
  any two snapshotter calls. A driver is proved to be a client of the machine: each of its snapshotter calls is a step
  of `Protocol.Advance`, and it returns where its client does. `Unpack` is the reference both drivers are proved
  against.
* **The file store** (`aritfact/content/file/file.go`). `StoreSpec` says what each operation does to the
  store's state and to the tree of files, with failing directory creation, opening, writing, closing and reading.
  `FileStore` is the object, whose methods are proved to do exactly that. `PushEffects`, `StoreLaws`,
  `StoreCases`, `RestoreLaws`, `StoreResults`, `StoreTags` and `TempFiles` are theorems about single operations and
  about whole runs; `LinkSafety` shows when
  no links arise, so that paths are what they say; `DirectoryTravel` follows a directory from one store to another.
  `StoreLocks` is the locking protocol of concurrent calls, and `StoreRaces` adds all that these calls do to files
  and to the index, chunk by chunk. `Applier` applies a layer by pushing it into a new store.
* **Directory archives and path algebra** (`aritfact/content/file/utils.go`). `Paths` defines Clean, Join, Rel,
  Dir and Abs of Go's `path/filepath` for Unix on strings, and relates them to lists of names; `Archive` is
  extraction with its checks, `RoundTrip` the walk that archives a directory and the theorems about both, `EntryLaws`
  what single entries say and do; `Disk` is the tree
  of files.
* **Two algorithms**: the environment merge (`EnvMerge`) and the overlay and aufs option parsers (`Mounts`).
  `ChainIds` is the in-place ChainID computation of the vendored identity package.

## Assumptions

* The hash behind ChainIDs has no collisions, and no hash value is a layer digest or empty (`CollisionFree`). Keys of
  active snapshots and names of committed ones are distinct kinds of names. `CollisionFreeHash` shows that the
  assumption can be met.
* In `Drivers`, Prepare reports AlreadyExists only for a key in use and Commit only for a committed name; in `Protocol`
  any call may fail with any class.
* Success is promised under the lease that `Unpack` takes (nobody removes committed snapshots) and when Apply does not
  fail with containerd's AlreadyExists class; `ApplyAlreadyExistsIsSwallowed` shows why. Safety needs neither.
* The snapshotter refuses to remove a snapshot that has children.
* Digests, compression, what a manifest links to, and what lies behind a symbolic link are functions in
  `StoreSpec.Config`; nothing is assumed of them but what a theorem states. The transfer of a directory assumes that
  a written archive reads back as the same headers (`EncodesBack`).

## What the code does that its comments do not say

* A push of a named plain file reports success although the file could not be written: the error is assigned to a
  shadowing variable (`aritfact/content/file/file.go:270-282`). `LostWriteError` and `SuccessMeans` give the exact
  condition under which the content exists afterwards; the index is still right, because it is written after
  verification (`RunIndexed`).
* Files are opened without truncation, so a longer file keeps its tail; the indexed file has the indexed digest if
  and only if no longer file stood there (`LongerFile`, `LongerFileDigest`).
* Names are keyed as given, so another name of one path can replace an indexed file; the old content stays exactly when
  the push never comes to copying, goes elsewhere, or copies only what stands there already (`OverwritesExactly`). That
  is so for every push, also one whose content is damaged: it still overwrites, reports success and indexes nothing
  (`DamagedCopy`). Names `x` and `./x` are such a pair in every working directory, whether or not traversal is allowed
  (`OverlappingNames`).
* Tagging writes into the caller's annotations; two references tagged through one map share its ref-name annotation
  (`RefNameKept`, `SharedAnnotations`).
* Applying a layer never closes the store it pushes to, so each unpacked layer leaves its archive in the temporary
  directory (`LayerLeavesArchive`); closing would remove it (`ClosedTidy`).
* Link entries are always refused when a directory is extracted to an absolute path under a relative name, since
  their target is compared, as an absolute path, with the relative name (`LinksRefused`, from the exact condition of
  `CheckLinkExactly`). So a directory with a link can be added to a store and not unpacked again (`DirectoryTravels`).
* Unsetting a variable that only an earlier override introduced has no effect, and neither does unsetting one that
  has a second, earlier default (`MergeRefinesOverride`, `UnsetOfNewKeyIsLost`).
* The aufs parser accepts bare `=rw` branches before the documented form (`ReadExactly`, `AufsPrintsBack`).
* An image without layers is never reported as unpacked (`UnpackThenAsk`), and a batch call without layers indexes
  an empty slice (`aritfact/artifact.go:81`).
* Applying a layer whose blob has no name and no successors writes nothing and can succeed (`NamelessLayer`). That a
  named layer could not be written is noticed only when it is a manifest, by whoever reads its links
  (`FileLayer`, `NamedManifest`).

## Model

| member | source | states |
|---|---|---|
| ChainIds.ChainIDs | vendor/github.com/opencontainers/image-spec/identity/chainid.go:56-67 | the in-place recursion leaves in every slot the ChainID of the chain that ends there, and nothing before its start changes |
| ChainIds.ComputeChainID | vendor/github.com/opencontainers/image-spec/identity/chainid.go:30-39 | copying, folding in place and returning the last slot is the recursive definition, empty for no layers |
| ChainIds.ChainIDNext | vendor/github.com/opencontainers/image-spec/identity/chainid.go:56-67 | the name of a longer chain joins the name of the chain below and the next layer, in this order |
| ChainIds.ChainIDInjective | aritfact/artifact.go:33 | different chains of layers never share a name |
| Snapshots.CommittedChain | aritfact/artifact.go:35-37 | where committed snapshots are prefix-closed, finding the top chain means its content is exactly the chain and every shorter chain is there: a Stat of the top layer suffices |
| ProtocolSafety.AdvanceKeeps | aritfact/artifact.go:79-144 | every step of every client keeps prefix-closure, touches no key but its own, and creates at most the snapshot named by its own chain |
| ProtocolSafety.RunKeeps | aritfact/artifact.go:28-144 | in every interleaving of clients, failures and removals the invariant holds, and no two clients hold one key |
| ProtocolSafety.RunPrefixClosed | aritfact/artifact.go:56-144 | in every run each committed chain has its parent committed under the shorter chain's name, and content equal to its layers in order |
| ProtocolResults.RunConservesKeys | aritfact/artifact.go:116-126 | once all clients are done the active keys are those of the start plus those whose removal failed, on every path and at every recursion depth |
| ProtocolResults.RunReportsCreations | aritfact/artifact.go:56-77 | a call answers true if and only if its commit created the snapshot, exactly once; one that answers false created nothing |
| ProtocolResults.LoserReports | aritfact/artifact.go:68-76 | in every run a call that lost the race answers false without error, on the step that removes its key |
| ProtocolResults.RunNeverEndsExisting | aritfact/artifact.go:44-46 | in every run no driver ends with AlreadyExists unless Stat itself failed with it: each lost race is swallowed |
| ProtocolResults.RunCreatesOnce | aritfact/artifact.go:138-141 | without removals no snapshot is created twice in a run, whoever races |
| ProtocolResults.RunSuccess | aritfact/artifact.go:38-49 | a client that ends without error has all its prefixes committed, also when it lost a race and the error was swallowed |
| ProtocolResults.ApplyAlreadyExistsIsSwallowed | aritfact/artifact.go:44-46 | in any state, if the batch form's outermost Apply fails with AlreadyExists it returns success with nothing committed |
| ProtocolResults.RunRely | aritfact/image.go:171-176 | whatever the others do in any number of steps, a client's own active snapshots stay, and under a lease committed ones do too |
| Unpack.MissingExactly | aritfact/artifact.go:35-37 | the layers left to apply are exactly those above the longest committed beginning of the chain |
| Unpack.CompleteExactly | aritfact/artifact.go:79-144 | completing a chain adds exactly the missing beginnings, each with its parent and content, and changes nothing else |
| Drivers.Session.UniquePart | aritfact/artifact.go:146-152 | drawing keys: only finitely many draws may collide with keys in use |
| Drivers.Session.Stat | aritfact/artifact.go:38 | an answer is about the committed snapshots, unless the call fails for its own reasons |
| Drivers.Session.Prepare | aritfact/artifact.go:94 | a new active snapshot over the parent, with the parent chain's content, or nothing; like every own step, it is covered by what others rely on |
| Drivers.Session.Apply | aritfact/artifact.go:128 | adds the layer to the own active snapshot, or leaves debris in it; what it was given is recorded as the whole descriptor |
| Drivers.Session.Commit | aritfact/artifact.go:138 | turns the own active snapshot into the committed one of its chain, or changes nothing |
| Drivers.Session.Remove | aritfact/artifact.go:122 | removes the own active snapshot, or leaves it there for good |
| Drivers.RunReplays | aritfact/artifact.go:28-144 | in every run of the machine a client's turns are those of a session, and a session with these turns is where that client is: what is proved of all runs holds of the drivers |
| Drivers.Session.Ask | aritfact/artifact.go:38-49 | the Stat at the head of either call: what its client does on each answer |
| Drivers.Session.TryKey | aritfact/artifact.go:90-104 | one try: the key prepared, or in use, or the parent missing, or the call failed, as its client goes on |
| Drivers.Session.ApplyParent | aritfact/artifact.go:105-113 | the recursive call is its client's next activation, and leaves the caller's with no artifacts |
| Drivers.Session.ApplyLayer | aritfact/artifact.go:128-137 | applied and reported as asked, or given up with the key |
| Drivers.Session.CommitLayer | aritfact/artifact.go:138-143 | committed under the chain's name, or given up with the key |
| Drivers.Session.ApplyArtifacts | aritfact/artifact.go:79-144 | terminates where its client's activation returns; gives up its key on every path; success or a lost race under a lease means the chain is committed; undisturbed, commits exactly what is missing, bottom up, and gives Apply exactly the descriptors of the missing layers; whatever happens it gives none but the artifacts' own |
| Drivers.Session.PrepareOverParent | aritfact/artifact.go:90-115 | the retry loop ends with a fresh key over the right parent, or an error that is not a key collision, having recursed at most once |
| Drivers.Session.ApplyAndCommit | aritfact/artifact.go:116-143 | from a prepared key: applied, verified and committed, or the key is given up |
| Drivers.Session.Cleanup | aritfact/artifact.go:116-126 | after a failure the key is removed or recorded as leaked, and committed snapshots are left alone |
| Drivers.Session.ApplyArtifactsWithOpts | aritfact/artifact.go:28-50 | it is a batch client of the machine that ends with the same error; a nil error names the chain and, under a lease, means every prefix is committed; undisturbed it adds exactly the missing snapshots; AlreadyExists comes only from Stat |
| Drivers.Session.ApplyArtifactWithOpts | aritfact/artifact.go:56-77 | it is one round of a loop client; `applied` is true exactly when this call's commit created the snapshot; a lost race is no error; a chain already there is not applied again |
| Drivers.Session.RootFS | aritfact/image.go:99-110 | the digests of the manifest's layers in order |
| Drivers.Session.GetArtifacts | aritfact/image.go:266-272 | one artifact per layer, in order, with the layer's whole descriptor |
| Drivers.Session.Unpack | aritfact/image.go:216-255 | it is a loop client of the machine, finished on success with one report a layer; a nil error under a lease means every prefix is committed; undisturbed it adds exactly the missing snapshots, from the manifest's descriptors of the missing layers; Apply is never given another; an image already there is not touched |
| Drivers.Session.IsUnpacked | aritfact/image.go:129-149 | true if and only if the chain of all layers is committed; what else Stat answers comes out as it is |
| Drivers.UnpackThenAsk | aritfact/image.go:129-255 | after a successful Unpack, IsUnpacked answers true if and only if the image has layers |
| Drivers.AskThenUnpack | aritfact/image.go:129-255 | after IsUnpacked answered true, Unpack applies nothing and commits nothing |
| Drivers.DriversAgree | aritfact/artifact.go:28-50 | the recursive batch form and the loop end with the same committed snapshots and give Apply the same descriptors: the manifest's own, from its longest committed beginning on, once each in order |
| Paths.JoinRel | aritfact/content/file/file.go:647-650 | following Rel from the base gives the cleaned target |
| Paths.RelInside | aritfact/content/file/file.go:647-654 | the text test on the relative path holds if and only if the base's names begin the target's |
| Paths.ClimbsOutComps | aritfact/content/file/file.go:651-654 | the test for a leading `../` is a test of the first name, so `..foo` passes |
| Paths.RelIsRelative | aritfact/content/file/utils.go:208-220 | Rel never yields an absolute path, and its result is clean, so the walk to `.` ends |
| Paths.LocateDir | aritfact/content/file/file.go:482-484 | the directory made for a file lies one step by its last name from the file |
| Disk.MkdirAllSucceeds | aritfact/content/file/utils.go:175 | making a directory and its parents succeeds if and only if only folders are in the way |
| Archive.EnsureBasePath | aritfact/content/file/utils.go:199-223 | accepts exactly the paths that stay below the base and meet no link on any strict ancestor |
| Archive.WalkAncestors | aritfact/content/file/utils.go:209-220 | terminates, and passes if and only if every strict ancestor passes |
| Archive.EnsureLinkPath | aritfact/content/file/utils.go:227-236 | checks where the link leads from its own directory, and returns its target unchanged |
| RoundTrip.CheckPathExactly | aritfact/content/file/utils.go:199-223 | a path is accepted if and only if the base's names begin it, the rest does not climb and meets no link; the rest is returned |
| RoundTrip.CheckLinkExactly | aritfact/content/file/utils.go:227-236 | a link is accepted if and only if where it leads is absolute or relative as the prefix is, lies under it and meets no link |
| Archive.ExtractTarDirectory | aritfact/content/file/utils.go:150-195 | what the loop makes of any archive, up to the first failing entry |
| EntryLaws.EntryExactly | aritfact/content/file/utils.go:150-195 | for each kind of entry exactly when it succeeds and all it changes, by locations: a regular file replaces what a file holds, links and hard links need a free place, other kinds are skipped |
| EntryLaws.ExtractKeeps | aritfact/content/file/utils.go:150-195 | an archive removes nothing, and changes no file but at the places of its regular entries, also when it fails on the way |
| EntryLaws.LastEntryWins | aritfact/content/file/utils.go:239-253 | over whatever stood there, each file that an extraction wrote holds exactly the data of the last regular entry for its place |
| EntryLaws.ExtractOver | aritfact/content/file/utils.go:150-195 | a directory's archive extracted over any directory leaves every file with its own content, however long the file it replaced |
| RoundTrip.ExtractContained | aritfact/content/file/utils.go:150-195 | no archive creates or changes anything outside the target directory |
| RoundTrip.LinksRefused | aritfact/content/file/utils.go:227-236 | so for an absolute directory and a relative prefix no link passes |
| RoundTrip.ExtractMakesNoLinks | aritfact/content/file/utils.go:176-185 | such an extraction makes no link and succeeds only on archives without link entries |
| RoundTrip.TarDirectory | aritfact/content/file/utils.go:34-103 | walks the tree of files from the root and appends exactly the listing, under the prefix, of the tree that stands there; fails only where nothing does |
| RoundTrip.Walk | aritfact/content/file/utils.go:43-102 | the callback on a file, a link or a folder never fails and emits the subtree's listing, each folder before what it holds |
| RoundTrip.WalkEntries | aritfact/content/file/utils.go:43-102 | all entries of a folder, one after the other, each with its whole subtree |
| EntryLaws.ArchiveTells | aritfact/content/file/utils.go:50-102 | one header for each node found, with its name, kind, content and, for a link, where it leads; and none twice |
| RoundTrip.ExtractTree | aritfact/content/file/utils.go:150-195 | extracting a subtree's listing into a free place adds exactly the subtree: no write lacks its directory |
| RoundTrip.ArchiveRoundTrip | aritfact/content/file/utils.go:34-195 | archiving a tree of files and folders and extracting it under the same prefix into any empty directory is the identity |
| RoundTrip.RoundTripExactly | aritfact/content/file/utils.go:34-195 | to an absolute directory under a relative prefix it succeeds if and only if the tree holds no link |
| FileStore.Store.NameExists | aritfact/content/file/file.go:667-680 | looking a name up enters it as absent and changes nothing else |
| FileStore.Store.SetExists | aritfact/content/file/file.go:284-286 | the name exists from now on, and nothing else changes |
| FileStore.Store.Fetch | aritfact/content/file/file.go:175-205 | the error cases in the code's order, the indexed file or a directory that fails when read, then the fallback |
| FileStore.Store.FetchAll | vendor/oras.land/oras-go/v2/content/storage.go:65-72 | fetched, read and verified against size and digest |
| FileStore.Store.Exists | aritfact/content/file/file.go:324-344 | a named item needs its name and its digest indexed or in the fallback |
| FileStore.Store.ResolvePath | aritfact/content/file/file.go:636-664 | the path, or the traversal or overwrite error; a link counts as what lies behind it |
| FileStore.Store.Save | aritfact/content/file/file.go:461-478 | the digest is indexed only after the copy is verified |
| FileStore.Store.SaveToTarget | aritfact/content/file/file.go:481-510 | directories, opening without truncation, saving, change of owner |
| FileStore.Store.Unpack | aritfact/content/file/file.go:513-536 | a fresh temporary file, saved and verified, then extracted under the name |
| FileStore.Store.PushFallback | vendor/oras.land/oras-go/v2/content/limitedstorage.go:34-44 | size limit, duplicate check and verified read of the in-memory fallback, which stores a manifest before it fails to read its links |
| FileStore.Store.PutContent | aritfact/content/file/file.go:241-287 | `push` with its lost error: the whole new state and the error |
| FileStore.Store.FindSuccessors | vendor/oras.land/oras-go/v2/content/graph.go:49-106 | successors come from the stored and verified manifest |
| RestoreLaws.RestoreNeverMissing | aritfact/content/file/file.go:316-318 | restoring never fails because something is missing |
| RestoreLaws.RestoreNothing | aritfact/content/file/file.go:291-321 | where every successor is nameless, there already or never stored, restoring succeeds and changes nothing |
| RestoreLaws.RestoreDrops | aritfact/content/file/file.go:291-321 | such successors can be left out of the list, wherever they stand, without changing what is restored |
| RestoreLaws.RestoreFailsExactly | aritfact/content/file/file.go:302-318 | restoring fails exactly at the first successor that is there and cannot be opened, or cannot be pushed, with that error |
| FileStore.Store.RestoreDuplicates | aritfact/content/file/file.go:291-321 | the loop over successors, passing over what is not found |
| FileStore.Store.AddToGraph | aritfact/content/file/file.go:228-234 | when the graph refuses what was pushed: a manifest that cannot be fetched or read, unreadable attributes, a link to itself |
| FileStore.Store.Push | aritfact/content/file/file.go:211-235 | the whole new state and error, with the graph's, and nothing on a closed store |
| FileStore.Store.Add | aritfact/content/file/file.go:411-458 | the whole new state, the item made, and the error cases, with the tree that the walk found |
| FileStore.Store.DescribeDir | aritfact/content/file/file.go:539-601 | the walk's headers are encoded into a temporary file, which is indexed when complete, before a failing close is noticed |
| FileStore.Store.DescribeFile | aritfact/content/file/file.go:604-633 | the file is indexed where it lies |
| FileStore.Store.Tag | aritfact/content/file/file.go:364-389 | the reference goes into the descriptor's own annotations or new ones, and no others change |
| FileStore.Store.Resolve | aritfact/content/file/file.go:347-361 | the stored descriptor or the right error |
| FileStore.Store.Close | aritfact/content/file/file.go:154-172 | removes the temporary files in any order and nothing else; without error none is left; closing twice changes nothing |
| PushEffects.PutFootprint | aritfact/content/file/file.go:241-287 | whatever fails, a push changes nothing apart from its target and makes at most one new file elsewhere |
| PushEffects.PutIndexes | aritfact/content/file/file.go:461-536 | a push indexes nothing, or its digest at a file that holds exactly the verified content |
| PushEffects.PutShape | aritfact/content/file/file.go:251-286 | a name exists afterwards if and only if it did or the push succeeded; a duplicate changes nothing; nothing is forgotten |
| StoreLaws.TraversalTest | aritfact/content/file/file.go:638-655 | the containment check passes if and only if the working directory's names begin the target's |
| StoreLaws.ResolvesExactly | aritfact/content/file/file.go:636-664 | when a name resolves, in terms of locations |
| StoreCases.TargetExactly | aritfact/content/file/file.go:695-700 | an absolute name is its own place, a relative one lies below the working directory |
| StoreCases.OverwriteTest | aritfact/content/file/file.go:656-662 | with overwriting disallowed, what stands at the target decides; a link counts as what it leads to |
| StoreLaws.PushInside | aritfact/content/file/file.go:638-655 | with traversal disallowed no push, with all it restores and unpacks, changes anything that is not in the working directory; only temporary files and missing folders above it appear |
| StoreCases.FetchCases | aritfact/content/file/file.go:175-205 | each outcome by what is indexed, what stands there and what the fallback holds |
| StoreCases.FetchAllExactly | vendor/oras.land/oras-go/v2/content/storage.go:65-72 | everything is delivered if and only if size and digest are those asked for |
| StoreCases.OpenedExactly | aritfact/content/file/file.go:481-494 | a file is opened if and only if nothing but folders is on its way and none in its place |
| StoreCases.WrittenExactly | aritfact/content/file/file.go:461-478 | and written if and only if the content is whole: its size, its digest, and room for it |
| StoreCases.CopyLeaves | aritfact/content/file/file.go:481-510 | a new file is left with the bytes the copy came to, verified or not |
| StoreCases.UnreadableRefused | aritfact/content/file/file.go:271-274 | a file with attributes that cannot be read is refused before anything is written |
| StoreCases.UnpackExactly | aritfact/content/file/file.go:513-536 | an unpacking push succeeds if and only if the archive is stored, read to its end, extracted and has the checksum; it is indexed as soon as it is stored |
| StoreCases.FallbackCases | vendor/oras.land/oras-go/v2/content/limitedstorage.go:34-44 | each outcome for nameless content: too large, there already, not what was asked for, or stored, manifests before their links are read |
| StoreCases.FallbackTwice | vendor/oras.land/oras-go/v2/content/limitedstorage.go:34-44 | the same content a second time fails and changes nothing |
| StoreCases.NamelessIgnored | aritfact/content/file/file.go:216-221 | with nameless content ignored such a push succeeds without doing anything |
| StoreCases.NothingRestored | aritfact/content/file/file.go:223-227 | with content kept by digest alone nothing is restored |
| StoreCases.AddCases | aritfact/content/file/file.go:411-440 | the error cases of an add, and where it looks: at the given path, and at the name when none is given |
| StoreCases.AddedFile | aritfact/content/file/file.go:604-633 | an added file is indexed where it lies, and the item has its digest, size and media type; a failing close comes after that |
| StoreLaws.LostWriteError | aritfact/content/file/file.go:269-286 | a named file's push succeeds even if nothing could be written, and its digest is indexed if and only if it was |
| StoreLaws.SuccessMeans | aritfact/content/file/file.go:241-287 | after a reported success the content exists if and only if it was known, or was written completely |
| StoreLaws.LongerFile | aritfact/content/file/file.go:490 | a written file holds exactly the content if and only if no longer file stood there; otherwise it keeps the tail |
| StoreLaws.LongerFileDigest | aritfact/content/file/file.go:476 | the indexed file has the indexed digest if and only if no longer file stood there |
| StoreLaws.OverwritesExactly | aritfact/content/file/file.go:269-286 | any push but an unpacking one leaves the content indexed for another digest if and only if it never opens a file there or copies only what stands there; otherwise that digest leads to the overlay of both |
| StoreLaws.VerifiedOverwrites | aritfact/content/file/file.go:667-671 | for a push that is written and verified: if and only if it goes to another place or its content begins what stands there |
| StoreLaws.DamagedCopy | aritfact/content/file/file.go:278 | damaged content under a second name of an indexed file: success is reported, nothing is indexed, and the first digest leads to the damage |
| StoreLaws.OverlappingNames | aritfact/content/file/file.go:667-671 | names `x` and `./x`: both pushes succeed, and the first digest leads to other content |
| StoreLaws.RestoreCompletes | aritfact/content/file/file.go:291-321 | after a restore without error every named successor whose content was known on entry exists by name |
| StoreLaws.RestoreKeepsNames | aritfact/content/file/file.go:291-321 | existing names keep their whole subtree when paths do not overlap |
| StoreLaws.PushRestores | aritfact/content/file/file.go:211-235 | after a push without error every named successor whose content was known after its own write exists by name |
| StoreLaws.PushKeepsNames | aritfact/content/file/file.go:211-235 | through a whole push, with all it restores, existing names keep their whole subtree when paths do not overlap |
| LinkSafety.PutMakesNoLinks | aritfact/content/file/utils.go:227-236 | under a relative name in an absolute working directory no push makes a link, whatever archive it unpacks |
| LinkSafety.RunMakesNoLinks | aritfact/content/file/file.go:211-458 | so no run of pushes, restores and adds makes one |
| LinkSafety.RunStaysPut | aritfact/content/file/file.go:638-655 | where the working directory holds no link, none stands on the way to any path in it after any run: the lexical containment is the real one |
| DirectoryTravel.AddedDirectory | aritfact/content/file/file.go:539-601 | what is fetched for an added directory is the archive of what the walk found there, and the item describes it |
| DirectoryTravel.UnpackedDirectory | aritfact/content/file/file.go:513-536 | an archive of a tree without links, pushed to a directory that is empty or not there yet, unpacks to exactly the tree |
| DirectoryTravel.UnpacksExactly | aritfact/content/file/file.go:513-536 | in an absolute working directory it unpacks if and only if the tree holds no link |
| DirectoryTravel.DirectoryTravels | aritfact/content/file/file.go:411-601 | added, fetched and pushed to another store, a directory arrives as the same tree if and only if it holds no link |
| FileStore.SendDirectory | aritfact/content/file/file.go:211-601 | the same for the methods Add, Fetch and Push: with nothing failing the add succeeds, and the push does exactly for directories without links, unless the caller called it a manifest |
| StoreResults.PutKeeps | aritfact/content/file/file.go:241-287 | one planned push keeps every indexed digest backed by its file |
| StoreResults.RestoreKeeps | aritfact/content/file/file.go:291-321 | so does restoring |
| StoreResults.AddKeeps | aritfact/content/file/file.go:411-458 | so does adding, also when it fails after indexing |
| StoreResults.RunIndexed | aritfact/content/file/file.go:476 | in every run of pushes and of adds of files and folders, with names that do not overlap and no longer file at a target, each indexed digest leads to a file with that digest |
| StoreResults.RunFetch | aritfact/content/file/file.go:175-205 | in every such run what Exists affirms is what Fetch delivers, with the digest asked for |
| TempFiles.RunTidy | aritfact/content/file/file.go:684-692 | in every run each file made outside the working directory is new and remembered |
| TempFiles.ClosedTidy | aritfact/content/file/file.go:154-172 | after any run, with whatever failures, a close without error leaves nothing changed outside the working directory but missing folders above it |
| StoreTags.TagExactly | aritfact/content/file/file.go:364-389 | when a tag succeeds, and all that it changes |
| StoreTags.ResolvesTagged | aritfact/content/file/file.go:347-389 | in every run a reference resolves if and only if it was tagged successfully |
| StoreTags.ResolvesToLastTag | aritfact/content/file/file.go:347-389 | it resolves to the descriptor of its last tag, which still exists |
| StoreTags.RefNameKept | aritfact/content/file/file.go:381-384 | its ref-name annotation is the reference if and only if no other was tagged later through the same annotations |
| StoreTags.SharedAnnotations | aritfact/content/file/file.go:381-386 | two tags of one descriptor: the first reference finds the second's name |
| StoreLocks.InterleavingsSafe | aritfact/content/file/file.go:251-286 | under every interleaving one success per name, which alone makes it exist, and rejected attempts write nothing |
| StoreLocks.MutualExclusion | aritfact/content/file/file.go:251-257 | while one call works on a name no other checks, writes or reads its status |
| StoreLocks.NamesStay | aritfact/content/file/file.go:284-286 | existing names stay existing |
| StoreLocks.HoldersWait | aritfact/content/file/file.go:232-234 | holders of a name wait for no other lock, and the mutex's holder at most to read a name |
| StoreLocks.NoWaitCycle | aritfact/content/file/file.go:667-680 | no interleaving reaches a wait cycle, and at most three waits are chained |
| StoreLocks.NoDeadlock | aritfact/content/file/file.go:211-458 | while any call is under way some call can take a step |
| StoreRaces.RaceLocks | aritfact/content/file/file.go:251-286 | every race is an interleaving of the locking protocol |
| StoreRaces.WorkKeepsFile | aritfact/content/file/file.go:461-536 | a step under a name's lock, also of an archive half unpacked, leaves every file alone that is not its own |
| StoreRaces.RaceKeeps | aritfact/content/file/file.go:211-458 | in every interleaving, open files hold what was written so far over what they held, no two are the same, and none is indexed |
| StoreRaces.RaceIndexed | aritfact/content/file/file.go:476 | at every moment of every interleaving of pushes and adds, with names that do not overlap and no longer file at a target, each indexed digest leads to a file with that digest, and what exists by index can be fetched with it |
| Applier.ChooseRoot | aritfact/applier.go:73-104 | a single overlay or aufs mount that parses is written directly, everything else is mounted |
| Applier.Apply | aritfact/applier.go:31-71 | a layer is a push into a new store over the directory a single mount writes to, and for all other mounts over where they are mounted; the digest returned is the one asked for |
| Applier.RootExactly | aritfact/applier.go:73-109 | only a single overlay mount outside a user namespace or a single aufs mount is written to directly, at its upper directory, exactly when its options have the accepted form; all else is mounted |
| Applier.LayerLeavesArchive | aritfact/applier.go:89-108 | a layer that was unpacked leaves its archive in a new temporary file |
| Applier.ApplyInside | aritfact/applier.go:73-109 | applying a layer changes nothing that is not in the snapshot's directory; only temporary files and missing folders above it appear |
| Applier.ApplyMakesNoLinks | aritfact/applier.go:56-70 | with relative names applying a layer makes no link |
| Applier.NamelessLayer | aritfact/applier.go:56-70 | a blob without a name or successors is applied without writing anything; exactly when that succeeds, for collection manifests too |
| Applier.NamelessManifest | aritfact/applier.go:56-70 | a manifest without a name succeeds if and only if it is kept, its successors can be read and restored, and the graph accepts it |
| Applier.FileLayer | aritfact/applier.go:56-70 | a plain file that cannot be written fails at most in the graph; exactly when its content is there |
| Applier.NamelessManifestAlone | aritfact/applier.go:56-70 | with none of its named successors stored, a nameless manifest is applied if and only if it is kept, its links can be read, and none has unreadable attributes or leads to itself |
| Applier.NamedManifestAlone | aritfact/applier.go:56-70 | the same for a named manifest once it is written and intact |
| Applier.FetchPushed | aritfact/applier.go:56-70 | a pushed file is fetched as missing, as itself, or as damaged: exactly when |
| Applier.NamedManifest | aritfact/applier.go:56-70 | a named manifest of any kind fails as missing when it was not written and as damaged over a longer file; else its successors and the graph decide |
| Applier.AufsDirect | aritfact/applier.go:92-103 | an aufs mount is written directly exactly when its branches have the accepted form, to their upper directory |
| Applier.AufsUpper | aritfact/applier.go:92-103 | the option in the documented format leads to its upper directory |
| Applier.OverlayUpper | aritfact/applier.go:75-91 | the last upper directory of an overlay mount is written directly, unless in a user namespace |
| EnvMerge.ReplaceOrAppendEnvValues | aritfact/options/options.go:146-182 | cache, in-place replacement and compaction give every last default in its own position with the effect of its last override, then new keys in order |
| EnvMerge.Compact | aritfact/options/options.go:174-179 | the in-place removal is the order-keeping filter of non-empty entries |
| EnvMerge.MergedInOrder | aritfact/options/options.go:146-182 | the merged list is the surviving defaults in their order, each under its own key, and then the overrides that set new keys in theirs |
| EnvMerge.DefaultsKeepPlaces | aritfact/options/options.go:155-171 | where nothing is unset every default keeps its position |
| EnvMerge.MergedLookup | aritfact/options/options.go:146-182 | what the merged list says of any key, for all inputs |
| EnvMerge.MergeRefinesOverride | aritfact/options/options.go:146-182 | it is the key-by-key override if and only if no unset key is stale |
| EnvMerge.MergeRefinesOverrideForDistinctKeys | aritfact/options/options.go:146-182 | with one default per key only keys set and then unset by overrides go wrong |
| EnvMerge.UnsetOfNewKeyIsLost | aritfact/options/options.go:155-171 | an override cannot unset what an earlier override introduced |
| Mounts.GetAufsPath | aritfact/applier.go:131-166 | reads the branches of all `br:` options left to right, with each error in its place |
| Mounts.ReadExactly | aritfact/applier.go:145-160 | which branch lists are accepted, and with what answer |
| Mounts.ReadErrors | aritfact/applier.go:145-164 | and which error the first branch that does not fit gives |
| Mounts.AufsRoundTrip | aritfact/applier.go:129-166 | the documented option parses back to exactly its directories |
| Mounts.AufsPrintsBack | aritfact/applier.go:129-166 | a parsed option is the printed form of its answer if and only if it has no bare `=rw` branch |
| Mounts.GetOverlayPath | aritfact/applier.go:111-127 | the last `upperdir=` and `lowerdir=` win, and only an absent or empty upper fails |

## Left out

- Drivers.Session.Yield: other clients' steps are given by its contract; that any run of them amounts to no more is `ProtocolResults.RunRely`, which speaks of the machine of `Protocol`.
- Drivers.Session.UniquePart: randomness and time are an oracle; termination needs that only finitely many draws collide with keys in use.
- Drivers.Session.Unpack: the content-store labels and the image configuration are one call that may fail.
- Drivers.Session.Apply: the applier is abstract and may report any digest; `Applier` models the repository's own one, which echoes the digest it was asked for, so that the comparison at `aritfact/artifact.go:133` can only fail for another applier.
- Drivers.Session.ApplyArtifactsWithOpts: requires at least one artifact, since the code indexes an empty slice otherwise.
- Applier.Apply: fetching the blob, apply options, mounting and unmounting happen outside; their failures return before or after what is modelled.
- FileStore.Store.Push: whether the graph accepts a push is modelled, the nodes and edges it keeps for `Predecessors` are not.
- FileStore.Store.Fetch: delivers the bytes; that an open reader can be overtaken by later writes is not modelled, and an indexed path that has become a symbolic link is an error.
- FileStore.Store.Add: a temporary file inside the archived directory is archived empty here, as far as written in the code.
- Archive.ExtractTarDirectory: an archive is its headers with contents; gzip, the tar format, modes, ownership and times are not modelled, and failures of the system other than a wrong node in the way are not either.
- Disk.FileSystem: locations are lexical; what the operating system does with a symbolic link in a path, writes through links, and content shared by hard links are not modelled.
- Paths.Rel: follows the documentation of Go's `path/filepath`, whose source is not part of this model.
- RoundTrip.TarDirectory: visits the entries of a folder in any order, the code in lexical order; special files, and files that change under the walk, are not modelled.
- StoreRaces.Work: an archive entry is extracted, and an added file read, in one step; content without a name, and what comes after a name is made to exist, change no file or index by themselves and take only locks; the removal of temporary files by Close is not among the calls.
- StoreRaces.RaceIndexed: about calls whose names do not overlap, as `RunIndexed`; that added files are no temporary ones is also assumed.
- StoreTags.Step: callers do not change annotations after passing them to the store.
- The containerd client, leases, snapshotter lookup and platform checks: remote services.
- Attributes of descriptors beyond whether they parse, and `ConfigFromAttributes`: decided by a library.
- Process specifications and stop signals in `aritfact/options/options.go` beyond the environment merge.
- The command line in `cmd/rcl`.
