# taring, modelled in Dafny

`taring` copies everything under a path of an S3 bucket into a tar archive.
Its core is in `taring.go`:

- `fetchPath` walks the bucket's namespace depth-first. Each level is one
  delimited listing that yields leaf keys and child prefixes.
- `fetchAll` fetches one level's leaf keys concurrently, one task per key,
  and joins the tasks all-or-nothing.
- `tarify` writes one archive entry per fetched object (a header, then the
  payload) and then closes the archive.
- `S3Content.TarHeader` derives each entry's header.

This project models that core and proves its ordering, completeness and
error-propagation rules. The bucket, the timestamp parser, `filepath.Rel`,
the scheduler and the tar writer are replaced by oracles.

Modules, one per component:

- `Wrappers` (`wrappers.dfy`): `Option`, `Result`, `Outcome`, and the
  successes (`Oks`) and failures (`Errs`) of a sequence of results, with
  their lemmas.
- `Content` (`content.dfy`): `S3Content`, the header fields, `filePerms`,
  `TarHeader`.
- `Store` (`store.dfy`): listing keys and the `Env` of oracles. It also holds
  the two assumptions the model makes of the outside world:
  - `BoundedPrefixes`: child prefixes properly extend their parent and are at
    most 1024 characters long. The store limits keys to 1024 bytes of UTF-8,
    and every character takes at least one byte, so that limit implies this
    bound on characters.
  - `IsScheduler`: the completion order of a level's tasks is a permutation of
    the keys.
- `LevelFetcher` (`level.dfy`): one key's task (`FetchKey`) and the
  specification of a level (`LevelResult`). It also holds the imperative
  `fetchAll`:
  - `RunTasks`: the tasks, finishing in the scheduler's order, post to the
    content channel or the error channel, modelled as sequences.
  - `FetchAll`: drains both channels, then fails if any error arrived.
- `PathWalker` (`walk.dfy`): the recursive walk as functions
  (`Walk`, `WalkChildren`) and the imperative `FetchPath`. `FetchPath` lists a
  path, calls `FetchAll`, then loops over the child prefixes, recursing and
  appending. The walk functions take the level fetcher as a parameter.
  `FetchAllOf(env)` is the model's `fetchAll`; the completeness lemmas and
  `FetchPath` use it.
- `ArchiveWriter` (`tar.dfy`):
  - `TarWriter`: a class standing for Go's `tar.Writer` over a fallible sink.
    It has the fields `sink` and `events`, and the methods `WriteHeader`,
    `Write` and `Close`.
  - `WriteFrom`: the reference definition of the entry loop.
  - `Tarify`: the loop itself.
  - `Decode`: reads the recorded events back as objects.

## Model

| member | source | states |
|---|---|---|
| Content.TarHeader | taring.go:240-253 | The header carries the object's relative name. Its size is the payload length and its mode is `os.ModePerm & 0644`, which equals 0644 (420). Modification and change times are both `LastMod`, the access time is the clock reading, the type is a regular file, and uid and gid are the process's. |
| LevelFetcher.FetchKey | taring.go:159-187 | A task succeeds iff the timestamp parses, the relative path is found and the fetch succeeds. It then yields that name, timestamp and payload. The first failing step decides the error and what it carries. A failed parse gives a timestamp error carrying the key's `LastModified` text and the parser's error. A failed `Rel` after a successful parse gives a relative-path error carrying the key and `Rel`'s error. A failed fetch after both gives a fetch error carrying the key and the store's error. |
| LevelFetcher.Outcomes | taring.go:192-195 | One task is launched per key, in launch order: there are exactly as many outcomes as keys, and the i-th outcome is the i-th key's task. |
| LevelFetcher.Fetched | taring.go:182-186 | No contract; it defines the contents sent to `contentC`: the successful outcomes' contents, in key order. |
| LevelFetcher.Failed | taring.go:165-177 | No contract; it defines the errors sent to `errc`: the failed outcomes' errors, in key order. |
| LevelFetcher.LevelResult | taring.go:200-213 | No contract; it defines the level's result for a completion order: if any error arrived, only the errors with their count, otherwise the contents as they arrived. Its properties are stated by `AllOrNothing` and `FetchAll`. |
| LevelFetcher.OutcomesAppend | taring.go:192-195 | Launching tasks for `a ++ b` gives the outcomes of `a` followed by those of `b`; the contents and the errors split the same way. |
| LevelFetcher.OneOutcomePerKey | taring.go:159-195 | Every key yields exactly one outcome (number of contents plus number of errors equals number of keys). No error occurs iff every key's task succeeds, and then the i-th content is the i-th key's content. |
| LevelFetcher.OutcomesPermuted | taring.go:192-198 | Reordering the keys only reorders the outcomes (equal multisets). |
| LevelFetcher.CompletionOrderIrrelevant | taring.go:192-208 | The contents and the errors collected do not depend, as multisets, on the order in which the tasks finish. |
| LevelFetcher.AllOrNothing | taring.go:200-213 | For any completion order that permutes the keys, the level succeeds iff every key's task succeeds. It then returns exactly one content per key (the multiset of the per-key contents). Otherwise it returns no contents, and an error whose count equals the number of failed keys and whose messages are exactly their errors. |
| LevelFetcher.RunTasks | taring.go:157-198 | After the join, the content channel holds exactly the successful tasks' contents and the error channel exactly the failed tasks' errors, in completion order. |
| LevelFetcher.FetchAll | taring.go:156-215 | The method returns the level specification `LevelResult` for its completion order, and satisfies every `AllOrNothing` property for the launched keys. |
| PathWalker.Walk | taring.go:120-154 | No contract; it defines the walk of `path`. A failed listing gives a listing error and a failed level gives a level error, both wrapped with the path. Otherwise the child loop starts from the level's contents. Its properties are stated by `WalkOrder`, `WalkAborts` and `WalkComplete`. |
| PathWalker.WalkChildren | taring.go:145-151 | No contract; it defines the loop over child prefixes. Each child is walked with the same root, a failure is returned unchanged, and a success is appended to the accumulated contents. Its properties are stated by the `WalkChildren…` lemmas. |
| PathWalker.FetchAllOf | taring.go:135 | No contract; it is the level fetcher the walk calls, `fetchAll` relative to the given base, with the tasks finishing in the scheduler's order. |
| PathWalker.WalkChildrenSucceeds | taring.go:145-151 | The loop over child prefixes succeeds iff the walk of every child prefix succeeds. |
| PathWalker.WalkChildrenAppends | taring.go:145-153 | A successful loop returns the accumulated contents followed by every child's walk result, concatenated in listing order. |
| PathWalker.WalkChildrenFails | taring.go:145-149 | A failing loop returns, unchanged, the error of the first failing child; every child before it succeeded. |
| PathWalker.WalkChildrenSkipsLater | taring.go:145-149 | Once a child walk fails, the prefixes listed after it are never walked: appending more of them does not change the loop's result. |
| PathWalker.WalkOrder | taring.go:135-153 | On success the listing and the level succeeded, as did every child walk. The result is the level's contents followed by the children's contents in listing order, so the level's leaves are a prefix of the result. |
| PathWalker.WalkAborts | taring.go:122-149 | A failed listing gives the listing error for that path and no contents. A failed level gives the level error for that path. Otherwise a failing walk fails with exactly the first failing child's failure. |
| PathWalker.WalkComplete | taring.go:120-215 | With the model's `fetchAll`, the walk succeeds iff every listing and every key's task in the subtree succeeds. It then returns one entry per leaf key of the subtree (the multiset of their contents), each fetched relative to the original root. |
| PathWalker.WalkChildrenComplete | taring.go:145-151 | The same, for the loop over a level's child prefixes and the keys of their subtrees. |
| PathWalker.EntriesRelativeToRoot | taring.go:135-168 | Every entry of a successful walk is the content fetched for some leaf key of the subtree. Its name is `Rel(root, key)` for the original root, not for the level where the key was listed. |
| PathWalker.FetchPath | taring.go:120-154 | The recursive method with its loop returns exactly the walk specification `Walk` with the model's `fetchAll`. |
| ArchiveWriter.TarWriter.constructor | taring.go:218 | A new writer over the sink has accepted nothing. |
| ArchiveWriter.TarWriter.WriteHeader | taring.go:221 | It returns the sink's verdict on the header and records the header iff the sink accepted it. |
| ArchiveWriter.TarWriter.Write | taring.go:224 | It returns the sink's verdict on the payload and records the payload iff the sink accepted it. |
| ArchiveWriter.TarWriter.Close | taring.go:228 | It returns the sink's verdict on the trailer and records the trailer iff the sink accepted it. |
| ArchiveWriter.HeaderOf | taring.go:221 | No contract; it is the header written for the i-th object, `TarHeader` with the i-th clock reading. |
| ArchiveWriter.Entries | taring.go:220-227 | Each object contributes exactly two events, so objects i to j give 2(j - i) events (its definition: header then payload per object, in order). |
| ArchiveWriter.WriteFrom | taring.go:217-231 | No contract; it is the reference definition of the entry loop and the close that `Tarify` is proved to equal. Its properties are stated by `WriteExtends`, `WriteSucceeds` and `WriteFails`. |
| ArchiveWriter.WriteEntry | taring.go:220-227 | One loop iteration writes object i's header (taken with the i-th clock reading), then its payload. On success the writer's events are the old ones followed by exactly that header and that payload, and the run continues from object i + 1. A refused header leaves the events unchanged, and a refused payload leaves only the header added. The error then names object i, is never a close error, and is the reference run's outcome. |
| ArchiveWriter.Tarify | taring.go:217-232 | The method's error and archive are exactly those of the reference run `WriteFrom` from the first object. |
| ArchiveWriter.WriteExtends | taring.go:220-231 | A run only adds to what the writer had accepted. A successful run ends with the trailer, and a failed run never writes it: the archive is closed only after every entry was written. |
| ArchiveWriter.WriteSucceeds | taring.go:220-231 | `tarify` succeeds iff the sink accepts, in order, every object's header and payload and then the close. The archive is then exactly those entries followed by the trailer. |
| ArchiveWriter.WriteFails | taring.go:220-231 | A failed run stopped at some object j. The entries of the objects before j are in the archive and were accepted, and the trailer was not written. The error is a header or content error naming object j, or, when j is past the last object, a close error. |
| ArchiveWriter.EntriesRoundTrip | taring.go:220-227 | Reading back the entries written for objects i to j gives exactly those objects, in order, with their names, timestamps and payloads. |
| ArchiveWriter.TarifyRoundTrip | taring.go:217-253 | A successful archive has one header and one payload per object, in input order, followed by the trailer, and reads back as the objects. |

## Left out

- S3 calls `bkt.List` and `bkt.Get` (taring.go:122, 175) are oracles that may fail; there is no network.
- Listing truncation: `List` is called once with no marker and at most 10000 keys, and truncation is never checked. The oracle's one listing is the whole level, and no paging is added.
- Termination of the walk: the real store guarantees none. The model requires `BoundedPrefixes` of the store (see above); it is a precondition, not a proved fact.
- Goroutines, the `WaitGroup` and the buffered channels (taring.go:157-198): the order in which tasks finish is the oracle `schedule`. `IsScheduler` requires it to permute the keys; any interleaving beyond the order of the channel sends is not modelled.
- Timestamp parsing (`time.Parse` with RFC 3339 timestamps), `filepath.Rel`, `time.Now`, `os.Getuid` and `os.Getgid` are opaque: the first two are partial functions of `Env`, and `time.Now` is the i-th clock reading of `Process`. In particular, `Rel` does not reject keys outside the base (it yields `../…`), so the model does not claim that such keys fail.
- Error text: the `fmt.Errorf` messages are structured error values carrying the same parts (path, key, timestamp, cause, count and the list of messages), not rendered strings.
- Archive encoding: the ustar/pax byte layout, padding, terminator blocks and gzip are not modelled. The tar writer is a sink recording header, payload and close events, and `Decode` reads those events rather than bytes. The round-trip lemmas are about those recorded events. A real archive would not give `LastMod` back at full precision: `TarHeader` leaves the header's format unset, and Go's `archive/tar` then rounds the modification time to whole seconds and drops the access and change times.
- The tar writer's own checks (e.g. writing more bytes than the header's size) are the sink's decision, not modelled separately.
- Logging: `infof`, the `prfx` indentation parameter and the key-size sum loop (taring.go:121, 127-133, 140-143) change no result and are left out.
- `main` (taring.go:29-118): flag parsing, URL parsing, the gzip copy and the file write.
- `bench/tar_bench.go`: a benchmark harness that duplicates the entry loop.
- Content.TarHeader: `int64` conversions of size and mode are not modelled as bounded, since a payload is never near 2^63 bytes.
