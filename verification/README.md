# Berm in Dafny

Berm is a daemon that turns a container's labels and `berm.yml` into a scoped set of secrets and delivers them. This
project models the parts of it that decide what is delivered to whom and proves what they promise.

The parts, and the files that hold them:

- **Labels to plan.** `Refs`, `Doorways`, `Labels` and `Resolution`: two label prefixes merged into one grammar, the
  suffix grammar parsed, and the result checked against ownership, grants, formats and mechanisms.
- **Plan to files.** `Dotenv`, `SopsAge`, `LockedMemory`, `Plans`, `BuildBundle`, `Paths`, `Files`, `Executors`: a source
  handle over locked memory, the in-memory bundle for a client, the direct writes into a volume, and the manifest.
  `Agreement` shows that the two executors agree, `ReadySignal` and `VolumePush` that the manifest is an honest ready
  signal over every run, `Containment` exactly when a push stays inside its mount.
- **The wire.** `Wire` and `Hook` are the protocol on values, with its laws; `WireStream` is the code that reads and
  writes it, its decoder owning locked buffers.
- **Labels to content.** `Delivered` says what a bundle, a push and a manifest hold in terms of the plan's targets and
  the plaintext of its sources; `FromLabels` says it in terms of the labels alone, down to the variable the app sees.
- **The whole fetch.** `Pipeline` composes resolve, build, encode, decode and apply, and proves non-interference;
  `ClientEnv` is the environment of the exec form.
- **The daemon's state.** `Ledger` and `LedgerFile` (staleness and its persistence), `ClientTracker` (fetch timeouts),
  `PushLock` (per-container locks), `Daemon` (events, pushes, reconcile), `Cgroup` (who is calling).

`Prelude`, `Text` and `Sorting` hold what the rest shares. `dafny verify dfyconfig.toml` checks everything.

Conventions. One Dafny `char` stands for one byte of a Go string. A Go map is ranged over in an arbitrary order, chosen
by `Sorting.Range`; that a result is nevertheless a function of the inputs is proved each time. System calls fail when
an arbitrary oracle says so (`Files.Host.fails`), and `Reliable()` says it never does. Protocols that interleave are
state machines over their steps, and their theorems are about every legal sequence of steps. The source store is a map
from source name to plaintext and ciphertext hash, fixed during one injection and free to change between two. Time,
JSON and age decryption enter as parameters: a number, an inverse pair (`Plans.Codec`, `LedgerFile.Format`) and the
`plain` field of a `Source`.

Where the code and what its comments promise disagree the code is followed. Each such place has its exact condition, and
most a lemma at an input too:

- The comment on `Parse` says a disabled container parses to an inert spec and no error; merging comes first, so it can
  fail (`Labels.DisabledCanFail`, exactly when: `Labels.DisabledFailsIff`).
- The comment on `dotenvFind` says a corrupt source is a loud error; the search stops at the key, so a later malformed
  line goes unseen (`Dotenv.LaterLineUnseen`, exactly when: `Dotenv.FindFailsIff`).
- Volume mode is said to place files only inside the shared volume. The rebase checks the path of a render, not the keys
  of its source, so an envdir key such as `../../x` is written outside the mount (`Containment.ClimbingKeyEscapes`,
  exactly when for a key: `Paths.KeyInsideIff`, for a plan: `Containment.ContainedIff`, for one push:
  `Containment.OutsideIff`).
- The manifest is said never to appear over a partial delivery. A file delivered to the manifest path breaks that
  (`VolumePush.NamedManifestUnsafe`), and so does an envdir key that climbs to it although no container path of the plan
  is the manifest path (`Containment.ClimbingKeyIsManifest`); exactly when: `ReadySignal.SafeIffOrderly`.
- `fire` matches by container, so an alert can come before its registration's own deadline
  (`ClientTracker.StaleCallback`, exactly when: `ClientTracker.StolenIff`).
- Concurrent saves of the ledger can leave an older snapshot (`LedgerFile.OlderCanWin`, exactly when:
  `LedgerFile.StaleIff`).
- The encoder does not enforce the decoder's limits (`Wire.SentButTooLong`, exactly when: `Wire.ReadsBackIff`): a bundle
  with a field over the cap is sent and, as `Daemon.HandleFetch` says of every bundle sent, recorded as delivered, while
  the client turns it down and writes nothing (`Pipeline.Fetch`).
- A destroyed container's record can come back, because a push or fetch in flight records itself after the forget
  (exactly when: `PushLock.ReturnsIff`).

## Model

| member | source | states |
|---|---|---|
| Refs.ParsePrintRef | internal/label/ref.go:38-61 | every well-formed reference, printed, parses back to itself |
| Refs.PrintParseRef | internal/label/ref.go:38-61 | accepted text prints back unchanged, and what it parses to is never the unset reference |
| Refs.ParseRefIff | internal/label/ref.go:13-61 | the accepted texts are exactly the printed forms; every other text is malformed |
| Refs.RefTextIff | internal/label/ref.go:38-61 | a text is accepted as a reference exactly when it spells it: the key, source/KEY, or the source |
| Refs.NamesDisjoint | internal/label/ref.go:13-25 | no text is both a key and a source name, and neither holds the separator |
| Refs.KeyIs | internal/label/ref.go:11-13 | a key is capitals, digits and underscores, not starting with a digit |
| Refs.SourceNameIs | internal/label/ref.go:15-19 | a source is small letters, digits and dashes, without a dash at either end |
| Text.TrimSpaceIs | internal/label/parse.go:196-196 | trimming takes away blanks at both ends and nothing else, and leaves none there |
| Text.LeIs | internal/label/parse.go:58-64 | sort.Strings orders by the first byte that differs, a prefix first |
| Doorways.MergeDoorways | internal/label/parse.go:165-184 | for every order of visiting the labels the outcome is the same: the one merge, or the conflict class exactly when a suffix has two values |
| Doorways.MergesToUnique | internal/label/parse.go:165-184 | a suffix map that holds every carried suffix with its value is the merge, and its existence rules out a conflict |
| Doorways.MovedSame | internal/label/parse.go:165-184 | renaming any set of labels to the other prefix leaves the merge unchanged |
| Doorways.NameAndVolumeAgree | internal/daemon/loop.go:247-255 | for labels that merge, the readers of single labels see the merged name and volume |
| Doorways.IdentityIs | internal/peerauth/peerauth.go:160-172 | for labels that merge, the name label alone is the identity when set; else the compose service, else the container name without its slash |
| Labels.ParseEnvList | internal/label/parse.go:190-211 | the sentinel, or every reference of the list in order, or the class of the first that is not one |
| Labels.OwnerTextIff | internal/label/parse.go:14-16 | an owner is digits, or digits, a colon and digits, and nothing else |
| Labels.SplitFileIff | internal/label/parse.go:233-250 | splitting a file label at its last dot inverts joining name and attribute, for valid names with dots too |
| Labels.FileLabelInjective | internal/label/parse.go:233-250 | two valid name and attribute pairs never share a label |
| Labels.ParseFile | internal/label/parse.go:233-276 | a file label changes exactly its own field of its own delivery, or fails by its class |
| Labels.Take | internal/label/parse.go:72-133 | one turn of the loop keeps the draft equal to what the labels seen so far say |
| Labels.Parse | internal/label/parse.go:40-159 | the spec read off the merged labels, or the class of the first failing label in suffix order, whatever the map order |
| Labels.EnabledIff | internal/label/parse.go:40-159 | labels are accepted as enabled exactly when they do not conflict, say so, each is of the grammar with a value it takes, and variables are acknowledged |
| Labels.LabelIff | internal/label/parse.go:72-276 | the accepted labels are exactly those of the grammar, spelled out suffix by suffix with the values each takes |
| Labels.LabelClass | internal/label/parse.go:72-276 | a failing label is reserved, unknown, a whole source where a key is needed, or malformed, each in exactly its case |
| Labels.SpecSays | internal/label/parse.go:72-159 | every field of an accepted spec is its own label's text; variables are those of berm.env in list order, then the renames by variable; files are those the file labels name |
| Labels.ParseMovedSame | internal/label/parse.go:165-184 | moving any set of labels to the other prefix leaves the parse unchanged |
| Labels.ReadersSeeSpec | internal/peerauth/peerauth.go:177-188 | for labels accepted as enabled, the identity and volume readers agree with the parsed spec |
| Labels.DisabledFailsIff | internal/label/parse.go:40-50 | a container that neither prefix enables fails exactly when its labels conflict, and is inert otherwise |
| Labels.DisabledCanFail | internal/label/parse.go:41-50 | labels that do not enable the container and still fail with a prefix conflict |
| Labels.FilesLossless | internal/label/parse.go:233-276 | from the parsed deliveries one reads back exactly which file labels there were and what each said |
| Labels.FilesOrdered | internal/label/parse.go:148-156 | deliveries come out in name order, no name twice |
| Labels.RenamesSorted | internal/label/parse.go:143-146 | the renames, gathered in any order, come out as the one listing by variable |
| Resolution.Resolve | internal/resolve/resolve.go:205-297 | the plan, nothing for a container that is not enabled, or the class of the first rule broken |
| Resolution.PlanIffAdmissible | internal/resolve/resolve.go:205-431 | a plan comes out exactly when the labels parse as enabled, service and mechanism exist, env is client-only, and every reference, or the default source where there is none, is there, of the right format and owned or granted, owned for `all` |
| Resolution.RefusalIs | internal/resolve/resolve.go:205-431 | a refused spec is refused for its service or mechanism, for env on another mechanism, or with the class of the rule its first offending delivery breaks |
| Resolution.BreaksOnce | internal/resolve/resolve.go:395-460 | a source breaks a rule exactly when it may not be read in that format or is not owned, and then exactly one |
| Resolution.PlanReadsOnlyReadable | internal/resolve/resolve.go:395-494 | a plan names only sources its service owns or is granted, in the format the delivery needs |
| Resolution.PlanMeans | internal/resolve/resolve.go:205-363 | service, default source and mechanism are the first that is set; one binding per delivery, in order: the source and key its reference names, path, owner and mode from the first place that sets them, and a pointer exactly for keyed files |
| Resolution.RendersMean | internal/resolve/resolve.go:280-391 | the renders asked for, dotenv before envdir, of the label's source or the service's own, with the container-level owner and mode or the defaults |
| Resolution.OneOwner | internal/resolve/resolve.go:474-494 | every source has exactly one owner, and any other reader is named in its access list |
| Resolution.GrantsMonotone | internal/resolve/resolve.go:484-494 | adding names to access lists never turns success into failure nor changes the plan |
| Resolution.ToDelivery | internal/resolve/deliver.go:18-56 | the delivery plan of the resolved plan |
| Resolution.DeliveryCopies | internal/resolve/deliver.go:18-56 | that plan has the resolved targets, one for one, in order and field by field |
| Dotenv.DotenvKeys | internal/backend/dotenv.go:49-62 | the keys of the entries the text parses to, or the malformed error |
| Dotenv.DotenvFind | internal/backend/dotenv.go:69-83 | a slice of the given text that holds the value of the first line naming the key, or none, or the error |
| Dotenv.FindWhenParsed | internal/backend/dotenv.go:49-83 | when the key list succeeds a lookup never errors and finds exactly the listed keys |
| Dotenv.FoundIff | internal/backend/dotenv.go:69-83 | a lookup finds exactly the text after the "=" of the first line that starts with the key and "=", no malformed line coming before |
| Dotenv.LineEntries | internal/backend/dotenv.go:27-33 | a line's entry is its text up to the first "=" and the text after it, in the place of the line |
| Dotenv.CommentIgnored | internal/backend/dotenv.go:38-43 | a blank line or any line starting with # changes neither the entries nor any lookup |
| Dotenv.ParseFailsIff | internal/backend/dotenv.go:49-62 | the key list fails exactly when some line is malformed |
| Dotenv.FindFailsIff | internal/backend/dotenv.go:69-83 | a lookup fails exactly when a malformed line comes before every line naming the key |
| Dotenv.LaterLineUnseen | internal/backend/dotenv.go:69-83 | two lines whose key list fails while a lookup of the first key succeeds |
| Dotenv.RenderFixedPoint | internal/delivery/writer.go:62-87 | rendered text parses to the same keys with the same values, and rendering it again changes nothing |
| SopsAge.ListedKeysRead | internal/delivery/handler.go:177-202 | a render cannot fail on the lookup of a listed key |
| SopsAge.Handle.CaptureDecrypt | internal/backend/exec.go:147-187 | the plaintext in one live buffer, none for an empty one, and nothing left live when decryption fails |
| SopsAge.Handle.Keys | internal/backend/sopsage.go:125-142 | the key list, with no buffer left live |
| SopsAge.Handle.Value | internal/backend/sopsage.go:152-177 | the value in a buffer of its own that the handle keeps; the whole-source buffer is gone |
| SopsAge.Handle.WriteValue | internal/backend/sopsage.go:185-211 | the value's bytes, with no buffer left live |
| SopsAge.Handle.Payload | internal/backend/sopsage.go:216-229 | the payload in the buffer the handle keeps |
| SopsAge.Handle.CopyLocked | internal/backend/sopsage.go:253-261 | an empty value takes no buffer, any other exactly one, retained |
| SopsAge.Handle.Close | internal/backend/sopsage.go:267-275 | every retained buffer is destroyed and no other is touched |
| WireStream.Bundle.Track | internal/wire/wire.go:155-161 | a live buffer becomes the bundle's |
| WireStream.Bundle.AddSecret | internal/wire/wire.go:168-175 | the bytes are copied into one fresh buffer the bundle owns, none for an empty secret |
| WireStream.Bundle.Destroy | internal/wire/wire.go:182-195 | every owned buffer is destroyed, no other touched, and no view is left |
| BuildBundle.AddFile | internal/delivery/handler.go:122-149 | one file with its secret and its pointer is added, or the bundle's contents stay; the handle's buffers are gone either way |
| BuildBundle.AddRender | internal/delivery/handler.go:164-219 | the render's files are added in key order; handle and stream leave nothing live |
| BuildBundle.AddEnv | internal/delivery/handler.go:224-256 | the named variable, or one per key of the source |
| BuildBundle.Stream.Drain | internal/delivery/handler.go:87-91 | a drained stream leaves no live buffer |
| BuildBundle.DotenvTextIsRender | internal/delivery/handler.go:177-202 | the dotenv render of a source whose keys list always succeeds and is its rendered text |
| BuildBundle.Build | internal/delivery/handler.go:39-81 | the bundle of the plan or the first failure in order; on failure no buffer allocated on the way stays live, on success exactly the bundle's own do and its secrets read back |
| Delivered.BundleHolds | internal/delivery/handler.go:55-256 | in plan order, each file target's file with the secret its key names, each render's files, each env target's variables under their names, and each pointer; nothing else |
| Delivered.GatesAre | internal/delivery/handler.go:92-116 | a bundle is refused to a caller of another service, and with variables on any mechanism but the client's |
| Delivered.ManifestIff | internal/delivery/manifest.go:76-127 | a manifest comes out exactly when every source of the plan can be hashed |
| Delivered.ManifestSays | internal/delivery/manifest.go:76-127 | it says of each delivery what the plan says, with the hash of that delivery's own source |
| Plans.HashCache.HashOnce | internal/delivery/manifest.go:76-95 | the source's current hash, asked for at most once per source |
| Plans.BuildManifest | internal/delivery/manifest.go:76-127 | one entry per delivery with its source's current hash, or the first hash failure; no source is hashed twice |
| Wire.RoundTrip | internal/wire/protocol.go:163-313 | decoding an encoded bundle followed by anything yields the bundle and leaves exactly what followed |
| Wire.FrameOfOneFile | internal/wire/protocol.go:163-211 | the layout of a frame, byte by byte |
| Wire.ReadsBackIff | internal/wire/protocol.go:163-313 | a frame reads back as its bundle exactly when every field fits its length prefix and the decoder's cap |
| Wire.ReadOrTooLong | internal/wire/protocol.go:163-313 | a frame whose lengths fit their prefixes reads back, or is rejected as too long exactly when some field is over the cap |
| Wire.SentButTooLong | internal/wire/protocol.go:163-211 | the encoder reports no error for a file one byte over the cap, and the decoder rejects it |
| Wire.EncodingInjective | internal/wire/protocol.go:163-211 | bundles that fit and share a frame are the same bundle |
| Wire.ProperPrefixRejected | internal/wire/protocol.go:217-313 | a frame cut short anywhere is rejected |
| Wire.AcceptedIsEncoding | internal/wire/protocol.go:217-313 | whatever is accepted is the encoding of what it decodes to, followed by the rest |
| Wire.AcceptedLength | internal/wire/protocol.go:242-313 | an accepted frame is at least 10 bytes per file, 6 per variable, 4 per pointer and 18 more long |
| WireStream.EncodeBundle | internal/wire/protocol.go:163-211 | writes exactly the frame, and reports an error exactly when a name's narrowed length is too long |
| WireStream.ReadU32Locked | internal/wire/protocol.go:457-474 | one capped field in a buffer the bundle owns; on error the bundle owns no more than before and no buffer of the field stays live |
| WireStream.DecodeBundle | internal/wire/protocol.go:242-313 | decodes as the value decoder does; on any error every buffer is destroyed; at every moment live bytes are at most the bytes taken in by then plus one capped field |
| WireStream.ReadResponse | internal/wire/protocol.go:217-237 | the bundle, the refusal's reason, or a header error; nothing stays live unless a bundle came back |
| WireStream.WriteHookRequest | internal/wire/protocol.go:63-74 | writes a frame that depends only on the id and the map, not on the map's iteration order |
| WireStream.ReadHookBody | internal/wire/protocol.go:104-117 | reads as the value decoder does |
| Hook.HookRoundTrip | internal/wire/protocol.go:63-117 | a hook request that fits reads back to the same id and map and leaves exactly what follows |
| Hook.FrameOfOneAnnotation | internal/wire/protocol.go:63-74 | the layout of a hook request, byte by byte |
| Hook.HeaderIs | internal/wire/protocol.go:81-98 | the two-byte header is a fetch, a hook request, a wrong version or an unknown type |
| Hook.RefusalFrame | internal/wire/protocol.go:148-157 | an error frame reads back as its reason |
| Hook.HookInjective | internal/wire/protocol.go:63-74 | hook requests that fit and share a frame are the same request |
| Hook.HookPrefixRejected | internal/wire/protocol.go:81-117 | a hook request cut short anywhere is rejected |
| Paths.RebaseAcceptsIff | internal/delivery/volume.go:153-162 | accepts exactly the absolute paths that clean to the volume root or below it |
| Paths.CleanWritten | internal/delivery/volume.go:153-162 | a cleaned path, written out and cleaned again, is itself |
| Paths.CleanLaws | internal/delivery/volume.go:153-162 | lexical cleaning drops empty and "." elements, ".." takes back the element before it and never climbs above the root |
| Paths.RebaseLands | internal/delivery/volume.go:153-162 | the result lies under the mount, where the path lay under the volume root |
| Paths.RebaseInjective | internal/delivery/volume.go:153-162 | two paths share a destination exactly when they clean to the same path |
| Paths.KeyInsideIff | internal/delivery/writer.go:89-100 | the file of an envdir key is inside the mount, whatever the mount, exactly when the key's components never climb above the volume root |
| Paths.KeyMoves | internal/delivery/writer.go:89-100 | a key that does not climb lands at the same place under the mount as under the volume root in the container |
| Files.Host.EndWrite | internal/wire/file.go:77-101 | the file appears whole or not at all, the temporary never stays |
| Files.Host.WriteBytesFile | internal/wire/file.go:105-111 | the one file is replaced whole, or nothing changes |
| Executors.WriteFile | internal/delivery/writer.go:25-42 | the one file holds the secret with its owner and mode, or nothing changes; no buffer stays live |
| Executors.WriteRender | internal/delivery/writer.go:49-105 | the render's files are written in key order up to the first failure |
| Executors.ApplyVolume | internal/delivery/volume.go:94-146 | success means every planned file and then the manifest, in order; failure means exactly the first few planned files and no manifest; no buffer or temporary stays |
| Delivered.VolumeHolds | internal/delivery/volume.go:109-127 | a push that comes to its manifest has written each file target's secret at its moved path with its owner and mode, and each render's files, in plan order |
| Delivered.VolumeFileLeft | internal/delivery/volume.go:94-146 | after a push succeeds a file target's secret stands in the volume unless a later write of the plan is to the same path |
| Delivered.ManifestWrite | internal/delivery/volume.go:128-145 | the manifest goes to the mount's own manifest, owned by root and readable by all |
| Executors.ApplyFiles | internal/client/client.go:78-90 | success means every file of the bundle and then its manifest, in order; failure a proper prefix of them |
| Executors.ManifestSpelled | internal/wire/wire.go:30-30 | the manifest path under the volume root is the text the program uses |
| Agreement.ExecutorsAgree | internal/delivery/handler.go:55-64 | for an env-free plan under the volume root whose envdir keys do not climb out of it both executors fail with the same failure, or the volume's writes are the bundle's files, moved, in the same order |
| Agreement.SameFilesLeft | internal/delivery/volume.go:94-146 | after both succeed each path under the root holds the same content, owner and mode on both sides, last writer winning; paths not named are untouched |
| Containment.NothingOutside | internal/delivery/volume.go:94-162 | when no envdir key climbs above the volume root, a push changes nothing outside the mount, however far it gets |
| Containment.OutsideIff | internal/delivery/volume.go:94-146 | a push never changes anything outside the mount exactly when every write it can get as far as is inside |
| Containment.ContainedIff | internal/delivery/writer.go:89-100 | a push that nothing in its plan or sources stops stays inside whatever mount it has exactly when no envdir key climbs above the volume root |
| Containment.ClimbingKeyEscapes | internal/delivery/writer.go:89-100 | the source line `../../x=1`, rendered to `/run/berm/d` in a volume at `/v`, is written to `/x` |
| Containment.ClimbingKeyIsManifest | internal/delivery/writer.go:89-100 | a key that is not the manifest path in the container, is in the volume, and makes some run unsafe |
| ReadySignal.ReadySignalSafe | internal/delivery/volume.go:115-146 | from a volume without a manifest, however pushes fail, crash, retry or interleave, what stands at the manifest path was meant for it by a push whose every file is there, whole |
| ReadySignal.SafeIffOrderly | internal/delivery/volume.go:115-146 | all runs of a push are safe exactly when it writes nothing new after it can have written the manifest path |
| ReadySignal.RunTo | internal/wire/file.go:45-101 | whatever a lone push can leave behind is what some run of single steps leaves behind |
| VolumePush.PlanOrderly | internal/delivery/volume.go:94-146 | a push none of whose deliveries goes to the manifest path of the volume meets that condition, whatever else its sources hold, also when it is refused |
| VolumePush.TargetsAvoid | internal/delivery/volume.go:94-146 | such is any push where no target is the manifest path as the container sees it and no envdir key climbs above the volume root |
| VolumePush.PushesSafe | internal/daemon/loop.go:221-243 | every run of such pushes of a plan, sources changing between them, keeps the manifest of a push with all its files |
| VolumePush.NamedManifestUnsafe | internal/resolve/resolve.go:343-346 | a plan that can deliver any file to the manifest path ahead of a file of another path has an unsafe run |
| VolumePush.WaiterSees | internal/delivery/volume.go:171-183 | in such runs the waiter never meets a corrupt manifest and sees ready exactly when it exists |
| VolumePush.Push | internal/delivery/volume.go:94-146 | applyVolume leaves exactly the first n intended writes, all of them when it succeeds |
| Pipeline.NonInterference | internal/daemon/server.go:141-188 | two stores that agree on what the service owns or is granted give the same bundle or the same failure |
| Pipeline.VolumeNonInterference | internal/daemon/loop.go:221-243 | two stores that agree on what the service owns or is granted give the same writes of a volume push, its manifest included |
| Pipeline.BundleSame | internal/delivery/handler.go:39-81 | a bundle depends on no source its plan does not name |
| Pipeline.OwnPlanPasses | internal/delivery/handler.go:97-116 | for the caller's own resolved plan neither the scope check nor the env gate can refuse |
| Pipeline.Serve | internal/daemon/server.go:161-183 | the reply is the frame of the caller's bundle, and the daemon keeps no live buffer |
| Pipeline.Fetch | internal/client/client.go:50-90 | from labels to files: within the protocol's limits the container gets exactly the plan's files and then the manifest, with a field over the cap nothing; neither side keeps a live buffer whatever happened |
| FromLabels.FileDelivered | internal/daemon/server.go:141-188 | a file some label names is in the bundle sent, with the path, owner, mode and secret its own labels give, or the container's, the daemon's or the built-in defaults |
| FromLabels.FilePushed | internal/daemon/loop.go:221-243 | the same of the writes of a push that comes to its manifest, at the moved path |
| FromLabels.RenderDelivered | internal/daemon/server.go:141-188 | a dotenv or envdir label gets all keys of the label's source or the service's own, rendered at its path |
| FromLabels.RenamedVariableSeen | internal/client/client.go:98-123 | the variable of a berm.env.VAR label always reaches the app, with the value of the key the label names |
| FromLabels.AllKeysSeen | internal/client/client.go:98-123 | with berm.env=all every key of the default source reaches the app with its value, unless a rename label takes its name |
| FromLabels.ListedKeySeen | internal/client/client.go:98-123 | a key listed in berm.env reaches the app under its own name, unless a later part has the key too or a rename label takes the name |
| FromLabels.PointerSent | internal/delivery/handler.go:145-147 | the file of one key comes with a pointer named for the key that holds the file's path |
| ClientEnv.EnvFor | internal/client/client.go:98-123 | one entry per name, in order of first appearance, with the value assigned last |
| ClientEnv.SecretWins | internal/client/client.go:98-123 | a delivered secret beats a pointer and the client's own environment |
| ClientEnv.PointerReaches | internal/client/client.go:98-123 | a pointer reaches the app unless a later pointer or a secret has its name |
| ClientEnv.BaseReaches | internal/client/client.go:98-123 | the client's own variable, split at its first "=", stays unless a later entry, a pointer or a secret has its name |
| ClientEnv.NamesInOrder | internal/client/client.go:98-123 | the names come out in the order they are first assigned |
| ClientEnv.NamesOnce | internal/client/client.go:98-123 | no name appears twice, and the names are exactly those assigned |
| Ledger.Ledger.RecordManifest | internal/daemon/ledger.go:106-137 | the container's record becomes that of the manifest, each source with the hash named last; no other record changes |
| Ledger.Ledger.Forget | internal/daemon/ledger.go:141-152 | the container's record goes and no other |
| Ledger.RecordsAreLatest | internal/daemon/ledger.go:106-163 | after any run of records and forgets a container has a record exactly when it was injected and not forgotten since, and the record is that of its latest injection |
| Ledger.InjectedIs | internal/daemon/ledger.go:110-125 | a source is recorded exactly when a named delivery has it, with its last hash |
| Ledger.NamedIs | internal/daemon/ledger.go:110-125 | the sources a manifest names are those of its files, renders and variables, with their hashes, in that order |
| Ledger.RecordSays | internal/daemon/ledger.go:106-137 | a record is of its manifest's service and mechanism and time, and holds each source named with its last hash |
| Ledger.Ledger.FindDrift | internal/daemon/ledger.go:184-239 | the report lists exactly the recorded sources that changed or cannot be read, sorted, each once; no source is hashed twice |
| Ledger.ReportUnique | internal/daemon/ledger.go:184-239 | there is one such report, so map order cannot show |
| Ledger.DriftIsExact | internal/daemon/ledger.go:106-239 | after any run of records and forgets, a pair is reported exactly when the container's latest injection named the source and its hash differs or is unreadable |
| Ledger.DriftSays | internal/daemon/ledger.go:214-229 | a reported drift tells the service, time and last hash of the container's latest injection, and the source's hash now, or that it is missing |
| Ledger.NoDriftAfterRecording | internal/daemon/loop.go:235-242 | right after a built manifest is recorded with the sources unchanged its container has no drift |
| LedgerFile.CrashConsistent | internal/daemon/ledger.go:244-279 | under every interleaving of operations, saves, failures and crashes the file is its initial contents or a complete snapshot memory really had |
| LedgerFile.RestartPossible | internal/daemon/ledger.go:79-98 | a file that could be read at first can always be read again after a crash |
| LedgerFile.ChangedIsRecorded | internal/daemon/ledger.go:106-152 | memory in the saving protocol changes as the ledger's records do over the same operations |
| LedgerFile.SequentialIsCurrent | internal/daemon/ledger.go:127-152 | in a sequential run an operation whose save succeeds leaves the file equal to memory |
| LedgerFile.InOrderIsCurrent | internal/daemon/ledger.go:244-279 | where saves publish in order and none fails, the file equals memory once all are done |
| LedgerFile.OlderCanWin | internal/daemon/ledger.go:248-274 | two concurrent operations, nothing failing, that leave the older snapshot published |
| LedgerFile.StaleIff | internal/daemon/ledger.go:127-152 | after an operation, nothing failing and no other beginning, the file can end up different from memory exactly when an earlier save has a snapshot, not yet published, that differs from what the operation makes of memory |
| ClientTracker.Conservation | internal/daemon/clienttimeout.go:55-132 | over every interleaving, accepted registrations are those expired, cleared, dropped by stop and pending, and every pending one has its own timer live |
| ClientTracker.StoppedForGood | internal/daemon/clienttimeout.go:124-132 | once stopped, nothing is ever pending, accepted or newly expired |
| ClientTracker.TimerRunsOut | internal/daemon/clienttimeout.go:96-120 | a pending registration's own timer, run to its end, raises its alert |
| ClientTracker.StolenIff | internal/daemon/clienttimeout.go:55-107 | a registration can be expired by another's timer exactly when an earlier timer for its container is still live as it is made |
| ClientTracker.StaleCallback | internal/daemon/clienttimeout.go:96-107 | a run in which a stale callback consumes a newer registration |
| ClientTracker.Tracker.Expect | internal/daemon/clienttimeout.go:55-70 | the expect step; nothing when the timeout is not positive |
| ClientTracker.Tracker.Arrived | internal/daemon/clienttimeout.go:76-83 | the arrive step |
| ClientTracker.Tracker.Deadline | internal/daemon/clienttimeout.go:67-69 | the runtime queues the callback of a timer that ran out |
| ClientTracker.Tracker.Fire | internal/daemon/clienttimeout.go:96-120 | the fire step |
| ClientTracker.Tracker.Stop | internal/daemon/clienttimeout.go:124-132 | the stop step, in whatever order the pending map is visited |
| PushLock.PushesExclude | internal/daemon/daemon.go:473-492 | in every interleaving a key keeps its mutex and at most one push per container is in flight |
| PushLock.RecordAfterForget | internal/daemon/loop.go:154-167 | a record found after a destroy is of an injection in flight at the forget or begun after it |
| PushLock.ReturnsIff | internal/daemon/loop.go:221-243 | with none beginning after it, a forgotten record can return exactly when an injection of the container is in flight, unrecorded, at the forget |
| PushLock.KeyedMutex.Lookup | internal/daemon/daemon.go:482-492 | the key's mutex, made only when there is none |
| Daemon.Daemon.PushVolume | internal/daemon/loop.go:221-243 | success means every write with the manifest in place, the injection recorded and no standing error; failure leaves ledger and standing errors as they were |
| Daemon.Daemon.PlanForIs | internal/daemon/loop.go:174-212 | a container's plan is that of its labels for the service its identity gives, under the daemon's berm.yml and default delivery |
| Daemon.Daemon.UnservedIff | internal/daemon/loop.go:125-148 | a container is to be pushed to exactly when its plan is for a volume that is mounted here and holds no manifest |
| Daemon.Daemon.ReconcileVolumes | internal/daemon/loop.go:113-151 | only containers that awaited it are pushed to; after a pass without failure no listed container awaits its manifest; where none awaited it nothing at all changes |
| Daemon.Daemon.TwoPasses | internal/daemon/loop.go:113-151 | after a clean pass another over the same listing pushes nothing |
| Daemon.Daemon.Act | internal/daemon/loop.go:188-212 | by mechanism: only a volume container is pushed to, only a client container is expected to fetch, a sticky failure is left standing |
| Daemon.Daemon.HandleStart | internal/daemon/loop.go:174-212 | the same from the inspected container: what is pushed, recorded, expected and left standing |
| Daemon.Daemon.HandleFetch | internal/daemon/server.go:141-188 | a fetch ends its expectation, and either sends the bundle, records it from its own manifest and clears the container's standing error, or leaves the ledger and a sticky refusal standing |
| Daemon.Daemon.FetchedHasNoDrift | internal/daemon/server.go:234-241 | what a fetch sent is recorded as that delivery: with the sources unchanged its container has no drift |
| Daemon.Daemon.HandleEvent | internal/daemon/loop.go:154-167 | a destroy by itself leaves no record, standing error or expectation of the container; a stop or die only ends the expectation |
| Daemon.Daemon.AlertValidation | internal/daemon/daemon.go:366-449 | exactly the sticky classes are left standing, with the time of the first |
| Cgroup.IdFromSegment | internal/peerauth/cgroup.go:59-71 | the id a segment carries by itself or behind a prefix, or none exactly when it carries none |
| Cgroup.KnownShapes | internal/peerauth/cgroup.go:54-71 | bare, prefixed, and with either unit suffix, every segment a known runtime writes carries its id |
| Cgroup.OneIdPerSegment | internal/peerauth/cgroup.go:25-71 | a segment carries at most one id |
| Cgroup.PrefixOrderIrrelevant | internal/peerauth/cgroup.go:25-71 | the order of the known prefixes changes nothing |
| Cgroup.PathOfIff | internal/peerauth/cgroup.go:90-97 | the path of a line is what follows two fields without colons |
| Cgroup.ParseCgroup | internal/peerauth/cgroup.go:82-116 | the only id named in any segment of any well-formed line, or no id, or ambiguity exactly when two are named |
| Cgroup.AnswerUnique | internal/peerauth/cgroup.go:82-116 | exactly one answer fits a file |
| Cgroup.OrderIrrelevant | internal/peerauth/cgroup.go:82-116 | neither the order of lines nor their repetition changes the answer |

## Left out

- The inside of memguard, sops, age and tmpfs: buffers are only allocated or destroyed, a source decrypts or does not, and a write's ownership, mode and mount checks are calls that may fail. Parsing an owner or mode into numbers is one of those calls.
- Go's `memguard.Stream` seals in chunks and can fail in `Flush`; here it is one sealed text whose flush succeeds.
- The socket accept loop, `SO_PEERCRED`, `/proc` reads, process pinning, runtime inspect, list and watch: their results are inputs, and what happens to a connection that breaks while it is written is not modelled.
- The error reply of a fetch or hook request: its frame is modelled, its wording is not, so `Pipeline.Serve` writes nothing when it refuses.
- JSON, YAML and timestamp formatting: marshalling and parsing are an inverse pair, and a JSON text is taken to be non-empty where the client would otherwise see no manifest.
- The wording of errors: only the class is kept. With several prefix conflicts Go names one that depends on map order; the class does not.
- White space in `strings.TrimSpace` is ASCII only; Go also trims the Unicode spaces.
- Temporary files live in a name space of their own, so a delivery whose target path is itself one of the writer's temporary names is not modelled.
- The order of an alert and of other work after a lock is released: alerts are counted when the registration is removed.
- The `Daemon` methods are whole calls; passes, events and fetches interleaving are covered by `ReadySignal` (their writes), `PushLock` (their exclusion and their ledger records), `ClientTracker` and `LedgerFile`, not by one combined machine.
- An empty volume root (the daemon has a default) and a ledger without a path, which is never saved.
- The hook handler's own identity and annotation checks; its request and reply are on the wire model, its bundle is `BuildBundle.Build`, its record is that of a fetch in `PushLock`.
- The hook delivery into a root file system and the stub `Client` and `Hook` deliveries, the digest text, heartbeat, schedules, socket defaults, CLI, exec and PATH lookup: thin or output only.
- `BERM_DEFAULT_DELIVERY` per runtime (`EffectiveDefaultDelivery`): its result is an input.
