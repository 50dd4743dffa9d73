# Oikos node daemon: verified model

Oikos runs game servers on a node: it backs their files up and restores them, replaces its own
binary through versioned slots, serves their files, watches their containers and restarts the ones
that crash, keeps a tunnel process configured, and hosts plugins. This project models the parts of
the daemon whose correctness lies in invariants rather than in any single branch, and proves them in
Dafny. `dafny verify dfyconfig.toml` checks everything.

Modules follow the program's files.

- `Text`, `Faults`, `Paths`: ordered strings and sorting; how calls fail; Go's slash-path algebra (Clean, Join, Rel).
- `PathResolver`: the file manager's path check and directory listing.
- `Archive`, `BackupManager` (Restore.dfy): the backup walk and extractor, and the transaction around them.
- `UpdateSlots` (Slots.dfy), `Retention`: update and rollback over `state.json`, two links and the slot binaries; which slots may go.
- `CrashDetection`, `SelfHealing`, `EventBus`: the orchestrator.
- `Tunnel`, `Plugins`: the tunnel manager with its table, file and child process; plugin start-up and routing.
- `Backoff`, `Template`, `Limits`: the two backoff functions under 64-bit arithmetic, start-up command templates, cgroup limits.

Three conventions run through the project.

- Code that changes state is a class with methods; every call into the operating system, the
  database, the container runtime or the panel may fail, which the methods choose by `*`. Where a
  crash matters (`BackupManager`, `UpdateSlots`) the field `history` records every state the disk has
  been in, so "after a crash" means "at any element of `history`".
- Where several goroutines interleave (`CrashDetection`, `SelfHealing`, `EventBus`) there is a
  transition system `Next` whose steps are the program's atomic sections. The theorems are about all
  its runs, and each method of the class beside it is proved to perform exactly those steps.
- Classes whose calls may fail have a constant `reliable`. When it holds, calls and callbacks fail only for
  the reasons the state gives, and the methods promise success as well as safety: a stopped server is backed
  up under a new id and restored if and only if its tree holds no link, socket or device
  (`BackupManager.Host.BackupThenRestore`).
- A method is proved against a specification function or predicate; what that specification
  promises is proved separately as lemmas.

Where the code does less than its comments or design say, the model follows the code, and the theorem
gives the exact condition:

- A tree with a device or other special file is archived but cannot be restored; archiving itself
  stops at a symbolic link or a socket (`Archive.RoundTrip`, `Archive.TarWriter.Walk`).
- A restore begun with the server's directory in place never loses it. If a crash falls between the two
  renames, the old tree is only in `.previous-<id>`, and the next restore removes that before it installs
  the new one: it is safe until extraction has completed, and every failing restore keeps it if and only
  if extraction cannot complete (`BackupManager.RootlessFailuresKeepIff`, `BackupManager.OldTreeCanBeLost`).
- The version name "backups" is valid and is also the backup directory; an update to it overwrites
  the backups it has just taken, also when it then fails; an update to any other version keeps them,
  whatever its outcome (last clauses of `UpdateSlots.Manager.Apply`).
- Starting a server drops its manual-stop flag before the container runs, and restarting never drops it,
  so a stop can be reported as a crash and a crash can be missed. In every interleaving a container found
  gone is reported exactly when no begun stop still stands (`CrashDetection.ReportsExactly`); with atomic
  commands a crash is missed exactly when RestartServer brought the container up while a stop was
  pending (`CrashDetection.CrashIsMissedIff`).
- The restart count is never reset, whatever `StableResetAfter` says, so it is monotone; and a restart
  whose bookkeeping fails is not counted, so such restarts are unbounded
  (`SelfHealing.UncountedRestartsAreUnbounded`).
- With exactly one mapping a rebuild leaves a held child alone, on whatever file it read, even when it
  has exited; over a run the child is stale exactly after such a rebuild that nothing has mended
  (`Tunnel.StaleExactlyWhen`, `Tunnel.StaleRunsExactly`, `Tunnel.TwoToOneLeavesAStaleChild`).
- The tunnel index starts empty and is not loaded from the table: after a restart a registration that
  succeeds is indexed if and only if the table did not already hold the mapping
  (`Tunnel.RegisterAfterRestart`).
- An event published with type "*" reaches a "*" subscriber twice (`EventBus.OwedIsMatching`).
- A manifest may list a route twice and is then valid, but start-up with it always fails
  (`Plugins.Registry.StartAll`).
- `keep` values of 2^63-2 and 2^63-1 wrap and protect nothing beyond the two slots
  (`Retention.VersionsToRemove`).
- Substitution can depend on the map's iteration order when a value contains "{" or a key a brace; with
  brace-free keys and no "{" in text and values it never does
  (`Template.BracesInValuesMakeOrderMatter`, `Template.OrderDoesNotMatter`).

## Model

| member | source | states |
|---|---|---|
| Paths.ParseRender | internal/filesystem/manager.go:44-64 | Printing and reading back a cleaned path loses nothing, so reasoning about components is reasoning about the strings |
| Paths.CleanBeforeAppend | internal/filesystem/manager.go:58 | Cleaning a relative path first and joining it then resolves like the uncleaned components |
| Paths.RelAcceptsIffInside | internal/filesystem/manager.go:59-62 | Rel followed by the ".." test accepts a target exactly when the base is a component prefix of it |
| Paths.EscapesIffUp | internal/filesystem/manager.go:60 | The string test for escaping is true of a normal path exactly when its first component is ".." |
| Paths.CleanRules | internal/filesystem/manager.go:58 | The rules of lexical cleaning as laws on strings: repeated slashes are one, "." goes, a name followed by ".." goes with it, ".." goes at the root, and a path of plain names stays as it is |
| PathResolver.LexicalAcceptsIffInside | internal/filesystem/manager.go:40-63 | A path is accepted iff the server ID is valid, the path is relative, has no NUL or backslash, and normalises to a place at or below the server root; and then that place is returned; a refusal says whether the ID or the path was at fault |
| PathResolver.AcceptedPathIsCleaned | internal/filesystem/manager.go:40-68 | An accepted path is the text "base/id/data/path", cleaned as a whole |
| PathResolver.ServersNeverCollide | internal/filesystem/manager.go:40-63 | Two different server IDs never resolve to the same path, for any pair of relative paths |
| PathResolver.LinksPlayNoPart | internal/filesystem/manager.go:70-93 | If the walk meets no link, resolution gives the same answer however many links the kernel would follow |
| PathResolver.ResolveThrough | internal/filesystem/manager.go:70-93 | Resolution of a path continues from where its resolved prefix ends |
| PathResolver.VerdictMeans | internal/filesystem/manager.go:70-93 | On the entries of the tree alone: a path is answered iff no component that is reached is a link, or a file with more to come; of these the first decides, a link as an escape and a file as an I/O error |
| PathResolver.LexicalEqualsPhysical | internal/filesystem/manager.go:47-93 | Whenever ResolvePath succeeds, following links from the server root reaches exactly the returned path, or a component that does not exist |
| PathResolver.ListedPathResolves | internal/filesystem/manager.go:106-134 | The path reported for a directory entry that is no link and has no backslash resolves back to that entry |
| PathResolver.FileManager.RejectSymlinkComponents | internal/filesystem/manager.go:70-93 | The loop over components, stated on the entries of the tree: on a reliable file system it accepts iff every component reached before the first missing one is no link, and every one with components after it is no file; the first link is an escape, the first file in the way an I/O error |
| PathResolver.FileManager.ResolvePath | internal/filesystem/manager.go:47-68 | A lexically accepted path is answered, on a reliable file system, iff every component reached before the first missing one is no link and every one with components after it is no file, so a path that does not exist yet is answered; the first link gives OutsideRoot, the first file in the way an I/O error; a lexical refusal is reported as it is |
| PathResolver.FileManager.ListableMeans | internal/filesystem/manager.go:106-119 | A directory can be listed iff the path is accepted, it and everything above it are directories, and nothing on the way is a link |
| PathResolver.FileManager.List | internal/filesystem/manager.go:106-134 | On a reliable file system, succeeds exactly on accepted existing directories, and otherwise only on them; one record per entry, none missing, with kind and a path that resolves back; any I/O error means no partial listing |
| Archive.AcceptedNameStaysInside | internal/backup/restore.go:49-60 | Any accepted archive name, hostile ones included, lands at plain components below the root, and the second containment test never fires |
| Archive.NameRefusedIff | internal/backup/restore.go:51-54 | A name is refused iff it is absolute, cleans to nothing, or climbs out |
| Archive.EmittedNameIsClean | internal/backup/archive.go:36-48 | A name the walk writes passes the extractor's cleaning and containment tests unchanged |
| Archive.RoundTrip | internal/backup/restore.go:40-87 | Unpacking what the walk wrote rebuilds exactly the same paths and bytes, in any entry order, into an empty directory or over an interrupted extraction, and fails iff the tree has a special file |
| Archive.UnpackedEntry | internal/backup/restore.go:49-86 | If any sequence of entries is unpacked to its end, it held directories and regular files only, no link, each with a name that stays inside |
| Archive.UnpackAllEffect | internal/backup/restore.go:40-87 | Unpacking any sequence of entries removes nothing and changes no kind, and what is new or changed lies on the way to some entry |
| Archive.CutEntryInPiece | internal/backup/restore.go:69-86 | An entry cut short in mid-write still leaves a part of the tree that a retry can complete |
| Archive.TarWriter.Visit | internal/backup/archive.go:26-62 | One callback: nothing for the root, one entry for a directory, file or device, an error for a link or socket |
| Archive.TarWriter.Walk | internal/backup/archive.go:25-63 | A successful walk wrote one entry for every path below its start and no other, with its kind and bytes; a failure is justified by a link, a socket or an I/O fault there, and without faults by a link or a socket |
| BackupManager.Host.MakeAll | internal/backup/restore.go:66-75 | Directories appear one at a time, parents first, and end as one MkdirAll; every state on the way can be completed by a retry |
| BackupManager.Host.UnpackEntry | internal/backup/restore.go:49-86 | One entry, with its directories, the empty file and the partly written file as states of their own, ends where the specification says, errors included |
| BackupManager.Host.ExtractArchive | internal/backup/restore.go:28-88 | The decode loop ends where unpacking the whole sequence ends, or leaves a resumable part behind, at every recorded state; without faults it fails only as the specification does |
| BackupManager.Host.Stage | internal/backup/manager.go:126-134 | Staging changes no other directory, and success means the complete archive was unpacked; without faults it succeeds iff the archive can be unpacked into an empty directory |
| BackupManager.Host.Install | internal/backup/manager.go:135-151 | The swap: at every state the old tree is whole at root or at previous, or root holds the whole new one; an error leaves the old root unless the recovery rename failed too; without faults it succeeds |
| BackupManager.InstallMeans | internal/backup/manager.go:139-151 | In every run of the renames and removals: success leaves the staged tree at root; a failure leaves a root that was seen where it was, unless installing and recovering rename both failed |
| BackupManager.LiveTreeIsKept | internal/backup/manager.go:126-151 | At every state of a restore the tree of a server that has one is whole at root, or whole at previous with no root, or the whole new one is at root |
| BackupManager.OtherPlacesStay | internal/backup/manager.go:126-151 | At every state every directory but the three of this restore is as it was |
| BackupManager.Host.Restore | internal/backup/manager.go:95-152 | Success, and completed extraction too, mean that the row is there and completed, the archive has the digest on record, and the server is stopped or has no status provider; if any of these fails the result is an error and nothing has changed; each early error says what was wrong; no state on the way loses the old tree or shows a partial root; success installs exactly the extracted tree; failure keeps the old one unless the installing and the recovering rename both failed; a tree put aside by a crashed restore is whole until extraction has completed; without faults an admitted restore succeeds iff the archive unpacks |
| BackupManager.RootlessFailuresKeepIff | internal/backup/manager.go:136-149 | Begun without a root, every failing restore keeps the tree put aside iff extraction of the archive cannot complete |
| BackupManager.OldTreeCanBeLost | internal/backup/manager.go:139-149 | For every such start and completed extraction, a run at whose end neither root, previous nor staging is left |
| BackupManager.Host.RestoreOf | internal/backup/manager.go:95-152 | At every state of a restore of a known tree, the tree the server had or the archived one is whole at root or at previous, and staging can be completed by a retry |
| BackupManager.Host.CreateArchive | internal/backup/archive.go:15-83 | Success leaves an archive of the live tree in the destination, with its digest; without faults it succeeds iff the directory is there and holds no link or socket |
| BackupManager.ArchivedOrNot | internal/backup/archive.go:25-63 | An archive of a whole tree comes about unless something in it cannot be archived |
| BackupManager.Host.Create | internal/backup/manager.go:57-93 | A completed row always has an archive of the tree and its checksum; failures never leave a completed row and touch no other file or row; without faults it succeeds iff server and directory are given, the id is new and the tree holds no link or socket |
| BackupManager.Host.Delete | internal/backup/manager.go:165-174 | File first, then row: a failure never leaves a file without its row |
| BackupManager.Host.BackupThenRestore | internal/backup/manager.go:57-152 | A backup restored after arbitrary changes brings back the tree as it was; without faults both succeed iff the tree holds no link, socket or device |
| BackupManager.Host.RestoreAgainAfterCrash | internal/backup/manager.go:126-151 | After a crash at any state a second restore that succeeds installs exactly the archived tree; one that fails leaves the former or the archived tree whole, unless the crash left no root and the second extraction completed |
| BackupManager.ExtractedIsTree | internal/backup/restore.go:40-87 | Whatever staging held before, a completed extraction is the archived tree |
| UpdateSlots.AllowedIsSafe | internal/update/slots.go:29-63 | From a safe start every state an update may pass through names a bootable Current, a bootable Previous if any, and only trusted or verified bytes; the two stay apart |
| UpdateSlots.AllowedIsSound | internal/update/slots.go:29-118 | In each such state loadState answers with the old pair or the intended one, nothing else |
| UpdateSlots.LoadsExactly | internal/update/slots.go:29-63 | A pair is loaded iff the manifest names it, or without a manifest the links do, and both names are usable as slots |
| UpdateSlots.Manager.SaveState | internal/update/slots.go:65-88 | The manifest changes in one rename or not at all; scratch files never become visible as slots |
| UpdateSlots.Manager.ReplaceSymlink | internal/update/slots.go:120-141 | A link changes in one rename or not at all |
| UpdateSlots.Manager.ProjectState | internal/update/slots.go:90-108 | Success leaves both links agreeing with the manifest; failure leaves the manifest alone |
| UpdateSlots.Manager.RestoreState | internal/update/slots.go:110-118 | Compensation: the old manifest and links are back unless its own saveState failed, which the error says |
| UpdateSlots.Manager.Apply | internal/update/manager.go:43-119 | nil means that the download is there and has the digest of the release, that the verifier accepts a non-empty signature over it, and that the version is one path component and no reserved name; if any of these or of the other demands fails, the result is an error and nothing has changed. nil leaves manifest and links naming the version and the old Current, the verified binary in its slot, and every configured callback made in order; every state on the way loads as the old pair or the new one; an error leaves the old pair unless it reports that the compensating save failed; other slots keep their entries and existing backups survive, unless the version is "backups"; without faults, a version that is not hidden is installed |
| UpdateSlots.Manager.Rollback | internal/update/manager.go:121-140 | All or nothing at every state, from any loadable manifest: nil means the pair swapped and links agreeing; an error leaves loadState's answer iff it does not report that the compensating save failed; only the manifest and links are touched; a safe pair stays safe throughout; without faults it succeeds iff there is a previous slot |
| UpdateSlots.Manager.CommitCandidate | internal/update/manager.go:99-117 | From the first manifest write on: commit with projection and post-switch health, or compensation |
| UpdateSlots.Manager.TryCandidate | internal/update/manager.go:87-117 | The candidate is installed whole before it is named, and removed again, as far as that goes, when its health check fails |
| UpdateSlots.Manager.AnyRun | internal/update/manager.go:43-140 | Any sequence of updates and rollbacks, any call failing, any command cut off by a crash at any state: in every state the pair that would be loaded names executable binaries, kept apart, with bytes trusted at the start or brought by one of the commands |
| UpdateSlots.Manager.OfferedMeans | internal/update/release.go:25-57 | The bytes the commands bring are exactly the downloads of updates whose release checks out: digest, signature, verifier and version |
| UpdateSlots.EnduresMeans | internal/update/manager.go:43-140 | Read off each directory of a run: both slots exist, are executable, and hold trusted bytes |
| UpdateSlots.Manager.RollbackTwice | internal/update/manager.go:121-140 | Two successful rollbacks restore manifest and links; without faults both succeed iff there is a previous slot |
| Retention.VersionsToRemove | internal/update/retention.go:7-24 | A listed version goes, as often as it is listed, iff it is in neither slot and at least keep other such versions come after it in bytewise order (one more when both slots are the same), so the newest stay; at most keep+2 distinct versions survive; the two wrapping values of keep are told apart |
| Retention.TopPartIsExact | internal/update/retention.go:13-17 | The set the backwards loop protects is characterised by how many newer candidates a version has |
| Text.LeqMeans | internal/update/retention.go:12 | The sorting order is the bytewise one: a prefix comes first, and otherwise the smaller character at the first difference |
| CrashDetection.AlwaysRecorded | internal/orchestrator/lifecycle.go:84-176 | Runtime status, manual-stop flag, kind of exit, and what the observer has read and remembers are what the list of steps says they are, after every step of every interleaving |
| CrashDetection.ReportsExactly | internal/orchestrator/crash_observer.go:39-51 | With reading and comparing as separate steps, in every interleaving and in terms of the steps alone: a container found gone is reported iff no begun stop stands; a stop is reported as a crash iff every StopBegin was followed by a StartBegin, a refused stop or a comparison that consumed the flag; a crash is missed iff one was not |
| CrashDetection.AtomicRunsAreRuns | internal/orchestrator/lifecycle.go:84-176 | Whole commands are among the interleavings |
| CrashDetection.ManualStopsAreNeverReported | internal/orchestrator/crash_observer.go:39-51 | With atomic commands a report always means the container ended by itself |
| CrashDetection.SpontaneousExitIsReported | internal/orchestrator/crash_observer.go:39-51 | With atomic commands and no restart while a flag is pending, an exit of a container seen running is reported at the next round |
| CrashDetection.CrashIsMissedIff | internal/orchestrator/lifecycle.go:136-176 | With atomic commands, the exit of a container seen running is reported at the next round iff the commands do not hold a Stop followed by a Restart with no Start and no noticing round after the Stop |
| CrashDetection.EachExitReportedOnce | internal/orchestrator/crash_observer.go:39-51 | With atomic commands there are never more reports than spontaneous exits |
| CrashDetection.StartVoidsTheFlag | internal/orchestrator/lifecycle.go:84-118 | Concrete run: a manual stop reported as a crash while a start is under way |
| CrashDetection.RestartHidesACrash | internal/orchestrator/lifecycle.go:160-176 | Concrete run: a crash swallowed by a flag that RestartServer left in place |
| CrashDetection.Node.StartServer | internal/orchestrator/lifecycle.go:84-134 | Performs the two start steps, the second only if the runtime starts; drops the flag of that server and touches no other; publishes exactly on success, and succeeds without faults |
| CrashDetection.Node.StopServer | internal/orchestrator/lifecycle.go:136-153 | Performs the two stop steps: the flag stands when the container went down, and is dropped when the runtime refuses; publishes exactly on success, and succeeds without faults |
| CrashDetection.Node.RestartServer | internal/orchestrator/lifecycle.go:160-176 | Performs the restart step or nothing, and never touches a flag; publishes exactly on success |
| CrashDetection.Node.IsManualStop | internal/orchestrator/lifecycle.go:155-158 | Reads and clears the flag of one server only |
| CrashDetection.Node.Look | internal/orchestrator/crash_observer.go:43 | Reading one status is the Look step |
| CrashDetection.Node.Judge | internal/orchestrator/crash_observer.go:47-51 | Comparing, consuming the flag and remembering is the Judge step: server.crashed is published iff the status remembered was running, the one read is not, and no flag stands |
| CrashDetection.Node.Observe | internal/orchestrator/crash_observer.go:39-51 | One server's undisturbed turn is the two steps in a row |
| CrashDetection.Node.Round | internal/orchestrator/crash_observer.go:31-52 | One undisturbed round is a Poll for every server the runtime answered for, with one event for each that passes the test, in listing order, and no other; without faults every server with a container answers |
| CrashDetection.Node.AnyRun | internal/orchestrator/crash_observer.go:31-52 | Commands, failures, exits, readings and comparisons interleaved at will, on any servers: each server's state is that of a run of steps, and it was reported as crashed as often as a comparison in that run reports it |
| SelfHealing.AlwaysBounded | internal/orchestrator/selfheal.go:58-85 | In every run with at most K handlers in flight, count plus handlers past the check never exceeds MaxRetries+K-1 (or the initial count), and every restart is accounted for |
| SelfHealing.RestartsAreBounded | internal/orchestrator/selfheal.go:58-85 | Recorded automatic restarts are at most MaxRetries+K-1, and at most MaxRetries when handlers do not overlap |
| SelfHealing.BoundIsReached | internal/orchestrator/selfheal.go:58-85 | For all MaxRetries and K there is a run that reaches the bound |
| SelfHealing.UncountedRestartsAreUnbounded | internal/orchestrator/selfheal.go:80-84 | For every n there is a run without overlap that restarts n times, the store refusing each increment |
| SelfHealing.SequentialCrashes | internal/orchestrator/selfheal.go:58-85 | Without overlap the first MaxRetries crashes get one restart each, and exactly from the next one on the server is crash_looping |
| SelfHealing.SelfHealer.CheckLimit | internal/orchestrator/selfheal.go:59-71 | The check performs one Check step (or its failing form), consumes the manual mark, goes on only without a mark and below the limit, and logs recovery_failed only at the limit |
| SelfHealing.SelfHealer.DoRestart | internal/orchestrator/selfheal.go:72-79 | The wait and restart perform one Cancelled or Restart step |
| SelfHealing.SelfHealer.CountRestart | internal/orchestrator/selfheal.go:80-84 | The bookkeeping performs one Increment step, failed or not |
| SelfHealing.SelfHealer.Handle | internal/orchestrator/selfheal.go:58-85 | An uninterrupted handler restarts at most once, never after a manual mark or at the limit, and leaves other servers alone; without faults it does exactly what SequentialCrashes is about |
| SelfHealing.SelfHealer.HandleTimes | internal/orchestrator/selfheal.go:58-85 | n crashes one after the other raise the stored count by n or up to the limit, and the server is marked crash_looping iff there were more |
| EventBus.DeliveryOnEveryRun | internal/orchestrator/eventbus.go:29-75 | For any number of publishers and subscribers and any interleaving: queues hold at most 64, accepted events are received or queued in order, every live subscription is listed once, and each publisher has offered a channel exactly its matching events between subscription and cancellation, in order, less what its snapshot still holds |
| EventBus.SubscriberSeesTheLog | internal/orchestrator/eventbus.go:64-75 | With one publisher, received plus queued is an in-order subsequence of the matching log, complete iff no offer met a full queue; the first 64 offers never do |
| EventBus.OwedIsMatching | internal/orchestrator/eventbus.go:64-68 | What a subscriber is owed is the plain matching log iff it is no wildcard subscriber or no published type is "*" |
| EventBus.CancelIsExact | internal/orchestrator/eventbus.go:36-48 | Cancel is idempotent, unlists exactly its own channel, and changes no queue, no other channel and no snapshot in flight |
| EventBus.PublishOffersOnce | internal/orchestrator/eventbus.go:64-75 | An undisturbed publish of an ordinary event offers it once to every live matching subscription and to nobody else |
| EventBus.CutFirst | internal/orchestrator/eventbus.go:40-45 | The in-place cancel loop removes the first occurrence and keeps the order of the rest |
| EventBus.AppendTo | internal/orchestrator/eventbus.go:33 | append, in place or into a new array, adds one channel at the end |
| EventBus.SliceTable.RemoveFirst | internal/orchestrator/eventbus.go:40-45 | Changing one list in its backing array leaves every other list as it was |
| EventBus.EventBus.Subscribe | internal/orchestrator/eventbus.go:29-34 | Performs the Subscribe step over the in-memory slices; snapshots in flight are untouched |
| EventBus.EventBus.Cancel | internal/orchestrator/eventbus.go:36-48 | Performs the Cancel step; shifting the backing array disturbs no snapshot |
| EventBus.EventBus.Begin | internal/orchestrator/eventbus.go:65-68 | Taking the snapshot performs the Begin step, into an array of its own |
| EventBus.EventBus.Send | internal/orchestrator/eventbus.go:69-74 | One turn of the sending loop performs the Send step: queued when there is room, dropped otherwise |
| EventBus.EventBus.Publish | internal/orchestrator/eventbus.go:64-75 | An event of an ordinary type lengthens by one the queue of every subscription of that type or "*" that is not cancelled and holds fewer than 64 events, and changes no other |
| Tunnel.GenerateConfig | internal/tunnel/config.go:42-68 | The loop returns the first error in tunnel-ID order, or one proxy per mapping in that order |
| Tunnel.GeneratedWhen | internal/tunnel/config.go:42-58 | A file can be generated iff the server has an address and a port, and every mapping its ids, a known protocol and two ports; BadServer means the first |
| Tunnel.FileIgnoresOrder | internal/tunnel/config.go:46-48 | The file is the same for every walk of the map and for every sorting routine |
| Tunnel.FileIsUnique | internal/tunnel/frp.go:134-142 | A mapping set has one file |
| Tunnel.FileServesTheIndex | internal/tunnel/config.go:49-63 | A generated file has the configured server and token, and exactly one proxy for each mapping, in the order of the tunnel ids, with its name, protocol, local address and ports |
| Tunnel.RebuiltMeans | internal/tunnel/frp.go:134-153 | After a rebuild that ends well the file is the index's; no child is held for no mapping, a held one is kept for one, and otherwise one has just been started on that file |
| Tunnel.IndexIsUnique | migrations/0002_networking.sql:1-12 | Entries that agree with the table never share a remote port, nor a server, local port and protocol |
| Tunnel.NoSharedRemotePorts | internal/tunnel/config.go:42-68 | No generated file asks for one remote port twice |
| Tunnel.OnlyTheServerCanBeWrong | internal/tunnel/config.go:43-58 | Entries that agree with the table never make generation fail; only a bad server address does |
| Tunnel.OverwriteAgreesIff | internal/tunnel/frp.go:50-63 | If a lookup fails although its row is there, saving over the row keeps index and table in agreement iff the index held nothing for it or the panel gave the same id |
| Tunnel.DeleteAgrees | internal/tunnel/frp.go:87-90 | Deleting a row with its entry keeps uniqueness and agreement |
| Tunnel.StaleExactlyWhen | internal/tunnel/frp.go:134-153 | Whatever its outcome, a rebuild leaves a child on another file than the one on disk in that one case only |
| Tunnel.StaleRunsExactly | internal/tunnel/frp.go:47-168 | After any run the child held is on another file than the one on disk iff some rebuild to a single mapping left it so and no stop or later rebuild has mended it |
| Tunnel.SameMappingsStayCurrent | internal/tunnel/frp.go:134-153 | A rebuild with an unchanged mapping set never makes a current child stale, one mapping included |
| Tunnel.TwoToOneLeavesAStaleChild | internal/tunnel/frp.go:149-150 | For every pair of valid mappings, releasing one leaves the child serving both |
| Tunnel.ProcessController.Start | internal/tunnel/process.go:31-48 | Nothing while a child is held, dead or not; otherwise a child on the given file, or none; without faults it succeeds |
| Tunnel.ProcessController.Reload | internal/tunnel/process.go:77-82 | Ends with a child on the given file, or with none |
| Tunnel.FrpManager.Rebuild | internal/tunnel/frp.go:134-153 | After success with a non-empty index a child is held; it has just been started on the file on disk if none was held or there are two or more mappings, and is the one that was held otherwise; with no mapping none is held; a start that fails leaves none, an earlier failure leaves file and child alone; without faults it succeeds iff the configuration is usable and every mapping good |
| Tunnel.FrpManager.RegisterPort | internal/tunnel/frp.go:47-71 | Index and table stay in agreement; a stored mapping is answered without allocation and without any change; otherwise nothing, or saved, indexed and rebuilt; after success the mapping is indexed iff no stored row answered or it was indexed before; a fresh registration that succeeds had a valid mapping and answer, is in table and index under it, and leaves a child held, just started on the file on disk unless it is the only mapping and one was held; without faults it succeeds iff the answer is valid and unused |
| Tunnel.AssignableMeans | internal/tunnel/allocator.go:38-62 | An answer can be used iff mapping and answer are valid and no other row has its id or remote port |
| Tunnel.FrpManager.ReleasePort | internal/tunnel/frp.go:73-94 | On success table and index are what they were without the rows of that server and port, and without their entries; a failure keeps what is left consistent; without faults it succeeds |
| Tunnel.FrpManager.ReleaseServer | internal/tunnel/frp.go:96-114 | The same for all rows of a server |
| Tunnel.FrpManager.RegisterTwice | internal/tunnel/frp.go:50-52 | Registering again gives the same assignment with no second allocation, also after a failed rebuild |
| Tunnel.FrpManager.AnyCall | internal/tunnel/frp.go:47-168 | Every call acts on file and child as one rebuild of the resulting index, a stop, or not at all |
| Tunnel.FrpManager.AnyRun | internal/tunnel/frp.go:47-168 | Over any run with any failures and child exits, every entry has its row under its id and remote port, no two share a remote port, and the child is stale exactly as StaleRunsExactly says |
| Tunnel.RegisterAfterRestart | internal/tunnel/frp.go:37-64 | With an empty index, a successful registration is indexed iff the table did not hold the mapping; if it did, it succeeds with the stored assignment and nothing is written or started |
| Plugins.OneOwner | internal/plugin/manifest.go:25 | Identifiers of the required form own disjoint sets of routes |
| Plugins.Registry.OthersKeepTheirRoutes | internal/plugin/proxy.go:34-43 | Removing the routes of some plugins costs no other plugin a route |
| Plugins.SharedRouteIff | internal/plugin/proxy.go:18-19 | Any two strings can own a common route iff one prefix begins the other |
| Plugins.SlashSharesRoutes | internal/plugin/proxy.go:34-43 | With a slash allowed, unregistering "a" would remove a route of "a/b" |
| Plugins.Proxy.Register | internal/plugin/proxy.go:17-32 | Succeeds iff the route begins with "/plugins/", the id and a slash, holds no "..", has a handler and is free; adds exactly it |
| Plugins.Proxy.Unregister | internal/plugin/proxy.go:34-43 | Removes exactly the routes under one plugin's prefix |
| Plugins.Registry.RollbackStarted | internal/plugin/registry.go:172-179 | Stops exactly the named plugins and removes exactly their routes; every other plugin keeps every route; naming one twice is harmless |
| Plugins.Registry.StartEach | internal/plugin/registry.go:139-167 | The start-up loop: what has started and which routes are new at its end, for success and for both failures; a plugin at which it fails was not startable |
| Plugins.Registry.StartedMeans | internal/plugin/registry.go:125-170 | After success, on the flags alone: a plugin runs iff it ran before or is not flagged off; the table has gained exactly the routes of the manifests of those not flagged off, with their handlers |
| Plugins.Registry.UndoneMeans | internal/plugin/registry.go:139-179 | After a failure the same plugins run, and a route is gone iff it has the prefix of a plugin that was rolled back: not flagged off and sorting before the failing one, or that one if its routes failed |
| Plugins.Registry.StartableMeans | internal/plugin/registry.go:139-164 | A plugin cannot fail to start if its process works and is not running, and its routes are listed once, have handlers and are free |
| Plugins.Registry.StartAll | internal/plugin/registry.go:125-170 | On failure the same plugins run as before; those rolled back are exactly the chosen ones sorting before the failing one, and it too if its routes failed; they have no route left, every other plugin keeps every route, and the table is as before iff those rolled back had none; on success all chosen plugins run and the new routes are exactly those of their manifests, with their handlers; start-up fails only at a plugin that is not startable |
| Plugins.Registry.StopAll | internal/plugin/registry.go:186-215 | Every plugin is stopped and exactly their routes are gone, whatever individual stops report |
| Plugins.Registry.StartThenStop | internal/plugin/registry.go:125-215 | Starting and stopping restores a table free of plugin routes, whether or not start-up succeeded |
| Plugins.Registry.DispatchEvent | internal/plugin/registry.go:243-275 | One delivery changes one plugin's counter and flag as specified, and is dropped for an absent or disabled plugin |
| Plugins.DisabledIff | internal/plugin/registry.go:258-269 | For every sequence of outcomes a plugin ends disabled iff three deliveries in a row failed, or its first failures filled up an inherited count |
| Plugins.Registry.DispatchEvents | internal/plugin/registry.go:243-275 | Any number of deliveries leaves the health those outcomes determine; with a clean count the plugin ends disabled iff three deliveries in a row failed |
| Template.ReplaceIsFill | internal/egg/template.go:5-11 | On text without "{" and brace-free placeholders, one textual replacement fills exactly the holes of its key |
| Template.OrderDoesNotMatter | internal/egg/template.go:5-11 | With brace-free keys and no "{" in text and values, every iteration order gives the simultaneous substitution, unknown placeholders left alone |
| Template.RenderStartup | internal/egg/template.go:5-11 | The result is that of some iteration order, and the simultaneous substitution when keys are brace-free and neither text nor values have a "{" |
| Template.BracesInValuesMakeOrderMatter | internal/egg/template.go:5-11 | Concrete map whose values hold braces and whose two orders differ |
| Backoff.ComputeBackoffExact | internal/agent/client.go:16-22 | For every attempt, wrapped shifts included, the wait is min(2^attempt, 30) seconds |
| Backoff.NextBackoff | internal/orchestrator/restart_policy.go:14-26 | The doubling loop in 64 bits; min(base*2^n, max) for non-negative base and max up to 2^62 |
| Backoff.ExactIffNeverOverflows | internal/orchestrator/restart_policy.go:14-26 | The result is min(base*2^n, max) for every n iff no doubling below max leaves 64 bits |
| Backoff.BackoffIsMonotone | internal/orchestrator/restart_policy.go:14-26 | Later attempts never wait less |
| Limits.PrintThenRead | internal/resource/enforcer.go:14-68 | For all prior contents, each positive limit reads back exactly (CPU iff millicores*100 fits 64 bits) and each other field as before, errors included |
| Limits.QuotaExactIff | internal/resource/enforcer.go:16 | The quota conversion is undone by reading iff it did not overflow |
| Limits.FormatThenParse | internal/resource/enforcer.go:14-68 | Decimal printing and 64-bit parsing are inverse over the whole range |
| Limits.PrintedDecimal | internal/resource/enforcer.go:16 | Numbers are written in decimal, the most significant digit first |
| Limits.AmountTextReads | internal/resource/enforcer.go:46-66 | A number reads back whatever white space surrounds it, and "max" reads as no limit |
| Limits.CpuTextReads | internal/resource/enforcer.go:36-45 | The quota reads back, divided by 100 towards zero, whatever follows it after white space |
| Limits.FieldsRules | internal/resource/enforcer.go:40 | The rules that make up splitting at white space: leading space is dropped, and a word that space or the end follows is the first field |
| Limits.SameFractionAsDocker | internal/runtime/docker/docker.go:74 | The two fields of cpu.max parse, and their quotient is the fraction of a CPU given as NanoCPUs over 10^9 |
| Limits.CgroupDir.ApplyLimits | internal/resource/enforcer.go:14-31 | After success with a positive limit in range cpu.max has exactly two fields, both numbers, with quota * 1000 == millicores * period; memory.max and pids.max parse as their limits; every other file is as it was; a failed write names its file and keeps exactly the ones before it; without faults it succeeds |
| Limits.CgroupDir.ReadLimits | internal/resource/enforcer.go:34-68 | The three readings, or the first error; a read that fails for reasons of its own is reported as such |
| Limits.CgroupDir.ApplyThenRead | internal/resource/enforcer.go:14-68 | Reading after applying yields the positive limits and the former values of the others |

## Left out

- gRPC, HTTP and SSH/SFTP transport, config loading, the command line, metrics, health and logging: plumbing over libraries, or settled by reading one branch.
- SQL text, time columns and foreign-key cascades: tables are maps under their key and uniqueness constraints.
- SHA-256, signatures, gzip and tar framing: the digest and the signature check are arbitrary functions given as parameters; framing is the identity; archive sizes, file modes, owners and times are not part of a tree.
- Tar names with a trailing slash turned into directories by the tar reader, and entry types the writer never emits other than as "unsupported".
- Races between the symbolic-link check and later use of a path, files changing during a backup, and links above the server root: outside the stated guarantees.
- The file manager's Read, Write, Delete, Rename, Copy and CreateDir: each is ResolvePath followed by one system call.
- The order in which a directory is listed or walked: any order is allowed, so results do not depend on it.
- HTTP download in Apply: its result is a parameter; chmod and close of temporary files are part of writing them; manifests are taken to be valid UTF-8.
- The backup, health and project callbacks of Apply: their outcome is arbitrary; the backup callback is taken to touch only the backup directory.
- Resource limits and crash-time columns in the lifecycle, and the created and deleted events.
- Timers: waits end or are cancelled at any time; `TunnelSelfHealer`, `FrpManager.Watch` and the child's request context are reduced to reloads and exits at any time.
- Mesh groups, RunHandoff, diagnosis and egg validation.
- TOML bytes: a file is its record of fields. Tunnel events are not recorded.
- The order of a server's rows by local port: any order is allowed.
- Tunnel.FrpManager.ReleasePort: it and ReleaseServer share one loop here, as their loops differ only in the port test.
- Plugin processes: a host is started, stopped and asked for its capabilities; handshake, sockets, health checks and a process exiting by itself are not modelled. LoadEnabled, the event bridge and the database flag of a disabled plugin are left out.
- EventBus.EventBus.Subscribe: channels are numbers into one table of buffers rather than objects, so a channel's identity is kept and its address is not.
- Limits.FormatThenParse: what the kernel makes of a written limit is not modelled, and white space is ASCII plus U+0085 and U+00A0.
- SelfHealing.SelfHealer.Handle: deleting a server while a handler is in flight is not modelled.
