/** Creating, restoring and deleting server backups. Every call into the file system or the store
    may fail; `history` records each state the directories have been in, so a crash is the
    program stopping at any of them. */
module BackupManager {
  import opened Text
  import opened Faults
  import opened Archive
  import opened Paths

  /** The directories a restore of one backup touches. They have different names next to each
      other: "data", ".restore-<id>" and ".previous-<id>". */
  datatype Place = Data(server: string) | Staging(server: string, backup: string)
    | Previous(server: string, backup: string)

  type Dirs = map<Place, Tree>

  type Digest = string

  datatype Status = Creating | Completed | Failed

  datatype Row = Row(server: string, file: string, status: Status, checksum: Digest)

  datatype RestoreError =
    | NoServer | StatusUnavailable | ServerRunning | NoBackup | NotCompleted
    | ArchiveUnreadable | ChecksumMismatch | BadRoot | NoStaging
    | Extraction(cause: ExtractError) | RenameAside | RenameIn

  datatype CreateError = NoServerID | StopUnsupported | CreateFault | ArchiveFailed(cause: ArchiveError)

  /** What a failed recursive removal leaves: the directory and any part of its contents. */
  ghost predicate Leftover(left: Tree, was: Tree) {
    && [] in left
    && forall p :: p in left ==> p in was && left[p] == was[p]
  }

  ghost predicate SameOutside(d: Dirs, base: Dirs, places: set<Place>) {
    forall q :: q !in places ==> (q in d <==> q in base) && (q in base ==> d[q] == base[q])
  }

  ghost predicate AllSameOutside(h: seq<Dirs>, from: nat, base: Dirs, places: set<Place>) {
    forall i :: from <= i < |h| ==> SameOutside(h[i], base, places)
  }

  /** The safety net: the root is whole, old or new, or else the old tree is whole beside it. */
  ghost predicate NothingLost(d: Dirs, root: Place, previous: Place, was: Tree, full: Option<Tree>) {
    if root in d then d[root] == was || full == Some(d[root])
    else previous in d && d[previous] == was
  }

  /** `s` can be what is in a directory some time after extraction of `es` into `s0` began. */
  ghost predicate Underway(s0: Tree, es: seq<Entry>, s: Tree) {
    forall t :: WellFormed(t) && ArchiveOf(es, t) && PieceOf(s0, t) ==> PieceOf(s, t)
  }

  /** The directories one restore works with; the tree the server had when it began; failing that, the
      tree a crashed restore had put aside; and the archive. */
  datatype Site = Site(root: Place, staging: Place, previous: Place, was: Option<Tree>, aside: Option<Tree>,
                       es: seq<Entry>)

  /** The old tree is under the safety net when the root is seen to exist; should the existence test
      fail spuriously, it still is as long as no ".previous-<id>" is lying around. */
  function SiteOf(server: string, targetServer: string, backup: string, d: Dirs, statFails: bool,
                  es: seq<Entry>): Site {
    var target := if targetServer == "" then server else targetServer;
    var root, previous := Data(target), Previous(target, backup);
    Site(root, Staging(target, backup), previous,
         if root in d && (statFails ==> previous !in d) then Some(d[root]) else None,
         if root !in d && previous in d then Some(d[previous]) else None, es)
  }

  /** A later extraction of the same archive can start from `s`, if it could when all began. */
  ghost predicate Resumable(base: Dirs, staging: Place, es: seq<Entry>, s: Tree) {
    forall t :: WellFormed(t) && ArchiveOf(es, t) && (staging in base ==> PieceOf(base[staging], t)) ==> PieceOf(s, t)
  }

  ghost predicate StagingResumable(d: Dirs, base: Dirs, staging: Place, es: seq<Entry>) {
    staging in d ==> Resumable(base, staging, es, d[staging])
  }

  ghost predicate AllResumable(h: seq<Dirs>, from: nat, base: Dirs, staging: Place, es: seq<Entry>) {
    forall i :: from <= i < |h| ==> StagingResumable(h[i], base, staging, es)
  }

  // ---------------------------------------------------------------- runs of one restore

  /** RemoveAll, whatever it reports. */
  ghost predicate Removes(d: Dirs, p: Place, e: Dirs) {
    SameOutside(e, d, {p}) && (p in e ==> p in d && Leftover(e[p], d[p]))
  }

  /** rename(2) on directories: atomic, and only onto nothing or an empty directory. */
  ghost predicate Renames(d: Dirs, src: Place, dst: Place, ok: bool, e: Dirs) {
    && (ok ==> src in d && (dst in d ==> d[dst].Keys == {[]}))
    && e == if ok then d[dst := d[src]] - {src} else d
  }

  /** The directories after each call of a restore, and what the renames answered: once staging is over
      (and the history `stagedAt` long), after the old ".previous" is removed, after the root is moved
      aside, after staging is moved in, and after the recovery rename or the removal that follow. */
  datatype Run = Run(staged: Dirs, stagedAt: nat, cleared: Dirs, asideOk: bool, aside: Dirs,
                     inOk: bool, moved: Dirs, backOk: bool, settled: Dirs)

  ghost predicate SwapFollows(site: Site, d: Dirs, run: Run, r: Result<(), RestoreError>, e: Dirs) {
    && Renames(d, site.staging, site.root, run.inOk, run.moved)
    && (if run.inOk then r == Ok(()) && Removes(run.moved, site.previous, run.settled)
        else r == Err(RenameIn) && Renames(run.moved, site.previous, site.root, run.backOk, run.settled))
    && Removes(run.settled, site.staging, e)
  }

  ghost predicate InstallFollows(site: Site, statFails: bool, d: Dirs, run: Run, r: Result<(), RestoreError>, e: Dirs) {
    && Removes(d, site.previous, run.cleared)
    && if site.root in run.cleared && !statFails then
         && Renames(run.cleared, site.root, site.previous, run.asideOk, run.aside)
         && if run.asideOk then SwapFollows(site, run.aside, run, r, e)
            else r == Err(RenameAside) && Removes(run.aside, site.staging, e)
       else SwapFollows(site, run.cleared, run, r, e)
  }

  /** `t` is what unpacking the whole archive into the staging directory makes, starting from an
      empty directory or from what a failed removal of an older staging directory left there. */
  ghost predicate Extracted(d0: Dirs, staging: Place, es: seq<Entry>, t: Tree) {
    || UnpackAll(EMPTY, es) == Ok(t)
    || (staging in d0 && exists left :: Leftover(left, d0[staging]) && UnpackAll(left, es) == Ok(t))
  }

  /** A restore that starts in `d` and ends in `e`; `full` is what extraction completed, if it did. */
  ghost predicate RestoreFollows(site: Site, statFails: bool, d: Dirs, full: Option<Tree>, run: Run,
                                 r: Result<(), RestoreError>, e: Dirs) {
    && SameOutside(run.staged, d, {site.staging})
    && if full.None? then r.Err? && e == run.staged
       else && Extracted(d, site.staging, site.es, full.value)
            && site.staging in run.staged && run.staged[site.staging] == full.value
            && InstallFollows(site, statFails, run.staged, run, r, e)
  }

  predicate Apart(site: Site) {
    site.root != site.staging && site.root != site.previous && site.staging != site.previous
  }

  predicate Holds(d: Dirs, p: Place, t: Tree) { p in d && d[p] == t }

  ghost predicate StagedOnly(h: seq<Dirs>, from: nat, to: nat, base: Dirs, staging: Place) {
    from <= to <= |h| && forall i :: from <= i < to ==> SameOutside(h[i], base, {staging})
  }

  /** Nothing outside the site is touched; the old tree, if there was one, is not lost; and the
      staging directory never holds anything a retry would have to fear. */
  ghost predicate Fine(d: Dirs, base: Dirs, site: Site, full: Option<Tree>) {
    && SameOutside(d, base, {site.root, site.staging, site.previous})
    && (site.was.Some? ==> NothingLost(d, site.root, site.previous, site.was.value, full))
    && StagingResumable(d, base, site.staging, site.es)
  }

  ghost predicate AllFine(h: seq<Dirs>, from: nat, base: Dirs, site: Site, full: Option<Tree>) {
    forall i :: from <= i < |h| ==> Fine(h[i], base, site, full)
  }

  /** Everything a restore of `site` from `d0`, with history `h0`, promises of where it ends: all states
      on the way were fine; success installed what was extracted; a failure left the old root, unless
      the installing and the recovering rename both failed; and the run follows the program. While
      extraction had not completed, nothing but staging changed. */
  ghost predicate Concluded(site: Site, statFails: bool, d0: Dirs, h0: seq<Dirs>, r: Result<(), RestoreError>,
                            full: Option<Tree>, run: Run, d: Dirs, h: seq<Dirs>) {
    && h0 <= h && AllFine(h, |h0|, d0, site, full) && Fine(d, d0, site, full)
    && (r.Ok? ==> full.Some? && Holds(d, site.root, full.value))
    && (r.Err? && site.was.Some? ==> Holds(d, site.root, site.was.value) || (r == Err(RenameIn) && site.root !in d))
    && RestoreFollows(site, statFails, d0, full, run, r, d)
    && StagedOnly(h, |h0|, run.stagedAt, d0, site.staging) && (full.None? ==> run.stagedAt == |h|)
  }

  /** Begun without a root and with the old tree put aside, a restore whose extraction completes can
      lose the tree altogether: ".previous" is removed before the new tree is installed, the rename
      that installs it fails, and staging is removed too. */
  lemma OldTreeCanBeLost(site: Site, statFails: bool, d: Dirs, x: Tree) returns (run: Run, e: Dirs)
    requires Apart(site) && site.root !in d && site.previous in d && Extracted(d, site.staging, site.es, x)
    ensures RestoreFollows(site, statFails, d, Some(x), run, Err(RenameIn), e)
    ensures site.root !in e && site.previous !in e && site.staging !in e
  {
    var staged := d[site.staging := x];
    var cleared := staged - {site.previous};
    e := cleared - {site.staging};
    run := Run(staged, 0, cleared, false, cleared, false, cleared, false, cleared);
    assert Removes(staged, site.previous, cleared) && Removes(cleared, site.staging, e);
    assert SwapFollows(site, cleared, run, Err(RenameIn), e);
  }

  /** The exact condition: every failing restore begun without a root keeps the tree that had been put
      aside if and only if extraction of the archive cannot complete. */
  lemma RootlessFailuresKeepIff(site: Site, statFails: bool, d: Dirs)
    requires Apart(site) && site.root !in d && site.previous in d
    ensures (forall full, run, r, e :: RestoreFollows(site, statFails, d, full, run, r, e) && r.Err? ==>
               Holds(e, site.previous, d[site.previous]) || Holds(e, site.root, d[site.previous]))
       <==> forall x :: !Extracted(d, site.staging, site.es, x)
  {
    if x :| Extracted(d, site.staging, site.es, x) {
      var run, e := OldTreeCanBeLost(site, statFails, d, x);
      assert !Holds(e, site.previous, d[site.previous]) && !Holds(e, site.root, d[site.previous]);
    }
  }

  // ---------------------------------------------------------------- what every state keeps

  lemma ResumableLess(base: Dirs, staging: Place, es: seq<Entry>, s: Tree, left: Tree)
    requires Resumable(base, staging, es, s) && Leftover(left, s)
    ensures Resumable(base, staging, es, left)
  {
  }

  lemma ResumableFromStart(base: Dirs, staging: Place, es: seq<Entry>)
    ensures Resumable(base, staging, es, EMPTY)
    ensures staging in base ==> Resumable(base, staging, es, base[staging])
  {
  }

  lemma ResumableUnderway(base: Dirs, staging: Place, es: seq<Entry>, s0: Tree, s: Tree)
    requires Resumable(base, staging, es, s0) && Underway(s0, es, s)
    ensures Resumable(base, staging, es, s)
  {
  }

  lemma AllFineSnoc(h: seq<Dirs>, from: nat, d: Dirs, base: Dirs, site: Site, full: Option<Tree>)
    requires AllFine(h, from, base, site, full) && Fine(d, base, site, full)
    ensures AllFine(h + [d], from, base, site, full)
  {
  }

  /** While staging is filled: nothing else changes, and a retry can use what is there. */
  ghost predicate StagingState(d: Dirs, base: Dirs, staging: Place, es: seq<Entry>) {
    SameOutside(d, base, {staging}) && StagingResumable(d, base, staging, es)
  }

  ghost predicate StagingStates(h: seq<Dirs>, from: nat, base: Dirs, staging: Place, es: seq<Entry>) {
    from <= |h| && forall i :: from <= i < |h| ==> StagingState(h[i], base, staging, es)
  }

  lemma StagingSnoc(h: seq<Dirs>, from: nat, d: Dirs, base: Dirs, staging: Place, es: seq<Entry>)
    requires StagingStates(h, from, base, staging, es) && StagingState(d, base, staging, es)
    ensures StagingStates(h + [d], from, base, staging, es)
  {
  }

  lemma StagingStart(d: Dirs, staging: Place, es: seq<Entry>)
    ensures StagingState(d, d, staging, es)
  {
    ResumableFromStart(d, staging, es);
  }

  /** A removal, complete or not. */
  lemma StagingRemoved(d: Dirs, e: Dirs, base: Dirs, staging: Place, es: seq<Entry>)
    requires StagingState(d, base, staging, es) && Removes(d, staging, e)
    ensures StagingState(e, base, staging, es)
  {
    if staging in e { ResumableLess(base, staging, es, d[staging], e[staging]); }
  }

  lemma StagingMade(d: Dirs, base: Dirs, staging: Place, es: seq<Entry>)
    requires StagingState(d, base, staging, es)
    ensures StagingState(d[staging := EMPTY], base, staging, es)
  {
    ResumableFromStart(base, staging, es);
  }

  /** States that an extraction into staging has passed through. */
  lemma StagingFilled(h: seq<Dirs>, at: nat, d: Dirs, h': seq<Dirs>, from: nat, base: Dirs, staging: Place,
                      es: seq<Entry>)
    requires StagingStates(h, from, base, staging, es) && StagingState(d, base, staging, es) && staging in d
    requires h <= h' && at == |h|
    requires forall i :: at <= i < |h'| ==>
               SameOutside(h'[i], d, {staging}) && staging in h'[i] && Underway(d[staging], es, h'[i][staging])
    ensures StagingStates(h', from, base, staging, es)
  {
    hide Resumable, Underway;
    forall i | from <= i < |h'| ensures StagingState(h'[i], base, staging, es) {
      if i < at {
        assert h'[i] == h[i];
      } else {
        ResumableUnderway(base, staging, es, d[staging], h'[i][staging]);
      }
    }
  }

  lemma StagingUnderway(d: Dirs, e: Dirs, base: Dirs, staging: Place, es: seq<Entry>)
    requires StagingState(d, base, staging, es) && staging in d
    requires SameOutside(e, d, {staging}) && staging in e && Underway(d[staging], es, e[staging])
    ensures StagingState(e, base, staging, es)
  {
    hide Resumable, Underway;
    ResumableUnderway(base, staging, es, d[staging], e[staging]);
  }

  /** While only the staging directory changes, all is fine. */
  lemma StagingIsFine(h: seq<Dirs>, from: nat, d: Dirs, base: Dirs, site: Site, full: Option<Tree>)
    requires StagingStates(h, from, base, site.staging, site.es) && StagingState(d, base, site.staging, site.es)
    requires site.staging != site.root && (site.was.Some? ==> site.root in base && base[site.root] == site.was.value)
    ensures AllFine(h, from, base, site, full) && Fine(d, base, site, full)
    ensures StagedOnly(h, from, |h|, base, site.staging)
  {
    hide Resumable;
    forall i | from <= i < |h| ensures Fine(h[i], base, site, full) && SameOutside(h[i], base, {site.staging}) {
      assert StagingState(h[i], base, site.staging, site.es);
    }
  }

  lemma StagedOnlyStays(h: seq<Dirs>, h': seq<Dirs>, from: nat, base: Dirs, staging: Place)
    requires h <= h' && StagedOnly(h, from, |h|, base, staging)
    ensures StagedOnly(h', from, |h|, base, staging)
  {
    forall i | from <= i < |h| ensures SameOutside(h'[i], base, {staging}) {
      assert h'[i] == h[i];
    }
  }

  // ---------------------------------------------------------------- what the renames keep

  lemma MoveAsideIsFine(d: Dirs, base: Dirs, site: Site, full: Option<Tree>)
    requires Apart(site) && Fine(d, base, site, full) && site.root in d
    requires site.was.Some? ==> d[site.root] == site.was.value
    ensures Fine(d[site.previous := d[site.root]] - {site.root}, base, site, full)
  {
    hide Resumable;
  }

  lemma MoveInIsFine(d: Dirs, base: Dirs, site: Site)
    requires Apart(site) && site.staging in d && Fine(d, base, site, Some(d[site.staging]))
    ensures Fine(d[site.root := d[site.staging]] - {site.staging}, base, site, Some(d[site.staging]))
  {
    hide Resumable;
  }

  lemma MoveBackIsFine(d: Dirs, base: Dirs, site: Site, full: Option<Tree>)
    requires Apart(site) && Fine(d, base, site, full) && site.previous in d
    requires site.was.Some? ==> site.root !in d
    ensures Fine(d[site.root := d[site.previous]] - {site.previous}, base, site, full)
  {
    hide Resumable;
  }

  lemma RemovalIsFine(d: Dirs, e: Dirs, p: Place, base: Dirs, site: Site, full: Option<Tree>)
    requires Apart(site) && Fine(d, base, site, full) && Removes(d, p, e)
    requires p == site.staging || (p == site.previous && (site.was.Some? ==> site.root in d))
    ensures Fine(e, base, site, full)
  {
    if p == site.staging && p in e { ResumableLess(base, p, site.es, d[p], e[p]); }
    hide Resumable;
  }

  /** How the second half of an installation can end. */
  lemma SwapMeans(site: Site, d: Dirs, run: Run, r: Result<(), RestoreError>, e: Dirs)
    requires Apart(site) && site.staging in d && SwapFollows(site, d, run, r, e)
    ensures r.Ok? ==> Holds(e, site.root, d[site.staging])
    ensures r.Err? ==> r == Err(RenameIn)
    ensures r.Err? && site.root in e ==>
              Holds(d, site.root, e[site.root]) || (site.root !in d && Holds(d, site.previous, e[site.root]))
              || (Holds(d, site.previous, e[site.root]) && d[site.root].Keys == {[]})
  {
    hide Leftover;
  }

  /** ... and the whole installation, if the root was under the safety net. */
  lemma InstallMeans(site: Site, statFails: bool, d: Dirs, run: Run, r: Result<(), RestoreError>, e: Dirs)
    requires Apart(site) && site.staging in d && InstallFollows(site, statFails, d, run, r, e)
    requires site.was == if site.root in d && (statFails ==> site.previous !in d) then Some(d[site.root]) else None
    ensures r.Ok? ==> Holds(e, site.root, d[site.staging])
    ensures r.Err? && site.was.Some? ==> Holds(e, site.root, site.was.value) || (r == Err(RenameIn) && site.root !in e)
  {
    var aside := site.root in run.cleared && !statFails;
    if !aside || run.asideOk {
      SwapMeans(site, if aside then run.aside else run.cleared, run, r, e);
    }
    hide SwapFollows, Leftover;
  }

  /** A restore that is refused. */
  lemma RefusedConcludes(site: Site, statFails: bool, d: Dirs, h: seq<Dirs>, e: RestoreError, run: Run)
    requires site.was.Some? ==> Holds(d, site.root, site.was.value)
    requires run.staged == d && run.stagedAt == |h|
    ensures Concluded(site, statFails, d, h, Err(e), None, run, d, h)
  {
    StagingStart(d, site.staging, site.es);
  }

  /** What follows for a tree put aside by a crashed restore: whole until extraction has completed. */
  lemma AsideIsKept(site: Site, statFails: bool, d0: Dirs, h0: seq<Dirs>, r: Result<(), RestoreError>,
                    full: Option<Tree>, run: Run, d: Dirs, h: seq<Dirs>)
    requires Apart(site) && Concluded(site, statFails, d0, h0, r, full, run, d, h)
    requires site.aside.Some? ==> site.root !in d0 && Holds(d0, site.previous, site.aside.value)
    ensures full.Some? ==> Extracted(d0, site.staging, site.es, full.value)
    ensures r.Ok? ==> full.Some? && site.root in d && d[site.root] == full.value
    ensures site.aside.Some? ==>
      && run.stagedAt <= |h|
      && (forall i :: |h0| <= i < run.stagedAt ==> Holds(h[i], site.previous, site.aside.value))
      && (full.None? ==> site.root !in d && Holds(d, site.previous, site.aside.value))
  {
    hide AllFine, Fine, Extracted, InstallFollows;
  }

  /** Every other directory is as it was, at the end and at every moment on the way. */
  lemma OtherPlacesStay(site: Site, statFails: bool, d0: Dirs, h0: seq<Dirs>, r: Result<(), RestoreError>,
                        full: Option<Tree>, run: Run, d: Dirs, h: seq<Dirs>)
    requires Concluded(site, statFails, d0, h0, r, full, run, d, h)
    ensures forall i, q :: |h0| <= i <= |h| && q != site.root && q != site.staging && q != site.previous ==>
              var e := if i < |h| then h[i] else d;
              (q in e <==> q in d0) && (q in e ==> e[q] == d0[q])
  {
    hide RestoreFollows, StagedOnly, StagingResumable, NothingLost;
    forall i | |h0| <= i <= |h| ensures Fine(if i < |h| then h[i] else d, d0, site, full) {
    }
  }

  /** What follows for the tree of a server that has one. */
  lemma LiveTreeIsKept(site: Site, statFails: bool, d0: Dirs, h0: seq<Dirs>, r: Result<(), RestoreError>,
                       full: Option<Tree>, run: Run, d: Dirs, h: seq<Dirs>)
    requires Concluded(site, statFails, d0, h0, r, full, run, d, h) && site.was.Some?
    ensures forall i :: |h0| <= i < |h| ==> var e := h[i];
              if site.root in e then e[site.root] == site.was.value || (full.Some? && e[site.root] == full.value)
              else site.previous in e && e[site.previous] == site.was.value
    ensures r.Err? ==> Holds(d, site.root, site.was.value) || (r == Err(RenameIn) && site.root !in d)
  {
    hide RestoreFollows, StagedOnly, SameOutside, StagingResumable;
    assert forall i :: |h0| <= i < |h| ==> Fine(h[i], d0, site, full);
  }

  /** Root or the tree put aside is one of `ts`. */
  ghost predicate Survives(d: Dirs, site: Site, ts: set<Tree>) {
    (site.root in d && d[site.root] in ts) || (site.root !in d && site.previous in d && d[site.previous] in ts)
  }

  ghost predicate Retriable(d: Dirs, site: Site, t: Tree) {
    site.staging in d ==> PieceOf(d[site.staging], t)
  }

  ghost predicate Recoverable(d: Dirs, site: Site, t: Tree) {
    Retriable(d, site, t) && (site.was.Some? ==> Survives(d, site, {site.was.value, t}))
  }

  lemma FineIsRecoverable(d: Dirs, base: Dirs, site: Site, full: Option<Tree>, t: Tree)
    requires Fine(d, base, site, full) && (full.Some? ==> full.value == t)
    requires WellFormed(t) && ArchiveOf(site.es, t) && Retriable(base, site, t)
    ensures Recoverable(d, site, t)
  {
  }

  lemma UnderwayAtStart(s0: Tree, es: seq<Entry>)
    ensures Underway(s0, es, s0)
  {
  }

  /** An extraction of `es` into `place`, begun when the directories were `base`, the place held `start`
      and the history was `from` long. */
  datatype Log = Log(place: Place, es: seq<Entry>, base: Dirs, from: nat, start: Tree)

  ghost predicate LoggedState(d: Dirs, log: Log) {
    SameOutside(d, log.base, {log.place}) && log.place in d && Underway(log.start, log.es, d[log.place])
  }

  ghost predicate Logged(h: seq<Dirs>, log: Log) {
    forall i :: log.from <= i < |h| ==> LoggedState(h[i], log)
  }

  lemma LoggedMore(h: seq<Dirs>, d: Dirs, log: Log)
    requires log.from <= |h| && Logged(h, log) && LoggedState(d, log)
    ensures Logged(h + [d], log)
  {
  }

  /** Every tree that `es` archives has a directory at `path`. */
  ghost predicate IsDirOf(es: seq<Entry>, path: seq<string>) {
    forall t :: WellFormed(t) && ArchiveOf(es, t) ==> path in t && t[path] == Dir
  }

  lemma ParentIsDir(es: seq<Entry>, path: seq<string>)
    requires IsDirOf(es, path) && path != []
    ensures IsDirOf(es, Parent(path))
  {
  }

  lemma DirUnderway(s0: Tree, es: seq<Entry>, s: Tree, path: seq<string>)
    requires IsDirOf(es, path) && Underway(s0, es, s)
    ensures Underway(s0, es, s[path := Dir])
  {
  }

  /** The directories an entry needs are directories of the archived tree. */
  lemma EntryDirs(es: seq<Entry>, i: nat)
    requires i < |es| && CleanName(es[i].name).Ok?
    ensures var path := Split(CleanName(es[i].name).value);
            path != [] && (es[i].kind == Directory ==> IsDirOf(es, path)) &&
              (es[i].kind == Regular ==> IsDirOf(es, Parent(path)))
  {
    var path := Split(CleanName(es[i].name).value);
    forall t | WellFormed(t) && ArchiveOf(es, t)
      ensures path in t && (es[i].kind == Directory ==> t[path] == Dir) &&
        (es[i].kind == Regular ==> Parent(path) in t && t[Parent(path)] == Dir)
    {
      assert Describes(es[i], t);
      EmittedNameIsClean(PathOf(es[i]));
      assert es[i] == Header(path, t[path]);
    }
  }

  /** With its directories made, writing a file is unpacking its entry. */
  lemma WrittenIsUnpacked(s: Tree, e: Entry, made: Tree, cut: nat)
    requires e.kind == Regular && CleanName(e.name).Ok? && cut <= |e.body|
    requires var path := Split(CleanName(e.name).value);
             MkdirAll(s, Parent(path)) == Ok(made) && !(path in made && !made[path].File?)
    ensures Unpack(s, e.(body := e.body[..cut])) == Ok(made[Split(CleanName(e.name).value) := File(e.body[..cut])])
  {
  }

  lemma UnpackAllStep(s: Tree, es: seq<Entry>, i: nat)
    requires i < |es|
    ensures UnpackAll(s, es[i..]) ==
            if Unpack(s, es[i]).Err? then Unpack(s, es[i]) else UnpackAll(Unpack(s, es[i]).value, es[i + 1..])
  {
    assert es[i..][1..] == es[i + 1..];
  }

  lemma UnpackAllDone(s: Tree, es: seq<Entry>)
    ensures UnpackAll(s, es[|es|..]) == Ok(s)
  {
  }

  lemma ExtractedIsTree(d0: Dirs, staging: Place, es: seq<Entry>, x: Tree, t: Tree)
    requires Extracted(d0, staging, es, x)
    requires WellFormed(t) && ArchiveOf(es, t) && (staging in d0 ==> PieceOf(d0[staging], t))
    ensures x == t
  {
    RoundTrip(EMPTY, t, es);
    if UnpackAll(EMPTY, es) != Ok(x) {
      var left :| Leftover(left, d0[staging]) && UnpackAll(left, es) == Ok(x);
      RoundTrip(left, t, es);
    }
  }

  lemma CutShort(s0: Tree, es: seq<Entry>, i: nat, s: Tree, cut: nat)
    requires i < |es| && cut <= |es[i].body| && Underway(s0, es, s)
    ensures var r := Unpack(s, es[i].(body := es[i].body[..cut])); r.Ok? ==> Underway(s0, es, r.value)
  {
    var e := es[i].(body := es[i].body[..cut]);
    if Unpack(s, e).Ok? {
      forall t | WellFormed(t) && ArchiveOf(es, t) && PieceOf(s0, t) ensures PieceOf(Unpack(s, e).value, t) {
        assert Describes(es[i], t);
        CutEntryInPiece(s, t, PathOf(es[i]), cut);
      }
    }
  }

  /** The file of entry `i`, written up to `cut`: a state on the way, and at the end the entry's effect. */
  lemma FileIsUnderway(log: Log, i: nat, s: Tree, made: Tree, path: seq<string>, cut: nat)
    requires i < |log.es| && cut <= |log.es[i].body| && Underway(log.start, log.es, s)
    requires log.es[i].kind == Regular && CleanName(log.es[i].name).Ok?
    requires path == Split(CleanName(log.es[i].name).value)
    requires MkdirAll(s, Parent(path)) == Ok(made) && !(path in made && !made[path].File?)
    ensures Underway(log.start, log.es, made[path := File(log.es[i].body[..cut])])
    ensures cut == |log.es[i].body| ==> Unpack(s, log.es[i]) == Ok(made[path := File(log.es[i].body[..cut])])
  {
    var e := log.es[i];
    CutShort(log.start, log.es, i, s, cut);
    WrittenIsUnpacked(s, e, made, cut);
    assert cut == |e.body| ==> e.(body := e.body[..cut]) == e;
    hide Unpack, Underway, MkdirAll;
  }

  lemma PutAgain(t: Tree, path: seq<string>, a: Item, b: Item)
    ensures t[path := a][path := b] == t[path := b]
  {
  }

  function FileOf(server: string, id: string): string { server + "/" + id + ".tar.gz" }

  function TmpOf(server: string, id: string): string { FileOf(server, id) + ".tmp" }

  /** Nothing but the two files of one backup has changed. */
  lemma FilesElsewhere<V>(f0: map<string, V>, f1: map<string, V>, archive: string, tmp: string)
    requires f1 - {tmp} == f0 - {tmp}
    ensures var own := {archive, tmp};
            && f1 - own == f0 - own
            && (f1 - {tmp}) - own == f0 - own
            && (tmp in f1 ==> (f1[archive := f1[tmp]] - {tmp}) - own == f0 - own)
  {
    var own := {archive, tmp};
    assert f1 - own == (f1 - {tmp}) - own;
    assert f0 - own == (f0 - {tmp}) - own;
    if tmp in f1 {
      assert (f1[archive := f1[tmp]] - {tmp}) - own == f1 - own;
    }
  }

  lemma CoversIsArchive(es: seq<Entry>, t: Tree)
    requires Covers(es, t, t.Keys - {[]})
    ensures ArchiveOf(es, t)
  {
  }

  /** An archive of the whole tree is made unless something in it cannot be archived. */
  lemma ArchivedOrNot(r: Result<(), ArchiveError>, es: seq<Entry>, t: Tree)
    requires WellFormed(t)
    requires r.Ok? ==> ArchiveOf(es, t)
    requires r.Err? ==> Justified(r.error, t, Under(t, [])) && !r.error.WalkFault?
    ensures r.Ok? <==> forall p :: p in t ==> Archivable(t[p])
  {
    if r.Ok? {
      forall p | p in t && p != [] ensures Archivable(t[p]) {
        assert p in t.Keys - {[]};
        var i :| 0 <= i < |es| && PathOf(es[i]) == p;
        assert Describes(es[i], t);
      }
    } else {
      assert Under(t, []) == t.Keys;
    }
  }

  class Host {
    const digest: seq<Entry> -> Digest

    /** Whether calls into file system and store fail only for the reasons the state gives. */
    const reliable: bool
    var dirs: Dirs
    var files: map<string, seq<Entry>>
    var rows: map<string, Row>
    var history: seq<Dirs>

    constructor (digest: seq<Entry> -> Digest, reliable: bool)
      ensures this.digest == digest && this.reliable == reliable
      ensures dirs == map[] && files == map[] && rows == map[] && history == []
    {
      this.digest, this.reliable := digest, reliable;
      dirs, files, rows, history := map[], map[], map[], [];
    }

    // -------------------------------------------------------------- file system calls

    method Record()
      modifies `history
      ensures history == old(history) + [dirs]
    {
      history := history + [dirs];
    }

    method RemoveAll(p: Place) returns (ok: bool)
      modifies `dirs, `history
      ensures history == old(history) + [dirs]
      ensures Removes(old(dirs), p, dirs) && (ok ==> p !in dirs) && (reliable ==> ok)
    {
      var fault := Fault(reliable);
      ok := !fault;
      var kept: set<seq<string>> := *;
      if ok || p !in dirs {
        dirs, ok := dirs - {p}, true;
      } else if [] in dirs[p] {
        dirs := dirs[p := map q | q in dirs[p] && (q == [] || q in kept) :: dirs[p][q]];
      } else {
        dirs := dirs - {p};
      }
      Record();
    }

    method Mkdir(p: Place) returns (ok: bool)
      modifies `dirs, `history
      ensures history == old(history) + [dirs]
      ensures dirs == if ok && p !in old(dirs) then old(dirs)[p := EMPTY] else old(dirs)
      ensures reliable ==> ok
    {
      var fault := Fault(reliable);
      ok := !fault;
      if ok && p !in dirs {
        dirs := dirs[p := EMPTY];
      }
      Record();
    }

    method Rename(src: Place, dst: Place) returns (ok: bool)
      requires src != dst
      modifies `dirs, `history
      ensures history == old(history) + [dirs]
      ensures Renames(old(dirs), src, dst, ok, dirs)
      ensures reliable && src in old(dirs) && (dst in old(dirs) ==> old(dirs)[dst].Keys == {[]}) ==> ok
    {
      var fault := Fault(reliable);
      ok := !fault;
      if src !in dirs || (dst in dirs && dirs[dst].Keys != {[]}) {
        ok := false;
      }
      if ok {
        dirs := dirs[dst := dirs[src]] - {src};
      }
      Record();
    }

    // -------------------------------------------------------------- extraction

    /** The extraction since `log` began has only touched its place, and at every state on the way left
        there what a retry can complete. */
    ghost predicate Logging(log: Log)
      reads `dirs, `history
    {
      log.place in dirs && LoggedState(dirs, log) && log.from <= |history| && Logged(history, log)
    }

    /** Puts one item into a directory being extracted into. */
    method PutItem(p: Place, path: seq<string>, item: Item, ghost log: Log)
      requires Logging(log) && p == log.place && Underway(log.start, log.es, dirs[p][path := item])
      modifies `dirs, `history
      ensures Logging(log) && old(history) <= history
      ensures dirs == old(dirs)[p := old(dirs)[p][path := item]]
    {
      ghost var h := history;
      dirs := dirs[p := dirs[p][path := item]];
      Record();
      LoggedMore(h, dirs, log);
    }

    /** os.MkdirAll: the parents first, one directory at a time. */
    method MakeAll(p: Place, path: seq<string>, ghost log: Log) returns (r: Result<(), ExtractError>)
      requires Logging(log) && p == log.place && IsDirOf(log.es, path)
      modifies `dirs, `history
      ensures Logging(log) && old(history) <= history
      ensures r.Ok? ==> MkdirAll(old(dirs)[p], path) == Ok(dirs[p])
      ensures r.Err? && r.error != IoFault ==> MkdirAll(old(dirs)[p], path) == Err(r.error)
      ensures reliable ==> r != Err(IoFault)
      decreases |path|
    {
      if path in dirs[p] {
        return if dirs[p][path] == Dir then Ok(()) else Err(NotADirectory);
      }
      if path != [] {
        ParentIsDir(log.es, path);
        r := MakeAll(p, Parent(path), log);
        if r.Err? {
          return;
        }
      }
      var fault := Fault(reliable);
      if fault {
        return Err(IoFault);
      }
      DirUnderway(log.start, log.es, dirs[p], path);
      PutItem(p, path, Dir, log);
      r := Ok(());
    }

    /** The file appears empty and is written piece by piece; a write may stop at any of them. */
    method WriteFile(p: Place, i: nat, path: seq<string>, ghost s: Tree, ghost log: Log, es: seq<Entry>)
      returns (r: Result<(), ExtractError>)
      requires Logging(log) && p == log.place && es == log.es && i < |es| && Underway(log.start, log.es, s)
      requires es[i].kind == Regular && CleanName(es[i].name).Ok? && path == Split(CleanName(es[i].name).value)
      requires MkdirAll(s, Parent(path)) == Ok(dirs[p]) && !(path in dirs[p] && !dirs[p][path].File?)
      modifies `dirs, `history
      ensures Logging(log) && old(history) <= history
      ensures r.Ok? ==> Unpack(s, es[i]) == Ok(dirs[p])
      ensures r.Err? ==> r.error == IoFault && !reliable
    {
      ghost var made := dirs[p];
      var body, cut: nat := es[i].body, *;
      cut := if cut < |body| then cut else |body|;
      FileIsUnderway(log, i, s, made, path, 0);
      FileIsUnderway(log, i, s, made, path, cut);
      FileIsUnderway(log, i, s, made, path, |body|);
      hide Unpack, Underway, MkdirAll;
      var fault := Fault(reliable);
      if fault {
        return Err(IoFault);
      }
      PutItem(p, path, File(body[..0]), log);
      PutAgain(made, path, File(body[..0]), File(body[..cut]));
      PutItem(p, path, File(body[..cut]), log);
      PutAgain(made, path, File(body[..cut]), File(body[..|body|]));
      fault := Fault(reliable);
      if fault {
        return Err(IoFault);
      }
      PutItem(p, path, File(body[..|body|]), log);
      fault := Fault(reliable);
      r := if fault then Err(IoFault) else Ok(());
    }

    method UnpackFile(p: Place, i: nat, path: seq<string>, ghost log: Log, es: seq<Entry>)
      returns (r: Result<(), ExtractError>)
      requires Logging(log) && p == log.place && es == log.es && i < |es|
      requires es[i].kind == Regular && CleanName(es[i].name).Ok? && path == Split(CleanName(es[i].name).value)
      modifies `dirs, `history
      ensures Logging(log) && old(history) <= history
      ensures r.Ok? ==> Unpack(old(dirs)[p], es[i]) == Ok(dirs[p])
      ensures r.Err? && r.error != IoFault ==> Unpack(old(dirs)[p], es[i]) == Err(r.error)
      ensures reliable ==> r != Err(IoFault)
    {
      ghost var s := dirs[p];
      EntryDirs(es, i);
      hide Underway, Split, MkdirAll;
      r := MakeAll(p, Parent(path), log);
      if r.Err? {
        return;
      }
      if path in dirs[p] && !dirs[p][path].File? {
        return Err(NotAFile);
      }
      r := WriteFile(p, i, path, s, log, es);
    }

    /** One entry: its directories, then the file, which appears empty and is written piece by piece. */
    method UnpackEntry(p: Place, i: nat, ghost log: Log, es: seq<Entry>) returns (r: Result<(), ExtractError>)
      requires Logging(log) && p == log.place && es == log.es && i < |es|
      modifies `dirs, `history
      ensures Logging(log) && old(history) <= history
      ensures r.Ok? ==> Unpack(old(dirs)[p], es[i]) == Ok(dirs[p])
      ensures r.Err? && r.error != IoFault ==> Unpack(old(dirs)[p], es[i]) == Err(r.error)
      ensures reliable ==> r != Err(IoFault)
    {
      var e := es[i];
      var name := CleanName(e.name);
      if name.Err? {
        return Err(name.error);
      }
      var path := Split(name.value);
      match e.kind {
        case LinkEntry => r := Err(LinkRejected);
        case OtherEntry => r := Err(Unsupported);
        case Directory =>
          EntryDirs(es, i);
          r := MakeAll(p, path, log);
        case Regular =>
          r := UnpackFile(p, i, path, log, es);
      }
    }

    /** The entry loop. */
    method ExtractArchive(p: Place, es: seq<Entry>) returns (r: Result<(), ExtractError>)
      requires p in dirs
      modifies `dirs, `history
      ensures p in dirs && SameOutside(dirs, old(dirs), {p})
      ensures |old(history)| <= |history| && old(history) == history[..|old(history)|]
      ensures AllSameOutside(history, |old(history)|, old(dirs), {p})
      ensures r.Ok? ==> UnpackAll(old(dirs)[p], es) == Ok(dirs[p])
      ensures r.Err? && r.error != IoFault ==> UnpackAll(old(dirs)[p], es) == Err(r.error)
      ensures reliable ==> r != Err(IoFault)
      ensures Underway(old(dirs)[p], es, dirs[p])
      ensures forall i :: |old(history)| <= i < |history| ==>
        p in history[i] && Underway(old(dirs)[p], es, history[i][p])
    {
      hide Unpack, UnpackAll, Underway;
      ghost var log := Log(p, es, dirs, |history|, dirs[p]);
      ghost var h0 := history;
      assert es[0..] == es;
      UnderwayAtStart(dirs[p], es);
      for i := 0 to |es|
        invariant Logging(log) && h0 <= history
        invariant UnpackAll(log.start, es) == UnpackAll(dirs[p], es[i..])
      {
        var fault := Fault(reliable);
        if fault {
          return Err(IoFault);
        }
        UnpackAllStep(dirs[p], es, i);
        r := UnpackEntry(p, i, log, es);
        if r.Err? {
          return;
        }
      }
      UnpackAllDone(dirs[p], es);
      var unread := Fault(reliable);
      r := if unread then Err(IoFault) else Ok(());
    }

    // -------------------------------------------------------------- restore

    function ArchiveFile(backup: string): seq<Entry>
      reads this
    {
      if backup in rows && rows[backup].file in files then files[rows[backup].file] else []
    }

    /** The staging directory is removed, as far as that goes, and made. */
    method Clear(staging: Place, es: seq<Entry>, ghost from: nat, ghost base: Dirs) returns (ok: bool)
      requires base == dirs && from == |history|
      modifies `dirs, `history
      ensures old(history) <= history && StagingStates(history, from, base, staging, es)
      ensures StagingState(dirs, base, staging, es)
      ensures ok ==> staging in dirs
      ensures ok ==> dirs[staging] == EMPTY || (staging in base && Leftover(dirs[staging], base[staging]))
      ensures reliable ==> ok && dirs[staging] == EMPTY
    {
      ghost var h0 := history;
      StagingStart(dirs, staging, es);
      ok := RemoveAll(staging);
      StagingRemoved(base, dirs, base, staging, es);
      StagingSnoc(h0, from, dirs, base, staging, es);
      ghost var d1, h1 := dirs, history;
      hide StagingStates, StagingState, Leftover;
      StagingMade(d1, base, staging, es);
      ok := Mkdir(staging);
      StagingSnoc(h1, from, dirs, base, staging, es);
    }

    /** Extraction into an existing staging directory, which is removed again if it fails. */
    method Fill(staging: Place, es: seq<Entry>, ghost from: nat, ghost base: Dirs)
      returns (r: Result<(), RestoreError>, ghost full: Option<Tree>)
      requires staging in dirs && StagingStates(history, from, base, staging, es) &&
        StagingState(dirs, base, staging, es)
      modifies `dirs, `history
      ensures old(history) <= history && StagingStates(history, from, base, staging, es)
      ensures StagingState(dirs, base, staging, es)
      ensures r.Ok? <==> full.Some?
      ensures r.Err? ==> r.error.Extraction?
      ensures reliable ==> (r.Ok? <==> UnpackAll(old(dirs)[staging], es).Ok?)
      ensures full.Some? ==> Holds(dirs, staging, full.value) && UnpackAll(old(dirs)[staging], es) == Ok(full.value)
    {
      hide UnpackAll, Underway, StagingStates, StagingState;
      ghost var h0, d0 := history, dirs;
      full := None;
      var extracted := ExtractArchive(staging, es);
      StagingFilled(h0, |h0|, d0, history, from, base, staging, es);
      StagingUnderway(d0, dirs, base, staging, es);
      if extracted.Err? {
        ghost var h1, d1 := history, dirs;
        var ok := RemoveAll(staging);
        StagingRemoved(d1, dirs, base, staging, es);
        StagingSnoc(h1, from, dirs, base, staging, es);
        return Err(Extraction(extracted.error)), None;
      }
      full := Some(dirs[staging]);
      r := Ok(());
    }

    /** Cleans and refills the staging directory. */
    method Stage(staging: Place, es: seq<Entry>) returns (r: Result<(), RestoreError>, ghost full: Option<Tree>)
      modifies `dirs, `history
      ensures old(history) <= history && StagingStates(history, |old(history)|, old(dirs), staging, es)
      ensures StagingState(dirs, old(dirs), staging, es)
      ensures r.Ok? <==> full.Some?
      ensures r.Err? ==> r.error.NoStaging? || r.error.Extraction?
      ensures reliable ==> (r.Ok? <==> UnpackAll(EMPTY, es).Ok?)
      ensures full.Some? ==> Holds(dirs, staging, full.value) && Extracted(old(dirs), staging, es, full.value)
    {
      ghost var from, base := |history|, dirs;
      hide StagingStates, StagingState, UnpackAll, Leftover;
      var ok := Clear(staging, es, from, base);
      if !ok {
        return Err(NoStaging), None;
      }
      r, full := Fill(staging, es, from, base);
    }

    /** A removal whose failure is ignored, of a directory that holds nothing irreplaceable. */
    method Discard(p: Place, ghost from: nat, ghost base: Dirs, ghost site: Site, ghost full: Option<Tree>)
      requires p == site.staging || (p == site.previous && (site.was.Some? ==> site.root in dirs))
      requires Apart(site)
      requires from <= |history| && AllFine(history, from, base, site, full) && Fine(dirs, base, site, full)
      modifies `dirs, `history
      ensures old(history) <= history && AllFine(history, from, base, site, full) && Fine(dirs, base, site, full)
      ensures Removes(old(dirs), p, dirs) && (reliable ==> p !in dirs)
    {
      hide AllFine, Fine, Removes;
      ghost var h, d := history, dirs;
      var ok := RemoveAll(p);
      RemovalIsFine(d, dirs, p, base, site, full);
      AllFineSnoc(h, from, dirs, base, site, full);
    }

    method Move(src: Place, dst: Place, ghost from: nat, ghost base: Dirs, ghost site: Site, ghost full: Option<Tree>)
      returns (ok: bool)
      requires src != dst && from <= |history| && AllFine(history, from, base, site, full)
      requires Fine(dirs, base, site, full)
      requires src in dirs && (dst in dirs ==> dirs[dst].Keys == {[]}) ==>
        Fine(dirs[dst := dirs[src]] - {src}, base, site, full)
      modifies `dirs, `history
      ensures old(history) <= history && AllFine(history, from, base, site, full) && Fine(dirs, base, site, full)
      ensures Renames(old(dirs), src, dst, ok, dirs)
      ensures reliable && src in old(dirs) && (dst in old(dirs) ==> old(dirs)[dst].Keys == {[]}) ==> ok
    {
      hide AllFine, Fine;
      ghost var h := history;
      ok := Rename(src, dst);
      AllFineSnoc(h, from, dirs, base, site, full);
    }

    /** The second rename, once the root is out of the way. */
    method SwapIn(site: Site, ghost from: nat, ghost base: Dirs, ghost before: Run)
      returns (r: Result<(), RestoreError>, ghost run: Run)
      requires Apart(site) && site.staging in dirs
      requires site.was.Some? && site.root in dirs ==> site.previous !in dirs
      requires from <= |history| && AllFine(history, from, base, site, Some(dirs[site.staging]))
      requires Fine(dirs, base, site, Some(dirs[site.staging]))
      modifies `dirs, `history
      ensures old(history) <= history
      ensures AllFine(history, from, base, site, Some(old(dirs)[site.staging]))
      ensures Fine(dirs, base, site, Some(old(dirs)[site.staging]))
      ensures run == before.(inOk := run.inOk, moved := run.moved, backOk := run.backOk, settled := run.settled)
      ensures SwapFollows(site, old(dirs), run, r, dirs)
      ensures r.Err? ==> r.error.RenameIn?
      ensures reliable && site.root !in old(dirs) ==> r.Ok?
    {
      hide AllFine, Fine, Removes;
      ghost var full := Some(dirs[site.staging]);
      MoveInIsFine(dirs, base, site);
      var installed := Move(site.staging, site.root, from, base, site, full);
      run := before.(inOk := installed, moved := dirs);
      if installed {
        Discard(site.previous, from, base, site, full);
      } else {
        if site.previous in dirs { MoveBackIsFine(dirs, base, site, full); }
        var recovered := Move(site.previous, site.root, from, base, site, full);
        run := run.(backOk := recovered);
      }
      run := run.(settled := dirs);
      Discard(site.staging, from, base, site, full);
      r := if installed then Ok(()) else Err(RenameIn);
    }

    /** The two renames, with the recovery rename if the second one fails. */
    method Install(site: Site, ghost from: nat, ghost base: Dirs, statFails: bool)
      returns (r: Result<(), RestoreError>, ghost run: Run)
      requires Apart(site) && site.staging in dirs
      requires site.was ==
        if site.root in dirs && (statFails ==> site.previous !in dirs) then Some(dirs[site.root]) else None
      requires from <= |history| && AllFine(history, from, base, site, Some(dirs[site.staging]))
      requires Fine(dirs, base, site, Some(dirs[site.staging]))
      modifies `dirs, `history
      ensures old(history) <= history
      ensures AllFine(history, from, base, site, Some(old(dirs)[site.staging]))
      ensures Fine(dirs, base, site, Some(old(dirs)[site.staging]))
      ensures run.staged == old(dirs) && run.stagedAt == |old(history)|
      ensures InstallFollows(site, statFails, old(dirs), run, r, dirs)
      ensures r.Err? ==> r.error.RenameAside? || r.error.RenameIn?
      ensures reliable && !statFails ==> r.Ok?
      ensures r.Ok? ==> Holds(dirs, site.root, old(dirs)[site.staging])
      ensures r.Err? && site.was.Some? ==>
        Holds(dirs, site.root, site.was.value) || (r == Err(RenameIn) && site.root !in dirs)
    {
      hide AllFine, Fine, SwapFollows, Leftover;
      ghost var full, d0 := Some(dirs[site.staging]), dirs;
      run := Run(dirs, |history|, dirs, true, dirs, true, dirs, true, dirs);
      Discard(site.previous, from, base, site, full);
      run := run.(cleared := dirs);
      if site.root in dirs && !statFails {
        MoveAsideIsFine(dirs, base, site, full);
        var aside := Move(site.root, site.previous, from, base, site, full);
        run := run.(asideOk := aside, aside := dirs);
        if !aside {
          Discard(site.staging, from, base, site, full);
          InstallMeans(site, statFails, d0, run, Err(RenameAside), dirs);
          return Err(RenameAside), run;
        }
      }
      r, run := SwapIn(site, from, base, run);
      InstallMeans(site, statFails, d0, run, r, dirs);
    }

    /** What the checks can answer. */
    ghost predicate Answer(e: Option<RestoreError>, target: string, backup: string,
                           status: Option<Result<string, ()>>)
      reads `rows, `files
    {
      && (e.None? ==>
           && target != "" && (status == None || status == Some(Ok("stopped")))
           && backup in rows && rows[backup].status == Completed && rows[backup].file in files
           && digest(files[rows[backup].file]) == rows[backup].checksum)
      && (reliable && e.Some? ==>
           || target == "" || (status.Some? && status.value != Ok("stopped"))
           || backup !in rows || rows[backup].status != Completed || rows[backup].file !in files
           || digest(files[rows[backup].file]) != rows[backup].checksum)
      && (e == Some(NoServer) <==> target == "")
      && (e == Some(StatusUnavailable) ==> status.Some? && status.value.Err?)
      && (e == Some(ServerRunning) ==> status.Some? && status.value.Ok? && status.value.value != "stopped")
      && (e == Some(NotCompleted) ==> backup in rows && rows[backup].status != Completed)
      && (e == Some(ChecksumMismatch) ==>
           && backup in rows && rows[backup].status == Completed && rows[backup].file in files
           && digest(files[rows[backup].file]) != rows[backup].checksum)
      && (e.Some? ==>
           !e.value.NoStaging? && !e.value.Extraction? && !e.value.RenameAside? && !e.value.RenameIn?)
    }

    /** The checks, in order; each look-up may also fail. */
    method Refuse(target: string, backup: string, status: Option<Result<string, ()>>) returns (e: Option<RestoreError>)
      ensures Answer(e, target, backup, status)
    {
      if target == "" {
        return Some(NoServer);
      }
      match status {
        case None =>
        case Some(Err(_)) => return Some(StatusUnavailable);
        case Some(Ok(s)) => if s != "stopped" { return Some(ServerRunning); }
      }
      var fault := Fault(reliable);
      if fault || backup !in rows {
        return Some(NoBackup);
      }
      var b := rows[backup];
      if b.status != Completed {
        return Some(NotCompleted);
      }
      fault := Fault(reliable);
      if fault || b.file !in files {
        return Some(ArchiveUnreadable);
      }
      if digest(files[b.file]) != b.checksum {
        return Some(ChecksumMismatch);
      }
      fault := Fault(reliable);
      e := if fault then Some(BadRoot) else None;
    }

    method StageAndInstall(site: Site, statFails: bool)
      returns (r: Result<(), RestoreError>, ghost full: Option<Tree>, ghost run: Run)
      requires Apart(site)
      requires site.was ==
        if site.root in dirs && (statFails ==> site.previous !in dirs) then Some(dirs[site.root]) else None
      modifies `dirs, `history
      ensures Concluded(site, statFails, old(dirs), old(history), r, full, run, dirs, history)
      ensures r.Err? ==>
        r.error.NoStaging? || r.error.Extraction? || r.error.RenameAside? || r.error.RenameIn?
      ensures reliable && !statFails ==> (r.Ok? <==> UnpackAll(EMPTY, site.es).Ok?)
    {
      hide AllFine, Fine, Extracted, InstallFollows, StagingStates;
      ghost var d0, h0 := dirs, history;
      r, full := Stage(site.staging, site.es);
      ghost var h := history;
      run := Run(dirs, |h|, dirs, true, dirs, true, dirs, true, dirs);
      StagingIsFine(h, |h0|, dirs, d0, site, full);
      hide StagingState;
      if r.Ok? {
        r, run := Install(site, |h0|, d0, statFails);
        StagedOnlyStays(h, history, |h0|, d0, site.staging);
      }
    }

    /** The checks, and then the work. */
    method CheckAndInstall(site: Site, backup: string, status: Option<Result<string, ()>>, statFails: bool)
      returns (r: Result<(), RestoreError>, ghost full: Option<Tree>, ghost run: Run,
               ghost refused: Option<RestoreError>)
      requires Apart(site) && (site.was.Some? ==> Holds(dirs, site.root, site.was.value))
      requires site.aside.Some? ==> site.root !in dirs && Holds(dirs, site.previous, site.aside.value)
      requires site.was ==
        if site.root in dirs && (statFails ==> site.previous !in dirs) then Some(dirs[site.root]) else None
      modifies `dirs, `history
      ensures Concluded(site, statFails, old(dirs), old(history), r, full, run, dirs, history)
      ensures full.Some? ==> Extracted(old(dirs), site.staging, site.es, full.value)
      ensures r.Ok? ==> full.Some? && site.root in dirs && dirs[site.root] == full.value
      ensures site.aside.Some? ==>
        && run.stagedAt <= |history|
        && (forall i :: |old(history)| <= i < run.stagedAt ==> Holds(history[i], site.previous, site.aside.value))
        && (full.None? ==> site.root !in dirs && Holds(dirs, site.previous, site.aside.value))
      ensures site.was.Some? ==>
        forall i :: |old(history)| <= i < |history| ==> var d := history[i];
          if site.root in d then d[site.root] == site.was.value || (full.Some? && d[site.root] == full.value)
          else site.previous in d && d[site.previous] == site.was.value
      ensures site.was.Some? && r.Err? ==>
        Holds(dirs, site.root, site.was.value) || (r == Err(RenameIn) && site.root !in dirs)
      ensures Answer(refused, site.root.server, backup, status)
      ensures refused.Some? ==>
        r == Err(refused.value) && full.None? && dirs == old(dirs) && history == old(history)
      ensures refused.None? && r.Err? ==>
        r.error.NoStaging? || r.error.Extraction? || r.error.RenameAside? || r.error.RenameIn?
      ensures refused.None? && reliable && !statFails ==> (r.Ok? <==> UnpackAll(EMPTY, site.es).Ok?)
    {
      ghost var d0, h0 := dirs, history;
      run := Run(dirs, |history|, dirs, true, dirs, true, dirs, true, dirs);
      full := None;
      hide Concluded, Answer, Apart;
      var answer := Refuse(site.root.server, backup, status);
      refused := answer;
      if answer.Some? {
        r := Err(answer.value);
        RefusedConcludes(site, statFails, dirs, history, answer.value, run);
      } else {
        r, full, run := StageAndInstall(site, statFails);
      }
      hide Extracted;
      AsideIsKept(site, statFails, d0, h0, r, full, run, dirs, history);
      if site.was.Some? { LiveTreeIsKept(site, statFails, d0, h0, r, full, run, dirs, history); }
    }

    /** Restore of one backup. `status` is the provider's answer (None: no provider), `statFails`
        says whether the existence test on the root fails for a reason other than absence. The ghost
        results are the tree that extraction completed, if it got that far, and the run. */
    method Restore(server: string, targetServer: string, backup: string,
                   status: Option<Result<string, ()>>, statFails: bool)
      returns (r: Result<(), RestoreError>, ghost full: Option<Tree>, ghost site: Site, ghost run: Run)
      modifies `dirs, `history
      ensures site == SiteOf(server, targetServer, backup, old(dirs), statFails, ArchiveFile(backup)) && Apart(site)
      ensures Concluded(site, statFails, old(dirs), old(history), r, full, run, dirs, history)
      ensures r.Ok? ==> full.Some? && site.root in dirs && dirs[site.root] == full.value
      ensures full.Some? ==>
        && (targetServer != "" || server != "") && (status == None || status == Some(Ok("stopped")))
        && backup in rows && rows[backup].status == Completed && rows[backup].file in files
        && digest(files[rows[backup].file]) == rows[backup].checksum
        && Extracted(old(dirs), site.staging, files[rows[backup].file], full.value)
      ensures
        || (targetServer == "" && server == "")
        || (status.Some? && status.value != Ok("stopped"))
        || backup !in rows || rows[backup].status != Completed || rows[backup].file !in files
        || digest(files[rows[backup].file]) != rows[backup].checksum ==>
          r.Err? && full.None? && dirs == old(dirs) && history == old(history)
      ensures reliable && !statFails && r.Err? ==>
        || (targetServer == "" && server == "")
        || (status.Some? && status.value != Ok("stopped"))
        || backup !in rows || rows[backup].status != Completed || rows[backup].file !in files
        || digest(files[rows[backup].file]) != rows[backup].checksum
        || UnpackAll(EMPTY, files[rows[backup].file]).Err?
      ensures r == Err(NoServer) <==> targetServer == "" && server == ""
      ensures r == Err(StatusUnavailable) ==> status.Some? && status.value.Err?
      ensures r == Err(ServerRunning) ==> status.Some? && status.value.Ok? && status.value.value != "stopped"
      ensures r == Err(NotCompleted) ==> backup in rows && rows[backup].status != Completed
      ensures r == Err(ChecksumMismatch) ==>
        && backup in rows && rows[backup].status == Completed && rows[backup].file in files
        && digest(files[rows[backup].file]) != rows[backup].checksum
      ensures
        var root := Data(if targetServer == "" then server else targetServer);
        var previous := Previous(root.server, backup);
        root in old(dirs) && !statFails ==>
          forall i :: |old(history)| <= i < |history| ==> var d := history[i];
            if root in d then d[root] == old(dirs)[root] || (full.Some? && d[root] == full.value)
            else previous in d && d[previous] == old(dirs)[root]
      ensures
        var root := Data(if targetServer == "" then server else targetServer);
        root in old(dirs) && !statFails && r.Err? ==>
          (root in dirs && dirs[root] == old(dirs)[root]) || (r == Err(RenameIn) && root !in dirs)
      ensures site.aside.Some? ==>
        && run.stagedAt <= |history|
        && (forall i :: |old(history)| <= i < run.stagedAt ==> Holds(history[i], site.previous, site.aside.value))
        && (full.None? ==> site.root !in dirs && Holds(dirs, site.previous, site.aside.value))
    {
      var here := SiteOf(server, targetServer, backup, dirs, statFails, ArchiveFile(backup));
      site := here;
      assert Apart(site) && (site.was.Some? ==> Holds(dirs, site.root, site.was.value))
          && (site.aside.Some? ==> site.root !in dirs && Holds(dirs, site.previous, site.aside.value));
      hide Concluded, Extracted;
      ghost var refused;
      r, full, run, refused := CheckAndInstall(here, backup, status, statFails);
    }

    // -------------------------------------------------------------- create and delete

    /** Best-effort status update: the store call may fail and its error is dropped. */
    method MarkFailed(id: string)
      requires id in rows
      modifies `rows
      ensures rows == old(rows) || rows == old(rows)[id := old(rows)[id].(status := Failed, checksum := "")]
    {
      var fault := Fault(reliable);
      if !fault {
        rows := rows[id := rows[id].(status := Failed, checksum := "")];
      }
    }

    method CreateArchive(server: string, dest: string) returns (r: Result<Digest, ArchiveError>)
      requires Data(server) in dirs ==> WellFormed(dirs[Data(server)])
      modifies `files
      ensures files - {dest} == old(files) - {dest}
      ensures r.Ok? ==>
        && Data(server) in dirs && dest in files
        && ArchiveOf(files[dest], dirs[Data(server)]) && r.value == digest(files[dest])
      ensures r.Err? && Data(server) in dirs ==> Justified(r.error, dirs[Data(server)], Under(dirs[Data(server)], []))
      ensures reliable ==>
        (r.Ok? <==> Data(server) in dirs && forall p :: p in dirs[Data(server)] ==> Archivable(dirs[Data(server)][p]))
    {
      var fault := Fault(reliable);
      if fault {
        return Err(WalkFault);
      }
      files := files[dest := []];
      if Data(server) !in dirs {
        return Err(WalkFault);
      }
      var t := dirs[Data(server)];
      var w := new TarWriter(reliable);
      assert Under(t, []) == t.Keys;
      hide ArchiveOf, WellFormed, Justified, Under;
      var walked, added := w.Walk(t, []);
      assert walked.Ok? ==> ArchiveOf(added, t) by { if walked.Ok? { CoversIsArchive(added, t); } }
      if reliable { ArchivedOrNot(walked, added, t); }
      files := files[dest := w.entries];
      if walked.Err? {
        return Err(walked.error);
      }
      fault := Fault(reliable);
      if fault {
        return Err(WalkFault);
      }
      assert w.entries == added;
      r := Ok(digest(w.entries));
    }

    /** The end of a backup whose archive could not be written: the row and the partial file. */
    method Abandon(id: string, tmp: string)
      requires id in rows
      modifies `files, `rows
      ensures rows == old(rows) || rows == old(rows)[id := old(rows)[id].(status := Failed, checksum := "")]
      ensures files == old(files) || files == old(files) - {tmp}
    {
      MarkFailed(id);
      var fault := Fault(reliable);
      if !fault {
        files := files - {tmp};
      }
    }

    /** The end of one whose archive was written: it is renamed into place, and the row completed. */
    method Complete(id: string, archive: string, tmp: string, checksum: Digest) returns (ok: bool)
      requires id in rows && tmp in files && archive != tmp && rows[id].status == Creating
      modifies `files, `rows
      ensures rows - {id} == old(rows) - {id} && id in rows
      ensures files == old(files) || files == old(files)[archive := old(files)[tmp]] - {tmp}
      ensures ok ==> files == old(files)[archive := old(files)[tmp]] - {tmp}
      ensures ok ==> rows[id] == old(rows)[id].(status := Completed, checksum := checksum)
      ensures !ok ==> rows[id].status != Completed
      ensures reliable ==> ok
    {
      var fault := Fault(reliable);
      if fault {
        MarkFailed(id);
        return false;
      }
      files := files[archive := files[tmp]] - {tmp};
      fault := Fault(reliable);
      if fault {
        return false;
      }
      rows := rows[id := rows[id].(status := Completed, checksum := checksum)];
      ok := true;
    }

    /** Archives the live directory to a temporary file, renames it into place and completes the row. */
    method Create(server: string, stopBeforeRun: bool, id: string) returns (r: Result<Digest, CreateError>)
      requires Data(server) in dirs ==> WellFormed(dirs[Data(server)])
      modifies `files, `rows
      ensures rows - {id} == old(rows) - {id}
      ensures files - {FileOf(server, id), TmpOf(server, id)} == old(files) - {FileOf(server, id), TmpOf(server, id)}
      ensures id in old(rows) ==> r.Err? && rows == old(rows) && files == old(files)
      ensures r.Ok? ==>
        && Data(server) in dirs && FileOf(server, id) in files
        && ArchiveOf(files[FileOf(server, id)], dirs[Data(server)])
        && r.value == digest(files[FileOf(server, id)])
        && id in rows && rows[id] == Row(server, FileOf(server, id), Completed, r.value)
        && rows[id].file == server + "/" + id + ".tar.gz"
      ensures r.Err? && id !in old(rows) ==> id in rows ==> rows[id].status != Completed
      ensures reliable ==>
        (r.Ok? <==>
          && server != "" && !stopBeforeRun && id !in old(rows) && Data(server) in dirs
          && forall p :: p in dirs[Data(server)] ==> !dirs[Data(server)][p].Symlink? && !dirs[Data(server)][p].Socket?)
    {
      hide ArchiveOf, WellFormed, Justified, Under;
      if server == "" {
        return Err(NoServerID);
      }
      if stopBeforeRun {
        return Err(StopUnsupported);
      }
      var fault := Fault(reliable);
      if fault || id in rows {
        return Err(CreateFault);
      }
      var archive, tmp := FileOf(server, id), TmpOf(server, id);
      assert |tmp| > |archive| && archive == server + "/" + id + ".tar.gz";
      hide FileOf, TmpOf;
      rows := rows[id := Row(server, archive, Creating, "")];
      ghost var f0 := files;
      var made := CreateArchive(server, tmp);
      ghost var f1 := files;
      FilesElsewhere(f0, f1, archive, tmp);
      if made.Err? {
        Abandon(id, tmp);
        return Err(ArchiveFailed(made.error));
      }
      var ok := Complete(id, archive, tmp, made.value);
      r := if ok then Ok(made.value) else Err(CreateFault);
    }

    method Delete(id: string) returns (r: Result<(), ()>)
      modifies `files, `rows
      ensures id !in old(rows) ==> r.Err? && rows == old(rows) && files == old(files)
      ensures reliable && id in old(rows) ==> r.Ok?
      ensures id in old(rows) && r.Ok? ==>
        rows == old(rows) - {id} && files == old(files) - {old(rows)[id].file}
      ensures id in old(rows) && r.Err? ==>
        rows == old(rows) && (files == old(files) || files == old(files) - {old(rows)[id].file})
    {
      var fault := Fault(reliable);
      if fault || id !in rows {
        return Err(());
      }
      fault := Fault(reliable);
      if fault {
        return Err(());
      }
      files := files - {rows[id].file};
      fault := Fault(reliable);
      if fault {
        return Err(());
      }
      rows := rows - {id};
      r := Ok(());
    }

    // -------------------------------------------------------------- end to end

    /** A completed backup, restored after anything at all has happened to the directories (except
        to the staging directory of this very backup), brings back the tree as it was. */
    method BackupThenRestore(server: string, id: string, target: string, later: Dirs,
                             status: Option<Result<string, ()>>, statFails: bool) returns (ok: bool)
      requires Data(server) in dirs && WellFormed(dirs[Data(server)])
      requires Staging(if target == "" then server else target, id) !in later
      modifies this
      ensures ok ==> var root := Data(if target == "" then server else target);
                     root in dirs && dirs[root] == old(dirs)[Data(server)]
      ensures reliable && !statFails && server != "" && id !in old(rows) ==>
        (status == None || status == Some(Ok("stopped"))) ==>
          (ok <==> forall p :: p in old(dirs)[Data(server)] ==>
            var item := old(dirs)[Data(server)][p]; !item.Symlink? && !item.Socket? && !item.Device?)
    {
      ghost var t := dirs[Data(server)];
      var created := Create(server, false, id);
      if created.Err? {
        return false;
      }
      dirs := later;
      RoundTrip(EMPTY, t, files[FileOf(server, id)]);
      ghost var full, site, run;
      var restored;
      hide UnpackAll, RestoreFollows, Fine, AllFine, Extracted, StagedOnly, ArchiveOf, WellFormed;
      restored, full, site, run := Restore(server, target, id, status, statFails);
      ok := restored.Ok?;
      if ok {
        ExtractedIsTree(later, site.staging, site.es, full.value, t);
      }
    }

    ghost function SiteHere(server: string, target: string, id: string): Site
      reads this
    {
      SiteOf(server, target, id, dirs, false, ArchiveFile(id))
    }

    /** One restore of an archive of `t`, without spurious existence tests. */
    method RestoreOf(server: string, target: string, id: string, ghost t: Tree, status: Option<Result<string, ()>>)
      returns (ok: bool, ghost completed: bool)
      requires WellFormed(t) && ArchiveOf(ArchiveFile(id), t) && Retriable(dirs, SiteHere(server, target, id), t)
      modifies `dirs, `history
      ensures old(history) <= history
      ensures Recoverable(dirs, old(SiteHere(server, target, id)), t)
      ensures forall i :: |old(history)| <= i < |history| ==>
        Recoverable(history[i], old(SiteHere(server, target, id)), t)
      ensures ok ==> Holds(dirs, old(SiteHere(server, target, id)).root, t)
      ensures var site := old(SiteHere(server, target, id));
              site.aside.Some? && !completed ==> site.root !in dirs && Holds(dirs, site.previous, site.aside.value)
    {
      ghost var d0 := dirs;
      var r;
      ghost var full, site, run;
      r, full, site, run := Restore(server, target, id, status, false);
      hide RestoreFollows, Fine, Extracted, Recoverable;
      if full.Some? { ExtractedIsTree(d0, site.staging, site.es, full.value, t); }
      FineIsRecoverable(dirs, d0, site, full, t);
      forall i | |old(history)| <= i < |history| ensures Recoverable(history[i], site, t) {
        assert Fine(history[i], d0, site, full);
        FineIsRecoverable(history[i], d0, site, full, t);
      }
      ok, completed := r.Ok?, full.Some?;
    }

    /** A restore that crashed at any moment can be run again: if the second run succeeds, the root
        is exactly the archived tree, whatever the first one left in the staging directory. If it
        fails, the tree the server had before the first run is still whole, or the archived one is,
        unless the crash left no root and the second run completed its extraction. */
    method RestoreAgainAfterCrash(server: string, target: string, id: string, ghost t: Tree,
                                  status: Option<Result<string, ()>>, crash: nat)
      returns (ok: bool, ghost rootless: bool, ghost completed: bool)
      requires WellFormed(t) && ArchiveOf(ArchiveFile(id), t) && Retriable(dirs, SiteHere(server, target, id), t)
      modifies `dirs, `history
      ensures ok ==> Holds(dirs, old(SiteHere(server, target, id)).root, t)
      ensures var site := old(SiteHere(server, target, id));
              site.was.Some? && !(rootless && completed) ==> Survives(dirs, site, {site.was.value, t})
    {
      var before := |history|;
      ghost var site := SiteHere(server, target, id);
      ok, completed := RestoreOf(server, target, id, t, status);
      if before <= crash < |history| {
        dirs := history[crash];
      }
      assert Recoverable(dirs, site, t);
      rootless := site.root !in dirs;
      ok, completed := RestoreOf(server, target, id, t, status);
    }
  }
}
