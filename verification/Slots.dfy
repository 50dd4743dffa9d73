/** Versioned update slots: the manifest, the two links projected from it and the slot binaries.
    Every system call may fail, and `history` records each state of the directory, so that a crash
    is the program stopping, deferred clean-up included, at any of them. */
module UpdateSlots {
  import opened Text
  import opened Faults

  type Bytes = seq<byte>

  datatype State = State(current: string, previous: string)

  /** One name in the slot directory. Manifest(None) is a state.json that does not decode. */
  datatype Entry =
    | Binary(body: Bytes, executable: bool)
    | Link(target: string)
    | Manifest(doc: Option<State>)
    | Backups(copies: nat)
    | Temp

  type Dir = map<string, Entry>

  predicate ValidVersion(v: string) {
    v !in {"", ".", "..", "current", "previous", "state.json"} && '/' !in v
  }

  datatype LoadError = Undecodable | BadVersion | NoCurrent

  function Readlink(d: Dir, name: string): Option<string> {
    if name in d && d[name].Link? then Some(d[name].target) else None
  }

  function CheckState(s: State): Result<State, LoadError> {
    if ValidVersion(s.current) && (s.previous == "" || ValidVersion(s.previous)) then Ok(s) else Err(BadVersion)
  }

  /** The manifest is authoritative; without one the links are. */
  function LoadState(d: Dir): Result<State, LoadError> {
    if "state.json" in d then
      if d["state.json"].Manifest? && d["state.json"].doc.Some? then CheckState(d["state.json"].doc.value)
      else Err(Undecodable)
    else
      match Readlink(d, "current")
      case None => Err(NoCurrent)
      case Some(c) =>
        CheckState(State(c, if Readlink(d, "previous").Some? then Readlink(d, "previous").value else ""))
  }

  /** When a pair is loaded, read off the directory's entries: from the manifest if there is one, however
      the links stand, and otherwise from the links; and only if both names are usable as slots. */
  lemma LoadsExactly(d: Dir, s: State)
    ensures LoadState(d) == Ok(s) <==>
            && (if "state.json" in d then d["state.json"] == Manifest(Some(s))
                else && "current" in d && d["current"] == Link(s.current)
                     && if "previous" in d && d["previous"].Link? then d["previous"] == Link(s.previous)
                        else s.previous == "")
            && s.current !in {"", ".", "..", "current", "previous", "state.json"} && '/' !in s.current
            && s.previous !in {".", "..", "current", "previous", "state.json"} && '/' !in s.previous
  {
  }

  // ---------------------------------------------------------------- what must hold

  /** A slot that can be run. */
  predicate Bootable(d: Dir, v: string) { v in d && d[v].Binary? && d[v].executable }

  /** Slot safety: whatever pair the manager would load names binaries that are there. */
  ghost predicate Safe(d: Dir) {
    var s := LoadState(d);
    s.Ok? && Bootable(d, s.value.current) && (s.value.previous != "" ==> Bootable(d, s.value.previous))
  }

  ghost predicate Distinct(d: Dir) {
    LoadState(d).Ok? && LoadState(d).value.current != LoadState(d).value.previous
  }

  /** The links are what the state says. */
  ghost predicate Projected(d: Dir, s: State) {
    Readlink(d, "current") == Some(s.current) && (s.previous != "" ==> Readlink(d, "previous") == Some(s.previous))
  }

  /** Every slot the state names holds bytes from `trusted`. */
  ghost predicate Genuine(d: Dir, trusted: set<Bytes>) {
    Safe(d) && var s := LoadState(d).value;
    d[s.current].body in trusted && (s.previous != "" ==> d[s.previous].body in trusted)
  }

  /** Temporary files and leftovers have hidden names. */
  predicate Hidden(n: string) { n != "" && n[0] == '.' }

  /** `d` is `d0` except at the names in `keys` and for stray hidden names that `d0` lacks. */
  ghost predicate Extends(d: Dir, d0: Dir, keys: set<string>) {
    && (forall n :: n in d0 && n !in keys ==> n in d && d[n] == d0[n])
    && (forall n :: n in d && n !in d0 && n !in keys ==> Hidden(n))
  }

  /** Names outside `keys` keep their entries; what is new there is hidden. */
  lemma ExtendsMeans(d: Dir, d0: Dir, keys: set<string>)
    requires Extends(d, d0, keys)
    ensures forall n :: n !in keys && (n in d0 || n == "" || n[0] != '.') ==>
              (n in d <==> n in d0) && (n in d0 ==> d[n] == d0[n])
  {
  }

  // ---------------------------------------------------------------- one update as a plan

  /** What one Apply or Rollback may do: move from `prior` to `next`, touching only `keys`. An Apply
      also brings the verified bytes of the new current slot. */
  datatype Plan = Plan(d0: Dir, prior: State, next: State, body: Option<Bytes>, keys: set<string>)

  const RESERVED := {"current", "previous", "state.json"}

  ghost predicate PlanOk(p: Plan) {
    && LoadState(p.d0) == Ok(p.prior) && CheckState(p.next) == Ok(p.next)
    && RESERVED <= p.keys && (Safe(p.d0) ==> p.prior.current !in p.keys && p.prior.previous !in p.keys)
    && (forall k :: k in p.keys && Hidden(k) ==> k == p.next.current)
    && (if p.body.Some? then
          p.next.previous == p.prior.current != p.next.current && p.next.current in p.keys &&
            p.next.current !in RESERVED
        else
          p.prior.previous != "" && p.next == State(p.prior.previous, p.prior.current))
  }

  ghost predicate Ready(d: Dir, p: Plan) {
    p.body.Some? ==> p.next.current in d && d[p.next.current] == Binary(p.body.value, true)
  }

  /** The states the directory may be in while the plan is carried out: all or nothing, as far as
      the manager's own view goes, and the new slot is complete before it is named. */
  ghost predicate Allowed(d: Dir, p: Plan) {
    && Extends(d, p.d0, p.keys)
    && (LoadState(d) == Ok(p.prior) || (LoadState(d) == Ok(p.next) && Ready(d, p)))
  }

  ghost predicate AllAllowed(h: seq<Dir>, from: nat, p: Plan) {
    forall i :: from <= i < |h| ==> Allowed(h[i], p)
  }

  lemma AllAllowedSnoc(h: seq<Dir>, from: nat, d: Dir, p: Plan)
    requires AllAllowed(h, from, p) && Allowed(d, p)
    ensures AllAllowed(h + [d], from, p)
  {
  }

  /** The key to slot safety: every allowed state is safe, keeps current and previous apart, and
      names only bytes that were there before or were verified. */
  lemma AllowedIsSafe(d: Dir, p: Plan, trusted: set<Bytes>)
    requires PlanOk(p) && Allowed(d, p)
    ensures Safe(p.d0) ==> Safe(d)
    ensures Distinct(p.d0) ==> Distinct(d)
    ensures Genuine(p.d0, trusted) ==> Genuine(d, trusted + if p.body.Some? then {p.body.value} else {})
  {
  }

  /** What a crash at this state leaves: the slot pair before or the one intended; safe if it was safe,
      with current and previous still apart and no bytes named that were not trusted or verified. */
  ghost predicate Sound(d: Dir, d0: Dir, next: State, verified: set<Bytes>) {
    && (Safe(d0) ==> Safe(d))
    && (LoadState(d) == LoadState(d0) || LoadState(d) == Ok(next))
    && (Distinct(d0) ==> Distinct(d))
    && (forall trusted :: Genuine(d0, trusted) ==> Genuine(d, trusted + verified))
  }

  ghost predicate AllSound(h: seq<Dir>, from: nat, d0: Dir, next: State, verified: set<Bytes>) {
    forall i :: from <= i < |h| ==> Sound(h[i], d0, next, verified)
  }

  function Brought(p: Plan): set<Bytes> { if p.body.Some? then {p.body.value} else {} }

  lemma AllowedIsSound(d: Dir, p: Plan)
    requires PlanOk(p) && Allowed(d, p)
    ensures Sound(d, p.d0, p.next, Brought(p))
  {
    AllowedIsSafe(d, p, {});
    forall trusted | Genuine(p.d0, trusted) ensures Genuine(d, trusted + Brought(p)) {
      AllowedIsSafe(d, p, trusted);
    }
  }

  lemma AllAllowedIsSound(h: seq<Dir>, from: nat, p: Plan)
    requires PlanOk(p) && AllAllowed(h, from, p)
    ensures AllSound(h, from, p.d0, p.next, Brought(p))
  {
    forall i | from <= i < |h| ensures Sound(h[i], p.d0, p.next, Brought(p)) {
      AllowedIsSound(h[i], p);
    }
  }

  /** LoadState looks at three names only. */
  lemma LoadStateFrame(d: Dir, e: Dir)
    requires forall k :: k in RESERVED ==> (k in d <==> k in e) && (k in d ==> d[k] == e[k])
    ensures LoadState(d) == LoadState(e)
  {
    assert "current" in RESERVED && "previous" in RESERVED && "state.json" in RESERVED;
  }

  ghost predicate SameExcept(d: Dir, e: Dir, k: string) {
    forall n :: n != k ==> (n in d <==> n in e) && (n in d ==> d[n] == e[n])
  }

  /** A hidden scratch name: nothing the slots had at the start, and not the slot being named. */
  ghost predicate Scratch(n: string, d: Dir, p: Plan) {
    Hidden(n) && (n in p.d0 ==> n in p.keys) && (p.body.Some? && LoadState(d) != Ok(p.prior) ==> n != p.next.current)
  }

  lemma StrayIsAllowed(e: Dir, d: Dir, n: string)
    requires SameExcept(e, d, n) && Hidden(n) && n !in d
    ensures Extends(e, d, {})
  {
  }

  lemma ScratchIsAllowed(d: Dir, e: Dir, n: string, p: Plan)
    requires PlanOk(p) && Allowed(d, p) && Scratch(n, d, p) && SameExcept(e, d, n)
    ensures Allowed(e, p) && LoadState(e) == LoadState(d)
  {
    LoadStateFrame(d, e);
  }

  /** Before the switch, the new slot's own name and "backups" may be rewritten freely. */
  lemma KeyTouch(d: Dir, e: Dir, k: string, p: Plan)
    requires PlanOk(p) && Allowed(d, p) && LoadState(d) == Ok(p.prior)
    requires k in p.keys && k !in RESERVED && SameExcept(e, d, k)
    ensures Allowed(e, p) && LoadState(e) == Ok(p.prior)
  {
    LoadStateFrame(d, e);
  }

  /** The names an Apply may touch. "backups" is one of them unless a slot of that name exists. */
  function ApplyKeys(version: string, d0: Dir): set<string> {
    RESERVED + {version} + if "backups" in d0 && !d0["backups"].Backups? then {} else {"backups"}
  }

  function ApplyPlan(d0: Dir, s: State, version: string, body: Bytes): Plan {
    Plan(d0, s, State(version, s.current), Some(body), ApplyKeys(version, d0))
  }

  lemma ApplyPlanOk(d0: Dir, s: State, version: string, body: Bytes)
    requires LoadState(d0) == Ok(s) && ValidVersion(version) && version != s.current && version != s.previous
    ensures PlanOk(ApplyPlan(d0, s, version, body)) && Allowed(d0, ApplyPlan(d0, s, version, body))
  {
    assert forall k :: k in RESERVED ==> !Hidden(k) && !ValidVersion(k);
  }

  /** A name that is free now can serve as scratch. */
  lemma FreeNameIsScratch(d: Dir, n: string, p: Plan)
    requires PlanOk(p) && Allowed(d, p) && Hidden(n) && n !in d
    ensures Scratch(n, d, p)
  {
  }

  /** Backups that were there are still there, and at least as many. */
  predicate KeepsBackups(d: Dir, e: Dir) {
    "backups" in d && d["backups"].Backups? ==>
      "backups" in e && e["backups"].Backups? && e["backups"].copies >= d["backups"].copies
  }

  /** What an Apply leaves alone, whatever its outcome. */
  lemma OtherNamesStay(version: string, d0: Dir, d: Dir)
    requires Extends(d, d0, ApplyKeys(version, d0)) && (version != "backups" ==> KeepsBackups(d0, d))
    ensures forall n ::
              n !in {"current", "previous", "state.json", "backups", version} &&
                (n in d0 || n == "" || n[0] != '.') ==>
                  (n in d <==> n in d0) && (n in d ==> d[n] == d0[n])
    ensures version != "backups" && "backups" in d0 && d0["backups"].Backups? ==>
              "backups" in d && d["backups"].Backups? && d["backups"].copies >= d0["backups"].copies
  {
    ExtendsMeans(d, d0, ApplyKeys(version, d0));
  }

  // ---------------------------------------------------------------- releases

  datatype Release = Release(version: string, binaryURL: string, sha256: string, signature: Bytes)

  predicate HexDigest(s: string) {
    |s| == 64 && forall i :: 0 <= i < 64 ==> '0' <= s[i] <= '9' || 'a' <= s[i] <= 'f'
  }

  predicate Verified(r: Release, body: Bytes, sha: Bytes -> string, verifier: Option<(Release, Bytes) -> bool>) {
    && ValidVersion(r.version) && r.binaryURL != "" && HexDigest(r.sha256) && sha(body) == r.sha256
    && verifier.Some? && r.signature != [] && verifier.value(r, body)
  }

  /** The conditions one by one. */
  lemma VerifiedMeans(r: Release, body: Bytes, sha: Bytes -> string, verifier: Option<(Release, Bytes) -> bool>)
    ensures Verified(r, body, sha, verifier) <==>
            && r.version !in {"", ".", "..", "current", "previous", "state.json"} && '/' !in r.version
            && r.binaryURL != "" && r.signature != []
            && |r.sha256| == 64 && (forall c :: c in r.sha256 ==> '0' <= c <= '9' || 'a' <= c <= 'f')
            && sha(body) == r.sha256 && verifier.Some? && verifier.value(r, body)
  {
    assert forall i :: 0 <= i < |r.sha256| ==> r.sha256[i] in r.sha256;
  }

  /** The callbacks configured by the embedder, and what they answered. */
  datatype Call = BackupCall(ok: bool) | HealthCall(slot: string, ok: bool) | ProjectCall(ok: bool)

  datatype Command = ApplyRelease(release: Release, download: Option<Bytes>) | RollBack

  datatype UpdateError =
    | NoRoot | DownloadFailed | Unverified | LoadFailed | AlreadySlot | NoPrevious
    | BackupFailed | PrepareFailed | CandidateUnhealthy | SaveFailed
    | ProjectFailed | PostSwitchUnhealthy
    | ManifestNotRestored(cause: UpdateError) | LinksNotRestored(cause: UpdateError)

  // ---------------------------------------------------------------- how the directory changes

  /** What every state of a run satisfies: bootable slots, kept apart, with no bytes from elsewhere. */
  ghost predicate Endures(d: Dir, d0: Dir, trusted: set<Bytes>) {
    Genuine(d, trusted) && (Distinct(d0) ==> Distinct(d))
  }

  lemma EnduresMore(d: Dir, d0: Dir, trusted: set<Bytes>, more: set<Bytes>)
    requires Endures(d, d0, trusted) && trusted <= more
    ensures Endures(d, d0, more)
  {
  }

  /** Read off each of the directories `h` from `from` on, and `last`: both slots that would be loaded can
      be run, on bytes from `trusted`, and are two if they were two. */
  lemma EnduresMeans(h: seq<Dir>, from: nat, last: Dir, d0: Dir, trusted: set<Bytes>)
    requires Endures(last, d0, trusted) && forall i :: from <= i < |h| ==> Endures(h[i], d0, trusted)
    ensures
      forall i :: from <= i <= |h| ==>
        var d := if i < |h| then h[i] else last;
        var s := LoadState(d);
        && s.Ok? && s.value.current in d && d[s.value.current].Binary? && d[s.value.current].executable
        && d[s.value.current].body in trusted
        && (s.value.previous != "" ==>
             && s.value.previous in d && d[s.value.previous].Binary? && d[s.value.previous].executable
             && d[s.value.previous].body in trusted)
        && (LoadState(d0).Ok? && LoadState(d0).value.current != LoadState(d0).value.previous ==>
             s.value.current != s.value.previous)
  {
    hide LoadState;
    forall i | from <= i <= |h| ensures Endures(if i < |h| then h[i] else last, d0, trusted) {
    }
  }

  lemma SoundStateEndures(d: Dir, before: Dir, next: State, brought: set<Bytes>, d0: Dir, trusted: set<Bytes>)
    requires Endures(before, d0, trusted) && Sound(d, before, next, brought)
    ensures Endures(d, d0, trusted + brought)
  {
  }

  lemma SoundEndures(h: seq<Dir>, from: nat, before: Dir, next: State, brought: set<Bytes>, d0: Dir,
                     trusted: set<Bytes>)
    requires Endures(before, d0, trusted) && AllSound(h, from, before, next, brought)
    ensures forall i :: from <= i < |h| ==> Endures(h[i], d0, trusted + brought)
  {
    forall i | from <= i < |h| ensures Endures(h[i], d0, trusted + brought) {
      SoundStateEndures(h[i], before, next, brought, d0, trusted);
    }
  }

  lemma SlotKept(e: Dir, d: Dir, version: string)
    requires version !in RESERVED && version in d
    ensures Extends(e, d, RESERVED) ==> version in e && e[version] == d[version]
  {
  }

  predicate NoBackups(d: Dir) { "backups" in d ==> !d["backups"].Backups? }

  lemma BackupsSurvive(d: Dir, e: Dir, keys: set<string>)
    requires Extends(e, d, keys)
    ensures "backups" !in keys ==> KeepsBackups(d, e)
  {
  }

  lemma KeepsBackupsMore(d: Dir, e: Dir, f: Dir)
    requires KeepsBackups(d, e) && KeepsBackups(e, f)
    ensures KeepsBackups(d, f)
  {
  }

  lemma SlotIsNoBackup(d: Dir, e: Dir)
    requires "backups" in d && NoBackups(d) && Extends(e, d, RESERVED)
    ensures NoBackups(e)
  {
  }

  lemma BackupsKept(d: Dir, e: Dir, version: string)
    requires Extends(e, d, RESERVED) && version in d && !d[version].Backups?
    ensures "backups" in d && d["backups"].Backups? ==> "backups" in e && e["backups"].Backups? && version != "backups"
    ensures version == "backups" ==> "backups" in e && !e["backups"].Backups?
  {
  }

  lemma CandidateEnds(d0: Dir, d1: Dir, d2: Dir, tmp: string, version: string)
    requires tmp !in d0 && Hidden(tmp) && d1 == d0[tmp := if tmp in d1 then d1[tmp] else Temp] &&
      SameExcept(d2, d1, version)
    ensures Extends(d2, d0, {version}) && Extends(d2 - {tmp}, d0, {version})
    ensures tmp in d2 ==> Extends(d2[version := d2[tmp]] - {tmp}, d0, {version})
  {
  }

  lemma LoadStateFrameWithManifest(d: Dir, e: Dir)
    requires "state.json" in d && "state.json" in e && d["state.json"] == e["state.json"]
    ensures LoadState(d) == LoadState(e)
  {
  }

  lemma LinkSwitch(d: Dir, path: string, name: string, p: Plan)
    requires PlanOk(p) && Allowed(d, p) && Scratch(path, d, p)
    requires path in d && "state.json" in d && name in {"current", "previous"}
    ensures var e := d[name := d[path]] - {path}; Allowed(e, p) && LoadState(e) == LoadState(d)
  {
    LoadStateFrameWithManifest(d, d[name := d[path]] - {path});
  }

  /** A directory has the name, so nothing can be renamed onto it. */
  predicate Occupied(d: Dir, name: string) { name in d && d[name].Backups? }

  predicate Linkable(d: Dir) { !Occupied(d, "current") && !Occupied(d, "previous") }

  lemma OccupiedKept(e: Dir, d: Dir, keys: set<string>, name: string)
    requires Extends(e, d, keys) && name !in keys && !Hidden(name)
    ensures Occupied(e, name) == Occupied(d, name)
  {
  }

  lemma LinkableKept(e: Dir, d: Dir, keys: set<string>)
    requires "current" !in keys && "previous" !in keys
    ensures Extends(e, d, keys) ==> Linkable(e) == Linkable(d)
  {
  }

  lemma ExtendsNothing(d: Dir, name: string)
    ensures Extends(d, d, {}) && Extends(d, d, {name})
  {
  }

  /** Changes compose, as long as every stray file stays or was stray before. */
  lemma ExtendsMore(e: Dir, d: Dir, d0: Dir, k1: set<string>, k0: set<string>, keys: set<string>)
    requires Extends(e, d, k1) && Extends(d, d0, k0) && k0 + k1 <= keys
    ensures Extends(e, d0, keys)
  {
  }

  lemma ManifestKept(e: Dir, d: Dir)
    requires Extends(e, d, {"current"}) || Extends(e, d, {"current", "previous"})
    requires "state.json" in d
    ensures "state.json" in e && e["state.json"] == d["state.json"]
  {
  }

  lemma CurrentKept(e: Dir, d: Dir, target: string)
    requires Extends(e, d, {"previous"}) && Readlink(d, "current") == Some(target)
    ensures Readlink(e, "current") == Some(target)
  {
  }

  lemma PreviousDropped(e: Dir, d: Dir)
    requires e == d || e == d - {"previous"}
    ensures Extends(e, d, {"previous"}) && Readlink(e, "current") == Readlink(d, "current")
  {
  }

  /** How the life of a scratch file can end: installed, removed, or left behind. */
  lemma ScratchEnds(d: Dir, path: string, content: Entry, target: string)
    requires path !in d && Hidden(path) && path != target
    ensures Extends(d[path := content][target := content] - {path}, d, {target})
    ensures Extends(d[path := content] - {path}, d, {}) && Extends(d[path := content], d, {})
    ensures Extends(d[path := content][path := Temp], d, {})
    ensures Extends(d[path := content] - {path}, d, {target}) && Extends(d[path := content], d, {target})
  {
  }

  lemma ManifestSwitch(d: Dir, path: string, s: State, p: Plan)
    requires PlanOk(p) && Allowed(d, p) && Scratch(path, d, p)
    requires path in d && d[path] == Manifest(Some(s))
    requires s == p.prior || (s == p.next && Ready(d, p))
    ensures var e := d["state.json" := d[path]] - {path};
            Allowed(e, p) && LoadState(e) == Ok(s)
  {
  }

  /** Errors after the candidate has taken the place of whatever had its name. */
  predicate Replaced(e: UpdateError) {
    || e in {CandidateUnhealthy, SaveFailed, ProjectFailed, PostSwitchUnhealthy}
    || e.ManifestNotRestored? || e.LinksNotRestored?
  }

  class Manager {
    const root: string
    const sha: Bytes -> string
    const verifier: Option<(Release, Bytes) -> bool>
    const hasBackup: bool
    const hasProject: bool
    const hasHealth: bool

    /** Whether everything works that the directory and the release let work. */
    const reliable: bool
    var dir: Dir
    var history: seq<Dir>
    var calls: seq<Call>

    constructor (root: string, sha: Bytes -> string, verifier: Option<(Release, Bytes) -> bool>,
                 hasBackup: bool, hasProject: bool, hasHealth: bool, reliable: bool, dir: Dir)
      ensures this.root == root && this.sha == sha && this.verifier == verifier
      ensures this.hasBackup == hasBackup && this.hasProject == hasProject && this.hasHealth == hasHealth
      ensures this.reliable == reliable && this.dir == dir && history == [] && calls == []
    {
      this.root, this.sha, this.verifier := root, sha, verifier;
      this.hasBackup, this.hasProject, this.hasHealth := hasBackup, hasProject, hasHealth;
      this.reliable := reliable;
      this.dir, history, calls := dir, [], [];
    }

    /** The downloaded bytes, if the release checks out. */
    function Accepted(release: Release, download: Option<Bytes>): set<Bytes> {
      if download.Some? && Verified(release, download.value, sha, verifier) then {download.value} else {}
    }

    function Projecting(ok: bool): seq<Call> { if hasProject then [ProjectCall(ok)] else [] }

    function Probing(slot: string, ok: bool): seq<Call> { if hasHealth then [HealthCall(slot, ok)] else [] }

    /** Nothing stands in the way of an update: no directory where a link has to go, and no slot where the
        backups have to go. */
    predicate Updatable(d: Dir) {
      Linkable(d) && !(hasBackup && "backups" in d && !d["backups"].Backups?)
    }

    lemma UpdatableMeans(d: Dir)
      ensures Linkable(d) <==> forall n :: n in {"current", "previous"} && n in d ==> !d[n].Backups?
      ensures Updatable(d) <==>
        && (forall n :: n in {"current", "previous"} && n in d ==> !d[n].Backups?)
        && (hasBackup && "backups" in d ==> d["backups"].Backups?)
    {
    }

    function BackingUp(ok: bool): seq<Call> { if hasBackup then [BackupCall(ok)] else [] }

    /** The plan is being followed: every state since `h0` is one it allows. */
    ghost predicate Following(p: Plan, h0: seq<Dir>)
      reads `dir, `history
    {
      && PlanOk(p) && Allowed(dir, p)
      && h0 <= history && AllAllowed(history, |h0|, p)
    }

    // -------------------------------------------------------------- system calls

    /** The file system in state `d`: remembered as a place where a crash may leave it. */
    method Become(d: Dir, ghost p: Plan, ghost h0: seq<Dir>)
      requires Following(p, h0) && Allowed(d, p)
      modifies `dir, `history
      ensures Following(p, h0) && dir == d && history == old(history) + [d]
    {
      AllAllowedSnoc(history, |h0|, d, p);
      dir := d;
      history := history + [d];
    }

    /** Some suffix that makes a new name. */
    method Unused(prefix: string) returns (suffix: string)
      ensures prefix + suffix !in dir
    {
      suffix := "0";
      var left := dir.Keys;
      while left != {}
        invariant left <= dir.Keys && forall n :: n in dir && n !in left ==> |n| < |suffix|
        decreases |left|
      {
        var n :| n in left;
        suffix := if |n| < |suffix| then suffix else n + "0";
        left := left - {n};
      }
    }

    /** Creates a new empty file under a hidden name that nothing has. */
    method CreateTemp(prefix: string, ghost p: Plan, ghost h0: seq<Dir>) returns (ok: bool, name: string)
      requires prefix != "" && prefix[0] == '.' && Following(p, h0)
      modifies `dir, `history
      ensures Following(p, h0) && LoadState(dir) == LoadState(old(dir))
      ensures Hidden(name) && (!ok ==> dir == old(dir))
      ensures ok ==> name !in old(dir) && Scratch(name, dir, p) && dir == old(dir)[name := Temp]
      ensures reliable ==> ok
    {
      var fault := Fault(reliable);
      var suffix: string := *;
      if reliable {
        suffix := Unused(prefix);
      }
      name := prefix + suffix;
      ok := !fault && name !in dir;
      if ok {
        FreeNameIsScratch(dir, name, p);
        ScratchIsAllowed(dir, dir[name := Temp], name, p);
        Become(dir[name := Temp], p, h0);
      }
    }

    /** Any change to a scratch file: partial or complete writes, mode changes, removal. */
    method Touch(name: string, content: Option<Entry>, ghost p: Plan, ghost h0: seq<Dir>) returns (ok: bool)
      requires Following(p, h0) && Scratch(name, dir, p)
      modifies `dir, `history
      ensures Following(p, h0) && LoadState(dir) == LoadState(old(dir)) && Scratch(name, dir, p)
      ensures !ok ==> dir == old(dir) || (content.Some? && dir == old(dir)[name := Temp])
      ensures ok ==> dir == if content.Some? then old(dir)[name := content.value] else old(dir) - {name}
      ensures reliable ==> ok
    {
      var fault := Fault(reliable);
      ok := !fault;
      var spoilt: bool := *;
      var d := dir;
      if ok {
        d := if content.Some? then dir[name := content.value] else dir - {name};
      } else if spoilt && name in dir && content.Some? {
        d := dir[name := Temp];
      }
      ScratchIsAllowed(dir, d, name, p);
      Become(d, p, h0);
    }

    /** rename(2) of a scratch file onto a name: atomic. */
    method RenameTo(name: string, target: string, ghost p: Plan, ghost h0: seq<Dir>) returns (ok: bool)
      requires Following(p, h0) && name in dir && name != target
      requires Allowed(dir[target := dir[name]] - {name}, p)
      modifies `dir, `history
      ensures Following(p, h0)
      ensures dir == if ok then old(dir)[target := old(dir)[name]] - {name} else old(dir)
      ensures reliable && !Occupied(old(dir), target) ==> ok
    {
      var fault := Fault(reliable);
      ok := !fault && !Occupied(dir, target);
      if ok {
        Become(dir[target := dir[name]] - {name}, p, h0);
      }
    }

    /** A temporary file with the given final content, to be renamed into place. Any of create,
        write, chmod and close may fail; the file is then removed again, or left behind. */
    method WriteTemp(prefix: string, content: Entry, ghost p: Plan, ghost h0: seq<Dir>) returns (ok: bool, name: string)
      requires prefix != "" && prefix[0] == '.' && Following(p, h0)
      modifies `dir, `history
      ensures Following(p, h0) && LoadState(dir) == LoadState(old(dir))
      ensures Hidden(name) && (!ok ==> Extends(dir, old(dir), {}))
      ensures ok ==> name !in old(dir) && Scratch(name, dir, p) && dir == old(dir)[name := content]
      ensures reliable ==> ok
    {
      hide Following, Scratch, LoadState, Extends;
      ExtendsNothing(dir, "");
      ok, name := CreateTemp(prefix, p, h0);
      if !ok {
        return;
      }
      var fault := Fault(reliable);
      ok := !fault;
      if ok {
        ok := Touch(name, Some(content), p, h0);
      }
      fault := Fault(reliable);
      ok := ok && !fault;
      if !ok {
        var _ := Touch(name, None, p, h0);
        StrayIsAllowed(dir, old(dir), name);
      }
    }

    // -------------------------------------------------------------- slots.go

    lemma ManifestSwitchHere(path: string, s: State, p: Plan, h0: seq<Dir>)
      requires Following(p, h0) && Scratch(path, dir, p) && path in dir && dir[path] == Manifest(Some(s))
      requires s == p.prior || (s == p.next && Ready(dir, p))
      ensures var e := dir["state.json" := dir[path]] - {path};
              Allowed(e, p) && LoadState(e) == Ok(s)
      ensures path != "state.json" && !Occupied(dir, "state.json")
    {
      ManifestSwitch(dir, path, s, p);
    }

    method SaveState(s: State, ghost p: Plan, ghost h0: seq<Dir>) returns (ok: bool)
      requires Following(p, h0)
      requires s == p.prior || (s == p.next && Ready(dir, p))
      modifies `dir, `history
      ensures Following(p, h0) && Extends(dir, old(dir), {"state.json"})
      ensures ok ==> "state.json" in dir && dir["state.json"] == Manifest(Some(s)) && LoadState(dir) == Ok(s)
      ensures !ok ==> LoadState(dir) == LoadState(old(dir)) && Extends(dir, old(dir), {})
      ensures reliable ==> ok
    {
      var path;
      ok, path := WriteTemp(".state-", Manifest(Some(s)), p, h0);
      if !ok {
        return;
      }
      hide Following, Scratch, LoadState, Allowed, Extends;
      ScratchEnds(old(dir), path, Manifest(Some(s)), "state.json");
      ManifestSwitchHere(path, s, p, h0);
      ok := RenameTo(path, "state.json", p, h0);
      if !ok {
        var _ := Touch(path, None, p, h0);
      }
    }

    lemma LinkSwitchHere(path: string, name: string, p: Plan, h0: seq<Dir>)
      requires Following(p, h0) && Scratch(path, dir, p) && path in dir
      requires "state.json" in dir && name in {"current", "previous"}
      ensures var e := dir[name := dir[path]] - {path}; Allowed(e, p) && LoadState(e) == LoadState(dir)
      ensures path != name && path != "state.json"
    {
      LinkSwitch(dir, path, name, p);
    }

    method ReplaceSymlink(name: string, target: string, ghost p: Plan, ghost h0: seq<Dir>) returns (ok: bool)
      requires Following(p, h0) && name in {"current", "previous"} && "state.json" in dir
      modifies `dir, `history
      ensures Following(p, h0) && LoadState(dir) == LoadState(old(dir))
      ensures Extends(dir, old(dir), {name})
      ensures ok ==> Readlink(dir, name) == Some(target)
      ensures reliable && !Occupied(old(dir), name) ==> ok
    {
      hide Following, Scratch, LoadState, Extends;
      var path;
      ok, path := CreateTemp("." + name + "-", p, h0);
      ExtendsNothing(old(dir), name);
      if !ok {
        return;
      }
      assert path != name;
      ScratchEnds(old(dir), path, Temp, name);
      ScratchEnds(old(dir), path, Link(target), name);
      var fault := Fault(reliable);
      if fault {
        var _ := Touch(path, None, p, h0);
        return false;
      }
      ok := Touch(path, None, p, h0);
      if !ok {
        return;
      }
      assert dir == old(dir);
      ok := Touch(path, Some(Link(target)), p, h0);
      if !ok {
        return;
      }
      LinkSwitchHere(path, name, p, h0);
      ok := RenameTo(path, name, p, h0);
      if !ok {
        var _ := Touch(path, None, p, h0);
      }
    }

    /** The removal of the previous link, whose failure is ignored. */
    method DropPrevious(ghost p: Plan, ghost h0: seq<Dir>)
      requires Following(p, h0) && "state.json" in dir
      modifies `dir, `history
      ensures Following(p, h0) && LoadState(dir) == LoadState(old(dir))
      ensures dir == old(dir) || dir == old(dir) - {"previous"}
    {
      var fault := Fault(reliable);
      if !fault {
        LoadStateFrameWithManifest(dir, dir - {"previous"});
        Become(dir - {"previous"}, p, h0);
      }
    }

    method ProjectState(s: State, ghost p: Plan, ghost h0: seq<Dir>) returns (ok: bool)
      requires Following(p, h0) && "state.json" in dir
      modifies `dir, `history, `calls
      ensures Following(p, h0) && LoadState(dir) == LoadState(old(dir))
      ensures Extends(dir, old(dir), {"current", "previous"})
      ensures ok ==> Projected(dir, s) && calls == old(calls) + Projecting(true)
      ensures reliable && Linkable(old(dir)) ==> ok
    {
      hide Following, LoadState, Extends;
      ExtendsMore(dir, dir, dir, {}, {}, {"current", "previous"});
      if hasProject {
        var fault := Fault(reliable);
        ok := !fault;
        calls := calls + [ProjectCall(ok)];
        if !ok {
          return;
        }
      }
      ok := ReplaceSymlink("current", s.current, p, h0);
      ExtendsMore(dir, old(dir), old(dir), {"current"}, {}, {"current", "previous"});
      if !ok {
        return;
      }
      ManifestKept(dir, old(dir));
      OccupiedKept(dir, old(dir), {"current"}, "previous");
      ghost var d1 := dir;
      if s.previous != "" {
        ok := ReplaceSymlink("previous", s.previous, p, h0);
        CurrentKept(dir, d1, s.current);
        ExtendsMore(dir, d1, old(dir), {"previous"}, {"current"}, {"current", "previous"});
      } else {
        DropPrevious(p, h0);
        PreviousDropped(dir, d1);
        ExtendsMore(dir, d1, old(dir), {"previous"}, {"current"}, {"current", "previous"});
      }
    }

    /** Compensation after the manifest named the new slot: it is written back and projected again. */
    method RestoreState(s: State, cause: UpdateError, ghost p: Plan, ghost h0: seq<Dir>) returns (e: UpdateError)
      requires Following(p, h0) && "state.json" in dir && s == p.prior
      requires cause in {ProjectFailed, PostSwitchUnhealthy}
      modifies `dir, `history, `calls
      ensures Following(p, h0) && Extends(dir, old(dir), RESERVED)
      ensures e in {cause, LinksNotRestored(cause), ManifestNotRestored(cause)}
      ensures e != ManifestNotRestored(cause) ==> LoadState(dir) == Ok(s)
      ensures e == ManifestNotRestored(cause) ==> LoadState(dir) == LoadState(old(dir))
      ensures e == cause ==> Projected(dir, s)
    {
      hide Following, LoadState, Extends;
      var ok := SaveState(s, p, h0);
      if !ok {
        ExtendsMore(dir, old(dir), old(dir), {}, {}, RESERVED) by { ExtendsNothing(old(dir), ""); }
        return ManifestNotRestored(cause);
      }
      ghost var d1 := dir;
      ok := ProjectState(s, p, h0);
      ExtendsMore(dir, d1, old(dir), {"current", "previous"}, {"state.json"}, RESERVED);
      e := if ok then cause else LinksNotRestored(cause);
    }

    // -------------------------------------------------------------- manager.go

    method LoadNow() returns (r: Result<State, UpdateError>)
      ensures r.Ok? ==> LoadState(dir) == Ok(r.value)
      ensures r.Err? ==> r.error == LoadFailed
      ensures reliable ==> (r.Ok? <==> LoadState(dir).Ok?)
    {
      var fault := Fault(reliable);
      var loaded := LoadState(dir);
      r := if fault || loaded.Err? then Err(LoadFailed) else Ok(loaded.value);
    }

    /** Any outcome, and any crash on the way, of one Apply or Rollback towards `next`. */
    ghost predicate Outcome(r: Result<(), UpdateError>, d0: Dir, h0: seq<Dir>, next: State, verified: set<Bytes>)
      reads `dir, `history
    {
      && LoadState(d0).Ok? && h0 <= history && AllSound(history, |h0|, d0, next, verified) &&
           Sound(dir, d0, next, verified)
      && (r.Ok? ==>
           LoadState(dir) == Ok(next) && "state.json" in dir && dir["state.json"] == Manifest(Some(next)) &&
             Projected(dir, next))
      && (r.Err? ==> LoadState(dir) == if r.error.ManifestNotRestored? then Ok(next) else LoadState(d0))
      && (r.Err? && r.error in {ProjectFailed, PostSwitchUnhealthy} ==> Projected(dir, LoadState(d0).value))
    }

    /** Errors reported before anything of the switch has happened. */
    predicate Early(e: UpdateError) {
      e !in {ProjectFailed, PostSwitchUnhealthy} && !e.ManifestNotRestored?
    }

    lemma NothingHappened(e: UpdateError, h0: seq<Dir>, next: State, verified: set<Bytes>)
      requires LoadState(dir).Ok? && h0 == history && Early(e)
      ensures Outcome(Err(e), dir, h0, next, verified)
    {
      forall trusted | Genuine(dir, trusted) ensures Genuine(dir, trusted + verified) { }
    }

    /** An outcome, read off the directory. */
    lemma OutcomeMeans(r: Result<(), UpdateError>, d0: Dir, h0: seq<Dir>, version: string, verified: set<Bytes>)
      requires LoadState(d0).Ok? && Outcome(r, d0, h0, State(version, LoadState(d0).value.current), verified)
      ensures var next := State(version, LoadState(d0).value.current);
              && (r.Ok? ==>
                   && "state.json" in dir && dir["state.json"] == Manifest(Some(next))
                   && "current" in dir && dir["current"] == Link(version)
                   && "previous" in dir && dir["previous"] == Link(next.previous))
              && (r.Err? ==> LoadState(dir) == if r.error.ManifestNotRestored? then Ok(next) else LoadState(d0))
              && h0 <= history
              && forall i :: |h0| <= i < |history| ==>
                   LoadState(history[i]) == LoadState(d0) || LoadState(history[i]) == Ok(next)
    {
      var next := State(version, LoadState(d0).value.current);
      LoadsExactly(d0, LoadState(d0).value);
      assert forall i :: |h0| <= i < |history| ==> Sound(history[i], d0, next, verified);
      hide LoadState, Safe, Distinct;
    }

    lemma Concludes(r: Result<(), UpdateError>, p: Plan, h0: seq<Dir>)
      requires Following(p, h0)
      requires r.Ok? ==>
        LoadState(dir) == Ok(p.next) && "state.json" in dir && dir["state.json"] == Manifest(Some(p.next)) &&
          Projected(dir, p.next)
      requires r.Err? ==> LoadState(dir) == Ok(if r.error.ManifestNotRestored? then p.next else p.prior)
      requires r.Err? && r.error in {ProjectFailed, PostSwitchUnhealthy} ==> Projected(dir, p.prior)
      ensures Outcome(r, p.d0, h0, p.next, Brought(p))
    {
      AllowedIsSound(dir, p);
      AllAllowedIsSound(history, |h0|, p);
    }

    method SwapSlots(s: State, ghost p: Plan, ghost h0: seq<Dir>) returns (r: Result<(), UpdateError>)
      requires h0 == history && LoadState(dir) == Ok(s) && s.previous != ""
      requires p == Plan(dir, s, State(s.previous, s.current), None, RESERVED)
      modifies `dir, `history, `calls
      ensures Outcome(r, old(dir), h0, p.next, {}) && Extends(dir, old(dir), RESERVED)
      ensures r.Ok? ==> calls == old(calls) + Projecting(true)
      ensures reliable && Linkable(old(dir)) ==> r.Ok?
    {
      ExtendsNothing(dir, "");
      assert Following(p, h0);
      hide Following, LoadState, Extends, Outcome, Safe, Sound, AllSound;
      ghost var d0 := dir;
      var next := State(s.previous, s.current);
      var ok := SaveState(next, p, h0);
      ghost var d1 := dir;
      if !ok {
        ExtendsMore(dir, d0, d0, {}, {}, RESERVED);
        Concludes(Err(SaveFailed), p, h0);
        return Err(SaveFailed);
      }
      LinkableKept(d1, d0, {"state.json"});
      ok := ProjectState(next, p, h0);
      ghost var d2 := dir;
      ExtendsMore(d2, d1, d0, {"current", "previous"}, {"state.json"}, RESERVED);
      ManifestKept(d2, d1);
      if !ok {
        var e := RestoreState(s, ProjectFailed, p, h0);
        ExtendsMore(dir, d2, d0, RESERVED, RESERVED, RESERVED);
        Concludes(Err(e), p, h0);
        return Err(e);
      }
      Concludes(Ok(()), p, h0);
      r := Ok(());
    }

    method Rollback() returns (r: Result<(), UpdateError>)
      modifies `dir, `history, `calls
      ensures LoadState(old(dir)).Err? || root == "" || LoadState(old(dir)).value.previous == "" ==>
                r.Err? && dir == old(dir) && history == old(history) && calls == old(calls)
      ensures LoadState(old(dir)).Ok? ==>
        var s := LoadState(old(dir)).value;
        Outcome(r, old(dir), old(history), State(s.previous, s.current), {})
      ensures Extends(dir, old(dir), RESERVED)
      ensures r.Ok? ==>
        var s := LoadState(old(dir)).value;
        && "state.json" in dir && dir["state.json"] == Manifest(Some(State(s.previous, s.current)))
        && "current" in dir && dir["current"] == Link(s.previous)
        && "previous" in dir && dir["previous"] == Link(s.current)
        && calls == old(calls) + if hasProject then [ProjectCall(true)] else []
      ensures reliable && Linkable(old(dir)) && r.Err? ==>
        LoadState(old(dir)).Err? || root == "" || LoadState(old(dir)).value.previous == ""
      ensures forall n ::
        n !in {"current", "previous", "state.json"} && (n in old(dir) || n == "" || n[0] != '.') ==>
          (n in dir <==> n in old(dir)) && (n in dir ==> dir[n] == old(dir)[n])
      ensures r.Err? && LoadState(old(dir)).Ok? ==>
        var s := LoadState(old(dir)).value;
        LoadState(dir) == Ok(if r.error.ManifestNotRestored? then State(s.previous, s.current) else s)
    {
      ghost var h0, d0 := history, dir;
      ExtendsNothing(dir, "");
      ExtendsMore(dir, dir, dir, {}, {}, RESERVED);
      if LoadState(dir).Ok? {
        forall e | Early(e) {
          NothingHappened(e, h0, State(LoadState(dir).value.previous, LoadState(dir).value.current), {});
        }
      }
      if root == "" {
        return Err(NoRoot);
      }
      var loaded := LoadNow();
      if loaded.Err? {
        return Err(loaded.error);
      }
      var s := loaded.value;
      if s.previous == "" {
        return Err(NoPrevious);
      }
      r := SwapSlots(s, Plan(dir, s, State(s.previous, s.current), None, RESERVED), h0);
      OutcomeMeans(r, d0, h0, s.previous, {});
      ExtendsMeans(dir, d0, RESERVED);
    }

    /** The embedder's backup callback: on success one more copy under "backups". */
    method RunBackup(ghost p: Plan, ghost h0: seq<Dir>) returns (ok: bool)
      requires Following(p, h0) && LoadState(dir) == Ok(p.prior)
      requires "backups" in p.keys || ("backups" in dir && !dir["backups"].Backups?)
      modifies `dir, `history, `calls
      ensures Following(p, h0) && LoadState(dir) == Ok(p.prior) && calls == old(calls) + [BackupCall(ok)]
      ensures Extends(dir, old(dir), p.keys)
      ensures ok ==> "backups" in dir && dir["backups"].Backups? && dir["backups"].copies > 0
      ensures KeepsBackups(old(dir), dir) && Extends(dir, old(dir), {"backups"})
      ensures reliable && !("backups" in old(dir) && !old(dir)["backups"].Backups?) ==> ok
    {
      var fault := Fault(reliable);
      ok := !fault;
      var was := if "backups" !in dir then 0 else if dir["backups"].Backups? then dir["backups"].copies else 0;
      if "backups" in dir && !dir["backups"].Backups? {
        ok := false;
      } else if ok {
        KeyTouch(dir, dir["backups" := Backups(was + 1)], "backups", p);
        Become(dir["backups" := Backups(was + 1)], p, h0);
      }
      calls := calls + [BackupCall(ok)];
    }

    /** The backup before an update, when the embedder has given one. */
    method BackUp(ghost p: Plan, ghost h0: seq<Dir>) returns (ok: bool)
      requires Following(p, h0) && LoadState(dir) == Ok(p.prior)
      requires "backups" in p.keys || ("backups" in dir && !dir["backups"].Backups?)
      modifies `dir, `history, `calls
      ensures Following(p, h0) && LoadState(dir) == Ok(p.prior) && calls == old(calls) + BackingUp(ok)
      ensures Extends(dir, old(dir), p.keys)
      ensures ok && hasBackup ==> "backups" in dir && dir["backups"].Backups?
      ensures KeepsBackups(old(dir), dir) && (!hasBackup ==> ok) && Extends(dir, old(dir), {"backups"})
      ensures reliable && !(hasBackup && "backups" in old(dir) && !old(dir)["backups"].Backups?) ==> ok
    {
      ok := true;
      ExtendsNothing(dir, "backups");
      ExtendsNothing(dir, "");
      ExtendsMore(dir, dir, dir, {}, {}, p.keys);
      if hasBackup {
        ok := RunBackup(p, h0);
      }
    }

    method CheckHealth(slot: string) returns (ok: bool)
      modifies `calls
      ensures calls == old(calls) + Probing(slot, ok) && (!hasHealth ==> ok) && (reliable ==> ok)
    {
      ok := true;
      if hasHealth {
        var fault := Fault(reliable);
        ok := !fault;
        calls := calls + [HealthCall(slot, ok)];
      }
    }

    /** RemoveAll of the candidate's name: all of it, or some of it, or nothing. */
    method RemoveCandidate(ghost p: Plan, ghost h0: seq<Dir>, version: string) returns (ok: bool)
      requires Following(p, h0) && LoadState(dir) == Ok(p.prior) && p.body.Some? && version == p.next.current
      modifies `dir, `history
      ensures Following(p, h0) && LoadState(dir) == Ok(p.prior) && SameExcept(dir, old(dir), version)
      ensures version in dir ==> !ok && version in old(dir) && dir[version].Backups? == old(dir)[version].Backups?
      ensures reliable ==> ok
    {
      var fault := Fault(reliable);
      ok := !fault;
      var left: nat := *;
      var d := dir;
      if ok {
        d := dir - {version};
      } else if version in dir && dir[version].Backups? && left <= dir[version].copies {
        d := dir[version := Backups(left)];
      }
      KeyTouch(dir, d, version, p);
      Become(d, p, h0);
    }

    lemma CandidateSwitch(p: Plan, h0: seq<Dir>, tmp: string, version: string, body: Bytes)
      requires Following(p, h0) && LoadState(dir) == Ok(p.prior) && p.body == Some(body) && version == p.next.current
      requires tmp in dir && Hidden(tmp) && (tmp in p.d0 ==> tmp in p.keys) && tmp != version &&
        dir[tmp] == Binary(body, true)
      ensures var e := dir[version := dir[tmp]] - {tmp}; Allowed(e, p) && LoadState(e) == Ok(p.prior)
    {
      var e := dir[version := dir[tmp]] - {tmp};
      KeyTouch(dir, dir[version := dir[tmp]], version, p);
      ScratchIsAllowed(dir[version := dir[tmp]], e, tmp, p);
    }

    /** The deferred removal of the candidate's temporary file. */
    method DropTemp(ghost p: Plan, ghost h0: seq<Dir>, tmp: string)
      requires Following(p, h0) && LoadState(dir) == Ok(p.prior) && Hidden(tmp) && (tmp in p.d0 ==> tmp in p.keys)
      modifies `dir, `history
      ensures Following(p, h0) && LoadState(dir) == Ok(p.prior)
      ensures dir == old(dir) || dir == old(dir) - {tmp}
    {
      var fault := Fault(reliable);
      if !fault {
        ScratchIsAllowed(dir, dir - {tmp}, tmp, p);
        Become(dir - {tmp}, p, h0);
      }
    }

    /** The verified bytes go to a temporary file, are made executable, and are renamed into the
        slot after anything that was there is removed. */
    method InstallCandidate(ghost p: Plan, ghost h0: seq<Dir>, version: string, body: Bytes) returns (ok: bool)
      requires Following(p, h0) && LoadState(dir) == Ok(p.prior) && p.body == Some(body) && version == p.next.current
      modifies `dir, `history
      ensures Following(p, h0) && LoadState(dir) == Ok(p.prior) && Extends(dir, old(dir), {version})
      ensures ok ==> version in dir && dir[version] == Binary(body, true)
      ensures reliable && !Hidden(version) ==> ok
    {
      hide Following, LoadState, Extends;
      ExtendsNothing(dir, version);
      var fault := Fault(reliable);
      if fault {
        return false;
      }
      var tmp;
      ok, tmp := WriteTemp(".candidate-", Binary(body, true), p, h0);
      if !ok {
        ExtendsMore(dir, old(dir), old(dir), {}, {}, {version});
        return;
      }
      ghost var d1 := dir;
      ok := RemoveCandidate(p, h0, version);
      CandidateEnds(old(dir), d1, dir, tmp, version);
      ok := ok && tmp in dir;
      if ok {
        CandidateSwitch(p, h0, tmp, version, body);
        ok := RenameTo(tmp, version, p, h0);
      }
      if !ok {
        DropTemp(p, h0, tmp);
      }
    }

    /** A deferred removal of the candidate, before the manifest named it. */
    method DiscardCandidate(ghost p: Plan, ghost h0: seq<Dir>, version: string)
      requires Following(p, h0) && LoadState(dir) == Ok(p.prior) && p.body.Some? && version == p.next.current
      modifies `dir, `history
      ensures Following(p, h0) && LoadState(dir) == Ok(p.prior) && Extends(dir, old(dir), {version})
      ensures version in dir ==> version in old(dir) && dir[version].Backups? == old(dir)[version].Backups?
    {
      hide Following, LoadState;
      var _ := RemoveCandidate(p, h0, version);
    }

    /** From the saved manifest on: projection and post-switch health, or compensation. */
    method Switch(ghost p: Plan, ghost h0: seq<Dir>, prior: State, next: State) returns (r: Result<(), UpdateError>)
      requires Following(p, h0) && prior == p.prior && next == p.next
      requires LoadState(dir) == Ok(next) && "state.json" in dir && dir["state.json"] == Manifest(Some(next))
      modifies `dir, `history, `calls
      ensures Following(p, h0) && Extends(dir, old(dir), RESERVED)
      ensures Outcome(r, p.d0, h0, p.next, Brought(p))
      ensures r.Ok? ==> calls == old(calls) + Projecting(true) + Probing("current", true)
      ensures r.Err? ==> Replaced(r.error) && r.error != CandidateUnhealthy
      ensures reliable && Linkable(old(dir)) ==> r.Ok?
    {
      hide Following, LoadState, Extends, Outcome;
      var ok := ProjectState(next, p, h0);
      ghost var d1 := dir;
      ExtendsNothing(old(dir), "");
      ExtendsMore(d1, old(dir), old(dir), {"current", "previous"}, {}, RESERVED);
      ManifestKept(d1, old(dir));
      var cause := ProjectFailed;
      if ok {
        ok := CheckHealth("current");
        cause := PostSwitchUnhealthy;
      }
      if !ok {
        var e := RestoreState(prior, cause, p, h0);
        ExtendsMore(dir, d1, old(dir), RESERVED, RESERVED, RESERVED);
        Concludes(Err(e), p, h0);
        return Err(e);
      }
      Concludes(Ok(()), p, h0);
      r := Ok(());
    }

    method CommitCandidate(s: State, version: string, body: Bytes, ghost p: Plan, ghost h0: seq<Dir>)
      returns (r: Result<(), UpdateError>)
      requires Following(p, h0) && LoadState(dir) == Ok(p.prior) && p.prior == s
      requires p.body == Some(body) && p.next == State(version, s.current) && version !in RESERVED
      requires version in dir && dir[version] == Binary(body, true)
      modifies `dir, `history, `calls
      ensures Outcome(r, p.d0, h0, p.next, {body})
      ensures Extends(dir, old(dir), RESERVED + {version})
      ensures r.Ok? ==> Extends(dir, old(dir), RESERVED) && version in dir && dir[version] == Binary(body, true)
      ensures r.Ok? ==> calls == old(calls) + Projecting(true) + Probing("current", true)
      ensures r.Err? ==> Replaced(r.error) && r.error != CandidateUnhealthy
      ensures version == "backups" ==> NoBackups(dir)
      ensures reliable && Linkable(old(dir)) ==> r.Ok?
    {
      hide Following, LoadState, Extends, Outcome;
      ghost var d0 := dir;
      var next := State(version, s.current);
      var ok := SaveState(next, p, h0);
      ghost var d1 := dir;
      ExtendsNothing(d0, "");
      ExtendsMore(d1, d0, d0, if ok then {"state.json"} else {}, {}, RESERVED);
      SlotKept(d1, d0, version);
      if !ok {
        DiscardCandidate(p, h0, version);
        ExtendsMore(dir, d1, d0, {version}, {}, RESERVED + {version});
        Concludes(Err(SaveFailed), p, h0);
        return Err(SaveFailed);
      }
      LinkableKept(d1, d0, {"state.json"});
      r := Switch(p, h0, s, next);
      if version == "backups" { SlotIsNoBackup(d1, dir); }
      ExtendsMore(dir, d1, d0, RESERVED, {"state.json"}, RESERVED);
      ExtendsMore(dir, d1, d0, RESERVED, {"state.json"}, RESERVED + {version});
      SlotKept(dir, d0, version);
    }

    /** Install, candidate health check, commit. */
    method TryCandidate(s: State, version: string, body: Bytes, ghost p: Plan, ghost h0: seq<Dir>)
      returns (r: Result<(), UpdateError>)
      requires Following(p, h0) && LoadState(dir) == Ok(p.prior) && p.prior == s
      requires p.body == Some(body) && p.next == State(version, s.current) && version !in RESERVED
      requires hasBackup ==> "backups" in dir && dir["backups"].Backups?
      modifies `dir, `history, `calls
      ensures Outcome(r, p.d0, h0, p.next, {body}) && Extends(dir, old(dir), RESERVED + {version})
      ensures r.Ok? ==> version in dir && dir[version] == Binary(body, true)
      ensures r.Ok? ==> calls == old(calls) + Probing(version, true) + Projecting(true) + Probing("current", true)
      ensures r == Err(CandidateUnhealthy) ==> hasHealth && calls == old(calls) + Probing(version, false)
      ensures r.Err? ==> r.error == PrepareFailed || Replaced(r.error)
      ensures version != "backups" ==> KeepsBackups(old(dir), dir)
      ensures version == "backups" && r != Err(PrepareFailed) ==> NoBackups(dir)
      ensures r.Ok? && hasBackup ==> ("backups" in dir && dir["backups"].Backups? <==> version != "backups")
      ensures reliable && !Hidden(version) && Linkable(old(dir)) ==> r.Ok?
    {
      hide Following, LoadState, Extends, Outcome;
      ghost var d0 := dir;
      var ok := InstallCandidate(p, h0, version, body);
      ghost var d1 := dir;
      ExtendsNothing(d0, version);
      ExtendsMore(d1, d0, d0, {version}, {}, RESERVED + {version});
      BackupsSurvive(d0, d1, {version});
      if !ok {
        Concludes(Err(PrepareFailed), p, h0);
        return Err(PrepareFailed);
      }
      ok := CheckHealth(version);
      if !ok {
        DiscardCandidate(p, h0, version);
        ExtendsMore(dir, d1, d0, {version}, {version}, RESERVED + {version});
        BackupsSurvive(d0, dir, RESERVED + {version});
        Concludes(Err(CandidateUnhealthy), p, h0);
        return Err(CandidateUnhealthy);
      }
      LinkableKept(d1, d0, {version});
      r := CommitCandidate(s, version, body, p, h0);
      ExtendsMore(dir, d1, d0, RESERVED + {version}, {version}, RESERVED + {version});
      BackupsSurvive(d0, dir, RESERVED + {version});
      if r.Ok? { BackupsKept(d1, dir, version); }
    }

    /** Apply once release and state have been checked. */
    method ApplyChecked(s: State, version: string, body: Bytes, ghost p: Plan, ghost h0: seq<Dir>)
      returns (r: Result<(), UpdateError>)
      requires h0 == history && LoadState(dir) == Ok(s) && ValidVersion(version)
      requires version != s.current && version != s.previous && p == ApplyPlan(dir, s, version, body)
      modifies `dir, `history, `calls
      ensures Outcome(r, old(dir), h0, p.next, {body}) && Extends(dir, old(dir), ApplyKeys(version, old(dir)))
      ensures r.Ok? ==> version in dir && dir[version] == Binary(body, true)
      ensures r.Ok? ==>
        calls == old(calls) + BackingUp(true) + Probing(version, true) + Projecting(true) + Probing("current", true)
      ensures r == Err(BackupFailed) ==> hasBackup && calls == old(calls) + BackingUp(false)
      ensures r == Err(CandidateUnhealthy) ==>
        hasHealth && calls == old(calls) + BackingUp(true) + Probing(version, false)
      ensures r.Ok? && hasBackup ==> ("backups" in dir && dir["backups"].Backups? <==> version != "backups")
      ensures version != "backups" || r == Err(BackupFailed) ==> KeepsBackups(old(dir), dir)
      ensures version == "backups" && (r.Ok? || Replaced(r.error)) ==> NoBackups(dir)
      ensures r.Err? ==> r.error in {BackupFailed, PrepareFailed} || Replaced(r.error)
      ensures reliable && !Hidden(version) && Updatable(old(dir)) ==> r.Ok?
    {
      ApplyPlanOk(dir, s, version, body);
      assert Following(p, h0);
      ghost var d0, keys := dir, ApplyKeys(version, dir);
      ExtendsNothing(dir, version);
      ExtendsMore(dir, dir, dir, {}, {}, keys);
      hide Following, LoadState, Extends, Outcome;
      var ok := BackUp(p, h0);
      if !ok {
        Concludes(Err(BackupFailed), p, h0);
        return Err(BackupFailed);
      }
      ghost var d1 := dir;
      LinkableKept(d1, d0, {"backups"});
      r := TryCandidate(s, version, body, p, h0);
      ExtendsMore(dir, d1, d0, RESERVED + {version}, keys, keys);
    }

    /** The checks before an update: configuration, download, verification, manifest, version. */
    method Admit(release: Release, download: Option<Bytes>) returns (e: Option<UpdateError>, s: State)
      ensures e.None? ==>
        && LoadState(dir) == Ok(s) && ValidVersion(release.version) && release.version !in {s.current, s.previous}
        && download.Some? && root != "" && Accepted(release, download) == {download.value}
      ensures e == Some(Unverified) ==> Accepted(release, download) == {}
      ensures reliable && e.Some? ==>
        || root == "" || Accepted(release, download) == {} || LoadState(dir).Err?
        || release.version in {LoadState(dir).value.current, LoadState(dir).value.previous}
      ensures e.Some? ==> Early(e.value) && !Replaced(e.value) && e.value !in {BackupFailed, PrepareFailed}
    {
      s := State("", "");
      if root == "" {
        return Some(NoRoot), s;
      }
      if download.None? {
        return Some(DownloadFailed), s;
      }
      if !Verified(release, download.value, sha, verifier) {
        return Some(Unverified), s;
      }
      var loaded := LoadNow();
      if loaded.Err? {
        return Some(loaded.error), s;
      }
      s := loaded.value;
      e := if release.version == s.current || release.version == s.previous then Some(AlreadySlot) else None;
    }

    /** An update in the terms of its plan. */
    method Attempt(release: Release, download: Option<Bytes>) returns (r: Result<(), UpdateError>)
      modifies `dir, `history, `calls
      ensures LoadState(old(dir)).Err? || root == "" || Accepted(release, download) == {} ||
              release.version in {LoadState(old(dir)).value.current, LoadState(old(dir)).value.previous} ==>
                r.Err? && dir == old(dir) && history == old(history) && calls == old(calls)
      ensures r == Err(Unverified) ==> Accepted(release, download) == {}
      ensures reliable && !Hidden(release.version) && Updatable(old(dir)) && r.Err? ==>
        || LoadState(old(dir)).Err? || root == "" || Accepted(release, download) == {}
        || release.version in {LoadState(old(dir)).value.current, LoadState(old(dir)).value.previous}
      ensures Extends(dir, old(dir), ApplyKeys(release.version, old(dir)))
      ensures LoadState(old(dir)).Ok? ==>
        Outcome(r, old(dir), old(history), State(release.version, LoadState(old(dir)).value.current),
                Accepted(release, download))
      ensures r.Ok? ==>
        && release.version in dir && dir[release.version] == Binary(download.value, true)
        && calls == old(calls) + BackingUp(true) + Probing(release.version, true)
                    + Projecting(true) + Probing("current", true)
        && (hasBackup ==> ("backups" in dir && dir["backups"].Backups? <==> release.version != "backups"))
      ensures r == Err(BackupFailed) ==> hasBackup && calls == old(calls) + BackingUp(false)
      ensures r == Err(CandidateUnhealthy) ==>
        hasHealth && calls == old(calls) + BackingUp(true) + Probing(release.version, false)
      ensures release.version != "backups" || (r.Err? && r.error != PrepareFailed && !Replaced(r.error)) ==>
                KeepsBackups(old(dir), dir)
      ensures release.version == "backups" && (r.Ok? || Replaced(r.error)) ==> NoBackups(dir)
    {
      ghost var h0 := history;
      ExtendsNothing(dir, "");
      ExtendsMore(dir, dir, dir, {}, {}, ApplyKeys(release.version, dir));
      if LoadState(dir).Ok? {
        forall e | Early(e) {
          NothingHappened(e, h0, State(release.version, LoadState(dir).value.current), Accepted(release, download));
        }
      }
      assert KeepsBackups(dir, dir);
      hide Outcome, Extends, LoadState, KeepsBackups, NoBackups, ApplyKeys, HexDigest, ValidVersion;
      var refused, s := Admit(release, download);
      if refused.Some? {
        return Err(refused.value);
      }
      r := ApplyChecked(s, release.version, download.value, ApplyPlan(dir, s, release.version, download.value), h0);
    }

    lemma AcceptedMeans(release: Release, download: Option<Bytes>)
      ensures Accepted(release, download) != {} <==>
              && download.Some?
              && release.version !in {"", ".", "..", "current", "previous", "state.json"} && '/' !in release.version
              && release.binaryURL != "" && release.signature != []
              && |release.sha256| == 64 && (forall c :: c in release.sha256 ==> '0' <= c <= '9' || 'a' <= c <= 'f')
              && sha(download.value) == release.sha256 && verifier.Some? && verifier.value(release, download.value)
      ensures Accepted(release, download) != {} ==> Accepted(release, download) == {download.value}
    {
      if download.Some? { VerifiedMeans(release, download.value, sha, verifier); }
      hide Verified;
    }

    /** One update. A directory without a loadable state is refused and left alone. */
    method Apply(release: Release, download: Option<Bytes>) returns (r: Result<(), UpdateError>)
      modifies `dir, `history, `calls
      ensures r.Ok? ==>
        && root != "" && download.Some? && LoadState(old(dir)).Ok?
        && release.version !in {LoadState(old(dir)).value.current, LoadState(old(dir)).value.previous}
        && release.version !in {"", ".", "..", "current", "previous", "state.json"} && '/' !in release.version
        && release.binaryURL != "" && release.signature != []
        && |release.sha256| == 64 && (forall c :: c in release.sha256 ==> '0' <= c <= '9' || 'a' <= c <= 'f')
        && sha(download.value) == release.sha256 && verifier.Some? && verifier.value(release, download.value)
      ensures
        || LoadState(old(dir)).Err? || root == "" || download.None?
        || release.version in {LoadState(old(dir)).value.current, LoadState(old(dir)).value.previous}
        || release.version in {"", ".", "..", "current", "previous", "state.json"} || '/' in release.version
        || release.binaryURL == "" || release.signature == []
        || |release.sha256| != 64 || (exists c :: c in release.sha256 && !('0' <= c <= '9' || 'a' <= c <= 'f'))
        || sha(download.value) != release.sha256 || verifier.None? || !verifier.value(release, download.value) ==>
          r.Err? && dir == old(dir) && history == old(history) && calls == old(calls)
      ensures forall n ::
        n !in {"current", "previous", "state.json", "backups", release.version} &&
          (n in old(dir) || n == "" || n[0] != '.') ==>
            (n in dir <==> n in old(dir)) && (n in dir ==> dir[n] == old(dir)[n])
      ensures release.version != "backups" && "backups" in old(dir) && old(dir)["backups"].Backups? ==>
        "backups" in dir && dir["backups"].Backups? && dir["backups"].copies >= old(dir)["backups"].copies
      ensures r.Err? && LoadState(old(dir)).Ok? ==>
        LoadState(dir) ==
          if r.error.ManifestNotRestored? then Ok(State(release.version, LoadState(old(dir)).value.current))
          else LoadState(old(dir))
      ensures old(history) <= history && forall i :: |old(history)| <= i < |history| ==>
        || LoadState(history[i]) == LoadState(old(dir))
        || LoadState(history[i]) == Ok(State(release.version, LoadState(old(dir)).value.current))
      ensures reliable && Updatable(old(dir)) && r.Err? ==>
        || LoadState(old(dir)).Err? || root == "" || download.None?
        || release.version in {LoadState(old(dir)).value.current, LoadState(old(dir)).value.previous}
        || release.version in {"", ".", "..", "current", "previous", "state.json"} || '/' in release.version
        || release.version[0] == '.' || release.binaryURL == "" || release.signature == []
        || |release.sha256| != 64 || (exists c :: c in release.sha256 && !('0' <= c <= '9' || 'a' <= c <= 'f'))
        || sha(download.value) != release.sha256 || verifier.None? || !verifier.value(release, download.value)
      ensures r == Err(Unverified) ==>
        || download.None?
        || release.version in {"", ".", "..", "current", "previous", "state.json"} || '/' in release.version
        || release.binaryURL == "" || release.signature == []
        || |release.sha256| != 64 || (exists c :: c in release.sha256 && !('0' <= c <= '9' || 'a' <= c <= 'f'))
        || sha(download.value) != release.sha256 || verifier.None? || !verifier.value(release, download.value)
      ensures Extends(dir, old(dir), ApplyKeys(release.version, old(dir)))
      ensures LoadState(old(dir)).Ok? ==>
        Outcome(r, old(dir), old(history), State(release.version, LoadState(old(dir)).value.current),
                Accepted(release, download))
      ensures r.Ok? ==>
        && release.version in dir && dir[release.version] == Binary(download.value, true)
        && "state.json" in dir && dir["state.json"] ==
             Manifest(Some(State(release.version, LoadState(old(dir)).value.current)))
        && "current" in dir && dir["current"] == Link(release.version)
        && "previous" in dir && dir["previous"] == Link(LoadState(old(dir)).value.current)
        && calls == old(calls) + (if hasBackup then [BackupCall(true)] else [])
                    + (if hasHealth then [HealthCall(release.version, true)] else [])
                    + (if hasProject then [ProjectCall(true)] else [])
                    + (if hasHealth then [HealthCall("current", true)] else [])
        && (hasBackup ==> ("backups" in dir && dir["backups"].Backups? <==> release.version != "backups"))
      ensures r == Err(BackupFailed) ==> hasBackup && calls == old(calls) + [BackupCall(false)]
      ensures r == Err(CandidateUnhealthy) ==>
        hasHealth && calls == old(calls) + (if hasBackup then [BackupCall(true)] else [])
                              + [HealthCall(release.version, false)]
      ensures release.version != "backups" || (r.Err? && r.error != PrepareFailed && !Replaced(r.error)) ==>
                KeepsBackups(old(dir), dir)
      ensures release.version == "backups" && (r.Ok? || Replaced(r.error)) ==> NoBackups(dir)
    {
      AcceptedMeans(release, download);
      hide Accepted, Outcome, Extends, LoadState, KeepsBackups, NoBackups, ApplyKeys, Replaced;
      ghost var h0, d0 := history, dir;
      r := Attempt(release, download);
      OtherNamesStay(release.version, d0, dir);
      if LoadState(d0).Ok? {
        OutcomeMeans(r, d0, h0, release.version, Accepted(release, download));
      }
    }

    function BroughtBy(c: Command): set<Bytes> {
      if c.ApplyRelease? then Accepted(c.release, c.download) else {}
    }

    /** Every body that any of the commands could legitimately install. */
    function Offered(commands: seq<Command>): set<Bytes> {
      if commands == [] then {}
      else
        var last := commands[|commands| - 1];
        Offered(commands[..|commands| - 1]) + BroughtBy(last)
    }

    /** What those bodies are: exactly the downloads of update commands whose release checks out. */
    lemma {:induction false} OfferedMeans(commands: seq<Command>, b: Bytes)
      ensures b in Offered(commands) <==>
              exists i :: 0 <= i < |commands| && commands[i].ApplyRelease? && commands[i].download == Some(b) &&
                var r := commands[i].release;
                && r.version !in {"", ".", "..", "current", "previous", "state.json"} && '/' !in r.version
                && r.binaryURL != "" && r.signature != []
                && |r.sha256| == 64 && (forall c :: c in r.sha256 ==> '0' <= c <= '9' || 'a' <= c <= 'f')
                && sha(b) == r.sha256 && verifier.Some? && verifier.value(r, b)
    {
      if commands != [] {
        var n := |commands| - 1;
        OfferedMeans(commands[..n], b);
        if commands[n].ApplyRelease? { AcceptedMeans(commands[n].release, commands[n].download); }
        hide Accepted;
      }
    }

    /** One command, cut off by a crash if `crash` picks one of its states. */
    method RunOne(command: Command, crash: nat, ghost d0: Dir, ghost trusted: set<Bytes>)
      requires Endures(dir, d0, trusted)
      modifies `dir, `history, `calls
      ensures old(history) <= history && Endures(dir, d0, trusted + BroughtBy(command))
      ensures forall i :: |old(history)| <= i < |history| ==> Endures(history[i], d0, trusted + BroughtBy(command))
    {
      hide LoadState, Accepted;
      var start := |history|;
      ghost var before, next := dir, State("", "");
      match command {
        case ApplyRelease(release, download) =>
          next := State(release.version, LoadState(dir).value.current);
          var _ := Apply(release, download);
        case RollBack =>
          next := State(LoadState(dir).value.previous, LoadState(dir).value.current);
          var _ := Rollback();
      }
      SoundEndures(history, start, before, next, BroughtBy(command), d0, trusted);
      SoundStateEndures(dir, before, next, BroughtBy(command), d0, trusted);
      if start <= crash < |history| {
        dir := history[crash];
      }
    }

    /** Slot safety over whole runs: any sequence of updates and rollbacks, with any system call
        failing and any command cut off by a crash after any step (`crashes[i]` picks the state left
        behind), only ever leaves bootable slot pairs with current and previous apart, and only ever
        names bytes that were trusted at the start or came with a verified release. */
    method AnyRun(commands: seq<Command>, crashes: seq<nat>, ghost trusted: set<Bytes>)
      requires |crashes| == |commands| && Genuine(dir, trusted)
      modifies `dir, `history, `calls
      ensures old(history) <= history
      ensures
        forall i :: |old(history)| <= i <= |history| ==>
          var d := if i < |history| then history[i] else dir;
          var s := LoadState(d);
          && s.Ok? && s.value.current in d && d[s.value.current].Binary? && d[s.value.current].executable
          && d[s.value.current].body in trusted + Offered(commands)
          && (s.value.previous != "" ==>
               && s.value.previous in d && d[s.value.previous].Binary? && d[s.value.previous].executable
               && d[s.value.previous].body in trusted + Offered(commands))
          && (LoadState(old(dir)).value.current != LoadState(old(dir)).value.previous ==>
               s.value.current != s.value.previous)
    {
      assert LoadState(dir).Ok? && Endures(dir, dir, trusted);
      assert trusted + Offered(commands[..0]) == trusted;
      hide LoadState, BroughtBy, Endures;
      ghost var d0, h0 := dir, history;
      for k := 0 to |commands|
        invariant h0 <= history
        invariant Endures(dir, d0, trusted + Offered(commands[..k]))
        invariant forall i :: |h0| <= i < |history| ==> Endures(history[i], d0, trusted + Offered(commands[..k]))
      {
        ghost var start, ok := |history|, trusted + Offered(commands[..k]);
        RunOne(commands[k], crashes[k], d0, ok);
        assert commands[..k + 1][..k] == commands[..k];
        assert trusted + Offered(commands[..k + 1]) == ok + BroughtBy(commands[k]);
        forall i | |h0| <= i < start ensures Endures(history[i], d0, ok + BroughtBy(commands[k])) {
          EnduresMore(history[i], d0, ok, ok + BroughtBy(commands[k]));
        }
      }
      assert commands[..|commands|] == commands;
      EnduresMeans(history, |h0|, dir, d0, trusted + Offered(commands));
    }

    /** Two successful rollbacks in a row restore the manifest and the links. */
    method RollbackTwice() returns (ok: bool)
      modifies `dir, `history, `calls
      ensures ok ==>
        LoadState(old(dir)).Ok? && LoadState(dir) == LoadState(old(dir)) && Projected(dir, LoadState(dir).value)
      ensures ok ==>
        LoadState(old(dir)).Ok? && "state.json" in dir && dir["state.json"] == Manifest(Some(LoadState(old(dir)).value))
      ensures reliable && root != "" && Linkable(old(dir)) && LoadState(old(dir)).Ok? ==>
        (ok <==> LoadState(old(dir)).value.previous != "")
    {
      if LoadState(dir).Ok? { LoadsExactly(dir, LoadState(dir).value); }
      var r := Rollback();
      if r.Ok? {
        r := Rollback();
      }
      ok := r.Ok?;
    }
  }
}
