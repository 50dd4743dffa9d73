/** Backup archives: what a tree walk writes, and what unpacking it into a directory rebuilds.
    The gzip and tar framing is the identity here: an archive is its sequence of entries. */
module Archive {
  import opened Text
  import opened Faults
  import opened Paths

  datatype Item = Dir | File(bytes: seq<byte>) | Symlink | Socket | Device

  /** A directory tree by path below its root; [] is the root itself. */
  type Tree = map<seq<string>, Item>

  function Parent(p: seq<string>): seq<string>
    requires p != []
  {
    p[..|p| - 1]
  }

  ghost predicate WellFormed(t: Tree) {
    && [] in t && t[[]] == Dir
    && forall p :: p in t && p != [] ==> Names(p) && Parent(p) in t && t[Parent(p)] == Dir
  }

  datatype Kind = Directory | Regular | LinkEntry | OtherEntry

  datatype Entry = Entry(name: string, kind: Kind, body: seq<byte>)

  /** The header and body the walk writes for one path. Links and sockets have none. */
  function Header(p: seq<string>, item: Item): Entry {
    match item
    case Dir => Entry(JoinSlash(p), Directory, [])
    case File(b) => Entry(JoinSlash(p), Regular, b)
    case _ => Entry(JoinSlash(p), OtherEntry, [])
  }

  predicate Archivable(item: Item) { !item.Symlink? && !item.Socket? }

  function PathOf(e: Entry): seq<string> { Split(e.name) }

  ghost predicate Describes(e: Entry, t: Tree) {
    var p := PathOf(e);
    p in t && p != [] && Archivable(t[p]) && e == Header(p, t[p])
  }

  /** `es` has exactly one entry for each path in `s`, and it is the right one. */
  ghost predicate Covers(es: seq<Entry>, t: Tree, s: set<seq<string>>) {
    && (forall i :: 0 <= i < |es| ==> PathOf(es[i]) in s)
    && (forall i :: 0 <= i < |es| ==> Describes(es[i], t))
    && (forall p :: p in s ==> exists i :: 0 <= i < |es| && PathOf(es[i]) == p)
    && (forall i, j :: 0 <= i < j < |es| ==> PathOf(es[i]) != PathOf(es[j]))
  }

  /** An archive of the whole tree, its entries in any order. */
  ghost predicate ArchiveOf(es: seq<Entry>, t: Tree) { Covers(es, t, t.Keys - {[]}) }

  // ---------------------------------------------------------------- unpacking

  datatype ExtractError = EscapesRoot | LinkRejected | Unsupported | NotADirectory | NotAFile | IoFault

  /** The cleaned name, unless it is refused. */
  function CleanName(name: string): Result<string, ExtractError> {
    var n := Clean(name);
    if n == "." || IsAbs(n) || Escapes(n) then Err(EscapesRoot) else Ok(n)
  }

  function MkdirAll(t: Tree, p: seq<string>): Result<Tree, ExtractError> {
    if p in t then if t[p] == Dir then Ok(t) else Err(NotADirectory)
    else if p == [] then Ok(t[p := Dir])
    else
      var up := MkdirAll(t, Parent(p));
      if up.Err? then up else Ok(up.value[p := Dir])
  }

  /** What one entry does to the tree being rebuilt. */
  function Unpack(t: Tree, e: Entry): Result<Tree, ExtractError> {
    var name := CleanName(e.name);
    if name.Err? then Err(name.error)
    else
      var p := Split(name.value);
      match e.kind
      case LinkEntry => Err(LinkRejected)
      case Directory => MkdirAll(t, p)
      case OtherEntry => Err(Unsupported)
      case Regular =>
        var up := MkdirAll(t, Parent(p));
        if up.Err? then up
        else if p in up.value && !up.value[p].File? then Err(NotAFile)
        else Ok(up.value[p := File(e.body)])
  }

  function UnpackAll(t: Tree, es: seq<Entry>): Result<Tree, ExtractError>
    decreases |es|
  {
    if es == [] then Ok(t)
    else
      var r := Unpack(t, es[0]);
      if r.Err? then r else UnpackAll(r.value, es[1..])
  }

  const EMPTY: Tree := map[[] := Dir]

  // ---------------------------------------------------------------- names and containment

  /** An accepted name, whatever the archive said, cleans to plain names below the root; so the
      second, Rel-based test of the extractor never fires. */
  lemma AcceptedNameStaysInside(root: Parts, name: string)
    requires Canonical(root) && root.comps != [] && Name(root.comps[|root.comps| - 1])
    requires CleanName(name).Ok?
    ensures var n := CleanName(name).value; var p := Split(n);
            && Names(p) && JoinSlash(p) == n
            && JoinAll([Render(root), n]) == Render(Parts(root.rooted, root.comps + p))
            && Rel(Render(root), JoinAll([Render(root), n])) == Ok(n) && !Escapes(n)
  {
    var x := Parse(name);
    var n := Clean(name);
    ParseIsCanonical(name);
    ParseRender(x);
    NormalIsPlain(x.rooted, x.comps);
    assert !x.rooted && x.comps != [];
    EscapesIffUp(x.comps);
    SplitJoin(x.comps);
    assert Name(x.comps[0]) && Names(x.comps);
    ParseRender(root);
    assert Render(root) != "" by { if Render(root) == "" { ParseEmpty(); } }
    ParseJoin(Render(root), n);
    NormOfNames(root.rooted, root.comps, x.comps);
    RelOfPrefix(root, Parts(root.rooted, root.comps + x.comps));
    assert (root.comps + x.comps)[|root.comps|..] == x.comps;
  }

  /** Which names are refused: absolute ones, ones that clean to nothing, and ones that climb out. */
  lemma NameRefusedIff(name: string)
    ensures CleanName(name).Err? <==>
              (name != "" && name[0] == '/') || Clean(name) == "." || Split(Clean(name))[0] == ".."
    ensures CleanName(name) == if CleanName(name).Ok? then Ok(Clean(name)) else Err(EscapesRoot)
  {
    var x := Parse(name);
    ParseIsCanonical(name);
    NormalIsPlain(x.rooted, x.comps);
    if !x.rooted && x.comps != [] {
      EscapesIffUp(x.comps);
      SplitJoin(x.comps);
      assert Name(x.comps[0]) || x.comps[0] == "..";
      JoinSlashStart(x.comps);
    }
    SplitPlain(".");
    hide Parse;
  }

  /** A name the walk emits passes the extractor's cleaning unchanged. */
  lemma EmittedNameIsClean(p: seq<string>)
    requires p != [] && Names(p)
    ensures CleanName(JoinSlash(p)) == Ok(JoinSlash(p)) && Split(JoinSlash(p)) == p
  {
    ParseRender(Parts(false, p));
    NormalIsPlain(false, p);
    EscapesIffUp(p);
    SplitJoin(p);
    JoinSlashStart(p);
    if JoinSlash(p) == "." { SplitPlain("."); }
  }

  // ---------------------------------------------------------------- the round trip

  /** `s` is a piece of `t` as far as names and kinds go; the bytes of its files may be stale. This
      is what an interrupted extraction of an archive of `t` leaves behind. */
  ghost predicate PieceOf(s: Tree, t: Tree) {
    [] in s && forall p :: p in s ==> p in t && (s[p] == t[p] || (s[p].File? && t[p].File?))
  }

  /** Nothing of `s` that was already as in `t` is disturbed in `r`. */
  ghost predicate Keeps(s: Tree, r: Tree, t: Tree) {
    s.Keys <= r.Keys && forall p :: p in s && p in t && s[p] == t[p] ==> r[p] == t[p]
  }

  lemma {:induction false} MkdirInPiece(s: Tree, t: Tree, p: seq<string>)
    requires WellFormed(t) && PieceOf(s, t) && p in t && t[p] == Dir
    ensures MkdirAll(s, p).Ok? && PieceOf(MkdirAll(s, p).value, t) && Keeps(s, MkdirAll(s, p).value, t)
    ensures p in MkdirAll(s, p).value && MkdirAll(s, p).value[p] == Dir
  {
    if p !in s { MkdirInPiece(s, t, Parent(p)); }
  }

  lemma UnpackInPiece(s: Tree, t: Tree, p: seq<string>)
    requires WellFormed(t) && PieceOf(s, t) && p in t && p != [] && Archivable(t[p])
    ensures var r := Unpack(s, Header(p, t[p]));
            if t[p].Device? then r == Err(Unsupported)
            else r.Ok? && PieceOf(r.value, t) && Keeps(s, r.value, t) && p in r.value && r.value[p] == t[p]
  {
    EmittedNameIsClean(p);
    if t[p] == Dir { MkdirInPiece(s, t, p); } else { MkdirInPiece(s, t, Parent(p)); }
  }

  /** Every entry describes a path of `t`. */
  ghost predicate AllDescribe(es: seq<Entry>, t: Tree) {
    forall i :: 0 <= i < |es| ==> Describes(es[i], t)
  }

  ghost predicate IsDevice(e: Entry, t: Tree) { PathOf(e) in t && t[PathOf(e)].Device? }

  ghost predicate AnyDevice(es: seq<Entry>, t: Tree) {
    exists i :: 0 <= i < |es| && IsDevice(es[i], t)
  }

  /** Every path that has an entry is in `r` as it is in `t`. */
  ghost predicate Rebuilt(es: seq<Entry>, r: Tree, t: Tree) {
    forall i :: 0 <= i < |es| ==> PathOf(es[i]) in t && PathOf(es[i]) in r && r[PathOf(es[i])] == t[PathOf(es[i])]
  }

  lemma AnyDeviceSplit(es: seq<Entry>, t: Tree)
    requires es != []
    ensures AnyDevice(es, t) <==> IsDevice(es[0], t) || AnyDevice(es[1..], t)
  {
    if AnyDevice(es[1..], t) {
      var i :| 0 <= i < |es[1..]| && IsDevice(es[1..][i], t);
      assert IsDevice(es[i + 1], t);
    }
    if AnyDevice(es, t) {
      var i :| 0 <= i < |es| && IsDevice(es[i], t);
      assert i > 0 ==> IsDevice(es[1..][i - 1], t);
    }
  }

  lemma RebuiltSplit(es: seq<Entry>, r: Tree, t: Tree)
    requires es != [] && Rebuilt(es[1..], r, t)
    requires PathOf(es[0]) in t && PathOf(es[0]) in r && r[PathOf(es[0])] == t[PathOf(es[0])]
    ensures Rebuilt(es, r, t)
  {
    assert forall i :: 1 <= i < |es| ==> es[i] == es[1..][i - 1];
  }

  lemma NothingToRebuild(r: Tree, t: Tree)
    ensures Rebuilt([], r, t)
  {
  }

  lemma {:induction false} UnpackAllInPiece(s: Tree, t: Tree, es: seq<Entry>)
    requires WellFormed(t) && PieceOf(s, t) && AllDescribe(es, t)
    ensures var r := UnpackAll(s, es);
            if AnyDevice(es, t) then r == Err(Unsupported)
            else r.Ok? && PieceOf(r.value, t) && Keeps(s, r.value, t) && Rebuilt(es, r.value, t)
    decreases |es|
  {
    hide Header, WellFormed, PieceOf, Unpack, Rebuilt;
    if es != [] {
      assert Describes(es[0], t);
      UnpackInPiece(s, t, PathOf(es[0]));
      AnyDeviceSplit(es, t);
      var r := Unpack(s, es[0]);
      if r.Ok? {
        assert AllDescribe(es[1..], t);
        UnpackAllInPiece(r.value, t, es[1..]);
        if !AnyDevice(es, t) { RebuiltSplit(es, UnpackAll(s, es).value, t); }
      }
    } else {
      NothingToRebuild(s, t);
    }
  }

  /** Round trip. Unpacking an archive of a tree rebuilds exactly the same paths and bytes, in
      whatever order the entries come, into an empty directory or over the remains of an interrupted
      extraction. It fails just when the tree holds a special file, which the walk archives and the
      extractor refuses. */
  lemma {:induction false} RoundTrip(s: Tree, t: Tree, es: seq<Entry>)
    requires WellFormed(t) && ArchiveOf(es, t) && PieceOf(s, t)
    ensures UnpackAll(s, es) ==
            if exists p :: p in t && t[p].Device? then Err(Unsupported) else Ok(t)
  {
    UnpackAllInPiece(s, t, es);
    if p :| p in t && t[p].Device? {
      assert p in t.Keys - {[]};
      var i :| 0 <= i < |es| && PathOf(es[i]) == p;
      assert IsDevice(es[i], t);
    } else {
      var r := UnpackAll(s, es).value;
      forall p | p in t ensures p in r && r[p] == t[p] {
        if p != [] {
          assert p in t.Keys - {[]};
          var i :| 0 <= i < |es| && PathOf(es[i]) == p;
        }
      }
      assert r == t;
    }
  }

  lemma {:induction false} MkdirEffect(t: Tree, p: seq<string>)
    requires MkdirAll(t, p).Ok?
    ensures var r := MkdirAll(t, p).value;
            (forall q :: q in t ==> q in r && r[q] == t[q]) && forall q :: q in r && q !in t ==> q <= p
  {
    if p !in t && p != [] { MkdirEffect(t, Parent(p)); }
  }

  /** The path is an entry's, or on the way to it. */
  ghost predicate Leading(q: seq<string>, e: Entry) { q <= Split(Clean(e.name)) }

  ghost predicate LeadingAny(q: seq<string>, es: seq<Entry>) { exists i :: 0 <= i < |es| && Leading(q, es[i]) }

  /** Nothing of `t` goes or changes its kind in `r`, and what is new or changed leads to an entry. */
  ghost predicate Changes(t: Tree, r: Tree, es: seq<Entry>) {
    && (forall q :: q in t ==> q in r && (r[q] == t[q] || (r[q].File? && t[q].File?)))
    && (forall q :: q in r && (q !in t || r[q] != t[q]) ==> LeadingAny(q, es))
  }

  lemma UnpackChanges(t: Tree, e: Entry)
    requires Unpack(t, e).Ok?
    ensures Changes(t, Unpack(t, e).value, [e])
  {
    NameRefusedIff(e.name);
    var p, r := Split(Clean(e.name)), Unpack(t, e).value;
    hide Clean, Split;
    if e.kind.Directory? { MkdirEffect(t, p); } else { MkdirEffect(t, Parent(p)); }
    forall q | q in r && (q !in t || r[q] != t[q]) ensures LeadingAny(q, [e]) {
      assert Leading(q, [e][0]);
    }
  }

  lemma LeadingMore(q: seq<string>, es: seq<Entry>)
    requires es != [] && (LeadingAny(q, [es[0]]) || LeadingAny(q, es[1..]))
    ensures LeadingAny(q, es)
  {
    if LeadingAny(q, es[1..]) {
      var i :| 0 <= i < |es[1..]| && Leading(q, es[1..][i]);
      assert Leading(q, es[i + 1]);
    } else {
      assert Leading(q, es[0]);
    }
  }

  lemma ChangesMore(t: Tree, s: Tree, r: Tree, es: seq<Entry>)
    requires es != [] && Changes(t, s, [es[0]]) && Changes(s, r, es[1..])
    ensures Changes(t, r, es)
  {
    hide LeadingAny;
    forall q | q in r && (q !in t || r[q] != t[q]) ensures LeadingAny(q, es) {
      LeadingMore(q, es);
    }
  }

  lemma {:induction false} UnpackAllChanges(t: Tree, es: seq<Entry>)
    requires UnpackAll(t, es).Ok?
    ensures Changes(t, UnpackAll(t, es).value, es)
    decreases |es|
  {
    if es != [] {
      UnpackChanges(t, es[0]);
      UnpackAllChanges(Unpack(t, es[0]).value, es[1..]);
      ChangesMore(t, Unpack(t, es[0]).value, UnpackAll(t, es).value, es);
    }
  }

  /** An entry that was unpacked was no link and no special file, and its name stays inside. */
  lemma {:induction false} UnpackedEntry(t: Tree, es: seq<Entry>, i: nat)
    requires UnpackAll(t, es).Ok? && i < |es|
    ensures var name := es[i].name;
            && (es[i].kind.Directory? || es[i].kind.Regular?)
            && (name == "" || name[0] != '/') && Clean(name) != "." && Split(Clean(name))[0] != ".."
    decreases |es|
  {
    if i > 0 {
      UnpackedEntry(Unpack(t, es[0]).value, es[1..], i - 1);
    } else {
      NameRefusedIff(es[0].name);
    }
  }

  /** What unpacking any entries at all can do, if it succeeds: nothing that was there goes or changes its
      kind, and what is new or changed lies on the way to some entry. */
  lemma UnpackAllEffect(t: Tree, es: seq<Entry>)
    requires UnpackAll(t, es).Ok?
    ensures var r := UnpackAll(t, es).value;
            && (forall q :: q in t ==> q in r && (r[q] == t[q] || (r[q].File? && t[q].File?)))
            && (forall q :: q in r && (q !in t || r[q] != t[q]) ==>
                 exists i :: 0 <= i < |es| && q <= Split(Clean(es[i].name)))
  {
    UnpackAllChanges(t, es);
    hide UnpackAll, Clean, Split;
    var r := UnpackAll(t, es).value;
    forall q | q in r && (q !in t || r[q] != t[q])
      ensures exists i :: 0 <= i < |es| && q <= Split(Clean(es[i].name)) {
      assert LeadingAny(q, es);
      var i :| 0 <= i < |es| && Leading(q, es[i]);
    }
  }

  /** Even an entry cut short in the middle of its bytes leaves a piece of the tree. */
  lemma {:induction false} CutEntryInPiece(s: Tree, t: Tree, p: seq<string>, cut: nat)
    requires WellFormed(t) && PieceOf(s, t) && p in t && p != [] && Archivable(t[p])
    requires cut <= |Header(p, t[p]).body|
    ensures var e := Header(p, t[p]);
            var r := Unpack(s, e.(body := e.body[..cut]));
            r.Ok? ==> PieceOf(r.value, t)
  {
    EmittedNameIsClean(p);
    if t[p].File? {
      MkdirInPiece(s, t, Parent(p));
    } else {
      UnpackInPiece(s, t, p);
    }
  }

  // ---------------------------------------------------------------- the walk

  datatype ArchiveError = LinkFound | SocketFound | WalkFault

  function Under(t: Tree, p: seq<string>): set<seq<string>> {
    set q | q in t && p <= q
  }

  /** Everything below `p` that starts with one of the child names in `names`. */
  function UnderNames(t: Tree, p: seq<string>, names: set<string>): set<seq<string>> {
    set q | q in t && p < q && q[|p|] in names
  }

  function ChildNames(t: Tree, p: seq<string>): set<string> {
    set q | q in t && p < q && |q| == |p| + 1 :: q[|p|]
  }

  lemma ChildNameSplit(t: Tree, p: seq<string>, names: set<string>, n: string)
    ensures UnderNames(t, p, names + {n}) == UnderNames(t, p, names) + Under(t, p + [n])
  {
    forall q | q in t && p < q && q[|p|] == n ensures p + [n] <= q {
      assert q[..|p| + 1] == p + [n];
    }
    forall q | q in t && p + [n] <= q ensures p < q && q[|p|] == n {
      assert q[..|p|] == (p + [n])[..|p|];
      assert q[|p|] == (p + [n])[|p|];
    }
  }

  lemma {:induction false} AncestorPresent(t: Tree, q: seq<string>, k: nat)
    requires WellFormed(t) && q in t && k <= |q|
    ensures q[..k] in t
    decreases |q|
  {
    if k < |q| {
      AncestorPresent(t, Parent(q), k);
      assert Parent(q)[..k] == q[..k];
    } else {
      assert q[..k] == q;
    }
  }

  lemma WayDown(t: Tree, p: seq<string>, q: seq<string>)
    requires WellFormed(t) && p in t && q in t && p < q
    ensures t[p] == Dir && p + [q[|p|]] in t && Name(q[|p|])
  {
    var c := q[..|p| + 1];
    AncestorPresent(t, q, |p| + 1);
    assert c == p + [q[|p|]] && Parent(c) == p;
    assert Names(c) && c[|p|] == q[|p|];
  }

  /** What the walk has handled at `p` once the children called `names` are done. */
  function Done(t: Tree, p: seq<string>, names: set<string>): set<seq<string>> {
    {p} + UnderNames(t, p, names) - {[]}
  }

  lemma DoneAtStart(t: Tree, p: seq<string>)
    ensures Done(t, p, {}) == {p} - {[]}
  {
  }

  lemma DoneGrows(t: Tree, p: seq<string>, names: set<string>, n: string)
    requires n !in names
    ensures Done(t, p, names + {n}) == Done(t, p, names) + (Under(t, p + [n]) - {[]})
    ensures Done(t, p, names) !! Under(t, p + [n]) - {[]}
  {
    ChildNameSplit(t, p, names, n);
    assert [] !in Under(t, p + [n]) && p !in Under(t, p + [n]);
    forall q | q in UnderNames(t, p, names) ensures q !in Under(t, p + [n]) {
      assert (p + [n])[|p|] == n;
    }
  }

  lemma DoneAtEnd(t: Tree, p: seq<string>)
    requires WellFormed(t) && p in t
    ensures Done(t, p, ChildNames(t, p)) == Under(t, p) - {[]}
    ensures t[p] != Dir ==> Done(t, p, {}) == Under(t, p) - {[]}
  {
    forall q | q in t && p < q ensures q[|p|] in ChildNames(t, p) && t[p] == Dir {
      WayDown(t, p, q);
      var c := p + [q[|p|]];
      assert p < c && c[|p|] == q[|p|];
    }
    forall q | q in Under(t, p) ensures q == p || q in UnderNames(t, p, ChildNames(t, p)) {
      if q != p { assert p < q; }
    }
    assert Done(t, p, ChildNames(t, p)) <= Under(t, p);
  }

  lemma ChildPresent(t: Tree, p: seq<string>, n: string)
    requires p in t && n in ChildNames(t, p)
    ensures p + [n] in t
    ensures Under(t, p + [n]) < Under(t, p)
  {
    var q :| q in t && p < q && |q| == |p| + 1 && q[|p|] == n;
    assert q == p + [n];
    forall x | x in Under(t, p + [n]) ensures p <= x { assert x[..|p|] == (p + [n])[..|p|]; }
    assert p in Under(t, p) && p !in Under(t, p + [n]);
  }

  lemma CoversUnion(a: seq<Entry>, b: seq<Entry>, t: Tree, s: set<seq<string>>, r: set<seq<string>>)
    requires Covers(a, t, s) && Covers(b, t, r) && s !! r
    ensures Covers(a + b, t, s + r)
  {
    forall p | p in s + r ensures exists i :: 0 <= i < |a + b| && PathOf((a + b)[i]) == p {
      if p in s {
        var i :| 0 <= i < |a| && PathOf(a[i]) == p;
        assert PathOf((a + b)[i]) == p;
      } else {
        var i :| 0 <= i < |b| && PathOf(b[i]) == p;
        assert PathOf((a + b)[|a| + i]) == p;
      }
    }
  }

  /** The walk callback's output at one path: nothing for the root. */
  function Own(t: Tree, p: seq<string>): seq<Entry>
    requires p in t
  {
    if p == [] then [] else [Header(p, t[p])]
  }

  lemma OwnCovers(t: Tree, p: seq<string>)
    requires WellFormed(t) && p in t && (p == [] || Archivable(t[p]))
    ensures Covers(Own(t, p), t, Done(t, p, {}))
  {
    DoneAtStart(t, p);
    if p != [] {
      SplitJoin(p) by { NormalIsPlain(false, p); }
      assert PathOf(Own(t, p)[0]) == p;
    }
  }

  /** Why a walk over the paths in `s` may stop. */
  ghost predicate Justified(e: ArchiveError, t: Tree, s: set<seq<string>>) {
    match e
    case LinkFound => exists q :: q in s && q in t && t[q].Symlink?
    case SocketFound => exists q :: q in s && q in t && t[q].Socket?
    case WalkFault => true
  }

  lemma JustifiedMore(e: ArchiveError, t: Tree, s: set<seq<string>>, more: set<seq<string>>)
    requires Justified(e, t, s) && s <= more
    ensures Justified(e, t, more)
  {
  }

  class TarWriter {
    /** Whether reads and writes fail only for the reasons the tree gives. */
    const reliable: bool
    var entries: seq<Entry>

    constructor (reliable: bool)
      ensures entries == [] && this.reliable == reliable
    {
      this.reliable := reliable;
      entries := [];
    }

    /** The walk callback at one path: nothing for the root, an entry for anything else. */
    method Visit(t: Tree, p: seq<string>) returns (r: Result<(), ArchiveError>)
      requires WellFormed(t) && p in t
      modifies this
      ensures r.Ok? ==> (p == [] || Archivable(t[p])) && entries == old(entries) + Own(t, p)
      ensures r.Err? ==> Justified(r.error, t, {p}) && (reliable ==> !r.error.WalkFault?)
    {
      var fault := Fault(reliable);
      if fault {
        return Err(WalkFault);
      }
      if p == [] {
        return Ok(());
      }
      if t[p].Symlink? {
        return Err(LinkFound);
      }
      if t[p].Socket? {
        return Err(SocketFound);
      }
      entries := entries + [Header(p, t[p])];
      fault := Fault(reliable);
      r := if fault then Err(WalkFault) else Ok(());
    }

    /** Continues a walk that has written `p` itself after `before`. */
    method WalkChildren(t: Tree, p: seq<string>, ghost before: seq<Entry>)
      returns (r: Result<(), ArchiveError>, ghost added: seq<Entry>)
      requires WellFormed(t) && p in t && entries == before + Own(t, p)
      requires Covers(Own(t, p), t, Done(t, p, {}))
      modifies this
      ensures r.Ok? ==> entries == before + added && Covers(added, t, Done(t, p, ChildNames(t, p)))
      ensures r.Err? ==> Justified(r.error, t, Under(t, p)) && (reliable ==> !r.error.WalkFault?)
      decreases Under(t, p), 0
    {
      hide Covers, UnderNames, Done, Own, WellFormed, Justified, ChildNames, Under;
      var names := ChildNames(t, p);
      ghost var all := names;
      r, added := Ok(()), Own(t, p);
      assert all - names == {};
      while names != {}
        invariant names <= all && r.Ok? && entries == before + added
        invariant Covers(added, t, Done(t, p, all - names))
      {
        var n :| n in names;
        ChildPresent(t, p, n);
        ghost var below;
        r, below := Walk(t, p + [n]);
        if r.Err? {
          JustifiedMore(r.error, t, Under(t, p + [n]), Under(t, p));
          return;
        }
        DoneGrows(t, p, all - names, n);
        CoversUnion(added, below, t, Done(t, p, all - names), Under(t, p + [n]) - {[]});
        assert (before + added) + below == before + (added + below);
        added := added + below;
        assert (all - names) + {n} == all - (names - {n});
        names := names - {n};
      }
      assert all - names == all;
    }

    /** Visits `p` and then everything below it. Directory listings are sorted in the program; here
        any order is allowed. */
    method Walk(t: Tree, p: seq<string>) returns (r: Result<(), ArchiveError>, ghost added: seq<Entry>)
      requires WellFormed(t) && p in t
      modifies this
      ensures r.Ok? ==> entries == old(entries) + added && Covers(added, t, Under(t, p) - {[]})
      ensures r.Err? ==> Justified(r.error, t, Under(t, p)) && (reliable ==> !r.error.WalkFault?)
      decreases Under(t, p), 1
    {
      assert {p} <= Under(t, p);
      hide Under, Covers, Done, Justified, Own, WellFormed;
      r := Visit(t, p);
      added := Own(t, p);
      DoneAtEnd(t, p);
      if r.Err? {
        JustifiedMore(r.error, t, {p}, Under(t, p));
        return;
      }
      OwnCovers(t, p);
      if t[p] == Dir {
        r, added := WalkChildren(t, p, old(entries));
      }
    }
  }
}
