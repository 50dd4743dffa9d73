/** The jailed file manager: which host path a (server, relative path) pair stands for. */
module PathResolver {
  import opened Text
  import opened Faults
  import opened Paths

  datatype Node = Dir | File | Link(target: string)

  /** What lies below one server's data directory; the key [] is the directory itself. */
  type Tree = map<seq<string>, Node>

  datatype PathError = ServerNotFound | OutsideRoot | NotFound | IoError

  predicate ValidServerID(id: string) {
    id != "" && forall i :: 0 <= i < |id| ==>
      'A' <= id[i] <= 'Z' || 'a' <= id[i] <= 'z' || '0' <= id[i] <= '9' || id[i] == '_' || id[i] == '-'
  }

  /** The pattern `^[A-Za-z0-9_-]+$`, by character codes. */
  lemma ValidServerIDMeans(id: string)
    ensures ValidServerID(id) <==> |id| > 0 && forall c :: c in id ==>
              var n := c as int; 65 <= n <= 90 || 97 <= n <= 122 || 48 <= n <= 57 || n == 95 || n == 45
  {
    assert forall i :: 0 <= i < |id| ==> id[i] in id;
  }

  function ServerRoot(base: string, id: string): Result<string, PathError> {
    if !ValidServerID(id) then Err(ServerNotFound) else Ok(JoinAll([base, id, "data"]))
  }

  /** The part of ResolvePath that looks at strings only. */
  function Lexical(base: string, id: string, rel: string): Result<string, PathError> {
    var root := ServerRoot(base, id);
    if root.Err? then root
    else if IsAbs(rel) || '\0' in rel || '\\' in rel then Err(OutsideRoot)
    else
      var abs := JoinAll([root.value, Clean(rel)]);
      var r := Rel(root.value, abs);
      if r.Err? || Escapes(r.value) then Err(OutsideRoot) else Ok(abs)
  }

  // ---------------------------------------------------------------- the lexical jail

  function RootParts(base: string, id: string): Parts {
    Parts(IsAbs(base), Parse(base).comps + [id, "data"])
  }

  /** Where `rel`, cleaned or not, leads from the server root by the lexical rules alone. */
  function Target(base: string, id: string, rel: string): Parts {
    Parts(IsAbs(base), Norm(IsAbs(base), RootParts(base, id).comps, Split(rel)))
  }

  lemma ServerRootParts(base: string, id: string)
    requires ValidServerID(id)
    ensures Name(id) && Canonical(RootParts(base, id))
    ensures ServerRoot(base, id) == Ok(Render(RootParts(base, id)))
  {
    var names := [id, "data"];
    assert id[0] != '.';
    assert Name(names[0]) && Name(names[1]) && Names(names);
    ParseIsCanonical(base);
    SplitJoin(names);
    NormOfNames(IsAbs(base), Parse(base).comps, names);
    if base == "" {
      ParseEmpty();
      ParseRender(Parts(false, names));
      assert [base, id, "data"][1..] == names && [] + names == names;
      assert JoinAll(names) == Render(Parts(false, names));
    } else {
      assert [base, id, "data"][1..] == names;
      assert JoinSlash([base, id, "data"]) == base + "/" + JoinSlash(names);
      SplitAppend(base, JoinSlash(names));
      NormAppend(IsAbs(base), [], Split(base), names);
    }
  }

  lemma JoinedParts(base: string, id: string, rel: string)
    requires ValidServerID(id) && !IsAbs(rel)
    ensures Canonical(Target(base, id, rel))
    ensures JoinAll([Render(RootParts(base, id)), Clean(rel)]) == Render(Target(base, id, rel))
  {
    var root, c := RootParts(base, id), Norm(false, [], Split(rel));
    ServerRootParts(base, id);
    ParseRender(root);
    ParseJoin(Render(root), Clean(rel));
    SplitIsPlain(rel);
    NormIsNormal(false, [], Split(rel));
    NormalIsPlain(false, c);
    CleanBeforeAppend(root.rooted, root.comps, [], Split(rel));
    if c == [] { SplitPlain("."); } else { SplitJoin(c); }
  }

  /** Acceptance is exact: nothing but the NUL, backslash and absolute-path rules, and whether
      normalising root plus path stays at or below the server root, decides it. */
  lemma LexicalAcceptsIffInside(base: string, id: string, rel: string)
    ensures Lexical(base, id, rel).Ok? <==>
            && ValidServerID(id) && !IsAbs(rel) && '\0' !in rel && '\\' !in rel
            && RootParts(base, id).comps <= Target(base, id, rel).comps
    ensures Lexical(base, id, rel).Ok? ==> Lexical(base, id, rel) == Ok(Render(Target(base, id, rel)))
    ensures Lexical(base, id, rel).Err? ==>
              Lexical(base, id, rel) == Err(if ValidServerID(id) then OutsideRoot else ServerNotFound)
  {
    if ValidServerID(id) && !IsAbs(rel) {
      ServerRootParts(base, id);
      JoinedParts(base, id, rel);
      var root := RootParts(base, id);
      assert root.comps[|root.comps| - 1] == "data";
      RelAcceptsIffInside(root, Target(base, id, rel));
    }
  }

  lemma CleanedWhole(base: string, id: string, rel: string)
    requires base != "" && Name(id)
    ensures Clean(base + "/" + id + "/data/" + rel) == Render(Target(base, id, rel))
    ensures Clean(base + "/" + id + "/data") == Render(RootParts(base, id))
  {
    hide Split;
    var names := [id, "data"];
    assert Name(names[0]) && Name(names[1]) && Names(names);
    SplitJoin(names);
    SplitAppend(base, JoinSlash(names));
    SplitAppend(base + "/" + JoinSlash(names), rel);
    assert base + "/" + id + "/data" == base + "/" + JoinSlash(names);
    assert base + "/" + id + "/data/" + rel == (base + "/" + JoinSlash(names)) + "/" + rel;
    NormOfNames(IsAbs(base), Parse(base).comps, names);
    NormAppend(IsAbs(base), [], Split(base), names);
    NormAppend(IsAbs(base), [], Split(base) + names, Split(rel));
  }

  /** The server root is `<base>/<id>/data`, and an accepted path is the text appended to it, cleaned. */
  lemma AcceptedPathIsCleaned(base: string, id: string, rel: string)
    requires base != ""
    ensures ValidServerID(id) ==> ServerRoot(base, id) == Ok(Clean(base + "/" + id + "/data"))
    ensures Lexical(base, id, rel).Ok? ==> Lexical(base, id, rel) == Ok(Clean(base + "/" + id + "/data/" + rel))
  {
    LexicalAcceptsIffInside(base, id, rel);
    if ValidServerID(id) {
      ServerRootParts(base, id);
      CleanedWhole(base, id, rel);
    }
  }

  /** Two servers never share a path, whatever relative paths are asked for. */
  lemma ServersNeverCollide(base: string, id1: string, rel1: string, id2: string, rel2: string)
    ensures id1 != id2 && Lexical(base, id1, rel1).Ok? && Lexical(base, id2, rel2).Ok? ==>
              Lexical(base, id1, rel1).value != Lexical(base, id2, rel2).value
  {
    if Lexical(base, id1, rel1).Ok? && Lexical(base, id1, rel1) == Lexical(base, id2, rel2) {
      LexicalAcceptsIffInside(base, id1, rel1);
      LexicalAcceptsIffInside(base, id2, rel2);
      var t1, t2 := Target(base, id1, rel1), Target(base, id2, rel2);
      JoinedParts(base, id1, rel1);
      JoinedParts(base, id2, rel2);
      ParseRender(t1);
      ParseRender(t2);
      var n := |Parse(base).comps|;
      assert RootParts(base, id1).comps[n] == t1.comps[n] && RootParts(base, id2).comps[n] == t2.comps[n];
    }
  }

  // ---------------------------------------------------------------- following links for real

  /** Outside: the walk left the server's directory, or was sent away from it by an absolute link. */
  datatype Lookup = Found(at: seq<string>) | Missing | NotDirectory | TooManyLinks | Outside

  /** Kernel path resolution from a directory of the tree: every link met on the way is followed,
      at most `fuel` of them; the last component's link only when `follow` is set. */
  function Resolve(t: Tree, cur: seq<string>, todo: seq<string>, fuel: nat, follow: bool): (r: Lookup)
    ensures r.Found? ==> r.at in t
    decreases fuel, |todo|
  {
    if cur !in t then Missing
    else if todo == [] then Found(cur)
    else if t[cur] == File then NotDirectory
    else if todo[0] == "" || todo[0] == "." then Resolve(t, cur, todo[1..], fuel, follow)
    else if todo[0] == ".." then
      if cur == [] then Outside else Resolve(t, cur[..|cur| - 1], todo[1..], fuel, follow)
    else
      var next := cur + [todo[0]];
      if next in t && t[next].Link? && (follow || |todo| > 1) then
        if fuel == 0 then TooManyLinks
        else if IsAbs(t[next].target) then Outside
        else Resolve(t, cur, Split(t[next].target) + todo[1..], fuel - 1, follow)
      else Resolve(t, next, todo[1..], fuel, follow)
  }

  const MAX_LINKS := 40

  function Lstat(t: Tree, p: seq<string>): Lookup { Resolve(t, [], p, MAX_LINKS, false) }

  /** Resolution that may not follow any link at all. */
  function ResolveNoLinks(t: Tree, p: seq<string>): Lookup { Resolve(t, [], p, 0, true) }

  /** If a name path resolves without following a link, then no amount of link following changes
      where it leads, and it leads to the place it spells. */
  lemma {:induction false} LinksPlayNoPart(t: Tree, cur: seq<string>, todo: seq<string>, fuel: nat, follow: bool)
    requires Names(todo) && Resolve(t, cur, todo, 0, true) != TooManyLinks
    ensures Resolve(t, cur, todo, fuel, follow) == Resolve(t, cur, todo, 0, true)
    ensures Resolve(t, cur, todo, 0, true) in {Found(cur + todo), Missing, NotDirectory}
    decreases |todo|
  {
    if cur in t && todo != [] && t[cur] != File {
      assert Name(todo[0]);
      LinksPlayNoPart(t, cur + [todo[0]], todo[1..], fuel, follow);
      assert cur + todo == (cur + [todo[0]]) + todo[1..];
    } else if todo == [] {
      assert cur + todo == cur;
    }
  }

  /** Resolution goes through a prefix that is itself link-free. */
  lemma {:induction false} ResolveThrough(t: Tree, cur: seq<string>, done: seq<string>, todo: seq<string>, fuel: nat,
                                          follow: bool)
    requires Names(done) && Resolve(t, cur, done, 0, true) == Found(cur + done)
    ensures Resolve(t, cur, done + todo, fuel, follow) == Resolve(t, cur + done, todo, fuel, follow)
    decreases |done|
  {
    if done == [] {
      assert done + todo == todo && cur + done == cur;
    } else {
      assert Name(done[0]);
      assert (done + todo)[0] == done[0] && (done + todo)[1..] == done[1..] + todo;
      assert cur + done == (cur + [done[0]]) + done[1..];
      LinksPlayNoPart(t, cur, done, 0, true);
      ResolveThrough(t, cur + [done[0]], done[1..], todo, fuel, follow);
    }
  }

  /** A walk from the first `n` components of `p` gets past the first `k`: they are there, are no link,
      unless the walk began with it, and no file with more to come. */
  ghost predicate Passed(t: Tree, p: seq<string>, n: nat, k: nat)
    requires k <= |p|
  {
    p[..k] in t && (k > n ==> !t[p[..k]].Link?) && (k < |p| ==> t[p[..k]] != File)
  }

  /** How a walk that was not stopped before the first `k` components ends there. */
  ghost predicate EndsAt(t: Tree, p: seq<string>, n: nat, k: nat, r: Lookup)
    requires n <= k <= |p|
  {
    if p[..k] !in t then r == Missing
    else if k > n && t[p[..k]].Link? then r == TooManyLinks
    else if k < |p| then t[p[..k]] == File && r == NotDirectory
    else r == Found(p)
  }

  lemma {:induction false} WalkFrom(t: Tree, p: seq<string>, n: nat) returns (k: nat)
    requires Names(p) && n <= |p|
    ensures n <= k <= |p| && forall j :: n <= j < k ==> Passed(t, p, n, j)
    ensures EndsAt(t, p, n, k, Resolve(t, p[..n], p[n..], 0, true))
    decreases |p| - n
  {
    k := n;
    assert p[..|p|] == p;
    if p[..n] in t && n < |p| && t[p[..n]] != File {
      assert Name(p[n]) && p[..n] + [p[n]] == p[..n + 1] && p[n..][1..] == p[n + 1..];
      if p[..n + 1] in t && t[p[..n + 1]].Link? {
        k := n + 1;
      } else {
        k := WalkFrom(t, p, n + 1);
        assert forall j :: n + 1 <= j < k && Passed(t, p, n + 1, j) ==> Passed(t, p, n, j);
      }
    }
  }

  /** What a link-free walk down `p` comes to, on the tree's entries alone: of the components that are
      reached, one that is a link, or a file with more to come, stops it, and nothing else does. */
  lemma WalkMeans(t: Tree, p: seq<string>)
    requires Names(p)
    ensures var r := ResolveNoLinks(t, p);
            r == Found(p) || r == Missing <==>
              forall k :: 0 <= k <= |p| && (forall j :: 0 <= j <= k ==> p[..j] in t) ==>
                (k > 0 ==> !t[p[..k]].Link?) && (k < |p| ==> t[p[..k]] != File)
  {
    var k := WalkFrom(t, p, 0);
    assert p[..0] == [] && p[0..] == p;
    hide Resolve;
    if p[..k] in t && ((k > 0 && t[p[..k]].Link?) || k < |p|) {
      forall j | 0 <= j <= k ensures p[..j] in t {
        assert j < k ==> Passed(t, p, 0, j);
      }
    } else {
      forall i | 0 <= i <= |p| && forall j :: 0 <= j <= i ==> p[..j] in t
        ensures (i > 0 ==> !t[p[..i]].Link?) && (i < |p| ==> t[p[..i]] != File) {
        assert i < k ==> Passed(t, p, 0, i);
        assert p[..k] in t || i < k;
      }
    }
  }

  lemma FoundMeans(t: Tree, p: seq<string>)
    requires Names(p)
    ensures ResolveNoLinks(t, p) == Found(p) && t[p] == Dir <==>
              && p in t && t[p] == Dir
              && forall j :: 0 <= j < |p| ==> p[..j] in t && if j > 0 then t[p[..j]] == Dir else t[p[..j]] != File
  {
    var k := WalkFrom(t, p, 0);
    assert p[..0] == [] && p[0..] == p && p[..|p|] == p;
    hide Resolve;
    if k == |p| {
      forall j | 0 <= j < |p| ensures p[..j] in t && if j > 0 then t[p[..j]] == Dir else t[p[..j]] != File {
        assert Passed(t, p, 0, j);
        assert t[p[..j]].Dir? || t[p[..j]].File? || t[p[..j]].Link?;
      }
    }
  }

  /** Which error: it is the first such component that decides. */
  lemma FirstStopDecides(t: Tree, p: seq<string>, k: nat)
    requires Names(p) && k <= |p| && forall j :: 0 <= j <= k ==> p[..j] in t
    requires forall j :: 0 <= j < k ==> (j > 0 ==> !t[p[..j]].Link?) && t[p[..j]] != File
    ensures k > 0 && t[p[..k]].Link? ==> ResolveNoLinks(t, p) == TooManyLinks
    ensures k < |p| && t[p[..k]] == File ==> ResolveNoLinks(t, p) == NotDirectory
  {
    var i := WalkFrom(t, p, 0);
    assert p[..0] == [] && p[0..] == p;
    hide Resolve;
    if k < i { assert Passed(t, p, 0, k); }
  }

  lemma NoLinkOutcomes(t: Tree, p: seq<string>)
    requires Names(p)
    ensures ResolveNoLinks(t, p) in {Found(p), Missing, NotDirectory, TooManyLinks}
  {
    var k := WalkFrom(t, p, 0);
    assert p[..0] == [] && p[0..] == p;
    hide Resolve;
  }

  lemma RootLookup(t: Tree)
    ensures ResolveNoLinks(t, []) == if [] in t then Found([]) else Missing
  {
  }

  /** Looking at one entry of a directory, without following it, against going through it. */
  lemma StepFrom(t: Tree, cur: seq<string>, part: string, rest: seq<string>)
    requires Name(part) && Names(rest) && cur in t
    ensures var here, l := cur + [part], Resolve(t, cur, [part], MAX_LINKS, false);
            var whole := Resolve(t, cur, [part] + rest, 0, true);
            if l == Missing then whole == Missing
            else if !l.Found? then whole == NotDirectory
            else if l.at != here then false
            else if t[here].Link? then whole == TooManyLinks
            else Resolve(t, cur, [part], 0, true) == Found(here)
  {
    assert [part][1..] == [] && ([part] + rest)[1..] == rest;
  }

  /** One Lstat of the walk, at a prefix whose parent is already known to be reached without
      links, decides the whole link-free resolution unless it says "go on". */
  lemma LstatDecides(t: Tree, done: seq<string>, part: string, rest: seq<string>)
    requires Names(done) && Name(part) && Names(rest)
    requires done != [] ==> ResolveNoLinks(t, done) == Found(done)
    ensures var here, l, whole := done + [part], Lstat(t, done + [part]), ResolveNoLinks(t, done + [part] + rest);
            if l == Missing then whole == Missing
            else if !l.Found? then whole == NotDirectory
            else if l.at != here then false
            else if t[here].Link? then whole == TooManyLinks
            else ResolveNoLinks(t, here) == Found(here)
  {
    if [] in t {
      RootLookup(t);
      hide Resolve;
      assert [] + done == done && done + [part] + rest == done + ([part] + rest);
      ResolveThrough(t, [], done, [part], MAX_LINKS, false);
      ResolveThrough(t, [], done, [part], 0, true);
      ResolveThrough(t, [], done, [part] + rest, 0, true);
      StepFrom(t, done, part, rest);
    }
  }

  // ---------------------------------------------------------------- ResolvePath as a whole

  /** How a link-free lookup is reported: a missing component is fine (it may be created), a link
      is an escape, a file used as a directory is an I/O error. */
  function Verdict(l: Lookup, abs: string): Result<string, PathError> {
    match l
    case Found(_) => Ok(abs)
    case Missing => Ok(abs)
    case TooManyLinks => Err(OutsideRoot)
    case _ => Err(IoError)
  }

  /** The report, on the tree's entries alone: a path is answered if and only if none of the components
      that are reached is a link, or a file with more to come; otherwise the first such decides. */
  lemma VerdictMeans(t: Tree, p: seq<string>, abs: string)
    requires Names(p)
    ensures Verdict(ResolveNoLinks(t, p), abs).Ok? <==>
              forall k :: 0 <= k <= |p| && (forall j :: 0 <= j <= k ==> p[..j] in t) ==>
                (k > 0 ==> !t[p[..k]].Link?) && (k < |p| ==> t[p[..k]] != File)
    ensures Verdict(ResolveNoLinks(t, p), abs) in {Ok(abs), Err(OutsideRoot), Err(IoError)}
    ensures forall k ::
              && 0 <= k <= |p| && (forall j :: 0 <= j <= k ==> p[..j] in t)
              && (forall j :: 0 <= j < k ==> (j > 0 ==> !t[p[..j]].Link?) && t[p[..j]] != File) ==>
                && (k > 0 && t[p[..k]].Link? ==> Verdict(ResolveNoLinks(t, p), abs) == Err(OutsideRoot))
                && (k < |p| && t[p[..k]] == File ==> Verdict(ResolveNoLinks(t, p), abs) == Err(IoError))
  {
    WalkMeans(t, p);
    NoLinkOutcomes(t, p);
    hide Resolve;
    forall k | 0 <= k <= |p| && (forall j :: 0 <= j <= k ==> p[..j] in t) &&
      forall j :: 0 <= j < k ==> (j > 0 ==> !t[p[..j]].Link?) && t[p[..j]] != File {
      FirstStopDecides(t, p, k);
    }
  }

  /** What one Lstat of the walk means: an answer, or None to go on to the next component. */
  function Judge(t: Tree, info: Lookup, abs: string): Option<Result<string, PathError>>
    requires info.Found? ==> info.at in t
  {
    match info
    case Missing => Some(Ok(abs))
    case Found(at) => if t[at].Link? then Some(Err(OutsideRoot)) else None
    case _ => Some(Err(IoError))
  }

  lemma WalkStep(t: Tree, names: seq<string>, i: nat, abs: string)
    requires Names(names) && i < |names|
    requires i > 0 ==> ResolveNoLinks(t, names[..i]) == Found(names[..i])
    ensures match Judge(t, Lstat(t, names[..i + 1]), abs)
            case Some(v) => v == Verdict(ResolveNoLinks(t, names), abs)
            case None => ResolveNoLinks(t, names[..i + 1]) == Found(names[..i + 1])
  {
    LstatDecides(t, names[..i], names[i], names[i + 1..]);
    assert names[..i] + [names[i]] == names[..i + 1];
    assert names[..i] + [names[i]] + names[i + 1..] == names;
  }

  /** The path from the server root to the accepted target. */
  function Below(base: string, id: string, rel: string): (r: seq<string>)
    requires Lexical(base, id, rel).Ok?
  {
    LexicalAcceptsIffInside(base, id, rel);
    Target(base, id, rel).comps[|RootParts(base, id).comps|..]
  }

  lemma PartsOf(below: seq<string>)
    requires Names(below)
    ensures Split(Render(Parts(false, below))) == if below == [] then ["."] else below
  {
    if below == [] { SplitPlain("."); } else { NormalIsPlain(false, below); SplitJoin(below); }
  }

  function Resolved(base: string, t: Tree, id: string, rel: string): Result<string, PathError> {
    var lex := Lexical(base, id, rel);
    if lex.Err? then lex else Verdict(ResolveNoLinks(t, Below(base, id, rel)), lex.value)
  }

  lemma BelowIsNames(base: string, id: string, rel: string)
    requires Lexical(base, id, rel).Ok?
    ensures Names(Below(base, id, rel))
    ensures Lexical(base, id, rel) == Ok(Render(Parts(IsAbs(base), RootParts(base, id).comps + Below(base, id, rel))))
    ensures ServerRoot(base, id).Ok?
    ensures Rel(ServerRoot(base, id).value, Lexical(base, id, rel).value)
         == Ok(Render(Parts(false, Below(base, id, rel))))
  {
    LexicalAcceptsIffInside(base, id, rel);
    ServerRootParts(base, id);
    JoinedParts(base, id, rel);
    var root := RootParts(base, id);
    assert root.comps[|root.comps| - 1] == "data";
    RelOfPrefix(root, Target(base, id, rel));
    assert root.comps + Below(base, id, rel) == Target(base, id, rel).comps;
  }

  /** Lexical equals physical: when ResolvePath succeeds, following links from the server root
      reaches the returned path itself or a component that does not exist yet, however many links
      the kernel would be willing to follow. */
  lemma LexicalEqualsPhysical(base: string, t: Tree, id: string, rel: string, fuel: nat)
    requires Resolved(base, t, id, rel).Ok?
    ensures var below := Below(base, id, rel);
            && Resolved(base, t, id, rel) == Ok(Render(Parts(IsAbs(base), RootParts(base, id).comps + below)))
            && Resolve(t, [], below, fuel, true) in {Found(below), Missing}
  {
    BelowIsNames(base, id, rel);
    LinksPlayNoPart(t, [], Below(base, id, rel), fuel, true);
    assert [] + Below(base, id, rel) == Below(base, id, rel);
  }

  datatype FileInfo = FileInfo(name: string, path: string, isDir: bool)

  /** No component from index `n` on contains `ch`. */
  predicate Without(cs: seq<string>, n: nat, ch: char) {
    forall i :: n <= i < |cs| ==> ch !in cs[i]
  }

  /** The kernel only creates entries whose names are names, without NUL. */
  ghost predicate WellFormed(t: Tree) {
    forall p :: p in t ==> Names(p) && Without(p, 0, '\0')
  }

  function Children(t: Tree, dir: seq<string>): set<string> {
    set p | p in t && |p| == |dir| + 1 && p[..|dir|] == dir :: p[|dir|]
  }

  lemma ChildInTree(t: Tree, dir: seq<string>, n: string)
    ensures n in Children(t, dir) <==> dir + [n] in t
  {
    if dir + [n] in t {
      var p := dir + [n];
      assert p[..|dir|] == dir && p[|dir|] == n;
    }
    if n in Children(t, dir) {
      var p :| p in t && |p| == |dir| + 1 && p[..|dir|] == dir && p[|dir|] == n;
      assert p == dir + [n];
    }
  }

  lemma {:induction false} SplitKeeps(s: string, ch: char)
    requires ch !in s
    ensures Without(Split(s), 0, ch)
  {
    if s != "" { SplitKeeps(s[1..], ch); }
  }

  lemma {:induction false} JoinKeeps(cs: seq<string>, ch: char)
    requires ch != '/' && Without(cs, 0, ch)
    ensures ch !in JoinSlash(cs)
  {
    if |cs| > 1 { JoinKeeps(cs[1..], ch); }
  }

  /** Whatever ends up beyond the first `n` components came from the path being appended. */
  lemma {:induction false} NormTail(rooted: bool, st: seq<string>, cs: seq<string>, n: nat, ch: char)
    requires ch != '.' && Without(cs, 0, ch) && Without(st, n, ch)
    ensures Without(Norm(rooted, st, cs), n, ch)
    decreases |cs|
  {
    if cs != [] {
      assert ch !in cs[0] && ch !in "..";
      NormTail(rooted, Push(rooted, st, cs[0]), cs[1..], n, ch);
    }
  }

  lemma BelowKeeps(base: string, id: string, rel: string, ch: char)
    requires Lexical(base, id, rel).Ok? && ch !in rel && ch != '.'
    ensures Without(Below(base, id, rel), 0, ch)
  {
    LexicalAcceptsIffInside(base, id, rel);
    var root := RootParts(base, id);
    SplitKeeps(rel, ch);
    NormTail(root.rooted, root.comps, Split(rel), |root.comps|, ch);
  }

  lemma JoinedName(here: Parts, n: string)
    requires Canonical(here) && here.comps != [] && Name(n)
    ensures Canonical(Parts(here.rooted, here.comps + [n]))
    ensures JoinAll([Render(here), n]) == Render(Parts(here.rooted, here.comps + [n]))
  {
    ParseRender(here);
    SplitPlain(n);
    NormOfNames(here.rooted, here.comps, [n]);
    assert Render(here) != "" by { if Render(here) == "" { ParseEmpty(); } }
    ParseJoin(Render(here), n);
  }

  lemma EntryParts(base: string, id: string, rel: string, n: string)
    requires Lexical(base, id, rel).Ok? && Name(n)
    ensures var below, root := Below(base, id, rel), RootParts(base, id);
            var full := Parts(root.rooted, root.comps + (below + [n]));
            && Canonical(full)
            && ServerRoot(base, id).Ok?
            && JoinAll([Lexical(base, id, rel).value, n]) == Render(full)
            && Rel(ServerRoot(base, id).value, Render(full)) == Ok(JoinSlash(below + [n]))
  {
    var below, root := Below(base, id, rel), RootParts(base, id);
    var here, full := Parts(root.rooted, root.comps + below), Parts(root.rooted, root.comps + (below + [n]));
    BelowIsNames(base, id, rel);
    LexicalAcceptsIffInside(base, id, rel);
    JoinedParts(base, id, rel);
    assert here == Target(base, id, rel);
    assert full.comps == here.comps + [n];
    JoinedName(here, n);
    ServerRootParts(base, id);
    assert root.comps[|root.comps| - 1] == "data";
    RelOfPrefix(root, full);
    assert full.comps[|root.comps|..] == below + [n];
  }

  /** The path a listing reports for an entry is accepted again, and means that entry. */
  lemma ListedPathIsAccepted(base: string, id: string, rel: string, n: string)
    requires Lexical(base, id, rel).Ok? && Name(n) && '\0' !in n && '\\' !in n
    ensures var below := Below(base, id, rel);
            && Lexical(base, id, JoinSlash(below + [n])) == Ok(JoinAll([Lexical(base, id, rel).value, n]))
            && Below(base, id, JoinSlash(below + [n])) == below + [n]
  {
    var below, root := Below(base, id, rel), RootParts(base, id);
    var names := below + [n];
    EntryParts(base, id, rel, n);
    BelowIsNames(base, id, rel);
    LexicalAcceptsIffInside(base, id, rel);
    BelowKeeps(base, id, rel, '\0');
    BelowKeeps(base, id, rel, '\\');
    JoinKeeps(names, '\0');
    JoinKeeps(names, '\\');
    assert Name(names[0]) && Names(names);
    JoinSlashStart(names);
    SplitJoin(names);
    NormOfNames(root.rooted, root.comps, names);
    LexicalAcceptsIffInside(base, id, JoinSlash(names));
  }

  lemma EntryFound(t: Tree, dir: seq<string>, n: string)
    requires Names(dir) && Name(n)
    requires ResolveNoLinks(t, dir) == Found(dir) && t[dir] == Dir
    requires dir + [n] in t && !t[dir + [n]].Link?
    ensures ResolveNoLinks(t, dir + [n]) == Found(dir + [n])
  {
    assert [] + dir == dir;
    ResolveThrough(t, [], dir, [n], 0, true);
    assert Resolve(t, dir + [n], [], 0, true) == Found(dir + [n]);
    assert [n][1..] == [];
  }

  lemma {:induction false} ListedPathResolves(base: string, t: Tree, id: string, rel: string, n: string)
    requires Lexical(base, id, rel).Ok? && Name(n) && '\0' !in n && '\\' !in n
    requires var below := Below(base, id, rel);
             ResolveNoLinks(t, below) == Found(below) && t[below] == Dir
             && below + [n] in t && !t[below + [n]].Link?
    ensures Resolved(base, t, id, JoinSlash(Below(base, id, rel) + [n]))
         == Ok(JoinAll([Lexical(base, id, rel).value, n]))
  {
    ListedPathIsAccepted(base, id, rel, n);
    BelowIsNames(base, id, rel);
    EntryFound(t, Below(base, id, rel), n);
  }

  // ---------------------------------------------------------------- the manager

  /** One record per directory entry, no entry twice. */
  ghost predicate Complete(out: seq<FileInfo>, names: set<string>) {
    && (forall i :: 0 <= i < |out| ==> out[i].name in names)
    && (forall n :: n in names ==> exists i :: 0 <= i < |out| && out[i].name == n)
    && (forall i, j :: 0 <= i < j < |out| ==> out[i].name != out[j].name)
  }

  lemma NothingListed()
    ensures Complete([], {})
  {
  }

  lemma CompleteExtends(out: seq<FileInfo>, names: set<string>, info: FileInfo)
    requires Complete(out, names) && info.name !in names
    ensures Complete(out + [info], names + {info.name})
  {
    var r := out + [info];
    forall n | n in names + {info.name} ensures exists i :: 0 <= i < |r| && r[i].name == n {
      if n == info.name {
        assert r[|out|].name == n;
      } else {
        var i :| 0 <= i < |out| && out[i].name == n;
        assert r[i].name == n;
      }
    }
  }

  class FileManager {
    const root: string

    /** Whether system calls fail only for the reasons the tree gives. */
    const reliable: bool

    /** Server data directories by server id; a server without one is absent. */
    var disk: map<string, Tree>

    constructor (root: string, reliable: bool)
      ensures this.root == root && this.reliable == reliable && disk == map[]
    {
      this.root, this.reliable := root, reliable;
      disk := map[];
    }

    function TreeOf(id: string): Tree
      reads this
    {
      if id in disk then disk[id] else map[]
    }

    /** Walks the components between the server root and the target, stopping at the first one
        that does not exist. `below` is what Rel makes of the two paths. Any Lstat may fail for
        reasons of its own, unless the file system is reliable. */
    method LstatEach(t: Tree, rootPath: string, target: string, ghost below: seq<string>)
      returns (r: Result<string, PathError>)
      requires Names(below) && Rel(rootPath, target) == Ok(Render(Parts(false, below)))
      ensures r == Verdict(ResolveNoLinks(t, below), target) || (!reliable && r == Err(IoError))
    {
      hide Resolve, Rel, Split, Render;
      var parts := Split(Rel(rootPath, target).value);
      PartsOf(below);
      RootLookup(t);
      var current: seq<string> := [];
      for i := 0 to |parts|
        invariant current == if below == [] then [] else below[..i]
        invariant current != [] ==> ResolveNoLinks(t, current) == Found(current)
      {
        var part := parts[i];
        if part == "." || part == "" {
          continue;
        }
        WalkStep(t, below, i, target);
        current := current + [part];
        assert current == below[..i + 1];
        var failed := Fault(reliable);
        if failed {
          return Err(IoError);
        }
        var info := Lstat(t, current);
        var stop := Judge(t, info, target);
        if stop.Some? {
          return stop.value;
        }
      }
      assert below != [] ==> below[..|below|] == below;
      r := Ok(target);
    }

    /** The walk as a whole: on a reliable file system its answer is that of the entries on the way. */
    method RejectSymlinkComponents(t: Tree, rootPath: string, target: string, ghost below: seq<string>)
      returns (r: Result<string, PathError>)
      requires Names(below) && Rel(rootPath, target) == Ok(Render(Parts(false, below)))
      ensures r == Verdict(ResolveNoLinks(t, below), target) || (!reliable && r == Err(IoError))
      ensures r in {Ok(target), Err(OutsideRoot), Err(IoError)}
      ensures r.Ok? || reliable ==>
        (r.Ok? <==>
          forall k :: 0 <= k <= |below| && (forall j :: 0 <= j <= k ==> below[..j] in t) ==>
            (k > 0 ==> !t[below[..k]].Link?) && (k < |below| ==> t[below[..k]] != File))
      ensures forall k ::
        && 0 <= k <= |below| && (forall j :: 0 <= j <= k ==> below[..j] in t)
        && (forall j :: 0 <= j < k ==> (j > 0 ==> !t[below[..j]].Link?) && t[below[..j]] != File) ==>
            && (k > 0 && t[below[..k]].Link? ==> r == Err(OutsideRoot) || (!reliable && r == Err(IoError)))
            && (k < |below| && t[below[..k]] == File ==> r == Err(IoError))
    {
      VerdictMeans(t, below, target);
      hide Verdict, Resolve;
      r := LstatEach(t, rootPath, target, below);
    }

    method ResolvePath(id: string, rel: string) returns (r: Result<string, PathError>)
      ensures r == Resolved(root, TreeOf(id), id, rel) || (!reliable && Lexical(root, id, rel).Ok? && r == Err(IoError))
      ensures Lexical(root, id, rel).Err? || r.Ok? ==> r == Lexical(root, id, rel)
      ensures Lexical(root, id, rel).Ok? ==>
        var t, below := if id in disk then disk[id] else map[], Below(root, id, rel);
        && (r.Ok? || r == Err(OutsideRoot) || r == Err(IoError))
        && (r.Ok? || reliable ==>
             (r.Ok? <==>
               forall k :: 0 <= k <= |below| && (forall j :: 0 <= j <= k ==> below[..j] in t) ==>
                 (k > 0 ==> !t[below[..k]].Link?) && (k < |below| ==> t[below[..k]] != File)))
        && forall k ::
             && 0 <= k <= |below| && (forall j :: 0 <= j <= k ==> below[..j] in t)
             && (forall j :: 0 <= j < k ==> (j > 0 ==> !t[below[..j]].Link?) && t[below[..j]] != File) ==>
               && (k > 0 && t[below[..k]].Link? ==> r == Err(OutsideRoot) || (!reliable && r == Err(IoError)))
               && (k < |below| && t[below[..k]] == File ==> r == Err(IoError))
    {
      var serverRoot := ServerRoot(root, id);
      if serverRoot.Err? {
        return serverRoot;
      }
      if IsAbs(rel) || '\0' in rel || '\\' in rel {
        return Err(OutsideRoot);
      }
      var abs := JoinAll([serverRoot.value, Clean(rel)]);
      var inside := Rel(serverRoot.value, abs);
      if inside.Err? || Escapes(inside.value) {
        return Err(OutsideRoot);
      }
      BelowIsNames(root, id, rel);
      r := RejectSymlinkComponents(TreeOf(id), serverRoot.value, abs, Below(root, id, rel));
    }

    ghost predicate Listable(id: string, rel: string)
      reads this
    {
      && Lexical(root, id, rel).Ok?
      && var t, below := TreeOf(id), Below(root, id, rel);
         ResolveNoLinks(t, below) == Found(below) && below in t && t[below] == Dir
    }

    /** When a directory can be listed, on the tree's entries alone. */
    lemma ListableMeans(id: string, rel: string)
      ensures Listable(id, rel) ==> Lexical(root, id, rel).Ok?
      ensures Lexical(root, id, rel).Ok? ==>
        var t, below := if id in disk then disk[id] else map[], Below(root, id, rel);
        Listable(id, rel) <==>
          && below in t && t[below] == Dir
          && forall j :: 0 <= j < |below| ==>
               below[..j] in t && if j > 0 then t[below[..j]] == Dir else t[below[..j]] != File
    {
      if Lexical(root, id, rel).Ok? {
        var below := Below(root, id, rel);
        BelowIsNames(root, id, rel);
        FoundMeans(TreeOf(id), below);
      }
    }

    /** What a listing says about one entry. The reported path of an entry that is not a link and
        has no backslash in its name is accepted by ResolvePath and means that entry. */
    ghost predicate Described(id: string, rel: string, info: FileInfo)
      requires Lexical(root, id, rel).Ok?
      reads this
    {
      var t, entry := TreeOf(id), Below(root, id, rel) + [info.name];
      && entry in t
      && info.isDir == (t[entry] == Dir)
      && info.path == JoinSlash(entry)
      && (!t[entry].Link? && '\\' !in info.name ==>
            Resolved(root, t, id, info.path) == Ok(JoinAll([Lexical(root, id, rel).value, info.name])))
    }

    method Describe(id: string, rel: string, n: string) returns (info: FileInfo)
      requires WellFormed(TreeOf(id)) && Listable(id, rel)
      requires n in Children(TreeOf(id), Below(root, id, rel))
      ensures info.name == n && Described(id, rel, info)
    {
      var t, entry := TreeOf(id), Below(root, id, rel) + [n];
      ChildInTree(t, Below(root, id, rel), n);
      assert Names(entry) && Without(entry, 0, '\0') && n == entry[|entry| - 1];
      EntryParts(root, id, rel, n);
      if !t[entry].Link? && '\\' !in n {
        ListedPathResolves(root, t, id, rel, n);
      }
      var child := Rel(ServerRoot(root, id).value, JoinAll([Lexical(root, id, rel).value, n]));
      info := FileInfo(n, child.value, t[entry] == Dir);
    }

    method ListEntries(id: string, rel: string) returns (failed: bool, out: seq<FileInfo>)
      requires WellFormed(TreeOf(id)) && Listable(id, rel)
      ensures failed ==> !reliable
      ensures !failed ==> Complete(out, Children(TreeOf(id), Below(root, id, rel)))
      ensures forall i :: 0 <= i < |out| ==> Described(id, rel, out[i])
    {
      hide Described, Complete, Below, Children, Resolve;
      ghost var all := Children(TreeOf(id), Below(root, id, rel));
      var todo := Children(TreeOf(id), Below(root, id, rel));
      out := [];
      NothingListed();
      assert all - todo == {};
      while todo != {}
        invariant todo <= all && Complete(out, all - todo)
        invariant forall i :: 0 <= i < |out| ==> Described(id, rel, out[i])
      {
        failed := Fault(reliable);
        if failed {
          return;
        }
        var n :| n in todo;
        var info := Describe(id, rel, n);
        CompleteExtends(out, all - todo, info);
        assert (all - todo) + {n} == all - (todo - {n});
        out := out + [info];
        todo := todo - {n};
      }
      failed := false;
      assert all - todo == all;
    }

    /** Exact on a reliable file system and with a live context; otherwise a call may fail instead. */
    method List(id: string, rel: string) returns (r: Result<seq<FileInfo>, PathError>)
      requires WellFormed(TreeOf(id))
      ensures r.Ok? ==> Listable(id, rel)
      ensures Listable(id, rel) && r.Err? ==> !reliable && r == Err(IoError)
      ensures r.Ok? ==>
        && Complete(r.value, Children(TreeOf(id), Below(root, id, rel)))
        && (forall i :: 0 <= i < |r.value| ==> Described(id, rel, r.value[i]))
      ensures Resolved(root, TreeOf(id), id, rel).Err? ==>
        r == Err(Resolved(root, TreeOf(id), id, rel).error) || (!reliable && r == Err(IoError))
    {
      var failed := Fault(reliable);
      if failed {
        return Err(IoError);
      }
      var resolved := ResolvePath(id, rel);
      if resolved.Err? {
        return Err(resolved.error);
      }
      var t, below := TreeOf(id), Below(root, id, rel);
      LexicalEqualsPhysical(root, t, id, rel, MAX_LINKS);
      LexicalEqualsPhysical(root, t, id, rel, 0);
      BelowIsNames(root, id, rel);
      LinksPlayNoPart(t, [], below, MAX_LINKS, true);
      failed := Fault(reliable);
      if failed {
        return Err(IoError);
      }
      if Resolve(t, [], below, MAX_LINKS, true) == Missing {
        return Err(NotFound);
      }
      if t[below] != Dir {
        return Err(IoError);
      }
      var out;
      failed, out := ListEntries(id, rel);
      r := if failed then Err(IoError) else Ok(out);
    }
  }
}
