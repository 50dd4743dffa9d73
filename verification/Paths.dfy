/** Slash-separated paths: the lexical rules of Go's path/filepath on Unix
    (Clean, Join, Rel, IsAbs), defined on strings and reasoned about on components. */
module Paths {
  import opened Text

  // ---------------------------------------------------------------- splitting and joining

  function Split(s: string): (r: seq<string>)
    ensures |r| >= 1
  {
    if s == "" then [""]
    else
      var r := Split(s[1..]);
      if s[0] == '/' then [""] + r else [[s[0]] + r[0]] + r[1..]
  }

  function JoinSlash(cs: seq<string>): string {
    if cs == [] then ""
    else if |cs| == 1 then cs[0]
    else cs[0] + "/" + JoinSlash(cs[1..])
  }

  predicate Plain(c: string) { '/' !in c }

  predicate AllPlain(cs: seq<string>) { forall i :: 0 <= i < |cs| ==> Plain(cs[i]) }

  lemma {:induction false} SplitIsPlain(s: string)
    ensures AllPlain(Split(s))
  {
    if s != "" {
      SplitIsPlain(s[1..]);
    }
  }

  lemma {:induction false} SplitPlain(s: string)
    requires Plain(s)
    ensures Split(s) == [s]
  {
    if s != "" {
      SplitPlain(s[1..]);
      assert s == [s[0]] + s[1..];
    }
  }

  lemma {:induction false} SplitAppend(a: string, b: string)
    ensures Split(a + "/" + b) == Split(a) + Split(b)
  {
    var s := a + "/" + b;
    if a == "" {
      assert s[1..] == b;
    } else {
      assert s[1..] == a[1..] + "/" + b;
      SplitAppend(a[1..], b);
    }
  }

  lemma {:induction false} SplitJoin(cs: seq<string>)
    requires cs != [] && AllPlain(cs)
    ensures Split(JoinSlash(cs)) == cs
  {
    hide Split;
    SplitPlain(cs[0]);
    HeadTail(cs);
    if |cs| > 1 {
      SplitAppend(cs[0], JoinSlash(cs[1..]));
      SplitJoin(cs[1..]);
    }
  }

  // ---------------------------------------------------------------- normal forms

  /** A component that names a directory entry. */
  predicate Name(c: string) { c != "" && c != "." && c != ".." && Plain(c) }

  predicate Names(cs: seq<string>) { forall i :: 0 <= i < |cs| ==> Name(cs[i]) }

  /** Names only, except for leading ".." in a relative path. */
  predicate Normal(rooted: bool, cs: seq<string>) {
    && (forall i :: 0 <= i < |cs| ==> Name(cs[i]) || (!rooted && cs[i] == ".."))
    && (forall i, j :: 0 <= i < j < |cs| && Name(cs[i]) ==> Name(cs[j]))
  }

  function Push(rooted: bool, st: seq<string>, c: string): seq<string> {
    if c == "" || c == "." then st
    else if c != ".." then st + [c]
    else if st != [] && st[|st| - 1] != ".." then st[..|st| - 1]
    else if rooted then st
    else st + [".."]
  }

  /** Clean's left-to-right pass: `st` is the output so far. */
  function Norm(rooted: bool, st: seq<string>, cs: seq<string>): seq<string>
    decreases |cs|
  {
    if cs == [] then st else Norm(rooted, Push(rooted, st, cs[0]), cs[1..])
  }

  lemma PushIsNormal(rooted: bool, st: seq<string>, c: string)
    requires Normal(rooted, st) && Plain(c)
    ensures Normal(rooted, Push(rooted, st, c))
  {
    if st != [] { assert Name(st[|st| - 1]) || st[|st| - 1] == ".."; }
  }

  lemma {:induction false} NormIsNormal(rooted: bool, st: seq<string>, cs: seq<string>)
    requires Normal(rooted, st) && AllPlain(cs)
    ensures Normal(rooted, Norm(rooted, st, cs))
    decreases |cs|
  {
    if cs != [] {
      PushIsNormal(rooted, st, cs[0]);
      NormIsNormal(rooted, Push(rooted, st, cs[0]), cs[1..]);
    }
  }

  lemma {:induction false} NormAppend(rooted: bool, st: seq<string>, a: seq<string>, b: seq<string>)
    ensures Norm(rooted, st, a + b) == Norm(rooted, Norm(rooted, st, a), b)
    decreases |a|
  {
    if a == [] {
      assert a + b == b;
    } else {
      assert (a + b)[1..] == a[1..] + b;
      NormAppend(rooted, Push(rooted, st, a[0]), a[1..], b);
    }
  }

  lemma {:induction false} NormOfNames(rooted: bool, st: seq<string>, cs: seq<string>)
    requires Names(cs)
    ensures Norm(rooted, st, cs) == st + cs
    decreases |cs|
  {
    if cs != [] {
      NormOfNames(rooted, st + [cs[0]], cs[1..]);
      assert st + cs == (st + [cs[0]]) + cs[1..];
    }
  }

  lemma NormOne(rooted: bool, st: seq<string>, c: string)
    ensures Norm(rooted, st, [c]) == Push(rooted, st, c)
  {
    assert [c][1..] == [];
  }

  lemma {:induction false} NormOfNormal(rooted: bool, cs: seq<string>)
    requires Normal(rooted, cs)
    ensures Norm(rooted, [], cs) == cs
  {
    if cs != [] {
      var n := |cs| - 1;
      NormOfNormal(rooted, cs[..n]);
      assert Name(cs[n]) || (!rooted && cs[n] == "..");
      NormAppend(rooted, [], cs[..n], [cs[n]]);
      NormOne(rooted, cs[..n], cs[n]);
      InitLast(cs);
      hide Norm;
    }
  }

  lemma PushThrough(rooted: bool, st: seq<string>, mid: seq<string>, c: string)
    requires Normal(false, mid)
    ensures Norm(rooted, st, Push(false, mid, c)) == Push(rooted, Norm(rooted, st, mid), c)
  {
    var n := |mid| - 1;
    if c == "" || c == "." {
    } else if c == ".." && mid != [] && mid[n] != ".." {
      assert Name(mid[n]);
      assert mid == mid[..n] + [mid[n]];
      NormAppend(rooted, st, mid[..n], [mid[n]]);
      assert Norm(rooted, st, mid) == Norm(rooted, st, mid[..n]) + [mid[n]];
    } else {
      NormAppend(rooted, st, mid, [c]);
    }
  }

  /** Cleaning a relative path before appending it changes nothing: ".." left at its front
      still climb out of `st` afterwards. */
  lemma {:induction false} CleanBeforeAppend(rooted: bool, st: seq<string>, mid: seq<string>, cs: seq<string>)
    requires Normal(false, mid) && AllPlain(cs)
    ensures Norm(rooted, st, Norm(false, mid, cs)) == Norm(rooted, Norm(rooted, st, mid), cs)
    decreases |cs|
  {
    if cs != [] {
      PushIsNormal(false, mid, cs[0]);
      CleanBeforeAppend(rooted, st, Push(false, mid, cs[0]), cs[1..]);
      PushThrough(rooted, st, mid, cs[0]);
    }
  }

  // ---------------------------------------------------------------- Clean, Join, Rel

  datatype Parts = Parts(rooted: bool, comps: seq<string>)

  ghost predicate Canonical(x: Parts) { Normal(x.rooted, x.comps) }

  predicate IsAbs(p: string) { p != "" && p[0] == '/' }

  function Parse(p: string): Parts {
    Parts(IsAbs(p), Norm(IsAbs(p), [], Split(p)))
  }

  function Render(x: Parts): string {
    if x.rooted then "/" + JoinSlash(x.comps)
    else if x.comps == [] then "."
    else JoinSlash(x.comps)
  }

  function Clean(p: string): string { Render(Parse(p)) }

  /** filepath.Join: leading empty elements are skipped. */
  function JoinAll(elems: seq<string>): string {
    if elems == [] then ""
    else if elems[0] == "" then JoinAll(elems[1..])
    else Clean(JoinSlash(elems))
  }

  function Common(a: seq<string>, b: seq<string>): (k: nat)
    ensures k <= |a| && k <= |b| && a[..k] == b[..k]
    ensures k < |a| && k < |b| ==> a[k] != b[k]
  {
    if a == [] || b == [] || a[0] != b[0] then 0
    else
      var k := Common(a[1..], b[1..]);
      assert a[..k + 1] == [a[0]] + a[1..][..k];
      assert b[..k + 1] == [b[0]] + b[1..][..k];
      1 + k
  }

  function Ups(n: nat): seq<string> { seq(n, _ => "..") }

  datatype RelError = CannotRelate

  function RelComps(b: seq<string>, t: seq<string>): Result<string, RelError> {
    var k := Common(b, t);
    if k < |b| && b[k] == ".." then Err(CannotRelate)
    else Ok(JoinSlash(Ups(|b| - k) + t[k..]))
  }

  function Rel(base: string, target: string): Result<string, RelError> {
    var b, t := Parse(base), Parse(target);
    if b == t then Ok(".")
    else if b.rooted != t.rooted then Err(CannotRelate)
    else RelComps(b.comps, if !t.rooted && t.comps == [] then ["."] else t.comps)
  }

  /** The test every caller applies to a relative path. */
  predicate Escapes(rel: string) { rel == ".." || "../" <= rel }

  lemma ParseIsCanonical(p: string)
    ensures Canonical(Parse(p))
  {
    SplitIsPlain(p);
    NormIsNormal(IsAbs(p), [], Split(p));
  }

  lemma NormalIsPlain(rooted: bool, cs: seq<string>)
    requires Normal(rooted, cs)
    ensures AllPlain(cs)
  {
    forall i | 0 <= i < |cs| ensures Plain(cs[i]) {
      assert Name(cs[i]) || cs[i] == "..";
    }
  }

  lemma JoinSlashStart(cs: seq<string>)
    requires cs != [] && cs[0] != "" && Plain(cs[0])
    ensures JoinSlash(cs) != "" && JoinSlash(cs)[0] == cs[0][0] != '/'
  {
  }

  lemma ParseEmpty()
    ensures Parse("") == Parts(false, [])
  {
    assert Split("") == [""];
    assert [""][1..] == [];
  }

  /** Text put in the middle of a path whose components change nothing there. */
  lemma MiddleDropped(a: string, mid: string, b: string)
    requires var r := IsAbs(a + "/" + b);
             Norm(r, Norm(r, [], Split(a)), Split(mid)) == Norm(r, [], Split(a))
    ensures Clean(a + "/" + mid + "/" + b) == Clean(a + "/" + b)
  {
    var s, r := a + "/" + mid + "/" + b, IsAbs(a + "/" + b);
    assert s == (a + "/" + mid) + "/" + b && IsAbs(s) == r;
    SplitAppend(a + "/" + mid, b);
    SplitAppend(a, mid);
    SplitAppend(a, b);
    NormAppend(r, [], Split(a) + Split(mid), Split(b));
    NormAppend(r, [], Split(a), Split(mid));
    NormAppend(r, [], Split(a), Split(b));
  }

  lemma SlashesAndDots(a: string, b: string)
    ensures Clean(a + "//" + b) == Clean(a + "/" + b)
    ensures Clean(a + "/./" + b) == Clean(a + "/" + b)
  {
    hide Split, Clean;
    SplitPlain("");
    SplitPlain(".");
    assert [""][1..] == [] && ["."][1..] == [];
    MiddleDropped(a, "", b);
    assert a + "/" + "" + "/" + b == a + "//" + b;
    MiddleDropped(a, ".", b);
    assert a + "/" + "." + "/" + b == a + "/./" + b;
  }

  lemma NameAndUp(a: string, c: string, b: string)
    requires Name(c)
    ensures Clean(a + "/" + c + "/../" + b) == Clean(a + "/" + b)
  {
    hide Split, Clean;
    SplitPlain(c);
    SplitPlain("..");
    SplitAppend(c, "..");
    assert c + "/" + ".." == c + "/..";
    var r := IsAbs(a + "/" + b);
    var st := Norm(r, [], Split(a));
    assert [c, ".."][1..] == [".."] && [".."][1..] == [];
    assert Norm(r, st, [c, ".."]) == Norm(r, st + [c], [".."]) == Push(r, st + [c], "..") == st;
    MiddleDropped(a, c + "/..", b);
    assert a + "/" + (c + "/..") + "/" + b == a + "/" + c + "/../" + b;
  }

  lemma UpAtRoot(b: string)
    ensures Clean("/../" + b) == Clean("/" + b)
  {
    hide Split, Clean;
    SplitPlain("");
    SplitPlain("..");
    assert [""][1..] == [] && [".."][1..] == [];
    assert Norm(true, [], [""]) == [] && Norm(true, [], [".."]) == [];
    MiddleDropped("", "..", b);
    assert "" + "/" + b == "/" + b && "" + "/" + ".." + "/" + b == "/../" + b;
  }

  /** Clean's output parses to what it was rendered from, so Clean is idempotent. */
  lemma ParseRender(x: Parts)
    requires Canonical(x)
    ensures Parse(Render(x)) == x
  {
    NormalIsPlain(x.rooted, x.comps);
    var j := JoinSlash(x.comps);
    if x.comps == [] {
      assert Split("/") == ["", ""];
      SplitPlain(".");
      assert Norm(true, [], ["", ""]) == Norm(true, [], [""]) == [];
    } else {
      assert Name(x.comps[0]) || x.comps[0] == "..";
      JoinSlashStart(x.comps);
      SplitJoin(x.comps);
      NormOfNormal(x.rooted, x.comps);
      if x.rooted {
        SplitAppend("", j);
        assert "" + "/" + j == "/" + j;
        NormAppend(true, [], [""], x.comps);
      }
    }
  }

  /** The rules that make up Clean's definition: repeated slashes are one, "." goes, a name followed by
      ".." goes with it, and ".." goes at the root; and a path to which none applies stays as it is. */
  lemma CleanRules(a: string, c: string, b: string, names: seq<string>)
    ensures Clean(a + "//" + b) == Clean(a + "/" + b)
    ensures Clean(a + "/./" + b) == Clean(a + "/" + b)
    ensures c !in {"", ".", ".."} && '/' !in c ==> Clean(a + "/" + c + "/../" + b) == Clean(a + "/" + b)
    ensures Clean("/../" + b) == Clean("/" + b)
    ensures names != [] && (forall n :: n in names ==> n !in {"", ".", ".."} && '/' !in n) ==>
              Clean(JoinSlash(names)) == JoinSlash(names) && Clean("/" + JoinSlash(names)) == "/" + JoinSlash(names)
  {
    SlashesAndDots(a, b);
    if c !in {"", ".", ".."} && '/' !in c { NameAndUp(a, c, b); }
    UpAtRoot(b);
    hide Parse;
    if names != [] && forall n :: n in names ==> n !in {"", ".", ".."} && '/' !in n {
      assert forall i :: 0 <= i < |names| ==> names[i] in names;
      ParseRender(Parts(false, names));
      ParseRender(Parts(true, names));
    }
  }

  /** Joining a path onto a non-empty base continues the base's own normalisation. */
  lemma ParseJoin(a: string, b: string)
    requires a != ""
    ensures var base := Parse(a);
            && Canonical(Parts(base.rooted, Norm(base.rooted, base.comps, Split(b))))
            && JoinAll([a, b]) == Render(Parts(base.rooted, Norm(base.rooted, base.comps, Split(b))))
  {
    assert JoinSlash([a, b]) == a + "/" + b;
    SplitAppend(a, b);
    NormAppend(IsAbs(a), [], Split(a), Split(b));
    ParseIsCanonical(a + "/" + b);
  }

  lemma PrefixElements(p: string, s: string)
    ensures p <= s ==> forall i :: 0 <= i < |p| ==> p[i] in s
  {
    assert p <= s ==> forall i :: 0 <= i < |p| ==> p[i] == s[i];
  }

  lemma EscapesIffUp(cs: seq<string>)
    requires cs != [] && AllPlain(cs)
    ensures Escapes(JoinSlash(cs)) <==> cs[0] == ".."
  {
    var c, j := cs[0], JoinSlash(cs);
    if |cs| == 1 {
      PrefixElements("../", c);
      assert "../"[2] == '/';
    } else {
      assert j == c + "/" + JoinSlash(cs[1..]) && j[|c|] == '/';
      assert c == ".." ==> j[..3] == "../";
      if "../" <= j {
        assert j[0] == '.' && j[1] == '.' && j[2] == '/';
        assert c == [j[0], j[1]];
      }
    }
  }

  lemma {:induction false} CommonOfPrefix(a: seq<string>, b: seq<string>)
    requires a <= b
    ensures Common(a, b) == |a|
  {
    if a != [] { CommonOfPrefix(a[1..], b[1..]); }
  }

  /** A base that is a component prefix: the relative path is what follows it. */
  lemma RelOfPrefix(b: Parts, t: Parts)
    requires Canonical(b) && Canonical(t) && b.rooted == t.rooted
    requires b.comps != [] && Name(b.comps[|b.comps| - 1]) && b.comps <= t.comps
    ensures Names(t.comps[|b.comps|..])
    ensures Rel(Render(b), Render(t)) == Ok(Render(Parts(false, t.comps[|b.comps|..])))
  {
    ParseRender(b);
    ParseRender(t);
    var n := |b.comps|;
    assert t.comps[n - 1] == b.comps[n - 1];
    CommonOfPrefix(b.comps, t.comps);
    if b == t {
      assert t.comps[n..] == [];
    } else {
      assert Ups(0) + t.comps[n..] == t.comps[n..];
    }
  }

  lemma ClimbingEscapes(n: nat, rest: seq<string>)
    requires n > 0 && AllPlain(rest)
    ensures Escapes(JoinSlash(Ups(n) + rest))
  {
    var cs := Ups(n) + rest;
    assert cs[0] == "..";
    assert AllPlain(cs) by {
      forall i | 0 <= i < |cs| ensures Plain(cs[i]) {
        if i < n { assert cs[i] == ".."; } else { assert cs[i] == rest[i - n]; }
      }
    }
    EscapesIffUp(cs);
  }

  lemma RelCompsOfOther(b: seq<string>, t: seq<string>)
    requires AllPlain(t) && !(b <= t)
    ensures var rel := RelComps(b, t); rel.Ok? ==> Escapes(rel.value)
  {
    var k := Common(b, t);
    assert b[..|b|] == b;
    ClimbingEscapes(|b| - k, t[k..]);
  }

  /** Any other target is reached by climbing, or not at all. */
  lemma RelOfOther(b: Parts, t: Parts)
    requires Canonical(b) && Canonical(t) && b.rooted == t.rooted
    requires !(b.comps <= t.comps)
    ensures var rel := Rel(Render(b), Render(t)); rel.Ok? ==> Escapes(rel.value)
  {
    ParseRender(b);
    ParseRender(t);
    NormalIsPlain(t.rooted, t.comps);
    assert forall i :: 0 <= i < |b.comps| ==> b.comps[i] != ".";
    RelCompsOfOther(b.comps, if !t.rooted && t.comps == [] then ["."] else t.comps);
  }

  /** Lexical containment: the callers' Rel test accepts a target exactly when the base is a
      component prefix of it. */
  lemma RelAcceptsIffInside(b: Parts, t: Parts)
    requires Canonical(b) && Canonical(t) && b.rooted == t.rooted
    requires b.comps != [] && Name(b.comps[|b.comps| - 1])
    ensures var rel := Rel(Render(b), Render(t));
            (rel.Ok? && !Escapes(rel.value)) <==> b.comps <= t.comps
  {
    if b.comps <= t.comps {
      RelOfPrefix(b, t);
      var rest := t.comps[|b.comps|..];
      NormalIsPlain(false, rest);
      if rest != [] { EscapesIffUp(rest); }
    } else {
      RelOfOther(b, t);
    }
  }
}
