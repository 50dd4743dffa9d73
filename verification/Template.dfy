/** Startup commands: `{{key}}` placeholders replaced one variable after another, in whatever order
    the map is iterated. */
module Template {
  import opened Strings = Text

  // ---------------------------------------------------------------- text substitution

  /** strings.ReplaceAll for a non-empty pattern: leftmost matches, not overlapping. */
  function ReplaceAll(s: string, pat: string, val: string): string
    requires pat != ""
  {
    if s == "" then ""
    else if pat <= s then val + ReplaceAll(s[|pat|..], pat, val)
    else [s[0]] + ReplaceAll(s[1..], pat, val)
  }

  function Placeholder(key: string): string { "{{" + key + "}}" }

  function ReplaceInOrder(cmd: string, vars: map<string, string>, order: seq<string>): string
    requires forall i :: 0 <= i < |order| ==> order[i] in vars
  {
    if order == [] then cmd
    else
      var n := |order| - 1;
      ReplaceAll(ReplaceInOrder(cmd, vars, order[..n]), Placeholder(order[n]), vars[order[n]])
  }

  // ---------------------------------------------------------------- templates as tokens

  datatype Token = Text(text: string) | Hole(key: string)

  function Written(ts: seq<Token>): string {
    if ts == [] then ""
    else (if ts[0].Text? then ts[0].text else Placeholder(ts[0].key)) + Written(ts[1..])
  }

  predicate BraceFree(s: string) { '{' !in s && '}' !in s }

  predicate ProperToken(t: Token) { if t.Text? then '{' !in t.text else BraceFree(t.key) }

  /** No opening brace outside the placeholders; closing ones may stand anywhere. */
  predicate Proper(ts: seq<Token>) { forall i :: 0 <= i < |ts| ==> ProperToken(ts[i]) }

  predicate ProperVars(vars: map<string, string>) {
    forall k :: k in vars ==> BraceFree(k) && '{' !in vars[k]
  }

  /** All placeholders in `keys` filled at once; the others stay. */
  function Filled(ts: seq<Token>, vars: map<string, string>, keys: set<string>): seq<Token>
    requires keys <= vars.Keys
  {
    seq(|ts|, i requires 0 <= i < |ts| =>
      if ts[i].Hole? && ts[i].key in keys then Text(vars[ts[i].key]) else ts[i])
  }

  function FilledOne(ts: seq<Token>, key: string, val: string): seq<Token> {
    seq(|ts|, i requires 0 <= i < |ts| => if ts[i] == Hole(key) then Text(val) else ts[i])
  }

  // ---------------------------------------------------------------- matching

  lemma {:induction false} PassOver(a: string, rest: string, pat: string, val: string)
    requires pat != "" && pat[0] !in a
    ensures ReplaceAll(a + rest, pat, val) == a + ReplaceAll(rest, pat, val)
  {
    if a == "" {
      assert a + rest == rest;
    } else {
      assert (a + rest)[0] == a[0] && (a + rest)[1..] == a[1..] + rest;
      PassOver(a[1..], rest, pat, val);
      assert a == [a[0]] + a[1..];
    }
  }

  /** One placeholder is a prefix of text that starts with another only if they are the same. */
  lemma {:induction false} SameKey(k: string, key: string, rest: string)
    requires BraceFree(k) && BraceFree(key)
    requires k + "}}" <= key + "}}" + rest
    ensures k == key
  {
    var p, s := k + "}}", key + "}}" + rest;
    assert p[0] == s[0];
    if k != "" && key != "" {
      assert p[1..] == k[1..] + "}}" && s[1..] == key[1..] + "}}" + rest;
      assert p[1..] <= s[1..];
      SameKey(k[1..], key[1..], rest);
      assert k == [k[0]] + k[1..] && key == [key[0]] + key[1..];
    }
  }

  lemma OtherHoleIsNoMatch(key: string, rest: string, k: string)
    requires BraceFree(k) && BraceFree(key) && k != key
    ensures !(Placeholder(k) <= Placeholder(key) + rest)
  {
    var pat, s := Placeholder(k), Placeholder(key) + rest;
    assert pat[2..] == k + "}}" && s[2..] == key + "}}" + rest;
    if pat <= s {
      assert pat[2..] <= s[2..];
      SameKey(k, key, rest);
    }
  }

  lemma PassOtherHole(key: string, rest: string, k: string, val: string)
    requires BraceFree(k) && BraceFree(key) && k != key
    ensures ReplaceAll(Placeholder(key) + rest, Placeholder(k), val) ==
      Placeholder(key) + ReplaceAll(rest, Placeholder(k), val)
  {
    var pat, tail := Placeholder(k), key + "}}";
    var s0, s1 := Placeholder(key) + rest, "{" + (tail + rest);
    OtherHoleIsNoMatch(key, rest, k);
    assert s0 == ['{'] + s1 && s0[1..] == s1 && s1[1..] == tail + rest;
    assert pat[1] == '{' && s1[1] == (tail + rest)[0] != '{';
    PassOver(tail, rest, pat, val);
    assert ReplaceAll(s1, pat, val) == ['{'] + ReplaceAll(tail + rest, pat, val);
    assert Placeholder(key) == ['{'] + (['{'] + tail);
  }

  lemma ReplaceThisHole(rest: string, k: string, val: string)
    ensures ReplaceAll(Placeholder(k) + rest, Placeholder(k), val) == val + ReplaceAll(rest, Placeholder(k), val)
  {
    var s := Placeholder(k) + rest;
    assert Placeholder(k) <= s && s[|Placeholder(k)|..] == rest;
  }

  /** Replacing one placeholder in the text is filling one hole in the tokens. */
  lemma {:induction false} ReplaceIsFill(ts: seq<Token>, k: string, val: string)
    requires Proper(ts) && BraceFree(k)
    ensures ReplaceAll(Written(ts), Placeholder(k), val) == Written(FilledOne(ts, k, val))
  {
    if ts != [] {
      var rest := Written(ts[1..]);
      assert Proper(ts[1..]);
      ReplaceIsFill(ts[1..], k, val);
      assert FilledOne(ts, k, val)[1..] == FilledOne(ts[1..], k, val);
      assert ProperToken(ts[0]);
      if ts[0].Text? {
        PassOver(ts[0].text, rest, Placeholder(k), val);
      } else if ts[0].key == k {
        ReplaceThisHole(rest, k, val);
      } else {
        PassOtherHole(ts[0].key, rest, k, val);
      }
    }
  }

  // ---------------------------------------------------------------- order does not matter

  lemma ElementsSnoc(s: seq<string>, k: string)
    ensures SetOf(s + [k]) == SetOf(s) + {k}
  {
    assert forall x :: x in s + [k] <==> x in s || x == k;
  }

  lemma FilledStep(ts: seq<Token>, vars: map<string, string>, done: set<string>, k: string)
    requires Proper(ts) && ProperVars(vars) && done <= vars.Keys && k in vars
    ensures Proper(Filled(ts, vars, done))
    ensures FilledOne(Filled(ts, vars, done), k, vars[k]) == Filled(ts, vars, done + {k})
  {
    var r := Filled(ts, vars, done);
    forall i | 0 <= i < |r| ensures ProperToken(r[i]) {
      assert ProperToken(ts[i]);
    }
  }

  lemma ProperKey(vars: map<string, string>, k: string)
    requires ProperVars(vars) && k in vars
    ensures BraceFree(k)
  {
  }

  lemma {:induction false} InOrderIsFilled(ts: seq<Token>, vars: map<string, string>, order: seq<string>)
    requires Proper(ts) && ProperVars(vars)
    requires forall i :: 0 <= i < |order| ==> order[i] in vars
    ensures ReplaceInOrder(Written(ts), vars, order) == Written(Filled(ts, vars, SetOf(order)))
  {
    if order == [] {
      assert Filled(ts, vars, SetOf(order)) == ts;
    } else {
      var n := |order| - 1;
      InOrderIsFilled(ts, vars, order[..n]);
      FilledStep(ts, vars, SetOf(order[..n]), order[n]);
      hide Proper, ProperVars, Filled, Written, FilledOne;
      ProperKey(vars, order[n]);
      ReplaceIsFill(Filled(ts, vars, SetOf(order[..n])), order[n], vars[order[n]]);
      ElementsSnoc(order[..n], order[n]);
      assert order == order[..n] + [order[n]];
    }
  }

  /** With brace-free keys and no opening brace in text or values, every iteration order gives the
      simultaneous substitution, unknown placeholders left alone. */
  lemma OrderDoesNotMatter(ts: seq<Token>, vars: map<string, string>, order: seq<string>)
    requires Proper(ts) && ProperVars(vars) && SetOf(order) == vars.Keys
    ensures ReplaceInOrder(Written(ts), vars, order) == Written(Filled(ts, vars, vars.Keys))
  {
    assert forall i :: 0 <= i < |order| ==> order[i] in SetOf(order);
    InOrderIsFilled(ts, vars, order);
  }

  lemma ReplaceOneMore(cmd: string, vars: map<string, string>, order: seq<string>, k: string)
    requires (forall i :: 0 <= i < |order| ==> order[i] in vars) && k in vars
    ensures forall i :: 0 <= i < |order + [k]| ==> (order + [k])[i] in vars
    ensures ReplaceInOrder(cmd, vars, order + [k]) ==
            ReplaceAll(ReplaceInOrder(cmd, vars, order), Placeholder(k), vars[k])
  {
    assert (order + [k])[..|order|] == order;
    hide ReplaceAll, Placeholder;
  }

  /** The loop over the map; `order` is the order it happened to take. */
  method RenderInSomeOrder(cmd: string, vars: map<string, string>) returns (out: string, ghost order: seq<string>)
    ensures SetOf(order) == vars.Keys && |order| == |vars|
    ensures forall i :: 0 <= i < |order| ==> order[i] in vars
    ensures out == ReplaceInOrder(cmd, vars, order)
  {
    out, order := cmd, [];
    var todo := vars.Keys;
    assert ReplaceInOrder(cmd, vars, []) == cmd;
    hide ReplaceInOrder, ReplaceAll, Placeholder;
    while todo != {}
      invariant todo <= vars.Keys && SetOf(order) == vars.Keys - todo && |order| + |todo| == |vars.Keys|
      invariant forall i :: 0 <= i < |order| ==> order[i] in vars
      invariant out == ReplaceInOrder(cmd, vars, order)
    {
      var k :| k in todo;
      ReplaceOneMore(cmd, vars, order, k);
      out := ReplaceAll(out, Placeholder(k), vars[k]);
      ElementsSnoc(order, k);
      order := order + [k];
      todo := todo - {k};
    }
  }

  method RenderStartup(cmd: string, vars: map<string, string>) returns (out: string)
    ensures exists order :: SetOf(order) == vars.Keys && |order| == |vars| &&
              (forall i :: 0 <= i < |order| ==> order[i] in vars) && out == ReplaceInOrder(cmd, vars, order)
    ensures forall ts ::
      Proper(ts) && ProperVars(vars) && cmd == Written(ts) ==> out == Written(Filled(ts, vars, vars.Keys))
  {
    ghost var order;
    out, order := RenderInSomeOrder(cmd, vars);
    forall ts | Proper(ts) && ProperVars(vars) && cmd == Written(ts)
      ensures out == Written(Filled(ts, vars, vars.Keys)) {
      OrderDoesNotMatter(ts, vars, order);
    }
  }

  lemma NothingToReplace()
    ensures ReplaceAll("", "{{A}}", "{{B}}") == ReplaceAll("", "{{B}}", "x") == ""
  {
  }

  /** A value that itself contains a placeholder makes the order visible. */
  lemma BracesInValuesMakeOrderMatter()
    ensures var vars := map["A" := "{{B}}", "B" := "x"];
            ReplaceInOrder("{{A}}", vars, ["A", "B"]) == "x" && ReplaceInOrder("{{A}}", vars, ["B", "A"]) == "{{B}}"
  {
    ReplaceThisHole("", "A", "{{B}}");
    ReplaceThisHole("", "B", "x");
    PassOtherHole("A", "", "B", "x");
    assert Placeholder("A") + "" == "{{A}}" && Placeholder("B") + "" == "{{B}}";
    assert ["A", "B"][..1] == ["A"] && ["B", "A"][..1] == ["B"];
    assert ["A"][..0] == [] && ["B"][..0] == [];
    hide ReplaceAll;
    var vars := map["A" := "{{B}}", "B" := "x"];
    assert ReplaceAll("", "{{A}}", "{{B}}") == ReplaceAll("", "{{B}}", "x") == "" by { NothingToReplace(); }
    assert ReplaceInOrder("{{A}}", vars, ["A"]) == "{{B}}";
    assert ReplaceInOrder("{{A}}", vars, ["B"]) == "{{A}}";
  }
}
