/** Cgroup limits: written as decimal text, read back by parsing. */
module Limits {
  import opened Text
  import opened Faults
  import Backoff

  // ---------------------------------------------------------------- decimal numbers

  predicate IsDigit(c: char) { '0' <= c <= '9' }

  function DigitChar(d: nat): char
    requires d < 10
  {
    (d as char) + '0'
  }

  function DigitValue(c: char): nat
    requires IsDigit(c)
  {
    (c as int) - ('0' as int)
  }

  function Digits(n: nat): string {
    if n < 10 then [DigitChar(n)] else Digits(n / 10) + [DigitChar(n % 10)]
  }

  /** strconv.FormatInt(n, 10). */
  function FormatInt(n: int): string { if n < 0 then "-" + Digits(-n) else Digits(n) }

  predicate AllDigits(s: string) { forall i :: 0 <= i < |s| ==> IsDigit(s[i]) }

  function Value(s: string): nat
    requires AllDigits(s)
  {
    if s == "" then 0 else 10 * Value(s[..|s| - 1]) + DigitValue(s[|s| - 1])
  }

  /** strconv.ParseInt(s, 10, 64): an optional sign, at least one digit, and 64-bit range. */
  function ParseInt(s: string): Option<int> {
    var signed := s != "" && (s[0] == '-' || s[0] == '+');
    var body := if signed then s[1..] else s;
    if body == "" || !AllDigits(body) then None
    else
      var v: int := Value(body);
      var n := if signed && s[0] == '-' then -v else v;
      if Backoff.Int64(n) then Some(n) else None
  }

  lemma {:induction false} DigitsRoundTrip(n: nat)
    ensures AllDigits(Digits(n)) && Digits(n) != "" && Value(Digits(n)) == n
  {
    if n >= 10 {
      DigitsRoundTrip(n / 10);
      assert Digits(n)[..|Digits(n)| - 1] == Digits(n / 10);
    } else {
      assert [DigitChar(n)][..0] == "";
    }
  }

  /** Digits without a sign. */
  lemma ParseDigits(n: nat)
    requires n < Backoff.TWO63
    ensures ParseInt(Digits(n)) == Some(n)
  {
    DigitsRoundTrip(n);
    var s := Digits(n);
    assert IsDigit(s[0]);
    hide Digits, Value;
  }

  lemma ParseMinus(n: nat)
    requires n <= Backoff.TWO63
    ensures ParseInt("-" + Digits(n)) == Some(0 - n)
  {
    DigitsRoundTrip(n);
    var s := "-" + Digits(n);
    assert s[0] == '-' && s[1..] == Digits(n);
    hide Digits, Value;
  }

  lemma FormatThenParse(n: int)
    requires Backoff.Int64(n)
    ensures ParseInt(FormatInt(n)) == Some(n)
  {
    hide Digits, ParseInt;
    if n < 0 { ParseMinus(-n); } else { ParseDigits(n); }
  }

  /** Decimal, most significant digit first. */
  lemma PrintedDecimal(n: nat, d: nat)
    requires d < 10
    ensures FormatInt(d) == ["0123456789"[d]]
    ensures n > 0 ==> FormatInt(10 * n + d) == FormatInt(n) + ["0123456789"[d]]
    ensures n > 0 ==> FormatInt(0 - n) == "-" + FormatInt(n)
  {
    assert (10 * n + d) / 10 == n && (10 * n + d) % 10 == d;
    assert DigitChar(d) == "0123456789"[d];
  }

  lemma ParsedDecimal()
    ensures FormatInt(100_000) == "100000" && ParseInt("100000") == Some(100_000)
    ensures FormatInt(-27) == "-27" && ParseInt("-27") == Some(-27)
  {
    FormatThenParse(100_000);
    FormatThenParse(-27);
    hide ParseInt, FormatInt;
    PrintedDecimal(0, 1);
    PrintedDecimal(1, 0);
    PrintedDecimal(10, 0);
    PrintedDecimal(100, 0);
    PrintedDecimal(1000, 0);
    PrintedDecimal(10000, 0);
    PrintedDecimal(0, 2);
    PrintedDecimal(2, 7);
    PrintedDecimal(27, 0);
  }

  lemma NotDecimal()
    ensures ParseInt("") == None && ParseInt("-") == None && ParseInt("1e3") == None && ParseInt(" 1") == None
  {
    hide Value;
    assert !IsDigit("1e3"[1]) && !IsDigit(" 1"[0]) && "-"[1..] == "";
  }

  // ---------------------------------------------------------------- white space

  predicate IsSpace(c: char) {
    c == ' ' || c == '\t' || c == '\n' || c == '\r' || c == '\U{000B}' || c == '\U{000C}' || c == '\U{0085}' ||
      c == '\U{00A0}'
  }

  function TrimLeft(s: string): (r: string)
    ensures |r| <= |s| && (r != "" ==> !IsSpace(r[0]))
  {
    if s != "" && IsSpace(s[0]) then TrimLeft(s[1..]) else s
  }

  function TrimRight(s: string): string {
    if s != "" && IsSpace(s[|s| - 1]) then TrimRight(s[..|s| - 1]) else s
  }

  function TrimSpace(s: string): string { TrimRight(TrimLeft(s)) }

  /** Length of the text before the first white space. */
  function WordLength(s: string): (k: nat)
    ensures k <= |s| && (forall i :: 0 <= i < k ==> !IsSpace(s[i])) && (k < |s| ==> IsSpace(s[k]))
  {
    if s == "" || IsSpace(s[0]) then 0 else 1 + WordLength(s[1..])
  }

  /** strings.Fields. */
  function Fields(s: string): seq<string>
    decreases |s|
  {
    var t := TrimLeft(s);
    if t == "" then [] else [t[..WordLength(t)]] + Fields(t[WordLength(t)..])
  }

  predicate Solid(s: string) { s != "" && forall i :: 0 <= i < |s| ==> !IsSpace(s[i]) }

  /** White space is tab, line feed, vertical tab, form feed, carriage return, space, U+0085 and U+00A0. */
  lemma WhiteSpaceIs(c: char)
    ensures IsSpace(c) <==> 9 <= c as int <= 13 || c as int == 32 || c as int == 133 || c as int == 160
  {
  }

  /** The rules of strings.Fields: leading white space is dropped, and a word that white space or the end
      follows is the first field. */
  lemma FieldsRules(c: char, w: string, rest: string)
    ensures Fields("") == []
    ensures IsSpace(c) ==> Fields([c] + rest) == Fields(rest)
    ensures Solid(w) && (rest == "" || IsSpace(rest[0])) ==> Fields(w + rest) == [w] + Fields(rest)
  {
    assert ([c] + rest)[1..] == rest;
    if Solid(w) && (rest == "" || IsSpace(rest[0])) {
      var s := w + rest;
      assert s[0] == w[0] && TrimLeft(s) == s;
      var k := WordLength(s);
      assert forall i :: 0 <= i < |w| ==> s[i] == w[i];
      assert rest != "" ==> s[|w|] == rest[0];
      assert s[..k] == w && s[k..] == rest;
    }
  }

  lemma {:induction false} TrimLeftAll(a: string, s: string)
    requires (forall i :: 0 <= i < |a| ==> IsSpace(a[i])) && (s == "" || !IsSpace(s[0]))
    ensures TrimLeft(a + s) == s
  {
    if a != "" {
      assert (a + s)[1..] == a[1..] + s;
      TrimLeftAll(a[1..], s);
    } else {
      assert a + s == s;
    }
  }

  lemma {:induction false} TrimRightAll(s: string, b: string)
    requires (forall i :: 0 <= i < |b| ==> IsSpace(b[i])) && (s == "" || !IsSpace(s[|s| - 1]))
    ensures TrimRight(s + b) == s
  {
    if b != "" {
      var n := |b| - 1;
      assert (s + b)[..|s + b| - 1] == s + b[..n];
      TrimRightAll(s, b[..n]);
    } else {
      assert s + b == s;
    }
  }

  /** strings.TrimSpace takes white space off both ends and nothing else. */
  lemma TrimSpaceMeans(a: string, s: string, b: string)
    requires forall c :: c in a + b ==> IsSpace(c)
    requires s != "" ==> !IsSpace(s[0]) && !IsSpace(s[|s| - 1])
    ensures TrimSpace(a + s + b) == s
  {
    assert forall i :: 0 <= i < |a| ==> (a + b)[i] == a[i];
    assert forall i :: 0 <= i < |b| ==> (a + b)[|a| + i] == b[i];
    if s == "" {
      assert a + s + b == (a + b) + "";
      TrimLeftAll(a + b, "");
    } else {
      assert a + s + b == a + (s + b) && (s + b)[0] == s[0];
      TrimLeftAll(a, s + b);
      TrimRightAll(s, b);
    }
  }

  lemma FormatIsSolid(n: int)
    ensures Solid(FormatInt(n)) && FormatInt(n) != "max"
  {
    DigitsRoundTrip(if n < 0 then -n else n);
    assert forall c :: IsDigit(c) ==> !IsSpace(c);
    assert FormatInt(n)[0] == '-' || IsDigit(FormatInt(n)[0]);
  }

  // ---------------------------------------------------------------- limits and files

  datatype Limits = Limits(cpuMillicores: int, memoryBytes: int, pidMax: int)

  type Files = map<string, string>

  datatype LimitError = Unreadable(file: string) | Unparsable(file: string) | NotWritten(file: string)

  /** Go's integer division. */
  function TruncDiv(a: int, b: int): int
    requires b > 0
  {
    if a >= 0 then a / b else -((-a) / b)
  }

  function ReadCPU(files: Files): Result<int, LimitError> {
    if "cpu.max" !in files then Err(Unreadable("cpu.max"))
    else
      var f := Fields(files["cpu.max"]);
      if f == [] || f[0] == "max" then Ok(0)
      else
        match ParseInt(f[0])
        case None => Err(Unparsable("cpu.max"))
        case Some(quota) => Ok(TruncDiv(quota, 100))
  }

  function ReadAmount(files: Files, name: string): Result<int, LimitError> {
    if name !in files then Err(Unreadable(name))
    else
      var t := TrimSpace(files[name]);
      if t == "max" then Ok(0)
      else
        match ParseInt(t)
        case None => Err(Unparsable(name))
        case Some(n) => Ok(n)
  }

  /** The first error, or all three values. */
  function Combine(cpu: Result<int, LimitError>, mem: Result<int, LimitError>,
                   pids: Result<int, LimitError>): Result<Limits, LimitError> {
    if cpu.Err? then Err(cpu.error)
    else if mem.Err? then Err(mem.error)
    else if pids.Err? then Err(pids.error)
    else Ok(Limits(cpu.value, mem.value, pids.value))
  }

  /** What the three files say together. */
  function ReadAll(files: Files): Result<Limits, LimitError> {
    Combine(ReadCPU(files), ReadAmount(files, "memory.max"), ReadAmount(files, "pids.max"))
  }

  function CpuMax(millicores: int): string { FormatInt(Backoff.Wrap(millicores * 100)) + " 100000" }

  /** The files after every write has succeeded. Only positive limits are written. */
  function Applied(files: Files, lim: Limits): Files {
    var a := if lim.cpuMillicores > 0 then files["cpu.max" := CpuMax(lim.cpuMillicores)] else files;
    var b := if lim.memoryBytes > 0 then a["memory.max" := FormatInt(lim.memoryBytes)] else a;
    if lim.pidMax > 0 then b["pids.max" := FormatInt(lim.pidMax)] else b
  }

  predicate InRange(lim: Limits) {
    Backoff.Int64(lim.cpuMillicores) && Backoff.Int64(lim.memoryBytes) && Backoff.Int64(lim.pidMax)
  }

  lemma WrapIsInt64(x: int)
    ensures Backoff.Int64(Backoff.Wrap(x))
  {
  }

  lemma CpuReadsBack(files: Files, m: int)
    requires 0 < m && "cpu.max" in files && files["cpu.max"] == CpuMax(m)
    ensures ReadCPU(files) == Ok(TruncDiv(Backoff.Wrap(m * 100), 100))
  {
    var quota := Backoff.Wrap(m * 100);
    WrapIsInt64(m * 100);
    FormatIsSolid(quota);
    FormatThenParse(quota);
    FieldsRules(' ', FormatInt(quota), " 100000");
  }

  lemma MaxIsSolid()
    ensures Solid("max")
  {
  }

  lemma TwoFields(a: string, b: string)
    requires Solid(a) && Solid(b)
    ensures Fields(a + " " + b) == [a, b]
  {
    hide Fields;
    FieldsRules(' ', a, " " + b);
    assert a + " " + b == a + (" " + b);
    FieldsRules(' ', "", b);
    FieldsRules(' ', b, "");
    assert b + "" == b && [' '] + b == " " + b;
  }

  /** What is written to cpu.max: two numbers, a quota and a period. */
  lemma CpuMaxMeans(m: int)
    requires 0 < m && m * 100 < Backoff.TWO63
    ensures var f := Fields(CpuMax(m));
            |f| == 2 && ParseInt(f[0]) == Some(m * 100) && ParseInt(f[1]) == Some(100_000)
  {
    hide Fields, FormatInt, ParseInt, Solid;
    Backoff.WrapSmall(m * 100);
    FormatIsSolid(m * 100);
    FormatThenParse(m * 100);
    ParsedDecimal();
    FormatIsSolid(100_000);
    TwoFields(FormatInt(m * 100), "100000");
    assert FormatInt(m * 100) + " 100000" == FormatInt(m * 100) + " " + "100000";
  }

  lemma AmountReadsBack(files: Files, name: string, n: int)
    requires Backoff.Int64(n) && name in files && files[name] == FormatInt(n)
    ensures ReadAmount(files, name) == Ok(n)
  {
    FormatIsSolid(n);
    FormatThenParse(n);
  }

  /** Kernel files end in a newline: amounts are read whatever white space surrounds them, and "max" stands
      for no limit. */
  lemma AmountTextReads(files: Files, name: string, a: string, n: int, b: string)
    requires (forall c :: c in a + b ==> IsSpace(c)) && Backoff.Int64(n)
    ensures ReadAmount(files[name := a + FormatInt(n) + b], name) == Ok(n)
    ensures ReadAmount(files[name := a + "max" + b], name) == Ok(0)
  {
    FormatIsSolid(n);
    FormatThenParse(n);
    hide FormatInt, ParseInt, TrimSpace;
    TrimSpaceMeans(a, FormatInt(n), b);
    TrimSpaceMeans(a, "max", b);
  }

  /** cpu.max names its period after the quota: the quota is read whatever follows it after white space, and
      divided by one hundred towards zero. */
  lemma CpuTextReads(files: Files, n: int, rest: string)
    requires rest != "" && IsSpace(rest[0]) && Backoff.Int64(n)
    ensures var r := ReadCPU(files["cpu.max" := FormatInt(n) + rest]);
            r.Ok? && if n >= 0 then 0 <= n - 100 * r.value < 100 else -100 < n - 100 * r.value <= 0
    ensures ReadCPU(files["cpu.max" := "max" + rest]) == Ok(0)
  {
    hide FormatInt, ParseInt, Fields, Solid;
    FormatIsSolid(n);
    FormatThenParse(n);
    FieldsRules(' ', FormatInt(n), rest);
    MaxIsSolid();
    FieldsRules(' ', "max", rest);
  }

  /** The quota survives exactly when it fits: the conversion to hundred-thousandths multiplies by
      one hundred in 64 bits. */
  lemma {:induction false} QuotaExactIff(m: int)
    requires 0 < m && Backoff.Int64(m)
    ensures TruncDiv(Backoff.Wrap(m * 100), 100) == m <==> m * 100 < Backoff.TWO63
  {
    WrapIsInt64(m * 100);
    if m * 100 < Backoff.TWO63 {
      Backoff.WrapSmall(m * 100);
    }
  }

  /** Print and parse back: whatever the files held before, each positive limit is read back exactly
      (the CPU limit if and only if its quota fits 64 bits), and each field left at zero or below
      reads as it did before, errors included. */
  lemma {:induction false} PrintThenRead(files: Files, lim: Limits)
    requires InRange(lim)
    ensures var after := Applied(files, lim);
            && ReadAmount(after, "memory.max") ==
                 (if lim.memoryBytes > 0 then Ok(lim.memoryBytes) else ReadAmount(files, "memory.max"))
            && ReadAmount(after, "pids.max") ==
                 (if lim.pidMax > 0 then Ok(lim.pidMax) else ReadAmount(files, "pids.max"))
            && (lim.cpuMillicores <= 0 ==> ReadCPU(after) == ReadCPU(files))
            && (lim.cpuMillicores > 0 ==>
                 (ReadCPU(after) == Ok(lim.cpuMillicores) <==> lim.cpuMillicores * 100 < Backoff.TWO63))
  {
    hide ParseInt, FormatInt, Fields, TrimSpace;
    var after := Applied(files, lim);
    if lim.cpuMillicores > 0 {
      CpuReadsBack(after, lim.cpuMillicores);
      QuotaExactIff(lim.cpuMillicores);
    }
    if lim.memoryBytes > 0 { AmountReadsBack(after, "memory.max", lim.memoryBytes); }
    if lim.pidMax > 0 { AmountReadsBack(after, "pids.max", lim.pidMax); }
  }

  /** The quotient of the two numbers written to cpu.max is the fraction of a CPU that Docker is given in
      NanoCPUs (over 10^9), as long as neither conversion overflows. */
  lemma SameFractionAsDocker(m: int)
    requires 0 < m && m * 1_000_000 < Backoff.TWO63
    ensures var f := Fields(CpuMax(m));
            && |f| == 2 && ParseInt(f[0]).Some? && ParseInt(f[1]).Some? && ParseInt(f[1]).value > 0
            && ParseInt(f[0]).value * 1_000_000_000 == Backoff.Wrap(m * 1_000_000) * ParseInt(f[1]).value
  {
    CpuMaxMeans(m);
    Backoff.WrapSmall(m * 1_000_000);
    hide Fields, ParseInt, CpuMax;
  }

  lemma AppliedMeans(files: Files, lim: Limits)
    ensures var after := Applied(files, lim);
            && (0 < lim.cpuMillicores && lim.cpuMillicores * 100 < Backoff.TWO63 ==>
                 "cpu.max" in after && var f := Fields(after["cpu.max"]);
                 && |f| == 2 && ParseInt(f[0]).Some? && ParseInt(f[1]).Some? && ParseInt(f[1]).value > 0
                 && ParseInt(f[0]).value * 1000 == lim.cpuMillicores * ParseInt(f[1]).value)
            && (0 < lim.memoryBytes < Backoff.TWO63 ==>
                 "memory.max" in after && ParseInt(after["memory.max"]) == Some(lim.memoryBytes))
            && (0 < lim.pidMax < Backoff.TWO63 ==>
                 "pids.max" in after && ParseInt(after["pids.max"]) == Some(lim.pidMax))
  {
    if 0 < lim.cpuMillicores && lim.cpuMillicores * 100 < Backoff.TWO63 { CpuMaxMeans(lim.cpuMillicores); }
    if 0 < lim.memoryBytes < Backoff.TWO63 { FormatThenParse(lim.memoryBytes); }
    if 0 < lim.pidMax < Backoff.TWO63 { FormatThenParse(lim.pidMax); }
    hide Fields, ParseInt, FormatInt, CpuMax;
  }

  class CgroupDir {
    /** Whether reading fails on absent files only, and writing never. */
    const reliable: bool
    var files: Files

    constructor (files: Files, reliable: bool)
      ensures this.files == files && this.reliable == reliable
    {
      this.files, this.reliable := files, reliable;
    }

    method WriteFile(name: string, content: string) returns (ok: bool)
      modifies this
      ensures files == (if ok then old(files)[name := content] else old(files)) && (reliable ==> ok)
    {
      var fault := Fault(reliable);
      ok := !fault;
      if ok {
        files := files[name := content];
      }
    }

    /** Stops at the first failed write; what was written before it stays. */
    method ApplyLimits(lim: Limits) returns (r: Result<(), LimitError>)
      modifies this
      ensures r.Ok? ==> files == Applied(old(files), lim)
      ensures reliable ==> r.Ok?
      ensures r.Ok? && 0 < lim.cpuMillicores && lim.cpuMillicores * 100 < Backoff.TWO63 ==>
        "cpu.max" in files && var f := Fields(files["cpu.max"]);
        && |f| == 2 && ParseInt(f[0]).Some? && ParseInt(f[1]).Some? && ParseInt(f[1]).value > 0
        && ParseInt(f[0]).value * 1000 == lim.cpuMillicores * ParseInt(f[1]).value
      ensures r.Ok? && 0 < lim.memoryBytes < Backoff.TWO63 ==>
        "memory.max" in files && ParseInt(files["memory.max"]) == Some(lim.memoryBytes)
      ensures r.Ok? && 0 < lim.pidMax < Backoff.TWO63 ==>
        "pids.max" in files && ParseInt(files["pids.max"]) == Some(lim.pidMax)
      ensures forall name ::
        || name !in {"cpu.max", "memory.max", "pids.max"} || (name == "cpu.max" && lim.cpuMillicores <= 0)
        || (name == "memory.max" && lim.memoryBytes <= 0) || (name == "pids.max" && lim.pidMax <= 0) ==>
          (name in files <==> name in old(files)) && (name in files ==> files[name] == old(files)[name])
      ensures r.Err? ==>
        || (r.error == NotWritten("cpu.max") && lim.cpuMillicores > 0 && files == old(files))
        || (r.error == NotWritten("memory.max") && lim.memoryBytes > 0
              && files == Applied(old(files), lim.(memoryBytes := 0, pidMax := 0)))
        || (r.error == NotWritten("pids.max") && lim.pidMax > 0 && files == Applied(old(files), lim.(pidMax := 0)))
    {
      AppliedMeans(files, lim);
      hide FormatInt, ParseInt, Fields, CpuMax;
      var ok;
      if lim.cpuMillicores > 0 {
        ok := WriteFile("cpu.max", CpuMax(lim.cpuMillicores));
        if !ok {
          return Err(NotWritten("cpu.max"));
        }
      }
      if lim.memoryBytes > 0 {
        ok := WriteFile("memory.max", FormatInt(lim.memoryBytes));
        if !ok {
          return Err(NotWritten("memory.max"));
        }
      }
      if lim.pidMax > 0 {
        ok := WriteFile("pids.max", FormatInt(lim.pidMax));
        if !ok {
          return Err(NotWritten("pids.max"));
        }
      }
      r := Ok(());
    }

    /** The content of a file that is there, unless reading it fails. */
    method ReadFile(name: string) returns (content: Option<string>)
      ensures content == None || (name in files && content == Some(files[name]))
      ensures reliable && name in files ==> content.Some?
    {
      var failed := Fault(reliable);
      content := if name in files && !failed then Some(files[name]) else None;
    }

    /** One of the two files that hold an amount. */
    method ReadAmountFile(name: string) returns (r: Result<int, LimitError>)
      ensures r == ReadAmount(files, name) || (!reliable && r == Err(Unreadable(name)))
    {
      var content := ReadFile(name);
      if content.None? {
        return Err(Unreadable(name));
      }
      var t := TrimSpace(content.value);
      if t == "max" {
        return Ok(0);
      }
      var n := ParseInt(t);
      r := if n.None? then Err(Unparsable(name)) else Ok(n.value);
    }

    /** The three readings or the first error, unless a read fails for reasons of its own. */
    method ReadLimits() returns (r: Result<Limits, LimitError>)
      ensures r == ReadAll(files) || (!reliable && r.Err? && r.error.Unreadable?)
    {
      hide ParseInt, Fields, ReadAmount;
      var lim := Limits(0, 0, 0);
      var cpu := ReadFile("cpu.max");
      if cpu.None? {
        return Err(Unreadable("cpu.max"));
      }
      var f := Fields(cpu.value);
      if |f| > 0 && f[0] != "max" {
        var quota := ParseInt(f[0]);
        if quota.None? {
          return Err(Unparsable("cpu.max"));
        }
        lim := lim.(cpuMillicores := TruncDiv(quota.value, 100));
      }
      var amount := ReadAmountFile("memory.max");
      if amount.Err? {
        return Err(amount.error);
      }
      lim := lim.(memoryBytes := amount.value);
      amount := ReadAmountFile("pids.max");
      if amount.Err? {
        return Err(amount.error);
      }
      r := Ok(lim.(pidMax := amount.value));
    }

    /** Applying limits to a readable directory and reading them back. */
    method ApplyThenRead(lim: Limits) returns (r: Result<Limits, LimitError>)
      requires InRange(lim) && lim.cpuMillicores * 100 < Backoff.TWO63
      modifies this
      ensures r.Ok? && ReadAll(old(files)).Ok? ==>
        var before := ReadAll(old(files)).value;
        r.value == Limits(if lim.cpuMillicores > 0 then lim.cpuMillicores else before.cpuMillicores,
                          if lim.memoryBytes > 0 then lim.memoryBytes else before.memoryBytes,
                          if lim.pidMax > 0 then lim.pidMax else before.pidMax)
      ensures reliable && ReadAll(old(files)).Ok? ==> r.Ok?
    {
      hide ReadCPU, ReadAmount, Applied, ParseInt, Fields;
      PrintThenRead(files, lim);
      var applied := ApplyLimits(lim);
      if applied.Err? {
        return Err(applied.error);
      }
      r := ReadLimits();
    }
  }
}
