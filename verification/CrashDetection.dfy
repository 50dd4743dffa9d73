/** Crash detection: lifecycle commands, the manual-stop flags they leave for the observer, and the
    observer that polls the container runtime. Commands are split at the points where the observer
    can run in between. */
module CrashDetection {
  import opened Text
  import opened Faults

  datatype Status = Running | Stopped | Crashed

  /** How the container last left the running state. */
  datatype Exit = NeverRan | Manual | Spontaneous

  /** A status the observer has read, and how the container had last ended at that moment. */
  datatype Reading = Reading(status: Status, exit: Exit)

  /** One server as commands, runtime and observer see it. `status`, `flag`, `seen` and `looked` are the
      program's (runtime status, manual-stop flag, observer's previous status, and the status it has
      read but not yet compared); `exit` is history. */
  datatype Watch = Watch(status: Status, flag: bool, seen: Option<Status>, looked: Option<Reading>, exit: Exit)

  datatype Step =
    | StartBegin            // StartServer drops the flag first
    | StartRun(ok: bool)    // ... and then asks the runtime to start
    | StopBegin             // StopServer sets the flag first
    | StopRun(ok: bool)     // ... and then asks the runtime to stop; a failure drops the flag
    | RestartRun(ok: bool)
    | ExitAlone(to: Status) // the container ends by itself
    | Look                  // the observer reads the runtime status
    | Judge                 // ... and then compares it with the previous one, consuming the flag

  const FRESH := Watch(Stopped, false, None, None, NeverRan)

  /** What the observer has read says that the container has gone down. */
  predicate FoundGone(w: Watch) {
    w.seen == Some(Running) && w.looked.Some? && w.looked.value.status != Running
  }

  /** The observer's test, with the flag it would consume. */
  predicate Reports(w: Watch) { FoundGone(w) && !w.flag }

  function Next(w: Watch, s: Step): Watch {
    match s
    case StartBegin => w.(flag := false)
    case StartRun(ok) => if ok then w.(status := Running) else w
    case StopBegin => w.(flag := true)
    case StopRun(ok) =>
      if !ok then w.(flag := false)
      else if w.status == Running then w.(status := Stopped, exit := Manual)
      else w
    case RestartRun(ok) => if ok then w.(status := Running) else w
    case ExitAlone(to) =>
      if w.status == Running && to != Running then w.(status := to, exit := Spontaneous) else w
    case Look => w.(looked := Some(Reading(w.status, w.exit)))
    case Judge =>
      if w.looked.None? then w
      else w.(flag := w.flag && !FoundGone(w), seen := Some(w.looked.value.status), looked := None)
  }

  function Run(w: Watch, steps: seq<Step>): Watch {
    if steps == [] then w else Next(Run(w, steps[..|steps| - 1]), steps[|steps| - 1])
  }

  // ---------------------------------------------------------------- every interleaving

  predicate BringsUp(s: Step) { s == StartRun(true) || s == RestartRun(true) }

  predicate TakesDown(s: Step) { s == StopRun(true) || (s.ExitAlone? && s.to != Running) }

  /** After the first `n` steps the container is up: something brought it up and nothing took it down
      since. */
  ghost predicate Up(steps: seq<Step>, n: nat)
    requires n <= |steps|
  {
    exists i :: 0 <= i < n && BringsUp(steps[i]) && forall j :: i < j < n ==> !TakesDown(steps[j])
  }

  /** Step `i` is the last reading among the first `n` steps. */
  ghost predicate LastLook(steps: seq<Step>, n: nat, i: nat)
    requires n <= |steps|
  {
    i < n && steps[i] == Look && forall j :: i < j < n ==> steps[j] != Look
  }

  /** A reading has not been compared yet. */
  ghost predicate Looked(steps: seq<Step>, n: nat)
    requires n <= |steps|
  {
    exists i :: 0 <= i < n && steps[i] == Look && forall j :: i < j < n ==> steps[j] != Judge
  }

  /** The last reading found the container up. */
  ghost predicate FoundUp(steps: seq<Step>, n: nat)
    requires n <= |steps|
  {
    exists i :: 0 <= i < n && LastLook(steps, n, i) && Up(steps, i)
  }

  ghost predicate Compares(steps: seq<Step>, j: nat)
    requires j < |steps|
  {
    steps[j] == Judge && Looked(steps, j)
  }

  /** The last comparison was of a reading that had found the container up. */
  ghost predicate SeenUp(steps: seq<Step>, n: nat)
    requires n <= |steps|
  {
    exists i :: 0 <= i < n && Compares(steps, i) && FoundUp(steps, i) && forall j :: i < j < n ==> !Compares(steps, j)
  }

  /** A comparison now would find that the container has gone down. */
  ghost predicate Gone(steps: seq<Step>, n: nat)
    requires n <= |steps|
  {
    SeenUp(steps, n) && Looked(steps, n) && !FoundUp(steps, n)
  }

  /** Step `j` drops the manual-stop flag: a start that has begun, a stop that the runtime refused, or
      a comparison that finds the container gone. */
  ghost predicate Drops(steps: seq<Step>, j: nat)
    requires j < |steps|
  {
    steps[j] == StartBegin || steps[j] == StopRun(false) || (steps[j] == Judge && Gone(steps, j))
  }

  /** Some stop has begun and nothing has dropped the flag since. */
  ghost predicate Announced(steps: seq<Step>, n: nat)
    requires n <= |steps|
  {
    exists i :: 0 <= i < n && steps[i] == StopBegin && forall j :: i < j < n ==> !Drops(steps, j)
  }

  /** Step `i` takes down a container that is up. */
  ghost predicate Ends(steps: seq<Step>, i: nat)
    requires i < |steps|
  {
    TakesDown(steps[i]) && Up(steps, i)
  }

  /** The last time the container went down it did so by itself (or, with `alone` false, was stopped). */
  ghost predicate LastEnd(steps: seq<Step>, n: nat, alone: bool)
    requires n <= |steps|
  {
    exists i :: 0 <= i < n && Ends(steps, i) && steps[i].ExitAlone? == alone
      && forall j :: i < j < n ==> !Ends(steps, j)
  }

  /** At the last reading, the container had last ended by itself (or been stopped). */
  ghost predicate FoundEnd(steps: seq<Step>, n: nat, alone: bool)
    requires n <= |steps|
  {
    exists i :: 0 <= i < n && LastLook(steps, n, i) && LastEnd(steps, i, alone)
  }

  lemma UpStep(steps: seq<Step>, n: nat)
    requires n < |steps|
    ensures Up(steps, n + 1) <==> BringsUp(steps[n]) || (Up(steps, n) && !TakesDown(steps[n]))
  {
    if Up(steps, n) && !TakesDown(steps[n]) {
      var i :| 0 <= i < n && BringsUp(steps[i]) && forall j :: i < j < n ==> !TakesDown(steps[j]);
      assert forall j :: i < j < n + 1 ==> !TakesDown(steps[j]);
    }
  }

  lemma LastLookStep(steps: seq<Step>, n: nat, i: nat)
    requires n < |steps| && i <= n
    ensures LastLook(steps, n + 1, i) <==> if steps[n] == Look then i == n else LastLook(steps, n, i)
  {
  }

  lemma LookedStep(steps: seq<Step>, n: nat)
    requires n < |steps|
    ensures Looked(steps, n + 1) <==> steps[n] == Look || (Looked(steps, n) && steps[n] != Judge)
  {
    if Looked(steps, n) && steps[n] != Judge {
      var i :| 0 <= i < n && steps[i] == Look && forall j :: i < j < n ==> steps[j] != Judge;
      assert forall j :: i < j < n + 1 ==> steps[j] != Judge;
    }
  }

  lemma LookIsNotLater(steps: seq<Step>, n: nat)
    requires n <= |steps|
    ensures !LastLook(steps, n, n)
  {
  }

  lemma FoundStep(steps: seq<Step>, n: nat, alone: bool)
    requires n < |steps|
    ensures FoundUp(steps, n + 1) <==> if steps[n] == Look then Up(steps, n) else FoundUp(steps, n)
    ensures FoundEnd(steps, n + 1, alone) <==>
              if steps[n] == Look then LastEnd(steps, n, alone) else FoundEnd(steps, n, alone)
  {
    forall i: nat | i <= n
      ensures LastLook(steps, n + 1, i) <==> if steps[n] == Look then i == n else LastLook(steps, n, i)
    {
      LastLookStep(steps, n, i);
    }
    hide LastLook, Up, LastEnd;
    assert LastLook(steps, n + 1, n) <==> steps[n] == Look by { LastLookStep(steps, n, n); LookIsNotLater(steps, n); }
  }

  lemma SeenUpStep(steps: seq<Step>, n: nat)
    requires n < |steps|
    ensures SeenUp(steps, n + 1) <==> if Compares(steps, n) then FoundUp(steps, n) else SeenUp(steps, n)
  {
    if SeenUp(steps, n) && !Compares(steps, n) {
      var i :| 0 <= i < n && Compares(steps, i) && FoundUp(steps, i) && forall j :: i < j < n ==> !Compares(steps, j);
      assert forall j :: i < j < n + 1 ==> !Compares(steps, j);
    }
  }

  lemma AnnouncedStep(steps: seq<Step>, n: nat)
    requires n < |steps|
    ensures Announced(steps, n + 1) <==> steps[n] == StopBegin || (Announced(steps, n) && !Drops(steps, n))
  {
    if Announced(steps, n) && !Drops(steps, n) {
      var i :| 0 <= i < n && steps[i] == StopBegin && forall j :: i < j < n ==> !Drops(steps, j);
      assert forall j :: i < j < n + 1 ==> !Drops(steps, j);
    }
  }

  lemma LastEndStep(steps: seq<Step>, n: nat, alone: bool)
    requires n < |steps|
    ensures LastEnd(steps, n + 1, alone) <==>
      if Ends(steps, n) then steps[n].ExitAlone? == alone else LastEnd(steps, n, alone)
  {
    if LastEnd(steps, n, alone) && !Ends(steps, n) {
      var i :| 0 <= i < n && Ends(steps, i) && steps[i].ExitAlone? == alone
        && forall j :: i < j < n ==> !Ends(steps, j);
      assert forall j :: i < j < n + 1 ==> !Ends(steps, j);
    }
  }

  /** The state after `n` steps, read off the steps. */
  ghost predicate Recorded(w: Watch, steps: seq<Step>, n: nat)
    requires n <= |steps|
  {
    && (w.status == Running <==> Up(steps, n))
    && (w.seen == Some(Running) <==> SeenUp(steps, n))
    && (w.flag <==> Announced(steps, n))
    && (w.exit == Spontaneous <==> LastEnd(steps, n, true))
    && (w.exit == Manual <==> LastEnd(steps, n, false))
    && (w.looked.Some? <==> Looked(steps, n))
    && (w.looked.Some? ==>
          && (w.looked.value.status == Running <==> FoundUp(steps, n))
          && (w.looked.value.exit == Spontaneous <==> FoundEnd(steps, n, true))
          && (w.looked.value.exit == Manual <==> FoundEnd(steps, n, false)))
  }

  lemma RecordedStep(w: Watch, steps: seq<Step>, n: nat)
    requires n < |steps| && Recorded(w, steps, n)
    ensures Recorded(Next(w, steps[n]), steps, n + 1)
  {
    hide Up, SeenUp, Announced, LastEnd, Looked, FoundUp, FoundEnd;
    UpStep(steps, n);
    LookedStep(steps, n);
    FoundStep(steps, n, true);
    FoundStep(steps, n, false);
    SeenUpStep(steps, n);
    AnnouncedStep(steps, n);
    LastEndStep(steps, n, true);
    LastEndStep(steps, n, false);
  }

  lemma {:induction false} AlwaysRecorded(steps: seq<Step>, n: nat)
    requires n <= |steps|
    ensures Recorded(Run(FRESH, steps[..n]), steps, n)
  {
    if n > 0 {
      AlwaysRecorded(steps, n - 1);
      RecordedStep(Run(FRESH, steps[..n - 1]), steps, n - 1);
      hide Recorded, Next;
      assert steps[..n][..n - 1] == steps[..n - 1];
    }
  }

  /** Whoever has been seen up is up or has ended since. */
  ghost predicate Accounted(w: Watch) {
    && (w.seen == Some(Running) || (w.looked.Some? && w.looked.value.status == Running) ==>
          w.status == Running || w.exit != NeverRan)
    && (FoundGone(w) ==> w.looked.value.exit != NeverRan)
  }

  lemma {:induction false} AlwaysAccounted(steps: seq<Step>)
    ensures Accounted(Run(FRESH, steps))
  {
    if steps != [] { AlwaysAccounted(steps[..|steps| - 1]); }
  }

  /** Every stop that has begun was followed by a drop of its flag. */
  ghost predicate AllStopsDropped(steps: seq<Step>, n: nat)
    requires n <= |steps|
  {
    forall i :: 0 <= i < n && steps[i] == StopBegin ==> exists j :: i < j < n && Drops(steps, j)
  }

  lemma AnnouncedOrDropped(steps: seq<Step>, n: nat)
    requires n <= |steps|
    ensures AllStopsDropped(steps, n) <==> !Announced(steps, n)
  {
    hide Drops;
  }

  /** What the observer reports when it compares, in every interleaving of commands, failures, exits
      and its own readings, and in terms of the steps alone. A container found gone is reported
      exactly when no stop has begun since which nothing dropped the flag: so a stop is reported as a
      crash exactly when every StopBegin was followed by such a drop, and a crash is missed exactly
      when one was not. */
  lemma {:induction false} ReportsExactly(steps: seq<Step>)
    ensures var w, n := Run(FRESH, steps), |steps|;
            && (FoundGone(w) <==> Gone(steps, n))
            && (Reports(w) <==> Gone(steps, n) && !Announced(steps, n))
            && (Gone(steps, n) ==>
                  w.looked.value.exit == if FoundEnd(steps, n, true) then Spontaneous else Manual)
    ensures var w, n := Run(FRESH, steps), |steps|;
            Reports(w) && w.looked.value.exit == Manual <==>
              Gone(steps, n) && FoundEnd(steps, n, false) && AllStopsDropped(steps, n)
    ensures var w, n := Run(FRESH, steps), |steps|;
            FoundGone(w) && w.looked.value.exit == Spontaneous && !Reports(w) <==>
              Gone(steps, n) && FoundEnd(steps, n, true) && Announced(steps, n)
  {
    AlwaysRecorded(steps, |steps|);
    AlwaysAccounted(steps);
    assert steps[..|steps|] == steps;
    AnnouncedOrDropped(steps, |steps|);
    hide Up, SeenUp, LastEnd, Looked, FoundUp, FoundEnd, Announced, AllStopsDropped;
  }

  lemma RunSnoc(w: Watch, steps: seq<Step>, s: Step)
    ensures Run(w, steps + [s]) == Next(Run(w, steps), s)
  {
    assert (steps + [s])[..|steps|] == steps;
  }

  // ---------------------------------------------------------------- atomic commands

  /** Whole commands whose runtime calls succeed, container exits, and observer rounds. */
  datatype Command = Start | Stop | Restart | Quit(to: Status) | Poll

  function Steps(c: Command): seq<Step> {
    match c
    case Start => [StartBegin, StartRun(true)]
    case Stop => [StopBegin, StopRun(true)]
    case Restart => [RestartRun(true)]
    case Quit(to) => [ExitAlone(to)]
    case Poll => [Look, Judge]
  }

  function Trace(cs: seq<Command>): seq<Step> {
    if cs == [] then [] else Trace(cs[..|cs| - 1]) + Steps(cs[|cs| - 1])
  }

  function Do(w: Watch, c: Command): Watch {
    match c
    case Start => Next(Next(w, StartBegin), StartRun(true))
    case Stop => Next(Next(w, StopBegin), StopRun(true))
    case Restart => Next(w, RestartRun(true))
    case Quit(to) => Next(w, ExitAlone(to))
    case Poll => Next(Next(w, Look), Judge)
  }

  /** A round at this point, with nothing in between, reports a crash. */
  predicate WouldReport(w: Watch) { Reports(Next(w, Look)) }

  function After(cs: seq<Command>): Watch {
    if cs == [] then FRESH else Do(After(cs[..|cs| - 1]), cs[|cs| - 1])
  }

  lemma RunTwo(w: Watch, before: seq<Step>, a: Step, b: Step)
    ensures Run(w, before + [a, b]) == Next(Next(Run(w, before), a), b)
  {
    hide Next, Run;
    Associative(before, [a], [b]);
    RunSnoc(w, before, a);
    RunSnoc(w, before + [a], b);
    assert [a] + [b] == [a, b];
  }

  lemma StepsRun(w: Watch, before: seq<Step>, c: Command)
    ensures Run(w, before + Steps(c)) == Do(Run(w, before), c)
  {
    hide Next, Run;
    match c {
      case Start => RunTwo(w, before, StartBegin, StartRun(true));
      case Stop => RunTwo(w, before, StopBegin, StopRun(true));
      case Restart => RunSnoc(w, before, RestartRun(true));
      case Quit(to) => RunSnoc(w, before, ExitAlone(to));
      case Poll => RunTwo(w, before, Look, Judge);
    }
  }

  /** Atomic runs are among the interleavings. */
  lemma {:induction false} AtomicRunsAreRuns(cs: seq<Command>)
    ensures After(cs) == Run(FRESH, Trace(cs))
  {
    hide Next, Steps, Do;
    if cs != [] {
      AtomicRunsAreRuns(cs[..|cs| - 1]);
      StepsRun(FRESH, Trace(cs[..|cs| - 1]), cs[|cs| - 1]);
    }
  }

  /** StartServer drops the flag before the container runs: an observer round in between reports a
      crash that was a manual stop. */
  lemma StartVoidsTheFlag()
    ensures var w := Run(FRESH, Trace([Start, Poll, Stop]) + [StartBegin]);
            WouldReport(w) && w.exit == Manual
  {
    var cs := [Start, Poll, Stop];
    assert cs[..1][..0] == [] && cs[..2][..1] == cs[..1] && cs[..3] == cs;
    assert After(cs[..1]) == Do(FRESH, Start);
    assert After(cs[..2]) == Do(After(cs[..1]), Poll);
    assert After(cs) == Do(After(cs[..2]), Stop);
    AtomicRunsAreRuns(cs);
    RunSnoc(FRESH, Trace(cs), StartBegin);
  }

  lemma {:induction false} UnseenStopsAreFlagged(cs: seq<Command>)
    ensures var w := After(cs);
            w.seen == Some(Running) && w.status != Running ==> w.exit != NeverRan && (w.exit == Manual ==> w.flag)
  {
    if cs != [] {
      UnseenStopsAreFlagged(cs[..|cs| - 1]);
    }
  }

  /** Under atomic commands a manual stop is never reported as a crash. */
  lemma {:induction false} ManualStopsAreNeverReported(cs: seq<Command>)
    ensures WouldReport(After(cs)) ==> After(cs).exit == Spontaneous
  {
    UnseenStopsAreFlagged(cs);
  }

  /** No RestartServer is issued while a manual-stop flag is pending. */
  ghost predicate Disciplined(cs: seq<Command>) {
    forall i :: 0 <= i < |cs| && cs[i] == Restart ==> !After(cs[..i]).flag
  }

  lemma {:induction false} RunningHasNoFlag(cs: seq<Command>)
    requires Disciplined(cs)
    ensures After(cs).status == Running ==> !After(cs).flag
  {
    if cs != [] {
      var n := |cs| - 1;
      assert forall i :: 0 <= i < n ==> cs[..n][..i] == cs[..i];
      RunningHasNoFlag(cs[..n]);
      assert cs[n] == Restart ==> !After(cs[..n]).flag;
    }
  }

  lemma ExitFromRunning(w: Watch, to: Status)
    requires w.status == Running && to != Running && !w.flag && w.seen == Some(Running)
    ensures WouldReport(Next(w, ExitAlone(to))) && Next(w, ExitAlone(to)).exit == Spontaneous
  {
  }

  /** ... and under that discipline no spontaneous exit of a container the observer has seen running
      is missed, if the next round comes before any further command. */
  lemma SpontaneousExitIsReported(cs: seq<Command>, to: Status)
    requires Disciplined(cs) && to != Running
    requires After(cs).status == Running && After(cs).seen == Some(Running)
    ensures WouldReport(After(cs + [Quit(to)])) && After(cs + [Quit(to)]).exit == Spontaneous
  {
    RunningHasNoFlag(cs);
    hide Disciplined, Next;
    var more := cs + [Quit(to)];
    assert more[..|more| - 1] == cs;
    assert After(more) == Next(After(cs), ExitAlone(to));
    ExitFromRunning(After(cs), to);
  }

  /** An observer round at this point finds the container gone down, and so drops any flag. */
  predicate Noticing(w: Watch) { w.seen == Some(Running) && w.status != Running }

  /** Command `j` leaves a pending flag pending. */
  predicate Harmless(cs: seq<Command>, j: nat)
    requires j < |cs|
  {
    cs[j] != Start && !(cs[j] == Poll && Noticing(After(cs[..j])))
  }

  /** A server was stopped at `i`, and nothing has taken the flag back since. */
  ghost predicate StopPending(cs: seq<Command>, i: nat)
    requires i < |cs|
  {
    cs[i] == Stop && forall j :: i < j < |cs| ==> Harmless(cs, j)
  }

  /** Stop, then Restart, with no Start and no round that noticed the stop, then or since. */
  ghost predicate LeftPending(cs: seq<Command>) {
    exists i, r :: 0 <= i < r < |cs| && StopPending(cs, i) && cs[r] == Restart
  }

  lemma {:induction false} FlagMeansStopPending(cs: seq<Command>)
    ensures After(cs).flag <==> exists i :: 0 <= i < |cs| && StopPending(cs, i)
  {
    if cs != [] {
      var n := |cs| - 1;
      var init := cs[..n];
      FlagMeansStopPending(init);
      assert forall j :: 0 <= j < n ==> init[..j] == cs[..j];
      assert forall j :: 0 <= j < n ==> Harmless(init, j) == Harmless(cs, j);
      assert After(cs).flag <==> cs[n] == Stop || (After(init).flag && Harmless(cs, n));
      if cs[n] == Stop {
        assert StopPending(cs, n);
      }
      forall i | 0 <= i < n ensures StopPending(cs, i) <==> StopPending(init, i) && Harmless(cs, n) {
      }
    }
  }

  /** A container that is up at the end and was down after the first `k` commands has been brought up. */
  lemma {:induction false} BroughtUpBy(cs: seq<Command>, k: nat) returns (r: nat)
    requires k <= |cs| && After(cs[..k]).status != Running && After(cs).status == Running
    ensures k <= r < |cs| && (cs[r] == Start || cs[r] == Restart)
  {
    assert cs[..|cs|] == cs;
    var n := |cs| - 1;
    if cs[n] == Start || cs[n] == Restart {
      r := n;
    } else {
      assert cs[..n][..k] == cs[..k];
      r := BroughtUpBy(cs[..n], k);
    }
  }

  lemma StoppedAt(cs: seq<Command>, i: nat)
    requires i < |cs| && cs[i] == Stop
    ensures After(cs[..i + 1]).status != Running
  {
    assert cs[..i + 1][..i] == cs[..i];
  }

  /** The exact condition: a container the observer has seen running and that ends by itself is
      reported by the next round, coming before any further command, if and only if it was not
      brought up by RestartServer while a stop was pending. */
  lemma CrashIsMissedIff(cs: seq<Command>, to: Status)
    requires to != Running && After(cs).status == Running && After(cs).seen == Some(Running)
    ensures WouldReport(After(cs + [Quit(to)])) <==> !LeftPending(cs)
    ensures After(cs + [Quit(to)]).exit == Spontaneous
  {
    var more := cs + [Quit(to)];
    assert more[..|more| - 1] == cs;
    assert After(more) == Next(After(cs), ExitAlone(to));
    FlagMeansStopPending(cs);
    hide After;
    if i :| 0 <= i < |cs| && StopPending(cs, i) {
      StoppedAt(cs, i);
      var r := BroughtUpBy(cs, i + 1);
      assert Harmless(cs, r);
    }
  }

  lemma AfterSnoc(cs: seq<Command>, c: Command)
    ensures After(cs + [c]) == Do(After(cs), c)
  {
    assert (cs + [c])[..|cs|] == cs;
  }

  lemma NothingDone()
    ensures After([]) == FRESH
  {
  }

  /** Without the discipline one is missed: RestartServer leaves a pending flag in place. */
  lemma RestartHidesACrash()
    ensures var w := After([Start, Poll, Stop, Restart, Poll, Quit(Crashed)]);
            w.exit == Spontaneous && w.seen == Some(Running) && w.status == Crashed && !WouldReport(w)
  {
    hide After;
    NothingDone();
    AfterSnoc([], Start);
    AfterSnoc([] + [Start], Poll);
    AfterSnoc([] + [Start] + [Poll], Stop);
    AfterSnoc([] + [Start] + [Poll] + [Stop], Restart);
    AfterSnoc([] + [Start] + [Poll] + [Stop] + [Restart], Poll);
    AfterSnoc([] + [Start] + [Poll] + [Stop] + [Restart] + [Poll], Quit(Crashed));
    assert [] + [Start] + [Poll] + [Stop] + [Restart] + [Poll] + [Quit(Crashed)]
        == [Start, Poll, Stop, Restart, Poll, Quit(Crashed)];
  }

  function ReportCount(cs: seq<Command>): nat {
    if cs == [] then 0
    else
      var n := |cs| - 1;
      ReportCount(cs[..n]) + if cs[n] == Poll && WouldReport(After(cs[..n])) then 1 else 0
  }

  function ExitCount(cs: seq<Command>): nat {
    if cs == [] then 0
    else
      var n := |cs| - 1;
      ExitCount(cs[..n]) + if cs[n].Quit? && cs[n].to != Running && After(cs[..n]).status == Running then 1 else 0
  }

  /** No exit is reported twice. */
  lemma {:induction false} EachExitReportedOnce(cs: seq<Command>)
    ensures var w := After(cs);
            ReportCount(cs) + (if Noticing(w) && w.exit == Spontaneous then 1 else 0) <= ExitCount(cs)
  {
    if cs != [] {
      var n := |cs| - 1;
      EachExitReportedOnce(cs[..n]);
      ManualStopsAreNeverReported(cs[..n]);
    }
  }

  // ---------------------------------------------------------------- the program

  datatype Event = Event(typ: string, server: string)

  function CrashOf(w: Watch, id: string): seq<Event> {
    if Reports(w) then [Event("server.crashed", id)] else []
  }

  /** The crash events one undisturbed observer round publishes: one for each listed server that
      answered and passes the observer's test, in listing order. */
  function Crashes(servers: seq<string>, answered: set<string>, w: map<string, Watch>): seq<Event> {
    if servers == [] then []
    else
      var n := |servers| - 1;
      var id := servers[n];
      Crashes(servers[..n], answered, w) + if id in answered && id in w then CrashOf(Next(w[id], Look), id) else []
  }

  /** Exactly the servers that answered have been observed once. */
  ghost predicate Rounded(w: map<string, Watch>, w0: map<string, Watch>, answered: set<string>) {
    && w.Keys == w0.Keys
    && forall id :: id in w ==> w[id] == if id in answered then Do(w0[id], Poll) else w0[id]
  }

  lemma {:induction false} CrashesElsewhere(servers: seq<string>, answered: set<string>, id: string,
                                            w: map<string, Watch>)
    requires id !in servers
    ensures Crashes(servers, answered + {id}, w) == Crashes(servers, answered, w)
  {
    if servers != [] { CrashesElsewhere(servers[..|servers| - 1], answered, id, w); }
  }

  lemma {:induction false} NoCrashes(servers: seq<string>, w: map<string, Watch>)
    ensures Crashes(servers, {}, w) == []
  {
    if servers != [] { NoCrashes(servers[..|servers| - 1], w); }
  }

  /** A round that began with `w0` and `p0` has reached the `i`-th server. */
  ghost predicate InRound(servers: seq<string>, i: nat, w: map<string, Watch>, p: seq<Event>,
                          w0: map<string, Watch>, p0: seq<Event>, answered: set<string>)
    requires i <= |servers|
  {
    && Rounded(w, w0, answered)
    && (forall k :: k in answered ==> k in servers[..i])
    && p == p0 + Crashes(servers[..i], answered, w0)
  }

  lemma RoundBegins(servers: seq<string>, w0: map<string, Watch>, p0: seq<Event>)
    ensures InRound(servers, 0, w0, p0, w0, p0, {}) && Rounded(w0, w0, {}) && p0 + Crashes(servers, {}, w0) == p0
  {
    NoCrashes(servers, w0);
    NoCrashes(servers[..0], w0);
  }

  lemma RoundEnds(servers: seq<string>, w: map<string, Watch>, p: seq<Event>,
                  w0: map<string, Watch>, p0: seq<Event>, answered: set<string>)
    requires InRound(servers, |servers|, w, p, w0, p0, answered)
    ensures Rounded(w, w0, answered) && p == p0 + Crashes(servers, answered, w0)
  {
    assert servers[..|servers|] == servers;
  }

  lemma RoundSkips(servers: seq<string>, i: nat, w: map<string, Watch>, p: seq<Event>,
                   w0: map<string, Watch>, p0: seq<Event>, answered: set<string>)
    requires i < |servers| && DistinctBy(servers, Itself) && InRound(servers, i, w, p, w0, p0, answered)
    ensures servers[i] !in answered && InRound(servers, i + 1, w, p, w0, p0, answered)
  {
    hide Rounded;
    NotEarlier(servers, Itself, i);
    assert servers[..i + 1][..i] == servers[..i];
  }

  lemma RoundVisits(servers: seq<string>, i: nat, w: map<string, Watch>, p: seq<Event>,
                    w0: map<string, Watch>, p0: seq<Event>, answered: set<string>)
    requires i < |servers| && DistinctBy(servers, Itself) && InRound(servers, i, w, p, w0, p0, answered)
    requires servers[i] in w
    ensures var id := servers[i];
            InRound(servers, i + 1, w[id := Do(w[id], Poll)], p + CrashOf(Next(w[id], Look), id),
                    w0, p0, answered + {id})
  {
    var id := servers[i];
    RoundSkips(servers, i, w, p, w0, p0, answered);
    hide Do, CrashOf, Next, DistinctBy;
    assert w[id] == w0[id];
    assert servers[..i + 1][..i] == servers[..i];
    assert id !in servers[..i] by { NotEarlier(servers, Itself, i); }
    CrashesElsewhere(servers[..i], answered, id, w0);
    assert (p0 + Crashes(servers[..i], answered, w0)) + CrashOf(Next(w[id], Look), id)
        == p0 + (Crashes(servers[..i], answered, w0) + CrashOf(Next(w[id], Look), id));
  }

  // ---------------------------------------------------------------- the program's runs

  /** How often comparisons in a run report a crash. */
  function Reported(steps: seq<Step>): nat {
    if steps == [] then 0
    else
      var n := |steps| - 1;
      Reported(steps[..n]) + if steps[n] == Judge && Reports(Run(FRESH, steps[..n])) then 1 else 0
  }

  /** The state and the crash events of server `id` are those of a run of `steps`. */
  ghost predicate Traced(w: Watch, published: seq<Event>, id: string, steps: seq<Step>) {
    w == Run(FRESH, steps) && multiset(published)[Event("server.crashed", id)] == Reported(steps)
  }

  function Stepped(w: Watch, s: Option<Step>): Watch { if s.Some? then Next(w, s.value) else w }

  function After1(steps: seq<Step>, s: Option<Step>): seq<Step> { if s.Some? then steps + [s.value] else steps }

  /** The observer's local variable, if any, is what it has read. */
  predicate AtHand(reading: Option<Status>, w: Watch) {
    if w.looked.Some? then reading == Some(w.looked.value.status) else reading == None
  }

  function ReadingOf(readings: map<string, Status>, id: string): Option<Status> {
    if id in readings then Some(readings[id]) else None
  }

  /** What one step publishes: at most a started or restarted event, or what a comparison reports. */
  ghost predicate Publishes(id: string, s: Option<Step>, w: Watch, p: seq<Event>, p': seq<Event>) {
    if s == Some(Judge) then p' == p + CrashOf(w, id)
    else p' == p || p' == p + [Event("server.started", id)] || p' == p + [Event("server.restarted", id)]
  }

  lemma CrashCount(id: string, s: Option<Step>, w: Watch, p: seq<Event>, p': seq<Event>, k: string)
    requires Publishes(id, s, w, p, p')
    ensures multiset(p')[Event("server.crashed", k)] == multiset(p)[Event("server.crashed", k)] +
              if k == id && s == Some(Judge) && Reports(w) then 1 else 0
  {
  }

  lemma ReportedMore(steps: seq<Step>, s: Step)
    ensures Reported(steps + [s]) == Reported(steps) + if s == Judge && Reports(Run(FRESH, steps)) then 1 else 0
  {
    assert (steps + [s])[..|steps|] == steps;
  }

  lemma TracedStep(w: Watch, p: seq<Event>, k: string, steps: seq<Step>, id: string, s: Option<Step>, v: Watch,
                   p': seq<Event>)
    requires Traced(w, p, k, steps) && Publishes(id, s, v, p, p') && (k == id ==> v == w)
    ensures Traced(if k == id then Stepped(w, s) else w, p', k, if k == id then After1(steps, s) else steps)
  {
    CrashCount(id, s, v, p, p', k);
    if k == id && s.Some? {
      ReportedMore(steps, s.value);
      RunSnoc(FRESH, steps, s.value);
    }
    hide Reported, Run, Next, Reports, Publishes;
  }

  /** One server's share in the state of all. */
  ghost predicate TracedAt(id: string, watch: map<string, Watch>, published: seq<Event>,
                           traces: map<string, seq<Step>>, readings: map<string, Status>) {
    && id in watch && id in traces
    && Traced(watch[id], published, id, traces[id]) && AtHand(ReadingOf(readings, id), watch[id])
  }

  /** All servers at once, and the observer's local variables. */
  ghost predicate AllTraced(watch: map<string, Watch>, published: seq<Event>, traces: map<string, seq<Step>>,
                            readings: map<string, Status>) {
    traces.Keys == watch.Keys && forall id :: id in watch ==> TracedAt(id, watch, published, traces, readings)
  }

  function WithReading(readings: map<string, Status>, id: string, now: Option<Status>): map<string, Status> {
    if now.Some? then readings[id := now.value] else readings - {id}
  }

  lemma TracedAtStep(k: string, watch: map<string, Watch>, p: seq<Event>, traces: map<string, seq<Step>>,
                     readings: map<string, Status>, id: string, s: Option<Step>, now: Option<Status>, p': seq<Event>)
    requires TracedAt(k, watch, p, traces, readings) && id in watch && id in traces
    requires Publishes(id, s, watch[id], p, p') && AtHand(now, Stepped(watch[id], s))
    ensures TracedAt(k, watch[id := Stepped(watch[id], s)], p', traces[id := After1(traces[id], s)],
                     WithReading(readings, id, now))
  {
    TracedStep(watch[k], p, k, traces[k], id, s, watch[id], p');
    hide Traced, Stepped, After1, Publishes, AtHand;
  }

  lemma AllTracedStep(watch: map<string, Watch>, p: seq<Event>, traces: map<string, seq<Step>>,
                      readings: map<string, Status>, id: string, s: Option<Step>, now: Option<Status>, p': seq<Event>)
    requires AllTraced(watch, p, traces, readings) && id in watch && Publishes(id, s, watch[id], p, p')
    requires AtHand(now, Stepped(watch[id], s))
    ensures AllTraced(watch[id := Stepped(watch[id], s)], p', traces[id := After1(traces[id], s)],
                      WithReading(readings, id, now))
  {
    hide TracedAt, Stepped, After1, Publishes, AtHand, WithReading;
    var watch' := watch[id := Stepped(watch[id], s)];
    forall k | k in watch'
      ensures TracedAt(k, watch', p', traces[id := After1(traces[id], s)], WithReading(readings, id, now)) {
      assert TracedAt(k, watch, p, traces, readings);
      TracedAtStep(k, watch, p, traces, readings, id, s, now, p');
    }
  }

  lemma AtHandLooked(w: Watch)
    ensures AtHand(Some(w.status), Next(w, Look)) && Next(w, Look).looked == Some(Reading(w.status, w.exit))
  {
  }

  lemma AtHandJudged(w: Watch, reading: Option<Status>)
    requires AtHand(reading, w) && reading.Some?
    ensures AtHand(None, Next(w, Judge)) && w.looked.Some? && w.looked.value.status == reading.value
  {
  }

  /** Only the observer's own steps touch its local variable. */
  lemma AtHandKept(w: Watch, s: Step, reading: Option<Status>)
    requires AtHand(reading, w) && s != Look && s != Judge
    ensures AtHand(reading, Next(w, s))
  {
  }

  /** Lifecycle and CrashObserver over one store and one runtime. `watch` is the history-carrying
      view of each server; Valid ties it to the program's own fields. */
  class Node {
    /** Whether store and runtime always work. */
    const reliable: bool
    var servers: seq<string>           // as the store lists them
    var created: set<string>           // servers with a container on record
    var status: map<string, Status>    // the runtime's answer for that container
    var manualStops: set<string>
    var previous: map<string, Status>
    var published: seq<Event>
    ghost var watch: map<string, Watch>

    ghost predicate Mirrors(id: string)
      requires id in watch
      reads this
    {
      && watch[id].status == (if id in status then status[id] else Stopped)
      && watch[id].flag == (id in manualStops)
      && watch[id].seen == (if id in previous then Some(previous[id]) else None)
    }

    ghost predicate Valid()
      reads this
    {
      && DistinctBy(servers, Itself)
      && (forall id :: id in servers <==> id in watch)
      && created <= watch.Keys
      && forall id :: id in watch ==> Mirrors(id)
    }

    constructor (servers: seq<string>, reliable: bool)
      requires DistinctBy(servers, Itself)
      ensures Valid() && this.reliable == reliable && this.servers == servers && published == []
      ensures forall id :: id in watch ==> watch[id] == FRESH
    {
      this.reliable, this.servers, created, status, manualStops := reliable, servers, {}, map[], {};
      previous, published := map[], [];
      watch := map id | id in servers :: FRESH;
    }

    method Publish(e: Event)
      requires Valid()
      modifies `published
      ensures Valid() && published == old(published) + [e]
    {
      published := published + [e];
    }

    method SetFlag(id: string, on: bool, ghost next: Watch)
      requires Valid() && id in watch
      requires next.flag == on && next.status == watch[id].status && next.seen == watch[id].seen
      modifies `manualStops, `watch
      ensures Valid() && watch == old(watch)[id := next]
      ensures manualStops == if on then old(manualStops) + {id} else old(manualStops) - {id}
    {
      assert forall k :: k in watch ==> Mirrors(k);
      manualStops := if on then manualStops + {id} else manualStops - {id};
      watch := watch[id := next];
    }

    method SetStatus(id: string, to: Status, ghost next: Watch)
      requires Valid() && id in watch
      requires next.status == to && next.flag == watch[id].flag && next.seen == watch[id].seen
      modifies `status, `watch
      ensures Valid() && watch == old(watch)[id := next] && status == old(status)[id := to]
    {
      assert forall k :: k in watch ==> Mirrors(k);
      status := status[id := to];
      watch := watch[id := next];
    }

    method CreateContainer(id: string)
      requires Valid() && id in watch
      modifies `created
      ensures Valid() && created == old(created) + {id}
    {
      created := created + {id};
    }

    /** StartServer, up to the point where the flag is gone. */
    method BeginStart(id: string)
      requires Valid() && id in watch
      modifies `manualStops, `watch
      ensures Valid() && watch == old(watch)[id := Next(old(watch)[id], StartBegin)]
      ensures manualStops == old(manualStops) - {id}
    {
      SetFlag(id, false, Next(watch[id], StartBegin));
    }

    method FinishStart(id: string) returns (ok: bool)
      requires Valid() && id in watch
      modifies `created, `status, `published, `watch
      ensures Valid()
      ensures watch in {old(watch), old(watch)[id := Next(old(watch)[id], StartRun(true))]}
      ensures ok ==> id in created && watch == old(watch)[id := Next(old(watch)[id], StartRun(true))]
      ensures status == old(status)[id := Running] || (!ok && status == old(status))
      ensures published == old(published) + if ok then [Event("server.started", id)] else []
      ensures reliable ==> ok
    {
      hide Valid;
      var fault := Fault(reliable);
      if fault {
        return false;
      }
      if id !in created {
        fault := Fault(reliable);
        if fault {
          return false;
        }
        CreateContainer(id);
      }
      fault := Fault(reliable);
      if fault {
        return false;
      }
      SetStatus(id, Running, Next(watch[id], StartRun(true)));
      fault := Fault(reliable);
      if fault {
        return false;
      }
      Publish(Event("server.started", id));
      ok := true;
    }

    method StartServer(id: string) returns (ok: bool)
      requires Valid() && id in watch
      modifies this
      ensures Valid()
      ensures var begun := Next(old(watch)[id], StartBegin);
              watch in {old(watch)[id := begun], old(watch)[id := Next(begun, StartRun(true))]}
      ensures ok ==> id in created && watch == old(watch)[id := Do(old(watch)[id], Start)]
      ensures manualStops == old(manualStops) - {id} && previous == old(previous)
      ensures status == old(status)[id := Running] || (!ok && status == old(status))
      ensures published == old(published) + if ok then [Event("server.started", id)] else []
      ensures reliable ==> ok
    {
      hide Valid;
      BeginStart(id);
      ghost var begun := watch;
      ok := FinishStart(id);
      assert begun[id := Next(begun[id], StartRun(true))] == old(watch)[id := Next(begun[id], StartRun(true))];
    }

    /** StopServer, up to the point where the flag is set. */
    method BeginStop(id: string)
      requires Valid() && id in watch
      modifies `manualStops, `watch
      ensures Valid() && watch == old(watch)[id := Next(old(watch)[id], StopBegin)]
      ensures manualStops == old(manualStops) + {id}
    {
      SetFlag(id, true, Next(watch[id], StopBegin));
    }

    /** The runtime's answer; a refusal drops the flag. */
    method FinishStop(id: string) returns (ok: bool)
      requires Valid() && id in watch
      modifies `manualStops, `status, `watch
      ensures Valid() && watch == old(watch)[id := Next(old(watch)[id], StopRun(ok))]
      ensures ok ==> manualStops == old(manualStops) && id in status && status[id] != Running
      ensures !ok ==> manualStops == old(manualStops) - {id} && status == old(status)
      ensures reliable ==> ok
    {
      var refused := Fault(reliable);
      ok := !refused;
      if ok {
        assert Mirrors(id);
        var to := if id in status && status[id] != Running then status[id] else Stopped;
        SetStatus(id, to, Next(watch[id], StopRun(true)));
      } else {
        SetFlag(id, false, Next(watch[id], StopRun(false)));
      }
    }

    /** The flag is set before the runtime is asked. */
    method StopContainer(id: string) returns (ok: bool)
      requires Valid() && id in watch
      modifies `manualStops, `status, `watch
      ensures Valid()
      ensures watch == old(watch)[id := Next(Next(old(watch)[id], StopBegin), StopRun(ok))]
      ensures ok ==> manualStops == old(manualStops) + {id} && id in status && status[id] != Running
      ensures !ok ==> manualStops == old(manualStops) - {id} && status == old(status)
      ensures reliable ==> ok
    {
      hide Valid, Next;
      BeginStop(id);
      ok := FinishStop(id);
    }

    method StopServer(id: string) returns (ok: bool)
      requires Valid() && id in watch
      modifies this
      ensures Valid()
      ensures var begun := Next(old(watch)[id], StopBegin);
              watch in {old(watch), old(watch)[id := Next(begun, StopRun(true))],
                        old(watch)[id := Next(begun, StopRun(false))]}
      ensures ok && id in old(created) ==> watch == old(watch)[id := Do(old(watch)[id], Stop)]
      ensures id in old(created) ==>
        || (manualStops == old(manualStops) + {id} && id in status && status[id] != Running)
        || (!ok && manualStops == old(manualStops) - {id} && status == old(status))
        || (!ok && manualStops == old(manualStops) && status == old(status))
      ensures id !in old(created) ==> manualStops == old(manualStops) && status == old(status)
      ensures previous == old(previous)
      ensures published == old(published) + if ok then [Event("server.stopped", id)] else []
      ensures reliable ==> ok
    {
      hide Valid;
      var fault := Fault(reliable);
      if fault {
        return false;
      }
      if id in created {
        ok := StopContainer(id);
        if !ok {
          return;
        }
      }
      fault := Fault(reliable);
      if fault {
        return false;
      }
      Publish(Event("server.stopped", id));
      ok := true;
    }

    method RestartServer(id: string) returns (ok: bool)
      requires Valid() && id in watch
      modifies this
      ensures Valid()
      ensures watch in {old(watch), old(watch)[id := Do(old(watch)[id], Restart)]}
      ensures ok ==> id in created && watch == old(watch)[id := Do(old(watch)[id], Restart)]
      ensures manualStops == old(manualStops) && previous == old(previous)
      ensures status == old(status)[id := Running] || (!ok && status == old(status))
      ensures published == old(published) + if ok then [Event("server.restarted", id)] else []
      ensures reliable && id in old(created) ==> ok
    {
      hide Valid;
      var fault := Fault(reliable);
      if fault || id !in created {
        return false;
      }
      fault := Fault(reliable);
      if fault {
        return false;
      }
      SetStatus(id, Running, Next(watch[id], RestartRun(true)));
      fault := Fault(reliable);
      if fault {
        return false;
      }
      Publish(Event("server.restarted", id));
      ok := true;
    }

    /** The container ends by itself. */
    method ContainerExits(id: string, to: Status)
      requires Valid() && id in watch && to != Running
      modifies this
      ensures Valid() && watch == old(watch)[id := Do(old(watch)[id], Quit(to))] && published == old(published)
    {
      assert Mirrors(id);
      if id in status && status[id] == Running {
        SetStatus(id, to, Next(watch[id], ExitAlone(to)));
      } else {
        assert watch == watch[id := Next(watch[id], ExitAlone(to))];
      }
    }

    /** Reads and clears the flag. */
    method IsManualStop(id: string) returns (was: bool)
      requires Valid() && id in watch
      modifies `manualStops, `watch
      ensures Valid() && was == old(watch)[id].flag
      ensures was == (id in old(manualStops)) && manualStops == old(manualStops) - {id}
      ensures watch == old(watch)[id := old(watch)[id].(flag := false)]
    {
      assert Mirrors(id);
      was := id in manualStops;
      SetFlag(id, false, watch[id].(flag := false));
    }

    method Remember(id: string, now: Status)
      requires Valid() && id in watch
      modifies `previous, `watch
      ensures Valid() && watch == old(watch)[id := old(watch)[id].(seen := Some(now), looked := None)]
      ensures previous == old(previous)[id := now]
    {
      assert forall k :: k in watch ==> Mirrors(k);
      previous := previous[id := now];
      watch := watch[id := watch[id].(seen := Some(now), looked := None)];
    }

    /** The observer reads the status of one container. */
    method Look(id: string) returns (now: Status)
      requires Valid() && id in watch
      modifies `watch
      ensures Valid() && watch == old(watch)[id := Next(old(watch)[id], Step.Look)]
      ensures now == watch[id].looked.value.status
      ensures now == if id in status then status[id] else Stopped
    {
      assert forall k :: k in watch ==> Mirrors(k);
      now := if id in status then status[id] else Stopped;
      watch := watch[id := Next(watch[id], Step.Look)];
    }

    /** A container found gone: a crash unless a flag says that it was stopped. */
    method Suspect(id: string)
      requires Valid() && id in watch && FoundGone(watch[id])
      modifies `manualStops, `published, `watch
      ensures Valid() && watch == old(watch)[id := old(watch)[id].(flag := false)]
      ensures published == old(published) + CrashOf(old(watch)[id], id)
      ensures published == old(published) + if id in old(manualStops) then [] else [Event("server.crashed", id)]
      ensures manualStops == old(manualStops) - {id}
    {
      hide Valid;
      var manual := IsManualStop(id);
      if !manual {
        Publish(Event("server.crashed", id));
      }
    }

    /** ... and compares it with the previous one. */
    method Judge(id: string, now: Status)
      requires Valid() && id in watch && watch[id].looked.Some? && watch[id].looked.value.status == now
      modifies `manualStops, `previous, `published, `watch
      ensures Valid() && watch == old(watch)[id := Next(old(watch)[id], Step.Judge)]
      ensures published == old(published) + CrashOf(old(watch)[id], id)
      ensures previous == old(previous)[id := now]
      ensures var gone := id in old(previous) && old(previous)[id] == Running && now != Running;
              && manualStops == (if gone then old(manualStops) - {id} else old(manualStops))
              && published == old(published) +
                   if gone && id !in old(manualStops) then [Event("server.crashed", id)] else []
    {
      assert Mirrors(id);
      var before := if id in previous then Some(previous[id]) else None;
      ghost var w := watch[id];
      assert before == w.seen &&
        Next(w, Step.Judge) == w.(flag := w.flag && !FoundGone(w), seen := Some(now), looked := None);
      hide Valid, Mirrors, Next;
      if before == Some(Running) && now != Running {
        Suspect(id);
      }
      Remember(id, now);
    }

    /** One server's turn in an undisturbed round. */
    method Observe(id: string)
      requires Valid() && id in watch
      modifies `manualStops, `previous, `published, `watch
      ensures Valid() && watch == old(watch)[id := Do(old(watch)[id], Poll)]
      ensures published == old(published) + CrashOf(Next(old(watch)[id], Step.Look), id)
    {
      hide Valid;
      var now := Look(id);
      Judge(id, now);
    }

    /** One turn of the loop over the servers; a server without a container, or whose status cannot be
        read, is skipped. */
    method Visit(i: nat, ghost w0: map<string, Watch>, ghost p0: seq<Event>, ghost answered: set<string>)
      returns (ghost now: set<string>)
      requires i < |servers| && Valid() && InRound(servers, i, watch, published, w0, p0, answered)
      modifies `manualStops, `previous, `published, `watch
      ensures Valid() && InRound(servers, i + 1, watch, published, w0, p0, now)
      ensures now == answered || (now == answered + {servers[i]} && servers[i] in created)
      ensures reliable && servers[i] in created ==> now == answered + {servers[i]}
    {
      var id := servers[i];
      assert id in watch && DistinctBy(servers, Itself);
      hide Valid, InRound, DistinctBy, Do, CrashOf, Next;
      var fault := Fault(reliable);
      if id in created && !fault {
        RoundVisits(servers, i, watch, published, w0, p0, answered);
        Observe(id);
        now := answered + {id};
      } else {
        RoundSkips(servers, i, watch, published, w0, p0, answered);
        now := answered;
      }
    }

    method Rounds(ghost w0: map<string, Watch>, ghost p0: seq<Event>) returns (ghost answered: set<string>)
      requires Valid() && InRound(servers, 0, watch, published, w0, p0, {})
      modifies `manualStops, `previous, `published, `watch
      ensures Valid() && InRound(servers, |servers|, watch, published, w0, p0, answered)
      ensures answered <= created && (reliable ==> forall id :: id in servers && id in created ==> id in answered)
    {
      hide Valid, InRound;
      answered := {};
      for i := 0 to |servers|
        invariant Valid() && InRound(servers, i, watch, published, w0, p0, answered)
        invariant answered <= created && (reliable ==> forall k :: 0 <= k < i && servers[k] in created ==>
          servers[k] in answered)
      {
        answered := Visit(i, w0, p0, answered);
      }
    }

    /** One undisturbed round over all servers. The listing or any status call may fail. */
    method Round() returns (ghost answered: set<string>)
      requires Valid()
      modifies `manualStops, `previous, `published, `watch
      ensures Valid() && Rounded(watch, old(watch), answered)
      ensures published == old(published) + Crashes(servers, answered, old(watch))
      ensures answered <= created && (reliable ==> forall id :: id in servers && id in created ==> id in answered)
    {
      hide Valid, InRound, Rounded, Crashes;
      answered := {};
      ghost var w0, p0 := watch, published;
      RoundBegins(servers, w0, p0);
      var fault := Fault(reliable);
      if !fault {
        answered := Rounds(w0, p0);
        RoundEnds(servers, watch, published, w0, p0, answered);
      }
    }

    // -------------------------------------------------------------- any interleaving

    method AnyCommandStep(id: string) returns (ghost s: Option<Step>)
      requires Valid() && id in watch
      modifies this
      ensures Valid() && watch == old(watch)[id := Stepped(old(watch)[id], s)]
      ensures s != Some(Step.Judge) && s != Some(Step.Look)
      ensures Publishes(id, s, old(watch)[id], old(published), published)
    {
      var choice: int := *;
      var to: Status := *;
      s := None;
      ghost var w := watch[id];
      assert watch == watch[id := w];
      hide Valid, Next;
      if choice == 0 {
        BeginStart(id);
        s := Some(StartBegin);
      } else if choice == 1 {
        var ok := FinishStart(id);
        s := if watch[id] == w then None else Some(StartRun(true));
      } else if choice == 2 {
        BeginStop(id);
        s := Some(StopBegin);
      } else if choice == 3 {
        var ok := FinishStop(id);
        s := Some(StopRun(ok));
      } else if choice == 4 {
        var ok := RestartServer(id);
        s := if watch[id] == w then None else Some(RestartRun(true));
      } else if to != Running {
        ContainerExits(id, to);
        s := Some(ExitAlone(to));
      }
    }

    /** One step of some goroutine on one server, or none when a call fails early. `reading` is the
        observer's local variable, if it stands between reading and comparing. */
    method AnyStep(id: string, reading: Option<Status>) returns (ghost s: Option<Step>, now: Option<Status>)
      requires Valid() && id in watch && AtHand(reading, watch[id])
      modifies this
      ensures Valid() && watch == old(watch)[id := Stepped(old(watch)[id], s)]
      ensures AtHand(now, Stepped(old(watch)[id], s))
      ensures Publishes(id, s, old(watch)[id], old(published), published)
    {
      var choice: int := *;
      if choice == 0 && reading.Some? {
        hide Valid, Next;
        AtHandJudged(watch[id], reading);
        Judge(id, reading.value);
        s, now := Some(Step.Judge), None;
      } else if choice == 1 {
        hide Valid, Next;
        AtHandLooked(watch[id]);
        var status := Look(id);
        s, now := Some(Step.Look), Some(status);
      } else {
        s := AnyCommandStep(id);
        now := reading;
        if s.Some? { AtHandKept(old(watch)[id], s.value, reading); }
      }
    }

    method AnyTurn(id: string, readings: map<string, Status>, ghost traces: map<string, seq<Step>>)
      returns (readings': map<string, Status>, ghost traces': map<string, seq<Step>>)
      requires Valid() && id in servers && AllTraced(watch, published, traces, readings)
      modifies this
      ensures Valid() && AllTraced(watch, published, traces', readings') && watch.Keys == old(watch).Keys
    {
      assert id in watch;
      ghost var s;
      var now;
      hide Valid, Stepped, Publishes, After1, Traced, AtHand;
      s, now := AnyStep(id, ReadingOf(readings, id));
      AllTracedStep(old(watch), old(published), traces, readings, id, s, now, published);
      readings' := WithReading(readings, id, now);
      traces' := traces[id := After1(traces[id], s)];
    }

    /** Commands, exits and the observer interleaved in any way, on any servers, with any failures:
        each server's state is that of a run of steps, and it has been reported as crashed as often as
        a comparison in that run reports it. */
    method AnyRun(turns: nat) returns (ghost traces: map<string, seq<Step>>, ghost readings: map<string, Status>)
      requires Valid() && published == [] && forall id :: id in watch ==> watch[id] == FRESH
      modifies this
      ensures Valid() && AllTraced(watch, published, traces, readings) && watch.Keys == old(watch).Keys
      ensures forall id :: id in watch ==>
        && id in traces && watch[id] == Run(FRESH, traces[id])
        && multiset(published)[Event("server.crashed", id)] == Reported(traces[id])
    {
      ghost var ids := watch.Keys;
      traces := map id | id in watch :: [];
      readings := map[];
      var local: map<string, Status> := map[];
      for i := 0 to turns
        invariant Valid() && watch.Keys == ids && readings == local && AllTraced(watch, published, traces, readings)
      {
        var id: string := *;
        if id in servers {
          local, traces := AnyTurn(id, local, traces);
          readings := local;
        }
      }
      assert forall id :: id in watch ==> TracedAt(id, watch, published, traces, readings);
    }
  }
}
