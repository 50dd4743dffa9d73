/** Self-healing: one handler goroutine per reported crash, several of which may be in flight for the
    same server. A handler checks the restart count, waits, restarts, and increments the count; the
    four are separate steps, so other handlers run in between. */
module SelfHealing {
  import opened Faults

  /** One server: the stored restart count, whether the store says "crash_looping", the healer's own
      manual-stop mark, and how many handlers stand before the check, between check and restart, and
      between restart and increment. `restarts` counts automatic restarts of the container and
      `lost` those that left no trace in the count, the store having refused the update. */
  datatype Heal = Heal(count: nat, looping: bool, manual: bool,
                       arrived: nat, waiting: nat, restarted: nat,
                       restarts: nat, lost: nat)

  /** RestartServer refused by the runtime; done by the runtime but reported as an error because the
      status row could not be written; or done and recorded. */
  datatype Outcome = Refused | Unrecorded | Recorded

  datatype Step =
    | Arrive                // a crash event starts a handler
    | MarkManual            // MarkManualStop
    | CheckFails            // reading the server's row fails
    | Check(marked: bool)   // `marked`: at the limit, the status row could be written
    | Cancelled             // the context ends during the wait
    | Restart(outcome: Outcome)
    | Increment(ok: bool)

  function InFlight(h: Heal): nat { h.arrived + h.waiting + h.restarted }

  predicate Enabled(h: Heal, s: Step) {
    match s
    case Arrive => true
    case MarkManual => true
    case CheckFails => h.arrived > 0
    case Check(_) => h.arrived > 0
    case Cancelled => h.waiting > 0
    case Restart(_) => h.waiting > 0
    case Increment(_) => h.restarted > 0
  }

  function Next(h: Heal, s: Step, maxRetries: int): Heal
    requires Enabled(h, s)
  {
    match s
    case Arrive => h.(arrived := h.arrived + 1)
    case MarkManual => h.(manual := true)
    case CheckFails => h.(arrived := h.arrived - 1, manual := false)
    case Check(marked) =>
      if h.manual then h.(arrived := h.arrived - 1, manual := false)
      else if h.count >= maxRetries then h.(arrived := h.arrived - 1, looping := h.looping || marked)
      else h.(arrived := h.arrived - 1, waiting := h.waiting + 1)
    case Cancelled => h.(waiting := h.waiting - 1)
    case Restart(Refused) => h.(waiting := h.waiting - 1)
    case Restart(Unrecorded) => h.(waiting := h.waiting - 1, restarts := h.restarts + 1, lost := h.lost + 1)
    case Restart(Recorded) =>
      h.(waiting := h.waiting - 1, restarted := h.restarted + 1, restarts := h.restarts + 1, looping := false)
    case Increment(ok) =>
      if ok then h.(restarted := h.restarted - 1, count := h.count + 1)
      else h.(restarted := h.restarted - 1, lost := h.lost + 1)
  }

  predicate StepAt(hs: seq<Heal>, steps: seq<Step>, maxRetries: int, i: nat)
    requires i < |steps| == |hs| - 1
  {
    Enabled(hs[i], steps[i]) && hs[i + 1] == Next(hs[i], steps[i], maxRetries)
  }

  /** The states of a run, each step enabled, never more than `k` handlers in flight. */
  ghost predicate IsRun(hs: seq<Heal>, steps: seq<Step>, maxRetries: int, k: nat) {
    && |hs| == |steps| + 1
    && (forall i :: 0 <= i < |hs| ==> InFlight(hs[i]) <= k)
    && forall i :: 0 <= i < |steps| ==> StepAt(hs, steps, maxRetries, i)
  }

  function Start(count: nat): Heal { Heal(count, false, false, 0, 0, 0, 0, 0) }

  function Max(a: int, b: int): int { if a >= b then a else b }

  ghost predicate Bounded(h: Heal, count0: nat, maxRetries: int, k: nat) {
    && h.count + h.waiting + h.restarted <= Max(count0, maxRetries + k - 1)
    && h.restarts == h.count - count0 + h.restarted + h.lost
  }

  /** Whatever the interleaving, the restart count together with the handlers past the check stays
      within MaxRetries + K - 1 (or the count it began with), and every automatic restart is accounted
      for by the count, by a pending increment, or by a store update that failed. */
  lemma {:induction false} AlwaysBounded(hs: seq<Heal>, steps: seq<Step>, maxRetries: int, k: nat, i: nat)
    requires IsRun(hs, steps, maxRetries, k) && i < |hs| && hs[0] == Start(hs[0].count)
    ensures Bounded(hs[i], hs[0].count, maxRetries, k)
  {
    if i > 0 {
      AlwaysBounded(hs, steps, maxRetries, k, i - 1);
      assert StepAt(hs, steps, maxRetries, i - 1);
      assert InFlight(hs[i]) <= k;
    }
  }

  /** So automatic restarts are bounded, and by MaxRetries itself when handlers never overlap. */
  lemma RestartsAreBounded(hs: seq<Heal>, steps: seq<Step>, maxRetries: int, k: nat, i: nat)
    requires IsRun(hs, steps, maxRetries, k) && i < |hs| && hs[0] == Start(0)
    ensures hs[i].restarts - hs[i].lost <= Max(0, maxRetries + k - 1)
    ensures k <= 1 ==> hs[i].restarts - hs[i].lost <= Max(0, maxRetries)
  {
    AlwaysBounded(hs, steps, maxRetries, k, i);
  }

  // ---------------------------------------------------------------- the bound is the right one

  lemma Append(hs: seq<Heal>, steps: seq<Step>, s: Step, maxRetries: int, k: nat)
    returns (hs': seq<Heal>, steps': seq<Step>)
    requires IsRun(hs, steps, maxRetries, k)
    requires Enabled(hs[|steps|], s) && InFlight(Next(hs[|steps|], s, maxRetries)) <= k
    ensures IsRun(hs', steps', maxRetries, k) && |steps'| == |steps| + 1 && |hs'| == |steps'| + 1
    ensures hs'[0] == hs[0] && hs'[|steps'|] == Next(hs[|steps|], s, maxRetries)
  {
    hs' := hs + [Next(hs[|steps|], s, maxRetries)];
    steps' := steps + [s];
    forall i | 0 <= i < |steps'| ensures StepAt(hs', steps', maxRetries, i) {
      assert i < |steps| ==> StepAt(hs, steps, maxRetries, i);
    }
  }

  /** After `n` undisturbed restarts. */
  function Restarted(n: nat, counted: bool): Heal {
    Heal(if counted then n else 0, false, false, 0, 0, 0, n, if counted then 0 else n)
  }

  /** One undisturbed handler, with a working runtime; the store may refuse the increment. */
  lemma OneRound(hs: seq<Heal>, steps: seq<Step>, maxRetries: nat, k: nat, n: nat, counted: bool)
    returns (hs': seq<Heal>, steps': seq<Step>)
    requires IsRun(hs, steps, maxRetries, k) && k > 0 && hs[|steps|] == Restarted(n, counted)
    requires maxRetries > 0 && (counted ==> n < maxRetries)
    ensures IsRun(hs', steps', maxRetries, k) && hs'[0] == hs[0] && hs'[|steps'|] == Restarted(n + 1, counted)
  {
    hide IsRun;
    hs', steps' := Append(hs, steps, Arrive, maxRetries, k);
    hs', steps' := Append(hs', steps', Check(true), maxRetries, k);
    hs', steps' := Append(hs', steps', Restart(Recorded), maxRetries, k);
    hs', steps' := Append(hs', steps', Increment(counted), maxRetries, k);
  }

  lemma Begin(maxRetries: nat, k: nat) returns (hs: seq<Heal>, steps: seq<Step>)
    ensures IsRun(hs, steps, maxRetries, k) && |steps| == 0 && |hs| == 1 && hs[0] == Start(0)
  {
    hs, steps := [Start(0)], [];
  }

  lemma {:induction false} Rounds(maxRetries: nat, k: nat, n: nat, counted: bool)
    returns (hs: seq<Heal>, steps: seq<Step>)
    requires k > 0 && maxRetries > 0 && (counted ==> n <= maxRetries)
    ensures IsRun(hs, steps, maxRetries, k) && hs[0] == Start(0) && hs[|steps|] == Restarted(n, counted)
  {
    hide IsRun;
    if n == 0 {
      hs, steps := Begin(maxRetries, k);
    } else {
      hs, steps := Rounds(maxRetries, k, n - 1, counted);
      hs, steps := OneRound(hs, steps, maxRetries, k, n - 1, counted);
    }
  }

  predicate CanMove(h: Heal, s: Step, n: int) {
    && n >= 0 && !h.manual && !h.looping
    && match s
       case Arrive => true
       case Check(_) => n <= h.arrived
       case Restart(outcome) => outcome == Recorded && n <= h.waiting
       case Increment(ok) => ok && n <= h.restarted
       case _ => false
  }

  /** `n` handlers make the same move. */
  function Moved(h: Heal, s: Step, n: int): Heal
    requires CanMove(h, s, n)
  {
    match s
    case Arrive => h.(arrived := h.arrived + n)
    case Check(_) => h.(arrived := h.arrived - n, waiting := h.waiting + n)
    case Restart(_) => h.(waiting := h.waiting - n, restarted := h.restarted + n, restarts := h.restarts + n)
    case Increment(_) => h.(restarted := h.restarted - n, count := h.count + n)
  }

  lemma {:induction false} AllMove(hs: seq<Heal>, steps: seq<Step>, s: Step, maxRetries: nat, k: nat, n: nat)
    returns (hs': seq<Heal>, steps': seq<Step>)
    requires IsRun(hs, steps, maxRetries, k) && CanMove(hs[|steps|], s, n)
    requires InFlight(Moved(hs[|steps|], s, n)) <= k && (s.Check? ==> hs[|steps|].count < maxRetries)
    ensures IsRun(hs', steps', maxRetries, k) && hs'[0] == hs[0] && hs'[|steps'|] == Moved(hs[|steps|], s, n)
  {
    if n == 0 {
      hs', steps' := hs, steps;
    } else {
      hs', steps' := AllMove(hs, steps, s, maxRetries, k, n - 1);
      hide IsRun;
      hs', steps' := Append(hs', steps', s, maxRetries, k);
    }
  }

  /** All K handlers pass the check at one below the limit. */
  lemma AllWait(hs: seq<Heal>, steps: seq<Step>, maxRetries: nat, k: nat) returns (hs': seq<Heal>, steps': seq<Step>)
    requires maxRetries > 0 && IsRun(hs, steps, maxRetries, k) && hs[|steps|] == Restarted(maxRetries - 1, true)
    ensures IsRun(hs', steps', maxRetries, k) && hs'[0] == hs[0]
    ensures hs'[|steps'|] == Restarted(maxRetries - 1, true).(waiting := k)
  {
    hide IsRun;
    hs', steps' := AllMove(hs, steps, Arrive, maxRetries, k, k);
    hs', steps' := AllMove(hs', steps', Check(true), maxRetries, k, k);
  }

  /** K overlapping handlers really can push the count to MaxRetries + K - 1. */
  lemma BoundIsReached(maxRetries: nat, k: nat) returns (hs: seq<Heal>, steps: seq<Step>)
    requires maxRetries > 0 && k > 0
    ensures IsRun(hs, steps, maxRetries, k) && hs[0] == Start(0)
    ensures hs[|steps|].count == hs[|steps|].restarts == maxRetries + k - 1
  {
    hide IsRun;
    hs, steps := Rounds(maxRetries, k, maxRetries - 1, true);
    hs, steps := AllWait(hs, steps, maxRetries, k);
    hs, steps := AllMove(hs, steps, Restart(Recorded), maxRetries, k, k);
    hs, steps := AllMove(hs, steps, Increment(true), maxRetries, k, k);
  }

  /** The part the bounds leave out is really unbounded: when the store refuses every increment, even
      handlers that never overlap restart the container as often as it crashes. */
  lemma UncountedRestartsAreUnbounded(maxRetries: nat, n: nat) returns (hs: seq<Heal>, steps: seq<Step>)
    requires maxRetries > 0
    ensures IsRun(hs, steps, maxRetries, 1) && hs[0] == Start(0)
    ensures hs[|steps|].restarts == n && hs[|steps|].count == 0 && !hs[|steps|].looping
  {
    hs, steps := Rounds(maxRetries, 1, n, false);
  }

  // ---------------------------------------------------------------- one handler at a time

  /** A handler that nothing interrupts, with a working runtime and store. */
  function Handled(h: Heal, maxRetries: int): Heal {
    var checked := Next(Next(h, Arrive, maxRetries), Check(true), maxRetries);
    if checked.waiting == h.waiting then checked
    else Next(Next(checked, Restart(Recorded), maxRetries), Increment(true), maxRetries)
  }

  function HandledTimes(h: Heal, maxRetries: int, n: nat): Heal {
    if n == 0 then h else Handled(HandledTimes(h, maxRetries, n - 1), maxRetries)
  }

  /** Without overlap: each crash is answered by one restart until MaxRetries is used up, and the
      first crash after that, and every later one, leaves the server marked crash_looping. */
  lemma {:induction false} SequentialCrashes(count0: nat, maxRetries: int, n: nat)
    ensures var h, left := HandledTimes(Start(count0), maxRetries, n), Max(0, maxRetries - count0);
            && h.restarts == (if n <= left then n else left)
            && (h.looping <==> n > left)
            && h.count == count0 + h.restarts && InFlight(h) == 0 && !h.manual
  {
    if n > 0 { SequentialCrashes(count0, maxRetries, n - 1); }
  }

  // ---------------------------------------------------------------- the program

  function Uncounted(h: Heal): int { h.restarts - h.lost - h.count - h.restarted }

  /** What the first part of a handler changes: it goes on to wait, or it is over. */
  predicate Checked(h: Heal, n: Heal, goOn: bool, maxRetries: int) {
    && n.arrived == h.arrived - 1 && n.waiting == h.waiting + (if goOn then 1 else 0) && n.restarted == h.restarted
    && n.restarts == h.restarts && Uncounted(n) == Uncounted(h)
    && (h.manual || h.count >= maxRetries ==> !goOn)
  }

  lemma CheckFacts(h: Heal, s: Step, maxRetries: int)
    requires h.arrived > 0 && (s == CheckFails || s.Check?)
    ensures Checked(h, Next(h, s, maxRetries), s.Check? && !h.manual && h.count < maxRetries, maxRetries)
  {
  }

  /** What the rest of a handler changes. */
  lemma ProceedFacts(h: Heal, m: Heal, n: Heal, goOn: bool, maxRetries: int)
    requires h.waiting > 0
    requires m in {Next(h, Cancelled, maxRetries), Next(h, Restart(Refused), maxRetries),
                   Next(h, Restart(Unrecorded), maxRetries), Next(h, Restart(Recorded), maxRetries)}
    requires goOn <==> m.restarted == h.restarted + 1
    requires if goOn then n in {Next(m, Increment(true), maxRetries), Next(m, Increment(false), maxRetries)} else n == m
    ensures n.arrived == h.arrived && InFlight(n) == InFlight(h) - 1
    ensures n.restarts <= h.restarts + 1 && Uncounted(n) == Uncounted(h)
  {
  }

  /** The healer over its store. `heal` is the per-server view the theorems above are about. */
  class SelfHealer {
    const maxRetries: int

    /** Whether store and runtime always work and no context ends. */
    const reliable: bool
    var manual: set<string>
    var counts: map<string, nat>        // restart_count of every server row
    var crashLooping: set<string>       // rows whose status says so
    var log: seq<(string, string)>      // events written to the store: type and server
    ghost var heal: map<string, Heal>

    ghost predicate Mirrors(id: string)
      requires id in heal && id in counts
      reads this
    {
      heal[id].count == counts[id] && heal[id].looping == (id in crashLooping) && heal[id].manual == (id in manual)
    }

    ghost predicate Valid()
      reads this
    {
      counts.Keys == heal.Keys && crashLooping <= heal.Keys
      && forall id :: id in heal ==> Mirrors(id)
    }

    constructor (maxRetries: int, reliable: bool, counts: map<string, nat>)
      ensures Valid() && this.maxRetries == maxRetries && this.reliable == reliable
      ensures this.counts == counts && log == []
      ensures forall id :: id in heal ==> heal[id] == Start(counts[id])
    {
      this.maxRetries, this.reliable, this.counts := maxRetries, reliable, counts;
      manual, crashLooping, log := {}, {}, [];
      heal := map id | id in counts :: Start(counts[id]);
    }

    method MarkManualStop(id: string)
      requires Valid() && id in heal
      modifies this
      ensures Valid() && heal == old(heal)[id := Next(old(heal)[id], MarkManual, maxRetries)] && log == old(log)
    {
      assert forall k :: k in heal ==> Mirrors(k);
      manual := manual + {id};
      heal := heal[id := Next(heal[id], MarkManual, maxRetries)];
    }

    /** A crash event: a handler is started. */
    method Deliver(id: string)
      requires Valid() && id in heal
      modifies `heal
      ensures Valid() && heal == old(heal)[id := Next(old(heal)[id], Arrive, maxRetries)] && log == old(log)
    {
      assert forall k :: k in heal ==> Mirrors(k);
      heal := heal[id := Next(heal[id], Arrive, maxRetries)];
    }

    /** The manual mark and the status row of one server. */
    method SetMarks(id: string, isManual: bool, isLooping: bool, ghost next: Heal)
      requires Valid() && id in heal
      requires next.count == counts[id] && next.manual == isManual && next.looping == isLooping
      modifies `manual, `crashLooping, `heal
      ensures Valid() && heal == old(heal)[id := next] && id in counts
      ensures manual == if isManual then old(manual) + {id} else old(manual) - {id}
      ensures crashLooping == if isLooping then old(crashLooping) + {id} else old(crashLooping) - {id}
    {
      assert forall k :: k in heal ==> Mirrors(k);
      manual := if isManual then manual + {id} else manual - {id};
      crashLooping := if isLooping then crashLooping + {id} else crashLooping - {id};
      heal := heal[id := next];
    }

    /** An event written to the store, unless that fails. */
    method SaveEvent(typ: string, id: string)
      modifies `log
      ensures log == old(log) + [(typ, id)] || (!reliable && log == old(log))
    {
      var fault := Fault(reliable);
      if !fault {
        log := log + [(typ, id)];
      }
    }

    /** First part of a handler: the manual mark, the row, the limit. True: go on to wait. */
    method CheckLimit(id: string) returns (goOn: bool)
      requires Valid() && id in heal && heal[id].arrived > 0
      modifies this
      ensures Valid()
      ensures heal in {old(heal)[id := Next(old(heal)[id], CheckFails, maxRetries)],
                       old(heal)[id := Next(old(heal)[id], Check(true), maxRetries)],
                       old(heal)[id := Next(old(heal)[id], Check(false), maxRetries)]}
      ensures heal == old(heal)[id := heal[id]] && Checked(old(heal)[id], heal[id], goOn, maxRetries)
      ensures log == old(log) ||
        (log == old(log) + [("server.recovery_failed", id)] && old(heal)[id].count >= maxRetries)
      ensures id in old(counts) && counts == old(counts) && manual == old(manual) - {id}
      ensures goOn ==> id !in old(manual) && counts[id] < maxRetries
      ensures id in old(manual) || counts[id] < maxRetries ==> crashLooping == old(crashLooping) && log == old(log)
      ensures crashLooping == old(crashLooping) || crashLooping == old(crashLooping) + {id}
      ensures reliable ==> heal[id] == Next(old(heal)[id], Check(true), maxRetries)
      ensures reliable ==> (goOn <==> id !in old(manual) && counts[id] < maxRetries)
    {
      assert Mirrors(id);
      assert crashLooping == if id in crashLooping then crashLooping + {id} else crashLooping - {id};
      ghost var h := heal[id];
      var wasManual, wasLooping := id in manual, id in crashLooping;
      var count := counts[id];
      CheckFacts(h, CheckFails, maxRetries);
      CheckFacts(h, Check(true), maxRetries);
      CheckFacts(h, Check(false), maxRetries);
      hide Valid, Mirrors, Checked;
      var fault := Fault(reliable);
      if wasManual {
        SetMarks(id, false, wasLooping, Next(h, Check(true), maxRetries));
        return false;
      }
      if fault {
        SetMarks(id, false, wasLooping, Next(h, CheckFails, maxRetries));
        return false;
      }
      if count >= maxRetries {
        var unmarked := Fault(reliable);
        var marked := !unmarked;
        SetMarks(id, false, wasLooping || marked, Next(h, Check(marked), maxRetries));
        SaveEvent("server.recovery_failed", id);
        return false;
      }
      SetMarks(id, false, wasLooping, Next(h, Check(true), maxRetries));
      goOn := true;
    }

    /** Second part, after the wait: the restart. True: go on to count it. */
    method DoRestart(id: string) returns (goOn: bool)
      requires Valid() && id in heal && heal[id].waiting > 0
      modifies this
      ensures Valid() && log == old(log)
      ensures heal in {old(heal)[id := Next(old(heal)[id], Cancelled, maxRetries)],
                       old(heal)[id := Next(old(heal)[id], Restart(Refused), maxRetries)],
                       old(heal)[id := Next(old(heal)[id], Restart(Unrecorded), maxRetries)],
                       old(heal)[id := Next(old(heal)[id], Restart(Recorded), maxRetries)]}
      ensures goOn <==> heal[id].restarted == old(heal)[id].restarted + 1
      ensures id in counts && heal[id].waiting == old(heal)[id].waiting - 1
      ensures counts == old(counts) && manual == old(manual)
      ensures crashLooping == if goOn then old(crashLooping) - {id} else old(crashLooping)
      ensures reliable ==> goOn && heal[id] == Next(old(heal)[id], Restart(Recorded), maxRetries)
    {
      assert Mirrors(id);
      assert manual == if id in manual then manual + {id} else manual - {id};
      assert crashLooping == if id in crashLooping then crashLooping + {id} else crashLooping - {id};
      hide Valid, Mirrors;
      ghost var h := heal[id];
      var cancelled := Fault(reliable);
      if cancelled {
        SetMarks(id, id in manual, id in crashLooping, Next(h, Cancelled, maxRetries));
        return false;
      }
      var outcome: Outcome := *;
      if reliable {
        outcome := Recorded;
      }
      goOn := outcome == Recorded;
      SetMarks(id, id in manual, !goOn && id in crashLooping, Next(h, Restart(outcome), maxRetries));
    }

    /** The count of one server. */
    method SetCount(id: string, count: nat, ghost next: Heal)
      requires Valid() && id in heal
      requires next.count == count && next.manual == heal[id].manual && next.looping == heal[id].looping
      modifies `counts, `heal
      ensures Valid() && heal == old(heal)[id := next] && counts == old(counts)[id := count]
    {
      assert forall k :: k in heal ==> Mirrors(k);
      counts := counts[id := count];
      heal := heal[id := next];
    }

    /** Last part: the count, whose update may fail without anyone noticing. */
    method CountRestart(id: string)
      requires Valid() && id in heal && heal[id].restarted > 0
      modifies this
      ensures Valid()
      ensures heal in {old(heal)[id := Next(old(heal)[id], Increment(true), maxRetries)],
                       old(heal)[id := Next(old(heal)[id], Increment(false), maxRetries)]}
      ensures log == old(log) || log == old(log) + [("server.recovered", id)]
      ensures id in old(counts) && (counts == old(counts) || counts == old(counts)[id := old(counts)[id] + 1])
      ensures manual == old(manual) && crashLooping == old(crashLooping)
      ensures reliable ==> heal[id] == Next(old(heal)[id], Increment(true), maxRetries)
    {
      assert Mirrors(id) && counts == counts[id := counts[id]];
      hide Valid, Mirrors;
      ghost var h := heal[id];
      var refused := Fault(reliable);
      SetCount(id, if refused then counts[id] else counts[id] + 1, Next(h, Increment(!refused), maxRetries));
      var fault := Fault(reliable);
      if !fault {
        log := log + [("server.recovered", id)];
      }
    }

    /** A handler's way from the wait to its end. */
    method Proceed(id: string)
      requires Valid() && id in heal && heal[id].waiting > 0
      modifies this
      ensures Valid() && id in heal && heal == old(heal)[id := heal[id]]
      ensures heal[id].arrived == old(heal)[id].arrived && InFlight(heal[id]) == InFlight(old(heal)[id]) - 1
      ensures heal[id].restarts <= old(heal)[id].restarts + 1 && Uncounted(heal[id]) == Uncounted(old(heal)[id])
      ensures id in old(counts) && (counts == old(counts) || counts == old(counts)[id := old(counts)[id] + 1])
      ensures manual == old(manual) && (crashLooping == old(crashLooping) || crashLooping == old(crashLooping) - {id})
      ensures reliable ==>
        heal[id] == Next(Next(old(heal)[id], Restart(Recorded), maxRetries), Increment(true), maxRetries)
    {
      hide Valid, Mirrors, Next, Uncounted;
      ghost var h := heal[id];
      var goOn := DoRestart(id);
      ghost var m := heal[id];
      if goOn {
        CountRestart(id);
      }
      ProceedFacts(h, m, heal[id], goOn, maxRetries);
    }

    /** A handler that runs without interruption: at most one restart, none at the limit or after a
        manual stop, and every restart shows up in the count or as lost. */
    method Handle(id: string)
      requires Valid() && id in heal
      modifies this
      ensures Valid() && id in heal && heal == old(heal)[id := heal[id]]
      ensures InFlight(heal[id]) == InFlight(old(heal)[id])
      ensures heal[id].restarts <= old(heal)[id].restarts + 1 && Uncounted(heal[id]) == Uncounted(old(heal)[id])
      ensures old(heal)[id].manual || old(heal)[id].count >= maxRetries ==> heal[id].restarts == old(heal)[id].restarts
      ensures id in old(counts) && manual == old(manual) - {id}
      ensures counts == old(counts) || counts == old(counts)[id := old(counts)[id] + 1]
      ensures id in old(manual) || old(counts)[id] >= maxRetries ==> counts == old(counts)
      ensures id in old(manual) ==> crashLooping == old(crashLooping) && log == old(log)
      ensures reliable ==> heal[id] == Handled(old(heal)[id], maxRetries)
    {
      hide Valid;
      ghost var h := heal[id];
      Deliver(id);
      assert heal[id] == h.(arrived := h.arrived + 1);
      hide Next;
      var goOn := CheckLimit(id);
      if goOn {
        Proceed(id);
      }
    }

    lemma Seen(id: string)
      requires Valid() && id in heal
      ensures id in counts && heal[id].count == counts[id] && heal[id].looping == (id in crashLooping)
    {
      assert Mirrors(id);
    }

    /** `n` crashes, one after the other, with store and runtime working: one counted restart for each, until
        the limit is used up, and after that the server is marked. */
    method HandleTimes(id: string, n: nat)
      requires Valid() && reliable && id in heal && id in counts && heal[id] == Start(counts[id])
      modifies this
      ensures Valid() && id in counts
      ensures var left := if old(counts)[id] < maxRetries then maxRetries - old(counts)[id] else 0;
              && counts[id] == old(counts)[id] + (if n <= left then n else left)
              && (id in crashLooping <==> n > left)
    {
      hide Valid, Handled, Mirrors;
      ghost var count := counts[id];
      for i := 0 to n
        invariant Valid() && id in heal && heal[id] == HandledTimes(Start(count), maxRetries, i)
      {
        Handle(id);
      }
      SequentialCrashes(count, maxRetries, n);
      Seen(id);
    }
  }
}
