/** Capturing a child process's output under a time and a byte bound (context-gate/src/run-command.ts). */
module ChildCapture {
  import opened Prelude

  datatype Bound = Timeout | MaxBytes
  datatype Signal = SigTerm | SigKill

  datatype Outcome = Captured(raw: seq<bv8>, terminated: Option<Bound>, exitCode: Option<int>) | CommandFailed(detail: string)

  // What the callbacks share. Timers are named in the order they are started.
  datatype Run = Run(
    raw: seq<bv8>,
    terminated: Option<Bound>,
    outcome: Option<Outcome>,
    timeoutArmed: bool,
    killTimers: set<nat>,
    latestKill: Option<nat>,
    started: nat,
    signals: seq<Signal>)

  datatype Event =
    | Data(chunk: seq<bv8>)
    | Failed(detail: string)
    | Closed(code: Option<int>)
    | TimeoutFires
    | KillFires(timer: nat)

  const Spawned := Run([], None, None, true, {}, None, 0, [])

  // SIGTERM now, SIGKILL after a grace period; only the latest timer is remembered.
  function ForceKill(r: Run): Run {
    r.(signals := r.signals + [SigTerm], killTimers := r.killTimers + {r.started}, latestKill := Some(r.started),
       started := r.started + 1)
  }

  function Append(r: Run, chunk: seq<bv8>, maxBytes: int): Run {
    if r.terminated.Some? then r
    else
      var remaining := maxBytes - |r.raw|;
      if |chunk| >= remaining then
        ForceKill(r.(raw := if remaining > 0 then r.raw + chunk[..remaining] else r.raw, terminated := Some(MaxBytes)))
      else r.(raw := r.raw + chunk)
  }

  function Settle(r: Run, o: Outcome): Run {
    if r.outcome.Some? then r
    else r.(outcome := Some(o), timeoutArmed := false,
            killTimers := if r.latestKill.Some? then r.killTimers - {r.latestKill.value} else r.killTimers)
  }

  function Close(r: Run, code: Option<int>): Outcome {
    Captured(r.raw, r.terminated, if r.terminated.Some? then None else code)
  }

  // A timer that is not running does not fire.
  function Step(r: Run, e: Event, maxBytes: int): Run {
    match e
    case Data(chunk) => Append(r, chunk, maxBytes)
    case Failed(detail) => Settle(r, CommandFailed(detail))
    case Closed(code) => Settle(r, Close(r, code))
    case TimeoutFires =>
      if r.timeoutArmed then ForceKill(r.(terminated := Some(Timeout), timeoutArmed := false)) else r
    case KillFires(timer) =>
      if timer in r.killTimers then r.(killTimers := r.killTimers - {timer}, signals := r.signals + [SigKill]) else r
  }

  function After(events: seq<Event>, maxBytes: int): Run {
    if events == [] then Spawned
    else Step(After(events[..|events| - 1], maxBytes), events[|events| - 1], maxBytes)
  }

  // ---------- What the history says ----------

  // The timer fires once, and not after the call has settled.
  predicate TimedOut(events: seq<Event>) {
    exists k :: 0 <= k < |events| && events[k] == TimeoutFires && !Settled(events[..k])
  }

  predicate Settled(events: seq<Event>) {
    exists k :: 0 <= k < |events| && (events[k].Failed? || events[k].Closed?)
  }

  // What the child had written before the timer fired.
  function Stream(events: seq<Event>): seq<bv8> {
    if events == [] then []
    else
      var earlier := events[..|events| - 1];
      match events[|events| - 1]
      case Data(chunk) => if TimedOut(earlier) then Stream(earlier) else Stream(earlier) + chunk
      case _ => Stream(earlier)
  }

  // As much of the stream as the byte bound allows.
  function Bounded(stream: seq<bv8>, maxBytes: int): seq<bv8> {
    if maxBytes <= 0 then [] else if |stream| <= maxBytes then stream else stream[..maxBytes]
  }

  // The byte bound was reached before the timer fired.
  predicate Overran(events: seq<Event>, maxBytes: int) {
    if events == [] then false
    else
      var earlier := events[..|events| - 1];
      || Overran(earlier, maxBytes)
      || (events[|events| - 1].Data? && !TimedOut(earlier) && |Stream(events)| >= maxBytes)
  }

  lemma OneMoreEvent(events: seq<Event>)
    requires events != []
    ensures var earlier, e := events[..|events| - 1], events[|events| - 1];
      && (Settled(events) <==> Settled(earlier) || e.Failed? || e.Closed?)
      && (TimedOut(events) <==> TimedOut(earlier) || (e == TimeoutFires && !Settled(earlier)))
  {
    var n := |events| - 1;
    var earlier := events[..n];
    assert forall k :: 0 <= k < n ==> events[k] == earlier[k] && events[..k] == earlier[..k];
    assert events[n] == events[|events| - 1] && events[..n] == earlier;
    if TimedOut(events) {
      var k :| 0 <= k < |events| && events[k] == TimeoutFires && !Settled(events[..k]);
      if k < n {
        assert earlier[k] == TimeoutFires && !Settled(earlier[..k]);
      }
    }
    if TimedOut(earlier) {
      var k :| 0 <= k < |earlier| && earlier[k] == TimeoutFires && !Settled(earlier[..k]);
      assert events[k] == TimeoutFires && !Settled(events[..k]);
    }
  }

  // The shared state always says what the history says.
  ghost predicate Tells(r: Run, events: seq<Event>, maxBytes: int) {
    && r.raw == Bounded(Stream(events), maxBytes)
    && r.terminated == (if TimedOut(events) then Some(Timeout) else if Overran(events, maxBytes) then Some(MaxBytes) else None)
    && (r.timeoutArmed <==> !TimedOut(events) && !Settled(events))
    && (r.outcome.Some? <==> Settled(events))
    && r.started == (if TimedOut(events) then 1 else 0) + (if Overran(events, maxBytes) then 1 else 0)
  }

  lemma {:induction false} StateTellsTheHistory(events: seq<Event>, maxBytes: int)
    ensures Tells(After(events, maxBytes), events, maxBytes)
    ensures !Overran(events, maxBytes) && Stream(events) != [] ==> |Stream(events)| < maxBytes
    ensures Overran(events, maxBytes) ==> |Stream(events)| >= maxBytes
  {
    if events != [] {
      var earlier, e := events[..|events| - 1], events[|events| - 1];
      StateTellsTheHistory(earlier, maxBytes);
      OneMoreEvent(events);
      hide TimedOut, Settled;
      var r := After(earlier, maxBytes);
      assert After(events, maxBytes) == Step(r, e, maxBytes);
      if e.Data? && r.terminated == None {
        DataIsBounded(Stream(earlier), e.chunk, maxBytes);
      } else if e.Data? {
        if !TimedOut(earlier) {
          assert Bounded(Stream(earlier) + e.chunk, maxBytes) == Bounded(Stream(earlier), maxBytes);
        }
      }
    }
  }

  lemma DataIsBounded(stream: seq<bv8>, chunk: seq<bv8>, maxBytes: int)
    requires stream != [] ==> |stream| < maxBytes
    ensures var raw, remaining := Bounded(stream, maxBytes), maxBytes - |Bounded(stream, maxBytes)|;
      && raw == stream
      && (|chunk| >= remaining <==> |stream + chunk| >= maxBytes)
      && Bounded(stream + chunk, maxBytes) ==
           if |chunk| < remaining then raw + chunk else if remaining > 0 then raw + chunk[..remaining] else raw
  {
    var remaining := maxBytes - |stream|;
    if 0 < remaining <= |chunk| {
      assert (stream + chunk)[..maxBytes] == stream + chunk[..remaining];
    }
  }

  // ---------- The outcome ----------

  lemma {:induction false} SettledStays(events: seq<Event>, more: seq<Event>, maxBytes: int)
    requires Settled(events)
    ensures After(events + more, maxBytes).outcome == After(events, maxBytes).outcome
  {
    if more == [] {
      assert events + more == events;
    } else {
      var n := |more| - 1;
      SettledStays(events, more[..n], maxBytes);
      StateTellsTheHistory(events, maxBytes);
      assert (events + more)[..|events + more| - 1] == events + more[..n];
    }
  }

  // A run stopped for its bytes is still reported as timed out when the child then takes too long to die.
  function WhyStopped(events: seq<Event>, maxBytes: int): Option<Bound> {
    if TimedOut(events) then Some(Timeout) else if Overran(events, maxBytes) then Some(MaxBytes) else None
  }

  /** The call settles with the first error or close, once and for all; a close yields the bounded prefix of
      what the child wrote in time, and an exit code only when no bound was hit. */
  lemma SettlesOnce(events: seq<Event>, last: Event, more: seq<Event>, maxBytes: int)
    requires !Settled(events) && (last.Failed? || last.Closed?)
    ensures After(events, maxBytes).outcome == None
    ensures After(events + [last] + more, maxBytes).outcome == Some(
      if last.Failed? then CommandFailed(last.detail)
      else Captured(Bounded(Stream(events), maxBytes), WhyStopped(events, maxBytes),
                    if WhyStopped(events, maxBytes) == None then last.code else None))
  {
    StateTellsTheHistory(events, maxBytes);
    var settled := events + [last];
    assert settled[..|settled| - 1] == events && settled[|settled| - 1] == last;
    OneMoreEvent(settled);
    SettledStays(settled, more, maxBytes);
  }

  // ---------- The kill timers ----------

  // The timer started by the byte bound went off.
  predicate FirstKillFired(events: seq<Event>, maxBytes: int) {
    exists k :: 0 <= k < |events| && events[k] == KillFires(0) && Overran(events[..k], maxBytes)
  }

  lemma OneMoreKill(events: seq<Event>, maxBytes: int)
    requires events != []
    ensures var earlier, e := events[..|events| - 1], events[|events| - 1];
      FirstKillFired(events, maxBytes) <==>
        FirstKillFired(earlier, maxBytes) || (e == KillFires(0) && Overran(earlier, maxBytes))
  {
    var n := |events| - 1;
    var earlier := events[..n];
    assert forall k :: 0 <= k < n ==> events[k] == earlier[k] && events[..k] == earlier[..k];
    assert events[..n] == earlier;
    if FirstKillFired(events, maxBytes) {
      var k :| 0 <= k < |events| && events[k] == KillFires(0) && Overran(events[..k], maxBytes);
      if k < n {
        assert earlier[k] == KillFires(0) && Overran(earlier[..k], maxBytes);
      }
    }
    if FirstKillFired(earlier, maxBytes) {
      var k :| 0 <= k < n && earlier[k] == KillFires(0) && Overran(earlier[..k], maxBytes);
      assert events[k] == KillFires(0) && Overran(events[..k], maxBytes);
    }
  }

  lemma {:induction false} NoKillBeforeOverrun(events: seq<Event>, maxBytes: int)
    ensures FirstKillFired(events, maxBytes) ==> Overran(events, maxBytes)
  {
    if events != [] {
      NoKillBeforeOverrun(events[..|events| - 1], maxBytes);
      OneMoreKill(events, maxBytes);
    }
  }

  ghost predicate TimersTell(r: Run, events: seq<Event>, maxBytes: int) {
    && (forall t :: t in r.killTimers ==> t < r.started)
    && r.latestKill == (if r.started == 0 then None else Some(r.started - 1))
    && (Overran(events, maxBytes) ==> (0 in r.killTimers <==> !FirstKillFired(events, maxBytes)))
  }

  lemma {:induction false} TimersTellTheHistory(events: seq<Event>, maxBytes: int)
    requires !Settled(events)
    ensures TimersTell(After(events, maxBytes), events, maxBytes)
  {
    if events != [] {
      var earlier := events[..|events| - 1];
      OneMoreEvent(events);
      TimersTellTheHistory(earlier, maxBytes);
      StateTellsTheHistory(earlier, maxBytes);
      StateTellsTheHistory(events, maxBytes);
      OneMoreKill(events, maxBytes);
      NoKillBeforeOverrun(earlier, maxBytes);
      hide TimedOut, Settled, Overran, FirstKillFired, Stream, Bounded;
    }
  }

  lemma LeftAtSettlement(events: seq<Event>, last: Event, maxBytes: int)
    requires !Settled(events) && (last.Failed? || last.Closed?)
    ensures After(events + [last], maxBytes).killTimers
      == if TimedOut(events) && Overran(events, maxBytes) && !FirstKillFired(events, maxBytes) then {0} else {}
  {
    TimersTellTheHistory(events, maxBytes);
    StateTellsTheHistory(events, maxBytes);
    var settled := events + [last];
    assert settled[..|settled| - 1] == events && settled[|settled| - 1] == last;
    var r := After(events, maxBytes);
    assert After(settled, maxBytes) == Step(r, last, maxBytes);
    hide TimedOut, Settled, Overran, FirstKillFired, After, Stream, Bounded;
    OnlyFirstTimerLeft(r);
  }

  // The byte bound is reached once and for all; the timer no longer fires when the call has settled.
  lemma {:induction false} AfterSettlement(events: seq<Event>, last: Event, more: seq<Event>, maxBytes: int)
    requires !Settled(events) && (last.Failed? || last.Closed?)
    ensures var all := events + [last] + more;
      && Settled(all) && (TimedOut(all) <==> TimedOut(events))
      && (Overran(events, maxBytes) ==> Overran(all, maxBytes))
      && (more == [] ==> (Overran(all, maxBytes) <==> Overran(events, maxBytes)))
      && (more == [] ==> (FirstKillFired(all, maxBytes) <==> FirstKillFired(events, maxBytes)))
  {
    var all, n := events + [last] + more, |more| - 1;
    OneMoreEvent(all);
    OneMoreKill(all, maxBytes);
    if more == [] {
      assert all[..|all| - 1] == events && all[|all| - 1] == last;
    } else {
      AfterSettlement(events, last, more[..n], maxBytes);
      assert all[..|all| - 1] == events + [last] + more[..n];
    }
  }

  // A settled run starts a timer only when it reaches the byte bound for the first time.
  lemma OneMoreAfterSettlement(r: Run, e: Event, maxBytes: int, timedOut: bool, before: bool, overran: bool, next: bool,
      fired: bool)
    requires r.outcome.Some? && !r.timeoutArmed && (r.terminated.Some? <==> timedOut || overran)
    requires r.started == (if timedOut then 1 else 0) + (if overran then 1 else 0)
    requires Step(r, e, maxBytes).started == (if timedOut then 1 else 0) + (if next then 1 else 0)
    requires (before ==> overran) && (overran ==> next) && (fired ==> overran)
    requires r.killTimers == if overran && !fired && (before ==> timedOut) then {0} else {}
    ensures Step(r, e, maxBytes).killTimers
      == if next && !(fired || (e == KillFires(0) && overran)) && (before ==> timedOut) then {0} else {}
  {
  }

  /** However much happens after the call has settled, the one timer that can be running is the first, in a run that
      hit its byte bound and then its time bound within the grace period, or one whose child went past the byte bound
      only after the call had settled. */
  lemma {:induction false} LeftoverTimerIff(events: seq<Event>, last: Event, more: seq<Event>, maxBytes: int)
    requires !Settled(events) && (last.Failed? || last.Closed?)
    ensures var all := events + [last] + more;
      After(all, maxBytes).killTimers ==
        if Overran(all, maxBytes) && !FirstKillFired(all, maxBytes) && (Overran(events, maxBytes) ==> TimedOut(events))
        then {0} else {}
  {
    var all, n := events + [last] + more, |more| - 1;
    AfterSettlement(events, last, more, maxBytes);
    if more == [] {
      assert all == events + [last];
      LeftAtSettlement(events, last, maxBytes);
    } else {
      hide *;
      var earlier := events + [last] + more[..n];
      assert all[..|all| - 1] == earlier && all[|all| - 1] == more[n];
      LeftoverTimerIff(events, last, more[..n], maxBytes);
      AfterSettlement(events, last, more[..n], maxBytes);
      StepAfterSettlement(events, all, maxBytes);
    }
  }

  // Both histories are settled; the earlier one has one event less.
  lemma StepAfterSettlement(events: seq<Event>, all: seq<Event>, maxBytes: int)
    requires all != []
    requires var earlier := all[..|all| - 1];
      && Settled(earlier) && (TimedOut(earlier) <==> TimedOut(events)) && (TimedOut(all) <==> TimedOut(events))
      && (Overran(events, maxBytes) ==> Overran(earlier, maxBytes))
      && After(earlier, maxBytes).killTimers ==
        if Overran(earlier, maxBytes) && !FirstKillFired(earlier, maxBytes) && (Overran(events, maxBytes) ==> TimedOut(events))
        then {0} else {}
    ensures After(all, maxBytes).killTimers ==
      if Overran(all, maxBytes) && !FirstKillFired(all, maxBytes) && (Overran(events, maxBytes) ==> TimedOut(events))
      then {0} else {}
  {
    hide TimedOut, Settled, FirstKillFired, After, Stream, Bounded, Overran, Step;
    var earlier, e := all[..|all| - 1], all[|all| - 1];
    StateTellsTheHistory(earlier, maxBytes);
    StateTellsTheHistory(all, maxBytes);
    OneMoreKill(all, maxBytes);
    NoKillBeforeOverrun(earlier, maxBytes);
    StepsOn(all, maxBytes);
    OneMoreAfterSettlement(After(earlier, maxBytes), e, maxBytes, TimedOut(events), Overran(events, maxBytes),
      Overran(earlier, maxBytes), Overran(all, maxBytes), FirstKillFired(earlier, maxBytes));
  }

  lemma StepsOn(events: seq<Event>, maxBytes: int)
    requires events != []
    ensures After(events, maxBytes) == Step(After(events[..|events| - 1], maxBytes), events[|events| - 1], maxBytes)
    ensures Overran(events[..|events| - 1], maxBytes) ==> Overran(events, maxBytes)
  {
  }

  /** One byte too many, a timer that fires before the child has died, a close: the first kill timer still runs. */
  lemma OverrunThenTimeoutLeavesATimer()
    ensures After([Data([0]), TimeoutFires, Closed(None)], 1).killTimers == {0}
  {
    var one, two, three := [Data([0])], [Data([0]), TimeoutFires], [Data([0]), TimeoutFires, Closed(None)];
    assert one[..0] == [] && two[..1] == one && three[..2] == two;
    assert After([], 1) == Spawned;
    assert After(one, 1) == Step(Spawned, Data([0]), 1);
    assert After(two, 1).killTimers == {0, 1} && After(two, 1).latestKill == Some(1);
  }

  /** After an error the output that still comes can reach the byte bound, and its kill timer outlives the call. */
  lemma OverrunAfterSettlementStartsATimer()
    ensures After([Failed(""), Data([0])], 1).killTimers == {0}
  {
    var one, two := [Failed("")], [Failed(""), Data([0])];
    assert one[..0] == [] && two[..1] == one;
    assert After([], 1) == Spawned;
  }

  lemma OnlyFirstTimerLeft(r: Run)
    requires r.started <= 2 && (forall t :: t in r.killTimers ==> t < r.started)
    requires r.latestKill == if r.started == 0 then None else Some(r.started - 1)
    ensures (if r.latestKill.Some? then r.killTimers - {r.latestKill.value} else r.killTimers)
      == if r.started == 2 && 0 in r.killTimers then {0} else {}
  {
  }

  // ---------- The signals ----------

  // The grace periods that ran out while their timer was running.
  function GraceOver(events: seq<Event>, maxBytes: int): nat {
    if events == [] then 0
    else
      var earlier, e := events[..|events| - 1], events[|events| - 1];
      GraceOver(earlier, maxBytes) + if e.KillFires? && e.timer in After(earlier, maxBytes).killTimers then 1 else 0
  }

  /** The child is sent SIGTERM once for each bound it hits, and SIGKILL once for each grace period that runs out. */
  lemma {:induction false} SignalsTellTheHistory(events: seq<Event>, maxBytes: int)
    ensures var sent := multiset(After(events, maxBytes).signals);
      && sent[SigTerm] == (if TimedOut(events) then 1 else 0) + (if Overran(events, maxBytes) then 1 else 0)
      && sent[SigKill] == GraceOver(events, maxBytes)
  {
    StateTellsTheHistory(events, maxBytes);
    SignalsAreCounted(events, maxBytes);
    hide TimedOut, Overran, Stream, Bounded, After;
  }

  lemma {:induction false} SignalsAreCounted(events: seq<Event>, maxBytes: int)
    ensures var r := After(events, maxBytes);
      multiset(r.signals)[SigTerm] == r.started && multiset(r.signals)[SigKill] == GraceOver(events, maxBytes)
  {
    if events != [] {
      SignalsAreCounted(events[..|events| - 1], maxBytes);
    }
  }

  // ---------- The callbacks ----------

  class ChildRun {
    const maxBytes: int
    var raw: seq<bv8>
    var terminated: Option<Bound>
    var outcome: Option<Outcome>
    var timeoutArmed: bool
    var killTimers: set<nat>
    var killTimer: Option<nat>
    var started: nat
    var signals: seq<Signal>

    ghost function Shown(): Run
      reads this
    {
      Run(raw, terminated, outcome, timeoutArmed, killTimers, killTimer, started, signals)
    }

    constructor (maxBytes: int)
      ensures this.maxBytes == maxBytes && Shown() == After([], maxBytes)
    {
      this.maxBytes := maxBytes;
      raw, terminated, outcome := [], None, None;
      timeoutArmed, killTimers, killTimer, started, signals := true, {}, None, 0, [];
    }

    method ForceKillNow()
      modifies this
      ensures Shown() == ForceKill(old(Shown()))
    {
      signals := signals + [SigTerm];
      killTimers := killTimers + {started};
      killTimer := Some(started);
      started := started + 1;
    }

    method OnData(chunk: seq<bv8>)
      modifies this
      ensures Shown() == Step(old(Shown()), Data(chunk), maxBytes)
    {
      if terminated.Some? {
        return;
      }
      var remaining := maxBytes - |raw|;
      if |chunk| >= remaining {
        if remaining > 0 {
          raw := raw + chunk[..remaining];
        }
        terminated := Some(MaxBytes);
        ForceKillNow();
        return;
      }
      raw := raw + chunk;
    }

    method SettleWith(o: Outcome)
      modifies this
      ensures Shown() == Settle(old(Shown()), o)
    {
      if outcome.Some? {
        return;
      }
      timeoutArmed := false;
      if killTimer.Some? {
        killTimers := killTimers - {killTimer.value};
      }
      outcome := Some(o);
    }

    method OnError(detail: string)
      modifies this
      ensures Shown() == Step(old(Shown()), Failed(detail), maxBytes)
    {
      SettleWith(CommandFailed(detail));
    }

    method OnClose(code: Option<int>)
      modifies this
      ensures Shown() == Step(old(Shown()), Closed(code), maxBytes)
    {
      SettleWith(Captured(raw, terminated, if terminated.Some? then None else code));
    }

    method OnTimeout()
      modifies this
      ensures Shown() == Step(old(Shown()), TimeoutFires, maxBytes)
    {
      if !timeoutArmed {
        return;
      }
      timeoutArmed := false;
      terminated := Some(Timeout);
      ForceKillNow();
    }

    method OnGraceOver(timer: nat)
      modifies this
      ensures Shown() == Step(old(Shown()), KillFires(timer), maxBytes)
    {
      if timer in killTimers {
        killTimers := killTimers - {timer};
        signals := signals + [SigKill];
      }
    }
  }
}
