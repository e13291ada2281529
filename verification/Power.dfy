/** Rationing restarts and shutdowns: the guard, and the machine it runs on.

    Instants are nanoseconds on a clock that never goes back.  A run mixes commands of
    every kind, machine boots and restarts of the agent alone. */
module Power {
  import opened Basics

  const MINUTE: nat := 60_000_000_000
  const MIN_POWER_ACTION_INTERVAL: nat := 10 * MINUTE
  const POWER_ACTION_PENDING_WINDOW: nat := 5 * MINUTE

  datatype Kind = Reboot | Shutdown

  // --- The guard --------------------------------------------------------------

  /** What this process last got accepted by Windows, if anything. */
  datatype Guard = Guard(scheduled: Option<(int, Kind)>)

  datatype Verdict = Granted | TooSoon(kind: Kind, since: int) | JustBooted(up: int)

  /** `uptime` is `None` when it cannot be read, which is not a refusal. */
  function Allow(g: Guard, now: int, uptime: Option<int>): Verdict {
    if g.scheduled.Some? && now - g.scheduled.value.0 < MIN_POWER_ACTION_INTERVAL then
      TooSoon(g.scheduled.value.1, now - g.scheduled.value.0)
    else if uptime.Some? && uptime.value < MIN_POWER_ACTION_INTERVAL then
      JustBooted(uptime.value)
    else
      Granted
  }

  function Pending(g: Guard, now: int): Option<Kind> {
    if g.scheduled.None? || now - g.scheduled.value.0 >= POWER_ACTION_PENDING_WINDOW then None
    else Some(g.scheduled.value.1)
  }

  class PowerGuard {
    var scheduled: Option<int>
    var kind: Kind

    ghost function View(): Guard
      reads this
    {
      Guard(if scheduled.Some? then Some((scheduled.value, kind)) else None)
    }

    constructor ()
      ensures View() == Guard(None)
    {
      scheduled, kind := None, Reboot;
    }

    method AllowNow(now: int, uptime: Option<int>) returns (v: Verdict)
      ensures v == Allow(View(), now, uptime)
    {
      if scheduled.Some? {
        var since := now - scheduled.value;
        if since < MIN_POWER_ACTION_INTERVAL {
          return TooSoon(kind, since);
        }
      }
      if uptime.None? {
        return Granted;
      }
      if uptime.value < MIN_POWER_ACTION_INTERVAL {
        return JustBooted(uptime.value);
      }
      v := Granted;
    }

    method MarkScheduled(now: int, k: Kind)
      modifies this
      ensures View() == Guard(Some((now, k)))
    {
      scheduled, kind := Some(now), k;
    }

    method PendingNow(now: int) returns (k: Option<Kind>)
      ensures k == Pending(View(), now)
    {
      if scheduled.None? || now - scheduled.value >= POWER_ACTION_PENDING_WINDOW {
        return None;
      }
      k := Some(kind);
    }

    /** `runPowerAction`: `accepted` is what shutdown.exe answers, if it is asked. */
    method RunPowerAction(now: int, k: Kind, uptime: Option<int>, accepted: bool) returns (done: bool)
      modifies this
      ensures done == (Allow(old(View()), now, uptime).Granted? && accepted)
      ensures View() == if done then Guard(Some((now, k))) else old(View())
    {
      var v := AllowNow(now, uptime);
      if !v.Granted? || !accepted {
        return false;
      }
      MarkScheduled(now, k);
      done := true;
    }
  }

  // --- The machine ------------------------------------------------------------

  /** The worker runs one command at a time.  `Asked`: `now` has been read; `Cleared`:
      `allow` has said yes, at `allowed`, with the uptime readable or not. */
  datatype Worker =
    | Free
    | Busy
    | Asked(kind: Kind, start: int)
    | Cleared(kind: Kind, start: int, allowed: int, readable: bool)

  /** What happened, in order.  `life` numbers the agent's processes, `boots` counts the
      machine's boots. */
  datatype Entry =
    | Began(at: int, life: nat)
    | Took(start: int, allowed: int, readable: bool, life: nat, boots: nat)

  datatype State = State(
    clock: int, bootAt: int, life: nat, boots: nat, guard: Guard, worker: Worker, log: seq<Entry>)

  datatype Event =
    | Advance(d: nat)
    | Command(power: Option<Kind>)
    | Check(readable: bool)
    | Schedule(accepted: bool)
    | Finish
    | Boot
    | Restart

  function Apply(s: State, e: Event): State {
    match e
    case Advance(d) => s.(clock := s.clock + d)
    case Command(power) =>
      if s.worker != Free || Pending(s.guard, s.clock).Some? then s
      else s.(worker := if power.Some? then Asked(power.value, s.clock) else Busy,
              log := s.log + [Began(s.clock, s.life)])
    case Check(readable) =>
      if !s.worker.Asked? then s
      else
        var uptime := if readable then Some(s.clock - s.bootAt) else None;
        if Allow(s.guard, s.worker.start, uptime).Granted? then
          s.(worker := Cleared(s.worker.kind, s.worker.start, s.clock, readable))
        else
          s.(worker := Free)
    case Schedule(accepted) =>
      if !s.worker.Cleared? then s
      else if !accepted then s.(worker := Free)
      else s.(guard := Guard(Some((s.worker.start, s.worker.kind))), worker := Free,
              log := s.log + [Took(s.worker.start, s.worker.allowed, s.worker.readable, s.life, s.boots)])
    case Finish => if s.worker == Busy then s.(worker := Free) else s
    case Boot => s.(bootAt := s.clock, life := s.life + 1, boots := s.boots + 1, guard := Guard(None), worker := Free)
    case Restart => s.(life := s.life + 1, guard := Guard(None), worker := Free)
  }

  function Exec(s: State, es: seq<Event>): State
    decreases |es|
  {
    if es == [] then s else Exec(Apply(s, es[0]), es[1..])
  }

  ghost predicate Initial(s: State) {
    s.bootAt <= s.clock && s.guard == Guard(None) && s.worker == Free && s.log == []
  }

  /** The evidence the guard has of `e` when a later action is cleared in process `life`
      after `boots` boots: its own memory, or an uptime that starts after it. */
  predicate Remembered(e: Entry, life: nat, boots: nat, readable: bool)
    requires e.Took?
  {
    e.life == life || (readable && e.boots != boots)
  }

  predicate Spaced(log: seq<Entry>) {
    forall i, j :: 0 <= i < j < |log| && log[i].Took? && log[j].Took? ==>
      Remembered(log[i], log[j].life, log[j].boots, log[j].readable) ==>
        log[j].allowed - log[i].start >= MIN_POWER_ACTION_INTERVAL
  }

  /** Within one process the starts themselves are spaced. */
  predicate SpacedStarts(log: seq<Entry>) {
    forall i, j :: 0 <= i < j < |log| && log[i].Took? && log[j].Took? && log[i].life == log[j].life ==>
      log[j].start - log[i].start >= MIN_POWER_ACTION_INTERVAL
  }

  predicate Quiet(log: seq<Entry>) {
    forall i, j :: 0 <= i < j < |log| && log[i].Took? && log[j].Began? && log[i].life == log[j].life ==>
      log[j].at - log[i].start >= POWER_ACTION_PENDING_WINDOW
  }

  /** What the guard and the boot time know of an earlier action. */
  predicate Known(s: State, e: Entry)
    requires e.Took?
  {
    && e.start <= e.allowed <= s.clock && e.life <= s.life && e.boots <= s.boots
    && (e.life == s.life ==> s.guard.scheduled.Some? && e.start <= s.guard.scheduled.value.0)
    && (e.boots != s.boots ==> e.start <= s.bootAt)
  }

  predicate Inv(s: State) {
    && s.bootAt <= s.clock
    && (s.guard.scheduled.Some? ==> s.guard.scheduled.value.0 <= s.clock)
    && (s.worker.Asked? ==> s.worker.start <= s.clock)
    && (s.worker.Cleared? ==>
          && s.worker.start <= s.worker.allowed <= s.clock
          && (s.guard.scheduled.Some? ==> s.worker.start - s.guard.scheduled.value.0 >= MIN_POWER_ACTION_INTERVAL)
          && (s.worker.readable ==> s.worker.allowed - s.bootAt >= MIN_POWER_ACTION_INTERVAL))
    && (forall i :: 0 <= i < |s.log| && s.log[i].Took? ==> Known(s, s.log[i]))
    && Spaced(s.log) && SpacedStarts(s.log) && Quiet(s.log)
  }

  lemma CommandKeepsInv(s: State, power: Option<Kind>)
    requires Inv(s)
    ensures Inv(Apply(s, Command(power)))
  {
    var r := Apply(s, Command(power));
    if r != s {
      assert forall i :: 0 <= i < |s.log| ==> r.log[i] == s.log[i];
    }
  }

  lemma ScheduleKeepsInv(s: State, accepted: bool)
    requires Inv(s)
    ensures Inv(Apply(s, Schedule(accepted)))
  {
    var r := Apply(s, Schedule(accepted));
    if s.worker.Cleared? && accepted {
      assert forall i :: 0 <= i < |s.log| ==> r.log[i] == s.log[i];
      forall i | 0 <= i < |s.log| && s.log[i].Took? && Remembered(s.log[i], s.life, s.boots, s.worker.readable)
        ensures s.worker.allowed - s.log[i].start >= MIN_POWER_ACTION_INTERVAL
      {
        assert Known(s, s.log[i]);
      }
    }
  }

  /** What is known of the past stays known as long as the clock, the process and the boot
      only move on. */
  lemma StillKnown(s: State, r: State)
    requires Inv(s) && r.log == s.log && s.clock <= r.clock
    requires (r.life == s.life && r.guard == s.guard) || r.life > s.life
    requires (r.boots == s.boots && r.bootAt == s.bootAt) || (r.boots > s.boots && s.clock <= r.bootAt)
    ensures forall i :: 0 <= i < |r.log| && r.log[i].Took? ==> Known(r, r.log[i])
  {
    forall i | 0 <= i < |r.log| && r.log[i].Took? ensures Known(r, r.log[i]) {
      assert Known(s, s.log[i]);
    }
  }

  lemma StepKeepsInv(s: State, e: Event)
    requires Inv(s)
    ensures Inv(Apply(s, e))
  {
    match e
    case Command(power) => CommandKeepsInv(s, power);
    case Schedule(accepted) => ScheduleKeepsInv(s, accepted);
    case _ => StillKnown(s, Apply(s, e));
  }

  /** Runs in which the agent's memory is lost at a boot only and uptime is readable. */
  predicate Ordinary(e: Event) {
    !e.Restart? && (e.Check? ==> e.readable)
  }

  predicate OneLifePerBoot(s: State) {
    && (s.worker.Cleared? ==> s.worker.readable)
    && (forall i :: 0 <= i < |s.log| && s.log[i].Took? ==>
          s.log[i].readable && s.log[i].life - s.log[i].boots == s.life - s.boots)
  }

  lemma OrdinaryStep(s: State, e: Event)
    requires OneLifePerBoot(s) && Ordinary(e)
    ensures OneLifePerBoot(Apply(s, e))
  {
  }

  lemma {:induction false} RunKeepsInv(s: State, es: seq<Event>)
    requires Inv(s)
    ensures Inv(Exec(s, es))
    decreases |es|
  {
    if es == [] {
    } else {
      StepKeepsInv(s, es[0]);
      RunKeepsInv(Apply(s, es[0]), es[1..]);
    }
  }

  lemma {:induction false} OrdinaryRun(s: State, es: seq<Event>)
    requires OneLifePerBoot(s) && forall e :: e in es ==> Ordinary(e)
    ensures OneLifePerBoot(Exec(s, es))
    decreases |es|
  {
    if es == [] {
    } else {
      OrdinaryStep(s, es[0]);
      OrdinaryRun(Apply(s, es[0]), es[1..]);
    }
  }

  /** Whatever happens, an action is cleared ten minutes or more after the start of any
      earlier one its guard has evidence of, in memory or through the uptime; and two
      actions of one process start ten minutes or more apart. */
  lemma SpacedWhenRemembered(s: State, es: seq<Event>)
    requires Initial(s)
    ensures Spaced(Exec(s, es).log) && SpacedStarts(Exec(s, es).log)
  {
    RunKeepsInv(s, es);
  }

  /** No reboot loop: with uptime readable and process memory lost only at a boot, any
      two power actions Windows accepted lie at least ten minutes apart. */
  lemma NoRebootLoop(s: State, es: seq<Event>, i: nat, j: nat)
    requires Initial(s) && forall e :: e in es ==> !e.Restart? && (e.Check? ==> e.readable)
    requires i < j < |Exec(s, es).log| && Exec(s, es).log[i].Took? && Exec(s, es).log[j].Took?
    ensures Exec(s, es).log[j].allowed - Exec(s, es).log[i].start >= 10 * MINUTE
    ensures var a, b := Exec(s, es).log[i], Exec(s, es).log[j];
      a.life == b.life || b.allowed == b.start ==> b.start - a.start >= 10 * MINUTE
  {
    RunKeepsInv(s, es);
    OrdinaryRun(s, es);
    var log := Exec(s, es).log;
    assert Remembered(log[i], log[j].life, log[j].boots, log[j].readable);
  }

  /** No command begins within five minutes of an accepted power action of the same
      process, in any run. */
  lemma NothingBeginsBeforeGoingDown(s: State, es: seq<Event>, i: nat, j: nat)
    requires Initial(s)
    requires i < j < |Exec(s, es).log| && Exec(s, es).log[i].Took? && Exec(s, es).log[j].Began?
    requires Exec(s, es).log[i].life == Exec(s, es).log[j].life
    ensures Exec(s, es).log[j].at - Exec(s, es).log[i].start >= 5 * MINUTE
  {
    RunKeepsInv(s, es);
  }

  /** The guard rations and does not block: from every reachable point with the worker
      free, ten minutes without a command are enough for the next action to be taken. */
  lemma GuardReopens(s: State, es: seq<Event>, kind: Kind, readable: bool)
    requires Initial(s) && Exec(s, es).worker == Free
    ensures var e := Exec(s, es);
      var c := Apply(Apply(e, Advance(10 * MINUTE)), Command(Some(kind)));
      var r := Apply(Apply(c, Check(readable)), Schedule(true));
      && r.guard == Guard(Some((e.clock + 10 * MINUTE, kind)))
      && r.log == e.log + [Began(r.clock, e.life), Took(r.clock, r.clock, readable, e.life, e.boots)]
  {
    RunKeepsInv(s, es);
    var e := Exec(s, es);
    var a := Apply(e, Advance(10 * MINUTE));
    assert Pending(a.guard, a.clock).None?;
    var b := Apply(a, Command(Some(kind)));
    var c := Apply(b, Check(readable));
    assert c.worker == Cleared(kind, a.clock, a.clock, readable);
  }

  /** From the fifth minute after a restart was accepted, commands begin again: from every
      reachable point with the worker free, five minutes are enough. */
  lemma CommandsResume(s: State, es: seq<Event>)
    requires Initial(s) && Exec(s, es).worker == Free
    ensures var e := Exec(s, es);
      var r := Apply(Apply(e, Advance(5 * MINUTE)), Command(None));
      && r.worker == Busy && r.log == e.log + [Began(r.clock, e.life)]
      && Apply(r, Finish).worker == Free
  {
    RunKeepsInv(s, es);
  }

  /** And until then none does: a command that comes less than five minutes after the
      action this process last got accepted is refused, and told which. */
  lemma RefusedWhileGoingDown(s: State, power: Option<Kind>, at: int, kind: Kind)
    requires s.guard.scheduled == Some((at, kind)) && s.clock - at < 5 * MINUTE
    ensures Apply(s, Command(power)) == s && Pending(s.guard, s.clock) == Some(kind)
  {
  }

  /** A restart Windows would not schedule, or the guard would not clear, leaves no trace:
      the guard, and the record of what was accepted, are as before. */
  lemma FailureRemembersNothing(s: State, readable: bool)
    ensures s.worker.Cleared? ==> Apply(s, Schedule(false)) == s.(worker := Free)
    ensures s.worker.Asked? ==>
      var r := Apply(s, Check(readable));
      r.guard == s.guard && r.log == s.log && (r.worker == Free || r.worker.Cleared?)
  {
  }

  /** The verdicts, to the nanosecond. */
  lemma VerdictExactly(g: Guard, now: int, uptime: Option<int>)
    ensures Allow(g, now, uptime) == Granted <==>
      (g.scheduled.None? || now - g.scheduled.value.0 >= 10 * MINUTE) && (uptime.None? || uptime.value >= 10 * MINUTE)
    ensures g.scheduled.Some? && now - g.scheduled.value.0 < 10 * MINUTE ==>
      Allow(g, now, uptime) == TooSoon(g.scheduled.value.1, now - g.scheduled.value.0)
    ensures g.scheduled.None? || now - g.scheduled.value.0 >= 10 * MINUTE ==>
      uptime.Some? && uptime.value < 10 * MINUTE ==> Allow(g, now, uptime) == JustBooted(uptime.value)
  {
  }

  /** Neither assumption can be dropped: with the uptime unreadable, or with the agent
      restarted alone, two actions can follow each other at once. */
  lemma AssumptionsNeeded(unreadable: bool) returns (s: State, es: seq<Event>)
    ensures Initial(s)
    ensures if unreadable then forall e :: e in es ==> !e.Restart?
            else forall e :: e in es ==> (e.Check? ==> e.readable)
    ensures var log := Exec(s, es).log;
      |log| == 4 && log[1].Took? && log[3].Took? && log[3].allowed == log[1].start
  {
    s := State(10 * MINUTE, 0, 0, 0, Guard(None), Free, []);
    var again := if unreadable then Boot else Restart;
    var one := [Command(Some(Reboot)), Check(true), Schedule(true)];
    es := one + [again, Command(Some(Reboot)), Check(!unreadable), Schedule(true)];
    var s3 := OneAction(s, es, 0, true);
    var s4 := ExecHead(s3, es, 3);
    var s7 := OneAction(s4, es, 4, !unreadable);
    assert es[0..] == es && es[7..] == [];
  }

  lemma ExecHead(s: State, es: seq<Event>, i: nat) returns (r: State)
    requires i < |es|
    ensures r == Apply(s, es[i]) && Exec(s, es[i..]) == Exec(r, es[i + 1..])
  {
    r := Apply(s, es[i]);
    assert es[i..][1..] == es[i + 1..];
  }

  /** A reboot that goes through at once: the guard remembers nothing and the uptime, if
      it can be read, is long enough. */
  lemma OneAction(s: State, es: seq<Event>, i: nat, readable: bool) returns (r: State)
    requires s.worker == Free && s.guard == Guard(None)
    requires readable ==> s.clock - s.bootAt >= 10 * MINUTE
    requires i + 3 <= |es|
    requires es[i] == Command(Some(Reboot)) && es[i + 1] == Check(readable) && es[i + 2] == Schedule(true)
    ensures Exec(s, es[i..]) == Exec(r, es[i + 3..])
    ensures r == s.(guard := Guard(Some((s.clock, Reboot))),
                    log := s.log + [Began(s.clock, s.life), Took(s.clock, s.clock, readable, s.life, s.boots)])
  {
    var s1 := ExecHead(s, es, i);
    var s2 := ExecHead(s1, es, i + 1);
    assert s2.worker == Cleared(Reboot, s.clock, s.clock, readable);
    r := ExecHead(s2, es, i + 2);
    assert r.log == s.log + [Began(s.clock, s.life), Took(s.clock, s.clock, readable, s.life, s.boots)];
  }
}
