/** The console's background refresh: a timer, the visibility of the tab, and
    `refreshNow`, cut at every `await`.

    Between two awaits the code runs undivided; what resumes next is up to the event
    queue, so an event is one such stretch of code.  A refresh can also throw before its
    first await, which settles its promise before `inFlight` is assigned.  It is assumed
    not to call `refreshNow` itself before its first await: `inFlight` is still null there,
    and a second refresh would begin inside the first. */
module AutoRefresh {
  import opened Basics

  /** Where a call of `refreshNow` stands: awaiting a refresh found in flight, awaiting
      the one it asked for, or resolved by that one. */
  datatype Stage = AwaitOther(run: nat) | AwaitOwn(own: nat) | Resolved(answer: nat)

  /** `before`: how many refreshes had begun when the call was made. */
  datatype Caller = Caller(before: nat, stage: Stage)

  /** Refreshes are numbered as they begin; `active` are those executing, `settled` those
      over.  `threw`: one of them threw before its first await. */
  datatype State = State(
    timer: bool, missed: bool, listening: bool, hidden: bool, paused: bool,
    inFlight: Option<nat>, begun: nat, active: set<nat>, settled: set<nat>,
    callers: seq<Caller>, threw: bool)

  /** `sync`: should a refresh begin, it throws before its first await. */
  datatype Event =
    | Tick(sync: bool)
    | Visibility(away: bool, sync: bool)
    | Pause(on: bool)
    | Press(sync: bool)
    | Settle(run: nat)
    | Wake(caller: nat, sync: bool)
    | Stop

  const START := State(true, false, true, false, false, None, 0, {}, {}, [], false)

  /** `run`: the promise returned is that of `inFlight` afterwards. */
  function Run(s: State, sync: bool): (r: State)
    ensures r.inFlight.Some?
  {
    if s.inFlight.Some? then s
    else if sync then
      s.(inFlight := Some(s.begun), begun := s.begun + 1, settled := s.settled + {s.begun}, threw := true)
    else
      s.(inFlight := Some(s.begun), begun := s.begun + 1, active := s.active + {s.begun})
  }

  function DoTick(s: State, sync: bool): State {
    if !s.timer || s.paused then s
    else if s.hidden then s.(missed := true)
    else Run(s, sync)
  }

  function DoVisibility(s: State, away: bool, sync: bool): State {
    var s1 := s.(hidden := away);
    if !s1.listening || s1.hidden || !s1.missed then s1
    else if s1.paused then s1.(missed := false)
    else Run(s1.(missed := false), sync)
  }

  function DoPress(s: State, sync: bool): State {
    var s1 := s.(timer := false, missed := false);
    if s1.inFlight.Some? then
      s1.(callers := s1.callers + [Caller(s.begun, AwaitOther(s1.inFlight.value))])
    else
      var s2 := Run(s1, sync);
      s2.(callers := s2.callers + [Caller(s.begun, AwaitOwn(s2.inFlight.value))])
  }

  function DoWake(s: State, i: nat, sync: bool): State {
    if i >= |s.callers| then s
    else
      var c := s.callers[i];
      match c.stage
      case AwaitOther(r) =>
        if r !in s.settled then s
        else
          var s1 := Run(s, sync);
          s1.(callers := s1.callers[i := c.(stage := AwaitOwn(s1.inFlight.value))])
      case AwaitOwn(r) =>
        if r !in s.settled then s
        else s.(callers := s.callers[i := c.(stage := Resolved(r))], timer := true)
      case Resolved(_) => s
  }

  function Apply(s: State, e: Event): State {
    match e
    case Tick(sync) => DoTick(s, sync)
    case Visibility(away, sync) => DoVisibility(s, away, sync)
    case Pause(on) => s.(paused := on)
    case Press(sync) => DoPress(s, sync)
    case Settle(r) =>
      if r !in s.active then s
      else s.(active := s.active - {r}, settled := s.settled + {r}, inFlight := None)
    case Wake(i, sync) => DoWake(s, i, sync)
    case Stop => s.(timer := false, listening := false)
  }

  function Exec(s: State, es: seq<Event>): State
    decreases |es|
  {
    if es == [] then s else Exec(Apply(s, es[0]), es[1..])
  }

  // --- The code ---------------------------------------------------------------

  /** The composable's variables, and the stretches of code between awaits. */
  class Refresher {
    var timer: bool
    var missed: bool
    var listening: bool
    var inFlight: Option<nat>
    var begun: nat
    ghost var world: State

    /** The variables are those of `world`, whose remaining fields are the page's. */
    ghost predicate Valid()
      reads this
    {
      && timer == world.timer && missed == world.missed && listening == world.listening
      && inFlight == world.inFlight && begun == world.begun
    }

    constructor ()
      ensures Valid() && world == START
    {
      timer, missed, listening, inFlight, begun := true, false, true, None, 0;
      world := START;
    }

    /** `sync`: what this refresh will do, should it begin. */
    method RunOnce(sync: bool) returns (promise: nat)
      requires Valid()
      modifies this
      ensures Valid() && world == Run(old(world), sync) && inFlight == Some(promise)
    {
      world := Run(world, sync);
      if inFlight.Some? {
        return inFlight.value;
      }
      // A synchronous throw clears `inFlight` first and is overwritten here all the same.
      inFlight := Some(begun);
      begun := begun + 1;
      promise := inFlight.value;
    }

    method OnTick(paused: bool, hidden: bool, sync: bool)
      requires Valid() && timer && world.paused == paused && world.hidden == hidden
      modifies this
      ensures Valid() && world == DoTick(old(world), sync)
    {
      if paused {
        return;
      }
      if hidden {
        missed := true;
        world := world.(missed := true);
        return;
      }
      var _ := RunOnce(sync);
    }

    method OnVisibilityChange(paused: bool, hidden: bool, sync: bool)
      requires Valid() && listening && world.paused == paused
      modifies this
      ensures Valid() && world == DoVisibility(old(world), hidden, sync)
    {
      world := world.(hidden := hidden);
      if hidden || !missed {
        return;
      }
      missed := false;
      world := world.(missed := false);
      if paused {
        return;
      }
      var _ := RunOnce(sync);
    }

    /** `refreshNow` up to its first await. */
    method RefreshNow(sync: bool) returns (stage: Stage)
      requires Valid()
      modifies this
      ensures Valid() && world == DoPress(old(world), sync)
      ensures world.callers == old(world).callers + [Caller(old(begun), stage)]
    {
      ghost var before := begun;
      timer, missed := false, false;
      world := world.(timer := false, missed := false);
      if inFlight.Some? {
        stage := AwaitOther(inFlight.value);
      } else {
        var promise := RunOnce(sync);
        stage := AwaitOwn(promise);
      }
      world := world.(callers := world.callers + [Caller(before, stage)]);
    }

    /** The two stretches of `refreshNow` after an await: ask for a refresh, then restart
        the timer in the `finally`. */
    method Resume(i: nat, stage: Stage, sync: bool) returns (next: Stage)
      requires Valid() && i < |world.callers| && world.callers[i].stage == stage
      requires (stage.AwaitOther? && stage.run in world.settled) || (stage.AwaitOwn? && stage.own in world.settled)
      modifies this
      ensures Valid() && world == DoWake(old(world), i, sync)
      ensures next == world.callers[i].stage
    {
      ghost var c := world.callers[i];
      if stage.AwaitOther? {
        var promise := RunOnce(sync);
        next := AwaitOwn(promise);
      } else {
        timer := true;
        world := world.(timer := true);
        next := Resolved(stage.own);
      }
      world := world.(callers := world.callers[i := c.(stage := next)]);
    }
  }

  // --- Invariants -------------------------------------------------------------

  /** At most one refresh runs, and it is the one `inFlight` names. */
  ghost predicate OneAtATime(s: State) {
    && (s.active != {} ==> s.inFlight.Some? && s.active == {s.inFlight.value})
    && (forall r :: r in s.active || r in s.settled ==> r < s.begun)
    && s.active !! s.settled
    && (s.threw ==> s.inFlight.Some? && s.inFlight.value in s.settled)
    && (!s.threw && s.inFlight.Some? ==> s.active == {s.inFlight.value})
  }

  /** Until a refresh throws synchronously: every refresh but the last is over, a caller
      waits for the last one that began before its call, and is answered by a later one. */
  predicate Fair(s: State, c: Caller) {
    c.before <= s.begun &&
    match c.stage
    case AwaitOther(r) => r + 1 == c.before
    case AwaitOwn(r) => c.before <= r < s.begun
    case Resolved(r) => c.before <= r < s.begun && r in s.settled
  }

  ghost predicate Inv(s: State) {
    && OneAtATime(s)
    && (!s.threw ==>
          && (forall r :: 0 <= r < s.begun ==> r in s.settled || r in s.active)
          && (s.inFlight.Some? ==> s.inFlight.value == s.begun - 1)
          && (forall i :: 0 <= i < |s.callers| ==> Fair(s, s.callers[i])))
  }

  lemma RunKeepsInv(s: State, sync: bool)
    requires Inv(s)
    ensures Inv(Run(s, sync))
  {
    var r := Run(s, sync);
    assert forall i :: 0 <= i < |s.callers| && Fair(s, s.callers[i]) ==> Fair(r, r.callers[i]);
  }

  /** The timer and the page's flags play no part in the invariant. */
  lemma FlagsKeepInv(s: State, timer: bool, missed: bool, listening: bool, hidden: bool, paused: bool)
    requires Inv(s)
    ensures Inv(s.(timer := timer, missed := missed, listening := listening, hidden := hidden, paused := paused))
  {
    var r := s.(timer := timer, missed := missed, listening := listening, hidden := hidden, paused := paused);
    assert forall i :: 0 <= i < |s.callers| && Fair(s, s.callers[i]) ==> Fair(r, s.callers[i]);
  }

  lemma CallersKeepInv(s: State, callers: seq<Caller>)
    requires Inv(s) && (!s.threw ==> forall i :: 0 <= i < |callers| ==> Fair(s, callers[i]))
    ensures Inv(s.(callers := callers))
  {
    var r := s.(callers := callers);
    assert forall i :: 0 <= i < |callers| && Fair(s, callers[i]) ==> Fair(r, callers[i]);
  }

  lemma PressKeepsInv(s: State, sync: bool)
    requires Inv(s)
    ensures Inv(DoPress(s, sync))
  {
    var s1 := s.(timer := false, missed := false);
    FlagsKeepInv(s, false, false, s.listening, s.hidden, s.paused);
    if s1.inFlight.Some? {
      CallersKeepInv(s1, s1.callers + [Caller(s.begun, AwaitOther(s1.inFlight.value))]);
    } else {
      RunKeepsInv(s1, sync);
      var s2 := Run(s1, sync);
      CallersKeepInv(s2, s2.callers + [Caller(s.begun, AwaitOwn(s2.inFlight.value))]);
    }
  }

  /** The refresh found in flight is over: the caller asks for its own. */
  lemma AskKeepsInv(s: State, i: nat, run: nat, sync: bool)
    requires Inv(s) && i < |s.callers| && s.callers[i].stage == AwaitOther(run) && run in s.settled
    ensures Inv(DoWake(s, i, sync))
  {
    RunKeepsInv(s, sync);
    var s1 := Run(s, sync);
    var c1 := s.callers[i].(stage := AwaitOwn(s1.inFlight.value));
    if !s1.threw {
      assert Fair(s, s.callers[i]) && Fair(s1, c1);
    }
    CallersKeepInv(s1, s1.callers[i := c1]);
  }

  lemma AnswerKeepsInv(s: State, i: nat, run: nat, sync: bool)
    requires Inv(s) && i < |s.callers| && s.callers[i].stage == AwaitOwn(run) && run in s.settled
    ensures Inv(DoWake(s, i, sync))
  {
    var c1 := s.callers[i].(stage := Resolved(run));
    if !s.threw {
      assert Fair(s, s.callers[i]) && Fair(s, c1);
    }
    CallersKeepInv(s, s.callers[i := c1]);
    FlagsKeepInv(s.(callers := s.callers[i := c1]), true, s.missed, s.listening, s.hidden, s.paused);
  }

  lemma WakeKeepsInv(s: State, i: nat, sync: bool)
    requires Inv(s) && i < |s.callers|
    ensures Inv(DoWake(s, i, sync))
  {
    match s.callers[i].stage
    case AwaitOther(r) => if r in s.settled { AskKeepsInv(s, i, r, sync); }
    case AwaitOwn(r) => if r in s.settled { AnswerKeepsInv(s, i, r, sync); }
    case Resolved(_) =>
  }

  lemma SettleKeepsInv(s: State, run: nat)
    requires Inv(s) && run in s.active
    ensures Inv(Apply(s, Settle(run)))
  {
    var r := Apply(s, Settle(run));
    assert forall i :: 0 <= i < |s.callers| && Fair(s, s.callers[i]) ==> Fair(r, r.callers[i]);
  }

  lemma StepKeepsInv(s: State, e: Event)
    requires Inv(s)
    ensures Inv(Apply(s, e))
  {
    match e
    case Press(sync) => PressKeepsInv(s, sync);
    case Wake(i, sync) => if i < |s.callers| { WakeKeepsInv(s, i, sync); }
    case Tick(sync) =>
      RunKeepsInv(s, sync);
      FlagsKeepInv(s, s.timer, true, s.listening, s.hidden, s.paused);
    case Visibility(away, sync) =>
      FlagsKeepInv(s, s.timer, s.missed, s.listening, away, s.paused);
      FlagsKeepInv(s, s.timer, false, s.listening, away, s.paused);
      RunKeepsInv(s.(hidden := away, missed := false), sync);
    case Settle(run) => if run in s.active { SettleKeepsInv(s, run); }
    case Pause(on) => FlagsKeepInv(s, s.timer, s.missed, s.listening, s.hidden, on);
    case Stop => FlagsKeepInv(s, false, s.missed, false, s.hidden, s.paused);
  }

  /** After a throw `inFlight` is stuck: no refresh begins. */
  lemma ThrownStep(s: State, e: Event)
    requires Inv(s)
    ensures s.threw ==> Apply(s, e).threw && Apply(s, e).begun == s.begun
  {
    if s.threw {
      assert s.active == {};
      match e {
        case Press(sync) => assert Run(s, sync) == s;
        case Wake(i, sync) => assert Run(s, sync) == s;
        case _ =>
      }
    }
  }

  lemma FirstStep(s: State, es: seq<Event>) returns (t: State)
    requires Inv(s) && es != []
    ensures Inv(t) && Exec(s, es) == Exec(t, es[1..])
    ensures s.threw ==> t.threw && t.begun == s.begun
  {
    t := Apply(s, es[0]);
    StepKeepsInv(s, es[0]);
    ThrownStep(s, es[0]);
  }

  lemma {:induction false} ExecKeepsInv(s: State, es: seq<Event>)
    requires Inv(s)
    ensures Inv(Exec(s, es))
    ensures !Exec(s, es).threw ==> !s.threw
    decreases |es|
  {
    if es == [] {
    } else {
      var t := FirstStep(s, es);
      ExecKeepsInv(t, es[1..]);
    }
  }

  // --- Results ----------------------------------------------------------------

  /** At every point of every run at most one refresh is running, throws included. */
  lemma NeverTwoRefreshes(es: seq<Event>)
    ensures var s := Exec(START, es);
      |s.active| <= 1 && (s.active != {} ==> s.inFlight.Some? && s.inFlight.value in s.active)
  {
    ExecKeepsInv(START, es);
    var s := Exec(START, es);
    if s.active != {} {
      assert |{s.inFlight.value}| == 1;
    }
  }

  /** `refreshNow` has kept its promise so far: each call that resolved did so after a
      refresh that began after it was made had finished. */
  predicate Kept(s: State) {
    forall i :: 0 <= i < |s.callers| && s.callers[i].stage.Resolved? ==>
      s.callers[i].before <= s.callers[i].stage.answer && s.callers[i].stage.answer in s.settled
  }

  lemma RefreshNowIsFresh(es: seq<Event>)
    requires !Exec(START, es).threw
    ensures Kept(Exec(START, es))
  {
    ExecKeepsInv(START, es);
    var s := Exec(START, es);
    assert forall i :: 0 <= i < |s.callers| ==> Fair(s, s.callers[i]);
  }

  /** After a synchronous throw no refresh ever begins again. */
  lemma {:induction false} ThrowIsTheEnd(s: State, es: seq<Event>)
    requires Inv(s) && s.threw
    ensures Exec(s, es).begun == s.begun && Exec(s, es).threw
    decreases |es|
  {
    if es == [] {
    } else {
      var t := FirstStep(s, es);
      ThrowIsTheEnd(t, es[1..]);
    }
  }

  /** A step in which no refresh throws synchronously. */
  predicate Quiet(e: Event) {
    (e.Tick? || e.Visibility? || e.Press? || e.Wake?) ==> !e.sync
  }

  lemma QuietStep(s: State, e: Event)
    requires Quiet(e)
    ensures Apply(s, e).threw == s.threw
  {
    match e
    case Press(_) =>
    case Wake(_, _) =>
    case Tick(_) =>
    case Visibility(_, _) =>
    case _ =>
  }

  lemma {:induction false} QuietRun(s: State, es: seq<Event>)
    requires forall e :: e in es ==> Quiet(e)
    ensures Exec(s, es).threw == s.threw
    decreases |es|
  {
    if es == [] {
    } else {
      QuietStep(s, es[0]);
      QuietRun(Apply(s, es[0]), es[1..]);
    }
  }

  /** From there on, a new call resolves at once and stale: the run that shows it. */
  lemma PressAfterThrow(s: State) returns (es: seq<Event>)
    requires Inv(s) && s.threw
    ensures forall e :: e in es ==> Quiet(e)
    ensures !Kept(Exec(s, es))
  {
    var n := |s.callers|;
    es := [Press(false), Wake(n, false), Wake(n, false)];
    var s1 := Apply(s, es[0]);
    var s2 := Apply(s1, es[1]);
    var s3 := Apply(s2, es[2]);
    assert es[1..][0] == es[1] && es[1..][1..][0] == es[2] && es[1..][1..][1..] == [];
    assert Exec(s, es) == Exec(s1, es[1..]) == Exec(s2, es[1..][1..]) == s3;
    assert s3.callers[n] == Caller(s.begun, Resolved(s.inFlight.value));
  }

  lemma {:induction false} ExecAppend(s: State, es: seq<Event>, fs: seq<Event>)
    ensures Exec(s, es + fs) == Exec(Exec(s, es), fs)
    decreases |es|
  {
    if es == [] {
      assert es + fs == fs;
    } else {
      assert (es + fs)[1..] == es[1..] + fs;
      ExecAppend(Apply(s, es[0]), es[1..], fs);
    }
  }

  /** Such a throw is one call away, and what it breaks two calls. */
  lemma ThrowIsReachable() returns (es: seq<Event>)
    ensures forall e :: e in es ==> Quiet(e)
    ensures Exec(START, [Press(true)]).threw && !Kept(Exec(START, [Press(true)] + es))
  {
    var s := Apply(START, Press(true));
    assert [Press(true)][1..] == [];
    assert Exec(START, [Press(true)]) == s;
    StepKeepsInv(START, Press(true));
    es := PressAfterThrow(s);
    ExecAppend(START, [Press(true)], es);
  }

  /** The exact condition: from any reachable state, `refreshNow` keeps its promise on
      every continuation without a synchronous throw if and only if there has been none
      so far. */
  lemma FreshExactlyWithoutThrow(es: seq<Event>)
    ensures !Exec(START, es).threw <==>
      forall fs: seq<Event> :: (forall e :: e in fs ==> Quiet(e)) ==> Kept(Exec(Exec(START, es), fs))
  {
    var s := Exec(START, es);
    ExecKeepsInv(START, es);
    if s.threw {
      var fs := PressAfterThrow(s);
    } else {
      forall fs: seq<Event> | forall e :: e in fs ==> Quiet(e) ensures Kept(Exec(s, fs)) {
        QuietRun(s, fs);
        ExecAppend(START, es, fs);
        RefreshNowIsFresh(es + fs);
      }
    }
  }

  /** A tick refreshes: the page visible and not paused, a refresh is in flight after it,
      a new one if there was none.  In a hidden page it is remembered, and the return to
      the page refreshes in its stead; in a paused one, or once stopped, it does nothing. */
  lemma TickRefreshes(s: State, sync: bool)
    requires s.timer
    ensures !s.paused && !s.hidden ==>
      var r := DoTick(s, sync);
      r.inFlight.Some? && r.begun == s.begun + (if s.inFlight.None? then 1 else 0)
    ensures !s.paused && s.hidden && s.listening ==>
      var r := DoVisibility(DoTick(s, sync), false, sync);
      r.inFlight.Some? && r.begun == s.begun + (if s.inFlight.None? then 1 else 0) && !r.missed
    ensures s.paused ==> DoTick(s, sync) == s
    ensures DoTick(Apply(s, Stop), sync) == Apply(s, Stop)
    ensures DoVisibility(Apply(s, Stop), false, sync).begun == s.begun
  {
  }

  /** While a call is waiting the timer is stopped and a missed tick forgotten: no tick
      comes in between. */
  lemma PressStopsTheTimer(s: State, sync: bool, tick: bool)
    ensures var r := DoPress(s, sync);
      !r.timer && !r.missed && DoTick(r, tick) == r && |r.callers| == |s.callers| + 1
  {
  }

  /** A call is answered: from every reachable point without a throw, once the refresh in
      flight, if any, and then the caller's own have settled, the call resolves with its
      own, and the timer runs again. */
  lemma PressIsAnswered(es: seq<Event>) returns (next: seq<Event>)
    requires !Exec(START, es).threw
    ensures forall e :: e in next ==> Quiet(e)
    ensures var s, r := Exec(START, es), Exec(START, es + next);
      && |r.callers| == |s.callers| + 1 && r.timer && !r.threw
      && r.callers[|s.callers|] == Caller(s.begun, Resolved(s.begun)) && s.begun in r.settled
  {
    ExecKeepsInv(START, es);
    var s := Exec(START, es);
    var c, n := |s.callers|, s.begun;
    if s.inFlight.None? {
      next := [Press(false), Settle(n), Wake(c, false)];
      PressAlone(s);
    } else {
      next := [Press(false), Settle(n - 1), Wake(c, false), Settle(n), Wake(c, false)];
      PressBehind(s);
    }
    ExecAppend(START, es, next);
  }

  lemma PressAlone(s: State)
    requires Inv(s) && !s.threw && s.inFlight.None?
    ensures var r := Exec(s, [Press(false), Settle(s.begun), Wake(|s.callers|, false)]);
      && |r.callers| == |s.callers| + 1 && r.timer && !r.threw
      && r.callers[|s.callers|] == Caller(s.begun, Resolved(s.begun)) && s.begun in r.settled
  {
    var c := |s.callers|;
    var s1 := Apply(s, Press(false));
    assert s1.callers[c] == Caller(s.begun, AwaitOwn(s.begun));
    var s2 := Apply(s1, Settle(s.begun));
    ExecCons(s, Press(false), [Settle(s.begun), Wake(c, false)]);
    ExecCons(s1, Settle(s.begun), [Wake(c, false)]);
    ExecCons(s2, Wake(c, false), []);
  }

  lemma PressBehind(s: State)
    requires Inv(s) && !s.threw && s.inFlight.Some?
    ensures s.begun > 0
    ensures var c, n := |s.callers|, s.begun;
      var r := Exec(s, [Press(false), Settle(n - 1), Wake(c, false), Settle(n), Wake(c, false)]);
      && |r.callers| == c + 1 && r.timer && !r.threw
      && r.callers[c] == Caller(n, Resolved(n)) && n in r.settled
  {
    var c, n := |s.callers|, s.begun;
    var s1 := Apply(s, Press(false));
    assert s1.callers[c] == Caller(n, AwaitOther(n - 1)) && n - 1 in s1.active;
    var s2 := Apply(s1, Settle(n - 1));
    assert s2.inFlight.None?;
    var s3 := Apply(s2, Wake(c, false));
    assert s3.callers[c] == Caller(n, AwaitOwn(n)) && n in s3.active;
    var s4 := Apply(s3, Settle(n));
    ExecCons(s, Press(false), [Settle(n - 1), Wake(c, false), Settle(n), Wake(c, false)]);
    ExecCons(s1, Settle(n - 1), [Wake(c, false), Settle(n), Wake(c, false)]);
    ExecCons(s2, Wake(c, false), [Settle(n), Wake(c, false)]);
    ExecCons(s3, Settle(n), [Wake(c, false)]);
    ExecCons(s4, Wake(c, false), []);
  }

  lemma ExecCons(s: State, e: Event, es: seq<Event>)
    ensures Exec(s, [e] + es) == Exec(Apply(s, e), es)
    ensures es == [] ==> Exec(s, [e]) == Apply(s, e)
  {
    assert ([e] + es)[1..] == es && [e][1..] == [];
  }

  /** Coming back to a tab that missed a tick has a refresh in flight at once, unless the
      page is paused: then the missed tick is forgotten. */
  lemma ReturnCatchesUp(s: State, sync: bool)
    requires s.listening && s.missed
    ensures var r := DoVisibility(s, false, sync);
      && !r.missed
      && (r.inFlight.Some? <==> s.inFlight.Some? || !s.paused)
  {
  }

  /** While paused neither a tick nor the tab's return begins a refresh; a pause that has
      ended leaves no mark. */
  lemma PauseHoldsBack(s: State, away: bool, sync: bool)
    ensures var r := Apply(s, Pause(true));
      Apply(r, Tick(sync)) == r && Apply(r, Visibility(away, sync)).begun == s.begun
    ensures !s.paused ==> Apply(Apply(s, Pause(true)), Pause(false)) == s
    ensures s.timer && !s.hidden ==> Apply(Apply(s, Pause(false)), Tick(sync)).inFlight.Some?
  {
  }
}
