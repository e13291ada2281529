/** The console's 401 handler: one shared refresh for any number of requests, and each
    request sent again once.

    An event is the stretch of code between two awaits.  `singleFlight` clears its slot
    in a `finally`, one step after the refresh itself has ended; callers that arrive in
    between still share it. */
module Session {
  import opened Basics

  // --- The machine ------------------------------------------------------------

  /** The slot of `singleFlight`: `Ended` until its `finally` has run. */
  datatype Flight = Nothing | Running(run: nat) | Ended(run: nat, ok: bool)

  datatype Stage = Sent | Waiting(run: nat) | Replayed | Finished(lost: bool)

  /** `noRefresh`: a login, refresh or logout route.  `awaited`: the refresh whose outcome
      the request waited for.  `last401`: what its last answer was. */
  datatype Request = Request(noRefresh: bool, sends: nat, stage: Stage, awaited: Option<nat>, last401: bool)

  /** `results`: how each finished refresh ended, for those who awaited it.
      `losses`: how often the session was declared lost. */
  datatype State = State(flight: Flight, started: nat, results: map<nat, bool>, requests: seq<Request>, losses: nat)

  datatype Event =
    | Issue(noRefresh: bool)
    | EnsureSession
    | Answer(i: nat, unauthorized: bool)
    | RefreshEnds(ok: bool)
    | ClearFlight
    | Resume(who: nat)

  const START := State(Nothing, 0, map[], [], 0)

  /** A call of the shared refresh. */
  function Join(s: State): (r: State)
    ensures !r.flight.Nothing?
  {
    if s.flight.Nothing? then s.(flight := Running(s.started), started := s.started + 1) else s
  }

  function Put(s: State, i: nat, q: Request): State
    requires i < |s.requests|
  {
    s.(requests := s.requests[i := q])
  }

  /** The handler on an answer, down to its first await. */
  function DoAnswer(s: State, i: nat, unauthorized: bool): State {
    if i >= |s.requests| || !(s.requests[i].stage == Sent || s.requests[i].stage == Replayed) then s
    else
      var q := s.requests[i].(last401 := unauthorized);
      if !unauthorized || q.noRefresh then Put(s, i, q.(stage := Finished(false)))
      else if q.stage == Replayed then Put(s, i, q.(stage := Finished(true))).(losses := s.losses + 1)
      else
        var s1 := Join(s);
        Put(s1, i, q.(stage := Waiting(s1.flight.run), awaited := Some(s1.flight.run)))
  }

  /** The handler after its await: replay, or give the session up. */
  function DoResume(s: State, i: nat): State {
    if i >= |s.requests| || !s.requests[i].stage.Waiting? || s.requests[i].stage.run !in s.results then s
    else
      var q := s.requests[i];
      if s.results[q.stage.run] then Put(s, i, q.(stage := Replayed, sends := q.sends + 1))
      else Put(s, i, q.(stage := Finished(true))).(losses := s.losses + 1)
  }

  function Apply(s: State, e: Event): State {
    match e
    case Issue(noRefresh) => s.(requests := s.requests + [Request(noRefresh, 1, Sent, None, false)])
    case EnsureSession => Join(s)
    case Answer(i, unauthorized) => DoAnswer(s, i, unauthorized)
    case RefreshEnds(ok) => if s.flight.Running? then s.(flight := Ended(s.flight.run, ok)) else s
    case ClearFlight =>
      if s.flight.Ended? then s.(flight := Nothing, results := s.results[s.flight.run := s.flight.ok]) else s
    case Resume(i) => DoResume(s, i)
  }

  function Exec(s: State, es: seq<Event>): State
    decreases |es|
  {
    if es == [] then s else Exec(Apply(s, es[0]), es[1..])
  }

  // --- The invariant ----------------------------------------------------------

  /** Refreshes begun and not over: an independent count, from the numbers alone. */
  predicate Outstanding(s: State, run: nat) {
    run < s.started && run !in s.results && !(s.flight.Ended? && s.flight.run == run)
  }

  predicate Rejected(s: State, q: Request) {
    q.awaited.Some? && q.awaited.value in s.results && !s.results[q.awaited.value]
  }

  predicate Sensible(s: State, q: Request) {
    && (q.awaited.Some? ==> q.awaited.value < s.started && !q.noRefresh)
    && match q.stage
       case Sent => q.sends == 1 && q.awaited == None
       case Waiting(run) =>
         && q.sends == 1 && q.last401 && q.awaited == Some(run)
         && (run in s.results || (!s.flight.Nothing? && s.flight.run == run))
       case Replayed => q.sends == 2 && q.awaited.Some? && q.awaited.value in s.results && s.results[q.awaited.value]
       case Finished(lost) =>
         && 1 <= q.sends <= 2
         && (q.awaited.Some? ==> q.awaited.value in s.results)
         && (q.sends == 2 <==> q.awaited.Some? && s.results[q.awaited.value])
         && (lost <==> Rejected(s, q) || (q.sends == 2 && q.last401))
         && (!q.noRefresh ==> (lost <==> q.last401))
  }

  // --- The code ---------------------------------------------------------------

  class SingleFlight {
    var inFlight: Option<nat>
    var started: nat

    /** The slot and the count are those of the machine. */
    ghost predicate Is(s: State)
      reads this
    {
      started == s.started && inFlight == if s.flight.Nothing? then None else Some(s.flight.run)
    }

    constructor ()
      ensures Is(START)
    {
      inFlight, started := None, 0;
    }

    /** The run the caller shares. */
    method Call(ghost s: State) returns (run: nat)
      requires Is(s)
      modifies this
      ensures Is(Join(s)) && run == Join(s).flight.run
      ensures old(inFlight).Some? ==> inFlight == old(inFlight) && started == old(started)
    {
      if inFlight.None? {
        inFlight := Some(started);
        started := started + 1;
      }
      run := inFlight.value;
    }

    /** The `finally`, once the refresh has ended. */
    method Finally(ghost s: State)
      requires Is(s) && s.flight.Ended?
      modifies this`inFlight
      ensures Is(Apply(s, ClearFlight))
    {
      inFlight := None;
    }
  }

  /** What the handler does next: throw the error on, give the session up and throw it,
      await a refresh, or send the request again. */
  datatype Reaction = Rethrow | Lose | Await(run: nat) | Replay

  class RequestConfig {
    const noRefresh: bool
    var retried: bool

    /** The mark is set on a request that has been sent again. */
    ghost predicate Is(q: Request)
      reads this
    {
      noRefresh == q.noRefresh && retried == (q.sends > 1)
    }

    constructor (noRefresh: bool)
      ensures Is(Request(noRefresh, 1, Sent, None, false))
    {
      this.noRefresh, retried := noRefresh, false;
    }

    /** On an error answer to request `i`, down to the first await. */
    method OnError(refresh: SingleFlight, unauthorized: bool, ghost s: State, ghost i: nat) returns (r: Reaction)
      requires refresh.Is(s) && i < |s.requests| && Is(s.requests[i]) && Sensible(s, s.requests[i])
      requires s.requests[i].stage == Sent || s.requests[i].stage == Replayed
      modifies refresh
      ensures var after := DoAnswer(s, i, unauthorized);
        && refresh.Is(after) && Is(after.requests[i])
        && match r
           case Rethrow => after.requests[i].stage == Finished(false) && after.losses == s.losses
           case Lose => after.requests[i].stage == Finished(true) && after.losses == s.losses + 1
           case Await(run) => after.requests[i].stage == Waiting(run) && after.losses == s.losses
           case Replay => false
      ensures r.Rethrow? <==> !unauthorized || noRefresh
      ensures r.Lose? <==> unauthorized && !noRefresh && retried
    {
      if !unauthorized || noRefresh {
        return Rethrow;
      }
      if retried {
        return Lose;
      }
      var run := refresh.Call(s);
      r := Await(run);
    }

    /** Once the refresh awaited by request `i` has ended. */
    method AfterRefresh(ok: bool, ghost s: State, ghost i: nat) returns (r: Reaction)
      requires i < |s.requests| && Is(s.requests[i]) && Sensible(s, s.requests[i])
      requires s.requests[i].stage.Waiting? && s.requests[i].stage.run in s.results
      requires ok == s.results[s.requests[i].stage.run]
      modifies this`retried
      ensures var after := DoResume(s, i);
        && Is(after.requests[i])
        && if ok then r == Replay && after.requests[i].stage == Replayed && after.losses == s.losses
           else r == Lose && after.requests[i].stage == Finished(true) && after.losses == s.losses + 1
    {
      if !ok {
        return Lose;
      }
      retried := true;
      r := Replay;
    }
  }

  function Losses(qs: seq<Request>): nat {
    if qs == [] then 0 else (if qs[0].stage == Finished(true) then 1 else 0) + Losses(qs[1..])
  }

  ghost predicate FlightOk(s: State) {
    && (forall r :: r in s.results ==> r < s.started)
    && (!s.flight.Nothing? ==> s.flight.run == s.started - 1 && s.flight.run !in s.results)
    && (forall r :: 0 <= r < s.started ==> r in s.results || (!s.flight.Nothing? && s.flight.run == r))
  }

  ghost predicate Inv(s: State) {
    && FlightOk(s)
    && (forall i :: 0 <= i < |s.requests| ==> Sensible(s, s.requests[i]))
    && s.losses == Losses(s.requests)
  }

  lemma {:induction false} LossesUpdate(qs: seq<Request>, i: nat, q: Request)
    requires i < |qs|
    ensures Losses(qs[i := q]) ==
      Losses(qs) - (if qs[i].stage == Finished(true) then 1 else 0) + if q.stage == Finished(true) then 1 else 0
  {
    if i == 0 {
      assert qs[i := q][1..] == qs[1..];
    } else {
      assert qs[i := q][1..] == qs[1..][i - 1 := q];
      LossesUpdate(qs[1..], i - 1, q);
    }
  }

  lemma {:induction false} LossesAppend(qs: seq<Request>, q: Request)
    ensures Losses(qs + [q]) == Losses(qs) + if q.stage == Finished(true) then 1 else 0
  {
    if qs == [] {
    } else {
      assert (qs + [q])[1..] == qs[1..] + [q];
      LossesAppend(qs[1..], q);
    }
  }

  lemma JoinKeepsInv(s: State)
    requires Inv(s)
    ensures Inv(Join(s))
  {
    var r := Join(s);
    assert forall i :: 0 <= i < |s.requests| && Sensible(s, s.requests[i]) ==> Sensible(r, r.requests[i]);
  }

  lemma PutKeepsInv(s: State, i: nat, q: Request, losses: nat)
    requires Inv(s) && i < |s.requests| && Sensible(s, q)
    requires losses == s.losses
      - (if s.requests[i].stage == Finished(true) then 1 else 0) + if q.stage == Finished(true) then 1 else 0
    ensures Inv(Put(s, i, q).(losses := losses))
  {
    LossesUpdate(s.requests, i, q);
    var r := Put(s, i, q).(losses := losses);
    forall k | 0 <= k < |r.requests| ensures Sensible(r, r.requests[k]) {
      assert Sensible(s, if k == i then q else s.requests[k]);
    }
  }

  lemma AnswerKeepsInv(s: State, i: nat, unauthorized: bool)
    requires Inv(s) && i < |s.requests| && (s.requests[i].stage == Sent || s.requests[i].stage == Replayed)
    ensures Inv(DoAnswer(s, i, unauthorized))
  {
    var q := s.requests[i].(last401 := unauthorized);
    assert Sensible(s, s.requests[i]);
    if !unauthorized || q.noRefresh {
      PutKeepsInv(s, i, q.(stage := Finished(false)), s.losses);
    } else if q.stage == Replayed {
      PutKeepsInv(s, i, q.(stage := Finished(true)), s.losses + 1);
    } else {
      JoinKeepsInv(s);
      var s1 := Join(s);
      PutKeepsInv(s1, i, q.(stage := Waiting(s1.flight.run), awaited := Some(s1.flight.run)), s1.losses);
    }
  }

  lemma ResumeKeepsInv(s: State, i: nat)
    requires Inv(s) && i < |s.requests| && s.requests[i].stage.Waiting? && s.requests[i].stage.run in s.results
    ensures Inv(DoResume(s, i))
  {
    var q := s.requests[i];
    assert Sensible(s, q);
    if s.results[q.stage.run] {
      PutKeepsInv(s, i, q.(stage := Replayed, sends := q.sends + 1), s.losses);
    } else {
      PutKeepsInv(s, i, q.(stage := Finished(true)), s.losses + 1);
    }
  }

  lemma StepKeepsInv(s: State, e: Event)
    requires Inv(s)
    ensures Inv(Apply(s, e))
  {
    var r := Apply(s, e);
    match e
    case Issue(noRefresh) =>
      LossesAppend(s.requests, Request(noRefresh, 1, Sent, None, false));
      forall i | 0 <= i < |r.requests| ensures Sensible(r, r.requests[i]) {
        assert i < |s.requests| ==> Sensible(s, s.requests[i]);
      }
    case EnsureSession => JoinKeepsInv(s);
    case Answer(i, unauthorized) => if r != s { AnswerKeepsInv(s, i, unauthorized); }
    case Resume(i) => if r != s { ResumeKeepsInv(s, i); }
    case _ =>
      assert forall i :: 0 <= i < |s.requests| && Sensible(s, s.requests[i]) ==> Sensible(r, r.requests[i]);
  }

  lemma {:induction false} ExecKeepsInv(s: State, es: seq<Event>)
    requires Inv(s)
    ensures Inv(Exec(s, es))
    decreases |es|
  {
    if es == [] {
    } else {
      StepKeepsInv(s, es[0]);
      ExecKeepsInv(Apply(s, es[0]), es[1..]);
    }
  }

  // --- Results ----------------------------------------------------------------

  /** At every point of every run at most one refresh is outstanding, however many
      requests fail together, and every request has been sent once or twice. */
  lemma OneRefreshTwoSends(es: seq<Event>)
    ensures var s := Exec(START, es);
      && (forall a: nat, b: nat :: Outstanding(s, a) && Outstanding(s, b) ==> a == b)
      && (forall i :: 0 <= i < |s.requests| ==> 1 <= s.requests[i].sends <= 2)
  {
    ExecKeepsInv(START, es);
    var s := Exec(START, es);
    assert forall i :: 0 <= i < |s.requests| ==> Sensible(s, s.requests[i]);
  }

  /** Refresh `run` ended with outcome `ok`: one of the events says so, while it ran. */
  ghost predicate EndedWith(es: seq<Event>, run: nat, ok: bool) {
    exists k :: 0 <= k < |es| && EndsAt(es, k, run, ok)
  }

  predicate EndsAt(es: seq<Event>, k: nat, run: nat, ok: bool) {
    k < |es| && es[k] == RefreshEnds(ok) && Exec(START, es[..k]).flight == Running(run)
  }

  lemma {:induction false} ExecAppend(s: State, es: seq<Event>, fs: seq<Event>)
    ensures Exec(s, es + fs) == Exec(Exec(s, es), fs)
    decreases |es|
  {
    if es == [] {
      assert es + fs == fs;
    } else {
      assert (es + fs)[1..] == es[1..] + fs;
      ExecAppend(Apply(s, es[0]), es[1..], fs);
    }
  }

  lemma ExecLast(es: seq<Event>)
    requires es != []
    ensures Exec(START, es) == Apply(Exec(START, es[..|es| - 1]), es[|es| - 1])
  {
    var init, last := es[..|es| - 1], es[|es| - 1];
    assert es == init + [last];
    ExecAppend(START, init, [last]);
    ExecOne(Exec(START, init), last);
  }

  lemma ExecOne(s: State, e: Event)
    ensures Exec(s, [e]) == Apply(s, e)
  {
    assert [e][1..] == [];
  }

  /** What the machine remembers of refreshes is what the events said. */
  ghost predicate Truthful(s: State, es: seq<Event>) {
    && (forall run :: run in s.results ==> EndedWith(es, run, s.results[run]))
    && (s.flight.Ended? ==> EndedWith(es, s.flight.run, s.flight.ok))
    && (forall run: nat, ok: bool :: EndedWith(es, run, ok) ==>
          if run in s.results then s.results[run] == ok else s.flight == Ended(run, ok))
  }

  lemma EndedGrows(es: seq<Event>, run: nat, ok: bool)
    requires es != []
    ensures EndedWith(es, run, ok) <==> EndedWith(es[..|es| - 1], run, ok) || EndsAt(es, |es| - 1, run, ok)
  {
    var init := es[..|es| - 1];
    assert forall k :: 0 <= k < |init| ==> init[..k] == es[..k];
    if EndedWith(init, run, ok) {
      var k :| 0 <= k < |init| && EndsAt(init, k, run, ok);
      assert EndsAt(es, k, run, ok);
    }
    if EndedWith(es, run, ok) && !EndsAt(es, |es| - 1, run, ok) {
      var k :| 0 <= k < |es| && EndsAt(es, k, run, ok);
      assert EndsAt(init, k, run, ok);
    }
  }

  /** Over every run: each refresh that the machine holds for settled ended as it holds,
      and each that ended is so held. */
  lemma {:induction false} OutcomesAreTheEvents(es: seq<Event>)
    ensures Truthful(Exec(START, es), es)
    decreases |es|
  {
    if es == [] {
    } else {
      var init, last := es[..|es| - 1], es[|es| - 1];
      OutcomesAreTheEvents(init);
      ExecKeepsInv(START, init);
      ExecLast(es);
      assert es[..|es| - 1] == init;
      forall run: nat, ok: bool
        ensures EndedWith(es, run, ok) <==> EndedWith(init, run, ok) || EndsAt(es, |es| - 1, run, ok)
      {
        EndedGrows(es, run, ok);
      }
      TruthfulStep(Exec(START, init), last, init, es);
    }
  }

  /** `e` is what `es` has beyond `init`. */
  ghost predicate OneMore(s: State, e: Event, init: seq<Event>, es: seq<Event>) {
    forall run: nat, ok: bool :: EndedWith(es, run, ok) <==>
      EndedWith(init, run, ok) || (e == RefreshEnds(ok) && s.flight == Running(run))
  }

  lemma SameOutcomes(s: State, r: State, init: seq<Event>, es: seq<Event>)
    requires Truthful(s, init) && r.results == s.results
    requires r.flight == s.flight || (s.flight.Nothing? && r.flight.Running?)
    requires forall run: nat, ok: bool :: EndedWith(es, run, ok) <==> EndedWith(init, run, ok)
    ensures Truthful(r, es)
  {
  }

  lemma EndIsTruthful(s: State, ok: bool, init: seq<Event>, es: seq<Event>)
    requires Inv(s) && Truthful(s, init) && s.flight.Running? && OneMore(s, RefreshEnds(ok), init, es)
    ensures Truthful(s.(flight := Ended(s.flight.run, ok)), es)
  {
    var run := s.flight.run;
    assert EndedWith(es, run, ok);
    assert forall x: bool :: !EndedWith(init, run, x);
  }

  lemma ClearIsTruthful(s: State, init: seq<Event>, es: seq<Event>)
    requires Inv(s) && Truthful(s, init) && s.flight.Ended? && OneMore(s, ClearFlight, init, es)
    ensures Truthful(Apply(s, ClearFlight), es)
  {
    assert EndedWith(init, s.flight.run, s.flight.ok);
  }

  lemma TruthfulStep(s: State, e: Event, init: seq<Event>, es: seq<Event>)
    requires Inv(s) && Truthful(s, init) && OneMore(s, e, init, es)
    ensures Truthful(Apply(s, e), es)
  {
    if e.RefreshEnds? && s.flight.Running? {
      EndIsTruthful(s, e.ok, init, es);
    } else if e.ClearFlight? && s.flight.Ended? {
      ClearIsTruthful(s, init, es);
    } else {
      SameOutcomes(s, Apply(s, e), init, es);
    }
  }

  /** At every point of every run the session has been declared lost once for each request
      that finished that way, and never for anything else.  A finished request did so
      exactly when the refresh it awaited failed, or its replay was answered 401; was sent
      twice exactly when that refresh succeeded; and unless its route is excepted, was
      lost exactly when its last answer was a 401. */
  lemma LostExactlyWhen(es: seq<Event>)
    ensures var s := Exec(START, es);
      && s.losses == Losses(s.requests)
      && forall i :: 0 <= i < |s.requests| && s.requests[i].stage.Finished? ==>
           var q := s.requests[i];
           && (q.stage.lost <==>
                 (q.awaited.Some? && EndedWith(es, q.awaited.value, false)) || (q.sends == 2 && q.last401))
           && (q.sends == 2 <==> q.awaited.Some? && EndedWith(es, q.awaited.value, true))
           && (if q.noRefresh then !q.stage.lost && q.sends == 1 else q.stage.lost <==> q.last401)
  {
    ExecKeepsInv(START, es);
    OutcomesAreTheEvents(es);
    var s := Exec(START, es);
    forall i | 0 <= i < |s.requests| && s.requests[i].stage.Finished?
      ensures var q := s.requests[i];
        && (q.awaited.Some? ==> q.awaited.value in s.results)
        && Sensible(s, q)
    {
      assert Sensible(s, s.requests[i]);
    }
  }

  /** A request whose token has expired gets through, invisibly: its 401 starts a refresh,
      the refresh succeeds, the request is sent once more and answered, and the session
      is not lost. */
  lemma ExpiredRequestGetsThrough(s: State)
    requires s.flight.Nothing? && forall run :: run in s.results ==> run < s.started
    ensures var i := |s.requests|;
      var asked := Apply(Apply(s, Issue(false)), Answer(i, true));
      var fresher := Apply(Apply(asked, RefreshEnds(true)), ClearFlight);
      var done := Apply(Apply(fresher, Resume(i)), Answer(i, false));
      && asked.requests == s.requests + [Request(false, 1, Waiting(s.started), Some(s.started), true)]
      && asked.flight == Running(s.started)
      && done.requests == s.requests + [Request(false, 2, Finished(false), Some(s.started), false)]
      && done.losses == s.losses && done.flight.Nothing?
  {
    var i := |s.requests|;
    var sent := Apply(s, Issue(false));
    assert sent.requests[..i] == s.requests;
    var asked := Apply(sent, Answer(i, true));
    assert asked.requests == s.requests + [Request(false, 1, Waiting(s.started), Some(s.started), true)];
    var fresher := Apply(Apply(asked, RefreshEnds(true)), ClearFlight);
    var again := Apply(fresher, Resume(i));
    assert again.requests == s.requests + [Request(false, 2, Replayed, Some(s.started), true)];
  }

  /** A page that checks its session shares the refresh in flight, or starts the one that
      others will share. */
  lemma ChecksShareTheRefresh(s: State)
    ensures var r := Apply(s, EnsureSession);
      && (s.flight.Nothing? ==> r.flight == Running(s.started) && r.started == s.started + 1)
      && (!s.flight.Nothing? ==> r == s)
      && r.requests == s.requests && r.losses == s.losses && r.results == s.results
  {
  }

  /** The refresh a 401 waits for is one that had not ended when the 401 came. */
  lemma AwaitsAFreshRefresh(es: seq<Event>, i: nat)
    requires i < |Exec(START, es).requests| && Exec(START, es).requests[i].stage == Sent
    ensures var s := Exec(START, es);
      var q := DoAnswer(s, i, true).requests[i];
      if q.noRefresh then q.stage == Finished(false)
      else q.stage.Waiting? && q.stage.run !in s.results
  {
    ExecKeepsInv(START, es);
  }

  // --- Termination ------------------------------------------------------------

  function Weight(q: Request): nat {
    match q.stage
    case Sent => 7
    case Waiting(_) => 4
    case Replayed => 2
    case Finished(_) => 0
  }

  function Weights(qs: seq<Request>): nat {
    if qs == [] then 0 else Weight(qs[0]) + Weights(qs[1..])
  }

  /** Steps the handler has at most left: requests and the shared refresh together. */
  function Left(s: State): nat {
    Weights(s.requests) + match s.flight case Nothing => 0 case Running(_) => 2 case Ended(_, _) => 1
  }

  lemma {:induction false} WeightsUpdate(qs: seq<Request>, i: nat, q: Request)
    requires i < |qs|
    ensures Weights(qs[i := q]) == Weights(qs) - Weight(qs[i]) + Weight(q)
  {
    if i == 0 {
      assert qs[i := q][1..] == qs[1..];
    } else {
      assert qs[i := q][1..] == qs[1..][i - 1 := q];
      WeightsUpdate(qs[1..], i - 1, q);
    }
  }

  /** Every step of the handler uses up some of what is left. */
  lemma StepsDecrease(s: State, e: Event)
    requires !e.Issue? && !e.EnsureSession? && Apply(s, e) != s
    ensures Left(Apply(s, e)) < Left(s)
  {
    var r := Apply(s, e);
    match e
    case Answer(i, _) => WeightsUpdate(s.requests, i, r.requests[i]);
    case Resume(i) => WeightsUpdate(s.requests, i, r.requests[i]);
    case _ =>
  }

  /** The handler terminates on every run: once no new request comes, at most `Left` steps
      remain, and as long as a request is not finished one of them can be taken. */
  lemma HandlerTerminates(es: seq<Event>) returns (next: Event)
    requires exists i :: 0 <= i < |Exec(START, es).requests| && !Exec(START, es).requests[i].stage.Finished?
    ensures !next.Issue? && !next.EnsureSession?
    ensures Left(Apply(Exec(START, es), next)) < Left(Exec(START, es))
  {
    ExecKeepsInv(START, es);
    var s := Exec(START, es);
    var i :| 0 <= i < |s.requests| && !s.requests[i].stage.Finished?;
    var q := s.requests[i];
    assert Sensible(s, q);
    if q.stage.Waiting? {
      next := if q.stage.run in s.results then Resume(i)
              else if s.flight.Running? then RefreshEnds(true) else ClearFlight;
    } else {
      next := Answer(i, false);
    }
    assert Apply(s, next) != s by {
      if next.Resume? || next.Answer? {
        assert Apply(s, next).requests[i].stage != q.stage;
      }
    }
    StepsDecrease(s, next);
  }
}
