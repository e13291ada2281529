/** The slow-cycle blocks: the generation-counted cache between a collection and the
    heartbeats, and the inventory's hash suppression on top of it.

    A run interleaves the daily collection, forced scans, heartbeats whose reply may be
    lost, and restarts of the agent.  Heartbeats reach the server in the order sent. */
module SlowCache {
  import opened Basics

  // --- stateCache -------------------------------------------------------------

  /** `gen` counts the stores, `sentGen` is the last generation acknowledged. */
  datatype Cache<T> = Cache(state: Option<T>, gen: nat, sentGen: nat)

  const EMPTY: Cache<Reading> := Cache(None, 0, 0)

  function Stored<T>(c: Cache<T>, state: Option<T>): Cache<T> {
    if state.None? then c else Cache(state, c.gen + 1, c.sentGen)
  }

  function Pending<T>(c: Cache<T>): (Option<T>, nat) {
    if c.state.None? || c.gen == c.sentGen then (None, 0) else (c.state, c.gen)
  }

  function Acknowledged<T>(c: Cache<T>, gen: nat): Cache<T> {
    if gen > c.sentGen then c.(sentGen := gen) else c
  }

  /** An acknowledgement covers what was taken and no more: a reading stored after it was
      taken stays pending, and without one nothing does. */
  lemma StoreBetweenStaysPending<T>(c: Cache<T>, later: T)
    requires c.sentGen <= c.gen && Pending(c).0.Some?
    ensures Pending(Acknowledged(Stored(c, Some(later)), Pending(c).1)) == (Some(later), c.gen + 1)
    ensures Pending(Acknowledged(c, Pending(c).1)) == (None, 0)
  {
  }

  class StateCache<T> {
    var state: Option<T>
    var gen: nat
    var sentGen: nat

    ghost function View(): Cache<T>
      reads this
    {
      Cache(state, gen, sentGen)
    }

    constructor ()
      ensures View() == Cache(None, 0, 0)
    {
      state, gen, sentGen := None, 0, 0;
    }

    method Store(s: Option<T>)
      modifies this
      ensures View() == Stored(old(View()), s)
    {
      if s.None? {
        return;
      }
      state := s;
      gen := gen + 1;
    }

    method TakePending() returns (s: Option<T>, g: nat)
      ensures (s, g) == Pending(View())
    {
      if state.None? || gen == sentGen {
        return None, 0;
      }
      return state, gen;
    }

    method MarkSent(g: nat)
      modifies this`sentGen
      ensures View() == Acknowledged(old(View()), g)
    {
      if g > sentGen {
        sentGen := g;
      }
    }
  }

  // --- The inventory ----------------------------------------------------------

  /** A reading and its hash; an empty hash is a reading that could not be hashed. */
  datatype Reading = Reading(hash: string, content: nat)

  predicate Unchanged(r: Reading, sent: string) {
    r.hash != "" && r.hash == sent
  }

  class Inventory {
    const cache: StateCache<Reading>
    var sent: string

    constructor ()
      ensures sent == "" && cache.View() == EMPTY && fresh(cache)
    {
      cache := new StateCache();
      sent := "";
    }

    /** The daily collection: stores a reading only when its hash is new. */
    method Collect(read: Option<Reading>)
      modifies this, cache
      ensures read.None? || Unchanged(read.value, old(sent)) ==> sent == old(sent) && cache.View() == old(cache.View())
      ensures read.Some? && !Unchanged(read.value, old(sent)) ==>
        sent == read.value.hash && cache.View() == Stored(old(cache.View()), read)
    {
      if read.None? || Unchanged(read.value, sent) {
        return;
      }
      sent := read.value.hash;
      cache.Store(read);
    }

    /** A forced scan: stores whatever the hash says. */
    method Scan(read: Option<Reading>) returns (ok: bool)
      modifies this, cache
      ensures ok == read.Some?
      ensures ok ==> sent == read.value.hash && cache.View() == Stored(old(cache.View()), read)
      ensures !ok ==> sent == old(sent) && cache.View() == old(cache.View())
    {
      if read.None? {
        return false;
      }
      sent := read.value.hash;
      cache.Store(read);
      ok := true;
    }
  }

  // --- The system -------------------------------------------------------------

  /** A heartbeat on its way: the block it carries, by its number in `log`. */
  datatype Beat = Beat(block: Option<nat>)

  /** `log`: every reading ever stored, over all restarts; the running process stored
      those from `base` on.  `mid`: a collection between its hash and its store.
      `waiting`: the block and generation of the heartbeat being awaited, `answered`
      once the server has handled it.  `held`: the number of the reading the server
      holds. */
  datatype State = State(
    cache: Cache<Reading>, sent: string, mid: Option<Reading>,
    log: seq<Reading>, base: nat,
    wire: seq<Beat>, waiting: Option<nat>, answered: bool,
    held: Option<nat>)

  datatype Event =
    | Collect(read: Reading)
    | Force(forced: Reading)
    | FinishStore
    | Send
    | Serve
    | Lose(i: nat)
    | GiveUp
    | Reply
    | Restart

  function DoServe(s: State): State {
    if s.wire == [] then s
    else s.(held := if s.wire[0].block.Some? then s.wire[0].block else s.held,
            wire := s.wire[1..], answered := s.answered || (|s.wire| == 1 && s.waiting.Some?))
  }

  function Apply(s: State, e: Event): State {
    match e
    case Collect(r) =>
      if s.mid.Some? || Unchanged(r, s.sent) then s else s.(sent := r.hash, mid := Some(r))
    case Force(r) => if s.mid.Some? then s else s.(sent := r.hash, mid := Some(r))
    case FinishStore =>
      if s.mid.None? then s
      else s.(cache := Stored(s.cache, s.mid), log := s.log + [s.mid.value], mid := None)
    case Send =>
      if s.waiting.Some? then s
      else
        var (block, gen) := Pending(s.cache);
        s.(wire := s.wire + [Beat(if block.Some? && gen > 0 then Some(s.base + gen - 1) else None)],
           waiting := Some(gen), answered := false)
    case Serve => DoServe(s)
    case Lose(i) =>
      if i >= |s.wire| then s
      else s.(wire := s.wire[..i] + s.wire[i + 1..],
              waiting := if i == |s.wire| - 1 && !s.answered then None else s.waiting)
    case GiveUp => s.(waiting := None)
    case Reply =>
      if s.waiting.None? || !s.answered then s
      else s.(cache := if s.waiting.value > 0 then Acknowledged(s.cache, s.waiting.value) else s.cache, waiting := None)
    case Restart =>
      s.(cache := EMPTY, sent := "", mid := None, base := |s.log|, waiting := None)
  }

  function Exec(s: State, es: seq<Event>): State
    decreases |es|
  {
    if es == [] then s else Exec(Apply(s, es[0]), es[1..])
  }

  const START := State(EMPTY, "", None, [], 0, [], None, false, None)

  /** The blocks the server holds or is about to be handed, oldest first, never go
      back in time. */
  predicate InOrder(held: Option<nat>, wire: seq<Beat>, top: nat) {
    && (held.Some? ==> held.value < top)
    && (forall i :: 0 <= i < |wire| && wire[i].block.Some? ==>
          wire[i].block.value < top && (held.Some? ==> held.value <= wire[i].block.value))
    && (forall i, j :: 0 <= i < j < |wire| && wire[i].block.Some? && wire[j].block.Some? ==>
          wire[i].block.value <= wire[j].block.value)
  }

  predicate CacheMatchesLog(s: State) {
    && s.cache.sentGen <= s.cache.gen && s.base + s.cache.gen == |s.log|
    && (s.cache.state.Some? <==> s.cache.gen > 0)
    && (s.cache.state.Some? ==> s.cache.state.value == s.log[|s.log| - 1])
  }

  /** The hash kept is that of the last reading stored, or about to be. */
  predicate HashMatches(s: State) {
    s.sent == if s.mid.Some? then s.mid.value.hash
              else if s.cache.gen == 0 || s.log == [] then ""
              else s.log[|s.log| - 1].hash
  }

  predicate Inv(s: State) {
    && CacheMatchesLog(s) && HashMatches(s)
    && InOrder(s.held, s.wire, |s.log|)
    && (s.cache.sentGen > 0 ==> s.held.Some? && s.base + s.cache.sentGen - 1 <= s.held.value)
    && (s.waiting.Some? ==> s.waiting.value <= s.cache.gen)
    && (s.waiting.Some? && s.waiting.value > 0 ==>
          if s.answered then s.held.Some? && s.base + s.waiting.value - 1 <= s.held.value
          else s.wire != [] && s.wire[|s.wire| - 1].block == Some(s.base + s.waiting.value - 1))
    && (s.waiting.Some? && s.answered ==> s.wire == [])
    && (s.waiting.Some? && !s.answered ==> s.wire != [])
  }

  lemma ServeKeepsInv(s: State)
    requires Inv(s)
    ensures Inv(DoServe(s))
  {
    if s.wire != [] {
      var r := DoServe(s);
      assert forall i :: 0 <= i < |r.wire| ==> r.wire[i] == s.wire[i + 1];
      if r.wire != [] {
        assert r.wire[|r.wire| - 1] == s.wire[|s.wire| - 1];
      }
    }
  }

  lemma LossKeepsOrder(held: Option<nat>, wire: seq<Beat>, top: nat, i: nat)
    requires InOrder(held, wire, top) && i < |wire|
    ensures InOrder(held, wire[..i] + wire[i + 1..], top)
    ensures var rest := wire[..i] + wire[i + 1..];
      i < |wire| - 1 ==> rest != [] && rest[|rest| - 1] == wire[|wire| - 1]
  {
    var rest := wire[..i] + wire[i + 1..];
    assert forall k :: 0 <= k < |rest| ==> rest[k] == wire[if k < i then k else k + 1];
  }

  lemma LoseKeepsInv(s: State, i: nat)
    requires Inv(s) && i < |s.wire|
    ensures Inv(Apply(s, Lose(i)))
  {
    LossKeepsOrder(s.held, s.wire, |s.log|, i);
  }

  lemma SendKeepsInv(s: State)
    requires Inv(s)
    ensures Inv(Apply(s, Send))
  {
  }

  lemma StepKeepsInv(s: State, e: Event)
    requires Inv(s)
    ensures Inv(Apply(s, e))
  {
    match e
    case Serve => ServeKeepsInv(s);
    case Lose(i) => if i < |s.wire| { LoseKeepsInv(s, i); }
    case Send => SendKeepsInv(s);
    case _ =>
  }

  lemma {:induction false} RunKeepsInv(s: State, es: seq<Event>)
    requires Inv(s)
    ensures Inv(Exec(s, es))
    decreases |es|
  {
    if es == [] {
    } else {
      StepKeepsInv(s, es[0]);
      RunKeepsInv(Apply(s, es[0]), es[1..]);
    }
  }

  /** When a process that has stored something reports nothing pending, the server holds
      the reading most recently stored. */
  lemma NothingPendingMeansServerHasIt(es: seq<Event>)
    ensures var s := Exec(START, es);
      s.cache.state.Some? && Pending(s.cache).0 == None ==>
        s.held == Some(|s.log| - 1) && s.log[s.held.value] == s.cache.state.value
  {
    RunKeepsInv(START, es);
  }

  /** Hash suppression never silences a reading the server lacks: the reading skipped
      has the hash of one the server holds, or of one the next heartbeat carries. */
  lemma SuppressionIsSafe(es: seq<Event>, r: Reading)
    requires Exec(START, es).mid == None && Unchanged(r, Exec(START, es).sent)
    ensures var s := Exec(START, es);
      match Pending(s.cache).0
      case Some(next) => next.hash == r.hash
      case None => s.held.Some? && s.held.value < |s.log| && s.log[s.held.value].hash == r.hash
  {
    RunKeepsInv(START, es);
  }

  lemma StepKeepsHeld(s: State, e: Event)
    requires Inv(s) && s.held.Some?
    ensures Apply(s, e).held.Some? && s.held.value <= Apply(s, e).held.value
  {
    if e.Serve? && s.wire != [] {
      assert s.wire[0].block.Some? ==> s.held.value <= s.wire[0].block.value;
    }
  }

  /** Suppression does suppress: a reading with the hash of the one last collected is not
      stored again, one with another hash is, one without a hash always is, and a forced
      scan stores whatever the hash. */
  lemma SuppressedExactlyWhenUnchanged(s: State, r: Reading, next: Reading)
    requires s.mid == None && r.hash != s.sent
    ensures var once := Apply(Apply(s, Collect(r)), FinishStore);
      && once.log == s.log + [r] && once.cache.state == Some(r) && once.mid == None
      && (next.hash == r.hash && r.hash != "" ==> Apply(once, Collect(next)) == once)
      && (next.hash != r.hash || r.hash == "" ==>
            Apply(Apply(once, Collect(next)), FinishStore).log == s.log + [r, next])
      && Apply(Apply(once, Force(next)), FinishStore).log == s.log + [r, next]
  {
    assert s.log + [r] + [next] == s.log + [r, next];
  }

  /** A restarted agent has forgotten what it sent, and sends its first reading. */
  lemma RestartForgets(s: State, r: Reading)
    requires r.hash != ""
    ensures var fresher := Apply(s, Restart);
      && Pending(fresher.cache).0 == None && fresher.log == s.log && fresher.held == s.held && fresher.wire == s.wire
      && Apply(Apply(fresher, Collect(r)), FinishStore).log == s.log + [r]
      && Pending(Apply(Apply(fresher, Collect(r)), FinishStore).cache).0 == Some(r)
  {
  }

  /** The server's reading never goes back to an older one. */
  lemma ServerNeverGoesBack(es: seq<Event>, e: Event)
    ensures var s := Exec(START, es);
      s.held.Some? ==> Apply(s, e).held.Some? && s.held.value <= Apply(s, e).held.value
  {
    RunKeepsInv(START, es);
    var s := Exec(START, es);
    if s.held.Some? {
      StepKeepsHeld(s, e);
    }
  }

  /** The server handles everything on its way. */
  function Drained(s: State): State
    decreases |s.wire|
  {
    if s.wire == [] then s else Drained(DoServe(s))
  }

  lemma {:induction false} DrainAnswers(s: State)
    requires Inv(s) && (s.wire != [] ==> s.waiting.Some?)
    ensures var r := Drained(s);
      && Inv(r) && r.wire == [] && r.cache == s.cache && r.log == s.log && r.base == s.base && r.waiting == s.waiting
      && (s.waiting.Some? ==> r.answered)
    decreases |s.wire|
  {
    if s.wire == [] {
    } else {
      ServeKeepsInv(s);
      DrainAnswers(DoServe(s));
    }
  }

  /** One heartbeat, however many are still on their way before it, and its answer. */
  function Beaten(s: State): State {
    Apply(Drained(Apply(Apply(s, GiveUp), Send)), Reply)
  }

  lemma AnsweredRoundTrip(s: State)
    requires Inv(s) && s.cache.gen > 0
    ensures Beaten(s).held == Some(|s.log| - 1) && Pending(Beaten(s).cache).0.None? && Beaten(s).log == s.log
  {
    var sent := SentAfresh(s);
    DrainAnswers(sent);
    AnswerIsEnough(Drained(sent), Pending(s.cache).1);
  }

  lemma SentAfresh(s: State) returns (sent: State)
    requires Inv(s)
    ensures sent == Apply(Apply(s, GiveUp), Send) && Inv(sent)
    ensures sent.waiting == Some(Pending(s.cache).1) && sent.cache == s.cache && sent.log == s.log
  {
    StepKeepsInv(s, GiveUp);
    SendKeepsInv(Apply(s, GiveUp));
    sent := Apply(Apply(s, GiveUp), Send);
  }

  lemma AnswerIsEnough(s: State, gen: nat)
    requires Inv(s) && s.answered && s.waiting == Some(gen) && gen == Pending(s.cache).1 && s.cache.gen > 0
    ensures var r := Apply(s, Reply);
      r.held == Some(|s.log| - 1) && Pending(r.cache).0.None? && r.log == s.log
  {
  }

  /** From every reachable point of a process that has stored something, one answered
      heartbeat leaves the server with everything stored before it was sent. */
  lemma OneAnswerDelivers(es: seq<Event>)
    requires Exec(START, es).cache.gen > 0
    ensures var s := Exec(START, es);
      Beaten(s).held == Some(|s.log| - 1) && Pending(Beaten(s).cache).0.None?
  {
    RunKeepsInv(START, es);
    AnsweredRoundTrip(Exec(START, es));
  }
}
