/** Commands from heartbeat to verdict: the polling loop accepts them and replays the
    queue, one worker runs them, and the two share a set of ids, a bounded channel and
    the durable queue.

    Every step below is one critical section or one request of `agent.go`; the events
    of a run interleave the two goroutines in any order. */
module CommandPipe {
  import opened Basics
  import opened FileQueue

  type Id = string

  const MAX_PENDING := 16

  // --- The steps --------------------------------------------------------------

  /** The polling loop.  `Offering`: the id is in `running`, the send is next;
      `Backlogged`: the channel was full, the release is next. */
  datatype Poll =
    | Idle
    | Offering(id: Id)
    | Backlogged(id: Id)
    | Posting(path: nat, n: nat)
    | Removing(path: nat)

  /** The worker.  A verdict is named by the position of its run in `started`, counted on
      from the verdicts earlier processes reached. */
  datatype Worker =
    | Resting
    | Executing(id: Id, n: nat)
    | Reporting(id: Id, n: nat)
    | Storing(id: Id, n: nat)
    | Leaving(id: Id)

  /** `earlier`: how many verdicts earlier processes reached.  The last six fields are the
      record of the run: ids sent to the channel, ids taken from it, verdicts reached
      (those still on disk at the start among them), received by the server, dropped by
      overflow, and lost to a failed write or a crash. */
  datatype State = State(
    running: set<Id>, channel: seq<Id>, poll: Poll, worker: Worker,
    dir: Dir<nat>, clock: nat, max: nat, earlier: nat,
    accepted: seq<Id>, started: seq<Id>, finished: set<nat>, delivered: set<nat>, evicted: set<nat>, lost: set<nat>)

  datatype Event =
    | Offer(id: Id)
    | Send
    | Release
    | Take
    | Finish(known: bool)
    | Report(answered: bool, received: bool)
    | Store(evictable: bool, written: bool)
    | Leave
    | Peek
    | Replay(replayAnswered: bool, replayReceived: bool)
    | Unlink(removable: bool)
    | Crash

  function DoStore(s: State, evictable: bool, written: bool): State {
    if !s.worker.Storing? then s
    else
      var n := s.worker.n;
      var overflow := |s.dir| >= s.max && s.dir != map[] && evictable;
      var victim := if overflow && s.dir[Least(s.dir.Keys)].Decodable? then {s.dir[Least(s.dir.Keys)].item} else {};
      s.(dir := Enqueued(s.dir, s.max, s.clock, n, evictable, written), clock := s.clock + 1,
         evicted := s.evicted + victim, lost := if written then s.lost else s.lost + {n},
         worker := Leaving(s.worker.id))
  }

  function DoReplay(s: State, answered: bool, received: bool): State {
    if !s.poll.Posting? then s
    else s.(delivered := if answered || received then s.delivered + {s.poll.n} else s.delivered,
            poll := if answered then Removing(s.poll.path) else Idle)
  }

  function Held(w: Worker): set<nat> {
    match w
    case Reporting(_, n) => {n}
    case Storing(_, n) => {n}
    case _ => {}
  }

  function Apply(s: State, e: Event): State {
    match e
    case Offer(id) =>
      if s.poll != Idle || id in s.running then s else s.(running := s.running + {id}, poll := Offering(id))
    case Send =>
      if !s.poll.Offering? then s
      else if |s.channel| >= MAX_PENDING then s.(poll := Backlogged(s.poll.id))
      else s.(channel := s.channel + [s.poll.id], accepted := s.accepted + [s.poll.id], poll := Idle)
    case Release =>
      if !s.poll.Backlogged? then s else s.(running := s.running - {s.poll.id}, poll := Idle)
    case Take =>
      if s.worker != Resting || s.channel == [] then s
      else s.(worker := Executing(s.channel[0], s.earlier + |s.started|),
              started := s.started + [s.channel[0]], channel := s.channel[1..])
    case Finish(known) =>
      if !s.worker.Executing? then s
      else if !known then s.(worker := Leaving(s.worker.id))
      else s.(worker := Reporting(s.worker.id, s.worker.n), finished := s.finished + {s.worker.n})
    case Report(answered, received) =>
      if !s.worker.Reporting? then s
      else s.(delivered := if answered || received then s.delivered + {s.worker.n} else s.delivered,
              worker := if answered then Leaving(s.worker.id) else Storing(s.worker.id, s.worker.n))
    case Store(evictable, written) => DoStore(s, evictable, written)
    case Leave =>
      if !s.worker.Leaving? then s else s.(running := s.running - {s.worker.id}, worker := Resting)
    case Peek =>
      if s.poll != Idle || s.dir == map[] || s.dir[Least(s.dir.Keys)].Corrupt? then s
      else s.(poll := Posting(Least(s.dir.Keys), s.dir[Least(s.dir.Keys)].item))
    case Replay(answered, received) => DoReplay(s, answered, received)
    case Unlink(removable) =>
      if !s.poll.Removing? then s
      else s.(dir := if removable then s.dir - {s.poll.path} else s.dir, poll := Idle)
    case Crash =>
      s.(running := {}, channel := [], poll := Idle, worker := Resting,
         accepted := s.started, lost := s.lost + Held(s.worker))
  }

  function Exec(s: State, es: seq<Event>): State
    decreases |es|
  {
    if es == [] then s else Exec(Apply(s, es[0]), es[1..])
  }

  predicate Queued(d: Dir<nat>, n: nat) {
    exists k :: k in d && d[k] == Decodable(n)
  }

  /** The agent starts, with whatever earlier processes left in the queue. */
  ghost predicate Initial(s: State) {
    && s.running == {} && s.channel == [] && s.poll == Idle && s.worker == Resting
    && s.max > 0 && (forall k :: k in s.dir ==> k < s.clock && s.dir[k].Decodable?)
    && s.accepted == s.started == [] && s.delivered == s.evicted == s.lost == {}
    && (forall n :: n in s.finished <==> Queued(s.dir, n)) && (forall n :: n in s.finished ==> n < s.earlier)
  }

  // --- What is in flight ------------------------------------------------------

  function WorkerIds(w: Worker): seq<Id> {
    if w.Resting? then [] else [w.id]
  }

  function PollIds(p: Poll): seq<Id> {
    if p.Offering? || p.Backlogged? then [p.id] else []
  }

  /** The id being executed, those waiting, and the one being accepted. */
  function InFlight(s: State): seq<Id> {
    WorkerIds(s.worker) + s.channel + PollIds(s.poll)
  }

  predicate Unique(ids: seq<Id>) {
    forall i, j :: 0 <= i < j < |ids| ==> ids[i] != ids[j]
  }

  /** `running` is exactly the ids in flight, and none is there twice. */
  predicate RunningIsInFlight(s: State) {
    Unique(InFlight(s)) && s.running == (set x | x in InFlight(s))
  }

  lemma SameInFlight(s: State, r: State)
    requires RunningIsInFlight(s) && InFlight(r) == InFlight(s) && r.running == s.running
    ensures RunningIsInFlight(r)
  {
  }

  lemma EnterKeepsRunning(s: State, id: Id)
    requires RunningIsInFlight(s) && id !in s.running && PollIds(s.poll) == []
    ensures RunningIsInFlight(s.(running := s.running + {id}, poll := Offering(id)))
  {
    var r := s.(running := s.running + {id}, poll := Offering(id));
    assert InFlight(r) == InFlight(s) + [id];
  }

  lemma LastLeaves(s: State)
    requires RunningIsInFlight(s) && s.poll.Backlogged?
    ensures RunningIsInFlight(s.(running := s.running - {s.poll.id}, poll := Idle))
  {
    var r := s.(running := s.running - {s.poll.id}, poll := Idle);
    assert InFlight(s) == InFlight(r) + [s.poll.id];
    assert forall i :: 0 <= i < |InFlight(r)| ==> InFlight(r)[i] == InFlight(s)[i];
    assert InFlight(s)[|InFlight(r)|] == s.poll.id;
  }

  lemma FirstLeaves(s: State)
    requires RunningIsInFlight(s) && s.worker.Leaving?
    ensures RunningIsInFlight(s.(running := s.running - {s.worker.id}, worker := Resting))
  {
    var r := s.(running := s.running - {s.worker.id}, worker := Resting);
    assert InFlight(s) == [s.worker.id] + InFlight(r);
    assert InFlight(s)[0] == s.worker.id;
    assert forall i :: 0 <= i < |InFlight(r)| ==> InFlight(r)[i] == InFlight(s)[i + 1];
    assert forall x :: x in InFlight(s) <==> x == s.worker.id || x in InFlight(r);
  }

  /** No id is in flight twice, at most sixteen wait, and runs start in the order of
      acceptance: what has been accepted is what has started, then what waits. */
  predicate Orderly(s: State) {
    && RunningIsInFlight(s)
    && |s.channel| <= MAX_PENDING
    && s.accepted == s.started + s.channel
  }

  lemma SendKeepsOrder(s: State)
    requires Orderly(s) && s.poll.Offering?
    ensures Orderly(Apply(s, Send))
  {
    var r := Apply(s, Send);
    assert InFlight(r) == InFlight(s);
    SameInFlight(s, r);
  }

  lemma TakeKeepsOrder(s: State)
    requires Orderly(s) && s.worker == Resting && s.channel != []
    ensures Orderly(Apply(s, Take))
  {
    var r := Apply(s, Take);
    assert InFlight(r) == InFlight(s);
    SameInFlight(s, r);
    assert r.started + r.channel == s.started + s.channel;
  }

  /** The steps of the worker and of the replay that move no id. */
  lemma OthersKeepOrder(s: State, e: Event)
    requires Orderly(s)
    requires !e.Offer? && !e.Send? && !e.Release? && !e.Take? && !e.Leave? && !e.Crash?
    ensures Orderly(Apply(s, e))
  {
    var r := Apply(s, e);
    assert WorkerIds(r.worker) == WorkerIds(s.worker) && PollIds(r.poll) == PollIds(s.poll);
    SameInFlight(s, r);
  }

  lemma StepKeepsOrder(s: State, e: Event)
    requires Orderly(s)
    ensures Orderly(Apply(s, e))
  {
    match e
    case Offer(id) => if s.poll == Idle && id !in s.running { EnterKeepsRunning(s, id); }
    case Send => if s.poll.Offering? { SendKeepsOrder(s); }
    case Release => if s.poll.Backlogged? { LastLeaves(s); }
    case Take => if s.worker == Resting && s.channel != [] { TakeKeepsOrder(s); }
    case Leave => if s.worker.Leaving? { FirstLeaves(s); }
    case Crash =>
    case _ => OthersKeepOrder(s, e);
  }

  // --- What becomes of a verdict ----------------------------------------------

  /** Delivered, waiting on disk, dropped by overflow, lost, or still in the worker. */
  predicate Accounted(s: State, n: nat) {
    n in s.delivered || Queued(s.dir, n) || n in s.evicted || n in s.lost || n in Held(s.worker)
  }

  predicate Conserved(s: State) {
    && s.max > 0
    && (forall k :: k in s.dir ==> k < s.clock && s.dir[k].Decodable?)
    && (forall n :: n in s.finished ==> Accounted(s, n))
    && (s.poll.Posting? ==>
          s.poll.path < s.clock && (s.poll.path in s.dir ==> s.dir[s.poll.path] == Decodable(s.poll.n)))
    && (s.poll.Removing? ==> s.poll.path < s.clock && (s.poll.path in s.dir ==> s.dir[s.poll.path].item in s.delivered))
  }

  /** Overflow may drop the very item the polling loop is posting. */
  lemma StoreConserves(s: State, evictable: bool, written: bool)
    requires Conserved(s)
    ensures Conserved(DoStore(s, evictable, written))
  {
    if s.worker.Storing? {
      var r := DoStore(s, evictable, written);
      forall n | n in r.finished ensures Accounted(r, n) {
        if n == s.worker.n {
          assert written ==> r.dir[s.clock] == Decodable(n);
        } else if Queued(s.dir, n) && n !in r.evicted {
          var k :| k in s.dir && s.dir[k] == Decodable(n);
          assert k in r.dir && r.dir[k] == s.dir[k];
        }
      }
    }
  }

  lemma UnlinkConserves(s: State, removable: bool)
    requires Conserved(s)
    ensures Conserved(Apply(s, Unlink(removable)))
  {
    if s.poll.Removing? && removable {
      var r := Apply(s, Unlink(removable));
      forall n | n in r.finished ensures Accounted(r, n) {
        if Queued(s.dir, n) && n !in s.delivered {
          var k :| k in s.dir && s.dir[k] == Decodable(n);
          assert k in r.dir;
        }
      }
    }
  }

  lemma StepConserves(s: State, e: Event)
    requires Conserved(s)
    ensures Conserved(Apply(s, e))
  {
    match e
    case Store(evictable, written) => StoreConserves(s, evictable, written);
    case Unlink(removable) => UnlinkConserves(s, removable);
    case _ =>
      var r := Apply(s, e);
      assert r.dir == s.dir;
      forall n | n in r.finished ensures Accounted(r, n) {
        assert n in s.finished ==> Accounted(s, n);
      }
  }

  // --- Whole runs -------------------------------------------------------------

  /** Steps that lose nothing: no crash, no write of the queue fails. */
  predicate Kept(e: Event) {
    !e.Crash? && (e.Store? ==> e.written)
  }

  /** The number of a verdict the worker holds. */
  function Number(w: Worker): Option<nat> {
    match w
    case Executing(_, n) => Some(n)
    case Reporting(_, n) => Some(n)
    case Storing(_, n) => Some(n)
    case _ => None
  }

  /** Numbers are given out in order and stand for one verdict each: what is on disk, what
      has been reached and what the worker holds lies below the next number, and the
      worker's is the last one given out. */
  predicate Numbered(s: State) {
    var next := s.earlier + |s.started|;
    && (forall k :: k in s.dir && s.dir[k].Decodable? ==> s.dir[k].item in s.finished)
    && (forall n :: n in s.finished ==> n < next)
    && (Number(s.worker).Some? ==> |s.started| > 0 && Number(s.worker).value == next - 1)
    && (s.worker.Executing? ==> s.worker.n !in s.finished)
    && (s.worker.Reporting? || s.worker.Storing? ==> s.worker.n in s.finished)
  }

  lemma StoreKeepsNumbers(s: State, evictable: bool, written: bool)
    requires Numbered(s)
    ensures Numbered(DoStore(s, evictable, written)) && DoStore(s, evictable, written).earlier == s.earlier
  {
    var r := DoStore(s, evictable, written);
    assert forall k :: k in r.dir ==> (k in s.dir && r.dir[k] == s.dir[k]) || r.dir[k] == Decodable(s.worker.n);
  }

  lemma WorkerKeepsNumbers(s: State, e: Event)
    requires Numbered(s) && (e.Take? || e.Finish? || e.Report? || e.Leave?)
    ensures Numbered(Apply(s, e)) && Apply(s, e).earlier == s.earlier
  {
    var r := Apply(s, e);
    assert r.dir == s.dir;
  }

  lemma OthersKeepNumbers(s: State, e: Event)
    requires Numbered(s) && !e.Store? && !e.Take? && !e.Finish? && !e.Report? && !e.Leave?
    ensures Numbered(Apply(s, e)) && Apply(s, e).earlier == s.earlier
  {
    var r := Apply(s, e);
    assert r.started == s.started && r.finished == s.finished && (r.worker == s.worker || r.worker == Resting);
    assert forall k :: k in r.dir ==> k in s.dir && r.dir[k] == s.dir[k];
  }

  lemma StepKeepsNumbers(s: State, e: Event)
    requires Numbered(s)
    ensures Numbered(Apply(s, e)) && Apply(s, e).earlier == s.earlier
  {
    match e
    case Store(evictable, written) => StoreKeepsNumbers(s, evictable, written);
    case Take => WorkerKeepsNumbers(s, e);
    case Finish(_) => WorkerKeepsNumbers(s, e);
    case Report(_, _) => WorkerKeepsNumbers(s, e);
    case Leave => WorkerKeepsNumbers(s, e);
    case _ => OthersKeepNumbers(s, e);
  }

  /** No file, and no verdict reached, has the number of a run that is yet to reach its
      own: the verdict a number stands for is never mistaken for another. */
  lemma {:induction false} NumbersAreFresh(s: State, es: seq<Event>)
    requires Numbered(s)
    ensures Numbered(Exec(s, es)) && Exec(s, es).earlier == s.earlier
    decreases |es|
  {
    if es == [] {
    } else {
      StepKeepsNumbers(s, es[0]);
      NumbersAreFresh(Apply(s, es[0]), es[1..]);
    }
  }

  lemma {:induction false} RunKeepsInvariants(s: State, es: seq<Event>)
    requires Orderly(s) && Conserved(s)
    ensures Orderly(Exec(s, es)) && Conserved(Exec(s, es))
    decreases |es|
  {
    if es == [] {
    } else {
      StepKeepsOrder(s, es[0]);
      StepConserves(s, es[0]);
      RunKeepsInvariants(Apply(s, es[0]), es[1..]);
    }
  }

  lemma {:induction false} NothingIsLost(s: State, es: seq<Event>)
    requires forall e :: e in es ==> Kept(e)
    ensures Exec(s, es).lost == s.lost
    decreases |es|
  {
    if es == [] {
    } else {
      assert Kept(es[0]);
      NothingIsLost(Apply(s, es[0]), es[1..]);
    }
  }

  /** Whatever the interleaving: the ids held back are exactly those queued, executing
      or being accepted, none of them twice; at most sixteen wait, one runs, in order. */
  lemma NothingRunsTwiceAtOnce(s: State, es: seq<Event>)
    requires Initial(s)
    ensures var r := Exec(s, es);
      && r.running == (set x | x in InFlight(r)) && Unique(InFlight(r))
      && |r.channel| <= 16
      && r.accepted == r.started + r.channel
  {
    RunKeepsInvariants(s, es);
  }

  /** Every verdict reached, and every one an earlier process left on disk, is received by
      the server, on disk, dropped by overflow, still in the worker's hands or recorded as
      lost; each number stands for one verdict; and nothing is lost as long as the disk
      accepts writes and the process lives. */
  lemma NoVerdictVanishes(s: State, es: seq<Event>)
    requires Initial(s)
    ensures forall n :: n in Exec(s, es).finished ==> Accounted(Exec(s, es), n)
    ensures forall n :: Queued(s.dir, n) ==> Accounted(Exec(s, es), n)
    ensures Numbered(Exec(s, es))
    ensures (forall e :: e in es ==> Kept(e)) ==> Exec(s, es).lost == {}
  {
    RunKeepsInvariants(s, es);
    InitialNumbers(s);
    NumbersAreFresh(s, es);
    FinishedStays(s, es);
    if forall e :: e in es ==> Kept(e) {
      NothingIsLost(s, es);
    }
  }

  lemma InitialNumbers(s: State)
    requires Initial(s)
    ensures Numbered(s)
  {
    forall k | k in s.dir ensures s.dir[k].item in s.finished {
      assert Queued(s.dir, s.dir[k].item);
    }
  }

  lemma {:induction false} FinishedStays(s: State, es: seq<Event>)
    ensures s.finished <= Exec(s, es).finished
    decreases |es|
  {
    if es == [] {
    } else {
      FinishedStays(Apply(s, es[0]), es[1..]);
    }
  }

  /** A command the server lists is run and its verdict delivered: the undisturbed way. */
  lemma CommandGoesThrough(s: State, id: Id)
    requires s.poll == Idle && s.worker == Resting && s.channel == [] && id !in s.running
    ensures var n := s.earlier + |s.started|;
      var run := Apply(Apply(Apply(s, Offer(id)), Send), Take);
      var reported := Apply(Apply(run, Finish(true)), Report(true, true));
      && run.worker == Executing(id, n) && run.started == s.started + [id]
      && n in reported.finished && n in reported.delivered && reported.dir == s.dir
      && Apply(reported, Leave).worker == Resting && Apply(reported, Leave).running == s.running
  {
    var offered := Apply(s, Offer(id));
    assert offered.poll == Offering(id);
    var sent := Apply(offered, Send);
    assert sent.channel == [id];
    var run := Apply(sent, Take);
    assert run.channel == [];
    var left := Apply(Apply(Apply(run, Finish(true)), Report(true, true)), Leave);
    assert left.running == s.running + {id} - {id} == s.running;
  }

  /** And the way round an outage: the verdict that cannot be posted is put on disk... */
  lemma VerdictIsStored(s: State, id: Id, n: nat)
    requires s.worker == Reporting(id, n) && s.poll == Idle
    ensures var stored := Apply(Apply(s, Report(false, false)), Store(true, true));
      && stored.dir[s.clock := Decodable(n)] == stored.dir && stored.worker == Leaving(id) && stored.poll == Idle
      && (s.dir == map[] ==> stored.dir == map[s.clock := Decodable(n)])
  {
    var waiting := Apply(s, Report(false, false));
    assert waiting.worker == Storing(id, n) && waiting.dir == s.dir;
    var stored := Apply(waiting, Store(true, true));
    assert s.clock in stored.dir && stored.dir[s.clock] == Decodable(n);
  }

  /** ...and the oldest on disk is posted when the server answers again, and taken off. */
  lemma VerdictIsReplayed(s: State, path: nat, n: nat)
    requires s.poll == Idle && IsLeast(path, s.dir.Keys) && s.dir[path] == Decodable(n)
    ensures var posted := Apply(Apply(s, Peek), Replay(true, true));
      && n in posted.delivered && posted.poll == Removing(path)
      && Apply(posted, Unlink(true)).dir == s.dir - {path} && Apply(posted, Unlink(true)).poll == Idle
  {
    assert Least(s.dir.Keys) == path;
    assert Apply(s, Peek).poll == Posting(path, n);
  }

  // --- The code ---------------------------------------------------------------

  /** `accept` as one call: dropped when in flight, deferred when the channel is full. */
  function Accepted(running: set<Id>, channel: seq<Id>, id: Id): (set<Id>, seq<Id>) {
    if id in running || |channel| >= MAX_PENDING then (running, channel)
    else (running + {id}, channel + [id])
  }

  /** Sixteen wait at most, and nothing is deferred before they do. */
  lemma AcceptedExactly(running: set<Id>, channel: seq<Id>, id: Id)
    ensures id !in running && |channel| < 16 ==> Accepted(running, channel, id) == (running + {id}, channel + [id])
    ensures id in running || |channel| >= 16 ==> Accepted(running, channel, id) == (running, channel)
  {
  }

  /** A call of `accept` is its three steps, when the worker leaves the channel alone. */
  lemma AcceptIsItsSteps(s: State, id: Id)
    requires Orderly(s) && s.poll == Idle
    ensures var r := Apply(Apply(Apply(s, Offer(id)), Send), Release);
      (r.running, r.channel) == Accepted(s.running, s.channel, id) && r.poll == Idle
  {
  }

  class Backlog {
    var running: set<Id>
    var commands: seq<Id>

    constructor ()
      ensures running == {} && commands == []
    {
      running, commands := {}, [];
    }

    method Accept(id: Id)
      modifies this
      ensures (running, commands) == Accepted(old(running), old(commands), id)
    {
      if id in running {
        return;
      }
      running := running + {id};
      if |commands| < MAX_PENDING {
        commands := commands + [id];
      } else {
        ghost var before := old(running);
        Drop(id);
        assert running == before;
      }
    }

    method Drop(id: Id)
      modifies this`running
      ensures running == old(running) - {id}
    {
      running := running - {id};
    }

    /** The commands of one heartbeat, in the order the server listed them. */
    method AcceptAll(ids: seq<Id>)
      requires Unique(commands) && |commands| <= MAX_PENDING
      requires forall x :: x in commands ==> x in running
      modifies this
      ensures Unique(commands) && |commands| <= MAX_PENDING
      ensures old(commands) <= commands
      ensures forall x :: x in commands ==> x in running
      ensures running == old(running) + (set x | x in commands[|old(commands)|..])
      ensures forall x :: x in ids ==> x in running || |commands| == MAX_PENDING
      ensures forall x :: x in commands[|old(commands)|..] ==> x in ids && x !in old(running)
    {
      for i := 0 to |ids|
        invariant Unique(commands) && |commands| <= MAX_PENDING
        invariant old(commands) <= commands
        invariant forall x :: x in commands ==> x in running
        invariant running == old(running) + (set x | x in commands[|old(commands)|..])
        invariant forall x :: x in ids[..i] ==> x in running || |commands| == MAX_PENDING
        invariant forall x :: x in commands[|old(commands)|..] ==> x in ids && x !in old(running)
      {
        ghost var news := commands[|old(commands)|..];
        Accept(ids[i]);
        assert commands[|old(commands)|..] == news || commands[|old(commands)|..] == news + [ids[i]];
      }
    }
  }
}
