/** The two operation locks of the agent.

    `wuOp` serialises everything that opens a Windows Update session or runs an
    installer; `inventoryOp` serialises inventory readings.  A package install takes the
    first and then, still holding it, the second.  The worker, the Windows Update loop
    and the inventory loop are threads of the machine below; the theorems hold for any
    number of them. */
module Locks {
  import opened Basics

  /** What a goroutine is asked to do: a search, install, reset or collection of Windows
      Update; an inventory reading; a package install or removal. */
  datatype Job = WindowsUpdate | Inventory | Package

  /** `Rescanned`: the inventory reading that follows an install is over. */
  datatype Pc =
    | Idle
    | WantWu(job: Job)
    | InWu(job: Job)
    | WantInv(job: Job)
    | InInv(job: Job)
    | Rescanned

  datatype State = State(pcs: seq<Pc>, wu: Option<nat>, inv: Option<nat>)

  predicate HoldsWu(p: Pc) {
    p.InWu? || p == Rescanned || ((p.WantInv? || p.InInv?) && p.job == Package)
  }

  predicate HoldsInv(p: Pc) {
    p.InInv?
  }

  datatype Event = Start(t: nat, job: Job) | Step(who: nat, installed: bool)

  function Moved(s: State, t: nat, p: Pc): State
    requires t < |s.pcs|
  {
    s.(pcs := s.pcs[t := p])
  }

  /** One step of goroutine `t`; a goroutine whose lock is taken stays where it is.
      `installed`: the installer succeeded, so that the inventory is read again. */
  function DoStep(s: State, t: nat, installed: bool): State {
    if t >= |s.pcs| then s
    else match s.pcs[t]
      case Idle => s
      case WantWu(job) => if s.wu.Some? then s else Moved(s, t, InWu(job)).(wu := Some(t))
      case InWu(job) =>
        if job == Package && installed then Moved(s, t, WantInv(job)) else Moved(s, t, Idle).(wu := None)
      case WantInv(job) => if s.inv.Some? then s else Moved(s, t, InInv(job)).(inv := Some(t))
      case InInv(job) => Moved(s, t, if job == Package then Rescanned else Idle).(inv := None)
      case Rescanned => Moved(s, t, Idle).(wu := None)
  }

  function Apply(s: State, e: Event): State {
    match e
    case Start(t, job) =>
      if t >= |s.pcs| || s.pcs[t] != Idle then s
      else Moved(s, t, if job == Inventory then WantInv(job) else WantWu(job))
    case Step(t, installed) => DoStep(s, t, installed)
  }

  function Exec(s: State, es: seq<Event>): State
    decreases |es|
  {
    if es == [] then s else Exec(Apply(s, es[0]), es[1..])
  }

  predicate Initial(s: State) {
    s.wu == None && s.inv == None && forall i :: 0 <= i < |s.pcs| ==> s.pcs[i] == Idle
  }

  predicate Inv(s: State) {
    && (forall i :: 0 <= i < |s.pcs| ==> (HoldsWu(s.pcs[i]) <==> s.wu == Some(i)))
    && (forall i :: 0 <= i < |s.pcs| ==> (HoldsInv(s.pcs[i]) <==> s.inv == Some(i)))
    && (s.wu.Some? ==> s.wu.value < |s.pcs|) && (s.inv.Some? ==> s.inv.value < |s.pcs|)
    && (forall i :: 0 <= i < |s.pcs| ==> (s.pcs[i].WantWu? || s.pcs[i].InWu? ==> s.pcs[i].job != Inventory))
    && (forall i :: 0 <= i < |s.pcs| ==> (s.pcs[i].WantInv? || s.pcs[i].InInv? ==> s.pcs[i].job != WindowsUpdate))
  }

  /** Moving goroutine `t` to `p` keeps the invariant when the locks follow: taken by
      `t` if it holds them at `p`, given back if it no longer does. */
  lemma MoveKeepsInv(s: State, t: nat, p: Pc, wu: Option<nat>, inv: Option<nat>)
    requires Inv(s) && t < |s.pcs|
    requires wu == if HoldsWu(p) then Some(t) else if HoldsWu(s.pcs[t]) then None else s.wu
    requires inv == if HoldsInv(p) then Some(t) else if HoldsInv(s.pcs[t]) then None else s.inv
    requires HoldsWu(p) ==> s.wu == None || s.wu == Some(t)
    requires HoldsInv(p) ==> s.inv == None || s.inv == Some(t)
    requires p.WantWu? || p.InWu? ==> p.job != Inventory
    requires p.WantInv? || p.InInv? ==> p.job != WindowsUpdate
    ensures Inv(State(s.pcs[t := p], wu, inv))
  {
  }

  lemma StepKeepsInv(s: State, e: Event)
    requires Inv(s)
    ensures Inv(Apply(s, e)) && |Apply(s, e).pcs| == |s.pcs|
  {
    var r := Apply(s, e);
    var t := if e.Start? then e.t else e.who;
    if r != s {
      MoveKeepsInv(s, t, r.pcs[t], r.wu, r.inv);
      assert r == State(s.pcs[t := r.pcs[t]], r.wu, r.inv);
    }
  }

  lemma {:induction false} RunKeepsInv(s: State, es: seq<Event>)
    requires Inv(s)
    ensures Inv(Exec(s, es)) && |Exec(s, es).pcs| == |s.pcs|
    decreases |es|
  {
    if es == [] {
    } else {
      StepKeepsInv(s, es[0]);
      RunKeepsInv(Apply(s, es[0]), es[1..]);
    }
  }

  /** No two Windows Update or installer operations overlap, nor two inventory readings;
      and nobody waits for `wuOp` while holding either lock: the order is never reversed. */
  lemma OperationsNeverOverlap(s: State, es: seq<Event>)
    requires Initial(s)
    ensures var r := Exec(s, es);
      && |r.pcs| == |s.pcs|
      && (forall i, j :: 0 <= i < j < |r.pcs| ==>
            !(HoldsWu(r.pcs[i]) && HoldsWu(r.pcs[j])) && !(HoldsInv(r.pcs[i]) && HoldsInv(r.pcs[j])))
      && (forall i :: 0 <= i < |r.pcs| && r.pcs[i].WantWu? ==> r.wu != Some(i) && r.inv != Some(i))
  {
    RunKeepsInv(s, es);
  }

  // --- Progress ---------------------------------------------------------------

  /** Steps a goroutine has at most left before it is idle again. */
  function Left(p: Pc): nat {
    match p
    case Idle => 0
    case WantWu(_) => 5
    case InWu(_) => 4
    case WantInv(_) => 3
    case InInv(_) => 2
    case Rescanned => 1
  }

  function Work(pcs: seq<Pc>): nat {
    if pcs == [] then 0 else Left(pcs[0]) + Work(pcs[1..])
  }

  lemma {:induction false} WorkUpdate(pcs: seq<Pc>, t: nat, p: Pc)
    requires t < |pcs|
    ensures Work(pcs[t := p]) == Work(pcs) - Left(pcs[t]) + Left(p)
  {
    if t == 0 {
      assert pcs[t := p][1..] == pcs[1..];
    } else {
      assert pcs[t := p][1..] == pcs[1..][t - 1 := p];
      WorkUpdate(pcs[1..], t - 1, p);
    }
  }

  lemma {:induction false} NoWorkMeansIdle(pcs: seq<Pc>)
    ensures Work(pcs) == 0 <==> forall i :: 0 <= i < |pcs| ==> pcs[i] == Idle
  {
    if pcs == [] {
    } else {
      NoWorkMeansIdle(pcs[1..]);
      assert forall i :: 0 < i < |pcs| ==> pcs[i] == pcs[1..][i - 1];
    }
  }

  /** A goroutine that is not blocked moves closer to idle. */
  lemma StepDecreasesWork(s: State, t: nat, installed: bool)
    ensures DoStep(s, t, installed) != s ==> Work(DoStep(s, t, installed).pcs) < Work(s.pcs)
  {
    if t < |s.pcs| && DoStep(s, t, installed) != s {
      WorkUpdate(s.pcs, t, DoStep(s, t, installed).pcs[t]);
    }
  }

  /** Somebody can always move: the holder of `inventoryOp`; else whoever waits for it;
      else the holder of `wuOp`; else whoever waits for that. */
  lemma SomebodyMoves(s: State) returns (t: nat)
    requires Inv(s) && exists i :: 0 <= i < |s.pcs| && s.pcs[i] != Idle
    ensures t < |s.pcs| && forall installed :: DoStep(s, t, installed) != s
  {
    if s.inv.Some? {
      t := s.inv.value;
    } else if i :| 0 <= i < |s.pcs| && s.pcs[i].WantInv? {
      t := i;
    } else if s.wu.Some? {
      t := s.wu.value;
    } else {
      t :| 0 <= t < |s.pcs| && s.pcs[t] != Idle;
    }
    assert forall installed :: DoStep(s, t, installed).pcs[t] != s.pcs[t];
  }

  /** No deadlock: from every reachable state, as long as a goroutine is busy one of
      them can move, and every move brings the agent strictly closer to all being idle. */
  lemma NoDeadlock(s: State, es: seq<Event>) returns (t: nat)
    requires Initial(s)
    requires Work(Exec(s, es).pcs) > 0
    ensures var r := Exec(s, es);
      forall installed :: DoStep(r, t, installed) != r && Work(DoStep(r, t, installed).pcs) < Work(r.pcs)
  {
    RunKeepsInv(s, es);
    var r := Exec(s, es);
    NoWorkMeansIdle(r.pcs);
    t := SomebodyMoves(r);
    forall installed ensures DoStep(r, t, installed) != r && Work(DoStep(r, t, installed).pcs) < Work(r.pcs) {
      StepDecreasesWork(r, t, installed);
    }
  }

  /** Each job does its work when its locks are free: a Windows Update operation holds
      `wuOp`; a reading holds `inventoryOp`; a package install holds `wuOp` while it
      installs, both while it reads the inventory again, and gives both back. */
  lemma JobsOperate(s: State, t: nat)
    requires t < |s.pcs| && s.pcs[t] == Idle && s.wu == None && s.inv == None
    ensures var u := Apply(Apply(s, Start(t, WindowsUpdate)), Step(t, false));
      && u.pcs[t] == InWu(WindowsUpdate) && u.wu == Some(t) && Apply(u, Step(t, false)) == s
    ensures var i := Apply(Apply(s, Start(t, Inventory)), Step(t, false));
      && i.pcs[t] == InInv(Inventory) && i.inv == Some(t) && i.wu == None && Apply(i, Step(t, false)) == s
    ensures var p := Apply(Apply(s, Start(t, Package)), Step(t, true));
      var q := Apply(Apply(p, Step(t, true)), Step(t, true));
      && p.pcs[t] == InWu(Package) && p.wu == Some(t) && p.inv == None
      && q.pcs[t] == InInv(Package) && q.wu == Some(t) && q.inv == Some(t)
      && Apply(Apply(q, Step(t, true)), Step(t, true)) == s
  {
    assert s.pcs[t := Idle] == s.pcs;
  }

  /** A lock that is taken is waited for: nobody goes past it, and nobody gives up. */
  lemma TakenLocksAreWaitedFor(s: State, t: nat, installed: bool)
    requires t < |s.pcs|
    ensures s.pcs[t].WantWu? ==>
      DoStep(s, t, installed) == if s.wu.Some? then s else State(s.pcs[t := InWu(s.pcs[t].job)], Some(t), s.inv)
    ensures s.pcs[t].WantInv? ==>
      DoStep(s, t, installed) == if s.inv.Some? then s else State(s.pcs[t := InInv(s.pcs[t].job)], s.wu, Some(t))
  {
  }

  predicate Moves(s: State, e: Event) {
    e.Step? && Apply(s, e) != s
  }

  predicate AllMove(s: State, es: seq<Event>)
    decreases |es|
  {
    es == [] || (Moves(s, es[0]) && AllMove(Apply(s, es[0]), es[1..]))
  }

  /** With no new job, any schedule runs out after at most `Work` moves, and where no
      goroutine can move any more all of them are idle and both locks are free. */
  lemma {:induction false} EveryScheduleDrains(s: State, es: seq<Event>)
    requires Inv(s) && AllMove(s, es)
    ensures |es| + Work(Exec(s, es).pcs) <= Work(s.pcs)
    ensures (forall e :: !Moves(Exec(s, es), e)) ==> Initial(Exec(s, es))
    decreases |es|
  {
    if es == [] {
      NoWorkMeansIdle(s.pcs);
      if Work(s.pcs) > 0 {
        var t := SomebodyMoves(s);
        assert Moves(s, Step(t, false));
      }
    } else {
      StepKeepsInv(s, es[0]);
      StepDecreasesWork(s, es[0].who, es[0].installed);
      EveryScheduleDrains(Apply(s, es[0]), es[1..]);
    }
  }
}
