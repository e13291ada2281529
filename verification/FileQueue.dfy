/** The agent's durable queue: a directory of timestamped files that behaves as a
    bounded FIFO dropping its oldest item.

    A file name is its timestamp here: the clock is assumed to advance between two
    enqueues, so that the name order is the timestamp order and no name comes back. */
module FileQueue {
  /** One `.json` file. */
  datatype Entry<T> = Decodable(item: T) | Corrupt

  type Dir<T> = map<nat, Entry<T>>

  // --- The listing ------------------------------------------------------------

  predicate IsLeast(m: nat, s: set<nat>) {
    m in s && forall x :: x in s ==> m <= x
  }

  lemma {:induction false} LeastExists(s: set<nat>)
    requires s != {}
    ensures exists m :: IsLeast(m, s)
  {
    var a :| a in s;
    var rest := s - {a};
    if rest == {} {
      assert s == {a};
      assert IsLeast(a, s);
    } else {
      LeastExists(rest);
      var m :| IsLeast(m, rest);
      assert forall x :: x in s ==> x == a || x in rest;
      assert IsLeast(if a < m then a else m, s);
    }
  }

  function Least(s: set<nat>): (m: nat)
    requires s != {}
    ensures IsLeast(m, s)
  {
    LeastExists(s);
    var m :| IsLeast(m, s);
    m
  }

  /** `listFiles`: the names in ascending order. */
  function Listing(s: set<nat>): seq<nat> {
    if s == {} then [] else [Least(s)] + Listing(s - {Least(s)})
  }

  predicate Ascending(r: seq<nat>) {
    forall i, j :: 0 <= i < j < |r| ==> r[i] < r[j]
  }

  lemma {:induction false} ListingIsSorted(s: set<nat>)
    ensures forall x :: x in Listing(s) <==> x in s
    ensures Ascending(Listing(s))
    ensures |Listing(s)| == |s|
  {
    if s == {} {
    } else {
      var m := Least(s);
      ListingIsSorted(s - {m});
      SmallestFirst(m, Listing(s - {m}), s - {m});
      assert s == {m} + (s - {m});
    }
  }

  lemma SmallestFirst(m: nat, rest: seq<nat>, names: set<nat>)
    requires Ascending(rest) && (forall x :: x in rest <==> x in names) && forall x :: x in names ==> m < x
    ensures Ascending([m] + rest) && forall x :: x in [m] + rest <==> x == m || x in names
  {
    assert forall i :: 0 <= i < |rest| ==> rest[i] in names;
  }

  /** What is in the queue, oldest first. */
  function Contents<T>(d: Dir<T>): seq<Entry<T>>
    decreases d.Keys
  {
    if d == map[] then [] else
      var m := Least(d.Keys);
      [d[m]] + Contents(d - {m})
  }

  /** The queue's contents are the files in the order of the listing. */
  lemma {:induction false} ContentsFollowListing<T>(d: Dir<T>)
    ensures |Contents(d)| == |Listing(d.Keys)| == |d|
    ensures forall i :: 0 <= i < |d| ==> Listing(d.Keys)[i] in d && Contents(d)[i] == d[Listing(d.Keys)[i]]
    decreases d.Keys
  {
    if d == map[] {
    } else {
      var m := Least(d.Keys);
      assert (d - {m}).Keys == d.Keys - {m};
      ContentsFollowListing(d - {m});
      var names := Listing(d.Keys - {m});
      assert Listing(d.Keys) == [m] + names;
      assert |d| == |d.Keys|;
    }
  }

  function Decodables<T>(c: seq<Entry<T>>): seq<T> {
    if c == [] then [] else (if c[0].Decodable? then [c[0].item] else []) + Decodables(c[1..])
  }

  lemma {:induction false} ContentsAppend<T>(d: Dir<T>, k: nat, e: Entry<T>)
    requires forall x :: x in d ==> x < k
    ensures Contents(d[k := e]) == Contents(d) + [e]
    decreases d.Keys
  {
    var d1 := d[k := e];
    assert d1.Keys == d.Keys + {k};
    var m := Least(d1.Keys);
    if d == map[] {
      assert m == k;
      assert d1 - {m} == map[];
    } else {
      assert m == Least(d.Keys) by {
        assert Least(d.Keys) in d1.Keys;
      }
      assert d1 - {m} == (d - {m})[k := e];
      ContentsAppend(d - {m}, k, e);
    }
  }

  // --- The operations ---------------------------------------------------------

  /** `evictable`: the oldest file can be removed; `written`: the new one reaches its
      final name. */
  function Enqueued<T>(d: Dir<T>, max: nat, stamp: nat, item: T, evictable: bool, written: bool): Dir<T> {
    var d1 := if |d| >= max && d != map[] && evictable then d - {Least(d.Keys)} else d;
    if written then d1[stamp := Decodable(item)] else d1
  }

  datatype Peeked<T> = Found(name: nat, item: T) | Empty | ReadError

  predicate PeekOk<T>(d: Dir<T>, names: seq<nat>) {
    Ascending(names) && forall i :: 0 <= i < |names| ==> names[i] in d
  }

  /** The loop of `Peek`: `locked` names cannot be read, `stuck` ones cannot be removed. */
  function Peek<T>(d: Dir<T>, names: seq<nat>, locked: set<nat>, stuck: set<nat>): (r: (Dir<T>, Peeked<T>))
    requires PeekOk(d, names)
  {
    if names == [] then (d, Empty)
    else if names[0] in locked then (d, ReadError)
    else match d[names[0]]
      case Decodable(item) => (d, Found(names[0], item))
      case Corrupt =>
        var d1 := if names[0] in stuck then d else d - {names[0]};
        Peek(d1, names[1..], locked, stuck)
  }

  lemma PeekOkStep<T>(d: Dir<T>, names: seq<nat>)
    requires PeekOk(d, names) && names != []
    ensures names[0] in d
    ensures PeekOk(d, names[1..]) && PeekOk(d - {names[0]}, names[1..])
  {
    assert forall i :: 0 <= i < |names| - 1 ==> names[1..][i] == names[i + 1];
  }

  /** `Enqueue` appends, dropping the oldest item when the queue is full. */
  lemma EnqueueIsBoundedFifo<T>(d: Dir<T>, max: nat, stamp: nat, item: T)
    requires max > 0 && forall x :: x in d ==> x < stamp
    ensures Contents(Enqueued(d, max, stamp, item, true, true))
         == (if |d| >= max then Contents(d)[1..] else Contents(d)) + [Decodable(item)]
  {
    if |d| >= max {
      assert d != map[];
      ContentsAppend(d - {Least(d.Keys)}, stamp, Decodable(item));
    } else {
      ContentsAppend(d, stamp, Decodable(item));
    }
  }

  /** Within its bound, the queue stays within it, unless the oldest file of a full
      queue refuses to be removed while the new one is written: exactly then not. */
  lemma DepthBound<T>(d: Dir<T>, max: nat, stamp: nat, item: T, evictable: bool, written: bool)
    requires 0 < max && |d| <= max && stamp !in d
    ensures |Enqueued(d, max, stamp, item, evictable, written)| <= max <==> !(|d| == max && !evictable && written)
  {
    var d1 := if |d| >= max && evictable then d - {Least(d.Keys)} else d;
    if |d| >= max && evictable {
      assert d1.Keys == d.Keys - {Least(d.Keys)};
      assert |d1.Keys| == |d.Keys| - 1;
    }
    assert d1[stamp := Decodable(item)].Keys == d1.Keys + {stamp};
    assert |d1[stamp := Decodable(item)].Keys| == |d1.Keys| + 1;
  }

  /** Without locked files, `Peek` finds the oldest decodable item, if there is one, and
      what it deletes on the way is corrupt and older. */
  lemma {:induction false} PeekFindsOldest<T>(d: Dir<T>, names: seq<nat>, locked: set<nat>, stuck: set<nat>)
    requires PeekOk(d, names)
    ensures var (d1, r) := Peek(d, names, locked, stuck);
      && (forall n :: n in d1 ==> n in d && d1[n] == d[n])
      && (forall n :: n in d && n !in d1 ==> n in names && n !in stuck && d[n].Corrupt?)
      && (r.Found? ==> r.name in names && r.name in d1 && d[r.name] == Decodable(r.item) && r.name !in locked)
      && (r.Found? ==> forall n :: n in names && n < r.name ==> d[n].Corrupt? && n !in locked)
      && (r.Found? ==> forall n :: n in names && n < r.name && n !in stuck ==> n !in d1)
      && (r.Empty? ==> forall n :: n in names ==> d[n].Corrupt? && n !in locked && (n !in stuck ==> n !in d1))
      && (r.ReadError? ==> exists n :: n in names && n in locked)
  {
    if names != [] && names[0] !in locked && d[names[0]].Corrupt? {
      var d1 := if names[0] in stuck then d else d - {names[0]};
      assert forall i :: 0 <= i < |names[1..]| ==> names[1..][i] == names[i + 1];
      PeekFindsOldest(d1, names[1..], locked, stuck);
      var (d2, r) := Peek(d1, names[1..], locked, stuck);
      assert Peek(d, names, locked, stuck) == (d2, r);
      assert forall n :: n in names ==> n == names[0] || n in names[1..];
    }
  }

  class Queue<T> {
    var dir: Dir<T>
    const maxItems: nat

    /** `found`: what the last process left in the directory. */
    constructor (maxItems: int, found: Dir<T>)
      ensures this.maxItems == (if maxItems <= 0 then 1000 else maxItems) && dir == found
    {
      this.maxItems := if maxItems <= 0 then 1000 else maxItems;
      dir := found;
    }

    method Enqueue(item: T, now: nat, evictable: bool, written: bool) returns (ok: bool)
      requires maxItems > 0 && forall x :: x in dir ==> x < now
      modifies this
      ensures ok == written
      ensures dir == Enqueued(old(dir), maxItems, now, item, evictable, written)
      ensures evictable && written ==>
        Contents(dir) ==
          (if |old(dir)| >= maxItems then Contents(old(dir))[1..] else Contents(old(dir))) + [Decodable(item)]
    {
      EnqueueIsBoundedFifo(dir, maxItems, now, item);
      ListingIsSorted(dir.Keys);
      var files := Listing(dir.Keys);
      if |files| >= maxItems && evictable {
        dir := dir - {files[0]};
      }
      if written {
        dir := dir[now := Decodable(item)];
      }
      ok := written;
    }

    /** The loop of `Peek` over the names listed. */
    method PeekFrom(files: seq<nat>, locked: set<nat>, stuck: set<nat>) returns (r: Peeked<T>)
      requires PeekOk(dir, files)
      modifies this
      ensures (dir, r) == Peek(old(dir), files, locked, stuck)
    {
      var i := 0;
      while i < |files|
        invariant 0 <= i <= |files|
        invariant PeekOk(dir, files[i..])
        invariant Peek(dir, files[i..], locked, stuck) == Peek(old(dir), files, locked, stuck)
      {
        var path := files[i];
        PeekOkStep(dir, files[i..]);
        assert files[i..][1..] == files[i + 1..];
        if path in locked {
          return ReadError;
        }
        if dir[path].Decodable? {
          return Found(path, dir[path].item);
        }
        if path !in stuck {
          dir := dir - {path};
        }
        i := i + 1;
      }
      r := Empty;
    }

    method PeekOldest(locked: set<nat>, stuck: set<nat>) returns (r: Peeked<T>)
      modifies this
      ensures PeekOk(old(dir), Listing(old(dir).Keys))
      ensures (dir, r) == Peek(old(dir), Listing(old(dir).Keys), locked, stuck)
    {
      PeekOkListing(dir);
      r := PeekFrom(Listing(dir.Keys), locked, stuck);
    }

    method Remove(path: nat, stuck: set<nat>) returns (ok: bool)
      modifies this
      ensures ok == (path in old(dir) && path !in stuck)
      ensures dir == if ok then old(dir) - {path} else old(dir)
    {
      ok := path in dir && path !in stuck;
      if ok {
        dir := dir - {path};
      }
    }
  }

  lemma PeekOkListing<T>(d: Dir<T>)
    ensures PeekOk(d, Listing(d.Keys))
  {
    ListingIsSorted(d.Keys);
  }

  lemma DecodablesHead<T>(d: Dir<T>)
    requires d != map[]
    ensures var m := Least(d.Keys);
      Decodables(Contents(d)) == (if d[m].Decodable? then [d[m].item] else []) + Decodables(Contents(d - {m}))
  {
    var m := Least(d.Keys);
    assert Contents(d) == [d[m]] + Contents(d - {m});
    assert Contents(d)[1..] == Contents(d - {m});
  }

  // --- The replay -------------------------------------------------------------

  /** What obstructs a replay, turn by turn: files that cannot be read, files that cannot
      be removed. */
  datatype Trouble = Trouble(locked: nat -> set<nat>, stuck: nat -> set<nat>)

  /** One turn: the directory afterwards, the item posted, and whether there is another
      turn.  `answered`: the server takes the item, if there is one. */
  function Turn<T>(d: Dir<T>, answered: bool, locked: set<nat>, stuck: set<nat>): (Dir<T>, seq<T>, bool) {
    PeekOkListing(d);
    var (d1, r) := Peek(d, Listing(d.Keys), locked, stuck);
    if !r.Found? || !answered then (d1, [], false)
    else if r.name !in d1 || r.name in stuck then (d1, [r.item], false)
    else (d1 - {r.name}, [r.item], true)
  }

  /** The directory and the items posted from turn `turn` on, when `answers` posts succeed
      before the server fails to answer. */
  function Flushed<T>(d: Dir<T>, turn: nat, answers: nat, x: Trouble): (Dir<T>, seq<T>)
    decreases answers
  {
    var (d1, item, more) := Turn(d, answers > 0, x.locked(turn), x.stuck(turn));
    if !more || answers == 0 then (d1, item)
    else
      var (d2, rest) := Flushed(d1, turn + 1, answers - 1, x);
      (d2, item + rest)
  }

  /** The body of the loop of `flushQueue`. */
  method ReplayTurn<T>(q: Queue<T>, answered: bool, locked: set<nat>, stuck: set<nat>)
    returns (item: seq<T>, more: bool)
    modifies q
    ensures (q.dir, item, more) == Turn(old(q.dir), answered, locked, stuck)
  {
    var r := q.PeekOldest(locked, stuck);
    if !r.Found? || !answered {
      return [], false;
    }
    item := [r.item];
    more := q.Remove(r.name, stuck);
  }

  /** `flushQueue`: replays the queue oldest-first, and stops where an item cannot be read,
      delivered or removed. */
  method FlushQueue<T>(q: Queue<T>, answers: nat, x: Trouble) returns (posted: seq<T>)
    modifies q
    ensures (q.dir, posted) == Flushed(old(q.dir), 0, answers, x)
  {
    posted := [];
    var turn := 0;
    ghost var whole := Flushed(q.dir, 0, answers, x);
    while true
      invariant turn <= answers
      invariant Flushed(q.dir, turn, answers - turn, x).0 == whole.0
      invariant posted + Flushed(q.dir, turn, answers - turn, x).1 == whole.1
      decreases answers - turn
    {
      var item, more := ReplayTurn(q, turn < answers, x.locked(turn), x.stuck(turn));
      if more {
        Joined(posted, item, Flushed(q.dir, turn + 1, answers - turn - 1, x).1);
      }
      posted := posted + item;
      if !more {
        return;
      }
      turn := turn + 1;
    }
  }

  lemma Joined<T>(a: seq<T>, b: seq<T>, c: seq<T>)
    ensures a + b + c == a + (b + c)
  {
  }

  /** Files that are not decodable count for nothing. */
  lemma {:induction false} DropCorrupt<T>(d: Dir<T>, d1: Dir<T>)
    requires forall n :: n in d1 ==> n in d && d1[n] == d[n]
    requires forall n :: n in d && n !in d1 ==> d[n].Corrupt?
    ensures Decodables(Contents(d1)) == Decodables(Contents(d))
    decreases d.Keys
  {
    if d == map[] {
      assert d1 == map[];
    } else {
      var m := Least(d.Keys);
      DecodablesHead(d);
      if m in d1 {
        SameLeast(d, d1);
        DecodablesHead(d1);
        DropCorrupt(d - {m}, d1 - {m});
      } else {
        DropCorrupt(d - {m}, d1);
      }
    }
  }

  lemma SameLeast<T>(d: Dir<T>, d1: Dir<T>)
    requires d1.Keys <= d.Keys && d != map[] && Least(d.Keys) in d1
    ensures Least(d1.Keys) == Least(d.Keys)
  {
    assert IsLeast(Least(d1.Keys), d1.Keys);
  }

  /** The oldest decodable file is the head of the queue. */
  lemma {:induction false} RemoveFirst<T>(d: Dir<T>, name: nat)
    requires name in d && d[name].Decodable? && forall n :: n in d && n < name ==> d[n].Corrupt?
    ensures Decodables(Contents(d)) == [d[name].item] + Decodables(Contents(d - {name}))
    decreases d.Keys
  {
    var m := Least(d.Keys);
    DecodablesHead(d);
    if m != name {
      RemoveFirst(d - {m}, name);
      assert d - {m} - {name} == d - {name} - {m};
      DropCorrupt(d - {name}, d - {name} - {m});
    }
  }

  /** Peeking at the whole directory leaves the sequence of decodable items alone and
      finds its head, unless a file cannot be read. */
  lemma PeekSkipsCorrupt<T>(d: Dir<T>, locked: set<nat>, stuck: set<nat>)
    ensures PeekOk(d, Listing(d.Keys))
    ensures var (d1, r) := Peek(d, Listing(d.Keys), locked, stuck);
      && Decodables(Contents(d1)) == Decodables(Contents(d))
      && (r.Found? ==> r.name in d1 && Decodables(Contents(d1)) == [r.item] + Decodables(Contents(d1 - {r.name})))
      && (r.Found? && stuck == {} ==> r.name == Least(d1.Keys))
      && (r.Empty? ==> Decodables(Contents(d)) == [])
      && (r.ReadError? ==> locked != {})
  {
    var names := Listing(d.Keys);
    PeekOkListing(d);
    ListingIsSorted(d.Keys);
    PeekFindsOldest(d, names, locked, stuck);
    var (d1, r) := Peek(d, names, locked, stuck);
    assert forall n :: n in d <==> n in names;
    DropCorrupt(d, d1);
    if r.Found? {
      RemoveFirst(d1, r.name);
      assert stuck == {} ==> forall n :: n in d1 ==> r.name <= n;
    } else if r.Empty? {
      DropCorrupt(d, map[]);
    }
  }

  lemma TurnInOrder<T>(d: Dir<T>, answered: bool, locked: set<nat>, stuck: set<nat>)
    ensures var (d1, item, more) := Turn(d, answered, locked, stuck);
      var all, left := Decodables(Contents(d)), Decodables(Contents(d1));
      && (more ==> answered && |item| == 1 && all == item + left)
      && (!more ==> left == all && item <= all && |item| <= 1)
      && (!more && item != [] ==> answered && stuck != {})
      && (!more && item == [] ==> !answered || locked != {} || all == [])
  {
    PeekSkipsCorrupt(d, locked, stuck);
    match Peek(d, Listing(d.Keys), locked, stuck).1
    case Found(_, _) =>
    case Empty =>
    case ReadError =>
  }

  ghost predicate Untroubled(x: Trouble) {
    forall k :: x.locked(k) == {} && x.stuck(k) == {}
  }

  ghost predicate NothingSticks(x: Trouble) {
    forall k :: x.stuck(k) == {}
  }

  /** Of the items `all`, those `posted` are a prefix and the rest is `left`: with the last
      one posted still in front of it, where files `stick`.  Where nothing is in the way,
      as many are posted as the server answers. */
  ghost predicate Replayed<T>(all: seq<T>, posted: seq<T>, left: seq<T>, answers: nat, sticks: bool, free: bool) {
    && posted <= all && |posted| <= answers
    && (left == all[|posted|..] || (sticks && posted != [] && left == all[|posted| - 1..]))
    && (free ==> |posted| == (if answers < |all| then answers else |all|) && left == all[|posted|..])
  }

  lemma ReplayedMore<T>(item: T, all: seq<T>, posted: seq<T>, left: seq<T>, answers: nat, sticks: bool, free: bool)
    requires Replayed(all, posted, left, answers, sticks, free)
    ensures Replayed([item] + all, [item] + posted, left, answers + 1, sticks, free)
  {
    assert ([item] + all)[|posted| + 1..] == all[|posted|..];
    assert posted != [] ==> ([item] + all)[|posted|..] == all[|posted| - 1..];
  }

  /** Whatever the trouble, the replay goes oldest-first and keeps what it did not post. */
  lemma {:induction false} FlushKeepsOrder<T>(d: Dir<T>, turn: nat, answers: nat, x: Trouble)
    ensures var (d1, posted) := Flushed(d, turn, answers, x);
      Replayed(Decodables(Contents(d)), posted, Decodables(Contents(d1)), answers, !NothingSticks(x), Untroubled(x))
    decreases answers
  {
    var all := Decodables(Contents(d));
    assert all[0..] == all;
    TurnInOrder(d, answers > 0, x.locked(turn), x.stuck(turn));
    var (d1, item, more) := Turn(d, answers > 0, x.locked(turn), x.stuck(turn));
    if more {
      var (d2, rest) := Flushed(d1, turn + 1, answers - 1, x);
      FlushKeepsOrder(d1, turn + 1, answers - 1, x);
      assert item == [item[0]];
      ReplayedMore(item[0], Decodables(Contents(d1)), rest, Decodables(Contents(d2)), answers - 1,
                   !NothingSticks(x), Untroubled(x));
    } else {
      LastTurn(all, item, Decodables(Contents(d1)), turn, answers, x);
    }
  }

  lemma LastTurn<T>(all: seq<T>, item: seq<T>, left: seq<T>, turn: nat, answers: nat, x: Trouble)
    requires left == all && item <= all && |item| <= 1
    requires item != [] ==> answers > 0 && x.stuck(turn) != {}
    requires item == [] ==> answers == 0 || x.locked(turn) != {} || all == []
    ensures Replayed(all, item, left, answers, !NothingSticks(x), Untroubled(x))
  {
    assert all[0..] == all;
  }

  // --- Whole runs -------------------------------------------------------------

  datatype Op<T> =
    | Put(item: T, evictable: bool, written: bool)
    | Look(locked: set<nat>, stuck: set<nat>)
    | Drop(path: nat)
    | Rot(path: nat)

  /** `put`: every item that reached the directory, by name.  `seen`: what `Peek` has
      returned, in order. */
  datatype State<T> = State(dir: Dir<T>, clock: nat, max: nat, put: map<nat, T>, seen: seq<(nat, T)>)

  function Apply<T>(s: State<T>, op: Op<T>): State<T> {
    match op
    case Put(item, evictable, written) =>
      s.(dir := Enqueued(s.dir, s.max, s.clock, item, evictable, written), clock := s.clock + 1,
         put := if written then s.put[s.clock := item] else s.put)
    case Look(locked, stuck) =>
      PeekOkListing(s.dir);
      var (d, r) := Peek(s.dir, Listing(s.dir.Keys), locked, stuck);
      s.(dir := d, seen := if r.Found? then s.seen + [(r.name, r.item)] else s.seen)
    case Drop(path) => s.(dir := s.dir - {path})
    case Rot(path) => if path in s.dir then s.(dir := s.dir[path := Corrupt]) else s
  }

  function Exec<T>(s: State<T>, ops: seq<Op<T>>): State<T>
    decreases |ops|
  {
    if ops == [] then s else Exec(Apply(s, ops[0]), ops[1..])
  }

  /** What was returned was put under its name, and the names never go back in time. */
  ghost predicate InOrder<T>(seen: seq<(nat, T)>, put: map<nat, T>) {
    && (forall i :: 0 <= i < |seen| ==> seen[i].0 in put && put[seen[i].0] == seen[i].1)
    && (forall i, j :: 0 <= i < j < |seen| ==> seen[i].0 <= seen[j].0)
  }

  ghost predicate Inv<T>(s: State<T>) {
    && s.max > 0
    && (forall n :: n in s.dir || n in s.put ==> n < s.clock)
    && (forall n :: n in s.dir && s.dir[n].Decodable? ==> n in s.put && s.put[n] == s.dir[n].item)
    && InOrder(s.seen, s.put)
    && (forall i, n :: 0 <= i < |s.seen| && n in s.dir && s.dir[n].Decodable? ==> s.seen[i].0 <= n)
  }

  /** Deleting files keeps the invariant. */
  lemma ShrinkKeepsInv<T>(s: State<T>, d: Dir<T>)
    requires Inv(s) && forall n :: n in d ==> n in s.dir && d[n] == s.dir[n]
    ensures Inv(s.(dir := d)) && |d| <= |s.dir|
  {
    SubsetNotLarger(d.Keys, s.dir.Keys);
    assert |d| == |d.Keys| && |s.dir| == |s.dir.Keys|;
  }

  /** So does returning an item no decodable file is older than. */
  lemma SeeKeepsInv<T>(s: State<T>, name: nat)
    requires Inv(s) && name in s.dir && s.dir[name].Decodable?
    requires forall n :: n in s.dir && s.dir[n].Decodable? ==> name <= n
    ensures Inv(s.(seen := s.seen + [(name, s.dir[name].item)]))
  {
    var r := s.(seen := s.seen + [(name, s.dir[name].item)]);
    assert forall i :: 0 <= i < |s.seen| ==> r.seen[i] == s.seen[i];
    assert r.seen[|s.seen|].0 == name;
  }

  lemma LookKeepsInv<T>(s: State<T>, locked: set<nat>, stuck: set<nat>)
    requires Inv(s)
    ensures Inv(Apply(s, Look(locked, stuck)))
    ensures |Apply(s, Look(locked, stuck)).dir| <= |s.dir|
  {
    var names := Listing(s.dir.Keys);
    PeekOkListing(s.dir);
    ListingIsSorted(s.dir.Keys);
    PeekFindsOldest(s.dir, names, locked, stuck);
    var (d, r) := Peek(s.dir, names, locked, stuck);
    ShrinkKeepsInv(s, d);
    if r.Found? {
      forall n | n in d && d[n].Decodable? ensures r.name <= n {
        assert n in names;
      }
      SeeKeepsInv(s.(dir := d), r.name);
    }
  }

  lemma {:induction false} SubsetNotLarger(a: set<nat>, b: set<nat>)
    requires a <= b
    ensures |a| <= |b|
  {
    if a == {} {
    } else {
      var x :| x in a;
      SubsetNotLarger(a - {x}, b - {x});
    }
  }

  /** The bounded queue: no failed eviction next to a successful write. */
  predicate Evicts<T>(op: Op<T>) {
    op.Put? ==> op.evictable || !op.written
  }

  lemma PutKeepsInv<T>(s: State<T>, item: T, evictable: bool, written: bool)
    requires Inv(s)
    ensures Inv(Apply(s, Put(item, evictable, written)))
    ensures (evictable || !written) && |s.dir| <= s.max ==>
      |Apply(s, Put(item, evictable, written)).dir| <= s.max
  {
    if |s.dir| <= s.max { DepthBound(s.dir, s.max, s.clock, item, evictable, written); }
    var d1 := if |s.dir| >= s.max && s.dir != map[] && evictable then s.dir - {Least(s.dir.Keys)} else s.dir;
    ShrinkKeepsInv(s, d1);
    WriteKeepsInv(s.(dir := d1), item, written);
  }

  lemma WriteKeepsInv<T>(s: State<T>, item: T, written: bool)
    requires Inv(s)
    ensures Inv(s.(dir := if written then s.dir[s.clock := Decodable(item)] else s.dir, clock := s.clock + 1,
                   put := if written then s.put[s.clock := item] else s.put))
  {
  }

  lemma RotKeepsInv<T>(s: State<T>, path: nat)
    requires Inv(s) && path in s.dir
    ensures Inv(s.(dir := s.dir[path := Corrupt])) && |s.dir[path := Corrupt]| == |s.dir|
  {
    var d := s.dir[path := Corrupt];
    assert d.Keys == s.dir.Keys;
    assert |d| == |d.Keys| && |s.dir| == |s.dir.Keys|;
  }

  lemma StepKeepsInv<T>(s: State<T>, op: Op<T>)
    requires Inv(s)
    ensures Inv(Apply(s, op))
    ensures Evicts(op) && |s.dir| <= s.max ==> |Apply(s, op).dir| <= s.max
  {
    match op
    case Look(locked, stuck) => LookKeepsInv(s, locked, stuck);
    case Put(item, evictable, written) => PutKeepsInv(s, item, evictable, written);
    case Drop(path) => ShrinkKeepsInv(s, s.dir - {path});
    case Rot(path) => if path in s.dir { RotKeepsInv(s, path); }
  }

  lemma {:induction false} RunKeepsInv<T>(s: State<T>, ops: seq<Op<T>>)
    requires Inv(s)
    ensures Inv(Exec(s, ops)) && Exec(s, ops).max == s.max
    decreases |ops|
  {
    if ops == [] {
    } else {
      StepKeepsInv(s, ops[0]);
      RunKeepsInv(Apply(s, ops[0]), ops[1..]);
    }
  }

  lemma {:induction false} RunKeepsDepth<T>(s: State<T>, ops: seq<Op<T>>)
    requires Inv(s) && |s.dir| <= s.max && forall op :: op in ops ==> Evicts(op)
    ensures |Exec(s, ops).dir| <= s.max
    decreases |ops|
  {
    if ops == [] {
    } else {
      assert Evicts(ops[0]);
      StepKeepsInv(s, ops[0]);
      RunKeepsDepth(Apply(s, ops[0]), ops[1..]);
    }
  }

  /** Replay order is enqueue order, over any mix of operations and corrupt, locked or
      undeletable files: every item returned is one put under its name, and the names
      never go back in time.  The depth stays within the bound once it is. */
  lemma ReplayOrderIsEnqueueOrder<T>(s: State<T>, ops: seq<Op<T>>)
    requires Inv(s)
    ensures InOrder(Exec(s, ops).seen, Exec(s, ops).put)
    ensures (forall op :: op in ops ==> Evicts(op)) && |s.dir| <= s.max ==> |Exec(s, ops).dir| <= s.max
  {
    RunKeepsInv(s, ops);
    if (forall op :: op in ops ==> Evicts(op)) && |s.dir| <= s.max {
      RunKeepsDepth(s, ops);
    }
  }

  /** One replay without trouble: a look, and the removal of what it returned. */
  function Replay<T>(s: State<T>): State<T> {
    var r := Apply(s, Look({}, {}));
    if |r.seen| <= |s.seen| then r else Apply(r, Drop(r.seen[|s.seen|].0))
  }

  function Drained<T>(s: State<T>, times: nat): State<T>
    decreases times
  {
    if times == 0 then s else Drained(Replay(s), times - 1)
  }

  function Items<T>(seen: seq<(nat, T)>): (r: seq<T>)
    ensures |r| == |seen|
  {
    seq(|seen|, (i: nat) requires i < |seen| => seen[i].1)
  }

  /** A replay takes exactly the oldest decodable item, and nothing from an empty queue. */
  lemma ReplayTakesTheHead<T>(s: State<T>)
    ensures var all, r := Decodables(Contents(s.dir)), Replay(s);
      && Items(r.seen) == Items(s.seen) + (if all == [] then [] else [all[0]])
      && Decodables(Contents(r.dir)) == (if all == [] then [] else all[1..])
  {
    PeekSkipsCorrupt(s.dir, {}, {});
    var all, r := Decodables(Contents(s.dir)), Replay(s);
    var (d, p) := Peek(s.dir, Listing(s.dir.Keys), {}, {});
    if p.Found? {
      assert r.dir == d - {p.name} && r.seen == s.seen + [(p.name, p.item)];
      assert all == [p.item] + Decodables(Contents(r.dir));
    }
  }

  /** Nothing is forgotten: replays without trouble return every decodable item, in the
      order of the queue, and leave none. */
  lemma {:induction false} EverythingComesBack<T>(s: State<T>, times: nat)
    requires times == |Decodables(Contents(s.dir))|
    ensures Items(Drained(s, times).seen) == Items(s.seen) + Decodables(Contents(s.dir))
    ensures Decodables(Contents(Drained(s, times).dir)) == []
    decreases times
  {
    ReplayTakesTheHead(s);
    if times > 0 {
      EverythingComesBack(Replay(s), times - 1);
    }
  }

  /** Only the file that rots is lost to the replay. */
  lemma RotSpoilsOneFile<T>(s: State<T>, path: nat)
    ensures var d := Apply(s, Rot(path)).dir;
      d.Keys == s.dir.Keys && forall n :: n in d ==> d[n] == if n == path then Corrupt else s.dir[n]
  {
  }
}
