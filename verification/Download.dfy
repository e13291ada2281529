/** Fetching a package file: one HTTP exchange against a partial local file, and the
    retry loop around it.

    Range requests and their answers follow RFC 9110: section 14.2 (Range), 15.3.7
    (206 Partial Content) and 15.5.17 (416 Range Not Satisfiable).  SHA-256 is an
    arbitrary function of the content; waits are in seconds. */
module Download {
  import opened Basics

  type Byte = bv8

  const DOWNLOAD_ATTEMPTS := 20
  const MAX_BACKOFF: nat := 300

  datatype Error = RetryLater(wait: nat) | Fatal

  // --- The local file ---------------------------------------------------------

  function Zeros(n: nat): seq<Byte> {
    seq(n, _ => 0)
  }

  /** Writing `chunk` at `pos`: bytes skipped over read as zero, bytes beyond stay. */
  function Written(bytes: seq<Byte>, pos: nat, chunk: seq<Byte>): seq<Byte> {
    var padded := if pos > |bytes| then bytes + Zeros(pos - |bytes|) else bytes;
    padded[..pos] + chunk + if pos + |chunk| < |padded| then padded[pos + |chunk|..] else []
  }

  /** Byte by byte: the chunk where it is written, what was there elsewhere, zero where
      nothing was. */
  lemma WrittenAt(bytes: seq<Byte>, pos: nat, chunk: seq<Byte>, i: nat)
    ensures var r := Written(bytes, pos, chunk);
      && |r| == (if pos + |chunk| > |bytes| then pos + |chunk| else |bytes|)
      && (i < |r| ==>
            r[i] == if pos <= i < pos + |chunk| then chunk[i - pos] else if i < |bytes| then bytes[i] else 0)
  {
  }

  class LocalFile {
    var present: bool
    var bytes: seq<Byte>
    var pos: nat

    constructor (present: bool, bytes: seq<Byte>)
      ensures this.present == present && this.bytes == bytes && pos == 0
    {
      this.present, this.bytes, pos := present, bytes, 0;
    }

    method Truncate()
      modifies this`bytes
      ensures bytes == []
    {
      bytes := [];
    }

    method Seek(to: nat)
      modifies this`pos
      ensures pos == to
    {
      pos := to;
    }

    method Write(chunk: seq<Byte>)
      modifies this`bytes, this`pos
      ensures bytes == Written(old(bytes), old(pos), chunk) && pos == old(pos) + |chunk|
    {
      bytes := Written(bytes, pos, chunk);
      pos := pos + |chunk|;
    }
  }

  // --- One exchange -----------------------------------------------------------

  /** `cut`: the transfer broke after `body`.  `retryAfter`: the header, when it is a
      number. */
  datatype Response = NoAnswer | Answer(status: nat, retryAfter: Option<int>, body: seq<Byte>, cut: bool)

  function Copied(bytes: seq<Byte>, pos: nat, r: Response): (seq<Byte>, Option<Error>)
    requires r.Answer?
  {
    (Written(bytes, pos, r.body), if r.cut then Some(RetryLater(0)) else None)
  }

  /** Starting the file over: done, or its truncation or its seek fails.  A write that
      fails is a transfer that breaks. */
  datatype Restart = Restarted | NotEmptied | NotRewound

  /** The file and the error after one exchange for the bytes from `offset` on, the file
      being positioned there. */
  function Fetched(bytes: seq<Byte>, offset: nat, r: Response, over: Restart): (seq<Byte>, Option<Error>) {
    if r.NoAnswer? then (bytes, Some(RetryLater(0)))
    else if r.status == 200 then
      if offset > 0 && over.NotEmptied? then (bytes, Some(Fatal))
      else if offset > 0 && over.NotRewound? then ([], Some(Fatal))
      else if offset > 0 then Copied([], 0, r)
      else Copied(bytes, 0, r)
    else if r.status == 206 && offset > 0 then Copied(bytes, offset, r)
    else if r.status == 416 && over.NotEmptied? then (bytes, Some(Fatal))
    else if r.status == 416 then ([], Some(RetryLater(1)))
    else if r.status == 429 || r.status >= 500 then
      (bytes, Some(RetryLater(if r.retryAfter.Some? && r.retryAfter.value > 0 then r.retryAfter.value else 60)))
    else (bytes, Some(Fatal))
  }

  method FetchPackageFile(f: LocalFile, offset: nat, r: Response, over: Restart) returns (err: Option<Error>)
    requires f.pos == offset
    modifies f`bytes, f`pos
    ensures (f.bytes, err) == Fetched(old(f.bytes), offset, r, over)
  {
    if r.NoAnswer? {
      return Some(RetryLater(0));
    }
    if r.status == 200 {
      if offset > 0 {
        if over.NotEmptied? {
          return Some(Fatal);
        }
        f.Truncate();
        if over.NotRewound? {
          return Some(Fatal);
        }
        f.Seek(0);
      }
    } else if r.status == 206 && offset > 0 {
    } else if r.status == 416 {
      if over.NotEmptied? {
        return Some(Fatal);
      }
      f.Truncate();
      return Some(RetryLater(1));
    } else if r.status == 429 || r.status >= 500 {
      var wait := 60;
      if r.retryAfter.Some? && r.retryAfter.value > 0 {
        wait := r.retryAfter.value;
      }
      return Some(RetryLater(wait));
    } else {
      return Some(Fatal);
    }
    f.Write(r.body);
    if r.cut {
      return Some(RetryLater(0));
    }
    err := None;
  }

  /** The answers that carry bytes of the file: a full one, or the rest of a file part of
      which is there. */
  predicate Carries(r: Response, offset: nat) {
    r.Answer? && (r.status == 200 || (r.status == 206 && offset > 0))
  }

  /** The local file refuses to be started over where it must be. */
  predicate Refuses(r: Response, offset: nat, over: Restart)
    requires r.Answer?
  {
    || (r.status == 200 && offset > 0 && over != Restarted)
    || (r.status == 416 && over == NotEmptied)
  }

  /** Which outcome an exchange has, from the response alone.  It is worth another attempt
      after no answer, a broken transfer, a refused range, and a busy or failing server,
      whose delay is honoured; it is not when the local file fails or the server says
      anything else. */
  lemma OutcomeOfExchange(bytes: seq<Byte>, offset: nat, r: Response, over: Restart)
    ensures var err := Fetched(bytes, offset, r, over).1;
      && (r.NoAnswer? ==> err == Some(RetryLater(0)))
      && (r.Answer? && Refuses(r, offset, over) ==> err == Some(Fatal))
      && (Carries(r, offset) && !Refuses(r, offset, over) ==> err == if r.cut then Some(RetryLater(0)) else None)
      && (r.Answer? && r.status == 416 && !Refuses(r, offset, over) ==> err == Some(RetryLater(1)))
      && (r.Answer? && (r.status == 429 || r.status >= 500) ==>
            err == Some(RetryLater(match r.retryAfter case Some(n) => if n > 0 then n else 60 case None => 60)))
      && (r.Answer? && !Carries(r, offset) && r.status != 416 && r.status != 429 && r.status < 500 ==>
            err == Some(Fatal))
  {
  }

  // --- The retry loop ---------------------------------------------------------

  /** What the fetcher of attempt `n` does to a file of which `offset` bytes are kept. */
  type Fetcher = (nat, seq<Byte>, nat) -> (seq<Byte>, Option<Error>)

  /** What of the local file fails during an attempt: the open, the first `Stat`, the
      truncation of a file too long, the seek, the `Stat` after the transfer. */
  datatype Disk = Works | NotOpened | NotSized | NotTruncated | NotPositioned | NotMeasured

  /** `fetchOnce`: the file, the error, and whether the fetcher was called. */
  function Once(fetch: Fetcher, disk: Disk, n: nat, bytes: seq<Byte>, size: nat): (seq<Byte>, Option<Error>, nat) {
    if disk.NotOpened? || disk.NotSized? || (|bytes| > size && disk.NotTruncated?) then (bytes, Some(Fatal), 0)
    else
      var kept := if |bytes| > size then [] else bytes;
      if |kept| == size then (kept, None, 0)
      else if disk.NotPositioned? then (kept, Some(Fatal), 0)
      else
        var (got, err) := fetch(n, kept, |kept|);
        if err.Some? then (got, err, 1)
        else if disk.NotMeasured? then (got, Some(Fatal), 1)
        else if |got| != size then (got, Some(RetryLater(0)), 1)
        else (got, None, 1)
  }

  datatype Outcome = Outcome(bytes: seq<Byte>, err: Option<Error>, fetches: nat, waits: seq<nat>)

  /** `rest`, once `fetches` calls and `waits` have gone before it. */
  function After(fetches: nat, waits: seq<nat>, rest: Outcome): Outcome {
    Outcome(rest.bytes, rest.err, fetches + rest.fetches, waits + rest.waits)
  }

  lemma AfterAfter(f: nat, w: seq<nat>, g: nat, v: seq<nat>, rest: Outcome)
    ensures After(f, w, After(g, v, rest)) == After(f + g, w + v, rest)
  {
    assert w + (v + rest.waits) == w + v + rest.waits;
  }

  function Backoff(b: nat): nat {
    if 2 * b > MAX_BACKOFF then MAX_BACKOFF else 2 * b
  }

  /** A download in its surroundings: what each attempt finds, and whether the k-th sleep
      runs its time, which the two-hour budget may cut short. */
  datatype Task = Task(fetch: Fetcher, disks: nat -> Disk, awake: nat -> bool, size: nat) {
    function Attempt(n: nat, bytes: seq<Byte>): (seq<Byte>, Option<Error>, nat) {
      Once(fetch, disks(n), n, bytes, size)
    }
  }

  /** The wait after an attempt that asks for `asked`, and the backoff from then on. */
  function Pause(asked: nat, backoff: nat): (nat, nat) {
    if asked > 0 then (asked, backoff) else (backoff, Backoff(backoff))
  }

  /** The loop of `Download` from attempt `n` on.  (`|bytes|` in the measure keeps the
      verifier from unrolling a call with a literal attempt.) */
  function Attempts(t: Task, n: nat, bytes: seq<Byte>, backoff: nat): Outcome
    requires 1 <= n <= DOWNLOAD_ATTEMPTS
    decreases DOWNLOAD_ATTEMPTS - n, |bytes|
  {
    var (got, err, calls) := t.Attempt(n, bytes);
    if err.None? || err.value.Fatal? || n >= DOWNLOAD_ATTEMPTS then Outcome(got, err, calls, [])
    else
      var (wait, next) := Pause(err.value.wait, backoff);
      if !t.awake(n) then Outcome(got, Some(Fatal), calls, [wait])
      else After(calls, [wait], Attempts(t, n + 1, got, next))
  }

  function HashMatches(present: bool, bytes: seq<Byte>, size: nat, hash: string, sha: seq<Byte> -> string): bool {
    present && |bytes| == size && sha(bytes) == hash
  }

  /** An attempt that is worth another one. */
  predicate GoesOn(t: Task, n: nat, bytes: seq<Byte>) {
    t.Attempt(n, bytes).1.Some? && !t.Attempt(n, bytes).1.value.Fatal? && n < DOWNLOAD_ATTEMPTS && t.awake(n)
  }

  /** The last attempt, and the sleep that is interrupted after it, if one is. */
  function LastAttempt(t: Task, n: nat, bytes: seq<Byte>, backoff: nat): Outcome {
    var (got, err, calls) := t.Attempt(n, bytes);
    if err.None? || err.value.Fatal? || n >= DOWNLOAD_ATTEMPTS then Outcome(got, err, calls, [])
    else Outcome(got, Some(Fatal), calls, [Pause(err.value.wait, backoff).0])
  }

  lemma AttemptEnds(t: Task, n: nat, bytes: seq<Byte>, backoff: nat)
    requires 1 <= n <= DOWNLOAD_ATTEMPTS && !GoesOn(t, n, bytes)
    ensures Attempts(t, n, bytes, backoff) == LastAttempt(t, n, bytes, backoff)
  {
  }

  /** One turn of the loop: the outcome, or the attempt, bytes and backoff to go on with. */
  datatype Turn = Done(run: Outcome) | Again(have: seq<Byte>, backoff: nat, fetches: nat, waits: seq<nat>)

  method FetchTurn(t: Task, n: nat, bytes: seq<Byte>, backoff: nat, f: nat, w: seq<nat>) returns (next: Turn)
    requires 1 <= n <= DOWNLOAD_ATTEMPTS && f < n
    ensures next.Done? ==> next.run == After(f, w, Attempts(t, n, bytes, backoff)) && next.run.fetches <= f + 1
    ensures next.Again? ==> n < DOWNLOAD_ATTEMPTS && next.fetches <= f + 1
    ensures next.Again? ==>
      After(f, w, Attempts(t, n, bytes, backoff))
      == After(next.fetches, next.waits, Attempts(t, n + 1, next.have, next.backoff))
  {
    var (got, err, calls) := t.Attempt(n, bytes);
    if err.None? || err.value.Fatal? || n >= DOWNLOAD_ATTEMPTS {
      AttemptEnds(t, n, bytes, backoff);
      return Done(Outcome(got, err, f + calls, w + []));
    }
    var wait := err.value.wait;
    var later := backoff;
    if wait == 0 {
      wait := backoff;
      later := Backoff(backoff);
    }
    if !t.awake(n) {
      AttemptEnds(t, n, bytes, backoff);
      return Done(Outcome(got, Some(Fatal), f + calls, w + [wait]));
    }
    AfterAfter(f, w, calls, [wait], Attempts(t, n + 1, got, later));
    next := Again(got, later, f + calls, w + [wait]);
  }

  /** The loop of `Download`. */
  method FetchLoop(t: Task, bytes: seq<Byte>) returns (run: Outcome)
    ensures run == Attempts(t, 1, bytes, 5)
    ensures run.fetches <= 20
  {
    var have := bytes;
    var fetches: nat, waits: seq<nat> := 0, [];
    var backoff := 5;
    var attempt := 1;
    ghost var whole := Attempts(t, 1, bytes, 5);
    while true
      invariant 1 <= attempt <= DOWNLOAD_ATTEMPTS && fetches < attempt
      invariant whole == After(fetches, waits, Attempts(t, attempt, have, backoff))
      decreases DOWNLOAD_ATTEMPTS - attempt
    {
      var next := FetchTurn(t, attempt, have, backoff, fetches, waits);
      if next.Done? {
        return next.run;
      }
      have, backoff, fetches, waits := next.have, next.backoff, next.fetches, next.waits;
      attempt := attempt + 1;
    }
  }

  /** How the file reads when its hash is taken: `Unopened` also stands for a `Stat` that
      fails, `Broken` for a read that does. */
  datatype Reading = Sound | Unopened | Broken

  /** The two times the hash is taken, and whether a file whose hash differs can be
      deleted. */
  datatype Checks = Checks(before: Reading, after: Reading, removable: bool)

  method Download(t: Task, c: Checks, f: LocalFile, hash: string, sha: seq<Byte> -> string)
    returns (ok: bool, fetches: nat)
    modifies f
    ensures fetches <= 20
    ensures ok ==> f.present && |f.bytes| == t.size && sha(f.bytes) == hash
    ensures old(f.present && |f.bytes| == t.size && sha(f.bytes) == hash) && c.before.Sound? ==>
      ok && fetches == 0 && f.bytes == old(f.bytes)
    ensures !(old(f.present && |f.bytes| == t.size && sha(f.bytes) == hash) && c.before.Sound?) ==>
      var run := Attempts(t, 1, if old(f.present) then old(f.bytes) else [], 5);
      && fetches == run.fetches && f.bytes == run.bytes
      && ok == (run.err.None? && |run.bytes| == t.size && sha(run.bytes) == hash && c.after.Sound?)
      && (run.err.Some? ==> f.present == (old(f.present) || !t.disks(1).NotOpened?))
      && (run.err.None? ==> f.present == (ok || !c.removable || (|run.bytes| == t.size && c.after.Broken?)))
  {
    if HashMatches(f.present, f.bytes, t.size, hash, sha) && c.before.Sound? {
      return true, 0;
    }
    var run := FetchLoop(t, if f.present then f.bytes else []);
    f.present, f.bytes, fetches := f.present || !t.disks(1).NotOpened?, run.bytes, run.fetches;
    if run.err.Some? {
      return false, fetches;
    }
    if |f.bytes| == t.size && c.after.Broken? {
      return false, fetches;
    }
    ok := HashMatches(true, f.bytes, t.size, hash, sha) && c.after.Sound?;
    if !ok && c.removable {
      f.present := false;
    }
  }

  // --- Against an honest server -----------------------------------------------

  /** What an honest server of `truth` sends: with 200 the whole file, with 206 the range
      asked for, less what a broken transfer loses. */
  predicate Honest(truth: seq<Byte>, offset: nat, r: Response) {
    r.Answer? ==>
      && (r.status == 200 ==> r.body <= truth && (!r.cut ==> r.body == truth))
      && (r.status == 206 ==> offset <= |truth| && r.body <= truth[offset..] && (!r.cut ==> r.body == truth[offset..]))
  }

  /** One exchange with an honest server keeps a prefix a prefix, and a transfer that
      ends without error leaves the whole file. */
  lemma ExchangeKeepsPrefix(truth: seq<Byte>, bytes: seq<Byte>, r: Response, over: Restart)
    requires bytes <= truth && Honest(truth, |bytes|, r)
    ensures Fetched(bytes, |bytes|, r, over).0 <= truth
    ensures Fetched(bytes, |bytes|, r, over).1.None? ==> Fetched(bytes, |bytes|, r, over).0 == truth
  {
    if r.Answer? && r.status == 206 && bytes != [] {
      assert Written(bytes, |bytes|, r.body) == bytes + r.body;
      assert truth == bytes + truth[|bytes|..];
    } else if r.Answer? && r.status == 200 {
      assert Written([], 0, r.body) == r.body;
    }
  }

  /** The file to fetch, the server's answers, and how starting over goes. */
  datatype Source = Source(truth: seq<Byte>, server: (nat, nat) -> Response, over: nat -> Restart)

  /** A fetcher that goes through `FetchPackageFile` to the answers of the server. */
  function Through(x: Source): Fetcher {
    (n: nat, bytes: seq<Byte>, offset: nat) => Fetched(bytes, offset, x.server(n, offset), x.over(n))
  }

  ghost predicate HonestSource(x: Source) {
    forall n, offset :: Honest(x.truth, offset, x.server(n, offset))
  }

  /** The download `t` is of the file of `x`, with the size announced. */
  ghost predicate Fetches(t: Task, x: Source) {
    t.fetch == Through(x) && t.size == |x.truth| && HonestSource(x)
  }

  /** One attempt keeps a prefix a prefix, and without error leaves the whole file. */
  lemma AttemptKeepsPrefix(t: Task, x: Source, n: nat, bytes: seq<Byte>)
    requires Fetches(t, x) && bytes <= x.truth
    ensures t.Attempt(n, bytes).0 <= x.truth
    ensures t.Attempt(n, bytes).1.None? ==> t.Attempt(n, bytes).0 == x.truth
  {
    if |bytes| < |x.truth| {
      var r := x.server(n, |bytes|);
      assert Honest(x.truth, |bytes|, r);
      ExchangeKeepsPrefix(x.truth, bytes, r, x.over(n));
    }
  }

  /** Whatever mix of 200, 206, 416, 429, errors and cut transfers: a partial file that
      starts as a prefix of the true content stays one after every attempt, a run that
      ends without error ends with the true content, and the hash check cannot fail. */
  lemma {:induction false} HonestRunKeepsPrefix(t: Task, x: Source, n: nat, bytes: seq<Byte>, backoff: nat)
    requires 1 <= n <= DOWNLOAD_ATTEMPTS && bytes <= x.truth && Fetches(t, x)
    ensures var run := Attempts(t, n, bytes, backoff);
      run.bytes <= x.truth && (run.err.None? ==> run.bytes == x.truth)
    decreases DOWNLOAD_ATTEMPTS - n
  {
    AttemptKeepsPrefix(t, x, n, bytes);
    if GoesOn(t, n, bytes) {
      var (got, err, _) := t.Attempt(n, bytes);
      HonestRunKeepsPrefix(t, x, n + 1, got, Pause(err.value.wait, backoff).1);
    } else {
      AttemptEnds(t, n, bytes, backoff);
    }
  }

  /** An honest answer that is neither refused nor cut finishes the download in that
      attempt, from any prefix and whatever the attempts before it did. */
  lemma WholeAnswerFinishes(t: Task, x: Source, n: nat, bytes: seq<Byte>)
    requires Fetches(t, x) && bytes <= x.truth && t.disks(n).Works? && x.over(n).Restarted?
    requires var r := x.server(n, |bytes|); r.Answer? && !r.cut && (r.status == 200 || (r.status == 206 && bytes != []))
    ensures t.Attempt(n, bytes).0 == x.truth && t.Attempt(n, bytes).1.None?
  {
    AttemptKeepsPrefix(t, x, n, bytes);
    if |bytes| < |x.truth| {
      var r := x.server(n, |bytes|);
      assert Honest(x.truth, |bytes|, r);
      ExchangeKeepsPrefix(x.truth, bytes, r, x.over(n));
    }
  }

  /** What an attempt has, it keeps, unless the server sends the whole file anew or denies
      that the range exists. */
  lemma ProgressIsKept(t: Task, x: Source, n: nat, bytes: seq<Byte>)
    requires Fetches(t, x) && bytes <= x.truth
    requires var r := x.server(n, |bytes|); r.Answer? ==> r.status != 200 && r.status != 416
    ensures bytes <= t.Attempt(n, bytes).0
    ensures var r := x.server(n, |bytes|);
      t.disks(n).Works? && bytes != [] && |bytes| < |x.truth| && r.Answer? && r.status == 206 ==>
        t.Attempt(n, bytes).0 == bytes + r.body
  {
    AttemptKeepsPrefix(t, x, n, bytes);
    if |bytes| < |x.truth| {
      var r := x.server(n, |bytes|);
      assert Honest(x.truth, |bytes|, r);
      assert r.Answer? && bytes != [] ==> Written(bytes, |bytes|, r.body) == bytes + r.body;
    }
  }

  /** An answer that is worth waiting for the next one: none, a broken transfer, a refused
      range, a busy or failing server, or the file itself. */
  predicate Passing(r: Response, offset: nat) {
    r.Answer? ==> Carries(r, offset) || r.status == 416 || r.status == 429 || r.status >= 500
  }

  /** The disk works and every sleep runs its time. */
  ghost predicate Undisturbed(t: Task, x: Source) {
    forall k :: t.disks(k) == Works && t.awake(k) && x.over(k) == Restarted
  }

  /** The resumption law: any honest mix of such answers, and then one whole answer within
      the twenty attempts, ends without error and with the true content, from whatever
      prefix the download starts. */
  lemma {:induction false} DownloadGetsThrough(t: Task, x: Source, n: nat, m: nat, bytes: seq<Byte>, backoff: nat)
    requires 1 <= n <= m <= 20 && bytes <= x.truth && Fetches(t, x) && Undisturbed(t, x)
    requires forall k, offset :: n <= k < m ==> Passing(x.server(k, offset), offset)
    requires forall offset :: Carries(x.server(m, offset), offset) && !x.server(m, offset).cut
    ensures var run := Attempts(t, n, bytes, backoff);
      run.err == None && run.bytes == x.truth
    decreases m - n
  {
    var (got, err, _) := t.Attempt(n, bytes);
    assert t.disks(n) == Works && t.awake(n) && x.over(n) == Restarted;
    AttemptKeepsPrefix(t, x, n, bytes);
    OutcomeOfExchange(bytes, |bytes|, x.server(n, |bytes|), Restarted);
    if n == m {
      WholeAnswerFinishes(t, x, n, bytes);
    } else if err.Some? {
      assert Passing(x.server(n, |bytes|), |bytes|);
      DownloadGetsThrough(t, x, n + 1, m, got, Pause(err.value.wait, backoff).1);
    }
  }

  /** The fetcher asked for this very wait on some call. */
  ghost predicate Asked(fetch: Fetcher, wait: nat) {
    exists n, bytes, offset :: fetch(n, bytes, offset).1 == Some(RetryLater(wait))
  }

  /** With any fetcher at all: at most one fetch an attempt; a wait between any two of
      them, and after every attempt but the last when the attempts run out; and no wait is
      zero, or longer than five minutes without having been asked for. */
  lemma {:induction false} RetriesAreBounded(t: Task, n: nat, bytes: seq<Byte>, backoff: nat)
    requires 1 <= n <= DOWNLOAD_ATTEMPTS && 0 < backoff <= MAX_BACKOFF
    ensures var run := Attempts(t, n, bytes, backoff);
      && run.fetches <= DOWNLOAD_ATTEMPTS + 1 - n
      && run.fetches <= |run.waits| + 1 <= DOWNLOAD_ATTEMPTS + 1 - n
      && (run.err.Some? && run.err.value.RetryLater? ==> |run.waits| == DOWNLOAD_ATTEMPTS - n)
      && (forall i :: 0 <= i < |run.waits| ==>
            0 < run.waits[i] && (run.waits[i] <= MAX_BACKOFF || Asked(t.fetch, run.waits[i])))
      && (run.err.None? ==> |run.bytes| == t.size)
    decreases DOWNLOAD_ATTEMPTS - n
  {
    WaitIsSensible(t, n, bytes, backoff);
    if GoesOn(t, n, bytes) {
      var (got, err, _) := t.Attempt(n, bytes);
      RetriesAreBounded(t, n + 1, got, Pause(err.value.wait, backoff).1);
    } else {
      AttemptEnds(t, n, bytes, backoff);
    }
  }

  function Doubled(backoff: nat, times: nat): nat {
    if times == 0 then backoff else 2 * Doubled(backoff, times - 1)
  }

  lemma {:induction false} DoubledShift(backoff: nat, times: nat)
    ensures Doubled(2 * backoff, times) == Doubled(backoff, times + 1)
    ensures Doubled(backoff, times) >= backoff
  {
    if times == 0 {
    } else {
      DoubledShift(backoff, times - 1);
    }
  }

  /** Every exchange breaks before the file is whole, and nothing else goes wrong. */
  ghost predicate Stalls(t: Task) {
    forall i: nat, b: seq<Byte> :: |b| < t.size ==>
      && t.awake(i) && t.disks(i) == Works
      && t.fetch(i, b, |b|).1 == Some(RetryLater(0)) && |t.fetch(i, b, |b|).0| < t.size
  }

  /** Where nothing is asked for, the waits double up to five minutes: the k-th of a
      download that stalls is that many doublings, or 300. */
  lemma {:induction false} WaitsDouble(t: Task, n: nat, bytes: seq<Byte>, backoff: nat, k: nat)
    requires 1 <= n <= DOWNLOAD_ATTEMPTS && 0 < backoff <= 300 && |bytes| < t.size && Stalls(t)
    ensures |Attempts(t, n, bytes, backoff).waits| == 20 - n
    ensures k < 20 - n ==>
      Attempts(t, n, bytes, backoff).waits[k] == if Doubled(backoff, k) > 300 then 300 else Doubled(backoff, k)
    decreases DOWNLOAD_ATTEMPTS - n
  {
    var got := t.fetch(n, bytes, |bytes|).0;
    assert t.Attempt(n, bytes) == (got, Some(RetryLater(0)), 1);
    if n == DOWNLOAD_ATTEMPTS {
    } else {
      var next := Backoff(backoff);
      WaitsDouble(t, n + 1, got, next, if k == 0 then 0 else k - 1);
      if k > 0 {
        DoubledShift(backoff, k - 1);
        DoubledShift(300, k - 1);
      }
    }
  }

  /** A delay the server asks for is the one waited, and does not count as a doubling. */
  lemma AskedIsHonoured(t: Task, n: nat, bytes: seq<Byte>, backoff: nat, asked: nat)
    requires 1 <= n < DOWNLOAD_ATTEMPTS && asked > 0 && t.Attempt(n, bytes).1 == Some(RetryLater(asked)) && t.awake(n)
    ensures var rest := Attempts(t, n + 1, t.Attempt(n, bytes).0, backoff);
      Attempts(t, n, bytes, backoff).waits == [asked] + rest.waits
  {
  }

  lemma WaitIsSensible(t: Task, n: nat, bytes: seq<Byte>, backoff: nat)
    requires 0 < backoff <= MAX_BACKOFF
    ensures var err := t.Attempt(n, bytes).1;
      err.Some? && err.value.RetryLater? ==>
        var (wait, next) := Pause(err.value.wait, backoff);
        0 < next <= MAX_BACKOFF && 0 < wait && (wait <= MAX_BACKOFF || Asked(t.fetch, wait))
  {
    var kept := if |bytes| > t.size then [] else bytes;
    var err := t.Attempt(n, bytes).1;
    if err.Some? && err.value.RetryLater? && err.value.wait > 0 {
      assert t.fetch(n, kept, |kept|).1 == Some(RetryLater(err.value.wait));
    }
  }
}
