/** The worker's calendar: when a job is due, how a settings change re-aims the two
    mail jobs, and why no period is served twice.

    Instants are microseconds since Monday 0001-01-01 00:00 UTC, the origin of Python's
    `datetime`, so that days and ISO weeks are quotients. */
module Scheduler {
  import opened Basics

  type Instant = nat

  const HOUR: nat := 3_600_000_000
  const DAY: nat := 86_400_000_000
  const WEEK: nat := 604_800_000_000

  // --- The schedules ----------------------------------------------------------

  datatype Schedule = Every(step: nat) | Daily(hour: nat) | Weekly(weekday: nat, hour: nat)

  predicate Proper(sch: Schedule) {
    match sch
    case Every(_) => true
    case Daily(h) => h < 24
    case Weekly(d, h) => d < 7 && h < 24
  }

  /** `now.replace(hour=hour, minute=0, second=0, microsecond=0)`. */
  function AtHour(now: Instant, hour: nat): Instant {
    now - now % DAY + hour * HOUR
  }

  function Weekday(t: Instant): nat {
    t / DAY % 7
  }

  function DailyAt(hour: nat, now: Instant): Instant {
    var candidate := AtHour(now, hour);
    if candidate <= now then candidate + DAY else candidate
  }

  function WeeklyAt(weekday: nat, hour: nat, now: Instant): Instant {
    var candidate := AtHour(now, hour);
    var ahead := (weekday - Weekday(candidate)) % 7;
    var aimed := candidate + ahead * DAY;
    if aimed <= now then aimed + 7 * DAY else aimed
  }

  function Next(sch: Schedule, now: Instant): Instant {
    match sch
    case Every(step) => now + step
    case Daily(h) => DailyAt(h, now)
    case Weekly(d, h) => WeeklyAt(d, h, now)
  }

  /** The instants a mail schedule can aim for. */
  predicate Aligned(t: Instant, sch: Schedule) {
    match sch
    case Every(_) => true
    case Daily(h) => t % DAY == h * HOUR
    case Weekly(d, h) => t % WEEK == d * DAY + h * HOUR
  }

  /** The length of the period a mail schedule serves once. */
  function Length(sch: Schedule): nat {
    if sch.Weekly? then WEEK else DAY
  }

  lemma DayOfSum(t: Instant, h: nat)
    requires t % DAY == 0 && h < 24
    ensures (t + h * HOUR) / DAY == t / DAY && (t + h * HOUR) % DAY == h * HOUR
  {
  }

  lemma WeekOfSum(week: nat, d: nat, h: nat)
    requires d < 7 && h < 24
    ensures (week * WEEK + d * DAY + h * HOUR) % WEEK == d * DAY + h * HOUR
    ensures (week * WEEK + d * DAY + h * HOUR) / WEEK == week
  {
  }

  lemma WeeklyAligned(d: nat, h: nat, now: Instant)
    requires d < 7 && h < 24
    ensures WeeklyAt(d, h, now) % WEEK == d * DAY + h * HOUR
    ensures now < WeeklyAt(d, h, now) <= now + WEEK
  {
    var q := now / DAY;
    DayOfSum(q * DAY, h);
    var c := AtHour(now, h);
    assert c == q * DAY + h * HOUR && Weekday(c) == q % 7;
    var ahead := WeekdaysAhead(d, q % 7);
    var week := q / 7 + (if d >= q % 7 then 0 else 1);
    var aimed := c + ahead * DAY;
    assert aimed == week * WEEK + d * DAY + h * HOUR;
    WeekOfSum(week, d, h);
    WeekOfSum(week + 1, d, h);
    assert now < c + DAY;
  }

  lemma DailyAligned(h: nat, now: Instant)
    requires h < 24
    ensures DailyAt(h, now) % DAY == h * HOUR
    ensures now < DailyAt(h, now) <= now + DAY
  {
    DayOfSum(now - now % DAY, h);
    DaysApart(AtHour(now, h), AtHour(now, h) + DAY);
  }

  lemma WeekdaysAhead(d: nat, w: nat) returns (ahead: nat)
    requires d < 7 && w < 7
    ensures ahead == (d - w) % 7 == if d >= w then d - w else d - w + 7
  {
    ahead := (d - w) % 7;
  }

  lemma DaysApart(a: Instant, b: Instant)
    ensures a < b && a % DAY == b % DAY ==> a / DAY < b / DAY && a + DAY <= b
    ensures b == a + DAY ==> b % DAY == a % DAY && b / DAY == a / DAY + 1
  {
  }

  lemma WeeksApart(a: Instant, b: Instant)
    ensures a < b && a % WEEK == b % WEEK ==> a / WEEK < b / WEEK && a + WEEK <= b
    ensures b == a + WEEK ==> b % WEEK == a % WEEK && b / WEEK == a / WEEK + 1
  {
  }

  /** The next due instant of a mail schedule is the least aligned one strictly after
      `now`. */
  lemma NextIsLeastAligned(sch: Schedule, now: Instant)
    requires Proper(sch) && !sch.Every?
    ensures now < Next(sch, now) && Aligned(Next(sch, now), sch)
    ensures forall t: Instant :: now < t && Aligned(t, sch) ==> Next(sch, now) <= t
  {
    var next := Next(sch, now);
    if sch.Daily? {
      DailyAligned(sch.hour, now);
      forall t: Instant | now < t && Aligned(t, sch) ensures next <= t {
        DaysApart(t, next);
      }
    } else {
      WeeklyAligned(sch.weekday, sch.hour, now);
      forall t: Instant | now < t && Aligned(t, sch) ensures next <= t {
        WeeksApart(t, next);
      }
    }
  }

  /** From an aligned instant the schedule moves to a later period, and by exactly one
      period when it moves on time. */
  lemma NextFromAligned(sch: Schedule, due: Instant, now: Instant)
    requires Proper(sch) && !sch.Every? && Aligned(due, sch) && due <= now
    ensures Next(sch, now) / Length(sch) > due / Length(sch)
    ensures due == now ==> Next(sch, now) / Length(sch) == due / Length(sch) + 1
  {
    NextIsLeastAligned(sch, now);
    LaterAligned(sch, due, Next(sch, now));
    LaterAligned(sch, due, due + Length(sch));
    if due == now {
      assert Aligned(due + Length(sch), sch);
      assert Next(sch, now) <= due + Length(sch);
    }
  }

  lemma LaterAligned(sch: Schedule, due: Instant, later: Instant)
    requires !sch.Every? && Aligned(due, sch)
    ensures due < later && Aligned(later, sch) ==> due / Length(sch) < later / Length(sch)
    ensures later == due + Length(sch) ==> Aligned(later, sch) && later / Length(sch) == due / Length(sch) + 1
  {
    if sch.Daily? {
      DaysApart(due, later);
    } else {
      WeeksApart(due, later);
    }
  }

  // --- ISO weeks --------------------------------------------------------------

  /** Days before January 1st of year `y` in the proleptic Gregorian calendar. */
  function DaysBefore(y: nat): nat
    requires y >= 1
  {
    365 * (y - 1) + (y - 1) / 4 - (y - 1) / 100 + (y - 1) / 400
  }

  /** The Gregorian calendar: year 1 begins at the origin, and a year has 366 days when it
      is a leap year. */
  lemma YearLength(y: nat)
    requires y >= 1
    ensures DaysBefore(1) == 0
    ensures DaysBefore(y + 1) - DaysBefore(y) == if y % 4 == 0 && (y % 100 != 0 || y % 400 == 0) then 366 else 365
  {
    Quarters(y);
    Centuries(y);
    FourCenturies(y);
    CenturiesAreQuarters(y / 100);
    CenturiesAreQuarters(y / 400);
  }

  lemma Quarters(y: nat)
    requires y >= 1
    ensures y / 4 == (y - 1) / 4 + (if y % 4 == 0 then 1 else 0)
  {
  }

  lemma Centuries(y: nat)
    requires y >= 1
    ensures y / 100 == (y - 1) / 100 + (if y % 100 == 0 then 1 else 0)
  {
  }

  lemma FourCenturies(y: nat)
    requires y >= 1
    ensures y / 400 == (y - 1) / 400 + (if y % 400 == 0 then 1 else 0)
  {
  }

  lemma CenturiesAreQuarters(q: nat)
    ensures 100 * q % 4 == 0 && 400 * q % 100 == 0
  {
    assert 100 * q == 4 * (25 * q);
    assert 400 * q == 100 * (4 * q);
  }

  /** ISO 8601: a week belongs to the year of its Thursday and is numbered there. */
  predicate IsoCalendar(day: nat, year: nat, week: nat) {
    var thursday := day - day % 7 + 3;
    year >= 1 && DaysBefore(year) <= thursday < DaysBefore(year + 1) && week == (thursday - DaysBefore(year)) / 7 + 1
  }

  lemma {:induction false} YearsAscend(y: nat, z: nat)
    requires 1 <= y < z
    ensures DaysBefore(y + 1) <= DaysBefore(z)
    decreases z
  {
    if y + 1 < z {
      YearsAscend(y, z - 1);
    }
  }

  /** Comparing `isocalendar()[:2]` is comparing weeks counted from a Monday. */
  lemma SameIsoWeek(a: nat, ya: nat, wa: nat, b: nat, yb: nat, wb: nat)
    requires IsoCalendar(a, ya, wa) && IsoCalendar(b, yb, wb)
    ensures (ya, wa) == (yb, wb) <==> a / 7 == b / 7
  {
    if a / 7 == b / 7 {
      if ya < yb { YearsAscend(ya, yb); }
      if yb < ya { YearsAscend(yb, ya); }
    }
  }

  lemma {:induction false} YearOf(day: nat, from: nat) returns (y: nat)
    requires from >= 1 && DaysBefore(from) <= day
    ensures y >= 1 && DaysBefore(y) <= day < DaysBefore(y + 1)
    decreases day - DaysBefore(from)
  {
    if day < DaysBefore(from + 1) {
      y := from;
    } else {
      y := YearOf(day, from + 1);
    }
  }

  /** Every day has an ISO year and week. */
  lemma EveryDayHasAnIsoWeek(day: nat) returns (year: nat, week: nat)
    ensures IsoCalendar(day, year, week)
  {
    var thursday := day - day % 7 + 3;
    year := YearOf(thursday, 1);
    week := (thursday - DaysBefore(year)) / 7 + 1;
  }

  // --- Jobs -------------------------------------------------------------------

  datatype Policy = Policy(digestHour: nat, reminderWeekday: nat)

  predicate Valid(p: Policy) {
    p.digestHour < 24 && p.reminderWeekday < 7
  }

  const DIGEST := "daily_digest"
  const REMINDER := "maintenance_reminders"

  datatype JobState = JobState(
    name: string, schedule: Schedule, params: Option<seq<nat>>, nextRun: Instant, lastRun: Option<Instant>)

  /** The two jobs the console can re-aim. */
  function Wanted(name: string, p: Policy): Option<(seq<nat>, Schedule)> {
    if name == DIGEST then Some(([p.digestHour], Daily(p.digestHour)))
    else if name == REMINDER then Some(([p.reminderWeekday, p.digestHour], Weekly(p.reminderWeekday, p.digestHour)))
    else None
  }

  /** Whether a settings change re-aims the job: its hour or its day moved. */
  predicate Moves(name: string, params: Option<seq<nat>>, p: Policy) {
    Wanted(name, p).Some? && params != Some(Wanted(name, p).value.0)
  }

  predicate SamePeriod(name: string, a: Instant, b: Instant) {
    if name == REMINDER then a / WEEK == b / WEEK else a / DAY == b / DAY
  }

  function Reaimed(j: JobState, p: Policy, now: Instant): JobState {
    var w := Wanted(j.name, p);
    if w.None? || j.params == Some(w.value.0) then j
    else
      var sch := w.value.1;
      var first := Next(sch, now);
      var next := if j.lastRun.Some? && SamePeriod(j.name, j.lastRun.value, first) then Next(sch, first) else first;
      j.(params := Some(w.value.0), schedule := sch, nextRun := next)
  }

  function Ran(j: JobState, now: Instant): JobState {
    if j.nextRun > now then j else j.(nextRun := Next(j.schedule, now), lastRun := Some(now))
  }

  class Job {
    const name: string
    var schedule: Schedule
    var params: Option<seq<nat>>
    var nextRun: Instant
    var lastRun: Option<Instant>

    constructor (name: string, schedule: Schedule, params: Option<seq<nat>>, now: Instant)
      ensures View() == JobState(name, schedule, params, if schedule.Every? then now else Next(schedule, now), None)
    {
      this.name, this.schedule, this.params := name, schedule, params;
      nextRun := if schedule.Every? then now else Next(schedule, now);
      lastRun := None;
    }

    function View(): JobState
      reads this
    {
      JobState(name, schedule, params, nextRun, lastRun)
    }
  }

  predicate Distinct(jobs: seq<Job>) {
    forall i, j :: 0 <= i < j < |jobs| ==> jobs[i] != jobs[j]
  }

  /** What the settings ask of a mail job: every slot at the hour set, on the day set. */
  predicate AsAsked(j: JobState, p: Policy) {
    if j.name == DIGEST then
      && j.schedule == Daily(p.digestHour) && j.params == Some([p.digestHour])
      && j.nextRun % DAY == p.digestHour * HOUR
    else
      && j.name == REMINDER
      && j.schedule == Weekly(p.reminderWeekday, p.digestHour) && j.params == Some([p.reminderWeekday, p.digestHour])
      && j.nextRun % WEEK == p.reminderWeekday * DAY + p.digestHour * HOUR
  }

  /** A settings change re-aims the digest exactly when the hour moved, the reminder
      exactly when the hour or the weekday did, and nothing else ever; and it aims at a
      slot the settings ask for, in the future. */
  lemma ReaimedAsAsked(j: JobState, p: Policy, now: Instant)
    requires p.digestHour < 24 && p.reminderWeekday < 7
    ensures var r := Reaimed(j, p, now);
      && r.name == j.name && r.lastRun == j.lastRun
      && (j.name == DIGEST && j.params != Some([p.digestHour]) ==> AsAsked(r, p) && now < r.nextRun)
      && (j.name == DIGEST && j.params == Some([p.digestHour]) ==> r == j)
      && (j.name == REMINDER && j.params != Some([p.reminderWeekday, p.digestHour]) ==>
            AsAsked(r, p) && now < r.nextRun)
      && (j.name == REMINDER && j.params == Some([p.reminderWeekday, p.digestHour]) ==> r == j)
      && (j.name != DIGEST && j.name != REMINDER ==> r == j)
  {
    if j.name == DIGEST {
      NextIsLeastAligned(Daily(p.digestHour), now);
      NextIsLeastAligned(Daily(p.digestHour), Next(Daily(p.digestHour), now));
    } else if j.name == REMINDER {
      var sch := Weekly(p.reminderWeekday, p.digestHour);
      NextIsLeastAligned(sch, now);
      NextIsLeastAligned(sch, Next(sch, now));
    }
  }

  /** No slot is passed over but those of the period already served: the re-aimed instant
      is the first slot after `now` outside the period of the last run. */
  lemma ReaimedIsFirstAllowed(j: JobState, p: Policy, now: Instant, t: Instant)
    requires Valid(p) && (j.name == DIGEST || j.name == REMINDER) && Moves(j.name, j.params, p)
    requires j.lastRun.Some? ==> j.lastRun.value <= now
    requires now < t && Aligned(t, Reaimed(j, p, now).schedule)
    requires j.lastRun.Some? ==> Period(j.name, t) != Period(j.name, j.lastRun.value)
    ensures Reaimed(j, p, now).nextRun <= t
  {
    var sch := Wanted(j.name, p).value.1;
    var first := Next(sch, now);
    NextIsLeastAligned(sch, now);
    NextIsLeastAligned(sch, first);
  }

  /** A run aims its job at the very next slot. */
  lemma RanAimsAtTheNextSlot(j: JobState, now: Instant, t: Instant)
    requires Proper(j.schedule) && !j.schedule.Every? && j.nextRun <= now
    ensures Ran(j, now).lastRun == Some(now)
    ensures now < Ran(j, now).nextRun && Aligned(Ran(j, now).nextRun, j.schedule)
    ensures now < t && Aligned(t, j.schedule) ==> Ran(j, now).nextRun <= t
  {
    NextIsLeastAligned(j.schedule, now);
  }

  /** The two mail jobs of `build_jobs`, aimed at their first slot after `now`. */
  method BuildMailJobs(p: Policy, now: Instant) returns (digest: Job, reminder: Job)
    requires Valid(p)
    ensures fresh(digest) && fresh(reminder) && digest != reminder
    ensures digest.name == DIGEST && IsMailJob(digest.View()) && digest.lastRun == None && now < digest.nextRun
    ensures reminder.name == REMINDER && IsMailJob(reminder.View()) && reminder.lastRun == None
    ensures now < reminder.nextRun
    ensures digest.name == "daily_digest" && reminder.name == "maintenance_reminders"
    ensures AsAsked(digest.View(), p) && digest.nextRun <= now + DAY
    ensures AsAsked(reminder.View(), p) && reminder.nextRun <= now + WEEK
    ensures Reaimed(digest.View(), p, now) == digest.View() && Reaimed(reminder.View(), p, now) == reminder.View()
  {
    var (dp, ds) := Wanted(DIGEST, p).value;
    var (rp, rs) := Wanted(REMINDER, p).value;
    DailyAligned(p.digestHour, now);
    WeeklyAligned(p.reminderWeekday, p.digestHour, now);
    digest := new Job(DIGEST, ds, Some(dp), now);
    reminder := new Job(REMINDER, rs, Some(rp), now);
  }

  method ApplySchedule(jobs: seq<Job>, p: Policy, now: Instant)
    requires Distinct(jobs)
    modifies jobs
    ensures forall i :: 0 <= i < |jobs| ==> jobs[i].View() == Reaimed(old(jobs[i].View()), p, now)
    ensures Valid(p) ==> forall i :: 0 <= i < |jobs| && jobs[i].View() != old(jobs[i].View()) ==>
      AsAsked(jobs[i].View(), p) && now < jobs[i].nextRun
  {
    forall j: JobState | Valid(p)
      ensures var r := Reaimed(j, p, now); r != j ==> AsAsked(r, p) && now < r.nextRun
    {
      ReaimedAsAsked(j, p, now);
    }
    for i := 0 to |jobs|
      invariant forall k :: 0 <= k < i ==> jobs[k].View() == Reaimed(old(jobs[k].View()), p, now)
      invariant forall k :: i <= k < |jobs| ==> jobs[k].View() == old(jobs[k].View())
    {
      var job := jobs[i];
      var wanted := Wanted(job.name, p);
      if wanted.None? {
        continue;
      }
      var (params, schedule) := wanted.value;
      if job.params == Some(params) {
        continue;
      }
      var nextRun := Next(schedule, now);
      if job.lastRun.Some? && SamePeriod(job.name, job.lastRun.value, nextRun) {
        nextRun := Next(schedule, nextRun);
      }
      job.params, job.schedule, job.nextRun := Some(params), schedule, nextRun;
    }
  }

  /** `served` lists the jobs run, by position; a job that raises is rescheduled too. */
  method RunDueJobs(jobs: seq<Job>, now: Instant) returns (served: seq<nat>)
    requires Distinct(jobs)
    modifies jobs
    ensures forall i :: 0 <= i < |jobs| ==> jobs[i].View() == Ran(old(jobs[i].View()), now)
    ensures forall i :: 0 <= i < |jobs| ==> (i in served <==> old(jobs[i].nextRun) <= now)
    ensures forall a, b :: 0 <= a < b < |served| ==> served[a] < served[b]
  {
    served := [];
    for i := 0 to |jobs|
      invariant forall k :: 0 <= k < i ==> jobs[k].View() == Ran(old(jobs[k].View()), now)
      invariant forall k :: i <= k < |jobs| ==> jobs[k].View() == old(jobs[k].View())
      invariant forall k :: 0 <= k < |jobs| ==> (k in served <==> k < i && old(jobs[k].nextRun) <= now)
      invariant forall a :: 0 <= a < |served| ==> served[a] < i
      invariant forall a, b :: 0 <= a < b < |served| ==> served[a] < served[b]
    {
      var job := jobs[i];
      assert job.View() == old(jobs[i].View());
      if job.nextRun > now {
        continue;
      }
      job.nextRun := Next(job.schedule, now);
      job.lastRun := Some(now);
      served := served + [i];
    }
  }

  // --- Whole runs of a mail job -----------------------------------------------

  datatype Event = Settings(policy: Policy, at: Instant) | Tick(at: Instant)

  /** `served`: the due instant and the actual instant of every run, in order. */
  datatype Trace = Trace(job: JobState, served: seq<(Instant, Instant)>)

  function Step(t: Trace, e: Event): Trace {
    match e
    case Settings(p, at) => t.(job := Reaimed(t.job, p, at))
    case Tick(at) =>
      if t.job.nextRun > at then t
      else Trace(Ran(t.job, at), t.served + [(t.job.nextRun, at)])
  }

  function Exec(t: Trace, es: seq<Event>): Trace
    decreases |es|
  {
    if es == [] then t else Exec(Step(t, es[0]), es[1..])
  }

  predicate Clocked(es: seq<Event>, from: Instant) {
    && (forall i :: 0 <= i < |es| ==> from <= es[i].at && (es[i].Settings? ==> Valid(es[i].policy)))
    && (forall i, j :: 0 <= i < j < |es| ==> es[i].at <= es[j].at)
  }

  /** The period a mail job serves: the UTC day, or the ISO week. */
  function Period(name: string, t: Instant): nat {
    if name == REMINDER then t / WEEK else t / DAY
  }

  predicate IsMailJob(j: JobState) {
    && Proper(j.schedule) && Aligned(j.nextRun, j.schedule)
    && ((j.name == DIGEST && j.schedule.Daily?) || (j.name == REMINDER && j.schedule.Weekly?))
  }

  /** The settings in force after the events, starting from `p`. */
  function LastPolicy(p: Policy, es: seq<Event>): Policy
    decreases |es|
  {
    if es == [] then p else LastPolicy(if es[0].Settings? then es[0].policy else p, es[1..])
  }

  lemma StepAsAsked(t: Trace, e: Event, p: Policy)
    requires AsAsked(t.job, p) && Valid(p) && (e.Settings? ==> Valid(e.policy))
    ensures AsAsked(Step(t, e).job, if e.Settings? then e.policy else p)
  {
    match e
    case Settings(q, at) => ReaimedAsAsked(t.job, q, at);
    case Tick(at) => if t.job.nextRun <= at { RanAimsAtTheNextSlot(t.job, at, at); }
  }

  /** Over every run of ticks and settings changes a mail job is aimed as the settings in
      force ask. */
  lemma {:induction false} AlwaysAsAsked(t: Trace, es: seq<Event>, p: Policy, clock: Instant)
    requires AsAsked(t.job, p) && Valid(p) && Clocked(es, clock)
    ensures AsAsked(Exec(t, es).job, LastPolicy(p, es))
    decreases |es|
  {
    if es == [] {
    } else {
      StepAsAsked(t, es[0], p);
      AlwaysAsAsked(Step(t, es[0]), es[1..], if es[0].Settings? then es[0].policy else p, es[0].at);
    }
  }

  /** A job with an interval, which no setting concerns, is due one interval after each of
      its runs, to the microsecond, and first when it was built to be. */
  lemma {:induction false} IntervalsAreMeasuredFromRuns(t: Trace, es: seq<Event>, step: nat)
    requires t.job.schedule == Every(step) && t.job.name != DIGEST && t.job.name != REMINDER
    requires t.served != [] ==> t.job.nextRun == t.served[|t.served| - 1].1 + step
    ensures var served := Exec(t, es).served;
      && t.served <= served
      && (forall i :: |t.served| <= i < |served| ==> served[i].0 <= served[i].1)
      && (forall i :: |t.served| <= i < |served| && i > 0 ==> served[i].0 == served[i - 1].1 + step)
      && (t.served == [] && served != [] ==> served[0].0 == t.job.nextRun)
    decreases |es|
  {
    if es == [] {
    } else {
      IntervalsAreMeasuredFromRuns(Step(t, es[0]), es[1..], step);
    }
  }

  predicate Ascending(name: string, served: seq<(Instant, Instant)>) {
    forall i, j :: 0 <= i < j < |served| ==> Period(name, served[i].0) < Period(name, served[j].0)
  }

  predicate Inv(t: Trace, clock: Instant) {
    var n := |t.served|;
    && IsMailJob(t.job)
    && Ascending(t.job.name, t.served)
    && (forall i :: 0 <= i < n ==> t.served[i].0 <= t.served[i].1)
    && (n == 0 ==> t.job.lastRun == None)
    && (n > 0 ==>
          && t.job.lastRun == Some(t.served[n - 1].1)
          && t.served[n - 1].1 <= clock
          && Period(t.job.name, t.served[n - 1].0) < Period(t.job.name, t.job.nextRun))
  }

  lemma PeriodsAscend(name: string, a: Instant, b: Instant)
    requires a <= b
    ensures Period(name, a) <= Period(name, b)
  {
  }

  /** Where a settings change aims the job lies in a later period than the last run,
      however late that run was. */
  lemma ReaimSkipsThePeriod(name: string, sch: Schedule, last: Instant, at: Instant)
    requires Proper(sch) && last <= at
    requires (name == DIGEST && sch.Daily?) || (name == REMINDER && sch.Weekly?)
    ensures var first := Next(sch, at);
      Period(name, last) < Period(name, if SamePeriod(name, last, first) then Next(sch, first) else first)
  {
    var first := Next(sch, at);
    NextIsLeastAligned(sch, at);
    NextFromAligned(sch, first, first);
    PeriodsAscend(name, last, first);
  }

  lemma ReaimedIsMailJob(j: JobState, p: Policy, at: Instant)
    requires IsMailJob(j) && Valid(p)
    ensures IsMailJob(Reaimed(j, p, at)) && Reaimed(j, p, at).name == j.name
  {
    var sch := Wanted(j.name, p).value.1;
    NextIsLeastAligned(sch, at);
    NextIsLeastAligned(sch, Next(sch, at));
  }

  lemma ReaimKeepsInv(t: Trace, p: Policy, at: Instant, clock: Instant)
    requires Inv(t, clock) && clock <= at && Valid(p)
    ensures Inv(Step(t, Settings(p, at)), at)
    ensures t.served != [] && Moves(t.job.name, t.job.params, p) ==>
      Period(t.job.name, t.served[|t.served| - 1].1) < Period(t.job.name, Step(t, Settings(p, at)).job.nextRun)
  {
    ReaimedIsMailJob(t.job, p, at);
    if t.served != [] {
      var (due, last) := t.served[|t.served| - 1];
      PeriodsAscend(t.job.name, due, last);
      ReaimSkipsThePeriod(t.job.name, Wanted(t.job.name, p).value.1, last, at);
    }
  }

  lemma TickKeepsInv(t: Trace, at: Instant, clock: Instant)
    requires Inv(t, clock) && clock <= at
    ensures Inv(Step(t, Tick(at)), at)
  {
    if t.job.nextRun <= at {
      NextIsLeastAligned(t.job.schedule, at);
      NextFromAligned(t.job.schedule, t.job.nextRun, at);
      var r := Step(t, Tick(at));
      var n := |t.served|;
      forall i, j | 0 <= i < j < |r.served|
        ensures Period(t.job.name, r.served[i].0) < Period(t.job.name, r.served[j].0)
      {
        if j == n && i < n - 1 {
          assert Period(t.job.name, t.served[i].0) < Period(t.job.name, t.served[n - 1].0);
        }
      }
    }
  }

  lemma StepKeepsInv(t: Trace, e: Event, clock: Instant)
    requires Inv(t, clock) && clock <= e.at && (e.Settings? ==> Valid(e.policy))
    ensures Inv(Step(t, e), e.at) && Step(t, e).job.name == t.job.name
  {
    match e
    case Settings(p, at) => ReaimKeepsInv(t, p, at, clock);
    case Tick(at) => TickKeepsInv(t, at, clock);
  }

  lemma {:induction false} RunKeepsInv(t: Trace, es: seq<Event>, clock: Instant, until: Instant)
    requires Inv(t, clock) && Clocked(es, clock) && clock <= until
    requires forall i :: 0 <= i < |es| ==> es[i].at <= until
    ensures Inv(Exec(t, es), until) && Exec(t, es).job.name == t.job.name
    decreases |es|
  {
    if es == [] {
    } else {
      StepKeepsInv(t, es[0], clock);
      RunKeepsInv(Step(t, es[0]), es[1..], es[0].at, until);
    }
  }

  lemma {:induction false} ExecAppend(t: Trace, es: seq<Event>, fs: seq<Event>)
    ensures Exec(t, es + fs) == Exec(Exec(t, es), fs)
    decreases |es|
  {
    if es == [] {
      assert es + fs == fs;
    } else {
      assert (es + fs)[1..] == es[1..] + fs;
      ExecAppend(Step(t, es[0]), es[1..], fs);
    }
  }

  /** Runs are recorded, and stay recorded, at the instants of their ticks. */
  lemma {:induction false} ServedGrows(t: Trace, es: seq<Event>, from: Instant)
    requires Clocked(es, from)
    ensures t.served <= Exec(t, es).served
    ensures forall b :: |t.served| <= b < |Exec(t, es).served| ==> from <= Exec(t, es).served[b].1
    decreases |es|
  {
    if es == [] {
    } else {
      ServedGrows(Step(t, es[0]), es[1..], es[0].at);
    }
  }

  predicate Timed(served: seq<(Instant, Instant)>, clock: Instant) {
    && (forall i :: 0 <= i < |served| ==> served[i].1 <= clock)
    && (forall i, j :: 0 <= i < j < |served| ==> served[i].1 <= served[j].1)
  }

  lemma {:induction false} RunsAreTimed(t: Trace, es: seq<Event>, clock: Instant, until: Instant)
    requires Timed(t.served, clock) && Clocked(es, clock) && clock <= until
    requires forall i :: 0 <= i < |es| ==> es[i].at <= until
    ensures Timed(Exec(t, es).served, until)
    decreases |es|
  {
    if es == [] {
    } else {
      RunsAreTimed(Step(t, es[0]), es[1..], es[0].at, until);
    }
  }

  /** The due instants a mail job serves lie in strictly increasing days (digest) or
      ISO weeks (reminder), whatever the ticks and the settings changes. */
  lemma NoPeriodIsDueTwice(j: JobState, es: seq<Event>, clock: Instant)
    requires IsMailJob(j) && j.lastRun == None && Clocked(es, clock)
    ensures var served := Exec(Trace(j, []), es).served;
      forall a, b :: 0 <= a < b < |served| ==> Period(j.name, served[a].0) < Period(j.name, served[b].0)
  {
    var until := if es == [] then clock else es[|es| - 1].at;
    RunKeepsInv(Trace(j, []), es, clock, until);
  }

  /** So no period is mailed twice when each run happens within the period it came due. */
  lemma NoPeriodIsMailedTwice(j: JobState, es: seq<Event>, clock: Instant)
    requires IsMailJob(j) && j.lastRun == None && Clocked(es, clock)
    requires var served := Exec(Trace(j, []), es).served;
      forall i :: 0 <= i < |served| ==> Period(j.name, served[i].0) == Period(j.name, served[i].1)
    ensures var served := Exec(Trace(j, []), es).served;
      forall a, b :: 0 <= a < b < |served| ==> Period(j.name, served[a].1) < Period(j.name, served[b].1)
  {
    NoPeriodIsDueTwice(j, es, clock);
  }

  /** The slot of a schedule in the period that contains `t`. */
  function Slot(sch: Schedule, t: Instant): Instant
    requires !sch.Every?
  {
    if sch.Daily? then t - t % DAY + sch.hour * HOUR
    else t - t % WEEK + sch.weekday * DAY + sch.hour * HOUR
  }

  lemma SlotIsAligned(sch: Schedule, t: Instant)
    requires Proper(sch) && !sch.Every?
    ensures Aligned(Slot(sch, t), sch) && Slot(sch, t) / Length(sch) == t / Length(sch)
  {
    if sch.Daily? {
      DayOfSum(t - t % DAY, sch.hour);
    } else {
      var week := t / WEEK;
      assert t - t % WEEK == week * WEEK;
      WeekOfSum(week, sch.weekday, sch.hour);
    }
  }

  /** A run leaves its job due again in the very period of the run exactly when it ran
      before that period's slot, late by a period or more; and then at that slot. */
  lemma DueAgainExactlyWhenLate(j: JobState, at: Instant)
    requires IsMailJob(j) && j.nextRun <= at
    ensures Period(j.name, at) <= Period(j.name, Ran(j, at).nextRun)
    ensures Period(j.name, Ran(j, at).nextRun) == Period(j.name, at) <==> at < Slot(j.schedule, at)
    ensures at < Slot(j.schedule, at) ==> Ran(j, at).nextRun == Slot(j.schedule, at)
    ensures at < Slot(j.schedule, at) ==> Period(j.name, j.nextRun) < Period(j.name, at)
  {
    var sch := j.schedule;
    var slot, next := Slot(sch, at), Next(sch, at);
    SlotIsAligned(sch, at);
    NextIsLeastAligned(sch, at);
    LaterAligned(sch, slot, next);
    LaterAligned(sch, next, slot);
    LaterAligned(sch, j.nextRun, slot);
    PeriodsAscend(j.name, at, next);
    if at < slot {
      PeriodsAscend(j.name, next, slot);
    }
  }

  // --- When a period is mailed twice ------------------------------------------

  /** Aimed past the period of its last run, the job never runs in that period again. */
  lemma {:induction false} NeverAgain(t: Trace, es: seq<Event>, clock: Instant, last: Instant)
    requires Inv(t, clock) && Clocked(es, clock) && t.served != [] && last == t.served[|t.served| - 1].1
    requires Period(t.job.name, last) < Period(t.job.name, t.job.nextRun)
    ensures forall b :: |t.served| <= b < |Exec(t, es).served| ==>
      Period(t.job.name, last) < Period(t.job.name, Exec(t, es).served[b].1)
    decreases |es|
  {
    if es == [] {
    } else if es[0].Tick? && t.job.nextRun <= es[0].at {
      NextRunIsLater(t, es, last);
    } else {
      var t1 := StillAimedPast(t, es, clock, last);
      NeverAgain(t1, es[1..], es[0].at, last);
    }
  }

  lemma NextRunIsLater(t: Trace, es: seq<Event>, last: Instant)
    requires es != [] && es[0].Tick? && t.job.nextRun <= es[0].at && Clocked(es, es[0].at)
    requires Period(t.job.name, last) < Period(t.job.name, t.job.nextRun)
    ensures forall b :: |t.served| <= b < |Exec(t, es).served| ==>
      Period(t.job.name, last) < Period(t.job.name, Exec(t, es).served[b].1)
  {
    PeriodsAscend(t.job.name, t.job.nextRun, es[0].at);
    RunsLater(Step(t, es[0]), es[1..], es[0].at);
  }

  lemma StillAimedPast(t: Trace, es: seq<Event>, clock: Instant, last: Instant) returns (t1: Trace)
    requires Inv(t, clock) && Clocked(es, clock) && t.served != [] && last == t.served[|t.served| - 1].1
    requires Period(t.job.name, last) < Period(t.job.name, t.job.nextRun)
    requires es != [] && !(es[0].Tick? && t.job.nextRun <= es[0].at)
    ensures Inv(t1, es[0].at) && t1.served == t.served && t1.job.name == t.job.name
    ensures Period(t.job.name, last) < Period(t.job.name, t1.job.nextRun)
    ensures Exec(t, es) == Exec(t1, es[1..])
  {
    t1 := Step(t, es[0]);
    StepKeepsInv(t, es[0], clock);
    if es[0].Settings? {
      ReaimKeepsInv(t, es[0].policy, es[0].at, clock);
    }
  }

  /** After a run at `at`, every later run lies in its period or a later one. */
  lemma RunsLater(t: Trace, es: seq<Event>, at: Instant)
    requires Clocked(es, at) && t.served != [] && t.served[|t.served| - 1].1 == at
    ensures t.served <= Exec(t, es).served
    ensures forall b :: |t.served| - 1 <= b < |Exec(t, es).served| ==>
      Period(t.job.name, at) <= Period(t.job.name, Exec(t, es).served[b].1)
  {
    ServedGrows(t, es, at);
    forall b | |t.served| - 1 <= b < |Exec(t, es).served|
      ensures Period(t.job.name, at) <= Period(t.job.name, Exec(t, es).served[b].1)
    {
      PeriodsAscend(t.job.name, at, Exec(t, es).served[b].1);
    }
  }

  lemma MovedNeverRepeats(t: Trace, p: Policy, at: Instant, post: seq<Event>)
    requires Inv(t, at) && Timed(t.served, at) && Valid(p) && Moves(t.job.name, t.job.params, p) && Clocked(post, at)
    ensures var served := Exec(Step(t, Settings(p, at)), post).served;
      && t.served <= served
      && forall a, b :: 0 <= a < |t.served| <= b < |served| ==>
           Period(t.job.name, served[a].1) < Period(t.job.name, served[b].1)
  {
    var t1 := Step(t, Settings(p, at));
    StepKeepsInv(t, Settings(p, at), at);
    ReaimKeepsInv(t, p, at, at);
    ServedGrows(t1, post, at);
    var served := Exec(t1, post).served;
    if t.served != [] {
      var last := t.served[|t.served| - 1].1;
      NeverAgain(t1, post, at, last);
      forall a | 0 <= a < |t.served| ensures Period(t.job.name, served[a].1) <= Period(t.job.name, last) {
        assert served[a] == t.served[a];
        PeriodsAscend(t.job.name, t.served[a].1, last);
      }
    }
  }

  /** Moving the hour or the day never mails a period twice: any two runs with a settings
      change between them that re-aimed the job lie in different periods, in order,
      however late the ticks. */
  lemma MovingTheHourNeverMailsTwice(j: JobState, pre: seq<Event>, p: Policy, at: Instant, post: seq<Event>,
                                     clock: Instant)
    requires IsMailJob(j) && j.lastRun == None && Clocked(pre + ([Settings(p, at)] + post), clock)
    requires var t := Exec(Trace(j, []), pre); Moves(t.job.name, t.job.params, p)
    ensures var n := |Exec(Trace(j, []), pre).served|;
      var served := Exec(Trace(j, []), pre + ([Settings(p, at)] + post)).served;
      && n <= |served|
      && forall a, b :: 0 <= a < n <= b < |served| ==> Period(j.name, served[a].1) < Period(j.name, served[b].1)
  {
    ClockedParts(pre, Settings(p, at), post, clock);
    ExecParts(Trace(j, []), pre, Settings(p, at), post);
    RunKeepsInv(Trace(j, []), pre, clock, at);
    RunsAreTimed(Trace(j, []), pre, clock, at);
    MovedNeverRepeats(Exec(Trace(j, []), pre), p, at, post);
  }

  lemma ClockedParts(pre: seq<Event>, e: Event, post: seq<Event>, clock: Instant)
    requires Clocked(pre + ([e] + post), clock)
    ensures Clocked(pre, clock) && Clocked(post, e.at) && clock <= e.at && (e.Settings? ==> Valid(e.policy))
    ensures forall i :: 0 <= i < |pre| ==> pre[i].at <= e.at
  {
    var es := pre + ([e] + post);
    assert es[|pre|] == e;
    assert forall i :: 0 <= i < |pre| ==> es[i] == pre[i];
    assert forall i :: 0 <= i < |post| ==> es[|pre| + 1 + i] == post[i];
  }

  lemma ExecParts(t: Trace, pre: seq<Event>, e: Event, post: seq<Event>)
    ensures Exec(t, pre + ([e] + post)) == Exec(Step(Exec(t, pre), e), post)
  {
    ExecAppend(t, pre, [e] + post);
    assert ([e] + post)[1..] == post;
  }

  /** Some later run falls into the period of `last`. */
  predicate Repeats(t: Trace, es: seq<Event>, last: Instant) {
    exists b :: |t.served| <= b < |Exec(t, es).served|
      && Period(t.job.name, Exec(t, es).served[b].1) == Period(t.job.name, last)
  }

  /** Event `k` is a tick between `slot` and the end of the period of `last`, and no
      settings change before it re-aims the job. */
  predicate TickAt(name: string, params: Option<seq<nat>>, es: seq<Event>, k: nat, slot: Instant, last: Instant) {
    && k < |es| && es[k].Tick? && slot <= es[k].at && Period(name, es[k].at) == Period(name, last)
    && forall m :: 0 <= m < k && es[m].Settings? ==> !Moves(name, params, es[m].policy)
  }

  ghost predicate TickFollows(name: string, params: Option<seq<nat>>, es: seq<Event>, slot: Instant, last: Instant) {
    exists k: nat :: TickAt(name, params, es, k, slot, last)
  }

  lemma TickFollowsShift(name: string, params: Option<seq<nat>>, es: seq<Event>, slot: Instant, last: Instant)
    requires es != []
    ensures TickFollows(name, params, es, slot, last) <==>
      || TickAt(name, params, es, 0, slot, last)
      || (!(es[0].Settings? && Moves(name, params, es[0].policy)) && TickFollows(name, params, es[1..], slot, last))
  {
    if k: nat :| TickAt(name, params, es, k, slot, last) && k > 0 {
      assert forall m :: 0 <= m < k - 1 ==> es[1..][m] == es[m + 1];
      assert TickAt(name, params, es[1..], k - 1, slot, last);
    }
    if k: nat :| TickAt(name, params, es[1..], k, slot, last) {
      if !(es[0].Settings? && Moves(name, params, es[0].policy)) {
        assert forall m :: 0 < m < k + 1 ==> es[m] == es[1..][m - 1];
        assert TickAt(name, params, es, k + 1, slot, last);
      }
    }
  }

  /** A job that is due again in the period of its last run runs there exactly when a
      tick comes in time and nothing re-aims the job before it. */
  lemma {:induction false} RepeatsExactlyWhen(t: Trace, es: seq<Event>, clock: Instant, last: Instant)
    requires Inv(t, clock) && Clocked(es, clock) && t.served != [] && last == t.served[|t.served| - 1].1
    requires Period(t.job.name, last) == Period(t.job.name, t.job.nextRun)
    ensures Repeats(t, es, last) <==> TickFollows(t.job.name, t.job.params, es, t.job.nextRun, last)
    decreases |es|
  {
    if es == [] {
    } else if es[0].Settings? && Moves(t.job.name, t.job.params, es[0].policy) {
      ReaimedNeverRepeats(t, es, clock, last);
    } else if es[0].Tick? && t.job.nextRun <= es[0].at {
      TickFollowsShift(t.job.name, t.job.params, es, t.job.nextRun, last);
      RunSettles(t, es, last);
    } else {
      StandingStill(t, es, last);
      RepeatsExactlyWhen(t, es[1..], clock, last);
    }
  }

  lemma ReaimedStep(t: Trace, es: seq<Event>, clock: Instant, last: Instant) returns (t1: Trace)
    requires Inv(t, clock) && Clocked(es, clock) && t.served != [] && last == t.served[|t.served| - 1].1
    requires es != [] && es[0].Settings? && Moves(t.job.name, t.job.params, es[0].policy)
    ensures Inv(t1, es[0].at) && t1.served == t.served && t1.job.name == t.job.name
    ensures Period(t.job.name, last) < Period(t.job.name, t1.job.nextRun)
    ensures Exec(t, es) == Exec(t1, es[1..])
  {
    t1 := Step(t, es[0]);
    StepKeepsInv(t, es[0], clock);
    ReaimKeepsInv(t, es[0].policy, es[0].at, clock);
  }

  lemma ReaimedNeverRepeats(t: Trace, es: seq<Event>, clock: Instant, last: Instant)
    requires Inv(t, clock) && Clocked(es, clock) && t.served != [] && last == t.served[|t.served| - 1].1
    requires es != [] && es[0].Settings? && Moves(t.job.name, t.job.params, es[0].policy)
    ensures !Repeats(t, es, last) && !TickFollows(t.job.name, t.job.params, es, t.job.nextRun, last)
  {
    var t1 := ReaimedStep(t, es, clock, last);
    NeverAgain(t1, es[1..], es[0].at, last);
    TickFollowsShift(t.job.name, t.job.params, es, t.job.nextRun, last);
  }

  /** An event that neither re-aims the job nor runs it. */
  lemma StandingStill(t: Trace, es: seq<Event>, last: Instant)
    requires es != [] && t.job.name in {DIGEST, REMINDER}
    requires if es[0].Settings? then !Moves(t.job.name, t.job.params, es[0].policy) else es[0].at < t.job.nextRun
    ensures Repeats(t, es, last) <==> Repeats(t, es[1..], last)
    ensures TickFollows(t.job.name, t.job.params, es, t.job.nextRun, last)
      <==> TickFollows(t.job.name, t.job.params, es[1..], t.job.nextRun, last)
  {
    assert Step(t, es[0]) == t;
    assert Exec(t, es) == Exec(t, es[1..]);
    TickFollowsShift(t.job.name, t.job.params, es, t.job.nextRun, last);
  }

  /** The next run falls into the period of the last one, or none ever does. */
  lemma RunSettles(t: Trace, es: seq<Event>, last: Instant)
    requires es != [] && es[0].Tick? && t.job.nextRun <= es[0].at && last <= es[0].at && Clocked(es, es[0].at)
    ensures Repeats(t, es, last) <==> Period(t.job.name, es[0].at) == Period(t.job.name, last)
    ensures Period(t.job.name, es[0].at) != Period(t.job.name, last) ==>
      !TickFollows(t.job.name, t.job.params, es, t.job.nextRun, last)
  {
    var at := es[0].at;
    var t1 := Step(t, es[0]);
    RunsLater(t1, es[1..], at);
    var served := Exec(t, es).served;
    assert served[|t.served|] == t1.served[|t.served|];
    PeriodsAscend(t.job.name, last, at);
    forall k: nat | k < |es| ensures Period(t.job.name, at) <= Period(t.job.name, es[k].at) {
      assert at <= es[k].at;
      PeriodsAscend(t.job.name, at, es[k].at);
    }
  }

  /** Over whole runs: after the run made by a tick at `at`, another one follows in the
      same period if and only if that tick came before the period's slot, a later tick
      comes between the slot and the end of the period, and no settings change re-aims
      the job before it. */
  lemma MailedAgainExactlyWhen(j: JobState, pre: seq<Event>, at: Instant, post: seq<Event>, clock: Instant)
    requires IsMailJob(j) && j.lastRun == None && Clocked(pre + ([Tick(at)] + post), clock)
    requires Exec(Trace(j, []), pre).job.nextRun <= at
    ensures var t := Exec(Trace(j, []), pre);
      && IsMailJob(t.job)
      && (Repeats(Step(t, Tick(at)), post, at) <==>
            && at < Slot(t.job.schedule, at)
            && TickFollows(t.job.name, t.job.params, post, Slot(t.job.schedule, at), at))
  {
    var t := Exec(Trace(j, []), pre);
    var t1 := Step(t, Tick(at));
    ClockedParts(pre, Tick(at), post, clock);
    RunKeepsInv(Trace(j, []), pre, clock, at);
    StepKeepsInv(t, Tick(at), at);
    DueAgainExactlyWhenLate(t.job, at);
    if at < Slot(t.job.schedule, at) {
      RepeatsExactlyWhen(t1, post, at, at);
    } else {
      NeverAgain(t1, post, at, at);
    }
  }

  /** Event `i` of the run is a tick that makes a run after which its period is mailed
      again: late, and followed in time. */
  ghost predicate MailedAgain(j: JobState, es: seq<Event>, i: nat) {
    i < |es| && es[i].Tick? &&
    var job := Exec(Trace(j, []), es[..i]).job;
    && job.nextRun <= es[i].at
    && !job.schedule.Every?
    && es[i].at < Slot(job.schedule, es[i].at)
    && TickFollows(job.name, job.params, es[i + 1..], Slot(job.schedule, es[i].at), es[i].at)
  }

  /** The exact condition: a process mails some period twice if and only if one of its
      ticks is such a late one. */
  lemma MailsAPeriodTwiceExactlyWhen(j: JobState, es: seq<Event>, clock: Instant)
    requires IsMailJob(j) && j.lastRun == None && Clocked(es, clock)
    ensures var served := Exec(Trace(j, []), es).served;
      (exists a, b :: 0 <= a < b < |served| && Period(j.name, served[a].1) == Period(j.name, served[b].1))
      <==> exists i: nat :: MailedAgain(j, es, i)
  {
    var served := Exec(Trace(j, []), es).served;
    if i: nat :| MailedAgain(j, es, i) {
      var n := RunAt(j, es, i, clock);
      var b :| n + 1 <= b < |served| && Period(j.name, served[b].1) == Period(j.name, es[i].at);
    }
    if a, b :| 0 <= a < b < |served| && Period(j.name, served[a].1) == Period(j.name, served[b].1) {
      var i := FindRun(Trace(j, []), es, a);
      var n := RunAt(j, es, i, clock);
      assert n == a;
    }
  }

  /** The run made by event `i`, and what the last lemma says of it. */
  lemma RunAt(j: JobState, es: seq<Event>, i: nat, clock: Instant) returns (n: nat)
    requires IsMailJob(j) && j.lastRun == None && Clocked(es, clock)
    requires i < |es| && es[i].Tick? && Exec(Trace(j, []), es[..i]).job.nextRun <= es[i].at
    ensures n == |Exec(Trace(j, []), es[..i]).served|
    ensures var served := Exec(Trace(j, []), es).served;
      && n < |served| && served[n].1 == es[i].at
      && (MailedAgain(j, es, i) <==>
            exists b :: n + 1 <= b < |served| && Period(j.name, served[b].1) == Period(j.name, es[i].at))
  {
    var t := Exec(Trace(j, []), es[..i]);
    n := |t.served|;
    var t1 := RunRecorded(Trace(j, []), es, i, clock);
    RunKeepsName(Trace(j, []), es[..i]);
    MailedAgainExactlyWhen(j, es[..i], es[i].at, es[i + 1..], clock);
  }

  lemma RunRecorded(t0: Trace, es: seq<Event>, i: nat, clock: Instant) returns (t1: Trace)
    requires i < |es| && es[i].Tick? && Exec(t0, es[..i]).job.nextRun <= es[i].at && Clocked(es, clock)
    ensures t1 == Step(Exec(t0, es[..i]), es[i]) && Exec(t0, es) == Exec(t1, es[i + 1..])
    ensures var n := |Exec(t0, es[..i]).served|;
      |t1.served| == n + 1 && n < |Exec(t0, es).served| && Exec(t0, es).served[n].1 == es[i].at
    ensures es == es[..i] + ([Tick(es[i].at)] + es[i + 1..])
  {
    var pre, post := es[..i], es[i + 1..];
    assert es == pre + ([es[i]] + post);
    t1 := Step(Exec(t0, pre), es[i]);
    ExecParts(t0, pre, es[i], post);
    ClockedParts(pre, es[i], post, clock);
    ServedGrows(t1, post, es[i].at);
    assert Exec(t0, es).served[|t1.served| - 1] == t1.served[|t1.served| - 1];
  }

  lemma {:induction false} RunKeepsName(t: Trace, es: seq<Event>)
    ensures Exec(t, es).job.name == t.job.name
    decreases |es|
  {
    if es == [] {
    } else {
      RunKeepsName(Step(t, es[0]), es[1..]);
    }
  }

  /** The event that made run `a`. */
  lemma {:induction false} FindRun(t: Trace, es: seq<Event>, a: nat) returns (i: nat)
    requires |t.served| <= a < |Exec(t, es).served|
    ensures i < |es| && es[i].Tick? && Exec(t, es[..i]).job.nextRun <= es[i].at
    ensures |Exec(t, es[..i]).served| == a
    decreases |es|
  {
    var t1 := Step(t, es[0]);
    if |t1.served| > a {
      i := 0;
    } else {
      i := FindRun(t1, es[1..], a);
      assert es[..i + 1][1..] == es[1..][..i];
      i := i + 1;
    }
  }

  /** A worker held up past midnight does mail one day twice: the digest of day 0 and
      that of day 1, both on day 1. */
  lemma LateTickMailsADayTwice() returns (j: JobState, es: seq<Event>)
    ensures IsMailJob(j) && j.lastRun == None && Clocked(es, 0)
    ensures var served := Exec(Trace(j, []), es).served;
      |served| == 2 && Period(j.name, served[0].1) == Period(j.name, served[1].1)
  {
    j := JobState(DIGEST, Daily(18), Some([18]), 18 * HOUR, None);
    es := [Tick(DAY + HOUR), Tick(DAY + 18 * HOUR)];
    var t0 := Trace(j, []);
    var t1 := Step(t0, es[0]);
    assert t1.job.nextRun == DAY + 18 * HOUR;
    var t2 := Step(t1, es[1]);
    assert es[1..][0] == es[1] && es[1..][1..] == [];
    assert Exec(t0, es) == Exec(t1, es[1..]) == t2;
  }
}
