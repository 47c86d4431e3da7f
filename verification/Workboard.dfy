/**
The capacity-expiry redraw of private-app/app/control-room-workboard.tsx: the
board shows verdicts computed at a cached time, and one timer decides when that
time is read again. Times are whole milliseconds.
*/
module Workboard {
  import opened Wrappers

  const WINDOW: int := 5 * 60000

  datatype Capability = Measured(verified: bool) | NotMeasured
  datatype Capacity = Slots(available: int) | Unmeasured(reason: string)
  datatype WorkerState = Online | Idle | Offline | Other(name: string)

  /** One row of the capacity read; `observedAt` is None when the recorded time is
      missing or does not parse. */
  datatype Worker = Worker(id: string, observedAt: Option<int>, capability: Capability, capacity: Capacity,
                           state: WorkerState)

  datatype Candidate = Candidate(node: string, jobs: set<string>)
  datatype Eligibility = Eligibility(configured: bool, workers: seq<Candidate>)
  datatype Board = Board(eligibility: Eligibility, workers: seq<Worker>)

  datatype Verdict =
    | NotEligible | NoMatchingCapacity | NotVerified | NoCapacity(reason: string) | Stale
    | NoSlot | WorkerOffline | WorkerBusy(name: string) | Available

  predicate Fresh(w: Worker, now: int) {
    w.observedAt.Some? && now - w.observedAt.value <= WINDOW
  }

  function FindCandidate(candidates: seq<Candidate>, job: string): (r: Option<Candidate>)
    ensures r.Some? ==> r.value in candidates && job in r.value.jobs
    ensures r.None? ==> forall c | c in candidates :: job !in c.jobs
  {
    if candidates == [] then None
    else if job in candidates[0].jobs then Some(candidates[0])
    else FindCandidate(candidates[1..], job)
  }

  function FindWorker(workers: seq<Worker>, id: string): (r: Option<Worker>)
    ensures r.Some? ==> r.value in workers && r.value.id == id
    ensures r.None? ==> forall w | w in workers :: w.id != id
  {
    if workers == [] then None
    else if workers[0].id == id then Some(workers[0])
    else FindWorker(workers[1..], id)
  }

  /** workerAvailabilityForTaskV1 */
  function Availability(eligibility: Eligibility, capacity: Option<Worker>, job: string, now: int): Verdict {
    var candidate := FindCandidate(eligibility.workers, job);
    if !eligibility.configured || candidate.None? then NotEligible
    else if capacity.None? || capacity.value.id != candidate.value.node then NoMatchingCapacity
    else
      var w := capacity.value;
      if w.capability != Measured(true) then NotVerified
      else if w.capacity.Unmeasured? then NoCapacity(w.capacity.reason)
      else if !Fresh(w, now) then Stale
      else if w.capacity.available <= 0 then NoSlot
      else if w.state.Offline? then WorkerOffline
      else if w.state.Other? then WorkerBusy(w.state.name)
      else Available
  }

  /** The verdict a board row shows for a task at a presentation time. */
  function Row(board: Board, job: string, now: int): Verdict {
    var matching := FindCandidate(board.eligibility.workers, job);
    var observation := if matching.Some? then FindWorker(board.workers, matching.value.node) else None;
    Availability(board.eligibility, observation, job, now)
  }

  // ---------- what a row says ----------

  /** The candidate at `i` is the first that lists the job. */
  predicate FirstCandidate(candidates: seq<Candidate>, job: string, i: nat) {
    i < |candidates| && job in candidates[i].jobs && forall j | 0 <= j < i :: job !in candidates[j].jobs
  }

  /** The row at `j` is the first of that worker. */
  predicate FirstRow(workers: seq<Worker>, id: string, j: nat) {
    j < |workers| && workers[j].id == id && forall k | 0 <= k < j :: workers[k].id != id
  }

  lemma {:induction false} CandidateFound(candidates: seq<Candidate>, job: string) returns (i: nat)
    ensures FindCandidate(candidates, job).Some? ==>
              FirstCandidate(candidates, job, i) && FindCandidate(candidates, job) == Some(candidates[i])
  {
    i := 0;
    if candidates != [] && job !in candidates[0].jobs {
      i := CandidateFound(candidates[1..], job);
      i := i + 1;
    }
  }

  lemma {:induction false} RowFound(workers: seq<Worker>, id: string) returns (j: nat)
    ensures FindWorker(workers, id).Some? ==> FirstRow(workers, id, j) && FindWorker(workers, id) == Some(workers[j])
  {
    j := 0;
    if workers != [] && workers[0].id != id {
      j := RowFound(workers[1..], id);
      j := j + 1;
    }
  }

  /** The observation a task is judged by: that of the first candidate's first row. */
  ghost predicate JudgedBy(board: Board, job: string, w: Worker) {
    exists i: nat, j: nat ::
      && FirstCandidate(board.eligibility.workers, job, i)
      && FirstRow(board.workers, board.eligibility.workers[i].node, j) && board.workers[j] == w
  }

  /** A task is available exactly when eligibility is configured and the observation
      it is judged by is verified, measures a slot, was made at most five minutes ago,
      and is of a worker online or idle. */
  lemma AvailableExactly(board: Board, job: string, now: int)
    ensures Row(board, job, now) == Available <==>
              && board.eligibility.configured
              && exists w :: JudgedBy(board, job, w)
                   && w.capability == Measured(true)
                   && w.capacity.Slots? && w.capacity.available > 0
                   && w.observedAt.Some? && now - w.observedAt.value <= 300000
                   && (w.state.Online? || w.state.Idle?)
  {
    JudgedExactly(board, job);
    if Row(board, job, now) == Available {
      var w := FindWorker(board.workers, FindCandidate(board.eligibility.workers, job).value.node).value;
      assert JudgedBy(board, job, w);
    }
    forall w | JudgedBy(board, job, w)
      ensures Row(board, job, now) == Availability(board.eligibility, Some(w), job, now)
      ensures FindCandidate(board.eligibility.workers, job).Some?
              && w.id == FindCandidate(board.eligibility.workers, job).value.node
    {
      JudgedWorker(board, job, w);
    }
  }

  /** Every other verdict names the first thing that is wrong. */
  lemma VerdictNamesTheReason(board: Board, job: string, now: int, w: Worker)
    requires board.eligibility.configured && JudgedBy(board, job, w)
    ensures var v := Row(board, job, now);
            var measured := w.capability == Measured(true);
            var recent := w.observedAt.Some? && now - w.observedAt.value <= 300000;
            && (v == NotVerified <==> !measured)
            && (v.NoCapacity? <==> measured && w.capacity.Unmeasured?)
            && (v.NoCapacity? ==> v.reason == w.capacity.reason)
            && (v == Stale <==> measured && w.capacity.Slots? && !recent)
            && (v == NoSlot <==> measured && w.capacity.Slots? && recent && w.capacity.available <= 0)
            && (v == WorkerOffline <==> measured && w.capacity.Slots? && recent && w.capacity.available > 0 && w.state.Offline?)
            && (v.WorkerBusy? <==> measured && w.capacity.Slots? && recent && w.capacity.available > 0 && w.state.Other?)
            && (v.WorkerBusy? ==> v.name == w.state.name)
  {
    JudgedWorker(board, job, w);
  }

  /** Without configured eligibility or a candidate a task is not eligible, and
      without a row of the candidate's worker its capacity is unknown. */
  lemma UnjudgedTasks(board: Board, job: string, now: int)
    ensures Row(board, job, now) == NotEligible <==>
              !board.eligibility.configured || forall c | c in board.eligibility.workers :: job !in c.jobs
    ensures Row(board, job, now) == NoMatchingCapacity <==>
              && board.eligibility.configured && (exists c :: c in board.eligibility.workers && job in c.jobs)
              && !exists w :: JudgedBy(board, job, w)
  {
    JudgedExactly(board, job);
    forall w | JudgedBy(board, job, w)
      ensures Row(board, job, now) == Availability(board.eligibility, Some(w), job, now)
      ensures FindCandidate(board.eligibility.workers, job).Some?
              && w.id == FindCandidate(board.eligibility.workers, job).value.node
    {
      JudgedWorker(board, job, w);
    }
  }

  lemma JudgedWorker(board: Board, job: string, w: Worker)
    requires JudgedBy(board, job, w)
    ensures FindCandidate(board.eligibility.workers, job).Some?
    ensures FindWorker(board.workers, FindCandidate(board.eligibility.workers, job).value.node) == Some(w)
  {
    var i: nat, j: nat :| FirstCandidate(board.eligibility.workers, job, i)
                          && FirstRow(board.workers, board.eligibility.workers[i].node, j) && board.workers[j] == w;
    assert board.eligibility.workers[i] in board.eligibility.workers && board.workers[j] in board.workers;
    var i' := CandidateFound(board.eligibility.workers, job);
    assert i' == i;
    var j' := RowFound(board.workers, board.eligibility.workers[i].node);
    assert j' == j;
  }

  lemma JudgedExactly(board: Board, job: string)
    ensures var c := FindCandidate(board.eligibility.workers, job);
            c.Some? && FindWorker(board.workers, c.value.node).Some? ==>
              JudgedBy(board, job, FindWorker(board.workers, c.value.node).value)
  {
    var i := CandidateFound(board.eligibility.workers, job);
    var c := FindCandidate(board.eligibility.workers, job);
    if c.Some? {
      var j := RowFound(board.workers, c.value.node);
    }
  }

  // ---------- the next expiry ----------

  /** One millisecond past the freshness window, unless that is already past. */
  function ExpiryOf(w: Worker, now: int): Option<int> {
    if w.observedAt.Some? && w.observedAt.value + WINDOW + 1 > now then Some(w.observedAt.value + WINDOW + 1) else None
  }

  /** The smaller of two times, None being infinity. */
  function Sooner(a: Option<int>, b: Option<int>): Option<int> {
    if a.None? then b else if b.None? || a.value <= b.value then a else b
  }

  function NextExpiry(workers: seq<Worker>, now: int): Option<int> {
    if workers == [] then None else Sooner(ExpiryOf(workers[0], now), NextExpiry(workers[1..], now))
  }

  predicate Before(t: int, end: Option<int>) { end.None? || t < end.value }

  function FreshCount(workers: seq<Worker>, now: int): nat {
    if workers == [] then 0 else (if Fresh(workers[0], now) then 1 else 0) + FreshCount(workers[1..], now)
  }

  /** The expiry is finite exactly when some row is fresh, and lies ahead. */
  lemma {:induction false} ExpiryIsAhead(workers: seq<Worker>, now: int)
    ensures NextExpiry(workers, now).Some? <==> exists w :: w in workers && Fresh(w, now)
    ensures NextExpiry(workers, now).Some? ==> NextExpiry(workers, now).value > now
  {
    if workers != [] {
      ExpiryIsAhead(workers[1..], now);
      if Fresh(workers[0], now) {
        assert workers[0] in workers;
      }
      assert forall w | w in workers[1..] :: w in workers;
    }
  }

  /** Up to the next expiry no row changes its freshness. */
  lemma {:induction false} FreshnessIsConstant(workers: seq<Worker>, now: int, t: int)
    requires now <= t && Before(t, NextExpiry(workers, now))
    ensures forall w | w in workers :: Fresh(w, t) <==> Fresh(w, now)
  {
    if workers != [] {
      FreshnessIsConstant(workers[1..], now, t);
    }
  }

  /** At the next expiry, and from then on, some row that was fresh is stale. */
  lemma {:induction false} SomeRowFlips(workers: seq<Worker>, now: int) returns (flipped: Worker)
    requires NextExpiry(workers, now).Some?
    ensures flipped in workers && Fresh(flipped, now)
    ensures var e := NextExpiry(workers, now).value;
            Fresh(flipped, e - 1) && forall t | e <= t :: !Fresh(flipped, t)
  {
    if NextExpiry(workers, now) == ExpiryOf(workers[0], now) {
      flipped := workers[0];
    } else {
      flipped := SomeRowFlips(workers[1..], now);
    }
  }

  lemma {:induction false} CountOnlyFalls(workers: seq<Worker>, now: int, t: int)
    requires now <= t
    ensures FreshCount(workers, t) <= FreshCount(workers, now)
  {
    if workers != [] {
      CountOnlyFalls(workers[1..], now, t);
    }
  }

  /** Each redraw at or after the expiry strictly reduces the fresh rows. */
  lemma {:induction false} RedrawReduces(workers: seq<Worker>, now: int, t: int)
    requires NextExpiry(workers, now).Some? && NextExpiry(workers, now).value <= t
    ensures FreshCount(workers, t) < FreshCount(workers, now)
  {
    ExpiryIsAhead(workers, now);
    CountOnlyFalls(workers[1..], now, t);
    if NextExpiry(workers, now) != ExpiryOf(workers[0], now) {
      RedrawReduces(workers[1..], now, t);
    }
  }

  /** The verdict of every task is constant up to the next expiry. */
  lemma VerdictIsConstant(board: Board, job: string, now: int, t: int)
    requires now <= t && Before(t, NextExpiry(board.workers, now))
    ensures Row(board, job, t) == Row(board, job, now)
  {
    FreshnessIsConstant(board.workers, now, t);
  }

  /** Redraws, each at or after the expiry of the one before. */
  predicate Redraws(workers: seq<Worker>, now: int, times: seq<int>)
    decreases times
  {
    times == [] || (
      && NextExpiry(workers, now).Some? && NextExpiry(workers, now).value <= times[0]
      && Redraws(workers, times[0], times[1..]))
  }

  /** One snapshot is redrawn at most once for each row fresh when presented. */
  lemma {:induction false} RedrawsAreBounded(workers: seq<Worker>, now: int, times: seq<int>)
    requires Redraws(workers, now, times)
    ensures |times| <= FreshCount(workers, now) <= |workers|
    decreases times
  {
    CountIsBounded(workers, now);
    if times != [] {
      RedrawReduces(workers, now, times[0]);
      RedrawsAreBounded(workers, times[0], times[1..]);
    }
  }

  lemma {:induction false} CountIsBounded(workers: seq<Worker>, now: int)
    ensures FreshCount(workers, now) <= |workers|
  {
    if workers != [] {
      CountIsBounded(workers[1..], now);
    }
  }

  // ---------- the component ----------

  /** What is shown is what a direct test at `t` would show, for every task and
      for the freshness of every row. */
  ghost predicate Agrees(board: Board, shownAt: int, t: int) {
    && (forall w | w in board.workers :: Fresh(w, t) <==> Fresh(w, shownAt))
    && (forall job :: Row(board, job, t) == Row(board, job, shownAt))
  }

  lemma AgreesUntilExpiry(board: Board, shownAt: int, t: int)
    requires shownAt <= t
    ensures Agrees(board, shownAt, t) <==> Before(t, NextExpiry(board.workers, shownAt))
  {
    if Before(t, NextExpiry(board.workers, shownAt)) {
      FreshnessIsConstant(board.workers, shownAt, t);
      forall job ensures Row(board, job, t) == Row(board, job, shownAt) {
        VerdictIsConstant(board, job, shownAt, t);
      }
    } else {
      var flipped := SomeRowFlips(board.workers, shownAt);
    }
  }

  class ExpiryContent {
    var board: Board
    var nowMs: int
    var timer: Option<int>  // when the one-shot is due

    /** A pending timer is due at the next expiry of what is shown. */
    ghost predicate Valid()
      reads this
    {
      timer.Some? ==> timer == NextExpiry(board.workers, nowMs)
    }

    constructor (data: Board, clock: int)
      ensures Valid() && board == data && nowMs == clock && timer == None
    {
      board, nowMs, timer := data, clock, None;
    }

    /** The scheduling effect, run when the clock reads `clock`. Until the timer is
        due the board agrees with a direct test, exactly when the effect did not
        run at or after the expiry. */
    method Schedule(clock: int)
      modifies this`timer
      ensures Valid()
      ensures (forall t | clock <= t && nowMs <= t && Before(t, timer) :: Agrees(board, nowMs, t)) <==>
              Before(clock, NextExpiry(board.workers, nowMs))
      ensures timer.Some? ==> clock < timer.value && !Agrees(board, nowMs, timer.value)
      ensures timer.Some? <==> NextExpiry(board.workers, nowMs).Some? && Before(clock, NextExpiry(board.workers, nowMs))
    {
      var expiry := NextExpiry(board.workers, nowMs);
      timer := None;
      if expiry.Some? && expiry.value - clock > 0 {
        timer := Some(clock + (expiry.value - clock));
      }
      ExpiryIsAhead(board.workers, nowMs);
      forall t | nowMs <= t
        ensures Agrees(board, nowMs, t) <==> Before(t, expiry)
      {
        AgreesUntilExpiry(board, nowMs, t);
      }
    }

    /** The one-shot: the cached time is read again. */
    method Fire(clock: int)
      requires Valid() && timer.Some?
      modifies this`nowMs, this`timer
      ensures Valid() && nowMs == clock && timer == None && Agrees(board, nowMs, clock)
      ensures old(timer).value <= clock ==> FreshCount(board.workers, nowMs) < FreshCount(board.workers, old(nowMs))
    {
      if timer.value <= clock {
        RedrawReduces(board.workers, nowMs, clock);
      }
      nowMs, timer := clock, None;
    }

    /** A new snapshot: the effect for it runs on the old time, and again when the
        presentation time was moved. */
    method Present(data: Board, clock: int, later: int)
      modifies this
      ensures Valid() && board == data && nowMs == clock
      ensures (forall t | later <= t && nowMs <= t && Before(t, timer) :: Agrees(board, nowMs, t)) <==>
              Before(later, NextExpiry(board.workers, nowMs))
    {
      board := data;
      if clock == nowMs {
        Schedule(later);
      } else {
        Schedule(clock);
        nowMs := clock;
        Schedule(later);
      }
    }
  }

  /** The component when its effect runs at the expiry: no timer is set, so it goes
      on showing a row as available that a direct test calls stale from then on. */
  method MissedExpiryStaysShown() returns (c: ExpiryContent, clock: int)
    ensures fresh(c) && c.Valid() && c.timer == None && c.nowMs < clock
    ensures NextExpiry(c.board.workers, c.nowMs) == Some(clock)
    ensures Row(c.board, "job", c.nowMs) == Available
    ensures forall t | clock <= t :: Row(c.board, "job", t) == Stale
  {
    var w := Worker("node", Some(0), Measured(true), Slots(1), Idle);
    var board := Board(Eligibility(true, [Candidate("node", {"job"})]), [w]);
    clock := WINDOW + 1;
    assert NextExpiry([w], WINDOW) == Some(clock) by {
      assert NextExpiry([w][1..], WINDOW) == None;
    }
    c := new ExpiryContent(board, WINDOW);
    c.Schedule(clock);
  }
}
