/** The outbox worker (internal/worker/worker.go): retries with exponential backoff, and gives up. */
module OutboxWorker {
  import opened Basics
  import opened Schema
  import opened Storage
  import opened Sums

  function PowerOfTwo(n: nat): nat { if n == 0 then 1 else 2 * PowerOfTwo(n - 1) }

  /** How long a job rests after failing, given how often it had failed before. */
  function Delay(attempts: nat): int { PowerOfTwo(if attempts < 6 then attempts else 6) * SECOND }

  /** What the handler made of one job, and the clock afterwards. */
  datatype Verdict = Verdict(failed: bool, now: Time)

  /** The rows after one claimed job is handled and marked. */
  function Handled(jobs: map<string, Job>, job: Job, max: nat, verdict: Verdict): map<string, Job> {
    if !verdict.failed then Marked(jobs, job.id, Done, 0, None)
    else if job.attempts + 1 >= max then Marked(jobs, job.id, PermanentFailure, 1, None)
    else Marked(jobs, job.id, Pending, 1, Some(verdict.now + Delay(if job.attempts < 0 then 0 else job.attempts)))
  }

  function HandledAll(jobs: map<string, Job>, claimed: seq<Job>, max: nat, verdicts: seq<Verdict>): map<string, Job>
    requires |claimed| <= |verdicts|
    decreases |claimed|
  {
    if claimed == [] then jobs
    else HandledAll(Handled(jobs, claimed[0], max, verdicts[0]), claimed[1..], max, verdicts[1..])
  }

  /** One cycle of the worker. */
  method Process(store: Store, max: nat, batch: nat, now: Time, verdicts: seq<Verdict>) returns (claimed: seq<Job>)
    requires |verdicts| >= batch
    requires forall k :: k in store.jobs ==> store.jobs[k].id == k && store.jobs[k].attempts >= 0
    modifies store`jobs
    ensures IsClaim(old(store.jobs), now, batch, claimed)
    ensures store.jobs == HandledAll(old(store.jobs), claimed, max, verdicts[..|claimed|])
  {
    hide IsClaim, PowerOfTwo, HandledAll;
    claimed := store.ClaimDue(now, batch);
    ghost var used := verdicts[..|claimed|];
    ghost var whole := HandledAll(store.jobs, claimed, max, used);
    AllHandled(store.jobs, claimed, max, used);
    for i := 0 to |claimed|
      invariant HandledAll(store.jobs, claimed[i..], max, used[i..]) == whole
    {
      var job, verdict := claimed[i], verdicts[i];
      OneHandled(store.jobs, claimed, max, used, i);
      if verdict.failed {
        if job.attempts + 1 >= max {
          store.MarkJobPermanent(job.id);
        } else {
          var delay := PowerOfTwo(if job.attempts < 6 then job.attempts else 6) * SECOND;
          store.MarkJobRetry(job.id, verdict.now + delay);
        }
      } else {
        store.MarkJobDone(job.id);
      }
    }
    AllHandled(store.jobs, claimed, max, used);
  }

  /** A cycle under the configured limits or their defaults. */
  method RunCycle(store: Store, maxAttempts: int, batchSize: int, now: Time, verdicts: seq<Verdict>)
      returns (claimed: seq<Job>)
    requires |verdicts| >= if batchSize <= 0 then 20 else batchSize
    requires forall k :: k in store.jobs ==> store.jobs[k].id == k && store.jobs[k].attempts >= 0
    modifies store`jobs
    ensures IsClaim(old(store.jobs), now, if batchSize <= 0 then 20 else batchSize, claimed)
    ensures store.jobs == HandledAll(old(store.jobs), claimed, if maxAttempts <= 0 then 5 else maxAttempts,
                                     verdicts[..|claimed|])
  {
    var batch := batchSize;
    if batch <= 0 {
      batch := 20;
    }
    var max := maxAttempts;
    if max <= 0 {
      max := 5;
    }
    claimed := Process(store, max, batch, now, verdicts);
  }

  lemma OneHandled(jobs: map<string, Job>, claimed: seq<Job>, max: nat, verdicts: seq<Verdict>, i: nat)
    requires i < |claimed| == |verdicts|
    ensures HandledAll(jobs, claimed[i..], max, verdicts[i..]) ==
      HandledAll(Handled(jobs, claimed[i], max, verdicts[i]), claimed[i + 1..], max, verdicts[i + 1..])
  {
    hide Handled;
    assert claimed[i..][1..] == claimed[i + 1..] && verdicts[i..][1..] == verdicts[i + 1..];
  }

  lemma AllHandled(jobs: map<string, Job>, claimed: seq<Job>, max: nat, verdicts: seq<Verdict>)
    requires |claimed| == |verdicts|
    ensures claimed[0..] == claimed && verdicts[0..] == verdicts
    ensures HandledAll(jobs, claimed[|claimed|..], max, verdicts[|claimed|..]) == jobs
  {
  }

  // ---------------------------------------------------------------------------------------
  // Runs
  // ---------------------------------------------------------------------------------------

  /** The job table, what is left of the batch claimed last, and the latest reading of the clock. */
  datatype Worker = Worker(jobs: map<string, Job>, batch: seq<Job>, clock: Time)

  /** Claiming a batch, handling its next job, giving up the rest of it when the worker is stopped, and the
      jobs that transactions enqueue meanwhile. */
  datatype Move =
    | Claim(now: Time, rows: seq<Job>)
    | Handle(verdict: Verdict)
    | Stop
    | Enqueued(job: Job)

  ghost function Next(w: Worker, max: nat, limit: nat, move: Move): Worker {
    match move
    case Claim(now, rows) =>
      if w.batch == [] && w.clock <= now && IsClaim(w.jobs, now, limit, rows) then Worker(w.jobs, rows, now) else w
    case Handle(verdict) =>
      if Handles(w, move) then Worker(Handled(w.jobs, w.batch[0], max, verdict), w.batch[1..], verdict.now) else w
    case Stop => w.(batch := [])
    case Enqueued(job) =>
      if job.id !in w.jobs && job.status == Pending && job.attempts == 0 then w.(jobs := w.jobs[job.id := job]) else w
  }

  /** The move calls the handler. */
  predicate Handles(w: Worker, move: Move) {
    move.Handle? && w.batch != [] && w.clock <= move.verdict.now
  }

  predicate HandlesJob(w: Worker, move: Move, id: string) {
    Handles(w, move) && w.batch[0].id == id
  }

  ghost function Run(w: Worker, max: nat, limit: nat, moves: seq<Move>): Worker
    decreases |moves|
  {
    if moves == [] then w else Run(Next(w, max, limit, moves[0]), max, limit, moves[1..])
  }

  ghost predicate JobFine(jobs: map<string, Job>, max: nat, k: string)
    requires k in jobs
  {
    && jobs[k].id == k && 0 <= jobs[k].attempts <= max
    && (jobs[k].status == Pending ==> jobs[k].attempts < max)
  }

  /** What is claimed is still as it was claimed. */
  ghost predicate Claimed(w: Worker) {
    && DistinctJobs(w.batch)
    && forall i :: 0 <= i < |w.batch| ==>
      w.batch[i].id in w.jobs && w.jobs[w.batch[i].id] == w.batch[i] && Due(w.batch[i], w.clock)
  }

  ghost predicate Fine(w: Worker, max: nat) {
    max >= 1 && Claimed(w) && forall k :: k in w.jobs ==> JobFine(w.jobs, max, k)
  }

  lemma StepStaysFine(w: Worker, max: nat, limit: nat, move: Move)
    requires Fine(w, max)
    ensures Fine(Next(w, max, limit, move), max)
    ensures w.clock <= Next(w, max, limit, move).clock
  {
    if Handles(w, move) {
      var rest := w.batch[1..];
      forall i | 0 <= i < |rest| ensures rest[i] == w.batch[i + 1] && rest[i].id != w.batch[0].id {
      }
    }
  }

  lemma {:induction false} RunStaysFine(w: Worker, max: nat, limit: nat, moves: seq<Move>)
    requires Fine(w, max)
    ensures Fine(Run(w, max, limit, moves), max)
    ensures w.clock <= Run(w, max, limit, moves).clock
    decreases |moves|
  {
    hide Next, Fine;
    if moves != [] {
      StepStaysFine(w, max, limit, moves[0]);
      RunStaysFine(Next(w, max, limit, moves[0]), max, limit, moves[1..]);
    }
  }

  // ---------------------------------------------------------------------------------------
  // Bounded attempts
  // ---------------------------------------------------------------------------------------

  /** How often the handler is called with a job over a run. */
  ghost function Handlings(w: Worker, max: nat, limit: nat, moves: seq<Move>, id: string): nat
    decreases |moves|
  {
    if moves == [] then 0
    else
      (if HandlesJob(w, moves[0], id) then 1 else 0)
      + Handlings(Next(w, max, limit, moves[0]), max, limit, moves[1..], id)
  }

  /** How often a job may still be handled. */
  function Budget(jobs: map<string, Job>, max: nat, id: string): int {
    if id !in jobs then max
    else if jobs[id].status == Pending then max - jobs[id].attempts
    else 0
  }

  lemma BudgetShrinks(w: Worker, max: nat, limit: nat, move: Move, id: string)
    requires Fine(w, max)
    ensures Budget(w.jobs, max, id) >= 0
    ensures Budget(Next(w, max, limit, move).jobs, max, id)
            <= Budget(w.jobs, max, id) - (if HandlesJob(w, move, id) then 1 else 0)
  {
    if Handles(w, move) {
      assert w.batch[0].id in w.jobs && JobFine(w.jobs, max, w.batch[0].id);
    }
  }

  /** No job is ever handled more often than the maximum number of attempts. */
  lemma {:induction false} HandledAtMostMax(w: Worker, max: nat, limit: nat, moves: seq<Move>, id: string)
    requires Fine(w, max)
    ensures Handlings(w, max, limit, moves, id) <= Budget(w.jobs, max, id) <= max
    decreases |moves|
  {
    hide Next, HandlesJob;
    if moves == [] {
      BudgetShrinks(w, max, limit, Stop, id);
    } else {
      StepStaysFine(w, max, limit, moves[0]);
      BudgetShrinks(w, max, limit, moves[0], id);
      HandledAtMostMax(Next(w, max, limit, moves[0]), max, limit, moves[1..], id);
    }
  }

  /** Whenever the handler is called with the job, it fails. */
  ghost predicate AlwaysFails(w: Worker, max: nat, limit: nat, moves: seq<Move>, id: string)
    decreases |moves|
  {
    moves != [] ==>
      && (HandlesJob(w, moves[0], id) ==> moves[0].verdict.failed)
      && AlwaysFails(Next(w, max, limit, moves[0]), max, limit, moves[1..], id)
  }

  lemma FailingStep(w: Worker, max: nat, limit: nat, move: Move, id: string)
    requires Fine(w, max) && id in w.jobs && (HandlesJob(w, move, id) ==> move.verdict.failed)
    ensures var after := Next(w, max, limit, move);
            && id in after.jobs
            && after.jobs[id].attempts == w.jobs[id].attempts + (if HandlesJob(w, move, id) then 1 else 0)
            && (w.jobs[id].status == Pending ==>
                  after.jobs[id].status == (if after.jobs[id].attempts < max then Pending else PermanentFailure))
            && (w.jobs[id].status == PermanentFailure ==> after.jobs[id] == w.jobs[id])
  {
    if Handles(w, move) {
      assert w.batch[0].id in w.jobs && JobFine(w.jobs, max, w.batch[0].id);
    }
    assert JobFine(w.jobs, max, id);
  }

  /** A job that always fails stays pending until the handler has been called with it exactly as often as
      attempts are allowed, and is then a permanent failure. */
  lemma {:induction false} PermanentAfterExactlyMax(w: Worker, max: nat, limit: nat, moves: seq<Move>, id: string)
    requires Fine(w, max) && id in w.jobs && AlwaysFails(w, max, limit, moves, id)
    requires w.jobs[id].status == (if w.jobs[id].attempts < max then Pending else PermanentFailure)
    ensures var after := Run(w, max, limit, moves);
            && id in after.jobs
            && after.jobs[id].attempts == w.jobs[id].attempts + Handlings(w, max, limit, moves, id) <= max
            && (after.jobs[id].status == PermanentFailure <==> after.jobs[id].attempts == max)
            && (after.jobs[id].status == Pending <==> after.jobs[id].attempts < max)
    decreases |moves|
  {
    hide Next, HandlesJob, Claimed;
    assert JobFine(w.jobs, max, id);
    if moves != [] {
      StepStaysFine(w, max, limit, moves[0]);
      FailingStep(w, max, limit, moves[0], id);
      PermanentAfterExactlyMax(Next(w, max, limit, moves[0]), max, limit, moves[1..], id);
    }
  }

  /** A job that is done or failed for good is never claimed or handled again, and its row stays as it is. */
  lemma {:induction false} SettledStays(w: Worker, max: nat, limit: nat, moves: seq<Move>, id: string)
    requires Fine(w, max) && id in w.jobs && w.jobs[id].status != Pending
    ensures var after := Run(w, max, limit, moves);
            id in after.jobs && after.jobs[id] == w.jobs[id]
            && forall i :: 0 <= i < |after.batch| ==> after.batch[i].id != id
    ensures Handlings(w, max, limit, moves, id) == 0
    decreases |moves|
  {
    hide IsClaim, Handled;
    if moves != [] {
      StepStaysFine(w, max, limit, moves[0]);
      SettledStep(w, max, limit, moves[0], id);
      hide Next;
      SettledStays(Next(w, max, limit, moves[0]), max, limit, moves[1..], id);
    }
  }

  lemma SettledStep(w: Worker, max: nat, limit: nat, move: Move, id: string)
    requires Fine(w, max) && id in w.jobs && w.jobs[id].status != Pending
    ensures id in Next(w, max, limit, move).jobs && Next(w, max, limit, move).jobs[id] == w.jobs[id]
    ensures !HandlesJob(w, move, id)
  {
    hide IsClaim;
  }

  // ---------------------------------------------------------------------------------------
  // What becomes of a job
  // ---------------------------------------------------------------------------------------

  /** One handling: a success makes the job done and leaves its attempts; a failure counts, and is for good if
      it was the last one allowed, or else moves the next attempt. No other row changes. */
  lemma HandlingWrites(w: Worker, max: nat, limit: nat, move: Move, id: string)
    requires Fine(w, max) && id in w.jobs
    ensures var row, after := w.jobs[id], Next(w, max, limit, move).jobs;
      && id in after
      && (!HandlesJob(w, move, id) ==> after[id] == row)
      && (HandlesJob(w, move, id) ==>
            && row.status == Pending && row == w.batch[0]
            && after[id] ==
               if !move.verdict.failed then row.(status := Done)
               else if row.attempts + 1 == max then row.(status := PermanentFailure, attempts := max)
               else row.(attempts := row.attempts + 1, nextAttemptAt := move.verdict.now + Delay(row.attempts)))
  {
    hide IsClaim, Delay;
    assert JobFine(w.jobs, max, id);
  }

  /** How often the handler fails with a job over a run. */
  ghost function Failures(w: Worker, max: nat, limit: nat, moves: seq<Move>, id: string): nat
    decreases |moves|
  {
    if moves == [] then 0
    else
      (if HandlesJob(w, moves[0], id) && moves[0].verdict.failed then 1 else 0)
      + Failures(Next(w, max, limit, moves[0]), max, limit, moves[1..], id)
  }

  /** Some time in the run the handler succeeds with a job. */
  ghost predicate Succeeds(w: Worker, max: nat, limit: nat, moves: seq<Move>, id: string)
    decreases |moves|
  {
    moves != [] &&
    ((HandlesJob(w, moves[0], id) && !moves[0].verdict.failed)
     || Succeeds(Next(w, max, limit, moves[0]), max, limit, moves[1..], id))
  }

  lemma {:induction false} NothingHandled(w: Worker, max: nat, limit: nat, moves: seq<Move>, id: string)
    requires Handlings(w, max, limit, moves, id) == 0
    ensures Failures(w, max, limit, moves, id) == 0 && !Succeeds(w, max, limit, moves, id)
    decreases |moves|
  {
    hide Next, HandlesJob;
    if moves != [] {
      NothingHandled(Next(w, max, limit, moves[0]), max, limit, moves[1..], id);
    }
  }

  /** A job that was pending is done exactly if some handling of it succeeded; it is a permanent failure exactly
      if none did and the allowed attempts are used up; it is pending otherwise. Its attempts count the failed
      handlings and nothing else, and it still carries what it was enqueued with. */
  lemma {:induction false} FateExactly(w: Worker, max: nat, limit: nat, moves: seq<Move>, id: string)
    requires Fine(w, max) && id in w.jobs && w.jobs[id].status == Pending
    ensures id in Run(w, max, limit, moves).jobs
    ensures var job := Run(w, max, limit, moves).jobs[id];
      && job.attempts == w.jobs[id].attempts + Failures(w, max, limit, moves, id)
      && (job.status == Done <==> Succeeds(w, max, limit, moves, id))
      && (job.status == PermanentFailure <==>
            !Succeeds(w, max, limit, moves, id) && w.jobs[id].attempts + Failures(w, max, limit, moves, id) >= max)
      && job.id == w.jobs[id].id && job.payload == w.jobs[id].payload
    decreases |moves|
  {
    hide Next, HandlesJob, Fine, Delay;
    AttemptsLeft(w, max, id);
    if moves != [] {
      var next := Next(w, max, limit, moves[0]);
      HandlingWrites(w, max, limit, moves[0], id);
      StepStaysFine(w, max, limit, moves[0]);
      if next.jobs[id].status == Pending {
        FateExactly(next, max, limit, moves[1..], id);
      } else {
        SettledStays(next, max, limit, moves[1..], id);
        NothingHandled(next, max, limit, moves[1..], id);
      }
    }
  }

  lemma AttemptsLeft(w: Worker, max: nat, id: string)
    requires Fine(w, max) && id in w.jobs && w.jobs[id].status == Pending
    ensures w.jobs[id].attempts < max
  {
    assert JobFine(w.jobs, max, id);
  }

  // ---------------------------------------------------------------------------------------
  // Backoff
  // ---------------------------------------------------------------------------------------

  /** Over these moves the handler is not called with the job. */
  ghost predicate Rests(w: Worker, max: nat, limit: nat, moves: seq<Move>, id: string) {
    Handlings(w, max, limit, moves, id) == 0
  }

  lemma RestingStep(w: Worker, max: nat, limit: nat, move: Move, id: string)
    requires Fine(w, max) && id in w.jobs && !HandlesJob(w, move, id)
    ensures id in Next(w, max, limit, move).jobs && Next(w, max, limit, move).jobs[id] == w.jobs[id]
  {
    hide IsClaim;
  }

  lemma {:induction false} RestingRow(w: Worker, max: nat, limit: nat, moves: seq<Move>, id: string)
    requires Fine(w, max) && id in w.jobs && Rests(w, max, limit, moves, id)
    ensures id in Run(w, max, limit, moves).jobs && Run(w, max, limit, moves).jobs[id] == w.jobs[id]
    decreases |moves|
  {
    hide Next, HandlesJob, Fine;
    if moves != [] {
      RestingStep(w, max, limit, moves[0], id);
      StepStaysFine(w, max, limit, moves[0]);
      RestingRow(Next(w, max, limit, moves[0]), max, limit, moves[1..], id);
    }
  }

  /** Between a job's failure number k, counted from zero, and the next time the handler is called with it
      lie at least two to the power of min(k, 6) seconds. */
  lemma RetriesAreSpaced(w: Worker, max: nat, limit: nat, first: Move, between: seq<Move>, second: Move, id: string)
    requires Fine(w, max) && HandlesJob(w, first, id) && first.verdict.failed
    requires Rests(Next(w, max, limit, first), max, limit, between, id)
    requires HandlesJob(Run(Next(w, max, limit, first), max, limit, between), second, id)
    ensures second.verdict.now - first.verdict.now >= Delay(w.batch[0].attempts)
  {
    hide PowerOfTwo, Delay, IsClaim, Run;
    var w1 := Next(w, max, limit, first);
    var w2 := Run(w1, max, limit, between);
    StepStaysFine(w, max, limit, first);
    RestingRow(w1, max, limit, between, id);
    RunStaysFine(w1, max, limit, between);
    assert Due(w2.batch[0], w2.clock);
    assert JobFine(w.jobs, max, id);
  }

  /** And no longer than they must: until it is handled again, a job that failed and may be retried is pending
      and falls due exactly when that rest is over. */
  lemma RetryFallsDue(w: Worker, max: nat, limit: nat, first: Move, between: seq<Move>, id: string)
    requires Fine(w, max) && HandlesJob(w, first, id) && first.verdict.failed && w.batch[0].attempts + 1 < max
    requires Rests(Next(w, max, limit, first), max, limit, between, id)
    ensures var later := Run(Next(w, max, limit, first), max, limit, between);
      && id in later.jobs && later.jobs[id].status == Pending
      && later.jobs[id].nextAttemptAt == first.verdict.now + Delay(w.batch[0].attempts)
  {
    hide PowerOfTwo, Delay, IsClaim, Run, Next;
    BatchIsStored(w, max);
    HandlingWrites(w, max, limit, first, id);
    StepStaysFine(w, max, limit, first);
    RestingRow(Next(w, max, limit, first), max, limit, between, id);
  }

  lemma BatchIsStored(w: Worker, max: nat)
    requires Fine(w, max)
    ensures forall i :: 0 <= i < |w.batch| ==> w.batch[i].id in w.jobs && w.jobs[w.batch[i].id] == w.batch[i]
  {
  }

  /** The rests: one second, then twice as long each time, up to 64 seconds. */
  lemma RestsDouble(k: nat)
    ensures Delay(0) == SECOND
    ensures k < 6 ==> Delay(k + 1) == 2 * Delay(k)
    ensures k >= 6 ==> Delay(k) == 64 * SECOND
  {
    if k >= 6 {
      assert PowerOfTwo(6) == 2 * PowerOfTwo(5) && PowerOfTwo(5) == 2 * PowerOfTwo(4)
             && PowerOfTwo(4) == 2 * PowerOfTwo(3);
      assert PowerOfTwo(3) == 2 * PowerOfTwo(2) && PowerOfTwo(2) == 2 * PowerOfTwo(1)
             && PowerOfTwo(1) == 2 * PowerOfTwo(0);
    }
  }

  // ---------------------------------------------------------------------------------------
  // Termination
  // ---------------------------------------------------------------------------------------

  ghost function Budgets(jobs: map<string, Job>, max: nat): map<string, int> {
    map k | k in jobs && jobs[k].status == Pending :: max - jobs[k].attempts
  }

  /** What all pending jobs together may still ask of the handler. */
  ghost function Work(jobs: map<string, Job>, max: nat): int {
    Sum(Budgets(jobs, max))
  }

  lemma WorkIsBounded(w: Worker, max: nat)
    requires Fine(w, max)
    ensures Work(w.jobs, max) >= 0
  {
    forall k | k in w.jobs ensures w.jobs[k].status == Pending ==> max - w.jobs[k].attempts >= 0 {
      assert JobFine(w.jobs, max, k);
    }
    SumOfPart(map[], Budgets(w.jobs, max));
  }

  /** Every call of the handler strictly lowers the work left; nothing but a new job raises it. */
  lemma WorkShrinks(w: Worker, max: nat, limit: nat, move: Move)
    requires Fine(w, max) && !move.Enqueued?
    ensures Work(Next(w, max, limit, move).jobs, max) <= Work(w.jobs, max) - (if Handles(w, move) then 1 else 0)
  {
    if Handles(w, move) {
      var job := w.batch[0];
      assert job.id in w.jobs && JobFine(w.jobs, max, job.id);
      var before, after := Budgets(w.jobs, max), Budgets(Next(w, max, limit, move).jobs, max);
      if move.verdict.failed && job.attempts + 1 < max {
        assert after == before[job.id := max - job.attempts - 1];
        SumPlus(before, job.id, max - job.attempts - 1);
      } else {
        assert after == before - {job.id};
        SumWithout(before, job.id);
      }
    }
  }

  /** All calls of the handler over a run. */
  ghost function Calls(w: Worker, max: nat, limit: nat, moves: seq<Move>): nat
    decreases |moves|
  {
    if moves == [] then 0
    else (if Handles(w, moves[0]) then 1 else 0) + Calls(Next(w, max, limit, moves[0]), max, limit, moves[1..])
  }

  /** Without new jobs the worker comes to rest: it calls the handler no more often than the work left says. */
  lemma {:induction false} WorkerComesToRest(w: Worker, max: nat, limit: nat, moves: seq<Move>)
    requires Fine(w, max) && forall i :: 0 <= i < |moves| ==> !moves[i].Enqueued?
    ensures Calls(w, max, limit, moves) <= Work(w.jobs, max) - Work(Run(w, max, limit, moves).jobs, max)
    ensures Work(w.jobs, max) - Work(Run(w, max, limit, moves).jobs, max) <= Work(w.jobs, max)
    decreases |moves|
  {
    hide Next, Handles, Work;
    if moves == [] {
      WorkIsBounded(w, max);
    } else {
      StepStaysFine(w, max, limit, moves[0]);
      WorkShrinks(w, max, limit, moves[0]);
      WorkerComesToRest(Next(w, max, limit, moves[0]), max, limit, moves[1..]);
      RunStaysFine(w, max, limit, moves);
      WorkIsBounded(Run(w, max, limit, moves), max);
    }
  }

  // ---------------------------------------------------------------------------------------
  // The method and the moves
  // ---------------------------------------------------------------------------------------

  function HandleMoves(verdicts: seq<Verdict>): seq<Move> {
    seq(|verdicts|, i requires 0 <= i < |verdicts| => Handle(verdicts[i]))
  }

  /** The clock does not go back. */
  predicate ClockRuns(from: Time, verdicts: seq<Verdict>) {
    forall i, j :: 0 <= i <= j < |verdicts| ==> from <= verdicts[i].now <= verdicts[j].now
  }

  lemma {:induction false} HandlingIsARun(w: Worker, max: nat, limit: nat, verdicts: seq<Verdict>)
    requires |verdicts| == |w.batch| && ClockRuns(w.clock, verdicts)
    ensures Run(w, max, limit, HandleMoves(verdicts)).jobs == HandledAll(w.jobs, w.batch, max, verdicts)
    ensures Run(w, max, limit, HandleMoves(verdicts)).batch == []
    decreases |verdicts|
  {
    hide Handled;
    if verdicts != [] {
      var moves := HandleMoves(verdicts);
      assert verdicts[0] in verdicts && w.clock <= verdicts[0].now;
      assert moves[0] == Handle(verdicts[0]) && moves[1..] == HandleMoves(verdicts[1..]);
      var next := Next(w, max, limit, moves[0]);
      assert next == Worker(Handled(w.jobs, w.batch[0], max, verdicts[0]), w.batch[1..], verdicts[0].now);
      HandlingIsARun(next, max, limit, verdicts[1..]);
    }
  }

  /** One call of Process is a claim followed by one handling per claimed job. */
  lemma ProcessIsARun(w: Worker, max: nat, limit: nat, now: Time, claimed: seq<Job>, verdicts: seq<Verdict>)
    requires w.batch == [] && w.clock <= now && IsClaim(w.jobs, now, limit, claimed)
    requires |verdicts| == |claimed| && ClockRuns(now, verdicts)
    ensures Run(w, max, limit, [Claim(now, claimed)] + HandleMoves(verdicts)).jobs
            == HandledAll(w.jobs, claimed, max, verdicts)
  {
    hide Handled;
    var moves := [Claim(now, claimed)] + HandleMoves(verdicts);
    assert moves[0] == Claim(now, claimed) && moves[1..] == HandleMoves(verdicts);
    HandlingIsARun(Worker(w.jobs, claimed, now), max, limit, verdicts);
  }
}
