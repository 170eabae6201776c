/** The steps of the running program and the methods of the services: a step does to the tables what the method
    does to the store. */
module Steps {
  import opened Basics
  import opened Schema
  import opened Dispatch
  import opened Planning
  import opened Upkeep
  import opened Changes
  import opened Invariant
  import opened System
  import opened Interleaving
  import Fuelling
  import Inspecting
  import T = Trips

  /** A method whose contract is that transaction could leave the store as the step leaves the tables, and no
      call between two statements is touched. */
  ghost predicate Does<R(!new)>(s: Sys, after: Sys, intended: Result<(Tables, R)>) {
    after.pending == s.pending && exists r :: Settled(intended, s.db, after.db, r)
  }

  lemma CommitDoes<R(!new)>(s: Sys, intended: Result<(Tables, R)>)
    ensures Does(s, Commit(s, intended), intended)
  {
    var r := match intended case Ok(done) => Ok(done.1) case Err(e) => Err(e);
    assert Settled(intended, s.db, Commit(s, intended).db, r);
  }

  /** The transactions that are one step. */
  lemma TransactionsAreSteps(s: Sys, cfg: Config, step: Step)
    ensures var after := Next(s, cfg, step);
      match step
      case Register(vehicle, id, now) => Does(s, after, RegisterTx(s.db, vehicle, id, now))
      case CreateShift(shift, id, now) => Does(s, after, CreateShiftTx(s.db, shift, cfg.calendar, id, now))
      case Assign(input, view, now) =>
        Shows(s.db, input, view) ==> Does(s, after, AssignTx(s.db, input, view, now, cfg.limits))
      case Return(tripId, endOdometer, jobId, now) => Does(s, after, ReturnTx(s.db, tripId, endOdometer, jobId, now))
      case OpenOrder(vehicleId, kind, dueAt, id, now) => Does(s, after, OpenTx(s.db, vehicleId, kind, dueAt, id, now))
      case CompleteOrder(id, now) => Does(s, after, CompleteTx(s.db, id, now))
      case CreateInspection(vehicleId, inspector, at, id, validity, now) =>
        Does(s, after, Inspecting.CreateTx(s.db, vehicleId, inspector, at, id, validity, now))
      case Submit(id, loaded, ids, now) =>
        IsItemList(s.db.items, id, loaded) ==> Does(s, after, Inspecting.SubmitTx(s.db, id, loaded, ids, now))
      case LogFuel(fuel, ids, now) => Does(s, after, Fuelling.RecordTx(s.db, fuel, ids, now))
      case _ => true
  {
    hide RegisterTx, CreateShiftTx, AssignTx, ReturnTx, OpenTx, CompleteTx, StartTx, PlanCancel, SaveCancelled;
    hide PlanStart, SaveStarted, Shows, IsItemList, IsTripByKey, SaveHead, InsertItem, DeleteItems, Does, Commit;
    hide Inspecting.CreateTx, Inspecting.SubmitTx, Inspecting.Entered, Fuelling.RecordTx, Effect;
    match step {
      case Register(vehicle, id, now) => CommitDoes(s, RegisterTx(s.db, vehicle, id, now));
      case CreateShift(shift, id, now) => CommitDoes(s, CreateShiftTx(s.db, shift, cfg.calendar, id, now));
      case Assign(input, view, now) => CommitDoes(s, AssignTx(s.db, input, view, now, cfg.limits));
      case Return(tripId, endOdometer, jobId, now) => CommitDoes(s, ReturnTx(s.db, tripId, endOdometer, jobId, now));
      case OpenOrder(vehicleId, kind, dueAt, id, now) =>
        CommitDoes(s, OpenTx(s.db, vehicleId, kind, dueAt, id, now));
      case CompleteOrder(id, now) => CommitDoes(s, CompleteTx(s.db, id, now));
      case CreateInspection(vehicleId, inspector, at, id, validity, now) =>
        CommitDoes(s, Inspecting.CreateTx(s.db, vehicleId, inspector, at, id, validity, now));
      case Submit(id, loaded, ids, now) => CommitDoes(s, Inspecting.SubmitTx(s.db, id, loaded, ids, now));
      case LogFuel(fuel, ids, now) => CommitDoes(s, Fuelling.RecordTx(s.db, fuel, ids, now));
      case _ =>
    }
  }

  /** The lookup of StartTrip and its transaction, with nothing between, do what the whole call does. */
  lemma StartWithoutInterruption(s: Sys, cfg: Config, pid: nat, input: StartInput, found: Option<T.Trip>, ids: Ids,
                                 now: Time, ttl: int)
    requires !Waits(s, pid) && IsTripByKey(s.db.trips, input.vehicleId, input.key, found)
    ensures var after := Run(s, cfg, [StartLookup(pid, input, found), StartCommit(pid, ids, now, ttl)]);
            Does(s, after, StartResult(s.db, found, input, ids, now, ttl))
  {
    hide StartTx, Run, Next, IsTripByKey, Does;
    var lookup, commit := StartLookup(pid, input, found), StartCommit(pid, ids, now, ttl);
    TwoSteps(s, cfg, lookup, commit);
    LookupIs(s, cfg, pid, input, found);
    StartCommitIs(Next(s, cfg, lookup), cfg, pid, ids, now, ttl);
    CommitDoes(s, StartResult(s.db, found, input, ids, now, ttl));
    if input.key != "" && found == None {
      assert s.pending[pid := Starting(input)] - {pid} == s.pending;
    }
  }

  lemma LookupIs(s: Sys, cfg: Config, pid: nat, input: StartInput, found: Option<T.Trip>)
    requires !Waits(s, pid) && IsTripByKey(s.db.trips, input.vehicleId, input.key, found)
    ensures Next(s, cfg, StartLookup(pid, input, found)) ==
      if input.key == "" || found.Some? then s else Park(s, pid, Starting(input))
  {
    hide IsTripByKey;
  }

  /** The other steps of one statement: the crew and route services write a row, the worker marks a job, and a
      call that is abandoned leaves the tables alone. */
  lemma StatementsAreSteps(s: Sys, cfg: Config, step: Step)
    ensures var after := Next(s, cfg, step);
      match step
      case SaveRoute(route) => after == s.(db := s.db.(routes := s.db.routes[route.id := route]))
      case SaveDriver(driver) => driver.id != "" && driver.name != "" ==>
        after == s.(db := s.db.(drivers := s.db.drivers[driver.id := driver]))
      case MarkDone(id) => id in s.db.jobs ==>
        after == s.(db := s.db.(jobs := s.db.jobs[id := s.db.jobs[id].(status := Done)]))
      case MarkRetry(id, next) => id in s.db.jobs ==>
        var job := s.db.jobs[id];
        after == s.(db := s.db.(jobs := s.db.jobs[id := job.(status := JobStatus.Pending, attempts := job.attempts + 1,
                                                             nextAttemptAt := next)]))
      case MarkPermanent(id) => id in s.db.jobs ==>
        var job := s.db.jobs[id];
        after == s.(db := s.db.(jobs := s.db.jobs[id := job.(status := PermanentFailure,
                                                             attempts := job.attempts + 1)]))
      case Abandon(pid) => after == s.(pending := s.pending - {pid})
      case _ => true
  {
    hide RegisterTx, CreateShiftTx, AssignTx, ReturnTx, OpenTx, CompleteTx, StartTx, PlanCancel, SaveCancelled;
    hide PlanStart, SaveStarted, Shows, IsItemList, IsTripByKey, SaveHead, InsertItem, DeleteItems, Commit;
    hide Inspecting.CreateTx, Inspecting.SubmitTx, Inspecting.Entered, Fuelling.RecordTx;
  }
}
