/** Assigning many shifts at once (internal/service/batch/service.go): one goroutine per assignment, a
    semaphore that lets a few of them work at a time, and a shared slice of results. */
module Batch {
  import opened Basics
  import opened Schema
  import opened Dispatch
  import opened Changes
  import opened Invariant
  import opened Exact
  import W = Workplan
  import I = Inspections
  import BusinessDay
  import Scheduling

  function Parallel(configured: int): nat { if configured <= 0 then 4 else configured }

  /** How far a goroutine has come, and from the answer on, whether its assignment succeeded. */
  datatype Phase =
    | Waiting
    | Holding
    | Answered(ok: bool)
    | Written(ok: bool)
    | Finished(ok: bool)

  datatype BatchResult = BatchResult(shiftId: string, vehicleId: string, success: bool)

  /** One assignment as it was executed: what the database answered, and the clock. */
  datatype Turn = Turn(index: nat, view: AssignView, now: Time)

  /** Writes counts how often each slot has been written; log lists the executed assignments in the order
      of their transactions. */
  datatype State = State(
    t: Tables,
    phases: seq<Phase>,
    results: seq<Option<BatchResult>>,
    writes: seq<nat>,
    cancelled: bool,
    log: seq<Turn>)

  datatype Request = Request(assignments: seq<AssignInput>, maxParallel: int, cfg: Config) {
    function Limit(): nat { Parallel(maxParallel) }
  }

  datatype Move =
    | Cancel
    | Acquire(i: nat)
    | GiveUp(i: nat)
    | Refuse(i: nat)
    | Execute(i: nat, view: AssignView, now: Time)
    | WriteResult(i: nat)
    | Release(i: nat)

  predicate Holds(p: Phase) {
    p.Holding? || p.Answered? || p.Written?
  }

  predicate Won(p: Phase) {
    (p.Answered? || p.Written? || p.Finished?) && p.ok
  }

  ghost function Holders(phases: seq<Phase>): set<nat> {
    set i: nat | i < |phases| && Holds(phases[i])
  }

  ghost function Winners(phases: seq<Phase>): set<nat> {
    set i: nat | i < |phases| && Won(phases[i])
  }

  ghost function Begin(t: Tables, request: Request): State {
    var n := |request.assignments|;
    State(t, seq(n, _ => Waiting), seq(n, _ => None), seq(n, _ => 0), false, [])
  }

  function Put(s: State, request: Request, i: nat, ok: bool): State
    requires i < |s.results| && i < |s.writes| && i < |request.assignments|
  {
    var result := BatchResult(request.assignments[i].shiftId, request.assignments[i].vehicleId, ok);
    s.(results := s.results[i := Some(result)], writes := s.writes[i := s.writes[i] + 1])
  }

  function Turned(s: State, i: nat, p: Phase): State
    requires i < |s.phases|
  {
    s.(phases := s.phases[i := p])
  }

  ghost predicate Shaped(s: State, request: Request) {
    |s.phases| == |s.results| == |s.writes| == |request.assignments|
  }

  /** When a move can be made. */
  ghost predicate Enabled(s: State, request: Request, move: Move)
    requires Shaped(s, request)
  {
    match move
    case Cancel => true
    case Acquire(i) => i < |s.phases| && s.phases[i].Waiting? && |Holders(s.phases)| < request.Limit()
    case GiveUp(i) => i < |s.phases| && s.phases[i].Waiting? && s.cancelled
    case Refuse(i) => i < |s.phases| && s.phases[i].Holding? && s.cancelled
    case Execute(i, view, now) => i < |s.phases| && s.phases[i].Holding? && Shows(s.t, request.assignments[i], view)
    case WriteResult(i) => i < |s.phases| && s.phases[i].Answered?
    case Release(i) => i < |s.phases| && s.phases[i].Written?
  }

  ghost function Next(s: State, request: Request, move: Move): (after: State)
    requires Shaped(s, request)
    ensures Shaped(after, request)
  {
    if !Enabled(s, request, move) then s
    else match move
      case Cancel => s.(cancelled := true)
      case Acquire(i) => Turned(s, i, Holding)
      case GiveUp(i) => Turned(Put(s, request, i, false), i, Finished(false))
      case Refuse(i) => Turned(s, i, Answered(false))
      case Execute(i, view, now) =>
        var r := AssignTx(s.t, request.assignments[i], view, now, request.cfg.limits);
        Turned(s, i, Answered(r.Ok?)).(t := if r.Ok? then r.value.0 else s.t, log := s.log + [Turn(i, view, now)])
      case WriteResult(i) => Turned(Put(s, request, i, s.phases[i].ok), i, Written(s.phases[i].ok))
      case Release(i) => Turned(s, i, Finished(s.phases[i].ok))
  }

  ghost function Run(s: State, request: Request, moves: seq<Move>): (after: State)
    requires Shaped(s, request)
    ensures Shaped(after, request)
    decreases |moves|
  {
    if moves == [] then s else Run(Next(s, request, moves[0]), request, moves[1..])
  }

  // ---------------------------------------------------------------------------------------
  // The semaphore and the slots
  // ---------------------------------------------------------------------------------------

  /** A slot is written once its goroutine has got that far, exactly once, and says how its assignment went. */
  ghost predicate SlotOk(s: State, request: Request, i: nat)
    requires Shaped(s, request) && i < |s.phases|
  {
    if s.phases[i].Written? || s.phases[i].Finished? then
      s.writes[i] == 1
      && s.results[i] == Some(BatchResult(request.assignments[i].shiftId, request.assignments[i].vehicleId,
                                          s.phases[i].ok))
    else
      s.writes[i] == 0 && s.results[i] == None
  }

  ghost predicate SlotsOk(s: State, request: Request) {
    && Shaped(s, request)
    && |Holders(s.phases)| <= request.Limit()
    && forall i :: 0 <= i < |s.phases| ==> SlotOk(s, request, i)
  }

  lemma OneDiffers(before: set<nat>, after: set<nat>, i: nat)
    requires before - {i} == after - {i}
    ensures |after| == |before| + (if i in after then 1 else 0) - (if i in before then 1 else 0)
  {
    var rest := before - {i};
    assert i in before ==> before == rest + {i};
    assert i !in before ==> before == rest;
    assert i in after ==> after == rest + {i};
    assert i !in after ==> after == rest;
  }

  lemma MoreHolders(phases: seq<Phase>, i: nat, p: Phase)
    requires i < |phases|
    ensures |Holders(phases[i := p])|
            == |Holders(phases)| + (if Holds(p) then 1 else 0) - (if Holds(phases[i]) then 1 else 0)
  {
    OneDiffers(Holders(phases), Holders(phases[i := p]), i);
  }

  lemma MoreWinners(phases: seq<Phase>, i: nat, p: Phase)
    requires i < |phases|
    ensures |Winners(phases[i := p])|
            == |Winners(phases)| + (if Won(p) then 1 else 0) - (if Won(phases[i]) then 1 else 0)
  {
    OneDiffers(Winners(phases), Winners(phases[i := p]), i);
  }

  lemma MoveKeepsSlots(s: State, request: Request, move: Move)
    requires SlotsOk(s, request)
    ensures SlotsOk(Next(s, request, move), request)
  {
    hide Holders, AssignTx, Shows;
    var after := Next(s, request, move);
    if Enabled(s, request, move) && !move.Cancel? {
      MoreHolders(s.phases, move.i, after.phases[move.i]);
      assert after.phases == s.phases[move.i := after.phases[move.i]];
    }
    forall i | 0 <= i < |after.phases| ensures SlotOk(after, request, i) {
      assert SlotOk(s, request, i);
    }
  }

  // ---------------------------------------------------------------------------------------
  // The store
  // ---------------------------------------------------------------------------------------

  /** The executed assignments, one after the other. */
  ghost function Sequential(t: Tables, request: Request, log: seq<Turn>): Tables
    decreases |log|
  {
    if log == [] then t
    else
      var before := Sequential(t, request, log[..|log| - 1]);
      var r := Attempt(before, request, log[|log| - 1]);
      if r.Ok? then r.value.0 else before
  }

  function Attempt(t: Tables, request: Request, turn: Turn): Result<(Tables, W.Shift)> {
    if turn.index < |request.assignments|
    then AssignTx(t, request.assignments[turn.index], turn.view, turn.now, request.cfg.limits)
    else Err(Validation)
  }

  ghost function NewlyAssigned(before: Tables, after: Tables): set<string> {
    set k | k in after.shifts && after.shifts[k].status == W.Assigned
      && !(k in before.shifts && before.shifts[k].status == W.Assigned)
  }

  /** Shifts are as they were, or were scheduled and have been assigned; nothing else has changed. */
  ghost predicate OnlyAssigns(before: Tables, after: Tables) {
    && after == before.(shifts := after.shifts)
    && after.shifts.Keys == before.shifts.Keys
    && forall k :: k in before.shifts ==>
      after.shifts[k] == before.shifts[k]
      || (before.shifts[k].status == W.Scheduled && after.shifts[k].status == W.Assigned)
  }

  /** A goroutine that won has its shift assigned to its vehicle. */
  ghost predicate WinnersAssigned(s: State, request: Request)
    requires Shaped(s, request)
  {
    forall i :: 0 <= i < |s.phases| && Won(s.phases[i]) ==>
      var a := request.assignments[i];
      a.shiftId in s.t.shifts && s.t.shifts[a.shiftId].assignedVehicleId == Some(a.vehicleId)
      && s.t.shifts[a.shiftId].status == W.Assigned
  }

  ghost predicate StoreFine(t0: Tables, s: State, request: Request) {
    && Shaped(s, request)
    && Inv(s.t, request.cfg)
    && s.t == Sequential(t0, request, s.log)
    && OnlyAssigns(t0, s.t)
    && |NewlyAssigned(t0, s.t)| == |Winners(s.phases)|
    && WinnersAssigned(s, request)
  }

  /** A successful assignment turns one scheduled shift into an assigned one. */
  lemma OneMoreAssigned(t0: Tables, t: Tables, cfg: Config, input: AssignInput, view: AssignView, now: Time)
    requires Inv(t, cfg) && Shows(t, input, view) && OnlyAssigns(t0, t)
    requires AssignTx(t, input, view, now, cfg.limits).Ok?
    ensures var after := AssignTx(t, input, view, now, cfg.limits).value.0;
            && Inv(after, cfg) && OnlyAssigns(t0, after)
            && |NewlyAssigned(t0, after)| == |NewlyAssigned(t0, t)| + 1
            && input.shiftId in after.shifts && after.shifts[input.shiftId].status == W.Assigned
            && after.shifts[input.shiftId].assignedVehicleId == Some(input.vehicleId)
            && (forall k :: k in t.shifts && t.shifts[k].status == W.Assigned
                  ==> k in after.shifts && after.shifts[k] == t.shifts[k])
  {
    hide Inv, Permitted, Effect, AssignTx, Shows, OnlyAssigns, NewlyAssigned;
    AssignMakesChange(t, cfg, input, view, now);
    var c := ShiftAssigned(AssignTx(t, input, view, now, cfg.limits).value.1);
    ChangeKeepsInvariant(t, cfg, c);
    AssignedShift(t, cfg, input, view, now);
    AssignedCount(t0, t, cfg, c.s);
  }

  lemma AssignedShift(t: Tables, cfg: Config, input: AssignInput, view: AssignView, now: Time)
    requires Inv(t, cfg) && AssignTx(t, input, view, now, cfg.limits).Ok?
    ensures var s := AssignTx(t, input, view, now, cfg.limits).value.1;
            s.id == input.shiftId && s.assignedVehicleId == Some(input.vehicleId) && s.status == W.Assigned
  {
    hide TripsOk, TripsUnique, Covered, OrdersOk, OdometerOk, JobsOk, KeysOk, InspectionsOk, BookingOk;
    hide CalendarOk, DriversOk;
    hide Scheduling.CanTake, HasActiveOrder;
  }

  lemma AssignedCount(t0: Tables, t: Tables, cfg: Config, s: W.Shift)
    requires OnlyAssigns(t0, t) && Permitted(t, cfg, ShiftAssigned(s))
    ensures var after := Effect(t, ShiftAssigned(s));
            && OnlyAssigns(t0, after)
            && |NewlyAssigned(t0, after)| == |NewlyAssigned(t0, t)| + 1
            && after.shifts == t.shifts[s.id := s] && t.shifts[s.id].status == W.Scheduled
  {
    ShiftWritten(t, cfg, ShiftAssigned(s));
    ShiftTaken(t, cfg, ShiftAssigned(s));
    hide Permitted, Scheduling.LeavesRoom;
    var after := Effect(t, ShiftAssigned(s));
    assert NewlyAssigned(t0, after) == NewlyAssigned(t0, t) + {s.id};
  }

  lemma MoveKeepsStore(t0: Tables, s: State, request: Request, move: Move)
    requires StoreFine(t0, s, request)
    ensures StoreFine(t0, Next(s, request, move), request)
  {
    hide Inv, Shows, OnlyAssigns, NewlyAssigned, Winners, AssignTx, Sequential;
    if Enabled(s, request, move) && !move.Cancel? {
      var after := Next(s, request, move);
      MoreWinners(s.phases, move.i, after.phases[move.i]);
      if move.Execute? {
        ExecuteKeepsStore(t0, s, request, move);
      }
    }
  }

  lemma ExecuteKeepsStore(t0: Tables, s: State, request: Request, move: Move)
    requires StoreFine(t0, s, request) && move.Execute? && Enabled(s, request, move)
    ensures StoreFine(t0, Next(s, request, move), request)
  {
    hide Inv, Shows, OnlyAssigns, NewlyAssigned, Winners, AssignTx, WinnersAssigned;
    var after := Next(s, request, move);
    var i, input := move.i, request.assignments[move.i];
    MoreWinners(s.phases, i, after.phases[i]);
    assert after.log[..|after.log| - 1] == s.log;
    assert Sequential(t0, request, after.log) == after.t;
    if AssignTx(s.t, input, move.view, move.now, request.cfg.limits).Ok? {
      OneMoreAssigned(t0, s.t, request.cfg, input, move.view, move.now);
    }
    ExecuteKeepsWinners(s, request, move);
  }

  lemma ExecuteKeepsWinners(s: State, request: Request, move: Move)
    requires Shaped(s, request) && Inv(s.t, request.cfg) && WinnersAssigned(s, request) && move.Execute?
             && Enabled(s, request, move)
    ensures WinnersAssigned(Next(s, request, move), request)
  {
    hide Inv, Shows, OnlyAssigns, NewlyAssigned, AssignTx;
    var i, input := move.i, request.assignments[move.i];
    if AssignTx(s.t, input, move.view, move.now, request.cfg.limits).Ok? {
      NothingAssignedYet(s.t);
      OneMoreAssigned(s.t, s.t, request.cfg, input, move.view, move.now);
    }
  }

  lemma NothingAssignedYet(t: Tables)
    ensures OnlyAssigns(t, t)
  {
  }

  // ---------------------------------------------------------------------------------------
  // The log
  // ---------------------------------------------------------------------------------------

  /** A logged assignment ran on the store its predecessors left, and its goroutine won if it went through. */
  ghost predicate TurnOk(t0: Tables, s: State, request: Request, k: nat)
    requires Shaped(s, request) && k < |s.log|
  {
    var turn, before := s.log[k], Sequential(t0, request, s.log[..k]);
    && turn.index < |s.phases| && !s.phases[turn.index].Waiting? && !s.phases[turn.index].Holding?
    && Shows(before, request.assignments[turn.index], turn.view)
    && (Won(s.phases[turn.index]) <==> Attempt(before, request, turn).Ok?)
  }

  ghost predicate Executed(log: seq<Turn>, i: nat) {
    exists k :: 0 <= k < |log| && log[k].index == i
  }

  ghost predicate LogOk(t0: Tables, s: State, request: Request) {
    && Shaped(s, request)
    && s.t == Sequential(t0, request, s.log)
    && (forall k :: 0 <= k < |s.log| ==> TurnOk(t0, s, request, k))
    && (forall k, m :: 0 <= k < m < |s.log| ==> s.log[k].index != s.log[m].index)
    && (forall i :: 0 <= i < |s.phases| && Won(s.phases[i]) ==> Executed(s.log, i))
  }

  lemma MoveKeepsLog(t0: Tables, s: State, request: Request, move: Move)
    requires LogOk(t0, s, request)
    ensures LogOk(t0, Next(s, request, move), request)
  {
    hide Sequential, Shows, AssignTx, Executed, Holders;
    var after := Next(s, request, move);
    if Enabled(s, request, move) && move.Execute? {
      ExecuteKeepsLog(t0, s, request, move);
    } else {
      forall k | 0 <= k < |after.log| ensures TurnOk(t0, after, request, k) {
        assert TurnOk(t0, s, request, k);
      }
    }
  }

  lemma ExecuteKeepsLog(t0: Tables, s: State, request: Request, move: Move)
    requires LogOk(t0, s, request) && move.Execute? && Enabled(s, request, move)
    ensures LogOk(t0, Next(s, request, move), request)
  {
    hide Inv;
    hide Shows, AssignTx, Holders;
    var after := Next(s, request, move);
    var n := |s.log|;
    assert after.log[..n] == s.log;
    forall k | 0 <= k < |after.log| ensures TurnOk(t0, after, request, k) {
      if k < n {
        assert TurnOk(t0, s, request, k);
        assert after.log[..k] == s.log[..k] && after.log[k] == s.log[k];
      }
    }
    forall k, m | 0 <= k < m < |after.log| ensures after.log[k].index != after.log[m].index {
      assert TurnOk(t0, s, request, k);
    }
    forall i | 0 <= i < |after.phases| && Won(after.phases[i]) ensures Executed(after.log, i) {
      if i == move.i {
        assert after.log[n].index == i;
      } else {
        assert Executed(s.log, i);
        var k :| 0 <= k < |s.log| && s.log[k].index == i;
        assert after.log[k].index == i;
      }
    }
  }

  // ---------------------------------------------------------------------------------------
  // Every schedule
  // ---------------------------------------------------------------------------------------

  ghost predicate AllFine(t0: Tables, s: State, request: Request) {
    SlotsOk(s, request) && StoreFine(t0, s, request) && LogOk(t0, s, request)
  }

  lemma BeginIsFine(t: Tables, request: Request)
    requires Inv(t, request.cfg)
    ensures AllFine(t, Begin(t, request), request)
  {
    hide Inv;
    var s := Begin(t, request);
    assert Holders(s.phases) == {} && Winners(s.phases) == {} && NewlyAssigned(t, t) == {};
  }

  lemma {:induction false} RunIsFine(t0: Tables, s: State, request: Request, moves: seq<Move>)
    requires AllFine(t0, s, request)
    ensures AllFine(t0, Run(s, request, moves), request)
    decreases |moves|
  {
    hide Next, StoreFine, LogOk;
    if moves != [] {
      MoveKeepsSlots(s, request, moves[0]);
      MoveKeepsStore(t0, s, request, moves[0]);
      MoveKeepsLog(t0, s, request, moves[0]);
      RunIsFine(t0, Next(s, request, moves[0]), request, moves[1..]);
    }
  }

  ghost function Successes(results: seq<Option<BatchResult>>): set<nat> {
    set i: nat | i < |results| && results[i].Some? && results[i].value.success
  }

  /** Whatever the goroutines' schedule and whenever the context is cancelled, never more than the limit
      work at a time, and when all have finished every slot has been written exactly once; the store is
      what the executed assignments make of it one after the other; there are as many successes as newly
      assigned shifts; and each success has its shift assigned to its vehicle. */
  lemma EveryScheduleIsSequential(t: Tables, request: Request, moves: seq<Move>)
    requires Inv(t, request.cfg)
    ensures var s := Run(Begin(t, request), request, moves);
      && |set i: nat | i < |s.phases| && !s.phases[i].Waiting? && !s.phases[i].Finished?|
         <= (if request.maxParallel <= 0 then 4 else request.maxParallel)
      && s.t == Sequential(t, request, s.log) && OnlyAssigns(t, s.t)
      && (AllFinished(s) ==>
            && |s.results| == |request.assignments|
            && (forall i :: 0 <= i < |s.results| ==> s.writes[i] == 1 && s.results[i].Some?)
            && |Successes(s.results)| == |NewlyAssigned(t, s.t)|
            && forall i :: 0 <= i < |s.results| && s.results[i].value.success ==>
              var a := request.assignments[i];
              a.shiftId in s.t.shifts && s.t.shifts[a.shiftId].assignedVehicleId == Some(a.vehicleId))
  {
    hide Inv, Run, OnlyAssigns, NewlyAssigned, Sequential, LogOk;
    BeginIsFine(t, request);
    RunIsFine(t, Begin(t, request), request, moves);
    var s := Run(Begin(t, request), request, moves);
    assert Holders(s.phases) == set i: nat | i < |s.phases| && !s.phases[i].Waiting? && !s.phases[i].Finished?;
    if AllFinished(s) {
      forall i | 0 <= i < |s.results|
        ensures s.writes[i] == 1 && s.results[i].Some? && s.results[i].value.success == Won(s.phases[i])
      {
        assert SlotOk(s, request, i);
      }
      assert Successes(s.results) == Winners(s.phases);
    }
  }

  ghost predicate AllFinished(s: State) {
    forall i :: 0 <= i < |s.phases| ==> s.phases[i].Finished?
  }

  /** A success is exactly an assignment that went through at its turn. */
  lemma SuccessMeansItsTurn(t: Tables, request: Request, moves: seq<Move>, i: nat)
    requires Inv(t, request.cfg) && i < |request.assignments|
    ensures var s := Run(Begin(t, request), request, moves);
      AllFinished(s) ==>
        (s.results[i] == Some(BatchResult(request.assignments[i].shiftId, request.assignments[i].vehicleId, true)) <==>
          exists k :: 0 <= k < |s.log| && s.log[k].index == i
            && Attempt(Sequential(t, request, s.log[..k]), request, s.log[k]).Ok?)
  {
    hide Inv, Run, StoreFine, Sequential, Attempt, Shows;
    BeginIsFine(t, request);
    RunIsFine(t, Begin(t, request), request, moves);
    var s := Run(Begin(t, request), request, moves);
    if AllFinished(s) {
      assert SlotOk(s, request, i);
      if Won(s.phases[i]) {
        assert Executed(s.log, i);
        var k :| 0 <= k < |s.log| && s.log[k].index == i;
        assert TurnOk(t, s, request, k);
      }
      forall k | 0 <= k < |s.log| && s.log[k].index == i
        && Attempt(Sequential(t, request, s.log[..k]), request, s.log[k]).Ok?
        ensures Won(s.phases[i])
      {
        assert TurnOk(t, s, request, k);
      }
    }
  }

  // ---------------------------------------------------------------------------------------
  // Every goroutine calls AssignShift once, unless the context is cancelled
  // ---------------------------------------------------------------------------------------

  /** Move m is the goroutine's call of AssignShift, made in the state to which the moves before it lead. */
  ghost predicate CallsAt(s: State, request: Request, moves: seq<Move>, m: nat, i: nat)
    requires Shaped(s, request)
  {
    m < |moves| && moves[m].Execute? && moves[m].i == i && Enabled(Run(s, request, moves[..m]), request, moves[m])
  }

  /** What AssignShift makes of the store as it is when move m calls it. */
  ghost function AnswerAt(s: State, request: Request, moves: seq<Move>, m: nat): Result<(Tables, W.Shift)>
    requires Shaped(s, request) && m < |moves| && moves[m].Execute? && moves[m].i < |request.assignments|
  {
    AssignTx(Run(s, request, moves[..m]).t, request.assignments[moves[m].i], moves[m].view, moves[m].now,
             request.cfg.limits)
  }

  /** Move m is the goroutine giving up, before it has called, after the context was cancelled. */
  ghost predicate GivesUpAt(s: State, moves: seq<Move>, m: nat, i: nat) {
    && m < |moves| && (moves[m] == GiveUp(i) || moves[m] == Refuse(i))
    && (s.cancelled || exists c :: 0 <= c < m && moves[c] == Cancel)
  }

  /** The goroutine has not called yet. */
  predicate Before(p: Phase) {
    p.Waiting? || p.Holding?
  }

  lemma PrefixRuns(s: State, request: Request, moves: seq<Move>, m: nat)
    requires Shaped(s, request) && 0 < m <= |moves|
    ensures Run(s, request, moves[..m]) == Run(Next(s, request, moves[0]), request, moves[1..][..m - 1])
  {
    hide Next;
    assert moves[..m][1..] == moves[1..][..m - 1];
  }

  lemma LaterCalls(s: State, request: Request, moves: seq<Move>, m: nat, i: nat)
    requires Shaped(s, request) && 0 < m < |moves|
    ensures CallsAt(s, request, moves, m, i) <==> CallsAt(Next(s, request, moves[0]), request, moves[1..], m - 1, i)
    ensures moves[m].Execute? && moves[m].i < |request.assignments| ==>
      AnswerAt(s, request, moves, m) == AnswerAt(Next(s, request, moves[0]), request, moves[1..], m - 1)
  {
    hide Next, Enabled;
    PrefixRuns(s, request, moves, m);
  }

  lemma FirstCall(s: State, request: Request, moves: seq<Move>, i: nat)
    requires Shaped(s, request) && moves != []
    ensures CallsAt(s, request, moves, 0, i) <==>
      moves[0].Execute? && moves[0].i == i && Enabled(s, request, moves[0])
    ensures moves[0].Execute? && moves[0].i < |request.assignments| ==>
      AnswerAt(s, request, moves, 0)
      == AssignTx(s.t, request.assignments[moves[0].i], moves[0].view, moves[0].now, request.cfg.limits)
  {
    hide Enabled, AssignTx;
    assert moves[..0] == [];
  }

  /** Other goroutines' moves leave a goroutine's phase alone; its own take it forward. */
  lemma PhaseAfter(s: State, request: Request, move: Move, i: nat)
    requires Shaped(s, request) && i < |s.phases|
    ensures var after := Next(s, request, move);
      && (!Before(s.phases[i]) ==> !Before(after.phases[i]) && after.phases[i].ok == s.phases[i].ok)
      && (!Before(s.phases[i]) && move.Execute? && move.i == i ==> !Enabled(s, request, move))
      && (Before(s.phases[i]) && !Before(after.phases[i]) ==>
            Enabled(s, request, move)
            && (move == GiveUp(i) || move == Refuse(i) || (move.Execute? && move.i == i)))
      && (Before(s.phases[i]) && Enabled(s, request, move) && move.Execute? && move.i == i ==>
            !Before(after.phases[i])
            && (after.phases[i].ok <==>
                  AssignTx(s.t, request.assignments[i], move.view, move.now, request.cfg.limits).Ok?))
      && (Before(s.phases[i]) && Enabled(s, request, move) && (move == GiveUp(i) || move == Refuse(i)) ==>
            s.cancelled && !Before(after.phases[i]) && !after.phases[i].ok)
      && (after.cancelled ==> s.cancelled || move == Cancel)
  {
    hide AssignTx, Shows, Holders;
  }

  /** A goroutine that has its answer keeps it and does not call again. */
  lemma {:induction false} AnswerStays(s: State, request: Request, moves: seq<Move>, i: nat)
    requires Shaped(s, request) && i < |s.phases| && !Before(s.phases[i])
    ensures var after := Run(s, request, moves);
            !Before(after.phases[i]) && after.phases[i].ok == s.phases[i].ok
    ensures forall m :: !CallsAt(s, request, moves, m, i)
    decreases |moves|
  {
    hide Next, Enabled, CallsAt, Before;
    if moves == [] {
      forall m: nat ensures !CallsAt(s, request, moves, m, i) { NoCallThere(s, request, moves, m, i); }
    } else {
      PhaseAfter(s, request, moves[0], i);
      AnswerStays(Next(s, request, moves[0]), request, moves[1..], i);
      forall m: nat ensures !CallsAt(s, request, moves, m, i) {
        if m == 0 {
          FirstCall(s, request, moves, i);
        } else if m < |moves| {
          LaterCalls(s, request, moves, m, i);
        } else {
          NoCallThere(s, request, moves, m, i);
        }
      }
    }
  }

  lemma NoCallThere(s: State, request: Request, moves: seq<Move>, m: nat, i: nat)
    requires Shaped(s, request) && m >= |moves|
    ensures !CallsAt(s, request, moves, m, i)
  {
  }

  /** Move m is the goroutine's only call, and the answer is that of AssignShift to it. */
  ghost predicate OnlyCall(s: State, request: Request, moves: seq<Move>, m: nat, i: nat, ok: bool)
    requires Shaped(s, request)
  {
    && CallsAt(s, request, moves, m, i) && (ok <==> AnswerAt(s, request, moves, m).Ok?)
    && forall k :: CallsAt(s, request, moves, k, i) ==> k == m
  }

  ghost predicate CalledOnce(s: State, request: Request, moves: seq<Move>, i: nat, ok: bool)
    requires Shaped(s, request)
  {
    exists m :: OnlyCall(s, request, moves, m, i, ok)
  }

  /** The goroutine made no call, because the context was cancelled. */
  ghost predicate NeverCalled(s: State, request: Request, moves: seq<Move>, i: nat)
    requires Shaped(s, request)
  {
    (exists m :: GivesUpAt(s, moves, m, i)) && forall k :: !CallsAt(s, request, moves, k, i)
  }

  lemma CalledLater(s: State, request: Request, moves: seq<Move>, i: nat, ok: bool)
    requires Shaped(s, request) && i < |s.phases| && moves != [] && !CallsAt(s, request, moves, 0, i)
    requires CalledOnce(Next(s, request, moves[0]), request, moves[1..], i, ok)
    ensures CalledOnce(s, request, moves, i, ok)
  {
    hide Next, OnlyCall, CallsAt;
    var m: nat :| OnlyCall(Next(s, request, moves[0]), request, moves[1..], m, i, ok);
    OnlyCallLater(s, request, moves, m, i, ok);
  }

  lemma OnlyCallLater(s: State, request: Request, moves: seq<Move>, m: nat, i: nat, ok: bool)
    requires Shaped(s, request) && i < |s.phases| && moves != [] && !CallsAt(s, request, moves, 0, i)
    requires OnlyCall(Next(s, request, moves[0]), request, moves[1..], m, i, ok)
    ensures OnlyCall(s, request, moves, m + 1, i, ok)
  {
    hide Next, Enabled, AnswerAt;
    CallIsAMove(Next(s, request, moves[0]), request, moves[1..], m, i);
    LaterCalls(s, request, moves, m + 1, i);
    hide CallsAt;
    forall k: nat | CallsAt(s, request, moves, k, i) ensures k == m + 1 {
      CallIsAMove(s, request, moves, k, i);
      if k > 0 {
        LaterCalls(s, request, moves, k, i);
      }
    }
  }

  lemma CallIsAMove(s: State, request: Request, moves: seq<Move>, m: nat, i: nat)
    requires Shaped(s, request) && CallsAt(s, request, moves, m, i)
    ensures m < |moves| && moves[m].Execute? && moves[m].i == i < |request.assignments|
  {
  }

  lemma GaveUpLater(s: State, request: Request, moves: seq<Move>, i: nat)
    requires Shaped(s, request) && i < |s.phases| && moves != [] && !CallsAt(s, request, moves, 0, i)
    requires NeverCalled(Next(s, request, moves[0]), request, moves[1..], i)
    ensures NeverCalled(s, request, moves, i)
  {
    var next, rest := Next(s, request, moves[0]), moves[1..];
    var m: nat :| GivesUpAt(next, rest, m, i);
    PhaseAfter(s, request, moves[0], i);
    hide Next, Enabled, CallsAt;
    if !next.cancelled {
      var c :| 0 <= c < m && rest[c] == Cancel;
      assert moves[c + 1] == Cancel;
    }
    assert GivesUpAt(s, moves, m + 1, i);
    forall k: nat ensures !CallsAt(s, request, moves, k, i) {
      if 0 < k < |moves| {
        LaterCalls(s, request, moves, k, i);
      } else if k >= |moves| {
        NoCallThere(s, request, moves, k, i);
      }
    }
  }

  lemma AnswerIsThere(p: Phase)
    requires !Before(p)
    ensures p.Answered? || p.Written? || p.Finished?
  {
  }

  /** The first move is the one by which the goroutine gets its answer. */
  lemma AnsweredAtOnce(s: State, request: Request, moves: seq<Move>, i: nat)
    requires Shaped(s, request) && i < |s.phases| && moves != []
    requires Before(s.phases[i]) && !Before(Next(s, request, moves[0]).phases[i])
    ensures var ok := Next(s, request, moves[0]).phases[i].ok;
            CalledOnce(s, request, moves, i, ok) || (NeverCalled(s, request, moves, i) && !ok)
  {
    hide Next, Enabled, CallsAt, AnswerAt, Before, AssignTx;
    var next := Next(s, request, moves[0]);
    PhaseAfter(s, request, moves[0], i);
    FirstCall(s, request, moves, i);
    AnswerStays(next, request, moves[1..], i);
    forall k: nat | 0 < k ensures !CallsAt(s, request, moves, k, i) {
      if k < |moves| {
        LaterCalls(s, request, moves, k, i);
      } else {
        NoCallThere(s, request, moves, k, i);
      }
    }
    AnswerIsThere(next.phases[i]);
    if moves[0].Execute? {
      assert OnlyCall(s, request, moves, 0, i, next.phases[i].ok);
    } else {
      assert GivesUpAt(s, moves, 0, i);
    }
  }

  lemma {:induction false} CallsOrGivesUp(s: State, request: Request, moves: seq<Move>, i: nat)
    requires Shaped(s, request) && i < |s.phases| && Before(s.phases[i])
    requires !Before(Run(s, request, moves).phases[i])
    ensures var ok := Run(s, request, moves).phases[i].ok;
            CalledOnce(s, request, moves, i, ok) || (NeverCalled(s, request, moves, i) && !ok)
    decreases |moves|
  {
    hide Next, Enabled, CallsAt, Before, AssignTx, AnswerAt, CalledOnce, NeverCalled;
    assert moves != [];
    PhaseAfter(s, request, moves[0], i);
    var next := Next(s, request, moves[0]);
    if Before(next.phases[i]) {
      FirstCall(s, request, moves, i);
      CallsOrGivesUp(next, request, moves[1..], i);
      AnswerIsThere(Run(s, request, moves).phases[i]);
      var ok := Run(s, request, moves).phases[i].ok;
      if CalledOnce(next, request, moves[1..], i, ok) {
        CalledLater(s, request, moves, i, ok);
      } else {
        GaveUpLater(s, request, moves, i);
      }
    } else {
      AnswerStays(next, request, moves[1..], i);
      AnsweredAtOnce(s, request, moves, i);
    }
  }

  /** When all have finished, each goroutine has called AssignShift exactly once, and its slot says how that
      call went on the store as it was then; or it has not called, its slot says failure, and it gave up after
      a cancellation. Without a cancellation, all have called. */
  lemma EachCallsOnce(t: Tables, request: Request, moves: seq<Move>, i: nat)
    requires Inv(t, request.cfg) && i < |request.assignments|
    ensures var start := Begin(t, request);
      var s := Run(start, request, moves);
      AllFinished(s) ==>
        && s.results[i].Some?
        && s.results[i].value.shiftId == request.assignments[i].shiftId
        && s.results[i].value.vehicleId == request.assignments[i].vehicleId
        && (CalledOnce(start, request, moves, i, s.results[i].value.success)
            || (NeverCalled(start, request, moves, i) && !s.results[i].value.success))
        && ((forall c :: 0 <= c < |moves| ==> moves[c] != Cancel) ==>
              CalledOnce(start, request, moves, i, s.results[i].value.success))
  {
    hide Inv, Run, StoreFine, LogOk, CalledOnce, AnswerAt, AssignTx, CallsAt, Enabled;
    var start := Begin(t, request);
    BeginIsFine(t, request);
    RunIsFine(t, start, request, moves);
    var s := Run(start, request, moves);
    if AllFinished(s) {
      assert SlotOk(s, request, i);
      CallsOrGivesUp(start, request, moves, i);
    }
  }

  // ---------------------------------------------------------------------------------------
  // Progress
  // ---------------------------------------------------------------------------------------

  function Ahead(p: Phase): nat {
    match p
    case Waiting => 4
    case Holding => 3
    case Answered(_) => 2
    case Written(_) => 1
    case Finished(_) => 0
  }

  function StepsLeft(phases: seq<Phase>): nat {
    if phases == [] then 0 else StepsLeft(phases[..|phases| - 1]) + Ahead(phases[|phases| - 1])
  }

  lemma {:induction false} FewerLeft(phases: seq<Phase>, i: nat, p: Phase)
    requires i < |phases|
    ensures StepsLeft(phases[i := p]) == StepsLeft(phases) - Ahead(phases[i]) + Ahead(p)
    decreases |phases|
  {
    var after := phases[i := p];
    if i < |phases| - 1 {
      assert after[..|after| - 1] == phases[..|phases| - 1][i := p];
      FewerLeft(phases[..|phases| - 1], i, p);
    } else {
      assert after[..|after| - 1] == phases[..|phases| - 1];
    }
  }

  /** Every move but a cancellation brings the batch nearer to its end. */
  lemma MovesAdvance(s: State, request: Request, move: Move)
    requires Shaped(s, request) && Enabled(s, request, move) && !move.Cancel?
    ensures StepsLeft(Next(s, request, move).phases) < StepsLeft(s.phases)
  {
    hide Shows, AssignTx, Holders;
    var after := Next(s, request, move);
    assert after.phases == s.phases[move.i := after.phases[move.i]];
    FewerLeft(s.phases, move.i, after.phases[move.i]);
  }

  /** A goroutine that can go on by itself, or take a free place. */
  ghost predicate CanGoOn(s: State, request: Request, i: nat)
    requires i < |s.phases|
  {
    Holds(s.phases[i]) || (s.phases[i].Waiting? && |Holders(s.phases)| < request.Limit())
  }

  /** And until all have finished, some goroutine can go on: the semaphore never deadlocks. */
  lemma NeverStuck(t0: Tables, s: State, request: Request) returns (i: nat)
    requires AllFine(t0, s, request) && !AllFinished(s)
    ensures i < |s.phases| && CanGoOn(s, request, i)
  {
    hide StoreFine, LogOk;
    i :| i < |s.phases| && !s.phases[i].Finished?;
    if !CanGoOn(s, request, i) {
      assert |Holders(s.phases)| >= 1;
      i :| i in Holders(s.phases);
    }
  }

  // ---------------------------------------------------------------------------------------
  // The batch can always be finished
  // ---------------------------------------------------------------------------------------

  lemma {:induction false} LastToStart(shifts: map<string, W.Shift>) returns (k: string)
    requires shifts != map[]
    ensures k in shifts && forall j :: j in shifts ==> shifts[j].startAt <= shifts[k].startAt
    decreases |shifts|
  {
    var first :| first in shifts;
    var rest := shifts - {first};
    k := first;
    if rest != map[] {
      var last := LastToStart(rest);
      k := if shifts[last].startAt > shifts[first].startAt then last else first;
    }
    forall j | j in shifts ensures shifts[j].startAt <= shifts[k].startAt {
      assert j == first || j in rest;
    }
  }

  lemma {:induction false} ListingExists(shifts: map<string, W.Shift>, date: BusinessDay.ServiceDate)
    returns (rows: seq<W.Shift>)
    requires forall k :: k in shifts ==> shifts[k].id == k
    ensures IsListing(shifts, date, rows)
    decreases |shifts|
  {
    rows := [];
    if shifts != map[] {
      var k := LastToStart(shifts);
      var rest := shifts - {k};
      rows := ListingExists(rest, date);
      if shifts[k].serviceDate == date {
        rows := rows + [shifts[k]];
      }
      forall j | j in shifts && shifts[j].serviceDate == date ensures shifts[j] in rows {
        assert j == k || j in rest;
      }
    }
  }

  lemma {:induction false} LatestExists(heads: map<string, I.Head>, vehicleId: string) returns (found: Option<I.Head>)
    requires forall k :: k in heads ==> heads[k].id == k
    ensures IsLatest(heads, vehicleId, found)
    decreases |heads|
  {
    found := None;
    if heads != map[] {
      var k :| k in heads;
      var rest := heads - {k};
      found := LatestExists(rest, vehicleId);
      forall j | j in heads ensures j == k || (j in rest && rest[j] == heads[j]) {
      }
      if heads[k].vehicleId == vehicleId && (found == None || found.value.inspectedAt < heads[k].inspectedAt) {
        found := Some(heads[k]);
      }
    }
  }

  /** The database has an answer to the queries of an assignment. */
  lemma ViewExists(t: Tables, cfg: Config, input: AssignInput) returns (view: AssignView)
    requires Inv(t, cfg)
    ensures Shows(t, input, view)
  {
    hide VehiclesOk, DriversOk, TripsOk, TripsUnique, Covered, OrdersOk, OdometerOk, JobsOk, KeysOk, BookingOk;
    hide CalendarOk, IsListing, IsLatest;
    var latest := LatestExists(t.heads, input.vehicleId);
    var rows := [];
    if input.shiftId in t.shifts {
      rows := ListingExists(t.shifts, t.shifts[input.shiftId].serviceDate);
    }
    view := AssignView(rows, latest);
  }

  /** A goroutine that can go on has a move. */
  lemma MoveExists(s: State, request: Request, i: nat) returns (move: Move)
    requires Shaped(s, request) && Inv(s.t, request.cfg) && i < |s.phases| && CanGoOn(s, request, i)
    ensures Enabled(s, request, move) && !move.Cancel?
  {
    hide Inv, Holders, Shows;
    match s.phases[i] {
      case Waiting => move := Acquire(i);
      case Holding =>
        var view := ViewExists(s.t, request.cfg, request.assignments[i]);
        move := Execute(i, view, 0);
      case Answered(_) => move := WriteResult(i);
      case Written(_) => move := Release(i);
      case Finished(_) =>
    }
  }

  /** From every state that a batch can come to, some schedule without a cancellation finishes all goroutines. */
  lemma {:induction false} CanFinish(t0: Tables, s: State, request: Request) returns (moves: seq<Move>)
    requires AllFine(t0, s, request)
    ensures forall c :: 0 <= c < |moves| ==> moves[c] != Cancel
    ensures AllFinished(Run(s, request, moves))
    decreases StepsLeft(s.phases)
  {
    hide Next, Enabled, SlotsOk, LogOk, CanGoOn, Inv;
    if AllFinished(s) {
      moves := [];
    } else {
      var i := NeverStuck(t0, s, request);
      var move := MoveExists(s, request, i);
      MovesAdvance(s, request, move);
      MoveKeepsSlots(s, request, move);
      MoveKeepsStore(t0, s, request, move);
      MoveKeepsLog(t0, s, request, move);
      hide StoreFine;
      var rest := CanFinish(t0, Next(s, request, move), request);
      moves := [move] + rest;
      assert moves[1..] == rest;
    }
  }
}
