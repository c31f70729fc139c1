/**
  * The cancellable host look-up: a caller that polls and a worker thread that resolves
  * exchange one heap-allocated result through a single atomic cell. Every read, write,
  * exchange and delete is its own step, so a schedule is any interleaving of the two.
  */
module HostResolve {

  /** Contents of the shared atomic: nothing yet, the result's address, or the sentinel. */
  datatype Cell = Null | Result | Abandoned

  /** The heap result, with what is stored in it while it exists. */
  datatype Object = Unborn | Live(content: int) | Freed

  datatype Worker =
    | Resolving                      // blocked in the resolver
    | Allocated                      // memory obtained, nothing stored in it yet
    | Built                          // result stored, not yet exchanged in
    | Exchanged(prev: Cell)          // holds what the cell contained before
    | WorkerDone

  datatype Outcome = Resolved(value: int) | Cancelled | TimedOut

  datatype Caller =
    | Polling                        // about to load the cell
    | Loaded(cur: Cell)
    | Copied                         // result copied out, not yet deleted
    | Deleted                        // result deleted, about to return
    | CheckDeadline                  // stop flag was clear
    | Bailing(why: Outcome)          // about to exchange the sentinel in
    | Swapped(prev: Cell, why: Outcome)
    | Returned(outcome: Outcome)

  datatype State = State(
    cell: Cell, obj: Object, worker: Worker, caller: Caller,
    answer: int,                     // what the resolver will find
    copy: int,                       // what the caller read through the pointer
    junk: int,                       // what memory holds that was never written or is gone
    callerRef: bool, workerRef: bool, // the two shares of the cell's ownership
    frees: nat, cellFrees: nat, faults: nat)

  /** One scheduling decision; the caller's step also observes the stop flag and the clock. */
  datatype Tick = WorkerTick | CallerTick(stop: bool, late: bool)

  function Init(answer: int, junk: int): State {
    State(Null, Unborn, Resolving, Polling, answer, junk, junk, true, true, 0, 0, 0)
  }

  // ----- Memory -----

  /** Deleting the result: anything but a live object is a fault. */
  function DeleteResult(s: State): State {
    if s.obj.Live? then s.(obj := Freed, frees := s.frees + 1)
    else s.(frees := s.frees + 1, faults := s.faults + 1)
  }

  /** Copying the result out: anything but a live object is a fault, and yields whatever is there. */
  function CopyResult(s: State): State {
    if s.obj.Live? then s.(copy := s.obj.content) else s.(copy := s.junk, faults := s.faults + 1)
  }

  /** Any access to the cell needs it to be alive still. */
  function TouchCell(s: State): State {
    if s.callerRef || s.workerRef then s else s.(faults := s.faults + 1)
  }

  function DropCallerRef(s: State): State {
    if !s.callerRef then s.(faults := s.faults + 1)
    else s.(callerRef := false, cellFrees := if s.workerRef then s.cellFrees else s.cellFrees + 1)
  }

  function DropWorkerRef(s: State): State {
    if !s.workerRef then s.(faults := s.faults + 1)
    else s.(workerRef := false, cellFrees := if s.callerRef then s.cellFrees else s.cellFrees + 1)
  }

  // ----- The two threads -----

  function WorkerStep(s: State): State {
    match s.worker
    case Resolving => s.(worker := Allocated, obj := Live(s.junk))
    case Allocated => s.(worker := Built, obj := if s.obj.Live? then Live(s.answer) else s.obj,
                         faults := if s.obj.Live? then s.faults else s.faults + 1)
    case Built => TouchCell(s).(worker := Exchanged(s.cell), cell := Result)
    case Exchanged(prev) =>
      var t := if prev == Abandoned then DeleteResult(s) else s;
      DropWorkerRef(t).(worker := WorkerDone)
    case WorkerDone => s
  }

  function CallerStep(s: State, stop: bool, late: bool): State {
    match s.caller
    case Polling => TouchCell(s).(caller := Loaded(s.cell))
    case Loaded(cur) =>
      if cur == Result then CopyResult(s).(caller := Copied)
      else if stop then s.(caller := Bailing(Cancelled))
      else s.(caller := CheckDeadline)
    case Copied => DeleteResult(s).(caller := Deleted)
    case Deleted => DropCallerRef(s).(caller := Returned(Resolved(s.copy)))
    case CheckDeadline => if late then s.(caller := Bailing(TimedOut)) else s.(caller := Polling)
    case Bailing(why) => TouchCell(s).(caller := Swapped(s.cell, why), cell := Abandoned)
    case Swapped(prev, why) =>
      var t := if prev == Result then DeleteResult(s) else s;
      DropCallerRef(t).(caller := Returned(why))
    case Returned(_) => s
  }

  function Step(s: State, t: Tick): State {
    match t
    case WorkerTick => WorkerStep(s)
    case CallerTick(stop, late) => CallerStep(s, stop, late)
  }

  function Run(s: State, ticks: seq<Tick>): State
    decreases |ticks|
  {
    if ticks == [] then s else Run(Step(s, ticks[0]), ticks[1..])
  }

  // ----- What every schedule keeps -----

  predicate Published(w: Worker) {
    w.Exchanged? || w.WorkerDone?
  }

  /** Who owns the result, by where the two threads stand. */
  predicate OwnershipInv(s: State) {
    && (s.worker.Resolving? <==> s.obj == Unborn)
    && (s.worker.Allocated? ==> s.obj.Live?)
    && (s.worker.Built? ==> s.obj.Live?)
    && (!s.worker.Allocated? && s.obj.Live? ==> s.obj.content == s.answer)
    && match s.caller {
         case Polling => Untouched(s)
         case Loaded(cur) => Untouched(s) && cur != Abandoned && (cur == Result ==> Published(s.worker))
         case CheckDeadline => Untouched(s)
         case Bailing(why) => Untouched(s) && !why.Resolved?
         case Copied => Published(s.worker) && Untouched(s) && s.copy == s.answer
         case Deleted => Published(s.worker) && Consumed(s) && s.copy == s.answer
         case Swapped(prev, why) =>
           && !why.Resolved?
           && prev != Abandoned
           && (if prev == Result then s.cell == Abandoned && s.obj.Live? && Published(s.worker) && QuietWorker(s)
               else HandedToWorker(s))
         case Returned(Resolved(v)) => Published(s.worker) && Consumed(s) && v == s.answer
         case Returned(_) => HandedToWorker(s) || (s.obj == Freed && Published(s.worker) && QuietWorker(s))
       }
  }

  /** The worker, if it has exchanged, found nothing and so will not delete. */
  predicate QuietWorker(s: State) {
    s.worker.Exchanged? ==> s.worker.prev == Null
  }

  /** The caller has neither taken nor abandoned the result. */
  predicate Untouched(s: State) {
    && QuietWorker(s)
    && s.obj != Freed
    && s.cell == if Published(s.worker) then Result else Null
  }

  /** The caller took the result and deleted it. */
  predicate Consumed(s: State) {
    s.obj == Freed && QuietWorker(s)
  }

  /** The sentinel was in the cell before the worker got there: the worker deletes. */
  predicate HandedToWorker(s: State) {
    match s.worker
    case Resolving => s.cell == Abandoned
    case Allocated => s.cell == Abandoned
    case Built => s.cell == Abandoned
    case Exchanged(prev) => prev == Abandoned && s.obj.Live?
    case WorkerDone => s.obj == Freed
  }

  predicate Inv(s: State) {
    && s.faults == 0
    && s.frees == (if s.obj == Freed then 1 else 0)
    && s.callerRef == !s.caller.Returned?
    && s.workerRef == !s.worker.WorkerDone?
    && s.cellFrees == (if s.callerRef || s.workerRef then 0 else 1)
    && OwnershipInv(s)
  }

  lemma WorkerKeepsInv(s: State)
    requires Inv(s)
    ensures Inv(WorkerStep(s))
  {
  }

  lemma CallerKeepsInv(s: State, stop: bool, late: bool)
    requires Inv(s)
    ensures Inv(CallerStep(s, stop, late))
  {
  }

  lemma {:induction false} RunKeepsInv(s: State, ticks: seq<Tick>)
    requires Inv(s)
    ensures Inv(Run(s, ticks))
    ensures Run(s, ticks).answer == s.answer
    decreases |ticks|
  {
    if ticks != [] {
      match ticks[0] {
        case WorkerTick => WorkerKeepsInv(s);
        case CallerTick(stop, late) => CallerKeepsInv(s, stop, late);
      }
      RunKeepsInv(Step(s, ticks[0]), ticks[1..]);
    }
  }

  /**
    * For every interleaving: nothing is read, exchanged or deleted after it is gone and
    * nothing is deleted twice; a caller that returns an address returns what the worker
    * published; and when both threads are through, result and cell have each been
    * reclaimed exactly once.
    */
  lemma EveryScheduleIsSafe(answer: int, junk: int, ticks: seq<Tick>)
    ensures var s := Run(Init(answer, junk), ticks);
            && s.faults == 0 && s.frees <= 1 && s.cellFrees <= 1
            && (s.caller.Returned? && s.caller.outcome.Resolved? ==>
                  s.caller.outcome.value == answer && Published(s.worker))
            && (s.caller.Returned? && s.worker.WorkerDone? ==>
                  s.obj == Freed && s.frees == 1 && s.cellFrees == 1)
  {
    RunKeepsInv(Init(answer, junk), ticks);
  }

  // ----- Responsiveness -----

  /** Steps the caller still takes once the stop flag is up. */
  function StepsToReturn(c: Caller): nat {
    match c
    case CheckDeadline => 5
    case Polling => 4
    case Loaded(_) => 3
    case Bailing(_) => 2
    case Copied => 2
    case Swapped(_, _) => 1
    case Deleted => 1
    case Returned(_) => 0
  }

  function CallerTicks(ticks: seq<Tick>): nat {
    if ticks == [] then 0 else (if ticks[0].CallerTick? then 1 else 0) + CallerTicks(ticks[1..])
  }

  /**
    * The look-up cannot hold the caller up: with the stop flag raised, five of its own
    * steps bring it home from anywhere, whatever the worker does in between or fails to do.
    */
  lemma {:induction false} StopIsPrompt(s: State, ticks: seq<Tick>)
    requires forall i :: 0 <= i < |ticks| && ticks[i].CallerTick? ==> ticks[i].stop
    requires CallerTicks(ticks) >= StepsToReturn(s.caller)
    ensures Run(s, ticks).caller.Returned?
    decreases |ticks|
  {
    if ticks != [] {
      StopIsPrompt(Step(s, ticks[0]), ticks[1..]);
    }
  }

  // ----- Which way it ends -----

  predicate Stops(ticks: seq<Tick>) { exists i :: 0 <= i < |ticks| && ticks[i].CallerTick? && ticks[i].stop }
  predicate Expires(ticks: seq<Tick>) { exists i :: 0 <= i < |ticks| && ticks[i].CallerTick? && ticks[i].late }

  /** On its way to give up for the reason `why`, or back from there. */
  predicate GivingUp(c: Caller, why: Outcome) {
    match c
    case Bailing(w) => w == why
    case Swapped(_, w) => w == why
    case Returned(w) => w == why
    case _ => false
  }

  lemma TickGivesUp(s: State, t: Tick, why: Outcome)
    requires !why.Resolved? && GivingUp(Step(s, t).caller, why)
    ensures GivingUp(s.caller, why) || (t.CallerTick? && if why.Cancelled? then t.stop else t.late)
  {
  }

  /** A look-up is cancelled only if the stop flag was seen up, and times out only if the deadline was seen passed. */
  lemma {:induction false} GivesUpForAReason(s: State, ticks: seq<Tick>, why: Outcome)
    requires !why.Resolved? && !GivingUp(s.caller, why) && GivingUp(Run(s, ticks).caller, why)
    ensures if why.Cancelled? then Stops(ticks) else Expires(ticks)
    decreases |ticks|
  {
    var t := ticks[0];
    if GivingUp(Step(s, t).caller, why) {
      TickGivesUp(s, t, why);
    } else {
      GivesUpForAReason(Step(s, t), ticks[1..], why);
      if why.Cancelled? {
        var i :| 0 <= i < |ticks[1..]| && ticks[1..][i].CallerTick? && ticks[1..][i].stop;
        assert ticks[i + 1] == ticks[1..][i];
      } else {
        var i :| 0 <= i < |ticks[1..]| && ticks[1..][i].CallerTick? && ticks[1..][i].late;
        assert ticks[i + 1] == ticks[1..][i];
      }
    }
  }

  function FiveSteps(stop: bool, late: bool): seq<Tick> {
    [CallerTick(stop, late), CallerTick(stop, late), CallerTick(stop, late), CallerTick(stop, late), CallerTick(stop, late)]
  }

  /**
    * Five steps of the caller from a poll, the worker standing still: a published result is
    * returned even if the flag is up or time has run out; without one a raised flag cancels,
    * and failing that a passed deadline times out; otherwise it polls on.
    */
  lemma PollDecides(s: State, stop: bool, late: bool)
    requires Inv(s) && s.caller == Polling
    ensures var c := Run(s, FiveSteps(stop, late)).caller;
            if Published(s.worker) then c == Returned(Resolved(s.answer))
            else if stop then c == Returned(Cancelled)
            else if late then c == Returned(TimedOut)
            else !c.Returned?
  {
    var t := CallerTick(stop, late);
    var a := Step(s, t);
    var b := Step(a, t);
    var c := Step(b, t);
    var d := Step(c, t);
    var e := Step(d, t);
    assert Run(s, FiveSteps(stop, late)) == e by {
      assert FiveSteps(stop, late)[1..] == [t, t, t, t] && [t, t, t, t][1..] == [t, t, t] && [t, t, t][1..] == [t, t];
      assert [t, t][1..] == [t] && [t][1..] == [];
      assert Run(e, []) == e && Run(d, [t]) == e && Run(c, [t, t]) == e && Run(b, [t, t, t]) == e && Run(a, [t, t, t, t]) == e;
    }
  }
}
