/**
  * Bounded-concurrency batch scheduler. A dispatcher answers each job exactly once, at a
  * time of its own choosing: long after the call, or inside it, re-entering the scheduler.
  */
module BatchRunner {

  datatype Status = Pending | Running | DoneOk | DoneFailed | Skipped

  datatype Reply = Reply(status: Status, detail: string)

  datatype Job = Job(row: int, status: Status, detail: string)

  predicate Terminal(s: Status) {
    s != Pending && s != Running
  }

  /** `j` records `reply` for `row`: as it is, or as a failure where it is not terminal. */
  predicate Records(j: Job, row: int, reply: Reply) {
    && j.row == row
    && (Terminal(reply.status) ==> j.status == reply.status && j.detail == reply.detail)
    && (!Terminal(reply.status) ==>
          && j.status == DoneFailed
          && j.detail == if reply.detail == "" then "dispatcher returned non-terminal status" else reply.detail)
  }

  function One(b: bool): nat {
    if b then 1 else 0
  }

  /** Jobs of a given row in a given status. */
  function Count(jobs: seq<Job>, s: Status, row: int): nat {
    if jobs == [] then 0 else One(jobs[0].status == s && jobs[0].row == row) + Count(jobs[1..], s, row)
  }

  /** Jobs in a given status. */
  function Total(jobs: seq<Job>, s: Status): nat {
    if jobs == [] then 0 else One(jobs[0].status == s) + Total(jobs[1..], s)
  }

  /** Steps still to come: a pending job is dispatched and answered, a running one answered. */
  function Work(jobs: seq<Job>): nat {
    2 * Total(jobs, Pending) + Total(jobs, Running)
  }

  predicate NoneIn(jobs: seq<Job>, s: Status) {
    forall k :: 0 <= k < |jobs| ==> jobs[k].status != s
  }

  /** How a batch may move on: rows stay, finished jobs stay as they are, nothing becomes pending again. */
  predicate Evolves(a: seq<Job>, b: seq<Job>) {
    && |a| == |b|
    && forall k :: 0 <= k < |a| ==>
         && b[k].row == a[k].row
         && (Terminal(a[k].status) ==> b[k] == a[k])
         && (b[k].status == Pending ==> a[k].status == Pending)
  }

  /** Changing one job changes exactly its own contribution to the counts. */
  lemma {:induction false} CountUpdate(jobs: seq<Job>, k: nat, j: Job, s: Status, row: int)
    requires k < |jobs|
    ensures Count(jobs[k := j], s, row) + One(jobs[k].status == s && jobs[k].row == row)
         == Count(jobs, s, row) + One(j.status == s && j.row == row)
    ensures Total(jobs[k := j], s) + One(jobs[k].status == s) == Total(jobs, s) + One(j.status == s)
  {
    var after := jobs[k := j];
    if k == 0 {
      assert after[1..] == jobs[1..];
    } else {
      assert after[1..] == jobs[1..][k - 1 := j];
      CountUpdate(jobs[1..], k - 1, j, s, row);
    }
  }

  lemma {:induction false} TotalZero(jobs: seq<Job>, s: Status)
    ensures NoneIn(jobs, s) <==> Total(jobs, s) == 0
  {
    if jobs != [] {
      TotalZero(jobs[1..], s);
      NoneInCons(jobs, s);
    }
  }

  lemma {:induction false} CountZero(jobs: seq<Job>, s: Status, row: int)
    requires NoneIn(jobs, s)
    ensures Count(jobs, s, row) == 0
  {
    if jobs != [] {
      NoneInCons(jobs, s);
      CountZero(jobs[1..], s, row);
    }
  }

  lemma NoneInCons(jobs: seq<Job>, s: Status)
    requires jobs != []
    ensures NoneIn(jobs, s) <==> jobs[0].status != s && NoneIn(jobs[1..], s)
  {
    if jobs[0].status != s && NoneIn(jobs[1..], s) {
      assert forall k :: 1 <= k < |jobs| ==> jobs[k] == jobs[1..][k - 1];
    }
  }

  /** A positive count is witnessed by a job, and a job counts. */
  lemma {:induction false} CountWitness(jobs: seq<Job>, s: Status, row: int)
    ensures Count(jobs, s, row) > 0 <==> exists k :: 0 <= k < |jobs| && jobs[k].row == row && jobs[k].status == s
  {
    if jobs != [] {
      CountWitness(jobs[1..], s, row);
      if k :| 0 <= k < |jobs| && jobs[k].row == row && jobs[k].status == s {
        if k > 0 {
          assert jobs[1..][k - 1] == jobs[k];
        }
      }
    }
  }

  lemma EvolvesTrans(a: seq<Job>, b: seq<Job>, c: seq<Job>)
    requires Evolves(a, b) && Evolves(b, c)
    ensures Evolves(a, c)
  {
  }

  /** Replacing job `k` by `j` moves one job of that row between statuses, and nothing else. */
  lemma Moved(jobs: seq<Job>, k: nat, j: Job)
    requires k < |jobs| && j.row == jobs[k].row
    ensures var after := jobs[k := j];
            forall s, row ::
              Count(after, s, row) + One(jobs[k].status == s && j.row == row)
              == Count(jobs, s, row) + One(j.status == s && j.row == row)
    ensures var after := jobs[k := j];
            forall s :: Total(after, s) + One(jobs[k].status == s) == Total(jobs, s) + One(j.status == s)
  {
    forall s, row
      ensures Count(jobs[k := j], s, row) + One(jobs[k].status == s && j.row == row)
              == Count(jobs, s, row) + One(j.status == s && j.row == row)
    {
      CountUpdate(jobs, k, j, s, row);
    }
    forall s
      ensures Total(jobs[k := j], s) + One(jobs[k].status == s) == Total(jobs, s) + One(j.status == s)
    {
      CountUpdate(jobs, k, j, s, 0);
    }
  }

  /** A fresh list of pending jobs holds exactly the rows asked for. */
  lemma {:induction false} FreshRows(rows: seq<int>, jobs: seq<Job>, row: int)
    requires |jobs| == |rows| && forall i :: 0 <= i < |rows| ==> jobs[i] == Job(rows[i], Pending, "")
    ensures Count(jobs, Pending, row) == multiset(rows)[row]
  {
    if rows != [] {
      assert rows == [rows[0]] + rows[1..];
      FreshRows(rows[1..], jobs[1..], row);
    }
  }

  predicate Books(cap: nat, jobs: seq<Job>, inflight: int, running: bool, begun: nat, finished: nat) {
    && 1 <= cap <= 64
    && inflight == Total(jobs, Running)
    && inflight <= cap
    && (!running ==> NoneIn(jobs, Pending) && NoneIn(jobs, Running))
    && begun == finished + One(running)
  }

  /** Every Running job is one owed callback and the other way round, row by row. */
  ghost predicate Callbacks(jobs: seq<Job>, owed: multiset<int>) {
    forall row :: owed[row] == Count(jobs, Running, row)
  }

  /** Every row due has been dispatched once or is pending. */
  ghost predicate Dispatches(jobs: seq<Job>, dispatched: multiset<int>, due: multiset<int>) {
    forall row :: dispatched[row] + Count(jobs, Pending, row) == due[row]
  }

  // ----- What became of the replies -----

  /** How often a job stands in the list just as it is. */
  function Times(jobs: seq<Job>, j: Job): nat {
    if jobs == [] then 0 else One(jobs[0] == j) + Times(jobs[1..], j)
  }

  /** How many of the replies are recorded as `j`. */
  function Heard(replies: seq<(int, Reply)>, j: Job): nat {
    if replies == [] then 0
    else
      var (row, reply) := replies[|replies| - 1];
      One(Records(j, row, reply)) + Heard(replies[..|replies| - 1], j)
  }

  /** Finished jobs are those the batch began with and one for each reply, recorded as it says. */
  ghost predicate Outcomes(jobs: seq<Job>, base: seq<Job>, replies: seq<(int, Reply)>) {
    forall j: Job :: Terminal(j.status) ==> Times(jobs, j) == Times(base, j) + Heard(replies, j)
  }

  lemma {:induction false} TimesUpdate(jobs: seq<Job>, k: nat, now: Job, j: Job)
    requires k < |jobs|
    ensures Times(jobs[k := now], j) + One(jobs[k] == j) == Times(jobs, j) + One(now == j)
  {
    var after := jobs[k := now];
    if k == 0 {
      assert after[1..] == jobs[1..];
    } else {
      assert after[1..] == jobs[1..][k - 1 := now];
      TimesUpdate(jobs[1..], k - 1, now, j);
    }
  }

  /** Dispatching a job finishes none. */
  lemma OutcomesAsBefore(jobs: seq<Job>, i: nat, now: Job, base: seq<Job>, replies: seq<(int, Reply)>)
    requires i < |jobs| && !Terminal(jobs[i].status) && !Terminal(now.status) && Outcomes(jobs, base, replies)
    ensures Outcomes(jobs[i := now], base, replies)
  {
    forall j: Job | Terminal(j.status) ensures Times(jobs[i := now], j) == Times(base, j) + Heard(replies, j) {
      TimesUpdate(jobs, i, now, j);
    }
  }

  /** A reply finishes exactly the job that records it. */
  lemma OutcomesOneMore(jobs: seq<Job>, k: nat, now: Job, base: seq<Job>, replies: seq<(int, Reply)>, reply: Reply)
    requires k < |jobs| && !Terminal(jobs[k].status) && Records(now, jobs[k].row, reply) && Outcomes(jobs, base, replies)
    ensures Outcomes(jobs[k := now], base, replies + [(jobs[k].row, reply)])
  {
    var row := jobs[k].row;
    forall j: Job | Terminal(j.status)
      ensures Times(jobs[k := now], j) == Times(base, j) + Heard(replies + [(row, reply)], j)
    {
      TimesUpdate(jobs, k, now, j);
      assert (replies + [(row, reply)])[..|replies|] == replies;
      assert Records(j, row, reply) <==> j == now;
    }
  }

  lemma MarkedRunning(jobs: seq<Job>, i: nat, owed: multiset<int>, dispatched: multiset<int>, due: multiset<int>)
    requires i < |jobs| && jobs[i].status == Pending
    requires Callbacks(jobs, owed) && Dispatches(jobs, dispatched, due)
    ensures var after, row := jobs[i := jobs[i].(status := Running)], multiset{jobs[i].row};
            && Evolves(jobs, after)
            && Callbacks(after, owed + row)
            && Dispatches(after, dispatched + row, due)
            && Total(after, Running) == Total(jobs, Running) + 1
            && Work(after) == Work(jobs) - 1
  {
    Moved(jobs, i, jobs[i].(status := Running));
  }

  lemma MarkedDone(jobs: seq<Job>, k: nat, j: Job, owed: multiset<int>, dispatched: multiset<int>, due: multiset<int>)
    requires k < |jobs| && jobs[k].status == Running && j.row == jobs[k].row && Terminal(j.status)
    requires Callbacks(jobs, owed) && Dispatches(jobs, dispatched, due)
    ensures var after := jobs[k := j];
            && Evolves(jobs, after)
            && Callbacks(after, owed - multiset{j.row})
            && Dispatches(after, dispatched, due)
            && Total(after, Running) == Total(jobs, Running) - 1
            && Work(after) == Work(jobs) - 1
  {
    Moved(jobs, k, j);
    CountWitness(jobs, Running, j.row);
  }

  /** Work under way means a callback is owed. */
  lemma SomeOwed(jobs: seq<Job>, owed: multiset<int>)
    requires Callbacks(jobs, owed) && Total(jobs, Running) > 0
    ensures exists row :: row in owed
  {
    TotalZero(jobs, Running);
    var k :| 0 <= k < |jobs| && jobs[k].status == Running;
    CountWitness(jobs, Running, jobs[k].row);
    assert jobs[k].row in owed;
  }

  class Runner {
    const cap: nat                    // maximum concurrency, clamped to 1..64
    var jobs: seq<Job>
    var inflight: int
    var running: bool

    // The dispatcher's side: callbacks it still owes, and what it has been asked for.
    var owed: multiset<int>
    var dispatched: multiset<int>     // rows dispatched since the batch began
    ghost var due: multiset<int>      // rows the batch had to dispatch when it began
    var replies: seq<(int, Reply)>    // delivered since the batch began, with their rows
    ghost var base: seq<Job>          // the jobs it began with
    var begun: nat
    var finished: nat                 // batchFinished emissions

    constructor (n: int)
      ensures Valid() && !running && jobs == [] && begun == 0
      ensures (1 <= n <= 64 ==> cap == n) && (n < 1 ==> cap == 1) && (n > 64 ==> cap == 64)
    {
      cap := if n < 1 then 1 else if n > 64 then 64 else n;
      jobs, inflight, running := [], 0, false;
      owed, dispatched, due := multiset{}, multiset{}, multiset{};
      begun, finished, replies, base := 0, 0, [], [];
    }

    /**
      * What holds whenever control is with the dispatcher, even in the middle of a
      * dispatch: the in-flight count is the number of Running jobs and within the cap,
      * every Running job is one owed callback and the other way round, every row the batch
      * had to dispatch has been dispatched once or is pending, and every reply delivered is
      * recorded in a job of its row.
      */
    ghost predicate Consistent()
      reads this
    {
      && Books(cap, jobs, inflight, running, begun, finished)
      && Callbacks(jobs, owed)
      && Dispatches(jobs, dispatched, due)
      && Outcomes(jobs, base, replies)
    }

    /** Between events a running batch has work under way and no idle capacity. */
    ghost predicate Valid()
      reads this
    {
      && Consistent()
      && (running ==> NoneIn(jobs, Pending) || inflight == cap)
      && (running ==> inflight > 0)
    }

    /** What a batch under way does not change, and the replies only ever grow. */
    ghost predicate Same(due': multiset<int>, begun': nat, base': seq<Job>, replies': seq<(int, Reply)>)
      reads this
    {
      due == due' && begun == begun' && base == base' && replies' <= replies
    }

    method PumpQueue()
      requires Consistent() && running
      modifies this
      ensures Valid() && Same(old(due), old(begun), old(base), old(replies))
      ensures Evolves(old(jobs), jobs) && Work(jobs) <= old(Work(jobs))
      decreases Work(jobs), 1
    {
      var i := 0;
      while i < |jobs| && inflight < cap
        invariant 0 <= i <= |jobs|
        invariant Consistent() && Same(old(due), old(begun), old(base), old(replies))
        invariant Evolves(old(jobs), jobs) && Work(jobs) <= old(Work(jobs))
        invariant forall k :: 0 <= k < i ==> jobs[k].status != Pending
        decreases |jobs| - i
      {
        if jobs[i].status == Pending {
          ghost var before := jobs;
          PumpOne(i);
          EvolvesTrans(old(jobs), before, jobs);
        }
        i := i + 1;
      }
      FinishIfDone();
    }

    /** Mark one job Running and hand it to the dispatcher. */
    method PumpOne(i: nat)
      requires i < |jobs| && jobs[i].status == Pending && inflight < cap
      requires Consistent()
      modifies this
      ensures Consistent() && Same(old(due), old(begun), old(base), old(replies))
      ensures Evolves(old(jobs), jobs) && jobs[i].status != Pending && Work(jobs) < old(Work(jobs))
      decreases Work(jobs), 0
    {
      var row := jobs[i].row;
      MarkedRunning(jobs, i, owed, dispatched, due);
      OutcomesAsBefore(jobs, i, jobs[i].(status := Running), base, replies);
      jobs := jobs[i := jobs[i].(status := Running)];
      inflight := inflight + 1;
      ghost var marked := jobs;
      Dispatch(row);
      EvolvesTrans(old(jobs), marked, jobs);
    }

    /** The all-terminal check at the end of a pump. */
    method FinishIfDone()
      requires Consistent()
      requires NoneIn(jobs, Pending) || inflight == cap
      modifies this`running, this`finished
      ensures Valid()
    {
      var anyActive := false;
      for k := 0 to |jobs|
        invariant anyActive <==> exists m :: 0 <= m < k && !Terminal(jobs[m].status)
      {
        if jobs[k].status == Pending || jobs[k].status == Running {
          anyActive := true;
        }
      }
      TotalZero(jobs, Running);
      if !anyActive && running {
        running := false;
        finished := finished + 1;
      }
    }

    /**
      * The dispatcher is called. It may keep the callback, or answer any callbacks it
      * holds, any number of them, before it returns.
      */
    method Dispatch(row: int)
      requires Books(cap, jobs, inflight, running, begun, finished) && running && Outcomes(jobs, base, replies)
      requires Callbacks(jobs, owed + multiset{row})
      requires Dispatches(jobs, dispatched + multiset{row}, due)
      modifies this
      ensures Consistent() && Same(old(due), old(begun), old(base), old(replies))
      ensures Evolves(old(jobs), jobs) && Work(jobs) <= old(Work(jobs))
      decreases Work(jobs), 4
    {
      owed := owed + multiset{row};
      dispatched := dispatched + multiset{row};
      while *
        invariant Consistent() && Same(old(due), old(begun), old(base), old(replies))
        invariant Evolves(old(jobs), jobs) && Work(jobs) <= old(Work(jobs))
        decreases Work(jobs)
      {
        if inflight == 0 { break; }
        SomeOwed(jobs, owed);
        var r :| r in owed;
        var reply: Reply := *;
        ghost var before := jobs;
        Deliver(r, reply);
        EvolvesTrans(old(jobs), before, jobs);
      }
    }

    /** The dispatcher uses up one of its callbacks. The reply always finds its job. */
    method Deliver(row: int, reply: Reply)
      requires Consistent() && row in owed
      modifies this
      ensures Valid() && Same(old(due), old(begun), old(base), old(replies))
      ensures Evolves(old(jobs), jobs) && Work(jobs) < old(Work(jobs))
      ensures exists k :: 0 <= k < |jobs| && old(jobs)[k].status == Running && Records(jobs[k], row, reply)
      ensures old(replies) + [(row, reply)] <= replies
      decreases Work(jobs), 3
    {
      owed := owed - multiset{row};
      assert old(owed)[row] > 0;
      CountWitness(jobs, Running, row);
      var k := 0;
      while !(jobs[k].row == row && jobs[k].status == Running)
        invariant 0 <= k < |jobs|
        invariant exists m :: k <= m < |jobs| && jobs[m].row == row && jobs[m].status == Running
        decreases |jobs| - k
      {
        k := k + 1;
      }
      CompleteOne(k, reply, old(owed));
    }

    /** `before` is what was owed before the reply being processed was used up. */
    method CompleteOne(k: nat, reply: Reply, ghost before: multiset<int>)
      requires k < |jobs| && jobs[k].status == Running
      requires Books(cap, jobs, inflight, running, begun, finished)
      requires Callbacks(jobs, before) && owed == before - multiset{jobs[k].row}
      requires Dispatches(jobs, dispatched, due) && Outcomes(jobs, base, replies)
      modifies this
      ensures Valid() && Same(old(due), old(begun), old(base), old(replies))
      ensures Evolves(old(jobs), jobs) && Work(jobs) < old(Work(jobs))
      ensures jobs[k].row == old(jobs)[k].row
      ensures Terminal(reply.status) ==> jobs[k].status == reply.status && jobs[k].detail == reply.detail
      ensures !Terminal(reply.status) ==>
                && jobs[k].status == DoneFailed
                && jobs[k].detail == if reply.detail == "" then "dispatcher returned non-terminal status" else reply.detail
      ensures old(replies) + [(old(jobs)[k].row, reply)] <= replies
      decreases Work(jobs), 2
    {
      Record(k, reply, before);
      assert running;
      if running {
        ghost var done := jobs;
        PumpQueue();
        EvolvesTrans(old(jobs), done, jobs);
      }
    }

    /** The reply is normalised and written down, and its place in flight given up. */
    method Record(k: nat, reply: Reply, ghost before: multiset<int>)
      requires k < |jobs| && jobs[k].status == Running
      requires Books(cap, jobs, inflight, running, begun, finished)
      requires Callbacks(jobs, before) && owed == before - multiset{jobs[k].row}
      requires Dispatches(jobs, dispatched, due) && Outcomes(jobs, base, replies)
      modifies this`jobs, this`inflight, this`replies
      ensures Consistent() && running && Work(jobs) < old(Work(jobs)) && Evolves(old(jobs), jobs)
      ensures replies == old(replies) + [(old(jobs)[k].row, reply)] && Records(jobs[k], old(jobs)[k].row, reply)
    {
      var j := Normalised(jobs[k].row, reply);
      MarkedDone(jobs, k, j, before, dispatched, due);
      OutcomesOneMore(jobs, k, j, base, replies, reply);
      replies, jobs, inflight := replies + [(jobs[k].row, reply)], jobs[k := j], inflight - 1;
    }

    method Normalised(row: int, reply: Reply) returns (j: Job)
      ensures Records(j, row, reply) && Terminal(j.status)
    {
      var status, detail := reply.status, reply.detail;
      if status == Pending || status == Running {
        status := DoneFailed;
        if detail == "" {
          detail := "dispatcher returned non-terminal status";
        }
      }
      j := Job(row, status, detail);
    }

    method Start(rows: seq<int>) returns (ok: bool)
      requires Valid()
      modifies this
      ensures Valid()
      ensures ok <==> !old(running) && rows != []
      ensures !ok ==> jobs == old(jobs) && running == old(running) && owed == old(owed) && begun == old(begun)
      ensures ok ==> begun == old(begun) + 1 && due == multiset(rows) && |jobs| == |rows|
      ensures ok ==> forall k :: 0 <= k < |jobs| ==> jobs[k].row == rows[k]
      ensures ok ==> forall j: Job :: Terminal(j.status) ==> Times(base, j) == 0
    {
      if running || rows == [] { return false; }
      var pending := seq(|rows|, i requires 0 <= i < |rows| => Job(rows[i], Pending, ""));
      FreshBooks(jobs, owed, rows, pending);
      Begin(pending, multiset(rows));
      NothingFinished(pending);
      return true;
    }

    /** Both ways to begin a batch: nothing in flight, then pump. */
    method Begin(batch: seq<Job>, ghost rows: multiset<int>)
      requires Valid() && !running
      requires Callbacks(batch, owed) && Dispatches(batch, multiset{}, rows) && Total(batch, Running) == 0
      modifies this
      ensures Valid() && Evolves(batch, jobs) && due == rows && begun == old(begun) + 1 && base == batch
    {
      SetUp(batch, rows);
      PumpQueue();
    }

    method SetUp(batch: seq<Job>, ghost rows: multiset<int>)
      requires Valid() && !running
      requires Callbacks(batch, owed) && Dispatches(batch, multiset{}, rows) && Total(batch, Running) == 0
      modifies this`jobs, this`inflight, this`running, this`dispatched, this`due, this`begun, this`replies, this`base
      ensures Consistent() && running && jobs == batch && due == rows && begun == old(begun) + 1 && base == batch
    {
      NothingHeard(batch);
      jobs, inflight, running, begun := batch, 0, true, begun + 1;
      dispatched, due, replies, base := multiset{}, rows, [], batch;
    }

    method RetryFailed() returns (ok: bool)
      requires Valid()
      modifies this
      ensures Valid()
      ensures ok <==> !old(running) && !NoneIn(old(jobs), DoneFailed)
      ensures !ok ==> jobs == old(jobs) && running == old(running) && owed == old(owed) && begun == old(begun)
      ensures ok ==> begun == old(begun) + 1 && |jobs| == |old(jobs)|
      ensures ok ==> forall row :: due[row] == Count(old(jobs), DoneFailed, row)
      ensures ok ==> forall k :: 0 <= k < |jobs| ==>
                jobs[k].row == old(jobs)[k].row && (old(jobs)[k].status != DoneFailed ==> jobs[k] == old(jobs)[k])
    {
      if running { return false; }
      var reset, anyFailed := ResetFailed();
      if !anyFailed { return false; }
      ghost var idle := jobs;
      ResetBooks(idle, owed, reset);
      Begin(reset, PendingRows(reset));
      ResetEvolved(idle, reset, jobs);
      return true;
    }

    method ResetFailed() returns (reset: seq<Job>, anyFailed: bool)
      ensures |reset| == |jobs|
      ensures anyFailed <==> !NoneIn(jobs, DoneFailed)
      ensures forall k :: 0 <= k < |jobs| ==> reset[k] == Reset(jobs[k])
    {
      anyFailed := false;
      reset := jobs;
      for k := 0 to |jobs|
        invariant |reset| == |jobs|
        invariant anyFailed <==> exists m :: 0 <= m < k && jobs[m].status == DoneFailed
        invariant forall m :: 0 <= m < k ==> reset[m] == Reset(jobs[m])
        invariant forall m :: k <= m < |jobs| ==> reset[m] == jobs[m]
      {
        if jobs[k].status == DoneFailed {
          reset := reset[k := Job(jobs[k].row, Pending, "")];
          anyFailed := true;
        }
      }
    }

    /**
      * As long as every owed callback is eventually used, the batch ends: every job is
      * in a terminal status, each row was dispatched as often as it was asked for, the
      * end was announced exactly once, and the jobs say, row by row, what the replies said.
      */
    method RunToEnd()
      requires Valid()
      modifies this
      ensures Valid() && !running
      ensures Evolves(old(jobs), jobs)
      ensures forall k :: 0 <= k < |jobs| ==> Terminal(jobs[k].status)
      ensures dispatched == due && begun == finished && begun == old(begun) && due == old(due)
      ensures base == old(base) && old(replies) <= replies
      ensures forall j: Job :: Terminal(j.status) ==> Times(jobs, j) == Times(base, j) + Heard(replies, j)
    {
      while running
        invariant Valid() && Same(old(due), old(begun), old(base), old(replies))
        invariant Evolves(old(jobs), jobs)
        decreases Work(jobs)
      {
        SomeOwed(jobs, owed);
        var r :| r in owed;
        var reply: Reply := *;
        ghost var before := jobs;
        Deliver(r, reply);
        EvolvesTrans(old(jobs), before, jobs);
      }
      AllDispatched(jobs, dispatched, due);
    }
  }

  lemma NothingHeard(batch: seq<Job>)
    ensures Outcomes(batch, batch, [])
  {
  }

  lemma {:induction false} NothingFinished(jobs: seq<Job>)
    requires forall k :: 0 <= k < |jobs| ==> jobs[k].status == Pending
    ensures forall j: Job :: Terminal(j.status) ==> Times(jobs, j) == 0
  {
    if jobs != [] {
      NothingFinished(jobs[1..]);
    }
  }

  lemma AllDispatched(jobs: seq<Job>, dispatched: multiset<int>, due: multiset<int>)
    requires Dispatches(jobs, dispatched, due) && NoneIn(jobs, Pending)
    ensures dispatched == due
  {
    forall row
      ensures dispatched[row] == due[row]
    {
      CountZero(jobs, Pending, row);
    }
  }

  lemma NothingOwed(idle: seq<Job>, owed: multiset<int>)
    requires NoneIn(idle, Running) && Callbacks(idle, owed)
    ensures forall row :: owed[row] == 0
  {
    forall row
      ensures owed[row] == 0
    {
      CountZero(idle, Running, row);
    }
  }

  lemma FreshBooks(idle: seq<Job>, owed: multiset<int>, rows: seq<int>, jobs: seq<Job>)
    requires NoneIn(idle, Running) && Callbacks(idle, owed)
    requires |jobs| == |rows| && forall i :: 0 <= i < |rows| ==> jobs[i] == Job(rows[i], Pending, "")
    ensures Callbacks(jobs, owed) && Dispatches(jobs, multiset{}, multiset(rows)) && Total(jobs, Running) == 0
  {
    NothingOwed(idle, owed);
    TotalZero(jobs, Running);
    forall row
      ensures Count(jobs, Running, row) == 0 && Count(jobs, Pending, row) == multiset(rows)[row]
    {
      CountZero(jobs, Running, row);
      FreshRows(rows, jobs, row);
    }
  }

  function Reset(j: Job): Job {
    if j.status == DoneFailed then Job(j.row, Pending, "") else j
  }

  lemma ResetEvolved(idle: seq<Job>, reset: seq<Job>, jobs: seq<Job>)
    requires NoneIn(idle, Pending) && NoneIn(idle, Running)
    requires |reset| == |idle| && forall k :: 0 <= k < |idle| ==> reset[k] == Reset(idle[k])
    requires Evolves(reset, jobs)
    ensures |jobs| == |idle|
    ensures forall k :: 0 <= k < |jobs| ==>
              jobs[k].row == idle[k].row && (idle[k].status != DoneFailed ==> jobs[k] == idle[k])
  {
  }

  function PendingRows(jobs: seq<Job>): multiset<int> {
    if jobs == [] then multiset{}
    else (if jobs[0].status == Pending then multiset{jobs[0].row} else multiset{}) + PendingRows(jobs[1..])
  }

  lemma {:induction false} PendingRowsCount(jobs: seq<Job>, row: int)
    ensures PendingRows(jobs)[row] == Count(jobs, Pending, row)
  {
    if jobs != [] {
      PendingRowsCount(jobs[1..], row);
    }
  }

  lemma {:induction false} ResetCount(jobs: seq<Job>, reset: seq<Job>, row: int)
    requires |reset| == |jobs|
    requires forall k :: 0 <= k < |jobs| ==> reset[k] == Reset(jobs[k])
    requires NoneIn(jobs, Pending)
    ensures Count(reset, Pending, row) == Count(jobs, DoneFailed, row)
  {
    if jobs != [] {
      NoneInCons(jobs, Pending);
      ResetCount(jobs[1..], reset[1..], row);
    }
  }

  lemma ResetBooks(idle: seq<Job>, owed: multiset<int>, reset: seq<Job>)
    requires NoneIn(idle, Pending) && NoneIn(idle, Running) && Callbacks(idle, owed)
    requires |reset| == |idle| && forall k :: 0 <= k < |idle| ==> reset[k] == Reset(idle[k])
    ensures Callbacks(reset, owed) && Dispatches(reset, multiset{}, PendingRows(reset)) && Total(reset, Running) == 0
    ensures forall row :: PendingRows(reset)[row] == Count(idle, DoneFailed, row)
  {
    NothingOwed(idle, owed);
    TotalZero(reset, Running);
    forall row
      ensures Count(reset, Running, row) == 0
      ensures PendingRows(reset)[row] == Count(reset, Pending, row) == Count(idle, DoneFailed, row)
    {
      CountZero(reset, Running, row);
      PendingRowsCount(reset, row);
      ResetCount(idle, reset, row);
    }
  }
}
