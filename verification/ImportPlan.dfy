/** Importing a backup into the computer list: plan first, apply after the user confirmed. */
module ImportPlan {
  import opened ByteCodec

  /** `rest` stands for the fields neither planning nor applying looks at. */
  datatype Computer = Computer(id: string, name: string, host: string, rest: string)

  datatype Entry = Entry(incoming: Computer, existingId: string, update: bool)

  // ----- Planning -----

  predicate Matches(c: Computer, x: Computer, byId: bool, fold: string -> string) {
    if byId then x.id == c.id else x.host == c.host && fold(x.name) == fold(c.name)
  }

  /** The two ways a backup entry can be recognised in the list. */
  predicate Recognised(c: Computer, x: Computer, fold: string -> string) {
    (c.id != "" && Matches(c, x, true, fold)) || Matches(c, x, false, fold)
  }

  /** First row from `i` on that matches and has not been claimed. */
  function FirstFree(rows: seq<Computer>, c: Computer, byId: bool, fold: string -> string, claimed: set<int>, i: nat): (r: int)
    requires i <= |rows|
    ensures r == -1 || i <= r < |rows|
    ensures r >= 0 ==> r !in claimed && Matches(c, rows[r], byId, fold)
    ensures forall k :: i <= k < (if r >= 0 then r else |rows|) ==> k in claimed || !Matches(c, rows[k], byId, fold)
    decreases |rows| - i
  {
    if i == |rows| then -1
    else if i !in claimed && Matches(c, rows[i], byId, fold) then i
    else FirstFree(rows, c, byId, fold, claimed, i + 1)
  }

  /** An unclaimed row carries the computer's own id. */
  ghost predicate HasFreeId(rows: seq<Computer>, c: Computer, claimed: set<int>) {
    c.id != "" && exists k :: 0 <= k < |rows| && k !in claimed && rows[k].id == c.id
  }

  /** The row an incoming computer lands on: by id if it has one, else by host and name; -1 for none. */
  function Hit(rows: seq<Computer>, c: Computer, fold: string -> string, claimed: set<int>): (r: int)
    ensures r == -1 || (0 <= r < |rows| && r !in claimed && Recognised(c, rows[r], fold))
    ensures r == -1 ==> forall k :: 0 <= k < |rows| && Recognised(c, rows[k], fold) ==> k in claimed
    ensures HasFreeId(rows, c, claimed) ==>
              r >= 0 && rows[r].id == c.id && forall k :: 0 <= k < r ==> k in claimed || rows[k].id != c.id
    ensures r >= 0 && !HasFreeId(rows, c, claimed) ==>
              && rows[r].host == c.host && fold(rows[r].name) == fold(c.name)
              && forall k :: 0 <= k < r ==> k in claimed || rows[k].host != c.host || fold(rows[k].name) != fold(c.name)
  {
    var byId := if c.id != "" then FirstFree(rows, c, true, fold, claimed, 0) else -1;
    if byId >= 0 then byId else FirstFree(rows, c, false, fold, claimed, 0)
  }

  function Claim(claimed: set<int>, hit: int): set<int> {
    if hit >= 0 then claimed + {hit} else claimed
  }

  function EntryFor(rows: seq<Computer>, c: Computer, hit: int): Entry {
    if 0 <= hit < |rows| then Entry(c, rows[hit].id, true) else Entry(c, "", false)
  }

  function Plan(rows: seq<Computer>, incoming: seq<Computer>, fold: string -> string, claimed: set<int>): (plan: seq<Entry>)
    ensures |plan| == |incoming|
    decreases |incoming|
  {
    if incoming == [] then []
    else
      var hit := Hit(rows, incoming[0], fold, claimed);
      [EntryFor(rows, incoming[0], hit)] + Plan(rows, incoming[1..], fold, Claim(claimed, hit))
  }

  lemma PlanHead(rows: seq<Computer>, incoming: seq<Computer>, fold: string -> string, claimed: set<int>)
    requires incoming != []
    ensures var hit := Hit(rows, incoming[0], fold, claimed);
            Plan(rows, incoming, fold, claimed)
            == [EntryFor(rows, incoming[0], hit)] + Plan(rows, incoming[1..], fold, Claim(claimed, hit))
  {
  }

  predicate DistinctIds(rows: seq<Computer>) {
    && (forall i, j :: 0 <= i < j < |rows| ==> rows[i].id != rows[j].id)
    && (forall i :: 0 <= i < |rows| ==> rows[i].id != "")
  }

  /** Rows an entry of the plan may name: those it is recognised in and not claimed before it. */
  ghost predicate NamesUnclaimed(rows: seq<Computer>, e: Entry, fold: string -> string, claimed: set<int>) {
    e.update ==>
      exists r :: 0 <= r < |rows| && r !in claimed && rows[r].id == e.existingId && Recognised(e.incoming, rows[r], fold)
  }

  lemma {:induction false} PlanNamesUnclaimed(rows: seq<Computer>, incoming: seq<Computer>, fold: string -> string, claimed: set<int>)
    ensures var plan := Plan(rows, incoming, fold, claimed);
            forall i :: 0 <= i < |plan| ==> plan[i].incoming == incoming[i] && NamesUnclaimed(rows, plan[i], fold, claimed)
    decreases |incoming|
  {
    if incoming != [] {
      var hit := Hit(rows, incoming[0], fold, claimed);
      PlanNamesUnclaimed(rows, incoming[1..], fold, Claim(claimed, hit));
      var plan := Plan(rows, incoming, fold, claimed);
      forall i | 0 <= i < |plan|
        ensures plan[i].incoming == incoming[i] && NamesUnclaimed(rows, plan[i], fold, claimed)
      {
        if i > 0 {
          assert plan[i] == plan[1..][i - 1] && incoming[i] == incoming[1..][i - 1];
          assert NamesUnclaimed(rows, plan[i], fold, Claim(claimed, hit));
        }
      }
    }
  }

  /** No two update entries name the same row, and none names a row that is not there. */
  ghost predicate NamesApart(plan: seq<Entry>) {
    forall i, j :: 0 <= i < j < |plan| && plan[i].update && plan[j].update ==> plan[i].existingId != plan[j].existingId
  }

  lemma {:induction false} PlanNamesApart(rows: seq<Computer>, incoming: seq<Computer>, fold: string -> string, claimed: set<int>)
    requires DistinctIds(rows)
    ensures NamesApart(Plan(rows, incoming, fold, claimed))
    decreases |incoming|
  {
    if incoming != [] {
      var hit := Hit(rows, incoming[0], fold, claimed);
      var plan := Plan(rows, incoming, fold, claimed);
      PlanNamesApart(rows, incoming[1..], fold, Claim(claimed, hit));
      PlanNamesUnclaimed(rows, incoming[1..], fold, Claim(claimed, hit));
      forall i, j | 0 <= i < j < |plan| && plan[i].update && plan[j].update
        ensures plan[i].existingId != plan[j].existingId
      {
        assert plan[j] == plan[1..][j - 1];
        if i > 0 {
          assert plan[i] == plan[1..][i - 1];
        } else {
          assert NamesUnclaimed(rows, plan[j], fold, Claim(claimed, hit));
        }
      }
    }
  }

  /** An entry is new only when every row it is recognised in went to an earlier entry. */
  lemma {:induction false} NewMeansTaken(rows: seq<Computer>, incoming: seq<Computer>, fold: string -> string,
                                         claimed: set<int>, k: nat, r: nat)
    requires k < |incoming| && !Plan(rows, incoming, fold, claimed)[k].update
    requires r < |rows| && r !in claimed && Recognised(incoming[k], rows[r], fold)
    ensures Named(Plan(rows, incoming, fold, claimed)[..k], rows[r].id)
    decreases |incoming|
  {
    var plan := Plan(rows, incoming, fold, claimed);
    var hit := Hit(rows, incoming[0], fold, claimed);
    var rest := Plan(rows, incoming[1..], fold, Claim(claimed, hit));
    assert plan[1..] == rest && (k > 0 ==> plan[k] == rest[k - 1] && incoming[k] == incoming[1..][k - 1]);
    if hit == r {
      assert plan[..k][0].update && plan[..k][0].existingId == rows[r].id;
    } else {
      NewMeansTaken(rows, incoming[1..], fold, Claim(claimed, hit), k - 1, r);
      assert plan[..k][1..] == rest[..k - 1];
      NamedTail(plan[..k], rows[r].id);
    }
  }

  /** A computer that carries the id of a row no earlier entry took is an update of that row, whatever else it resembles. */
  lemma {:induction false} IdWins(rows: seq<Computer>, incoming: seq<Computer>, fold: string -> string, claimed: set<int>, k: nat, r: nat)
    requires k < |incoming| && r < |rows| && r !in claimed
    requires incoming[k].id != "" && rows[r].id == incoming[k].id
    requires !Named(Plan(rows, incoming, fold, claimed)[..k], rows[r].id)
    ensures Plan(rows, incoming, fold, claimed)[k].update
    ensures Plan(rows, incoming, fold, claimed)[k].existingId == incoming[k].id
    decreases |incoming|
  {
    var plan := Plan(rows, incoming, fold, claimed);
    var hit := Hit(rows, incoming[0], fold, claimed);
    var rest := Plan(rows, incoming[1..], fold, Claim(claimed, hit));
    assert plan[1..] == rest;
    if k == 0 {
      assert HasFreeId(rows, incoming[0], claimed);
    } else {
      assert plan[k] == rest[k - 1] && incoming[k] == incoming[1..][k - 1];
      assert plan[..k][1..] == rest[..k - 1];
      NamedTail(plan[..k], rows[r].id);
      assert plan[..k][0] == plan[0];
      assert hit != r;
      IdWins(rows, incoming[1..], fold, Claim(claimed, hit), k - 1, r);
    }
  }

  // ----- Applying -----

  /** First row with the given id, or -1. */
  function RowOf(rows: seq<Computer>, id: string, i: nat): (r: int)
    requires i <= |rows|
    ensures r == -1 || (i <= r < |rows| && rows[r].id == id)
    ensures forall k :: i <= k < (if r >= 0 then r else |rows|) ==> rows[k].id != id
    decreases |rows| - i
  {
    if i == |rows| then -1 else if rows[i].id == id then i else RowOf(rows, id, i + 1)
  }

  function Target(rows: seq<Computer>, e: Entry): (r: int)
    ensures r == -1 || (0 <= r < |rows| && rows[r].id == e.existingId && e.update)
  {
    if e.update && e.existingId != "" then RowOf(rows, e.existingId, 0) else -1
  }

  /** `uuid` names rows that arrive without an id. */
  function Apply1(rows: seq<Computer>, e: Entry, uuid: string): seq<Computer> {
    var target := Target(rows, e);
    if target >= 0 then rows[target := e.incoming.(id := rows[target].id)]
    else rows + [Fresh(e, uuid)]
  }

  function Apply(rows: seq<Computer>, plan: seq<Entry>, uuids: nat -> string): seq<Computer>
    decreases |plan|
  {
    if plan == [] then rows else Apply(Apply1(rows, plan[0], uuids(|plan|)), plan[1..], uuids)
  }

  lemma ApplyHead(rows: seq<Computer>, plan: seq<Entry>, uuids: nat -> string)
    requires plan != []
    ensures Apply(rows, plan, uuids) == Apply(Apply1(rows, plan[0], uuids(|plan|)), plan[1..], uuids)
  {
  }

  ghost predicate Named(plan: seq<Entry>, id: string) {
    exists i :: 0 <= i < |plan| && plan[i].update && plan[i].existingId == id
  }

  /**
    * Whatever happened to the list while the dialog was open: every row that was in it
    * keeps its place and its id, and one whose id the plan does not name is untouched.
    */
  lemma {:induction false} OnlyNamedRowsChange(rows: seq<Computer>, plan: seq<Entry>, uuids: nat -> string)
    ensures var after := Apply(rows, plan, uuids);
            && |rows| <= |after|
            && forall i :: 0 <= i < |rows| ==> after[i].id == rows[i].id && (!Named(plan, rows[i].id) ==> after[i] == rows[i])
    decreases |plan|
  {
    if plan != [] {
      var mid := Apply1(rows, plan[0], uuids(|plan|));
      OnlyNamedRowsChange(mid, plan[1..], uuids);
      var after := Apply(rows, plan, uuids);
      forall i | 0 <= i < |rows|
        ensures after[i].id == rows[i].id && (!Named(plan, rows[i].id) ==> after[i] == rows[i])
      {
        assert mid[i].id == rows[i].id;
        if !Named(plan, rows[i].id) {
          NamedTail(plan, rows[i].id);
          assert mid[i] == rows[i];
        }
      }
    }
  }

  lemma NamedTail(plan: seq<Entry>, id: string)
    requires plan != []
    ensures Named(plan, id) <==> (plan[0].update && plan[0].existingId == id) || Named(plan[1..], id)
  {
    if k :| 0 <= k < |plan| && plan[k].update && plan[k].existingId == id {
      assert k > 0 ==> plan[1..][k - 1] == plan[k];
    }
    if k :| 0 <= k < |plan[1..]| && plan[1..][k].update && plan[1..][k].existingId == id {
      assert plan[k + 1] == plan[1..][k];
    }
  }

  // ----- A plan applied to the list it was made for -----

  function Fresh(e: Entry, uuid: string): Computer {
    if e.incoming.id == "" then e.incoming.(id := uuid) else e.incoming
  }

  function NewRow(e: Entry, uuid: string): seq<Computer> {
    if e.update then [] else [Fresh(e, uuid)]
  }

  /** A new row is the incoming computer, under its own id if it has one and the given one if not. */
  lemma NewRowIs(e: Entry, uuid: string)
    requires !e.update
    ensures |NewRow(e, uuid)| == 1
    ensures var r := NewRow(e, uuid)[0];
            && r.name == e.incoming.name && r.host == e.incoming.host && r.rest == e.incoming.rest
            && (e.incoming.id != "" ==> r == e.incoming) && (e.incoming.id == "" ==> r.id == uuid)
  {
  }

  /** The new entries of a plan, as rows. */
  function NewRows(plan: seq<Entry>, uuids: nat -> string): seq<Computer> {
    if plan == [] then [] else NewRow(plan[0], uuids(|plan|)) + NewRows(plan[1..], uuids)
  }

  /** Every row the plan names is among the first `n`. */
  ghost predicate AllPresent(rows: seq<Computer>, n: nat, plan: seq<Entry>) {
    && n <= |rows|
    && forall i :: 0 <= i < |plan| && plan[i].update ==>
         plan[i].existingId != "" && exists r :: 0 <= r < n && rows[r].id == plan[i].existingId
  }

  lemma RowOfPresent(rows: seq<Computer>, id: string, r: nat)
    requires r < |rows| && rows[r].id == id
    ensures 0 <= RowOf(rows, id, 0) <= r
  {
  }

  lemma PresentTail(rows: seq<Computer>, mid: seq<Computer>, n: nat, plan: seq<Entry>)
    requires AllPresent(rows, n, plan) && plan != []
    requires n <= |mid| && forall i :: 0 <= i < n ==> mid[i].id == rows[i].id
    ensures AllPresent(mid, n, plan[1..])
  {
    forall i | 0 <= i < |plan[1..]| && plan[1..][i].update
      ensures plan[1..][i].existingId != "" && exists r :: 0 <= r < n && mid[r].id == plan[1..][i].existingId
    {
      assert plan[i + 1] == plan[1..][i];
      var r :| 0 <= r < n && rows[r].id == plan[i + 1].existingId;
      assert mid[r].id == rows[r].id;
    }
  }

  lemma AppendsNewRow(rows: seq<Computer>, n: nat, e: Entry, uuid: string)
    requires n <= |rows|
    requires e.update ==> e.existingId != "" && exists r :: 0 <= r < n && rows[r].id == e.existingId
    ensures n <= |Apply1(rows, e, uuid)|
    ensures forall i :: 0 <= i < n ==> Apply1(rows, e, uuid)[i].id == rows[i].id
    ensures Apply1(rows, e, uuid)[n..] == rows[n..] + NewRow(e, uuid)
  {
    if e.update {
      var r :| 0 <= r < n && rows[r].id == e.existingId;
      RowOfPresent(rows, e.existingId, r);
    }
  }

  /** As long as every named row is there, exactly the new entries are appended, in order. */
  lemma {:induction false} AppendsNewRows(rows: seq<Computer>, n: nat, plan: seq<Entry>, uuids: nat -> string)
    requires AllPresent(rows, n, plan)
    ensures n <= |Apply(rows, plan, uuids)|
    ensures Apply(rows, plan, uuids)[n..] == rows[n..] + NewRows(plan, uuids)
    decreases |plan|
  {
    if plan != [] {
      var mid := Apply1(rows, plan[0], uuids(|plan|));
      AppendsNewRow(rows, n, plan[0], uuids(|plan|));
      PresentTail(rows, mid, n, plan);
      AppendsNewRows(mid, n, plan[1..], uuids);
      Regroup(rows[n..], NewRow(plan[0], uuids(|plan|)), NewRows(plan[1..], uuids));
    }
  }

  /** Ids of rows `0..n` are pairwise different; what was appended behind them does not matter. */
  predicate HeadDistinct(rows: seq<Computer>, n: nat) {
    n <= |rows| && forall i, j :: 0 <= i < j < n ==> rows[i].id != rows[j].id
  }

  /** The row a plan names takes the incoming data, keeping its id and its place. */
  lemma {:induction false} NamedRowIsRewritten(rows: seq<Computer>, n: nat, plan: seq<Entry>, uuids: nat -> string, k: nat, r: nat)
    requires HeadDistinct(rows, n) && NamesApart(plan)
    requires k < |plan| && plan[k].update && plan[k].existingId != ""
    requires r < n && rows[r].id == plan[k].existingId
    ensures r < |Apply(rows, plan, uuids)|
    ensures Apply(rows, plan, uuids)[r] == plan[k].incoming.(id := rows[r].id)
    decreases |plan|
  {
    var mid := Apply1(rows, plan[0], uuids(|plan|));
    assert HeadDistinct(mid, n);
    if k == 0 {
      RowOfPresent(rows, plan[0].existingId, r);
      assert mid[r] == plan[0].incoming.(id := rows[r].id);
      OnlyNamedRowsChange(mid, plan[1..], uuids);
      assert forall j :: 0 <= j < |plan[1..]| ==> plan[1..][j] == plan[j + 1];
      assert !Named(plan[1..], rows[r].id);
    } else {
      assert mid[r].id == rows[r].id;
      assert plan[1..][k - 1] == plan[k];
      forall i, j | 0 <= i < j < |plan[1..]| && plan[1..][i].update && plan[1..][j].update
        ensures plan[1..][i].existingId != plan[1..][j].existingId
      {
        assert plan[i + 1] == plan[1..][i] && plan[j + 1] == plan[1..][j];
      }
      NamedRowIsRewritten(mid, n, plan[1..], uuids, k - 1, r);
    }
  }

  /**
    * Planning and applying in one go, on a list with distinct ids: update entries name
    * pairwise different rows; exactly those rows take the incoming data, keeping id and
    * position; all other rows are as they were; and behind them come the new entries in order.
    */
  lemma ImportIsAnUpsert(rows: seq<Computer>, incoming: seq<Computer>, fold: string -> string, uuids: nat -> string)
    requires DistinctIds(rows)
    ensures var plan := Plan(rows, incoming, fold, {});
            var after := Apply(rows, plan, uuids);
            && NamesApart(plan)
            && |rows| <= |after|
            && after[|rows|..] == NewRows(plan, uuids)
            && (forall r :: 0 <= r < |rows| ==> after[r].id == rows[r].id)
            && (forall r :: 0 <= r < |rows| && !Named(plan, rows[r].id) ==> after[r] == rows[r])
            && (forall k, r :: 0 <= k < |plan| && 0 <= r < |rows| && plan[k].update && plan[k].existingId == rows[r].id ==>
                  after[r] == incoming[k].(id := rows[r].id))
  {
    var plan := Plan(rows, incoming, fold, {});
    var after := Apply(rows, plan, uuids);
    PlanNamesUnclaimed(rows, incoming, fold, {});
    PlanNamesApart(rows, incoming, fold, {});
    assert AllPresent(rows, |rows|, plan) by {
      forall i | 0 <= i < |plan| && plan[i].update
        ensures plan[i].existingId != "" && exists r :: 0 <= r < |rows| && rows[r].id == plan[i].existingId
      {
        assert NamesUnclaimed(rows, plan[i], fold, {});
      }
    }
    AppendsNewRows(rows, |rows|, plan, uuids);
    assert rows[|rows|..] == [];
    OnlyNamedRowsChange(rows, plan, uuids);
    forall k, r | 0 <= k < |plan| && 0 <= r < |rows| && plan[k].update && plan[k].existingId == rows[r].id
      ensures after[r] == incoming[k].(id := rows[r].id)
    {
      NamedRowIsRewritten(rows, |rows|, plan, uuids, k, r);
    }
  }

  // ----- The model object -----

  class ComputerModel {
    var computers: seq<Computer>
    const fold: string -> string      // case folding of names

    constructor (computers: seq<Computer>, fold: string -> string)
      ensures this.computers == computers && this.fold == fold
    {
      this.computers, this.fold := computers, fold;
    }

    method FindFree(c: Computer, byId: bool, claimed: set<int>) returns (hit: int)
      ensures hit == FirstFree(computers, c, byId, fold, claimed, 0)
    {
      var i := 0;
      while i < |computers|
        invariant 0 <= i <= |computers|
        invariant FirstFree(computers, c, byId, fold, claimed, 0) == FirstFree(computers, c, byId, fold, claimed, i)
      {
        if i !in claimed && Matches(c, computers[i], byId, fold) { return i; }
        i := i + 1;
      }
      return -1;
    }

    method FindHit(c: Computer, claimed: set<int>) returns (hit: int)
      ensures hit == Hit(computers, c, fold, claimed)
    {
      hit := -1;
      if c.id != "" {
        hit := FindFree(c, true, claimed);
      }
      if hit < 0 {
        hit := FindFree(c, false, claimed);
      }
    }

    method PlanImport(incoming: seq<Computer>) returns (plan: seq<Entry>)
      ensures plan == Plan(computers, incoming, fold, {})
    {
      plan := [];
      var claimed: set<int> := {};
      for n := 0 to |incoming|
        invariant Plan(computers, incoming, fold, {}) == plan + Plan(computers, incoming[n..], fold, claimed)
      {
        var c := incoming[n];
        var hit := FindHit(c, claimed);
        PlanHead(computers, incoming[n..], fold, claimed);
        assert incoming[n..][1..] == incoming[n + 1..];
        if hit >= 0 {
          claimed := claimed + {hit};
          plan := plan + [Entry(c, computers[hit].id, true)];
        } else {
          plan := plan + [Entry(c, "", false)];
        }
      }
    }

    /** `persists` says whether the store accepted the new list. */
    method ApplyImport(plan: seq<Entry>, uuids: nat -> string, persists: bool) returns (ok: bool)
      modifies this
      ensures ok == persists
      ensures computers == if ok then Apply(old(computers), plan, uuids) else old(computers)
    {
      var snapshot := computers;
      for n := 0 to |plan|
        invariant Apply(snapshot, plan, uuids) == Apply(computers, plan[n..], uuids)
      {
        var e := plan[n];
        ApplyHead(computers, plan[n..], uuids);
        assert plan[n..][1..] == plan[n + 1..];
        var c := e.incoming;
        var target := -1;
        if e.update && e.existingId != "" {
          target := FindRow(e.existingId);
        }
        if target >= 0 {
          c := c.(id := computers[target].id);
          computers := computers[target := c];
        } else {
          if c.id == "" {
            c := c.(id := uuids(|plan| - n));
          }
          computers := computers + [c];
        }
      }
      if !persists {
        computers := snapshot;
        return false;
      }
      return true;
    }

    method FindRow(id: string) returns (r: int)
      ensures r == RowOf(computers, id, 0)
    {
      var i := 0;
      while i < |computers|
        invariant 0 <= i <= |computers|
        invariant RowOf(computers, id, 0) == RowOf(computers, id, i)
      {
        if computers[i].id == id { return i; }
        i := i + 1;
      }
      return -1;
    }
  }
}
