/** The table of deploys: one row per applied deploy, its status written twice. */
module DeployHistory {
  import opened Text

  datatype Status = Running | Live | Failed

  datatype Deploy = Deploy(
    projectId: string,
    imageRef: string,
    trigger: string,
    actor: string,
    status: Status,
    imageDigest: string,
    error: string)

  /** Ids grow and are never used again; started_at grows with the id. */
  datatype Table = Table(rows: map<nat, Deploy>, lastId: nat)

  predicate WellNumbered(t: Table) {
    forall id :: id in t.rows ==> 1 <= id <= t.lastId
  }

  function Inserted(t: Table, d: Deploy): Table {
    Table(t.rows[t.lastId + 1 := d], t.lastId + 1)
  }

  /** The row after its second write. */
  function Finished(d: Deploy, status: Status, imageDigest: string, error: string): Deploy {
    d.(status := status, imageDigest := imageDigest, error := error)
  }

  predicate HasRow(t: Table, projectId: string, id: nat) {
    id in t.rows && t.rows[id].projectId == projectId
  }

  function FinishedIn(t: Table, id: nat, status: Status, imageDigest: string, error: string): Table
    requires id in t.rows
  {
    t.(rows := t.rows[id := Finished(t.rows[id], status, imageDigest, error)])
  }

  /** The newest ids of a project, from an id downwards. */
  function NewestIds(t: Table, projectId: string, top: nat, limit: nat): (ids: seq<nat>)
    ensures forall id :: id in ids ==> HasRow(t, projectId, id)
  {
    if top == 0 || limit == 0 then []
    else if HasRow(t, projectId, top) then [top] + NewestIds(t, projectId, top - 1, limit - 1)
    else NewestIds(t, projectId, top - 1, limit)
  }

  /** A row that a rollback may return to. */
  predicate Restorable(t: Table, projectId: string, self: nat, id: nat) {
    HasRow(t, projectId, id) && id != self && t.rows[id].status == Live && !Blank(t.rows[id].imageDigest)
  }

  function FirstRestorable(t: Table, projectId: string, self: nat, ids: seq<nat>): Option<nat> {
    if ids == [] then None
    else if Restorable(t, projectId, self, ids[0]) then Some(ids[0])
    else FirstRestorable(t, projectId, self, ids[1..])
  }

  const HISTORY_LIMIT := 20

  /** The deploy whose image a failed deploy falls back to. */
  function Fallback(t: Table, projectId: string, self: nat): Option<nat> {
    FirstRestorable(t, projectId, self, NewestIds(t, projectId, t.lastId, HISTORY_LIMIT))
  }

  /** Its image digest, or nothing. */
  function PinOf(t: Table, projectId: string, self: nat): string {
    var id := Fallback(t, projectId, self);
    if id.Some? && id.value in t.rows then t.rows[id.value].imageDigest else ""
  }

  // ---- Which deploy the fallback is ----

  /** The project's rows newer than an id. */
  function NewerRows(t: Table, projectId: string, id: int): set<nat> {
    set j | j in t.rows && t.rows[j].projectId == projectId && j > id
  }

  lemma NewerSplit(t: Table, projectId: string, top: nat)
    requires top >= 1
    ensures NewerRows(t, projectId, top - 1) == NewerRows(t, projectId, top) + (if HasRow(t, projectId, top) then {top} else {})
  {
  }

  lemma {:induction false} FirstRestorableFrom(t: Table, projectId: string, self: nat, top: nat, limit: nat, id: nat)
    requires limit + |NewerRows(t, projectId, top)| == HISTORY_LIMIT
    ensures FirstRestorable(t, projectId, self, NewestIds(t, projectId, top, limit)) == Some(id) <==>
            && 1 <= id <= top
            && Restorable(t, projectId, self, id)
            && |NewerRows(t, projectId, id)| < HISTORY_LIMIT
            && forall j :: id < j <= top ==> !Restorable(t, projectId, self, j)
    decreases top
  {
    if top == 0 {
    } else if limit == 0 {
      forall j | 1 <= j <= top ensures |NewerRows(t, projectId, j)| >= HISTORY_LIMIT {
        NewerGrows(t, projectId, j, top);
      }
    } else {
      NewerSplit(t, projectId, top);
      if HasRow(t, projectId, top) {
        assert top !in NewerRows(t, projectId, top);
        var ids := NewestIds(t, projectId, top, limit);
        assert ids[1..] == NewestIds(t, projectId, top - 1, limit - 1);
        FirstRestorableFrom(t, projectId, self, top - 1, limit - 1, id);
      } else {
        FirstRestorableFrom(t, projectId, self, top - 1, limit, id);
      }
    }
  }

  lemma NewerGrows(t: Table, projectId: string, id: nat, top: nat)
    requires id <= top
    ensures |NewerRows(t, projectId, top)| <= |NewerRows(t, projectId, id)|
  {
    SubsetSize(NewerRows(t, projectId, top), NewerRows(t, projectId, id));
  }

  lemma {:induction false} SubsetSize(a: set<nat>, b: set<nat>)
    requires a <= b
    ensures |a| <= |b|
  {
    if a != {} {
      var x :| x in a;
      SubsetSize(a - {x}, b - {x});
    }
  }

  /** The fallback is the newest other live deploy of the project with a digest, and it is among the
      project's 20 newest deploys. */
  lemma FallbackIsNewest(t: Table, projectId: string, self: nat, id: nat)
    requires WellNumbered(t)
    ensures Fallback(t, projectId, self) == Some(id) <==>
            && id in t.rows && t.rows[id].projectId == projectId && id != self
            && t.rows[id].status == Live && !Blank(t.rows[id].imageDigest)
            && |NewerRows(t, projectId, id)| < 20
            && forall j :: j > id ==> !Restorable(t, projectId, self, j)
  {
    assert NewerRows(t, projectId, t.lastId) == {};
    FirstRestorableFrom(t, projectId, self, t.lastId, HISTORY_LIMIT, id);
  }

  /** The listed deploys are the newest rows of the project: at most so many, from the newest down. */
  lemma {:induction false} NewestIdsAre(t: Table, projectId: string, top: nat, limit: nat)
    ensures var ids := NewestIds(t, projectId, top, limit);
            && |ids| <= limit
            && (forall i, j :: 0 <= i < j < |ids| ==> ids[i] > ids[j])
            && (forall id :: id in ids ==> 1 <= id <= top && HasRow(t, projectId, id))
            && (forall id: nat :: HasRow(t, projectId, id) && 1 <= id <= top && id !in ids ==>
                  |ids| == limit && forall listed :: listed in ids ==> listed > id)
    decreases top
  {
    if top > 0 && limit > 0 {
      if HasRow(t, projectId, top) {
        NewestIdsAre(t, projectId, top - 1, limit - 1);
        var rest := NewestIds(t, projectId, top - 1, limit - 1);
        assert forall id :: id in [top] + rest <==> id == top || id in rest;
        forall i, j | 0 <= i < j < |[top] + rest| ensures ([top] + rest)[i] > ([top] + rest)[j] {
          assert rest[j - 1] in rest;
        }
      } else {
        NewestIdsAre(t, projectId, top - 1, limit);
      }
    }
  }

  lemma PinIsFallback(t: Table, projectId: string, self: nat)
    requires WellNumbered(t)
    ensures PinOf(t, projectId, self) != "" <==> Fallback(t, projectId, self).Some?
    ensures PinOf(t, projectId, self) != "" ==>
              var id := Fallback(t, projectId, self).value;
              Restorable(t, projectId, self, id) && t.rows[id].imageDigest == PinOf(t, projectId, self)
  {
    var id := Fallback(t, projectId, self);
    if id.Some? {
      assert Blank("");
      FallbackIsNewest(t, projectId, self, id.value);
    }
  }

  // ---- The store ----

  datatype StoreError = WriteFailed | ReadFailed | NotFound

  class DeployStore {
    var rows: map<nat, Deploy>
    var lastId: nat

    ghost function Contents(): Table
      reads this
    {
      Table(rows, lastId)
    }

    constructor ()
      ensures Contents() == Table(map[], 0)
    {
      rows, lastId := map[], 0;
    }

    /** The insert may fail, and so may reading the new row back. */
    method StartProjectDeploy(record: Deploy, insertOk: bool, readOk: bool) returns (id: Result<nat, StoreError>)
      modifies this
      ensures insertOk ==> Contents() == Inserted(old(Contents()), record)
      ensures !insertOk ==> Contents() == old(Contents()) && id == Err(WriteFailed)
      ensures insertOk ==> id == if readOk then Ok(old(lastId) + 1) else Err(ReadFailed)
    {
      if !insertOk {
        return Err(WriteFailed);
      }
      lastId := lastId + 1;
      rows := rows[lastId := record];
      if !readOk {
        return Err(ReadFailed);
      }
      return Ok(lastId);
    }

    /** The update may fail, and so may counting the rows it changed, which is an error too. */
    method FinishProjectDeploy(projectId: string, id: nat, status: Status, imageDigest: string, error: string,
                               writeOk: bool, countOk: bool)
        returns (result: Result<(), StoreError>)
      modifies this
      ensures var found := writeOk && HasRow(old(Contents()), projectId, id);
              && Contents() == (if found then FinishedIn(old(Contents()), id, status, imageDigest, error) else old(Contents()))
              && result == if found && countOk then Ok(())
                           else Err(if !writeOk then WriteFailed else if !countOk then ReadFailed else NotFound)
    {
      if !writeOk {
        return Err(WriteFailed);
      }
      var affected := 0;
      if id in rows && rows[id].projectId == projectId {
        rows := rows[id := Finished(rows[id], status, imageDigest, error)];
        affected := 1;
      }
      if !countOk {
        return Err(ReadFailed);
      }
      if affected == 0 {
        return Err(NotFound);
      }
      return Ok(());
    }

    /** The project's newest deploys first, all of them when no limit is given. */
    method ListProjectDeploys(projectId: string, limit: nat, readOk: bool) returns (ids: Result<seq<nat>, StoreError>)
      ensures ids == if !readOk then Err(ReadFailed)
                     else Ok(NewestIds(Contents(), projectId, lastId, if limit > 0 then limit else lastId))
    {
      if !readOk {
        return Err(ReadFailed);
      }
      var most := if limit > 0 then limit else lastId;
      var listed: seq<nat> := [];
      var next := lastId;
      while next > 0 && |listed| < most
        invariant 0 <= next <= lastId && |listed| <= most
        invariant listed + NewestIds(Contents(), projectId, next, most - |listed|) == NewestIds(Contents(), projectId, lastId, most)
      {
        if next in rows && rows[next].projectId == projectId {
          listed := listed + [next];
        }
        next := next - 1;
      }
      assert listed + [] == listed;
      return Ok(listed);
    }
  }
}
