/** The lineage locks of internal/lock/lock.go over the table of internal/index/index.go. */
module Locks {
  import opened Results

  type RunId = nat

  datatype Holder = User(email: string) | Agent(id: RunId)

  datatype Row = Row(holder: Holder, beat: int)

  datatype LockError = ErrLocked | ErrDatabase

  /** How the database behaves while a lock is taken: it may fail to insert the row, or fail to read
      it back after it was inserted. */
  datatype Fault = Healthy | InsertFails | ReadBackFails

  /** Seconds without a heartbeat after which a lock is reaped. */
  const STALE_AFTER := 300

  predicate Stale(row: Row, now: int) {
    row.beat <= now - STALE_AFTER
  }

  // ----- the table after each operation -----

  function AcquireResult(rows: map<string, Row>, lineage: string, holder: Holder, now: int, fault: Fault)
    : Result<Row, LockError>
  {
    if fault == InsertFails then Err(ErrDatabase)
    else if lineage in rows then Err(ErrLocked)
    else if fault == ReadBackFails then Err(ErrDatabase)
    else Ok(Row(holder, now))
  }

  function Acquired(rows: map<string, Row>, lineage: string, holder: Holder, now: int, fault: Fault): map<string, Row> {
    if fault == InsertFails || lineage in rows then rows else rows[lineage := Row(holder, now)]
  }

  function Released(rows: map<string, Row>, lineage: string, fails: bool): map<string, Row> {
    if fails then rows else rows - {lineage}
  }

  function Beaten(rows: map<string, Row>, lineage: string, now: int): map<string, Row> {
    if lineage in rows then rows[lineage := rows[lineage].(beat := now)] else rows
  }

  function Reaped(rows: map<string, Row>, now: int): map<string, Row> {
    map l | l in rows && !Stale(rows[l], now) :: rows[l]
  }

  // ----- the operations -----

  class LockManager {
    var rows: map<string, Row>

    /** Locks found in the database on start are taken over as they are. */
    constructor (rows: map<string, Row>)
      ensures this.rows == rows
    {
      this.rows := rows;
    }

    method Acquire(lineage: string, holder: Holder, now: int, fault: Fault) returns (r: Result<Row, LockError>)
      modifies this
      ensures r == AcquireResult(old(rows), lineage, holder, now, fault)
      ensures rows == Acquired(old(rows), lineage, holder, now, fault)
    {
      if fault == InsertFails {
        return Err(ErrDatabase);
      }
      if lineage in rows {
        return Err(ErrLocked);
      }
      rows := rows[lineage := Row(holder, now)];
      if fault == ReadBackFails {
        return Err(ErrDatabase);
      }
      r := Ok(rows[lineage]);
    }

    /** Frees the lineage whoever holds it. */
    method Release(lineage: string, fails: bool) returns (ok: bool)
      modifies this
      ensures ok == !fails
      ensures rows == Released(old(rows), lineage, fails)
    {
      if fails {
        return false;
      }
      rows := rows - {lineage};
      ok := true;
    }

    method Heartbeat(lineage: string, now: int)
      modifies this
      ensures rows == Beaten(old(rows), lineage, now)
    {
      if lineage in rows {
        rows := rows[lineage := rows[lineage].(beat := now)];
      }
    }

    /** Selects the stale locks, then deletes them one by one. */
    method Reap(now: int)
      modifies this
      ensures rows == Reaped(old(rows), now)
    {
      var stale := set l | l in rows && Stale(rows[l], now);
      ghost var all := stale;
      while exists l :: l in stale
        invariant stale <= all
        invariant rows == old(rows) - (all - stale)
        decreases stale
      {
        var l :| l in stale;
        rows := rows - {l};
        stale := stale - {l};
      }
      assert stale == {};
    }
  }

  /** A lock beaten less than the threshold ago survives the reaper; an older one does not. */
  lemma ReapedIff(rows: map<string, Row>, lineage: string, now: int)
    requires lineage in rows
    ensures lineage in Reaped(rows, now) <==> now < rows[lineage].beat + 300
    ensures lineage in Reaped(rows, now) ==> Reaped(rows, now)[lineage] == rows[lineage]
  {
  }

  /** Taking a lock adds its row if the lineage was free and the insert did not fail, and touches no
      other row. */
  lemma AcquireMeans(rows: map<string, Row>, lineage: string, holder: Holder, now: int, fault: Fault, other: string)
    ensures var after := Acquired(rows, lineage, holder, now, fault);
            var r := AcquireResult(rows, lineage, holder, now, fault);
            && (other in rows ==> other in after && after[other] == rows[other])
            && (other in after && other !in rows <==> other == lineage && lineage !in rows && fault != InsertFails)
            && (lineage in after && lineage !in rows ==> after[lineage].holder == holder && after[lineage].beat == now)
            && (r.Ok? <==> fault == Healthy && lineage !in rows)
            && (r == Err(ErrLocked) <==> lineage in rows && fault != InsertFails)
            && (r.Ok? ==> lineage in after && r.value == after[lineage])
  {
  }

  /** Releasing deletes the lineage's row, or nothing when the database fails. */
  lemma ReleaseMeans(rows: map<string, Row>, lineage: string, fails: bool, other: string)
    ensures var after := Released(rows, lineage, fails);
            && (other in after <==> other in rows && (fails || other != lineage))
            && (other in after ==> after[other] == rows[other])
  {
  }

  lemma BeatMeans(rows: map<string, Row>, lineage: string, now: int, other: string)
    ensures var after := Beaten(rows, lineage, now);
            && (other in after <==> other in rows)
            && (other in after ==> after[other].holder == rows[other].holder)
            && (other in after ==> after[other].beat == if other == lineage then now else rows[other].beat)
  {
  }
}
