/** Manager of internal/agent/agent.go, one call at a time: what StartRun takes, it gives back on
    each of its failure exits, and what it keeps, the supervisor's epilogue gives back. */
module AgentManager {
  import opened Executions
  import opened Results
  import opened Locks
  import opened AgentRuns

  datatype StartError =
    | CheckFailed | LineageLocked | UnknownDriver | Busy
    | LockFailed(reason: LockError) | NotRecorded | NotPermitted | NotStarted

  /** What the outside answers to one StartRun. */
  datatype Outside = Outside(
    lockReadable: bool,
    driverKnown: bool,
    fault: Fault,
    recordInserts: bool,
    transitionPermitted: bool,
    driverStarts: bool,
    releaseFails: bool)

  datatype Status = Running | Failed | Finished(status: string)

  /** Why StartRun refuses; the first reason met counts. */
  function Refusal(rows: map<string, Row>, lineage: string, free: bool, x: Outside): Option<StartError> {
    if !x.lockReadable then Some(CheckFailed)
    else if lineage in rows then Some(LineageLocked)
    else if !x.driverKnown then Some(UnknownDriver)
    else if !free then Some(Busy)
    else LaterRefusal(x)
  }

  /** Why the start of a run that has a slot is given up. */
  function LaterRefusal(x: Outside): Option<StartError> {
    if x.fault != Healthy then Some(LockFailed(ErrDatabase))
    else if !x.recordInserts then Some(NotRecorded)
    else if !x.transitionPermitted then Some(NotPermitted)
    else if !x.driverStarts then Some(NotStarted)
    else None
  }

  function ResultOf(id: RunId, refusal: Option<StartError>): Result<RunId, StartError> {
    match refusal
    case Some(e) => Err(e)
    case None => Ok(id)
  }

  function StartResult(rows: map<string, Row>, id: RunId, lineage: string, free: bool, x: Outside)
    : Result<RunId, StartError>
  {
    ResultOf(id, Refusal(rows, lineage, free, x))
  }

  function RecordsAfter(records: map<RunId, Status>, id: RunId, r: Result<RunId, StartError>): map<RunId, Status> {
    match r
    case Ok(_) => records[id := Running]
    case Err(e) => if e.NotPermitted? || e.NotStarted? then records[id := Failed] else records
  }

  /** Whether a refused start leaves its lock behind: the row was inserted and could not be read
      back, or could not be deleted again. */
  predicate LeavesLock(e: StartError, x: Outside) {
    match e
    case LockFailed(_) => x.fault == ReadBackFails
    case NotRecorded => x.releaseFails
    case NotPermitted => x.releaseFails
    case NotStarted => x.releaseFails
    case _ => false
  }

  /** What a start leaves: a run that was started holds a slot, a registration and its lineage's lock,
      a refused one holds nothing, the leftovers of LeavesLock aside. */
  predicate StartLeaves(before: Holding, after: Holding, id: RunId, row: Row, lineage: string, x: Outside,
    r: Result<RunId, StartError>)
  {
    match r
    case Ok(_) =>
      && after.tokens == before.tokens + 1
      && after.active == before.active + {id}
      && lineage !in before.rows && after.rows == before.rows[lineage := row]
    case Err(e) =>
      && after.tokens == before.tokens && after.active == before.active
      && after.rows == if LeavesLock(e, x) then before.rows[lineage := row] else before.rows
  }

  /** Tokens of the semaphore, registry and lock table. */
  datatype Holding = Holding(tokens: nat, active: set<RunId>, rows: map<string, Row>)

  class Manager {
    const cap: nat
    const locks: LockManager
    /** Tokens in the semaphore channel. */
    var tokens: nat
    var active: set<RunId>
    var records: map<RunId, Status>

    function Held(): Holding
      reads this, locks
    {
      Holding(tokens, active, locks.rows)
    }

    constructor (maxConcurrent: int, locks: LockManager)
      ensures cap == (if maxConcurrent <= 0 then 4 else maxConcurrent)
      ensures this.locks == locks && tokens == 0 && active == {} && records == map[]
    {
      cap := if maxConcurrent <= 0 then 4 else maxConcurrent;
      this.locks := locks;
      tokens, active, records := 0, {}, map[];
    }

    method TrySend() returns (ok: bool)
      modifies this`tokens
      ensures ok == (old(tokens) < cap)
      ensures tokens == old(tokens) + if ok then 1 else 0
    {
      ok := tokens < cap;
      if ok {
        tokens := tokens + 1;
      }
    }

    method Receive()
      requires tokens > 0
      modifies this`tokens
      ensures tokens == old(tokens) - 1
    {
      tokens := tokens - 1;
    }

    method StartRun(id: RunId, lineage: string, now: int, x: Outside) returns (r: Result<RunId, StartError>)
      requires tokens <= cap && id !in records && id !in active
      modifies this, locks
      ensures r == StartResult(old(locks.rows), id, lineage, old(tokens) < cap, x)
      ensures StartLeaves(old(Held()), Held(), id, Row(Agent(id), now), lineage, x, r) && tokens <= cap
      ensures records == RecordsAfter(old(records), id, r)
    {
      if !x.lockReadable {
        return Err(CheckFailed);
      }
      if lineage in locks.rows {
        return Err(LineageLocked);
      }
      if !x.driverKnown {
        return Err(UnknownDriver);
      }
      var sent := TrySend();
      if !sent {
        return Err(Busy);
      }
      r := Launch(id, lineage, now, x);
    }

    /** A failure exit behind the lock. */
    method Undo(lineage: string, releaseFails: bool)
      requires tokens > 0
      modifies this`tokens, locks
      ensures tokens == old(tokens) - 1 && locks.rows == Released(old(locks.rows), lineage, releaseFails)
    {
      var _ := locks.Release(lineage, releaseFails);
      Receive();
    }

    /** StartRun from the lineage lock on, with a slot that every failure gives back. */
    method Launch(id: RunId, lineage: string, now: int, x: Outside) returns (r: Result<RunId, StartError>)
      requires tokens > 0 && lineage !in locks.rows && id !in records
      modifies this, locks
      ensures r == ResultOf(id, LaterRefusal(x))
      ensures StartLeaves(old(Held()).(tokens := old(tokens) - 1), Held(), id, Row(Agent(id), now), lineage, x, r)
      ensures records == RecordsAfter(old(records), id, r)
    {
      var row := locks.Acquire(lineage, Agent(id), now, x.fault);
      if row.Err? {
        Receive();
        return Err(LockFailed(row.error));
      }
      if !x.recordInserts {
        Undo(lineage, x.releaseFails);
        return Err(NotRecorded);
      }
      records := records[id := Running];
      if !x.transitionPermitted {
        Undo(lineage, x.releaseFails);
        records := records[id := Failed];
        return Err(NotPermitted);
      }
      if !x.driverStarts {
        Undo(lineage, x.releaseFails);
        records := records[id := Failed];
        return Err(NotStarted);
      }
      active := active + {id};
      r := Ok(id);
    }

    /** What supervise does once the process has exited: deregister, free the slot, and only then,
        with the results written, the lock. */
    method Conclude(id: RunId, lineage: string, status: string, releaseFails: bool) returns (wasActive: bool)
      requires tokens > 0
      modifies this, locks
      ensures wasActive == (id in old(active))
      ensures tokens == old(tokens) - 1 && active == old(active) - {id}
      ensures locks.rows == Released(old(locks.rows), lineage, releaseFails)
      ensures records == old(records)[id := Finished(status)]
    {
      wasActive := id in active;
      active := active - {id};
      Receive();
      var _ := locks.Release(lineage, releaseFails);
      records := records[id := Finished(status)];
    }

    /** The precheck failed: the record comes before the lock. */
    method KillAndFail(id: RunId, lineage: string, releaseFails: bool)
      requires tokens > 0
      modifies this, locks
      ensures tokens == old(tokens) - 1 && active == old(active) - {id}
      ensures locks.rows == Released(old(locks.rows), lineage, releaseFails)
      ensures records == old(records)[id := Failed]
    {
      active := active - {id};
      Receive();
      records := records[id := Failed];
      var _ := locks.Release(lineage, releaseFails);
    }

    /** A whole run with nobody else about: whatever its outcome, the semaphore, the registry and,
        unless the database fails, the locks are as before. */
    method WholeRun(id: RunId, lineage: string, now: int, x: Outside, precheckFails: bool, status: string)
      returns (r: Result<RunId, StartError>)
      requires tokens <= cap && id !in records && id !in active
      modifies this, locks
      ensures tokens == old(tokens) && active == old(active)
      ensures !x.releaseFails && x.fault != ReadBackFails ==> locks.rows == old(locks.rows)
      ensures r.Ok? ==> id in records && records[id] == if precheckFails then Failed else Finished(status)
    {
      r := StartRun(id, lineage, now, x);
      if r.Ok? {
        if precheckFails {
          KillAndFail(id, lineage, x.releaseFails);
        } else {
          var wasActive := Conclude(id, lineage, status, x.releaseFails);
          assert wasActive;
        }
      }
    }
  }

  // ----- the same start among others -----

  function HeldIn(s: State): Holding {
    Holding(s.tokens, s.active, s.locks)
  }

  predicate OnlyOf(actions: seq<Action>, id: RunId) {
    forall a :: a in actions ==> AboutRun(a) && a.id == id
  }

  /** One more action of the run. */
  lemma Goes(s: State, actions: seq<Action>, a: Action, id: RunId) returns (longer: seq<Action>, t: State)
    requires Possible(Do, s, actions) && Enabled(After(Do, s, actions), a)
    requires OnlyOf(actions, id) && AboutRun(a) && a.id == id
    ensures longer == actions + [a] && OnlyOf(longer, id)
    ensures Possible(Do, s, longer) && t == After(Do, s, longer) == Do(After(Do, s, actions), a)
  {
    More(Do, s, actions, a);
    longer, t := actions + [a], Do(After(Do, s, actions), a);
  }

  /** The failure exit behind the lock: the lock is given back, then the slot. */
  lemma GoesBack(s: State, actions: seq<Action>, id: RunId, fails: bool) returns (longer: seq<Action>, t: State)
    requires Possible(Do, s, actions) && OnlyOf(actions, id)
    requires var u := After(Do, s, actions); id in u.runs && u.runs[id].pc.Unlocking? && u.tokens > 0
    ensures Possible(Do, s, longer) && OnlyOf(longer, id) && t == After(Do, s, longer)
    ensures HeldIn(t) == GivenBack(After(Do, s, actions), id, fails)
    ensures id in t.runs && t.runs[id].pc.Ended?
  {
    longer, t := Goes(s, actions, RunStep(id, UndoLock(fails)), id);
    longer, t := Goes(s, longer, RunStep(id, UndoSlot), id);
  }

  /** From the call to the semaphore. */
  lemma GoesIn(s: State, id: RunId, lineage: string, x: Outside) returns (actions: seq<Action>, t: State)
    requires id !in s.runs && s.tokens <= s.cap
    ensures Possible(Do, s, actions) && OnlyOf(actions, id) && t == After(Do, s, actions)
    ensures id in t.runs && t.runs[id].lineage == lineage && t.now == s.now && t.cap == s.cap
    ensures var open := x.lockReadable && x.driverKnown && lineage !in s.locks && s.tokens < s.cap;
            && t.runs[id].pc == (if open then Slotted else Ended)
            && HeldIn(t) == HeldIn(s).(tokens := s.tokens + if open then 1 else 0)
  {
    actions, t := Goes(s, [], Call(id, lineage), id);
    actions, t := Goes(s, actions, RunStep(id, Check(!x.lockReadable || !x.driverKnown)), id);
    if t.runs[id].pc.Checked? {
      actions, t := Goes(s, actions, RunStep(id, TakeSlot), id);
    }
  }

  /** From the driver to the registration, or out again. */
  lemma GoesFurther(s: State, actions: seq<Action>, id: RunId, x: Outside) returns (longer: seq<Action>, t: State)
    requires Possible(Do, s, actions) && OnlyOf(actions, id)
    requires var u := After(Do, s, actions); id in u.runs && u.runs[id].pc.Recorded? && u.tokens > 0
    ensures Possible(Do, s, longer) && OnlyOf(longer, id) && t == After(Do, s, longer) && id in t.runs
    ensures var u := After(Do, s, actions);
            if x.transitionPermitted && x.driverStarts
            then t.runs[id].pc.Registered? && HeldIn(t) == HeldIn(u).(active := u.active + {id})
            else t.runs[id].pc.Ended? && HeldIn(t) == GivenBack(u, id, x.releaseFails)
  {
    longer, t := Goes(s, actions, RunStep(id, Mark(x.transitionPermitted, false)), id);
    if x.transitionPermitted {
      longer, t := Goes(s, longer, RunStep(id, StartDriver(x.driverStarts)), id);
      if x.driverStarts {
        longer, t := Goes(s, longer, RunStep(id, Register), id);
        return;
      }
    }
    longer, t := GoesBack(s, longer, id, x.releaseFails);
  }

  /** What is held once the run has given back its lock and its slot. */
  function GivenBack(u: State, id: RunId, fails: bool): Holding
    requires id in u.runs && u.tokens > 0
  {
    Holding(u.tokens - 1, u.active, Released(u.locks, u.runs[id].lineage, fails))
  }

  /** From the lock to the registration, or out again. */
  lemma GoesOn(s: State, actions: seq<Action>, id: RunId, x: Outside) returns (longer: seq<Action>, t: State)
    requires Possible(Do, s, actions) && OnlyOf(actions, id)
    requires var u := After(Do, s, actions); id in u.runs && u.runs[id].pc.Locked? && u.tokens > 0
    ensures Possible(Do, s, longer) && OnlyOf(longer, id) && t == After(Do, s, longer) && id in t.runs
    ensures var u := After(Do, s, actions);
            if x.recordInserts && x.transitionPermitted && x.driverStarts
            then t.runs[id].pc.Registered? && HeldIn(t) == HeldIn(u).(active := u.active + {id})
            else t.runs[id].pc.Ended? && HeldIn(t) == GivenBack(u, id, x.releaseFails)
  {
    longer, t := Goes(s, actions, RunStep(id, Record(x.recordInserts)), id);
    if x.recordInserts {
      longer, t := GoesFurther(s, longer, id, x);
    } else {
      longer, t := GoesBack(s, longer, id, x.releaseFails);
    }
  }

  /** From the slot on. */
  lemma GoesThrough(s: State, actions: seq<Action>, id: RunId, x: Outside) returns (longer: seq<Action>, t: State)
    requires Possible(Do, s, actions) && OnlyOf(actions, id)
    requires var u := After(Do, s, actions);
             id in u.runs && u.runs[id].pc.Slotted? && u.tokens > 0 && u.runs[id].lineage !in u.locks
    ensures Possible(Do, s, longer) && OnlyOf(longer, id) && t == After(Do, s, longer) && id in t.runs
    ensures var u := After(Do, s, actions);
            var r := ResultOf(id, LaterRefusal(x));
            && StartLeaves(HeldIn(u).(tokens := u.tokens - 1), HeldIn(t), id, Row(Agent(id), u.now),
                           u.runs[id].lineage, x, r)
            && t.runs[id].pc == if r.Ok? then Registered else Ended
  {
    longer, t := Goes(s, actions, RunStep(id, TakeLock(x.fault)), id);
    if x.fault == Healthy {
      longer, t := GoesOn(s, longer, id, x);
    } else {
      longer, t := Goes(s, longer, RunStep(id, UndoSlot), id);
    }
  }

  /** StartRun is one of the executions of AgentRuns: from any state in which the run is new, steps of
      this run alone end with the result, the slot, the registration and the lock that StartRun
      promises. */
  lemma StartIsExecution(s: State, id: RunId, lineage: string, x: Outside) returns (actions: seq<Action>, t: State)
    requires id !in s.runs && s.tokens <= s.cap
    ensures Possible(Do, s, actions) && OnlyOf(actions, id) && t == After(Do, s, actions)
    ensures var r := StartResult(s.locks, id, lineage, s.tokens < s.cap, x);
            && StartLeaves(HeldIn(s), HeldIn(t), id, Row(Agent(id), s.now), lineage, x, r)
            && id in t.runs && t.runs[id].pc == if r.Ok? then Registered else Ended
  {
    actions, t := GoesIn(s, id, lineage, x);
    if t.runs[id].pc.Slotted? {
      actions, t := GoesThrough(s, actions, id, x);
    }
  }

  // ----- what a refusal means -----

  /** Why a start is refused, in the order in which the code looks: the first obstacle counts. */
  lemma RefusalMeans(rows: map<string, Row>, lineage: string, free: bool, x: Outside)
    ensures var r := Refusal(rows, lineage, free, x);
            var open := x.lockReadable && lineage !in rows;
            var locked := open && x.driverKnown && free && x.fault == Healthy;
            && (r == Some(CheckFailed) <==> !x.lockReadable)
            && (r == Some(LineageLocked) <==> x.lockReadable && lineage in rows)
            && (r == Some(UnknownDriver) <==> open && !x.driverKnown)
            && (r == Some(Busy) <==> open && x.driverKnown && !free)
            && (r == Some(LockFailed(ErrDatabase)) <==> open && x.driverKnown && free && x.fault != Healthy)
            && (r == Some(NotRecorded) <==> locked && !x.recordInserts)
            && (r == Some(NotPermitted) <==> locked && x.recordInserts && !x.transitionPermitted)
            && (r == Some(NotStarted) <==> locked && x.recordInserts && x.transitionPermitted && !x.driverStarts)
            && (r == None <==> locked && x.recordInserts && x.transitionPermitted && x.driverStarts)
  {
  }

  /** A refused start leaves its lock only where the database fails: the row could not be read back, or
      not be deleted again. */
  lemma LeaksMean(rows: map<string, Row>, lineage: string, free: bool, x: Outside)
    requires Refusal(rows, lineage, free, x).Some?
    ensures LeavesLock(Refusal(rows, lineage, free, x).value, x) ==>
      lineage !in rows && (x.fault == ReadBackFails || (x.fault == Healthy && x.releaseFails))
    ensures x.fault == Healthy && !x.releaseFails ==> !LeavesLock(Refusal(rows, lineage, free, x).value, x)
  {
  }

  /** A run that got past its record is written down as failed when it is refused, as running when not. */
  lemma RecordsMean(records: map<RunId, Status>, id: RunId, r: Result<RunId, StartError>, other: RunId)
    ensures var after := RecordsAfter(records, id, r);
            && (other != id ==> (other in after <==> other in records))
            && (other != id && other in records ==> after[other] == records[other])
            && (r.Ok? ==> id in after && after[id] == Running)
            && (r == Err(NotPermitted) || r == Err(NotStarted) ==> id in after && after[id] == Failed)
            && (r == Err(NotRecorded) || r == Err(Busy) || r == Err(LineageLocked) ==> after == records)
  {
  }

  // ----- the same end among others -----

  /** From the registration to the supervised process. */
  lemma GoesToWork(s: State, id: RunId) returns (actions: seq<Action>, t: State)
    requires id in s.runs && s.runs[id].pc.Registered? && id in s.active
    ensures Possible(Do, s, actions) && OnlyOf(actions, id) && t == After(Do, s, actions)
    ensures t == s.(runs := s.runs[id := s.runs[id].(pc := Supervised)])
  {
    actions, t := Goes(s, [], RunStep(id, Spawn), id);
    actions, t := Goes(s, actions, RunStep(id, LookUp), id);
  }

  /** From the process's exit to the free slot. */
  lemma GoesOut(s: State, actions: seq<Action>, id: RunId, failed: bool) returns (longer: seq<Action>, t: State)
    requires Possible(Do, s, actions) && OnlyOf(actions, id)
    requires var u := After(Do, s, actions); id in u.runs && u.runs[id].pc.Supervised? && u.tokens > 0
    ensures Possible(Do, s, longer) && OnlyOf(longer, id) && t == After(Do, s, longer) && id in t.runs
    ensures var u := After(Do, s, actions);
            && t.runs[id].pc == (if failed then Releasing else Publishing)
            && t.runs[id].lineage == u.runs[id].lineage && t.log == u.log
            && HeldIn(t) == Holding(u.tokens - 1, u.active - {id}, u.locks)
  {
    longer, t := Goes(s, actions, RunStep(id, Exit(failed)), id);
    longer, t := Goes(s, longer, RunStep(id, Deregister), id);
    longer, t := Goes(s, longer, RunStep(id, GiveSlot), id);
  }

  /** From the free slot to the end; a run that failed its precheck only frees its lock. */
  lemma GoesHome(s: State, actions: seq<Action>, id: RunId, failed: bool, fails: bool)
    returns (longer: seq<Action>, t: State)
    requires Possible(Do, s, actions) && OnlyOf(actions, id)
    requires var u := After(Do, s, actions);
             id in u.runs && u.runs[id].pc == if failed then Releasing else Publishing
    ensures Possible(Do, s, longer) && OnlyOf(longer, id) && t == After(Do, s, longer)
    ensures id in t.runs && t.runs[id].pc.Ended?
    ensures var u := After(Do, s, actions);
            && HeldIn(t) == Holding(u.tokens, u.active, Released(u.locks, u.runs[id].lineage, fails))
            && (failed ==> t.log == u.log)
  {
    longer, t := actions, After(Do, s, actions);
    if !failed {
      longer, t := Goes(s, longer, RunStep(id, Publish(true)), id);
      longer, t := Goes(s, longer, RunStep(id, Commit(true)), id);
    }
    longer, t := Goes(s, longer, RunStep(id, FreeLock(fails)), id);
  }

  /** Conclude and KillAndFail are executions of AgentRuns, too: the run gives back what they say, and one
      that failed its precheck writes and commits nothing. */
  lemma EndIsExecution(s: State, id: RunId, failed: bool, releaseFails: bool)
    returns (actions: seq<Action>, t: State)
    requires id in s.runs && s.runs[id].pc.Registered? && id in s.active && s.tokens > 0
    ensures Possible(Do, s, actions) && OnlyOf(actions, id) && t == After(Do, s, actions)
    ensures id in t.runs && t.runs[id].pc.Ended?
    ensures HeldIn(t)
            == Holding(s.tokens - 1, s.active - {id}, Released(s.locks, s.runs[id].lineage, releaseFails))
    ensures failed ==> t.log == s.log
  {
    actions, t := GoesToWork(s, id);
    actions, t := GoesOut(s, actions, id, failed);
    actions, t := GoesHome(s, actions, id, failed, releaseFails);
  }
}
