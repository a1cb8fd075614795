/** The job table of internal/queue/store.go and what each statement does to it. Only the columns
    that decide something are kept; the clock is left to finished_at and started_at, which decide
    nothing here. */
module Queue {
  import opened Results

  datatype JobState = Pending | Running | Completed | Failed | Skipped | Cancelled

  datatype Job = Job(
    project: string,
    path: string,
    agent: string,
    state: JobState,
    reason: string,
    attempts: int,
    position: int)

  type Table = map<string, Job>

  /** A job as handed in; id "", attempts 0 and position 0 mean unset. */
  datatype Draft = Draft(id: string, project: string, path: string, agent: string, reason: string,
                         attempts: int, position: int)

  datatype QueueError = DuplicateActive | IdTaken | NotTerminal | NotFound | CannotCancelRunning | AlreadyTerminal

  predicate IsTerminal(s: JobState) {
    s.Completed? || s.Failed? || s.Skipped? || s.Cancelled?
  }

  predicate IsActive(j: Job) {
    j.state.Pending? || j.state.Running?
  }

  /** Whether a job is pending or running for this project and path. */
  ghost predicate HasActive(t: Table, project: string, path: string) {
    exists id :: id in t && IsActive(t[id]) && t[id].project == project && t[id].path == path
  }

  /** The extremes of the position column; 0 for no row. */
  ghost predicate IsMax(t: Table, p: int) {
    && (forall id :: id in t ==> t[id].position <= p)
    && if t == map[] then p == 0 else exists id :: id in t && t[id].position == p
  }

  ghost predicate IsMin(t: Table, p: int) {
    && (forall id :: id in t ==> p <= t[id].position)
    && if t == map[] then p == 0 else exists id :: id in t && t[id].position == p
  }

  /** A pending job with no pending job before it. With equal positions there may be several. */
  predicate IsHead(t: Table, id: string) {
    && id in t && t[id].state.Pending?
    && forall other :: other in t && t[other].state.Pending? ==> t[id].position <= t[other].position
  }

  // ----- statements -----

  /** The row a draft becomes, under the id and at the position it ends up with. */
  function Row(d: Draft, position: int): Job {
    Job(d.project, d.path, d.agent, Pending, d.reason, if d.attempts == 0 then 1 else d.attempts, position)
  }

  function IdOf(d: Draft, generated: string): string {
    if d.id == "" then generated else d.id
  }

  function WithState(j: Job, s: JobState): Job {
    j.(state := s)
  }

  function Terminated(t: Table, id: string, s: JobState, reason: string): Table {
    if id in t && IsTerminal(s) then t[id := t[id].(state := s, reason := reason)] else t
  }

  function Recovered(t: Table): Table {
    map id | id in t :: if t[id].state.Running? then t[id].(state := Pending, attempts := t[id].attempts + 1) else t[id]
  }

  /** The operations, with the outcome of what the database is free to choose. */
  datatype Op =
    | Enqueue(d: Draft, id: string)
    | EnqueueDirect(d: Draft, id: string)
    | Dequeue(head: Option<string>)
    | MarkTerminal(id: string, state: JobState, reason: string)
    | Cancel(id: string)
    | Recover

  /** Where an enqueued draft goes: behind everything, unless it names a position. */
  ghost predicate IsPlace(t: Table, d: Draft, p: int) {
    if d.position == 0 then IsMax(t, p - 1) else p == d.position
  }

  predicate NonePending(t: Table) {
    forall id :: id in t ==> !t[id].state.Pending?
  }

  /** What an operation may make of the table. */
  ghost predicate Step(t: Table, op: Op, u: Table) {
    match op
    case Enqueue(d, id) =>
      if HasActive(t, d.project, d.path) || id in t then u == t
      else exists p :: IsPlace(t, d, p) && u == t[id := Row(d, p)]
    case EnqueueDirect(d, id) => u == if id in t then t else t[id := Row(d, d.position)]
    case Dequeue(head) =>
      if head.None? then NonePending(t) && u == t
      else IsHead(t, head.value) && u == t[head.value := WithState(t[head.value], Running)]
    case MarkTerminal(id, state, reason) => u == Terminated(t, id, state, reason)
    case Cancel(id) =>
      u == if id in t && t[id].state.Pending? then Terminated(t, id, Cancelled, "cancelled_by_user") else t
    case Recover => u == Recovered(t)
  }

  // ----- the store -----

  class Store {
    var jobs: Table

    constructor ()
      ensures jobs == map[]
    {
      jobs := map[];
    }

    method MaxPosition() returns (p: int)
      ensures IsMax(jobs, p)
    {
      p := 0;
      var left := jobs.Keys;
      ghost var seen: set<string> := {};
      while exists id :: id in left
        invariant seen + left == jobs.Keys && seen !! left
        invariant forall id :: id in seen ==> jobs[id].position <= p
        invariant seen != {} ==> exists id :: id in seen && jobs[id].position == p
        invariant seen == {} ==> p == 0
        decreases left
      {
        var id :| id in left;
        if left == jobs.Keys || jobs[id].position > p {
          p := jobs[id].position;
        }
        left, seen := left - {id}, seen + {id};
        assert id in seen;
      }
      assert left == {};
    }

    method MinPosition() returns (p: int)
      ensures IsMin(jobs, p)
      ensures if jobs == map[] then p == 0
              else (forall id :: id in jobs ==> p <= jobs[id].position)
                   && exists id :: id in jobs && jobs[id].position == p
    {
      p := 0;
      var left := jobs.Keys;
      ghost var seen: set<string> := {};
      while exists id :: id in left
        invariant seen + left == jobs.Keys && seen !! left
        invariant forall id :: id in seen ==> p <= jobs[id].position
        invariant seen != {} ==> exists id :: id in seen && jobs[id].position == p
        invariant seen == {} ==> p == 0
        decreases left
      {
        var id :| id in left;
        if left == jobs.Keys || jobs[id].position < p {
          p := jobs[id].position;
        }
        left, seen := left - {id}, seen + {id};
        assert id in seen;
      }
      assert left == {};
    }

    method FindActive(project: string, path: string) returns (found: bool)
      ensures found <==> HasActive(jobs, project, path)
    {
      var left := jobs.Keys;
      while exists id :: id in left
        invariant left <= jobs.Keys
        invariant forall id :: id in jobs && id !in left ==>
          !(IsActive(jobs[id]) && jobs[id].project == project && jobs[id].path == path)
        decreases left
      {
        var id :| id in left;
        if IsActive(jobs[id]) && jobs[id].project == project && jobs[id].path == path {
          return true;
        }
        left := left - {id};
      }
      found := false;
    }

    /** The duplicate check comes first: a duplicate is reported even where the id is taken too. */
    method Enqueue(d: Draft, generated: string) returns (r: Result<string, QueueError>)
      modifies this
      ensures r.Ok? <==> !HasActive(old(jobs), d.project, d.path) && IdOf(d, generated) !in old(jobs)
      ensures r.Ok? ==> r.value == if d.id == "" then generated else d.id
      ensures Step(old(jobs), Op.Enqueue(d, IdOf(d, generated)), jobs)
      ensures r.Err? ==> jobs == old(jobs)
      ensures r == Err(DuplicateActive) <==> HasActive(old(jobs), d.project, d.path)
    {
      var position := d.position;
      if position == 0 {
        var max := MaxPosition();
        position := max + 1;
      }
      var duplicate := FindActive(d.project, d.path);
      if duplicate {
        return Err(DuplicateActive);
      }
      var id := IdOf(d, generated);
      if id in jobs {
        return Err(IdTaken);
      }
      assert IsPlace(jobs, d, position);
      jobs := jobs[id := Row(d, position)];
      r := Ok(id);
    }

    /** No duplicate check, and the position is taken as it is. */
    method EnqueueDirect(d: Draft, generated: string) returns (r: Result<string, QueueError>)
      modifies this
      ensures var id := if d.id == "" then generated else d.id;
              r == if id in old(jobs) then Err(IdTaken) else Ok(id)
      ensures Step(old(jobs), Op.EnqueueDirect(d, IdOf(d, generated)), jobs)
    {
      var id := IdOf(d, generated);
      if id in jobs {
        return Err(IdTaken);
      }
      jobs := jobs[id := Row(d, d.position)];
      r := Ok(id);
    }

    method Dequeue() returns (r: Option<string>)
      modifies this
      ensures r.None? <==> forall id :: id in old(jobs) ==> !old(jobs)[id].state.Pending?
      ensures Step(old(jobs), Op.Dequeue(r), jobs)
    {
      r := None;
      var left := jobs.Keys;
      while exists id :: id in left
        invariant left <= jobs.Keys
        invariant r.Some? ==> r.value in jobs && jobs[r.value].state.Pending?
        invariant forall id :: id in jobs && id !in left && jobs[id].state.Pending? ==>
          r.Some? && jobs[r.value].position <= jobs[id].position
        decreases left
      {
        var id :| id in left;
        if jobs[id].state.Pending? && (r.None? || jobs[id].position < jobs[r.value].position) {
          r := Some(id);
        }
        left := left - {id};
      }
      if r.Some? {
        jobs := jobs[r.value := WithState(jobs[r.value], Running)];
      }
    }

    /** Moves a job into a terminal state from whatever state it is in. */
    method MarkTerminal(id: string, state: JobState, reason: string) returns (r: Result<(), QueueError>)
      modifies this
      ensures r == if !IsTerminal(state) then Err(NotTerminal) else if id !in old(jobs) then Err(NotFound) else Ok(())
      ensures Step(old(jobs), Op.MarkTerminal(id, state, reason), jobs)
    {
      if !IsTerminal(state) {
        return Err(NotTerminal);
      }
      if id !in jobs {
        return Err(NotFound);
      }
      jobs := jobs[id := jobs[id].(state := state, reason := reason)];
      r := Ok(());
    }

    method Cancel(id: string) returns (r: Result<(), QueueError>)
      modifies this
      ensures r.Ok? <==> id in old(jobs) && old(jobs)[id].state.Pending?
      ensures Step(old(jobs), Op.Cancel(id), jobs)
      ensures r == Err(CannotCancelRunning) <==> id in old(jobs) && old(jobs)[id].state.Running?
    {
      if id !in jobs {
        return Err(NotFound);
      }
      if jobs[id].state.Running? {
        return Err(CannotCancelRunning);
      }
      if IsTerminal(jobs[id].state) {
        return Err(AlreadyTerminal);
      }
      r := MarkTerminal(id, Cancelled, "cancelled_by_user");
    }

    method RecoverOrphans()
      modifies this
      ensures Step(old(jobs), Op.Recover, jobs)
    {
      var left := jobs.Keys;
      ghost var before := jobs;
      while exists id :: id in left
        invariant left <= before.Keys && jobs.Keys == before.Keys
        invariant forall id :: id in before ==> jobs[id] == if id in left then before[id] else Recovered(before)[id]
        decreases left
      {
        var id :| id in left;
        if jobs[id].state.Running? {
          jobs := jobs[id := jobs[id].(state := Pending, attempts := jobs[id].attempts + 1)];
        }
        left := left - {id};
      }
    }
  }

  // ----- what the statements mean -----

  /** A job is pending, running or finished. */
  lemma StatesAre(j: Job)
    ensures IsTerminal(j.state) <==> j.state != Pending && j.state != Running
    ensures IsActive(j) <==> j.state == Pending || j.state == Running
  {
  }

  /** The new row is pending and holds what was handed in; an unset attempt count is 1. */
  predicate IsNew(t: Table, d: Draft, id: string, u: Table) {
    && id !in t && id in u && u == t[id := u[id]]
    && u[id].project == d.project && u[id].path == d.path && u[id].agent == d.agent && u[id].reason == d.reason
    && u[id].state == Pending && u[id].attempts == if d.attempts == 0 then 1 else d.attempts
  }

  /** An enqueue adds one row, behind all others if it names no position, or changes nothing. */
  lemma EnqueueMeans(t: Table, d: Draft, id: string, u: Table)
    requires Step(t, Enqueue(d, id), u)
    ensures u == t <==> id in t || exists other ::
      && other in t && t[other].project == d.project && t[other].path == d.path
      && (t[other].state == Pending || t[other].state == Running)
    ensures u != t ==>
      && IsNew(t, d, id, u)
      && (d.position != 0 ==> u[id].position == d.position)
      && (d.position == 0 && t == map[] ==> u[id].position == 1)
      && (d.position == 0 && t != map[] ==>
            (exists last :: last in t && u[id].position == t[last].position + 1)
            && forall other :: other in t ==> t[other].position < u[id].position)
  {
    if HasActive(t, d.project, d.path) {
      var other :| other in t && IsActive(t[other]) && t[other].project == d.project && t[other].path == d.path;
    }
    if !HasActive(t, d.project, d.path) && id !in t {
      var p :| IsPlace(t, d, p) && u == t[id := Row(d, p)];
      assert id in u;
      if d.position == 0 && t != map[] {
        var last :| last in t && t[last].position == p - 1;
      }
    }
  }

  lemma DirectMeans(t: Table, d: Draft, id: string, u: Table)
    requires Step(t, EnqueueDirect(d, id), u)
    ensures if id in t then u == t else IsNew(t, d, id, u) && u[id].position == d.position
  {
  }

  /** The pending job with the least position becomes running, and nothing else changes. */
  lemma DequeueMeans(t: Table, head: Option<string>, u: Table)
    requires Step(t, Dequeue(head), u)
    ensures head.None? ==> u == t && forall id :: id in t ==> t[id].state != Pending
    ensures head.Some? ==>
      && head.value in t && t[head.value].state == Pending
      && u == t[head.value := t[head.value].(state := Running)]
      && forall id :: id in t && t[id].state == Pending ==> t[head.value].position <= t[id].position
  {
  }

  /** A terminal state is written with its reason, whatever the job was doing. */
  lemma MarkMeans(t: Table, id: string, state: JobState, reason: string, u: Table)
    requires Step(t, MarkTerminal(id, state, reason), u)
    ensures u == if id in t && state != Pending && state != Running
                 then t[id := t[id].(state := state, reason := reason)] else t
  {
  }

  /** A pending job is cancelled and says by whom; any other one stays as it is. */
  lemma CancelMeans(t: Table, id: string, u: Table)
    requires Step(t, Cancel(id), u)
    ensures u == if id in t && t[id].state == Pending
                 then t[id := t[id].(state := Cancelled, reason := "cancelled_by_user")] else t
  {
  }

  lemma RecoverMeans(t: Table, u: Table, id: string)
    requires Step(t, Recover, u)
    ensures id in u <==> id in t
    ensures id in t ==>
      u[id] == if t[id].state == Running then t[id].(state := Pending, attempts := t[id].attempts + 1) else t[id]
  {
  }
}
