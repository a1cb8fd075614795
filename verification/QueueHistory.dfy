/** Whole histories of the job queue: duplicate suppression, finality, attempts and order. */
module QueueHistory {
  import opened Results
  import opened Queue

  /** Each operation takes one table to the next. */
  ghost predicate History(ts: seq<Table>, ops: seq<Op>) {
    && |ts| == |ops| + 1
    && forall i :: 0 <= i < |ops| ==> Step(ts[i], ops[i], ts[i + 1])
  }

  // ----- one active job per project and path -----

  /** Both are active, for one project and path. */
  predicate Rivals(t: Table, a: string, b: string) {
    && a in t && b in t && IsActive(t[a]) && IsActive(t[b])
    && t[a].project == t[b].project && t[a].path == t[b].path
  }

  ghost predicate AtMostOneActive(t: Table) {
    forall a, b :: Rivals(t, a, b) ==> a == b
  }

  /** EnqueueDirect is used only when nothing is active for that project and path. */
  ghost predicate Disciplined(t: Table, op: Op) {
    op.EnqueueDirect? ==> !HasActive(t, op.d.project, op.d.path)
  }

  /** Among the jobs that were there, none becomes active that was not, and none moves to another
      project, path or position. */
  ghost predicate Settles(t: Table, u: Table) {
    && t.Keys == u.Keys
    && forall id :: id in t ==>
         && u[id].project == t[id].project && u[id].path == t[id].path && u[id].position == t[id].position
         && (IsActive(u[id]) ==> IsActive(t[id]))
  }

  lemma StepSettles(t: Table, op: Op, u: Table)
    requires Step(t, op, u) && !op.Enqueue? && !op.EnqueueDirect?
    ensures Settles(t, u)
  {
  }

  lemma SettlingKeepsOne(t: Table, u: Table)
    requires AtMostOneActive(t) && Settles(t, u)
    ensures AtMostOneActive(u)
  {
    forall a, b | Rivals(u, a, b)
      ensures a == b
    {
      assert Rivals(t, a, b);
    }
  }

  lemma InsertKeepsOne(t: Table, id: string, j: Job)
    requires AtMostOneActive(t) && id !in t && !HasActive(t, j.project, j.path)
    ensures AtMostOneActive(t[id := j])
  {
    var u := t[id := j];
    forall a, b | Rivals(u, a, b)
      ensures a == b
    {
      if a != id && b != id {
        assert Rivals(t, a, b);
      }
    }
  }

  /** The discipline is exactly what keeps the rule. */
  lemma DirectNeedsDiscipline(t: Table, d: Draft, id: string)
    requires AtMostOneActive(t) && id !in t
    ensures AtMostOneActive(t[id := Row(d, d.position)]) <==> !HasActive(t, d.project, d.path)
  {
    if HasActive(t, d.project, d.path) {
      var other :| other in t && IsActive(t[other]) && t[other].project == d.project && t[other].path == d.path;
      assert Rivals(t[id := Row(d, d.position)], id, other);
    } else {
      InsertKeepsOne(t, id, Row(d, d.position));
    }
  }

  lemma StepKeepsOne(t: Table, op: Op, u: Table)
    requires AtMostOneActive(t) && Step(t, op, u) && Disciplined(t, op)
    ensures AtMostOneActive(u)
  {
    if op.Enqueue? && !HasActive(t, op.d.project, op.d.path) && op.id !in t {
      var p :| IsPlace(t, op.d, p) && u == t[op.id := Row(op.d, p)];
      InsertKeepsOne(t, op.id, Row(op.d, p));
    } else if op.EnqueueDirect? && op.id !in t {
      InsertKeepsOne(t, op.id, Row(op.d, op.d.position));
    } else if !op.Enqueue? && !op.EnqueueDirect? {
      StepSettles(t, op, u);
      SettlingKeepsOne(t, u);
    }
  }

  /** In every disciplined history there is never more than one active job for a project and path. */
  lemma {:induction false} OneActiveAlways(ts: seq<Table>, ops: seq<Op>, n: nat)
    requires History(ts, ops) && n <= |ops| && AtMostOneActive(ts[0])
    requires forall i :: 0 <= i < n ==> Disciplined(ts[i], ops[i])
    ensures AtMostOneActive(ts[n])
  {
    if n > 0 {
      OneActiveAlways(ts, ops, n - 1);
      StepKeepsOne(ts[n - 1], ops[n - 1], ts[n]);
    }
  }

  /** Putting a job back after its end keeps the discipline, when nothing came in between. */
  lemma RequeueIsDisciplined(t: Table, ended: string, u: Table, d: Draft, id: string, state: JobState, reason: string)
    requires AtMostOneActive(t) && ended in t && IsActive(t[ended]) && IsTerminal(state)
    requires Step(t, MarkTerminal(ended, state, reason), u)
    requires d.project == t[ended].project && d.path == t[ended].path
    ensures Disciplined(u, EnqueueDirect(d, id))
  {
    if HasActive(u, d.project, d.path) {
      var other :| other in u && IsActive(u[other]) && u[other].project == d.project && u[other].path == d.path;
      assert Rivals(t, ended, other);
      assert false;
    }
  }

  /** An enqueue between the end of a job and its return to the queue is let through, and the return,
      which does not look for duplicates, then makes two active jobs for one project and path. */
  lemma RequeueRace(t: Table, ended: string, state: JobState, reason: string, e: Draft, taken: string, d: Draft,
    id: string, p: int) returns (ts: seq<Table>, ops: seq<Op>)
    requires AtMostOneActive(t) && ended in t && t[ended].state.Running? && IsTerminal(state)
    requires taken !in t && id !in t && taken != id && IsPlace(Terminated(t, ended, state, reason), e, p)
    requires e.project == d.project == t[ended].project && e.path == d.path == t[ended].path
    ensures ops == [Op.MarkTerminal(ended, state, reason), Op.Enqueue(e, taken), Op.EnqueueDirect(d, id)]
    ensures History(ts, ops) && ts[0] == t
    ensures Rivals(ts[3], taken, id) && !AtMostOneActive(ts[3])
  {
    var u := Terminated(t, ended, state, reason);
    var v := u[taken := Row(e, p)];
    RequeueIsDisciplined(t, ended, u, d, id, state, reason);
    ts := [t, u, v, v[id := Row(d, d.position)]];
    ops := [Op.MarkTerminal(ended, state, reason), Op.Enqueue(e, taken), Op.EnqueueDirect(d, id)];
    assert IsPlace(u, e, p);
    assert Step(ts[0], ops[0], ts[1]) && Step(ts[1], ops[1], ts[2]) && Step(ts[2], ops[2], ts[3]);
    assert Rivals(ts[3], taken, id);
  }

  // ----- finality -----

  /** Rows never disappear, never move, and never leave a terminal state. */
  ghost predicate Grows(t: Table, u: Table) {
    forall id :: id in t ==>
      && id in u
      && u[id].project == t[id].project && u[id].path == t[id].path && u[id].position == t[id].position
      && (IsTerminal(t[id].state) ==> IsTerminal(u[id].state))
  }

  lemma StepGrows(t: Table, op: Op, u: Table)
    requires Step(t, op, u)
    ensures Grows(t, u)
  {
  }

  lemma {:induction false} AlwaysGrows(ts: seq<Table>, ops: seq<Op>, m: nat, n: nat)
    requires History(ts, ops) && m <= n <= |ops|
    ensures Grows(ts[m], ts[n])
    decreases n
  {
    if m < n {
      AlwaysGrows(ts, ops, m, n - 1);
      StepGrows(ts[n - 1], ops[n - 1], ts[n]);
    }
  }

  /** A finished job is never pending or running again. */
  lemma TerminalIsFinal(ts: seq<Table>, ops: seq<Op>, m: nat, n: nat, id: string)
    requires History(ts, ops) && m <= n <= |ops|
    requires id in ts[m] && IsTerminal(ts[m][id].state)
    ensures id in ts[n] && !IsActive(ts[n][id])
  {
    AlwaysGrows(ts, ops, m, n);
  }

  // ----- attempts -----

  /** How often a recovery between m and n caught the job running. */
  function Caught(ts: seq<Table>, ops: seq<Op>, id: string, m: nat, n: nat): nat
    requires |ts| == |ops| + 1 && m <= n <= |ops|
    decreases n
  {
    if m == n then 0
    else
      Caught(ts, ops, id, m, n - 1)
      + if ops[n - 1].Recover? && id in ts[n - 1] && ts[n - 1][id].state.Running? then 1 else 0
  }

  /** Attempts count exactly the recoveries that caught the job running. */
  lemma {:induction false} AttemptsCounted(ts: seq<Table>, ops: seq<Op>, id: string, m: nat, n: nat)
    requires History(ts, ops) && m <= n <= |ops| && id in ts[m]
    ensures id in ts[n] && ts[n][id].attempts == ts[m][id].attempts + Caught(ts, ops, id, m, n)
    decreases n
  {
    if m < n {
      AttemptsCounted(ts, ops, id, m, n - 1);
      StepAttempts(ts[n - 1], ops[n - 1], ts[n], id);
    }
  }

  lemma StepAttempts(t: Table, op: Op, u: Table, id: string)
    requires Step(t, op, u) && id in t
    ensures id in u
    ensures u[id].attempts == t[id].attempts + if op.Recover? && t[id].state.Running? then 1 else 0
  {
  }

  // ----- order -----

  /** Every job enters through Enqueue without a position. */
  predicate Queues(op: Op) {
    !op.EnqueueDirect? && (op.Enqueue? ==> op.d.position == 0)
  }

  ghost predicate DistinctPositions(t: Table) {
    forall a, b :: a in t && b in t && t[a].position == t[b].position ==> a == b
  }

  /** A new job stands behind every job there is. */
  lemma EnqueuedLast(t: Table, op: Op, u: Table, id: string, earlier: string)
    requires Step(t, op, u) && Queues(op) && id in u && id !in t && earlier in t
    ensures u[earlier].position < u[id].position
  {
  }

  lemma StepKeepsDistinct(t: Table, op: Op, u: Table)
    requires Step(t, op, u) && Queues(op) && DistinctPositions(t)
    ensures DistinctPositions(u)
  {
    forall a, b | a in u && b in u && u[a].position == u[b].position
      ensures a == b
    {
      if a in t && b !in t {
        EnqueuedLast(t, op, u, b, a);
      } else if a !in t && b in t {
        EnqueuedLast(t, op, u, a, b);
      }
    }
  }

  lemma {:induction false} PositionsDistinct(ts: seq<Table>, ops: seq<Op>, n: nat)
    requires History(ts, ops) && n <= |ops| && DistinctPositions(ts[0])
    requires forall i :: 0 <= i < n ==> Queues(ops[i])
    ensures DistinctPositions(ts[n])
  {
    if n > 0 {
      PositionsDistinct(ts, ops, n - 1);
      StepKeepsDistinct(ts[n - 1], ops[n - 1], ts[n]);
    }
  }

  /** Positions follow enqueue order: a job enqueued at step i stands before one enqueued at step k. */
  lemma EnqueueOrder(ts: seq<Table>, ops: seq<Op>, i: nat, k: nat, a: string, b: string)
    requires History(ts, ops) && i < k < |ops| && Queues(ops[k])
    requires a in ts[i + 1] && b !in ts[k] && b in ts[k + 1]
    ensures a in ts[k + 1] && ts[k + 1][a].position < ts[k + 1][b].position
  {
    AlwaysGrows(ts, ops, i + 1, k);
    EnqueuedLast(ts[k], ops[k], ts[k + 1], b, a);
  }

  ghost predicate PendingBehind(t: Table, p: int) {
    forall id :: id in t && t[id].state.Pending? ==> p < t[id].position
  }

  lemma StepKeepsBehind(t: Table, op: Op, u: Table, p: int)
    requires Step(t, op, u) && Queues(op) && !op.Recover?
    requires PendingBehind(t, p) && exists id :: id in t && t[id].position >= p
    ensures PendingBehind(u, p) && exists id :: id in u && u[id].position >= p
  {
    var far :| far in t && t[far].position >= p;
    StepGrows(t, op, u);
    forall id | id in u && u[id].state.Pending?
      ensures p < u[id].position
    {
      if id in t {
        StayedPending(t, op, u, id);
      } else {
        EnqueuedLast(t, op, u, id, far);
      }
    }
  }

  lemma StayedPending(t: Table, op: Op, u: Table, id: string)
    requires Step(t, op, u) && !op.Recover? && id in t && id in u && u[id].state.Pending?
    ensures t[id].state.Pending? && u[id].position == t[id].position
  {
  }

  lemma {:induction false} BehindAlways(ts: seq<Table>, ops: seq<Op>, m: nat, n: nat, p: int)
    requires History(ts, ops) && m <= n <= |ops|
    requires forall i :: m <= i < n ==> Queues(ops[i]) && !ops[i].Recover?
    requires PendingBehind(ts[m], p) && exists id :: id in ts[m] && ts[m][id].position >= p
    ensures PendingBehind(ts[n], p)
    ensures exists id :: id in ts[n] && ts[n][id].position >= p
    decreases n
  {
    if m < n {
      BehindAlways(ts, ops, m, n - 1, p);
      StepKeepsBehind(ts[n - 1], ops[n - 1], ts[n], p);
    }
  }

  /** Without a recovery in between, each job dequeued stands behind the one dequeued before. */
  lemma DequeueOrder(ts: seq<Table>, ops: seq<Op>, m: nat, n: nat)
    requires History(ts, ops) && m < n < |ops| && DistinctPositions(ts[0])
    requires forall i :: 0 <= i < n ==> Queues(ops[i])
    requires forall i :: m < i < n ==> !ops[i].Recover?
    requires ops[m].Dequeue? && ops[m].head.Some? && ops[n].Dequeue? && ops[n].head.Some?
    ensures ops[m].head.value in ts[m] && ops[n].head.value in ts[n]
    ensures ts[m][ops[m].head.value].position < ts[n][ops[n].head.value].position
  {
    var a, b := ops[m].head.value, ops[n].head.value;
    assert Step(ts[m], ops[m], ts[m + 1]) && Step(ts[n], ops[n], ts[n + 1]);
    PositionsDistinct(ts, ops, m);
    HeadLeavesRestBehind(ts[m], a, ts[m + 1]);
    BehindAlways(ts, ops, m + 1, n, ts[m][a].position);
  }

  lemma HeadLeavesRestBehind(t: Table, head: string, u: Table)
    requires DistinctPositions(t) && Step(t, Op.Dequeue(Some(head)), u)
    ensures head in t && PendingBehind(u, t[head].position)
    ensures head in u && u[head].position >= t[head].position
  {
  }

  /** While an older job is pending, a recovered one for example, no job enqueued after it is
      dequeued. */
  lemma OlderFirst(ts: seq<Table>, ops: seq<Op>, k: nat, n: nat, older: string, newer: string)
    requires History(ts, ops) && k < n < |ops| && Queues(ops[k])
    requires older in ts[k] && newer !in ts[k] && newer in ts[k + 1]
    requires older in ts[n] && ts[n][older].state.Pending?
    requires ops[n].Dequeue?
    ensures ops[n].head != Some(newer)
  {
    assert Step(ts[n], ops[n], ts[n + 1]);
    EnqueuedLast(ts[k], ops[k], ts[k + 1], newer, older);
    AlwaysGrows(ts, ops, k + 1, n);
    AlwaysGrows(ts, ops, k, n);
  }

  /** The job is pending and stands before every other job. */
  ghost predicate InFront(t: Table, id: string, p: int) {
    && id in t && t[id].state.Pending? && t[id].position == p
    && forall other :: other in t && other != id ==> p < t[other].position
  }

  /** The operation takes no job out, does not end this one, and puts none before position p. Recovery
      is allowed, and so are inserts behind p. */
  predicate LeavesInFront(op: Op, id: string, p: int) {
    match op
    case Enqueue(d, _) => d.position == 0 || p < d.position
    case EnqueueDirect(d, _) => p < d.position
    case Dequeue(head) => head.None?
    case MarkTerminal(other, _, _) => other != id
    case Cancel(other) => other != id
    case Recover => true
  }

  lemma EnteredBehind(t: Table, op: Op, u: Table, id: string, p: int, other: string)
    requires Step(t, op, u) && InFront(t, id, p) && LeavesInFront(op, id, p)
    requires other in u && other !in t
    ensures p < u[other].position
  {
    if op.Enqueue? {
      var q :| IsPlace(t, op.d, q) && u == t[op.id := Row(op.d, q)];
    }
  }

  lemma StepKeepsFront(t: Table, op: Op, u: Table, id: string, p: int)
    requires Step(t, op, u) && InFront(t, id, p) && LeavesInFront(op, id, p)
    ensures InFront(u, id, p)
  {
    StepGrows(t, op, u);
    FrontStaysPending(t, op, u, id, p);
    forall other | other in u && other != id
      ensures p < u[other].position
    {
      if other !in t {
        EnteredBehind(t, op, u, id, p, other);
      }
    }
  }

  lemma FrontStaysPending(t: Table, op: Op, u: Table, id: string, p: int)
    requires Step(t, op, u) && InFront(t, id, p) && LeavesInFront(op, id, p)
    ensures id in u && u[id].state.Pending?
  {
  }

  lemma {:induction false} FrontAlways(ts: seq<Table>, ops: seq<Op>, m: nat, n: nat, id: string, p: int)
    requires History(ts, ops) && m <= n <= |ops| && InFront(ts[m], id, p)
    requires forall i :: m <= i < n ==> LeavesInFront(ops[i], id, p)
    ensures InFront(ts[n], id, p)
    decreases n
  {
    if m < n {
      FrontAlways(ts, ops, m, n - 1, id, p);
      StepKeepsFront(ts[n - 1], ops[n - 1], ts[n], id, p);
    }
  }

  lemma FrontIsHead(t: Table, id: string, p: int, head: Option<string>, u: Table)
    requires InFront(t, id, p) && Step(t, Op.Dequeue(head), u)
    ensures head == Some(id)
  {
    assert IsHead(t, id);
  }

  /** A job put in front of the smallest position is the next one dequeued, whatever else happens to
      the queue before: jobs are enqueued behind it, cancelled, ended and recovered. */
  lemma InFrontIsNext(ts: seq<Table>, ops: seq<Op>, m: nat, n: nat, d: Draft, id: string, min: int)
    requires History(ts, ops) && m < n < |ops|
    requires ops[m] == Op.EnqueueDirect(d, id) && id !in ts[m] && IsMin(ts[m], min) && d.position < min
    requires forall i :: m < i < n ==> LeavesInFront(ops[i], id, d.position)
    requires ops[n].Dequeue?
    ensures ops[n].head == Some(id)
  {
    assert Step(ts[m], ops[m], ts[m + 1]);
    assert InFront(ts[m + 1], id, d.position);
    FrontAlways(ts, ops, m + 1, n, id, d.position);
    assert Step(ts[n], ops[n], ts[n + 1]);
    FrontIsHead(ts[n], id, d.position, ops[n].head, ts[n + 1]);
  }

  /** Recovery puts back exactly the jobs that were running. */
  lemma RecoveryIsExact(t: Table, u: Table, id: string)
    requires Step(t, Op.Recover, u) && id in t
    ensures u[id].state.Pending? <==> IsActive(t[id])
    ensures !t[id].state.Running? ==> u[id] == t[id]
    ensures !u[id].state.Running?
  {
  }
}
