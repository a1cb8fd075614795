/** Concurrent calls of the queue store (internal/queue/store.go). Enqueue and Cancel run two statements
    each and other statements may come in between; every other operation is one statement or one
    transaction. */
module QueueCalls {
  import opened Results
  import opened Queue
  import opened QueueHistory

  type CallId = nat

  datatype Pc =
    | Placing(d: Draft, id: string)             // the largest position is read next
    | Inserting(d: Draft, id: string, p: int)   // the insert is next
    | LookingUp(id: string)                     // the job's state is read next
    | Marking(id: string)                       // it was pending; the update is next
    | Returned(ok: bool)

  datatype State = State(t: Table, calls: map<CallId, Pc>)

  datatype Action =
    | CallEnqueue(c: CallId, d: Draft, id: string)
    | ReadMax(c: CallId, max: int)
    | Insert(c: CallId)
    | CallCancel(c: CallId, id: string)
    | LookUp(c: CallId)
    | Mark(c: CallId)
    | Whole(op: Op)

  /** The row is inserted unless there is an active one for its project and path, or its id is taken. */
  ghost predicate Inserts(t: Table, d: Draft, id: string) {
    !HasActive(t, d.project, d.path) && id !in t
  }

  ghost predicate Moves(s: State, a: Action, u: State) {
    match a
    case CallEnqueue(c, d, id) =>
      && c !in s.calls
      && u == s.(calls := s.calls[c := if d.position == 0 then Placing(d, id) else Inserting(d, id, d.position)])
    case ReadMax(c, max) =>
      && c in s.calls && s.calls[c].Placing? && s.calls[c].d.position == 0 && IsMax(s.t, max)
      && u == s.(calls := s.calls[c := Inserting(s.calls[c].d, s.calls[c].id, max + 1)])
    case Insert(c) =>
      && c in s.calls && s.calls[c].Inserting?
      && var pc := s.calls[c];
         var ok := Inserts(s.t, pc.d, pc.id);
         u == State(if ok then s.t[pc.id := Row(pc.d, pc.p)] else s.t, s.calls[c := Returned(ok)])
    case CallCancel(c, id) => c !in s.calls && u == s.(calls := s.calls[c := LookingUp(id)])
    case LookUp(c) =>
      && c in s.calls && s.calls[c].LookingUp?
      && var id := s.calls[c].id;
         var ok := id in s.t && s.t[id].state.Pending?;
         u == s.(calls := s.calls[c := if ok then Marking(id) else Returned(false)])
    case Mark(c) =>
      && c in s.calls && s.calls[c].Marking?
      && u == State(ByUser(s.t, s.calls[c].id), s.calls[c := Returned(s.calls[c].id in s.t)])
    case Whole(op) => !op.Enqueue? && !op.Cancel? && Step(s.t, op, u.t) && u.calls == s.calls
  }

  /** The update of Cancel, which does not ask for the state again. */
  function ByUser(t: Table, id: string): Table {
    Terminated(t, id, Cancelled, "cancelled_by_user")
  }

  ghost predicate Run(ss: seq<State>, actions: seq<Action>) {
    && |ss| == |actions| + 1
    && forall i :: 0 <= i < |actions| ==> Moves(ss[i], actions[i], ss[i + 1])
  }

  // ----- when a run is a history -----

  /** The operation an action completes: an enqueue takes place at its insert, a cancellation at its
      update. The other statements only read. */
  function Completes(s: State, a: Action): Option<Op> {
    match a
    case Insert(c) =>
      if c in s.calls && s.calls[c].Inserting? then Some(Op.Enqueue(s.calls[c].d, s.calls[c].id)) else None
    case Mark(c) => if c in s.calls && s.calls[c].Marking? then Some(Op.Cancel(s.calls[c].id)) else None
    case Whole(op) => Some(op)
    case _ => None
  }

  /** An insert finds the largest position as it was read, unless it inserts nothing or was given its
      position; an update finds the job still pending, or already cancelled by another user. */
  ghost predicate Undisturbed(s: State, a: Action) {
    match a
    case Insert(c) =>
      c in s.calls && s.calls[c].Inserting? && Inserts(s.t, s.calls[c].d, s.calls[c].id) ==>
        IsPlace(s.t, s.calls[c].d, s.calls[c].p)
    case Mark(c) =>
      c in s.calls && s.calls[c].Marking? && s.calls[c].id in s.t ==>
        s.t[s.calls[c].id].state.Pending? || IsByUser(s.t[s.calls[c].id])
    case _ => true
  }

  predicate IsByUser(j: Job) {
    j.state.Cancelled? && j.reason == "cancelled_by_user"
  }

  lemma InsertIsEnqueue(s: State, c: CallId, u: State)
    requires Moves(s, Insert(c), u)
    ensures Step(s.t, Op.Enqueue(s.calls[c].d, s.calls[c].id), u.t) <==> Undisturbed(s, Insert(c))
  {
    var pc := s.calls[c];
    if Inserts(s.t, pc.d, pc.id) {
      assert u.t == s.t[pc.id := Row(pc.d, pc.p)];
      if Step(s.t, Op.Enqueue(pc.d, pc.id), u.t) {
        var p :| IsPlace(s.t, pc.d, p) && u.t == s.t[pc.id := Row(pc.d, p)];
        assert u.t[pc.id].position == p == pc.p;
      }
    }
  }

  lemma MarkIsCancel(s: State, c: CallId, u: State)
    requires Moves(s, Mark(c), u)
    ensures Step(s.t, Op.Cancel(s.calls[c].id), u.t) <==> Undisturbed(s, Mark(c))
  {
    var id := s.calls[c].id;
    if id in s.t && !s.t[id].state.Pending? {
      var j := s.t[id].(state := Cancelled, reason := "cancelled_by_user");
      assert u.t[id] == j;
      assert j == s.t[id] <==> IsByUser(s.t[id]);
      assert j == s.t[id] ==> u.t == s.t;
    }
  }

  /** An action does what the operation it completes does alone, exactly when it is undisturbed. */
  lemma MoveIsStep(s: State, a: Action, u: State)
    requires Moves(s, a, u)
    ensures Completes(s, a).None? ==> u.t == s.t && Undisturbed(s, a)
    ensures Completes(s, a).Some? ==> (Step(s.t, Completes(s, a).value, u.t) <==> Undisturbed(s, a))
  {
    if a.Insert? {
      InsertIsEnqueue(s, a.c, u);
    } else if a.Mark? {
      MarkIsCancel(s, a.c, u);
    }
  }

  /** The operations of a run in the order in which they complete. */
  function Ops(ss: seq<State>, actions: seq<Action>): seq<Op>
    requires |ss| == |actions| + 1
    decreases |actions|
  {
    if actions == [] then []
    else
      var n := |actions| - 1;
      var before := Ops(ss[..n + 1], actions[..n]);
      match Completes(ss[n], actions[n])
      case None => before
      case Some(op) => before + [op]
  }

  /** The tables between these operations. */
  function Tables(ss: seq<State>, actions: seq<Action>): (ts: seq<Table>)
    requires |ss| == |actions| + 1
    ensures |ts| == |Ops(ss, actions)| + 1
    decreases |actions|
  {
    if actions == [] then [ss[0].t]
    else
      var n := |actions| - 1;
      var before := Tables(ss[..n + 1], actions[..n]);
      if Completes(ss[n], actions[n]).None? then before else before + [ss[n + 1].t]
  }

  ghost predicate AllUndisturbed(ss: seq<State>, actions: seq<Action>)
    requires |ss| == |actions| + 1
  {
    forall i :: 0 <= i < |actions| ==> Undisturbed(ss[i], actions[i])
  }

  lemma HistoryExtends(ts: seq<Table>, ops: seq<Op>, op: Op, u: Table)
    requires |ts| == |ops| + 1
    ensures History(ts + [u], ops + [op]) <==> History(ts, ops) && Step(ts[|ops|], op, u)
  {
    var us, qs := ts + [u], ops + [op];
    assert us[|ops|] == ts[|ops|] && us[|ops| + 1] == u && qs[|ops|] == op;
    forall i | 0 <= i < |ops|
      ensures Step(us[i], qs[i], us[i + 1]) <==> Step(ts[i], ops[i], ts[i + 1])
    {
    }
    if History(us, qs) {
      assert Step(us[|ops|], qs[|ops|], us[|ops| + 1]);
    }
  }

  lemma UndisturbedExtends(ss: seq<State>, actions: seq<Action>)
    requires actions != [] && |ss| == |actions| + 1
    ensures var n := |actions| - 1;
            AllUndisturbed(ss, actions)
            <==> AllUndisturbed(ss[..n + 1], actions[..n]) && Undisturbed(ss[n], actions[n])
  {
    var n := |actions| - 1;
    var ss', actions' := ss[..n + 1], actions[..n];
    if AllUndisturbed(ss', actions') && Undisturbed(ss[n], actions[n]) {
      forall i | 0 <= i < |actions|
        ensures Undisturbed(ss[i], actions[i])
      {
        assert i < n ==> Undisturbed(ss'[i], actions'[i]);
      }
    }
    if AllUndisturbed(ss, actions) {
      forall i | 0 <= i < n
        ensures Undisturbed(ss'[i], actions'[i])
      {
        assert Undisturbed(ss[i], actions[i]);
      }
    }
  }

  lemma RunBefore(ss: seq<State>, actions: seq<Action>)
    requires Run(ss, actions) && actions != []
    ensures var n := |actions| - 1; Run(ss[..n + 1], actions[..n]) && Moves(ss[n], actions[n], ss[n + 1])
  {
    var n := |actions| - 1;
    var ss', actions' := ss[..n + 1], actions[..n];
    forall i | 0 <= i < n
      ensures Moves(ss'[i], actions'[i], ss'[i + 1])
    {
      assert Moves(ss[i], actions[i], ss[i + 1]);
    }
  }

  /** One more action at the end of a run. */
  lemma HistoryStep(ss: seq<State>, actions: seq<Action>)
    requires actions != [] && |ss| == |actions| + 1
    requires var n := |actions| - 1;
             && Moves(ss[n], actions[n], ss[n + 1])
             && Tables(ss[..n + 1], actions[..n])[|Ops(ss[..n + 1], actions[..n])|] == ss[n].t
    ensures var n := |actions| - 1;
            && Tables(ss, actions)[|Ops(ss, actions)|] == ss[n + 1].t
            && (History(Tables(ss, actions), Ops(ss, actions))
                <==> && History(Tables(ss[..n + 1], actions[..n]), Ops(ss[..n + 1], actions[..n]))
                     && Undisturbed(ss[n], actions[n]))
  {
    var n := |actions| - 1;
    var ts, ops := Tables(ss[..n + 1], actions[..n]), Ops(ss[..n + 1], actions[..n]);
    MoveIsStep(ss[n], actions[n], ss[n + 1]);
    if Completes(ss[n], actions[n]).Some? {
      HistoryExtends(ts, ops, Completes(ss[n], actions[n]).value, ss[n + 1].t);
    }
  }

  /** Interleaved calls come to a history of whole operations, in the order in which they complete,
      exactly when every insert and every update is undisturbed. All laws of QueueHistory then hold. */
  lemma {:induction false} HistoryIff(ss: seq<State>, actions: seq<Action>)
    requires Run(ss, actions)
    ensures Tables(ss, actions)[|Ops(ss, actions)|] == ss[|actions|].t
    ensures History(Tables(ss, actions), Ops(ss, actions)) <==> AllUndisturbed(ss, actions)
    decreases |actions|
  {
    if actions != [] {
      var n := |actions| - 1;
      RunBefore(ss, actions);
      HistoryIff(ss[..n + 1], actions[..n]);
      HistoryStep(ss, actions);
      UndisturbedExtends(ss, actions);
    }
  }

  // ----- what survives every interleaving -----

  lemma MoveGrows(s: State, a: Action, u: State)
    requires Moves(s, a, u)
    ensures Grows(s.t, u.t)
  {
    if a.Whole? {
      StepGrows(s.t, a.op, u.t);
    }
  }

  lemma {:induction false} RunGrows(ss: seq<State>, actions: seq<Action>, m: nat, n: nat)
    requires Run(ss, actions) && m <= n <= |actions|
    ensures Grows(ss[m].t, ss[n].t)
    decreases n
  {
    if m < n {
      RunGrows(ss, actions, m, n - 1);
      MoveGrows(ss[n - 1], actions[n - 1], ss[n]);
    }
  }

  /** However calls interleave, a finished job is never pending or running again. */
  lemma TerminalStays(ss: seq<State>, actions: seq<Action>, m: nat, n: nat, id: string)
    requires Run(ss, actions) && m <= n <= |actions|
    requires id in ss[m].t && IsTerminal(ss[m].t[id].state)
    ensures id in ss[n].t && !IsActive(ss[n].t[id])
  {
    RunGrows(ss, actions, m, n);
  }

  lemma MoveKeepsOne(s: State, a: Action, u: State)
    requires Moves(s, a, u) && AtMostOneActive(s.t) && (a.Whole? ==> Disciplined(s.t, a.op))
    ensures AtMostOneActive(u.t)
  {
    if a.Whole? {
      StepKeepsOne(s.t, a.op, u.t);
    } else if a.Insert? && u.t != s.t {
      InsertKeepsOne(s.t, s.calls[a.c].id, Row(s.calls[a.c].d, s.calls[a.c].p));
    } else if a.Mark? {
      SettlingKeepsOne(s.t, u.t);
    }
  }

  /** However calls interleave, there is never more than one active job for a project and path, as long
      as EnqueueDirect is used only where none is active: the duplicate check is part of the insert. */
  lemma {:induction false} OneActiveInEveryRun(ss: seq<State>, actions: seq<Action>, n: nat)
    requires Run(ss, actions) && n <= |actions| && AtMostOneActive(ss[0].t)
    requires forall i :: 0 <= i < n && actions[i].Whole? ==> Disciplined(ss[i].t, actions[i].op)
    ensures AtMostOneActive(ss[n].t)
  {
    if n > 0 {
      OneActiveInEveryRun(ss, actions, n - 1);
      MoveKeepsOne(ss[n - 1], actions[n - 1], ss[n]);
    }
  }

  // ----- what needs no other insert in between -----

  lemma {:induction false} PlaceIsKept(ss: seq<State>, actions: seq<Action>, m: nat, n: nat, c: CallId)
    requires Run(ss, actions) && m <= n <= |actions| && c in ss[m].calls && ss[m].calls[c].Inserting?
    ensures c in ss[n].calls && (ss[n].calls[c] == ss[m].calls[c] || ss[n].calls[c].Returned?)
    decreases n
  {
    if m < n {
      PlaceIsKept(ss, actions, m, n - 1, c);
      assert Moves(ss[n - 1], actions[n - 1], ss[n]);
    }
  }

  lemma MaxIsKept(t: Table, u: Table, max: int)
    requires Grows(t, u) && t.Keys == u.Keys && IsMax(t, max)
    ensures IsMax(u, max)
  {
    if t != map[] {
      var far :| far in t && t[far].position == max;
      assert far in u && u[far].position == max;
    } else {
      assert u.Keys == {};
    }
  }

  /** An enqueue is undisturbed when no row was inserted since it read the largest position. */
  lemma NothingInsertedBetween(ss: seq<State>, actions: seq<Action>, m: nat, n: nat, c: CallId, max: int)
    requires Run(ss, actions) && m < n < |actions| && actions[m] == ReadMax(c, max) && actions[n] == Insert(c)
    requires ss[m].t.Keys == ss[n].t.Keys
    ensures Undisturbed(ss[n], actions[n])
  {
    assert Moves(ss[m], actions[m], ss[m + 1]) && Moves(ss[n], actions[n], ss[n + 1]);
    PlaceIsKept(ss, actions, m + 1, n, c);
    RunGrows(ss, actions, m, n);
    MaxIsKept(ss[m].t, ss[n].t, max);
  }

  // ----- what does not -----

  /** A job dequeued between the two statements of its cancellation is marked as cancelled while it
      runs. */
  lemma RunningJobIsCancelled(t: Table, id: string, c: CallId) returns (ss: seq<State>, actions: seq<Action>)
    requires IsHead(t, id)
    ensures actions == [CallCancel(c, id), LookUp(c), Whole(Op.Dequeue(Some(id))), Mark(c)]
    ensures Run(ss, actions) && ss[0] == State(t, map[])
    ensures id in ss[3].t && ss[3].t[id].state.Running?
    ensures ss[4] == State(ByUser(ss[3].t, id), map[c := Returned(true)])
    ensures !AllUndisturbed(ss, actions)
  {
    var running := t[id := WithState(t[id], Running)];
    var s0 := State(t, map[]);
    var s1 := State(t, map[c := LookingUp(id)]);
    var s2 := State(t, map[c := Marking(id)]);
    var s3 := State(running, map[c := Marking(id)]);
    var s4 := State(ByUser(running, id), map[c := Returned(true)]);
    ss := [s0, s1, s2, s3, s4];
    actions := [CallCancel(c, id), LookUp(c), Whole(Op.Dequeue(Some(id))), Mark(c)];
    assert s0.calls[c := LookingUp(id)] == s1.calls;
    assert s1.calls[c := Marking(id)] == s2.calls;
    assert s3.calls[c := Returned(true)] == s4.calls;
    assert Moves(s0, actions[0], s1) && Moves(s1, actions[1], s2);
    assert Moves(s2, actions[2], s3) && Moves(s3, actions[3], s4);
    assert !Undisturbed(ss[3], actions[3]);
  }

  /** Two enqueues that both read the largest position before either inserts share a position. */
  lemma EnqueuesShareAPosition(t: Table, d: Draft, id: string, e: Draft, other: string, max: int)
    returns (ss: seq<State>, actions: seq<Action>)
    requires d.position == 0 && e.position == 0 && id != other && IsMax(t, max)
    requires Inserts(t, d, id) && Inserts(t, e, other) && (d.project != e.project || d.path != e.path)
    ensures actions == [CallEnqueue(0, d, id), CallEnqueue(1, e, other), ReadMax(0, max), ReadMax(1, max),
                        Insert(0), Insert(1)]
    ensures Run(ss, actions) && ss[0] == State(t, map[])
    ensures ss[6].t == t[id := Row(d, max + 1)][other := Row(e, max + 1)]
    ensures !DistinctPositions(ss[6].t) && !AllUndisturbed(ss, actions)
  {
    var u := t[id := Row(d, max + 1)];
    var v := u[other := Row(e, max + 1)];
    var a, b := Inserting(d, id, max + 1), Inserting(e, other, max + 1);
    ss := [State(t, map[]), State(t, map[0 := Placing(d, id)]),
           State(t, map[0 := Placing(d, id), 1 := Placing(e, other)]),
           State(t, map[0 := a, 1 := Placing(e, other)]), State(t, map[0 := a, 1 := b]),
           State(u, map[0 := Returned(true), 1 := b]), State(v, map[0 := Returned(true), 1 := Returned(true)])];
    actions := [CallEnqueue(0, d, id), CallEnqueue(1, e, other), ReadMax(0, max), ReadMax(1, max),
                Insert(0), Insert(1)];
    OtherMayInsert(t, d, id, max + 1, e, other);
    assert Moves(ss[0], actions[0], ss[1]) && Moves(ss[1], actions[1], ss[2]);
    assert Moves(ss[2], actions[2], ss[3]) && Moves(ss[3], actions[3], ss[4]);
    assert Moves(ss[4], actions[4], ss[5]) && Moves(ss[5], actions[5], ss[6]);
    PlaceIsTaken(t, d, id, e, other, max);
    assert !Undisturbed(ss[5], actions[5]);
  }

  lemma PlaceIsTaken(t: Table, d: Draft, id: string, e: Draft, other: string, max: int)
    requires e.position == 0 && id != other
    ensures var u := t[id := Row(d, max + 1)];
            !IsPlace(u, e, max + 1) && !DistinctPositions(u[other := Row(e, max + 1)])
  {
    var u := t[id := Row(d, max + 1)];
    var v := u[other := Row(e, max + 1)];
    assert u[id].position == max + 1;
    assert v[id].position == v[other].position;
  }

  lemma OtherMayInsert(t: Table, d: Draft, id: string, p: int, e: Draft, other: string)
    requires Inserts(t, e, other) && id != other && (d.project != e.project || d.path != e.path)
    ensures Inserts(t[id := Row(d, p)], e, other)
  {
  }
}
