/** StartRun, supervise and killAndFail of internal/agent/agent.go as interleaved steps of any
    number of runs, beside users and the reaper of internal/lock/lock.go. Each step is what one
    goroutine does between two points where another may come in. */
module AgentRuns {
  import opened Executions
  import opened Locks

  /** Where a run stands in the code. */
  datatype Pc =
    // StartRun
    | Called          // the lock is still to be looked at
    | Checked         // the lock looked free, the semaphore is next
    | Slotted         // has a slot, the lock is next
    | Locked          // has the lock, the run record is next
    | Recorded        // has a record, the target's active status is next
    | Written         // the active status is written, its commit is next
    | Marked          // the driver is next
    | Started         // has a process, not registered yet
    | Registered      // the supervisor is not started yet
    | Unlocking       // a failure exit, the lock is given back next
    | Unslotting      // a failure exit, the slot is given back next
    // supervise and killAndFail
    | Spawned         // the supervisor looks its process up next
    | Supervised      // events are drained until the process exits
    | Exited(failed: bool)        // deregistration is next; failed: by the precheck
    | Deregistered(failed: bool)  // the slot is given back next
    | Publishing      // the final status is written next
    | Committing      // the commit is next
    | Releasing       // the lock is given back next
    | Ended
    | Abandoned       // supervise found no process and returned

  /** A run; the last three fields only record what happened to it. */
  datatype Run = Run(pc: Pc, lineage: string, got: nat, gave: nat, unseen: bool)

  /** A write to a target's status or a commit, and whether the run held its lineage's lock then. */
  datatype Write = Write(id: RunId, lineage: string, locked: bool)

  datatype State = State(
    cap: nat,
    tokens: nat,
    active: set<RunId>,
    locks: map<string, Row>,
    now: int,
    runs: map<RunId, Run>,
    log: seq<Write>)

  /** What one run does next. */
  datatype Step =
    | Check(dbFails: bool)
    | TakeSlot
    | TakeLock(fault: Fault)
    | Record(ok: bool)
    | Mark(permitted: bool, writes: bool)
    | CommitMark(commits: bool)
    | StartDriver(ok: bool)
    | Register
    | Spawn
    | UndoLock(fails: bool)
    | UndoSlot
    | LookUp
    | Exit(failed: bool)
    | Deregister
    | GiveSlot
    | Publish(writes: bool)
    | Commit(commits: bool)
    | FreeLock(fails: bool)

  datatype Action =
    | Call(id: RunId, lineage: string)
    | RunStep(id: RunId, step: Step)
    | UserAcquire(lineage: string, email: string, fault: Fault)
    | UserRelease(lineage: string, fails: bool)
    | Heartbeat(lineage: string)
    | Reap
    | Tick(seconds: nat)

  predicate Init(s: State) {
    s.tokens == 0 && s.active == {} && s.runs == map[] && s.log == []
  }

  // ----- steps -----

  /** Where in the code the step is. */
  predicate Fits(step: Step, pc: Pc) {
    match step
    case Check(_) => pc.Called?
    case TakeSlot => pc.Checked?
    case TakeLock(_) => pc.Slotted?
    case Record(_) => pc.Locked?
    case Mark(_, _) => pc.Recorded?
    case CommitMark(_) => pc.Written?
    case StartDriver(_) => pc.Marked?
    case Register => pc.Started?
    case Spawn => pc.Registered?
    case UndoLock(_) => pc.Unlocking?
    case UndoSlot => pc.Unslotting?
    case LookUp => pc.Spawned?
    case Exit(_) => pc.Supervised?
    case Deregister => pc.Exited?
    case GiveSlot => pc.Deregistered?
    case Publish(_) => pc.Publishing?
    case Commit(_) => pc.Committing?
    case FreeLock(_) => pc.Releasing?
  }

  /** A receive from the semaphore waits for a token. */
  predicate Receives(step: Step) {
    step.UndoSlot? || step.GiveSlot?
  }

  predicate Enabled(s: State, a: Action) {
    match a
    case Call(id, _) => id !in s.runs
    case RunStep(id, step) => id in s.runs && Fits(step, s.runs[id].pc) && (Receives(step) ==> s.tokens > 0)
    case _ => true
  }

  /** The run after its step. */
  function Next(s: State, id: RunId, step: Step): Run
    requires Enabled(s, RunStep(id, step))
  {
    var r := s.runs[id];
    match step
    case Check(dbFails) => r.(pc := if dbFails || r.lineage in s.locks then Ended else Checked)
    case TakeSlot => if s.tokens < s.cap then r.(pc := Slotted, got := r.got + 1) else r.(pc := Ended)
    case TakeLock(fault) =>
      r.(pc := if AcquireResult(s.locks, r.lineage, Agent(id), s.now, fault).Ok? then Locked else Unslotting)
    case Record(ok) => r.(pc := if ok then Recorded else Unlocking)
    case Mark(permitted, writes) => r.(pc := if !permitted then Unlocking else if writes then Written else Marked)
    case CommitMark(_) => r.(pc := Marked)
    case StartDriver(ok) => r.(pc := if ok then Started else Unlocking)
    case Register => r.(pc := Registered)
    case Spawn => r.(pc := Spawned)
    case UndoLock(_) => r.(pc := Unslotting)
    case UndoSlot => r.(pc := Ended, gave := r.gave + 1)
    case LookUp => r.(pc := if id in s.active then Supervised else Abandoned)
    case Exit(failed) => r.(pc := Exited(failed))
    case Deregister => r.(pc := Deregistered(r.pc.failed), unseen := r.unseen || id !in s.active)
    case GiveSlot => r.(pc := if r.pc.failed then Releasing else Publishing, gave := r.gave + 1)
    case Publish(_) => r.(pc := Committing)
    case Commit(_) => r.(pc := Releasing)
    case FreeLock(_) => r.(pc := Ended)
  }

  function TokensAfter(s: State, step: Step): nat
    requires Receives(step) ==> s.tokens > 0
  {
    if Receives(step) then s.tokens - 1
    else if step.TakeSlot? && s.tokens < s.cap then s.tokens + 1
    else s.tokens
  }

  function ActiveAfter(s: State, id: RunId, step: Step): set<RunId> {
    if step.Register? then s.active + {id} else if step.Deregister? then s.active - {id} else s.active
  }

  function LocksAfter(s: State, id: RunId, step: Step): map<string, Row>
    requires id in s.runs
  {
    var l := s.runs[id].lineage;
    match step
    case TakeLock(fault) => Acquired(s.locks, l, Agent(id), s.now, fault)
    case UndoLock(fails) => Released(s.locks, l, fails)
    case FreeLock(fails) => Released(s.locks, l, fails)
    case _ => s.locks
  }

  /** Whether the step writes the target's status or commits. */
  predicate Writes(step: Step) {
    match step
    case Mark(permitted, writes) => permitted && writes
    case CommitMark(commits) => commits
    case Publish(writes) => writes
    case Commit(commits) => commits
    case _ => false
  }

  predicate HasRow(s: State, id: RunId) {
    && id in s.runs
    && s.runs[id].lineage in s.locks
    && s.locks[s.runs[id].lineage].holder == Agent(id)
  }

  function LogAfter(s: State, id: RunId, step: Step): seq<Write>
    requires id in s.runs
  {
    if Writes(step) then s.log + [Write(id, s.runs[id].lineage, HasRow(s, id))] else s.log
  }

  function Do(s: State, a: Action): State
    requires Enabled(s, a)
  {
    match a
    case Call(id, lineage) => s.(runs := s.runs[id := Run(Called, lineage, 0, 0, false)])
    case RunStep(id, step) =>
      State(s.cap, TokensAfter(s, step), ActiveAfter(s, id, step), LocksAfter(s, id, step), s.now,
            s.runs[id := Next(s, id, step)], LogAfter(s, id, step))
    case UserAcquire(lineage, email, fault) => s.(locks := Acquired(s.locks, lineage, User(email), s.now, fault))
    case UserRelease(lineage, fails) => s.(locks := Released(s.locks, lineage, fails))
    case Heartbeat(lineage) => s.(locks := Beaten(s.locks, lineage, s.now))
    case Reap => s.(locks := Reaped(s.locks, s.now))
    case Tick(seconds) => s.(now := s.now + seconds)
  }

  /** What is logged: the writes of the active and of the final status and their commits, with whether
      the lineage's row named the run at that moment. */
  lemma LogMeans(s: State, id: RunId, step: Step)
    requires Enabled(s, RunStep(id, step))
    ensures var log := Do(s, RunStep(id, step)).log;
            if step == Mark(true, true) || step == CommitMark(true) || step == Publish(true) || step == Commit(true)
            then log == s.log + [Write(id, s.runs[id].lineage,
                                       s.runs[id].lineage in s.locks
                                       && s.locks[s.runs[id].lineage].holder == Agent(id))]
            else log == s.log
  {
  }

  /** A run ends at once when the lock cannot be read or is there, and when the semaphore is full; it
      then holds nothing. */
  lemma RefusedRunsEnd(s: State, id: RunId, dbFails: bool)
    requires id in s.runs
    ensures Enabled(s, RunStep(id, Check(dbFails))) ==>
      var t := Do(s, RunStep(id, Check(dbFails)));
      && (t.runs[id].pc.Ended? <==> dbFails || s.runs[id].lineage in s.locks)
      && t.tokens == s.tokens && t.locks == s.locks && t.active == s.active
    ensures Enabled(s, RunStep(id, TakeSlot)) ==>
      var t := Do(s, RunStep(id, TakeSlot));
      && (t.runs[id].pc.Ended? <==> s.tokens >= s.cap)
      && t.tokens == s.tokens + (if s.tokens < s.cap then 1 else 0) && t.locks == s.locks && t.active == s.active
  {
  }

  // ----- slots -----

  /** Between sending to the semaphore and receiving from it. */
  predicate HoldsSlot(pc: Pc) {
    !pc.Called? && !pc.Checked? && !pc.Publishing? && !pc.Committing? && !pc.Releasing? && !pc.Ended?
  }

  predicate IsActive(pc: Pc) {
    pc.Registered? || pc.Spawned? || pc.Supervised? || pc.Exited?
  }

  ghost function SlotHolders(s: State): set<RunId> {
    set id | id in s.runs && HoldsSlot(s.runs[id].pc)
  }

  /** One run's books: at most one slot taken, given back exactly when it should be, registered
      exactly while it is active, and always found. */
  predicate RunBooks(r: Run, registered: bool) {
    && r.got <= 1
    && r.got == r.gave + (if HoldsSlot(r.pc) then 1 else 0)
    && (r.pc.Called? || r.pc.Checked? ==> r.got == 0)
    && (registered <==> IsActive(r.pc))
    && !r.pc.Abandoned?
    && !r.unseen
  }

  ghost predicate Books(s: State) {
    && (forall id :: id in s.runs ==> RunBooks(s.runs[id], id in s.active))
    && s.active <= s.runs.Keys
  }

  ghost predicate SlotInv(s: State) {
    Books(s) && s.tokens == |SlotHolders(s)| <= s.cap
  }

  /** Whether the action is about one run. */
  predicate AboutRun(a: Action) {
    a.Call? || a.RunStep?
  }

  /** A step leaves every other run and its registration alone. */
  lemma OthersUntouched(s: State, a: Action, other: RunId)
    requires Enabled(s, a) && (AboutRun(a) ==> other != a.id)
    ensures other in Do(s, a).runs <==> other in s.runs
    ensures other in s.runs ==> Do(s, a).runs[other] == s.runs[other]
    ensures other in Do(s, a).active <==> other in s.active
  {
  }

  lemma StepBooks(s: State, id: RunId, step: Step)
    requires Enabled(s, RunStep(id, step)) && RunBooks(s.runs[id], id in s.active)
    ensures RunBooks(Next(s, id, step), id in ActiveAfter(s, id, step))
  {
  }

  lemma OwnBooksKept(s: State, a: Action)
    requires Enabled(s, a) && Books(s) && AboutRun(a)
    ensures a.id in Do(s, a).runs && RunBooks(Do(s, a).runs[a.id], a.id in Do(s, a).active)
  {
    if a.RunStep? {
      StepBooks(s, a.id, a.step);
    }
  }

  lemma BooksKept(s: State, a: Action)
    requires Enabled(s, a) && Books(s)
    ensures Books(Do(s, a))
  {
    var t := Do(s, a);
    forall id | id in t.runs
      ensures RunBooks(t.runs[id], id in t.active)
    {
      if AboutRun(a) && id == a.id {
        OwnBooksKept(s, a);
      } else {
        OthersUntouched(s, a, id);
      }
    }
    forall id | id in t.active
      ensures id in t.runs
    {
      if AboutRun(a) && id == a.id {
        OwnBooksKept(s, a);
      } else {
        OthersUntouched(s, a, id);
      }
    }
  }

  lemma OthersHolding(s: State, a: Action)
    requires Enabled(s, a)
    ensures AboutRun(a) ==> SlotHolders(Do(s, a)) - {a.id} == SlotHolders(s) - {a.id}
    ensures !AboutRun(a) ==> SlotHolders(Do(s, a)) == SlotHolders(s)
  {
    forall id | !AboutRun(a) || id != a.id
      ensures id in SlotHolders(Do(s, a)) <==> id in SlotHolders(s)
    {
      OthersUntouched(s, a, id);
    }
  }

  /** Tokens move with the run that takes or returns one. */
  lemma StepTokens(s: State, id: RunId, step: Step)
    requires Enabled(s, RunStep(id, step)) && s.tokens <= s.cap
    ensures var held, holds := HoldsSlot(s.runs[id].pc), HoldsSlot(Next(s, id, step).pc);
            && TokensAfter(s, step) + (if held then 1 else 0) == s.tokens + (if holds then 1 else 0)
            && TokensAfter(s, step) <= s.cap
  {
  }

  lemma SetStep(before: set<RunId>, after: set<RunId>, id: RunId)
    requires before - {id} == after - {id}
    ensures |after| + (if id in before then 1 else 0) == |before| + (if id in after then 1 else 0)
  {
    if id in before {
      assert before == (before - {id}) + {id};
    }
    if id in after {
      assert after == (after - {id}) + {id};
    }
    assert id !in before ==> before - {id} == before;
    assert id !in after ==> after - {id} == after;
  }

  lemma TokensKept(s: State, a: Action)
    requires Enabled(s, a) && SlotInv(s)
    ensures Do(s, a).tokens == |SlotHolders(Do(s, a))| <= Do(s, a).cap
  {
    OthersHolding(s, a);
    if AboutRun(a) {
      SetStep(SlotHolders(s), SlotHolders(Do(s, a)), a.id);
      if a.RunStep? {
        StepTokens(s, a.id, a.step);
      }
    }
  }

  lemma SlotInvAlways(s: State, actions: seq<Action>)
    requires SlotInv(s) && Possible(Do, s, actions)
    ensures SlotInv(After(Do, s, actions))
  {
    forall u, a | SlotInv(u) && Enabled(u, a)
      ensures SlotInv(Do(u, a))
    {
      BooksKept(u, a);
      TokensKept(u, a);
    }
    Always(Do, SlotInv, s, actions);
  }

  lemma InitSlots(s: State)
    requires Init(s)
    ensures SlotInv(s)
  {
    assert SlotHolders(s) == {};
  }

  predicate Receiving(s: State, id: RunId) {
    id in s.runs && (s.runs[id].pc.Unslotting? || s.runs[id].pc.Deregistered?)
  }

  /** In every interleaving the tokens in use are the runs between acquire and release, never more
      than the semaphore holds, and a run about to receive finds one. */
  lemma SlotsAccounted(s: State, actions: seq<Action>)
    requires Init(s) && Possible(Do, s, actions)
    ensures var t := After(Do, s, actions);
            && t.tokens == |SlotHolders(t)| <= t.cap
            && forall id :: Receiving(t, id) ==> t.tokens > 0
  {
    InitSlots(s);
    SlotInvAlways(s, actions);
    var t := After(Do, s, actions);
    forall id | Receiving(t, id)
      ensures t.tokens > 0
    {
      assert id in SlotHolders(t);
    }
  }

  /** On every exit path a run gives back exactly the slots it took, one if it was admitted. The
      supervisor always finds its process, and its run is always still registered when it ends. */
  lemma EveryExitBalances(s: State, actions: seq<Action>, id: RunId)
    requires Init(s) && Possible(Do, s, actions) && id in After(Do, s, actions).runs
    ensures var r := After(Do, s, actions).runs[id];
            && (r.pc == Ended ==> r.gave == r.got <= 1)
            && r.pc != Abandoned
            && !r.unseen
  {
    InitSlots(s);
    SlotInvAlways(s, actions);
  }

  lemma RegisteredIsActive(s: State, id: RunId)
    requires Books(s)
    ensures id in s.active ==> id in s.runs && IsActive(s.runs[id].pc)
  {
  }

  /** When all runs have ended nothing is left behind. */
  lemma Quiescence(s: State, actions: seq<Action>)
    requires Init(s) && Possible(Do, s, actions)
    requires forall id :: id in After(Do, s, actions).runs ==> After(Do, s, actions).runs[id].pc == Ended
    ensures After(Do, s, actions).tokens == 0 && After(Do, s, actions).active == {}
  {
    InitSlots(s);
    SlotInvAlways(s, actions);
    var t := After(Do, s, actions);
    assert SlotHolders(t) == {};
    forall id
      ensures id !in t.active
    {
      RegisteredIsActive(t, id);
    }
  }

  // ----- progress -----

  /** A bound on the steps a run still takes. */
  function Rank(pc: Pc): nat {
    match pc
    case Called => 16
    case Checked => 15
    case Slotted => 14
    case Locked => 13
    case Recorded => 12
    case Written => 11
    case Marked => 10
    case Started => 9
    case Registered => 8
    case Spawned => 7
    case Supervised => 6
    case Exited(_) => 5
    case Deregistered(_) => 4
    case Publishing => 3
    case Committing => 2
    case Releasing => 1
    case Unlocking => 2
    case Unslotting => 1
    case Ended => 0
    case Abandoned => 0
  }

  /** The step a run can take from where it stands; what happens outside is chosen favourably. */
  function SomeStep(pc: Pc): Step {
    match pc
    case Called => Check(false)
    case Checked => TakeSlot
    case Slotted => TakeLock(Healthy)
    case Locked => Record(true)
    case Recorded => Mark(true, false)
    case Written => CommitMark(true)
    case Marked => StartDriver(true)
    case Started => Register
    case Registered => Spawn
    case Spawned => LookUp
    case Supervised => Exit(false)
    case Exited(_) => Deregister
    case Deregistered(_) => GiveSlot
    case Publishing => Publish(true)
    case Committing => Commit(true)
    case Releasing => FreeLock(false)
    case Unlocking => UndoLock(false)
    case Unslotting => UndoSlot
    case _ => LookUp
  }

  /** In every reachable state a run that has not ended can go on, without waiting for another, and
      every step of its own brings it nearer to its end. */
  lemma NobodyIsStuck(s: State, actions: seq<Action>, id: RunId)
    requires Init(s) && Possible(Do, s, actions) && id in After(Do, s, actions).runs
    ensures var t := After(Do, s, actions);
            && (!t.runs[id].pc.Ended? ==> Enabled(t, RunStep(id, SomeStep(t.runs[id].pc))))
            && (forall step :: Enabled(t, RunStep(id, step)) ==> Rank(Next(t, id, step).pc) < Rank(t.runs[id].pc))
            && Rank(t.runs[id].pc) <= 16
  {
    SlotsAccounted(s, actions);
    EveryExitBalances(s, actions, id);
    var t := After(Do, s, actions);
    assert Receiving(t, id) ==> t.tokens > 0;
    forall step | Enabled(t, RunStep(id, step))
      ensures Rank(Next(t, id, step).pc) < Rank(t.runs[id].pc)
    {
      StepDescends(t, id, step);
    }
  }

  /** The steps of StartRun. */
  predicate Starts(step: Step) {
    match step
    case Check(_) => true
    case TakeSlot => true
    case TakeLock(_) => true
    case Record(_) => true
    case Mark(_, _) => true
    case CommitMark(_) => true
    case StartDriver(_) => true
    case Register => true
    case Spawn => true
    case _ => false
  }

  lemma StartDescends(s: State, id: RunId, step: Step)
    requires Enabled(s, RunStep(id, step)) && Starts(step)
    ensures Rank(Next(s, id, step).pc) < Rank(s.runs[id].pc)
  {
  }

  lemma StepDescends(s: State, id: RunId, step: Step)
    requires Enabled(s, RunStep(id, step))
    ensures Rank(Next(s, id, step).pc) < Rank(s.runs[id].pc)
  {
    if Starts(step) {
      StartDescends(s, id, step);
    }
  }

  /** The steps of its own that a run takes. */
  function OwnSteps(actions: seq<Action>, id: RunId): nat {
    if actions == [] then 0
    else (if actions[0].RunStep? && actions[0].id == id then 1 else 0) + OwnSteps(actions[1..], id)
  }

  /** What is left of a run's steps; one that was not called yet has them all before it. */
  function Budget(s: State, id: RunId): nat {
    if id in s.runs then Rank(s.runs[id].pc) else 16
  }

  lemma BudgetSpent(s: State, a: Action, id: RunId)
    requires Enabled(s, a)
    ensures (if a.RunStep? && a.id == id then 1 else 0) + Budget(Do(s, a), id) <= Budget(s, id)
  {
    if a.RunStep? && a.id == id {
      StepDescends(s, id, a.step);
    } else if !AboutRun(a) || a.id != id {
      OthersUntouched(s, a, id);
    }
  }

  /** In every execution, however it interleaves, a run takes at most 16 steps of its own. */
  lemma {:induction false} FewSteps(s: State, actions: seq<Action>, id: RunId)
    requires Possible(Do, s, actions)
    ensures OwnSteps(actions, id) <= Budget(s, id) <= 16
    decreases |actions|
  {
    if actions != [] {
      BudgetSpent(s, actions[0], id);
      FewSteps(Do(s, actions[0]), actions[1..], id);
    }
  }

  // ----- lineage locks -----

  /** Between taking the lineage lock and giving it back. */
  predicate HoldsLock(pc: Pc) {
    !pc.Called? && !pc.Checked? && !pc.Slotted? && !pc.Unslotting? && !pc.Ended? && !pc.Abandoned?
  }

  ghost predicate HeldByRun(s: State, lineage: string) {
    exists id :: id in s.runs && HoldsLock(s.runs[id].pc) && s.runs[id].lineage == lineage
  }

  /** Nobody but the owning run frees a lock that a run holds. */
  ghost predicate Respects(s: State, a: Action) {
    match a
    case UserRelease(lineage, fails) => fails || !HeldByRun(s, lineage)
    case Reap => forall l :: l in s.locks && Stale(s.locks[l], s.now) ==> !HeldByRun(s, l)
    case _ => true
  }

  ghost predicate AllRespect(s: State, actions: seq<Action>)
    requires Possible(Do, s, actions)
    decreases |actions|
  {
    actions != [] ==> Respects(s, actions[0]) && AllRespect(Do(s, actions[0]), actions[1..])
  }

  /** Every run between taking and giving back its lock has the lineage's row. */
  ghost predicate RowsHeld(s: State) {
    forall id :: id in s.runs && HoldsLock(s.runs[id].pc) ==> HasRow(s, id)
  }

  ghost predicate LockInv(s: State) {
    && RowsHeld(s)
    && (forall i :: 0 <= i < |s.log| ==> s.log[i].locked)
  }

  /** Both runs are between taking and giving back the lock of one lineage. */
  predicate Rivals(s: State, a: RunId, b: RunId) {
    && a in s.runs && b in s.runs
    && HoldsLock(s.runs[a].pc) && HoldsLock(s.runs[b].pc)
    && s.runs[a].lineage == s.runs[b].lineage
  }

  /** Two runs that both have a row for one lineage are one run. */
  lemma RowIsUnique(s: State, a: RunId, b: RunId)
    requires HasRow(s, a) && HasRow(s, b) && s.runs[a].lineage == s.runs[b].lineage
    ensures a == b
  {
  }

  lemma RowKept(s: State, a: Action, id: RunId)
    requires Enabled(s, a) && RowsHeld(s) && Respects(s, a)
    requires id in Do(s, a).runs && HoldsLock(Do(s, a).runs[id].pc)
    ensures HasRow(Do(s, a), id)
  {
    if AboutRun(a) && id == a.id {
      OwnRowKept(s, a);
    } else {
      OthersUntouched(s, a, id);
      assert HasRow(s, id);
      OtherRowKept(s, a, id);
    }
  }

  lemma StepRow(s: State, id: RunId, step: Step)
    requires Enabled(s, RunStep(id, step)) && (HoldsLock(s.runs[id].pc) ==> HasRow(s, id))
    requires HoldsLock(Next(s, id, step).pc)
    ensures Next(s, id, step).lineage == s.runs[id].lineage
    ensures var l := s.runs[id].lineage;
            l in LocksAfter(s, id, step) && LocksAfter(s, id, step)[l].holder == Agent(id)
  {
  }

  lemma OwnRowKept(s: State, a: Action)
    requires Enabled(s, a) && RowsHeld(s) && AboutRun(a)
    ensures a.id in Do(s, a).runs && (HoldsLock(Do(s, a).runs[a.id].pc) ==> HasRow(Do(s, a), a.id))
  {
    if a.RunStep? && HoldsLock(Next(s, a.id, a.step).pc) {
      StepRow(s, a.id, a.step);
    }
  }

  /** Another run's step frees no row but its own. */
  lemma StepOtherRow(s: State, id: RunId, step: Step, other: RunId)
    requires Enabled(s, RunStep(id, step)) && RowsHeld(s) && HasRow(s, other) && id != other
    ensures s.runs[other].lineage in LocksAfter(s, id, step)
    ensures LocksAfter(s, id, step)[s.runs[other].lineage] == s.locks[s.runs[other].lineage]
  {
    if step.UndoLock? || step.FreeLock? {
      assert HasRow(s, id);
    }
  }

  lemma OtherRowKept(s: State, a: Action, id: RunId)
    requires Enabled(s, a) && RowsHeld(s) && Respects(s, a)
    requires HasRow(s, id) && HoldsLock(s.runs[id].pc) && (AboutRun(a) ==> id != a.id)
    ensures var l := s.runs[id].lineage; l in Do(s, a).locks && Do(s, a).locks[l].holder == Agent(id)
  {
    if a.RunStep? {
      StepOtherRow(s, a.id, a.step, id);
    } else if a.UserRelease? || a.Reap? {
      assert HeldByRun(s, s.runs[id].lineage);
    }
  }

  lemma RowsKept(s: State, a: Action)
    requires Enabled(s, a) && RowsHeld(s) && Respects(s, a)
    ensures RowsHeld(Do(s, a))
  {
    forall id | id in Do(s, a).runs && HoldsLock(Do(s, a).runs[id].pc)
      ensures HasRow(Do(s, a), id)
    {
      RowKept(s, a, id);
    }
  }

  /** A run whose lock somebody else frees is left without its row. */
  lemma RowLost(s: State, a: Action)
    requires Enabled(s, a) && RowsHeld(s) && !Respects(s, a)
    ensures !RowsHeld(Do(s, a))
  {
    var l: string;
    if a.UserRelease? {
      l := a.lineage;
    } else {
      l :| l in s.locks && Stale(s.locks[l], s.now) && HeldByRun(s, l);
    }
    var id :| id in s.runs && HoldsLock(s.runs[id].pc) && s.runs[id].lineage == l;
    assert l !in Do(s, a).locks && !HasRow(Do(s, a), id);
  }

  /** One action leaves every run its row exactly when it frees no lock that a run other than its
      author holds. */
  lemma RowsHeldIff(s: State, a: Action)
    requires Enabled(s, a) && RowsHeld(s)
    ensures RowsHeld(Do(s, a)) <==> Respects(s, a)
  {
    if Respects(s, a) {
      RowsKept(s, a);
    } else {
      RowLost(s, a);
    }
  }

  /** In every state of the execution, its first and its last included. */
  ghost predicate HeldThroughout(s: State, actions: seq<Action>) {
    forall k :: 0 <= k <= |actions| ==> Possible(Do, s, actions[..k]) && RowsHeld(After(Do, s, actions[..k]))
  }

  lemma HeldStep(s: State, actions: seq<Action>)
    requires actions != [] && Enabled(s, actions[0])
    ensures HeldThroughout(s, actions) <==> RowsHeld(s) && HeldThroughout(Do(s, actions[0]), actions[1..])
  {
    var t, rest := Do(s, actions[0]), actions[1..];
    forall k | 0 <= k <= |rest|
      ensures Possible(Do, s, actions[..k + 1]) <==> Possible(Do, t, rest[..k])
      ensures Possible(Do, t, rest[..k]) ==> After(Do, s, actions[..k + 1]) == After(Do, t, rest[..k])
    {
      assert actions[..k + 1][0] == actions[0] && actions[..k + 1][1..] == rest[..k];
    }
    if HeldThroughout(s, actions) {
      assert After(Do, s, actions[..0]) == s;
      forall k | 0 <= k <= |rest|
        ensures Possible(Do, t, rest[..k]) && RowsHeld(After(Do, t, rest[..k]))
      {
        assert Possible(Do, s, actions[..k + 1]) && RowsHeld(After(Do, s, actions[..k + 1]));
      }
    }
    if RowsHeld(s) && HeldThroughout(t, rest) {
      forall k | 0 <= k <= |actions|
        ensures Possible(Do, s, actions[..k]) && RowsHeld(After(Do, s, actions[..k]))
      {
        if k > 0 {
          assert Possible(Do, t, rest[..k - 1]) && RowsHeld(After(Do, t, rest[..k - 1]));
          assert Possible(Do, s, actions[..k - 1 + 1]);
        } else {
          assert actions[..0] == [];
        }
      }
    }
  }

  lemma {:induction false} HeldThroughoutIff(s: State, actions: seq<Action>)
    requires RowsHeld(s) && Possible(Do, s, actions)
    ensures HeldThroughout(s, actions) <==> AllRespect(s, actions)
    decreases |actions|
  {
    if actions == [] {
      assert forall k :: 0 <= k <= |actions| ==> actions[..k] == [];
    } else {
      HeldStep(s, actions);
      RowsHeldIff(s, actions[0]);
      var t := Do(s, actions[0]);
      if RowsHeld(t) {
        HeldThroughoutIff(t, actions[1..]);
      } else {
        assert After(Do, t, actions[1..][..0]) == t;
      }
    }
  }

  /** When exclusion holds: the row of a lineage names the run that took it, in every state until that
      run gives it back, exactly when no user and no reaper freed a lock that a run held. */
  lemma ExclusionIff(s: State, actions: seq<Action>)
    requires Init(s) && Possible(Do, s, actions)
    ensures HeldThroughout(s, actions) <==> AllRespect(s, actions)
  {
    HeldThroughoutIff(s, actions);
  }

  lemma LogKept(s: State, a: Action)
    requires Enabled(s, a) && LockInv(s)
    ensures forall i :: 0 <= i < |Do(s, a).log| ==> Do(s, a).log[i].locked
  {
    if a.RunStep? && Writes(a.step) {
      assert HasRow(s, a.id);
    }
  }

  lemma {:induction false} LockInvAlways(s: State, actions: seq<Action>)
    requires LockInv(s) && Possible(Do, s, actions) && AllRespect(s, actions)
    ensures LockInv(After(Do, s, actions))
    decreases |actions|
  {
    if actions != [] {
      RowsKept(s, actions[0]);
      LogKept(s, actions[0]);
      LockInvAlways(Do(s, actions[0]), actions[1..]);
    }
  }

  /** While nobody else frees the locks of runs, at most one run per lineage is between taking and
      giving back the lock, the row names it, and every status write and commit of a run happens
      while the row names that run. */
  lemma LineageExclusive(s: State, actions: seq<Action>)
    requires Init(s) && Possible(Do, s, actions) && AllRespect(s, actions)
    ensures var t := After(Do, s, actions);
            && (forall id :: id in t.runs && HoldsLock(t.runs[id].pc) ==> HasRow(t, id))
            && (forall a, b :: Rivals(t, a, b) ==> a == b)
            && (forall w :: w in t.log ==> w.locked)
  {
    LockInvAlways(s, actions);
    var t := After(Do, s, actions);
    forall a, b | Rivals(t, a, b)
      ensures a == b
    {
      RowIsUnique(t, a, b);
    }
  }

  // ----- the premise is needed -----

  /** From the call to the lock. */
  function Entering(id: RunId, lineage: string): seq<Action> {
    [Call(id, lineage), RunStep(id, Check(false)), RunStep(id, TakeSlot), RunStep(id, TakeLock(Healthy))]
  }

  lemma EnteringTakesLock(s: State, id: RunId, lineage: string)
    requires id !in s.runs && lineage !in s.locks && s.tokens < s.cap
    ensures Possible(Do, s, Entering(id, lineage))
    ensures After(Do, s, Entering(id, lineage)) == s.(
      tokens := s.tokens + 1,
      locks := s.locks[lineage := Row(Agent(id), s.now)],
      runs := s.runs[id := Run(Pc.Locked, lineage, 1, 0, false)])
  {
    var steps := Entering(id, lineage);
    var s1 := Do(s, steps[0]);
    var s2 := Do(s1, steps[1]);
    var s3 := Do(s2, steps[2]);
    var s4 := Do(s3, steps[3]);
    assert s4.runs == s.runs[id := Run(Pc.Locked, lineage, 1, 0, false)];
    PossibleOne(Do, s3, steps[3]);
    PossibleCons(Do, s2, steps[2], steps[3..]);
    PossibleCons(Do, s1, steps[1], steps[2..]);
    PossibleCons(Do, s, steps[0], steps[1..]);
  }

  /** From the lock to the driver, with a write and a commit of the active status. */
  function Preparing(id: RunId): seq<Action> {
    [RunStep(id, Record(true)), RunStep(id, Mark(true, true)), RunStep(id, CommitMark(true))]
  }

  /** From the driver to the supervised process. */
  function Launching(id: RunId): seq<Action> {
    [RunStep(id, StartDriver(true)), RunStep(id, Register), RunStep(id, Spawn), RunStep(id, LookUp)]
  }

  /** From the process's exit to the free slot. */
  function Exiting(id: RunId): seq<Action> {
    [RunStep(id, Exit(false)), RunStep(id, Deregister), RunStep(id, GiveSlot)]
  }

  /** From the final status to the release of the lock. */
  function Concluding(id: RunId): seq<Action> {
    [RunStep(id, Publish(true)), RunStep(id, Commit(true)), RunStep(id, FreeLock(false))]
  }

  lemma PossibleThree(s: State, a: Action, b: Action, c: Action)
    requires Enabled(s, a) && Enabled(Do(s, a), b) && Enabled(Do(Do(s, a), b), c)
    ensures Possible(Do, s, [a, b, c]) && After(Do, s, [a, b, c]) == Do(Do(Do(s, a), b), c)
  {
    PossibleOne(Do, Do(Do(s, a), b), c);
    PossibleCons(Do, Do(s, a), b, [c]);
    PossibleCons(Do, s, a, [b] + [c]);
    assert [a] + ([b] + [c]) == [a, b, c];
  }

  /** The run after some steps of its own, the log, which may have grown, aside. */
  predicate StepsTo(s: State, t: State, id: RunId, r: Run) {
    && t.runs == s.runs[id := r]
    && t.cap == s.cap && t.locks == s.locks && t.now == s.now
  }

  lemma PreparingReaches(s: State, id: RunId)
    requires id in s.runs && s.runs[id].pc.Locked?
    ensures Possible(Do, s, Preparing(id))
    ensures var t := After(Do, s, Preparing(id));
            StepsTo(s, t, id, s.runs[id].(pc := Marked)) && t.tokens == s.tokens && t.active == s.active
  {
    var steps := Preparing(id);
    PossibleThree(s, steps[0], steps[1], steps[2]);
  }

  lemma LaunchingReaches(s: State, id: RunId)
    requires id in s.runs && s.runs[id].pc.Marked?
    ensures Possible(Do, s, Launching(id))
    ensures var t := After(Do, s, Launching(id));
            StepsTo(s, t, id, s.runs[id].(pc := Supervised)) && t.tokens == s.tokens && t.active == s.active + {id}
  {
    var steps := Launching(id);
    var t := Do(s, steps[0]);
    PossibleThree(t, steps[1], steps[2], steps[3]);
    PossibleCons(Do, s, steps[0], [steps[1], steps[2], steps[3]]);
    assert [steps[0]] + [steps[1], steps[2], steps[3]] == steps;
  }

  lemma ExitingReaches(s: State, id: RunId)
    requires id in s.runs && s.runs[id].pc.Supervised? && id in s.active && s.tokens > 0
    ensures Possible(Do, s, Exiting(id))
    ensures var t := After(Do, s, Exiting(id));
            StepsTo(s, t, id, s.runs[id].(pc := Publishing, gave := s.runs[id].gave + 1))
  {
    var steps := Exiting(id);
    PossibleThree(s, steps[0], steps[1], steps[2]);
  }

  lemma ConcludingFrees(s: State, id: RunId)
    requires id in s.runs && s.runs[id].pc.Publishing?
    ensures Possible(Do, s, Concluding(id))
    ensures var t := After(Do, s, Concluding(id));
            && t.runs == s.runs[id := s.runs[id].(pc := Ended)]
            && t.locks == s.locks - {s.runs[id].lineage}
            && Write(id, s.runs[id].lineage, HasRow(s, id)) in t.log
  {
    var steps := Concluding(id);
    PossibleThree(s, steps[0], steps[1], steps[2]);
    assert After(Do, s, steps).log[|s.log|] == Write(id, s.runs[id].lineage, HasRow(s, id));
  }

  /** The only lock was taken now; after five minutes without a heartbeat it is gone. */
  lemma WaitingReaps(s: State, lineage: string, holder: Holder)
    requires s.locks == map[lineage := Row(holder, s.now)]
    ensures Possible(Do, s, [Tick(STALE_AFTER), Reap])
    ensures After(Do, s, [Tick(STALE_AFTER), Reap]) == s.(now := s.now + STALE_AFTER, locks := map[])
  {
    var t := Do(s, Tick(STALE_AFTER));
    assert Do(t, Reap).locks == map[];
    PossibleOne(Do, t, Reap);
    PossibleCons(Do, s, Tick(STALE_AFTER), [Reap]);
    assert [Tick(STALE_AFTER)] + [Reap] == [Tick(STALE_AFTER), Reap];
  }

  /** No step of a run beats its lock: run 0 has worked for five minutes when the reaper comes, and
      run 1 takes the lineage beside it. */
  function Overrun(lineage: string): seq<Action> {
    Entering(0, lineage) + Preparing(0) + Launching(0) + [Tick(STALE_AFTER), Reap] + Entering(1, lineage)
  }

  const TWO_SLOTS := State(2, 0, {}, map[], 0, map[], [])

  /** Run 0 holds its lock and its driver is next. */
  lemma OneMarked(lineage: string)
    ensures var actions := Entering(0, lineage) + Preparing(0);
            && Possible(Do, TWO_SLOTS, actions)
            && var t := After(Do, TWO_SLOTS, actions);
               && t.runs == map[0 := Run(Marked, lineage, 1, 0, false)]
               && t.active == {} && t.tokens == 1 && t.cap == 2
               && t.locks == map[lineage := Row(Agent(0), t.now)]
  {
    var s := TWO_SLOTS;
    EnteringTakesLock(s, 0, lineage);
    PreparingReaches(After(Do, s, Entering(0, lineage)), 0);
    AfterSplit(Do, s, Entering(0, lineage), Preparing(0));
  }

  /** Run 0 is at work, and its lock is as old as it was when it was taken. */
  lemma OneAtWork(lineage: string)
    ensures var actions := Entering(0, lineage) + Preparing(0) + Launching(0);
            && Possible(Do, TWO_SLOTS, actions)
            && var t := After(Do, TWO_SLOTS, actions);
               && t.runs == map[0 := Run(Supervised, lineage, 1, 0, false)]
               && t.active == {0} && t.tokens == 1 && t.cap == 2
               && t.locks == map[lineage := Row(Agent(0), t.now)]
  {
    var marked := Entering(0, lineage) + Preparing(0);
    OneMarked(lineage);
    LaunchingReaches(After(Do, TWO_SLOTS, marked), 0);
    AfterSplit(Do, TWO_SLOTS, marked, Launching(0));
  }

  lemma OverrunMakesRivals(lineage: string)
    ensures Possible(Do, TWO_SLOTS, Overrun(lineage))
    ensures var t := After(Do, TWO_SLOTS, Overrun(lineage));
            && Rivals(t, 0, 1) && t.runs[0].pc.Supervised? && t.active == {0} && t.tokens == 2
            && t.runs[0].lineage == lineage && HasRow(t, 1) && !HasRow(t, 0)
  {
    var s := TWO_SLOTS;
    var actions := Entering(0, lineage) + Preparing(0) + Launching(0);
    OneAtWork(lineage);
    var s1 := After(Do, s, actions);
    WaitingReaps(s1, lineage, Agent(0));
    AfterSplit(Do, s, actions, [Tick(STALE_AFTER), Reap]);
    var s2 := After(Do, s1, [Tick(STALE_AFTER), Reap]);
    EnteringTakesLock(s2, 1, lineage);
    AfterSplit(Do, s, actions + [Tick(STALE_AFTER), Reap], Entering(1, lineage));
  }

  /** The end of run 0 beside its rival: it writes without the lock and frees the other's row. */
  lemma EndingFreesRival(s: State)
    requires Rivals(s, 0, 1) && s.runs[0].pc.Supervised? && 0 in s.active && s.tokens > 0 && !HasRow(s, 0)
    ensures Possible(Do, s, Exiting(0) + Concluding(0))
    ensures var t := After(Do, s, Exiting(0) + Concluding(0));
            && 1 in t.runs && HoldsLock(t.runs[1].pc) && !HasRow(t, 1)
            && Write(0, s.runs[0].lineage, false) in t.log
  {
    ExitingReaches(s, 0);
    ConcludingFrees(After(Do, s, Exiting(0)), 0);
    AfterSplit(Do, s, Exiting(0), Concluding(0));
  }

  /** A running agent loses its lock to the reaper, another run takes the lineage beside it, and the
      first one then writes without the lock and frees the second one's row. */
  lemma ReaperBreaksExclusion(lineage: string)
    ensures Init(TWO_SLOTS) && Possible(Do, TWO_SLOTS, Overrun(lineage))
    ensures var t := After(Do, TWO_SLOTS, Overrun(lineage));
            Rivals(t, 0, 1) && t.runs[0].pc.Supervised? && 0 in t.active
    ensures Possible(Do, TWO_SLOTS, Overrun(lineage) + (Exiting(0) + Concluding(0)))
    ensures var t := After(Do, TWO_SLOTS, Overrun(lineage) + (Exiting(0) + Concluding(0)));
            && 1 in t.runs && HoldsLock(t.runs[1].pc) && !HasRow(t, 1)
            && Write(0, lineage, false) in t.log
  {
    OverrunMakesRivals(lineage);
    EndingFreesRival(After(Do, TWO_SLOTS, Overrun(lineage)));
    AfterSplit(Do, TWO_SLOTS, Overrun(lineage), Exiting(0) + Concluding(0));
  }
}
