/** Runner of internal/devops/runner.go: Start, the completion goroutine and Cancel interleaved, the
    registry they share, and the step loop of a run. */
module PipelineRunner {
  import opened Executions
  import opened Results
  import opened Text

  type RunId = nat
  type CallId = nat

  // ----- the registry -----

  /** The two maps are each other's inverse. */
  predicate Inverse(bySlug: map<string, RunId>, byRunID: map<RunId, string>) {
    && (forall slug :: slug in bySlug ==> bySlug[slug] in byRunID && byRunID[bySlug[slug]] == slug)
    && (forall id :: id in byRunID ==> byRunID[id] in bySlug && bySlug[byRunID[id]] == id)
  }

  /** The sections of Runner under its mutex. */
  class Runner {
    var bySlug: map<string, RunId>
    var byRunID: map<RunId, string>

    constructor ()
      ensures bySlug == map[] && byRunID == map[]
    {
      bySlug, byRunID := map[], map[];
    }

    method Start(id: RunId, slug: string) returns (ok: bool)
      requires Inverse(bySlug, byRunID) && id !in byRunID
      modifies this
      ensures Inverse(bySlug, byRunID)
      ensures ok <==> slug !in old(bySlug)
      ensures bySlug == if ok then old(bySlug)[slug := id] else old(bySlug)
      ensures byRunID == if ok then old(byRunID)[id := slug] else old(byRunID)
    {
      if slug in bySlug {
        return false;
      }
      bySlug := bySlug[slug := id];
      byRunID := byRunID[id := slug];
      ok := true;
    }

    /** What a finished run removes. */
    method Remove(id: RunId, slug: string)
      requires Inverse(bySlug, byRunID) && slug in bySlug && bySlug[slug] == id
      modifies this
      ensures Inverse(bySlug, byRunID)
      ensures bySlug == old(bySlug) - {slug} && byRunID == old(byRunID) - {id}
    {
      bySlug := bySlug - {slug};
      byRunID := byRunID - {id};
    }

    /** The run Cancel finds for an id is the run of that id. */
    method LookUp(id: RunId) returns (found: Option<RunId>)
      requires Inverse(bySlug, byRunID)
      ensures found == if id in byRunID then Some(id) else None
    {
      if id !in byRunID {
        return None;
      }
      found := Some(bySlug[byRunID[id]]);
    }

    method IsRunning(slug: string) returns (r: bool)
      requires Inverse(bySlug, byRunID)
      ensures r <==> exists id :: id in byRunID && byRunID[id] == slug
    {
      r := slug in bySlug;
    }

    method IsRunningID(id: RunId) returns (r: bool)
      requires Inverse(bySlug, byRunID)
      ensures r <==> exists slug :: slug in bySlug && bySlug[slug] == id
    {
      r := id in byRunID;
    }
  }

  // ----- interleavings -----

  /** Going: the steps run; Finished: the registry is cleaned next; Removed: done is closed next. */
  datatype RunPc = Going | Finished | Removed | Closed

  datatype Run = Run(pc: RunPc, slug: string, cancelled: bool)

  /** Asked: the registry is looked up next; Found: the signal is next; Signalled: waiting for done;
      Lost: the run found was nil. */
  datatype CancelPc = Asked | Found(run: RunId) | Signalled(run: RunId) | Returned(ok: bool) | Lost

  datatype Cancel = Cancel(pc: CancelPc, id: RunId)

  datatype State = State(
    bySlug: map<string, RunId>,
    byRunID: map<RunId, string>,
    runs: map<RunId, Run>,
    cancels: map<CallId, Cancel>)

  datatype Action =
    | Start(id: RunId, slug: string)
    | Finish(id: RunId)
    | Remove(id: RunId)
    | Close(id: RunId)
    | Ask(call: CallId, id: RunId)
    | LookUp(call: CallId)
    | Signal(call: CallId)
    | Return(call: CallId)

  predicate Init(s: State) {
    s == State(map[], map[], map[], map[])
  }

  predicate Enabled(s: State, a: Action) {
    match a
    case Start(id, _) => id !in s.runs
    case Finish(id) => id in s.runs && s.runs[id].pc.Going?
    case Remove(id) => id in s.runs && s.runs[id].pc.Finished?
    case Close(id) => id in s.runs && s.runs[id].pc.Removed?
    case Ask(call, _) => call !in s.cancels
    case LookUp(call) => call in s.cancels && s.cancels[call].pc.Asked?
    case Signal(call) => call in s.cancels && s.cancels[call].pc.Found? && s.cancels[call].pc.run in s.runs
    case Return(call) =>
      && call in s.cancels && s.cancels[call].pc.Signalled?
      && s.cancels[call].pc.run in s.runs && s.runs[s.cancels[call].pc.run].pc.Closed?
  }

  function SetPc(s: State, id: RunId, pc: RunPc): map<RunId, Run>
    requires id in s.runs
  {
    s.runs[id := s.runs[id].(pc := pc)]
  }

  function Do(s: State, a: Action): State
    requires Enabled(s, a)
  {
    match a
    case Start(id, slug) =>
      if slug in s.bySlug then s
      else s.(bySlug := s.bySlug[slug := id], byRunID := s.byRunID[id := slug],
              runs := s.runs[id := Run(Going, slug, false)])
    case Finish(id) => s.(runs := SetPc(s, id, Finished))
    case Remove(id) =>
      s.(bySlug := s.bySlug - {s.runs[id].slug}, byRunID := s.byRunID - {id}, runs := SetPc(s, id, Removed))
    case Close(id) => s.(runs := SetPc(s, id, Closed))
    case Ask(call, id) => s.(cancels := s.cancels[call := Cancel(Asked, id)])
    case LookUp(call) =>
      var c := s.cancels[call];
      s.(cancels := s.cancels[call := c.(pc :=
        if c.id !in s.byRunID then Returned(false)
        else if s.byRunID[c.id] in s.bySlug then Found(s.bySlug[s.byRunID[c.id]])
        else Lost)])
    case Signal(call) =>
      var c := s.cancels[call];
      s.(runs := s.runs[c.pc.run := s.runs[c.pc.run].(cancelled := true)],
         cancels := s.cancels[call := c.(pc := Signalled(c.pc.run))])
    case Return(call) => s.(cancels := s.cancels[call := s.cancels[call].(pc := Returned(true))])
  }

  // ----- invariants -----

  predicate Live(pc: RunPc) {
    pc.Going? || pc.Finished?
  }

  /** Live runs are registered under their slug, and nothing else is. */
  ghost predicate Registry(s: State) {
    && Inverse(s.bySlug, s.byRunID)
    && (forall id :: id in s.byRunID ==> id in s.runs && Live(s.runs[id].pc) && s.byRunID[id] == s.runs[id].slug)
    && (forall id :: id in s.runs && Live(s.runs[id].pc) ==> id in s.byRunID)
  }

  /** A cancellation acts on the run it names, which exists, and never finds nil. */
  predicate CancelOk(s: State, c: Cancel) {
    match c.pc
    case Asked => true
    case Found(run) => run == c.id && run in s.runs
    case Signalled(run) => run == c.id && run in s.runs && s.runs[run].cancelled
    case Returned(ok) => ok ==> c.id in s.runs && s.runs[c.id].pc.Closed?
    case Lost => false
  }

  predicate Wants(c: Cancel, id: RunId) {
    c.id == id && !c.pc.Asked? && !c.pc.Found?
  }

  /** Somebody asked to cancel this run and got past the lookup. */
  ghost predicate Wanted(s: State, id: RunId) {
    exists call :: call in s.cancels && Wants(s.cancels[call], id)
  }

  ghost predicate Cancels(s: State) {
    && (forall call :: call in s.cancels ==> CancelOk(s, s.cancels[call]))
    && (forall id :: id in s.runs && s.runs[id].cancelled ==> Wanted(s, id))
  }

  lemma StartKeepsRegistry(s: State, a: Action)
    requires Enabled(s, a) && a.Start? && Registry(s)
    ensures Registry(Do(s, a))
  {
  }

  lemma RemoveKeepsRegistry(s: State, a: Action)
    requires Enabled(s, a) && a.Remove? && Registry(s)
    ensures Registry(Do(s, a))
  {
  }

  lemma RegistryKept(s: State, a: Action)
    requires Enabled(s, a) && Registry(s)
    ensures Registry(Do(s, a))
  {
    if a.Start? {
      StartKeepsRegistry(s, a);
    } else if a.Remove? {
      RemoveKeepsRegistry(s, a);
    }
  }

  /** The entries a finishing run deletes are its own. */
  lemma RemovesItself(s: State, id: RunId)
    requires Registry(s) && Enabled(s, Remove(id))
    ensures var slug := s.runs[id].slug;
            && slug in s.bySlug && s.bySlug[slug] == id && id in s.byRunID
            && forall other :: other in s.byRunID && other != id ==>
                 other in Do(s, Remove(id)).byRunID
                 && s.runs[other].slug in Do(s, Remove(id)).bySlug
                 && Do(s, Remove(id)).bySlug[s.runs[other].slug] == other
  {
  }

  lemma CancelStays(s: State, a: Action, call: CallId)
    requires Enabled(s, a) && Registry(s) && Cancels(s) && call in Do(s, a).cancels
    ensures CancelOk(Do(s, a), Do(s, a).cancels[call])
  {
    if call in s.cancels {
      assert CancelOk(s, s.cancels[call]);
    }
  }

  lemma WantedStays(s: State, a: Action, id: RunId)
    requires Enabled(s, a) && Cancels(s) && id in Do(s, a).runs && Do(s, a).runs[id].cancelled
    ensures Wanted(Do(s, a), id)
  {
    var t := Do(s, a);
    if a.Signal? && s.cancels[a.call].pc.run == id {
      assert CancelOk(s, s.cancels[a.call]);
      assert t.cancels[a.call].id == id;
    } else {
      assert Wanted(s, id);
      var call :| call in s.cancels && Wants(s.cancels[call], id);
      assert t.cancels[call].id == id;
    }
  }

  lemma CancelsKept(s: State, a: Action)
    requires Enabled(s, a) && Registry(s) && Cancels(s)
    ensures Cancels(Do(s, a))
  {
    forall call | call in Do(s, a).cancels
      ensures CancelOk(Do(s, a), Do(s, a).cancels[call])
    {
      CancelStays(s, a, call);
    }
    forall id | id in Do(s, a).runs && Do(s, a).runs[id].cancelled
      ensures Wanted(Do(s, a), id)
    {
      WantedStays(s, a, id);
    }
  }

  ghost predicate Inv(s: State) {
    Registry(s) && Cancels(s)
  }

  lemma InvAlways(s: State, actions: seq<Action>)
    requires Inv(s) && Possible(Do, s, actions)
    ensures Inv(After(Do, s, actions))
  {
    forall u, a | Inv(u) && Enabled(u, a)
      ensures Inv(Do(u, a))
    {
      RegistryKept(u, a);
      CancelsKept(u, a);
    }
    Always(Do, Inv, s, actions);
  }

  /** Both are live, for one slug. */
  predicate Rivals(s: State, a: RunId, b: RunId) {
    && a in s.runs && b in s.runs
    && Live(s.runs[a].pc) && Live(s.runs[b].pc) && s.runs[a].slug == s.runs[b].slug
  }

  /** In every interleaving the maps are inverse, at most one run per slug is live, and it is the one
      registered. */
  lemma OneLiveRunPerSlug(s: State, actions: seq<Action>)
    requires Init(s) && Possible(Do, s, actions)
    ensures var t := After(Do, s, actions);
            && Inverse(t.bySlug, t.byRunID)
            && (forall a, b :: Rivals(t, a, b) ==> a == b)
            && (forall id :: id in t.runs ==> (Live(t.runs[id].pc) <==> id in t.byRunID))
  {
    InvAlways(s, actions);
  }

  /** Cancel never finds nil and never signals a run other than the one named: a run is cancelled
      only if a caller named it. */
  lemma CancelHitsItsRun(s: State, actions: seq<Action>)
    requires Init(s) && Possible(Do, s, actions)
    ensures var t := After(Do, s, actions);
            && (forall call :: call in t.cancels ==> !t.cancels[call].pc.Lost?)
            && (forall call :: call in t.cancels && (t.cancels[call].pc.Found? || t.cancels[call].pc.Signalled?) ==>
                  t.cancels[call].pc.run == t.cancels[call].id)
            && (forall id :: id in t.runs && t.runs[id].cancelled ==> Wanted(t, id))
  {
    InvAlways(s, actions);
    var t := After(Do, s, actions);
    forall call | call in t.cancels
      ensures CancelOk(t, t.cancels[call])
    {
    }
  }

  /** Once Cancel has returned nil, its run is not registered, then or ever after. */
  lemma CancelledIsGone(s: State, actions: seq<Action>, call: CallId)
    requires Init(s) && Possible(Do, s, actions)
    requires call in After(Do, s, actions).cancels && After(Do, s, actions).cancels[call].pc == Returned(true)
    ensures var t := After(Do, s, actions);
            t.cancels[call].id !in t.byRunID && forall slug :: slug in t.bySlug ==> t.bySlug[slug] != t.cancels[call].id
  {
    InvAlways(s, actions);
    var t := After(Do, s, actions);
    assert CancelOk(t, t.cancels[call]);
  }

  // ----- the steps of a run -----

  datatype StepStatus = Passed | Failed | Cancelled

  datatype Event =
    | RunStarted
    | StepStarted(index: nat)
    | StepCompleted(index: nat, status: StepStatus)
    | RunCompleted(status: StepStatus)

  predicate Stops(status: StepStatus) {
    !status.Passed?
  }

  /** The steps up to the first that does not pass. */
  function Executed(results: seq<StepStatus>): (n: nat)
    ensures n <= |results|
  {
    var i := FirstIndex(results, Stops);
    if i < |results| then i + 1 else i
  }

  function Overall(results: seq<StepStatus>): StepStatus {
    var i := FirstIndex(results, Stops);
    if i < |results| then results[i] else Passed
  }

  function StepEvents(results: seq<StepStatus>, n: nat): seq<Event>
    requires n <= |results|
  {
    if n == 0 then [] else StepEvents(results, n - 1) + [StepStarted(n - 1), StepCompleted(n - 1, results[n - 1])]
  }

  /** results are what the steps come to if they are run. Later steps stay pending. */
  method ExecuteRun(results: seq<StepStatus>) returns (events: seq<Event>)
    ensures events == RunEvents(results)
  {
    events := [RunStarted];
    var overallStatus := Passed;
    var skip := false;
    ghost var n := 0;
    for i := 0 to |results|
      invariant n <= i && (!skip ==> n == i)
      invariant events == [RunStarted] + StepEvents(results, n)
      invariant !skip ==> overallStatus == Passed && forall k :: 0 <= k < i ==> !Stops(results[k])
      invariant skip ==> 0 < n && FirstIndex(results, Stops) == n - 1 && overallStatus == results[n - 1]
    {
      if skip {
        continue;
      }
      events := events + [StepStarted(i)];
      var stepStatus := results[i];
      events := events + [StepCompleted(i, stepStatus)];
      if stepStatus != Passed {
        FirstIndexIs(results, Stops, i);
        overallStatus := stepStatus;
        skip := true;
      }
      n := i + 1;
    }
    if !skip {
      FirstIndexIs(results, Stops, |results|);
    }
    events := events + [RunCompleted(overallStatus)];
  }

  /** A run passes exactly when all its steps do, and then all of them were run. */
  lemma PassedIff(results: seq<StepStatus>)
    ensures Overall(results).Passed? <==> forall i :: 0 <= i < |results| ==> results[i].Passed?
    ensures Overall(results).Passed? ==> Executed(results) == |results|
  {
    var i := FirstIndex(results, Stops);
    if i == |results| {
      assert forall k :: 0 <= k < |results| ==> !Stops(results[k]);
    }
  }

  /** Every step before this one passes. */
  predicate Reached(results: seq<StepStatus>, k: int) {
    0 <= k < |results| && forall j :: 0 <= j < k ==> results[j] == Passed
  }

  function RunEvents(results: seq<StepStatus>): seq<Event> {
    [RunStarted] + StepEvents(results, Executed(results)) + [RunCompleted(Overall(results))]
  }

  lemma {:induction false} StepEventAt(results: seq<StepStatus>, n: nat, k: nat)
    requires k < n <= |results|
    ensures |StepEvents(results, n)| == 2 * n
    ensures StepEvents(results, n)[2 * k] == StepStarted(k)
    ensures StepEvents(results, n)[2 * k + 1] == StepCompleted(k, results[k])
  {
    if k < n - 1 {
      StepEventAt(results, n - 1, k);
    } else if n > 1 {
      StepEventAt(results, n - 1, 0);
    }
  }

  lemma ReachedIff(results: seq<StepStatus>, k: nat)
    ensures Reached(results, k) <==> k < Executed(results)
  {
    var i := FirstIndex(results, Stops);
    assert i < |results| ==> Stops(results[i]);
    assert forall j :: 0 <= j < i ==> !Stops(results[j]);
  }

  /** A step is started and completed, in its place among the events, exactly when every step before it
      passes: there are two events for each step reached, and nothing but the frame around them. */
  lemma StepsReported(results: seq<StepStatus>, k: nat)
    ensures var events := RunEvents(results);
            && (Reached(results, k) <==> 2 * k + 2 < |events| - 1)
            && (Reached(results, k) ==> events[2 * k + 1] == StepStarted(k)
                                        && events[2 * k + 2] == StepCompleted(k, results[k]))
            && |events| >= 2 && events[0] == RunStarted && |events| % 2 == 0
  {
    var n := Executed(results);
    ReachedIff(results, k);
    StepEventsLength(results, n);
    if k < n {
      StepEventAt(results, n, k);
    }
  }

  lemma StepEventsLength(results: seq<StepStatus>, n: nat)
    requires n <= |results|
    ensures |StepEvents(results, n)| == 2 * n
  {
    if n > 0 {
      StepEventAt(results, n, 0);
    }
  }

  /** The run ends with the status of the first step that does not pass, or passes. */
  lemma LastEventIs(results: seq<StepStatus>, k: nat)
    ensures var events := RunEvents(results);
            && (Reached(results, k) && results[k] != Passed ==> events[|events| - 1] == RunCompleted(results[k]))
            && ((forall j :: 0 <= j < |results| ==> results[j] == Passed) ==>
                  events[|events| - 1] == RunCompleted(Passed))
  {
    if Reached(results, k) && results[k] != Passed {
      FirstIndexIs(results, Stops, k);
    }
    if forall j :: 0 <= j < |results| ==> results[j] == Passed {
      FirstIndexIs(results, Stops, |results|);
    }
  }
}
