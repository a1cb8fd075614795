/** Concurrent calls of applyTransition (internal/http/transition.go) as interleaved steps, from the
    lookup of the path's mutex to its release. */
module Transition {
  import opened Executions
  import opened Results
  import opened Sorting

  type CallId = nat
  type MutexId = nat

  /** A file's status field, if it has one, and how often the file was written. */
  datatype Doc = Doc(status: Option<string>, version: nat)

  /** A file without a status counts as a draft. */
  function StatusOf(d: Doc): string {
    if d.status.None? || d.status.value == "" then "draft" else d.status.value
  }

  datatype Pc =
    | Called                          // the lock map is looked up next
    | Missed                          // not found; LoadOrStore is next
    | Waiting(mu: MutexId)
    | Holding(mu: MutexId)            // the file is read next
    | Seen(mu: MutexId, doc: Doc)     // the guard and the patch are next
    | Cleared(mu: MutexId, doc: Doc)  // the write is next
    | Leaving(mu: MutexId, ok: bool)  // the unlock is next
    | Ended(ok: bool)

  /** A call with the status its caller saw and the one it wants. */
  datatype Call = Call(pc: Pc, path: string, from: string, to: string)

  /** A write that went through, and the version of the file it replaced. */
  datatype Win = Win(id: CallId, path: string, from: string, to: string, version: nat)

  datatype State = State(
    locks: map<string, MutexId>,
    made: nat,
    owner: map<MutexId, CallId>,
    files: map<string, Doc>,
    calls: map<CallId, Call>,
    log: seq<Win>)

  datatype Step =
    | Load
    | LoadOrStore
    | Lock
    | Read(fails: bool)
    | Check
    | Write(fails: bool)
    | Unlock

  datatype Action =
    | Begin(id: CallId, path: string, from: string, to: string)
    | CallStep(id: CallId, step: Step)

  ghost predicate Init(s: State) {
    && s.locks == map[] && s.made == 0 && s.owner == map[] && s.calls == map[] && s.log == []
    && forall p :: p in s.files ==> s.files[p].version == 0
  }

  // ----- steps -----

  predicate Fits(s: State, step: Step, pc: Pc) {
    match step
    case Load => pc.Called?
    case LoadOrStore => pc.Missed?
    case Lock => pc.Waiting? && pc.mu !in s.owner
    case Read(_) => pc.Holding?
    case Check => pc.Seen?
    case Write(_) => pc.Cleared?
    case Unlock => pc.Leaving?
  }

  /** A transition goes to some status. */
  predicate Enabled(s: State, a: Action) {
    match a
    case Begin(id, _, _, to) => id !in s.calls && to != ""
    case CallStep(id, step) => id in s.calls && Fits(s, step, s.calls[id].pc)
  }

  function NextPc(s: State, c: Call, step: Step): Pc
    requires Fits(s, step, c.pc)
  {
    match step
    case Load => if c.path in s.locks then Waiting(s.locks[c.path]) else Missed
    case LoadOrStore => Waiting(if c.path in s.locks then s.locks[c.path] else s.made)
    case Lock => Holding(c.pc.mu)
    case Read(fails) =>
      if fails || c.path !in s.files then Leaving(c.pc.mu, false) else Seen(c.pc.mu, s.files[c.path])
    case Check =>
      if StatusOf(c.pc.doc) != c.from || c.pc.doc.status.None? then Leaving(c.pc.mu, false)
      else Cleared(c.pc.mu, c.pc.doc)
    case Write(fails) => Leaving(c.pc.mu, !fails)
    case Unlock => Ended(c.pc.ok)
  }

  function Do(s: State, a: Action): State
    requires Enabled(s, a)
  {
    match a
    case Begin(id, path, from, to) => s.(calls := s.calls[id := Call(Called, path, from, to)])
    case CallStep(id, step) =>
      var c := s.calls[id];
      var t := s.(calls := s.calls[id := c.(pc := NextPc(s, c, step))]);
      match step
      case LoadOrStore => if c.path in s.locks then t else t.(locks := s.locks[c.path := s.made], made := s.made + 1)
      case Lock => t.(owner := s.owner[c.pc.mu := id])
      case Write(fails) =>
        if fails then t
        else t.(files := s.files[c.path := Doc(Some(c.to), c.pc.doc.version + 1)],
                log := s.log + [Win(id, c.path, c.from, c.to, c.pc.doc.version)])
      case Unlock => t.(owner := s.owner - {c.pc.mu})
      case _ => t
  }

  // ----- the mutex -----

  predicate HasMutex(pc: Pc) {
    pc.Waiting? || pc.Holding? || pc.Seen? || pc.Cleared? || pc.Leaving?
  }

  /** Between lock and unlock. */
  predicate Inside(pc: Pc) {
    pc.Holding? || pc.Seen? || pc.Cleared? || pc.Leaving?
  }

  /** What a call knows: its mutex is its path's, it owns the mutex inside, and what it read is
      still what the file holds, and passed the guard. */
  predicate Knows(s: State, id: CallId)
    requires id in s.calls
  {
    var c := s.calls[id];
    && c.to != ""
    && (HasMutex(c.pc) ==> c.path in s.locks && s.locks[c.path] == c.pc.mu)
    && (Inside(c.pc) ==> c.pc.mu in s.owner && s.owner[c.pc.mu] == id)
    && (c.pc.Seen? || c.pc.Cleared? ==> c.path in s.files && s.files[c.path] == c.pc.doc)
    && (c.pc.Cleared? ==> StatusOf(c.pc.doc) == c.from)
  }

  ghost predicate MutexInv(s: State) {
    forall id :: id in s.calls ==> Knows(s, id)
  }

  /** Inside, two calls on one path are one call. */
  lemma OneInside(s: State, a: CallId, b: CallId)
    requires MutexInv(s) && a in s.calls && b in s.calls
    requires Inside(s.calls[a].pc) && Inside(s.calls[b].pc) && s.calls[a].path == s.calls[b].path
    ensures a == b
  {
    assert Knows(s, a) && Knows(s, b);
  }

  /** A mutex that is taken is taken by a call between lock and unlock. */
  ghost predicate OwnersInside(s: State) {
    forall m :: OwnerInside(s, m)
  }

  predicate OwnerInside(s: State, m: MutexId) {
    m in s.owner ==> s.owner[m] in s.calls && Inside(s.calls[s.owner[m]].pc) && s.calls[s.owner[m]].pc.mu == m
  }

  lemma OwnerKept(s: State, a: Action, m: MutexId)
    requires Enabled(s, a) && (a.CallStep? ==> Knows(s, a.id)) && OwnerInside(s, m)
    ensures OwnerInside(Do(s, a), m)
  {
  }

  lemma OwnersKept(s: State, a: Action)
    requires Enabled(s, a) && MutexInv(s) && OwnersInside(s)
    ensures OwnersInside(Do(s, a))
  {
    forall m
      ensures OwnerInside(Do(s, a), m)
    {
      OwnerKept(s, a, m);
    }
  }

  lemma OwnKnows(s: State, id: CallId, step: Step)
    requires Enabled(s, CallStep(id, step)) && Knows(s, id)
    ensures Knows(Do(s, CallStep(id, step)), id)
  {
  }

  lemma OtherKnows(s: State, id: CallId, step: Step, other: CallId)
    requires Enabled(s, CallStep(id, step)) && MutexInv(s) && other in s.calls && other != id
    ensures Knows(Do(s, CallStep(id, step)), other)
  {
    assert Knows(s, other) && Knows(s, id);
    if Inside(s.calls[id].pc) && Inside(s.calls[other].pc) && s.calls[id].path == s.calls[other].path {
      OneInside(s, id, other);
      assert false;
    }
  }

  lemma MutexKept(s: State, a: Action)
    requires Enabled(s, a) && MutexInv(s)
    ensures MutexInv(Do(s, a))
  {
    var t := Do(s, a);
    forall id | id in t.calls
      ensures Knows(t, id)
    {
      if a.CallStep? {
        if id == a.id {
          OwnKnows(s, id, a.step);
        } else {
          OtherKnows(s, a.id, a.step, id);
        }
      } else if id != a.id {
        assert Knows(s, id);
      }
    }
  }

  // ----- the chain -----

  function OnPath(path: string): Win -> bool {
    (w: Win) => w.path == path
  }

  function Wins(log: seq<Win>, path: string): seq<Win> {
    Filter(log, OnPath(path))
  }

  /** The status the first k writes left. */
  function StatusAfter(wins: seq<Win>, first: string, k: nat): string
    requires k <= |wins|
  {
    if k == 0 then first else wins[k - 1].to
  }

  /** Each write replaced the version the one before it made, and the status it left. */
  ghost predicate Chain(wins: seq<Win>, first: string, last: Doc) {
    && (forall k :: 0 <= k < |wins| ==> wins[k].version == k && wins[k].from == StatusAfter(wins, first, k))
    && last.version == |wins|
    && StatusOf(last) == StatusAfter(wins, first, |wins|)
  }

  lemma ChainGrows(wins: seq<Win>, first: string, last: Doc, w: Win)
    requires Chain(wins, first, last) && w.version == last.version && w.from == StatusOf(last) && w.to != ""
    ensures Chain(wins + [w], first, Doc(Some(w.to), last.version + 1))
  {
    var longer := wins + [w];
    forall k | 0 <= k < |longer|
      ensures longer[k].version == k && longer[k].from == StatusAfter(longer, first, k)
    {
      assert StatusAfter(longer, first, k) == StatusAfter(wins, first, k);
      if k < |wins| {
        assert wins[k].from == StatusAfter(wins, first, k);
      }
    }
  }

  /** first holds the files as they were when the execution started. */
  ghost predicate Chains(first: map<string, Doc>, files: map<string, Doc>, log: seq<Win>) {
    && files.Keys == first.Keys
    && forall p :: p in files ==> Chain(Wins(log, p), StatusOf(first[p]), files[p])
  }

  lemma WinsStep(log: seq<Win>, w: Win, path: string)
    ensures Wins(log + [w], path) == if w.path == path then Wins(log, path) + [w] else Wins(log, path)
  {
    assert (log + [w])[..|log|] == log;
  }

  /** A win that replaces what its file holds extends that file's chain and no other. */
  lemma WinExtends(first: map<string, Doc>, files: map<string, Doc>, log: seq<Win>, w: Win, p: string)
    requires files.Keys == first.Keys && p in files && w.path in files && w.to != ""
    requires w.version == files[w.path].version && w.from == StatusOf(files[w.path])
    requires Chain(Wins(log, p), StatusOf(first[p]), files[p])
    ensures Chain(Wins(log + [w], p), StatusOf(first[p]), files[w.path := Doc(Some(w.to), w.version + 1)][p])
  {
    WinsStep(log, w, p);
    if p == w.path {
      ChainGrows(Wins(log, p), StatusOf(first[p]), files[p], w);
    }
  }

  predicate IsWin(a: Action) {
    a.CallStep? && a.step == Write(false)
  }

  /** What a write does to files and log. */
  lemma WinWrites(s: State, a: Action) returns (w: Win)
    requires Enabled(s, a) && IsWin(a) && Knows(s, a.id)
    ensures Do(s, a).log == s.log + [w] && Do(s, a).files == s.files[w.path := Doc(Some(w.to), w.version + 1)]
    ensures w.path in s.files && w.to != ""
    ensures w.version == s.files[w.path].version && w.from == StatusOf(s.files[w.path])
  {
    var c := s.calls[a.id];
    w := Win(a.id, c.path, c.from, c.to, c.pc.doc.version);
  }

  lemma OnlyWinsWrite(s: State, a: Action)
    requires Enabled(s, a) && !IsWin(a)
    ensures Do(s, a).log == s.log && Do(s, a).files == s.files
  {
  }

  lemma ChainsExtend(first: map<string, Doc>, files: map<string, Doc>, log: seq<Win>, w: Win,
    after: map<string, Doc>, longer: seq<Win>)
    requires Chains(first, files, log)
    requires w.path in files && w.to != "" && w.version == files[w.path].version && w.from == StatusOf(files[w.path])
    requires longer == log + [w] && after == files[w.path := Doc(Some(w.to), w.version + 1)]
    ensures Chains(first, after, longer)
  {
    forall p | p in after
      ensures Chain(Wins(longer, p), StatusOf(first[p]), after[p])
    {
      WinExtends(first, files, log, w, p);
    }
  }

  lemma ChainKept(first: map<string, Doc>, s: State, a: Action)
    requires Enabled(s, a) && MutexInv(s) && Chains(first, s.files, s.log)
    ensures Chains(first, Do(s, a).files, Do(s, a).log)
  {
    if IsWin(a) {
      assert Knows(s, a.id);
      var w := WinWrites(s, a);
      ChainsExtend(first, s.files, s.log, w, Do(s, a).files, Do(s, a).log);
    } else {
      OnlyWinsWrite(s, a);
    }
  }

  /** What holds in every state of an execution that started with these files. */
  ghost predicate Inv(first: map<string, Doc>, s: State) {
    MutexInv(s) && OwnersInside(s) && Chains(first, s.files, s.log)
  }

  lemma InvAlways(s: State, actions: seq<Action>)
    requires Inv(s.files, s) && Possible(Do, s, actions)
    ensures Inv(s.files, After(Do, s, actions))
  {
    var inv := (u: State) => Inv(s.files, u);
    forall u, a | inv(u) && Enabled(u, a)
      ensures inv(Do(u, a))
    {
      MutexKept(u, a);
      OwnersKept(u, a);
      ChainKept(s.files, u, a);
    }
    Always(Do, inv, s, actions);
  }

  /** In every interleaving, all callers on a path that have a mutex have the same one, and only one
      of them is between lock and unlock. */
  lemma OneMutexPerPath(s: State, actions: seq<Action>, a: CallId, b: CallId)
    requires Init(s) && Possible(Do, s, actions)
    requires var t := After(Do, s, actions); a in t.calls && b in t.calls && t.calls[a].path == t.calls[b].path
    ensures var t := After(Do, s, actions);
            && (HasMutex(t.calls[a].pc) && HasMutex(t.calls[b].pc) ==> t.calls[a].pc.mu == t.calls[b].pc.mu)
            && (Inside(t.calls[a].pc) && Inside(t.calls[b].pc) ==> a == b)
  {
    InvAlways(s, actions);
    var t := After(Do, s, actions);
    assert Knows(t, a) && Knows(t, b);
    if Inside(t.calls[a].pc) && Inside(t.calls[b].pc) {
      OneInside(t, a, b);
    }
  }

  /** In every interleaving the successful calls on a path form a chain from its first status to its
      present one, in the order of their writes, and no two of them replaced the same version. */
  lemma SuccessesChain(s: State, actions: seq<Action>, path: string)
    requires Init(s) && Possible(Do, s, actions) && path in s.files
    ensures var t := After(Do, s, actions);
            path in t.files && Chain(Wins(t.log, path), StatusOf(s.files[path]), t.files[path])
    ensures var wins := Wins(After(Do, s, actions).log, path);
            forall i, k :: 0 <= i < |wins| && 0 <= k < |wins| && wins[i].version == wins[k].version ==> i == k
  {
    InvAlways(s, actions);
  }

  /** The step of a call that does not wait for another. */
  function SomeStep(pc: Pc): Step {
    match pc
    case Called => Load
    case Missed => LoadOrStore
    case Waiting(_) => Lock
    case Holding(_) => Read(false)
    case Seen(_, _) => Check
    case Cleared(_, _) => Write(false)
    case _ => Unlock
  }

  predicate CanStep(s: State, id: CallId) {
    id in s.calls && Enabled(s, CallStep(id, SomeStep(s.calls[id].pc)))
  }

  lemma GoesOnOrWaits(s: State, id: CallId)
    requires OwnersInside(s) && id in s.calls && !s.calls[id].pc.Ended?
    ensures CanStep(s, id)
            || (s.calls[id].pc.Waiting? && s.calls[id].pc.mu in s.owner && CanStep(s, s.owner[s.calls[id].pc.mu]))
  {
    assert s.calls[id].pc.Waiting? ==> OwnerInside(s, s.calls[id].pc.mu);
  }

  /** There is no deadlock: a call that has not ended can go on, or waits for one that can. */
  lemma NoDeadlock(s: State, actions: seq<Action>, id: CallId)
    requires Init(s) && Possible(Do, s, actions)
    requires id in After(Do, s, actions).calls && !After(Do, s, actions).calls[id].pc.Ended?
    ensures var t := After(Do, s, actions);
            CanStep(t, id) || exists other :: other != id && CanStep(t, other) && Inside(t.calls[other].pc)
  {
    InvAlways(s, actions);
    var t := After(Do, s, actions);
    GoesOnOrWaits(t, id);
    if !CanStep(t, id) {
      var other := t.owner[t.calls[id].pc.mu];
      assert OwnerInside(t, t.calls[id].pc.mu);
      assert Inside(t.calls[other].pc);
    }
  }

  // ----- one call at a time -----

  /** Whether a file in this state takes a transition from the given status. */
  predicate Takes(files: map<string, Doc>, path: string, from: string) {
    path in files && files[path].status.Some? && StatusOf(files[path]) == from
  }

  /** The files after a transition that went through or did not. */
  function Applied(files: map<string, Doc>, path: string, to: string, ok: bool): map<string, Doc>
    requires ok ==> path in files
  {
    if ok then files[path := Doc(Some(to), files[path].version + 1)] else files
  }

  class Server {
    var locks: map<string, MutexId>
    var made: nat
    var files: map<string, Doc>

    ghost predicate Valid()
      reads this
    {
      forall p :: p in locks ==> locks[p] < made
    }

    constructor (files: map<string, Doc>)
      ensures Valid() && locks == map[] && this.files == files
    {
      locks, made := map[], 0;
      this.files := files;
    }

    /** The path's mutex, made on first use. */
    method TransitionLockFor(path: string) returns (mu: MutexId)
      requires Valid()
      modifies this`locks, this`made
      ensures Valid() && path in locks && locks[path] == mu
      ensures path in old(locks) ==> locks == old(locks)
      ensures path !in old(locks) ==>
        locks == old(locks)[path := mu] && forall p :: p in old(locks) ==> old(locks)[p] != mu
    {
      if path in locks {
        return locks[path];
      }
      mu := made;
      made := made + 1;
      locks := locks[path := mu];
    }

    /** Read, guard, patch and write, with the mutex held. */
    method ApplyTransition(path: string, from: string, to: string, readFails: bool, writeFails: bool) returns (ok: bool)
      modifies this`files
      ensures ok <==> !readFails && !writeFails && Takes(old(files), path, from)
      ensures files == Applied(old(files), path, to, ok)
    {
      if readFails || path !in files {
        return false;
      }
      var current := files[path];
      if StatusOf(current) != from {
        return false;
      }
      if current.status.None? {
        return false;
      }
      if writeFails {
        return false;
      }
      files := files[path := Doc(Some(to), current.version + 1)];
      ok := true;
    }
  }

  /** The guard: the file's status field reads from, or is empty and from is draft. */
  lemma TakesMeans(files: map<string, Doc>, path: string, from: string)
    ensures Takes(files, path, from) <==>
      && path in files && files[path].status.Some?
      && if files[path].status.value == "" then from == "draft" else from == files[path].status.value
  {
  }

  /** A transition changes the file's status and counts one write; no other file changes. */
  lemma AppliedMeans(files: map<string, Doc>, path: string, to: string, other: string)
    requires path in files
    ensures var after := Applied(files, path, to, true);
            && (other in after <==> other in files)
            && (other in files && other != path ==> after[other] == files[other])
            && after[path].status == Some(to) && after[path].version == files[path].version + 1
            && Applied(files, path, to, false) == files
  {
  }

  // ----- the same call among others -----

  predicate OnlyOf(actions: seq<Action>, id: CallId) {
    forall a :: a in actions ==> a.id == id
  }

  /** One more action of the call. */
  lemma Goes(s: State, actions: seq<Action>, a: Action) returns (longer: seq<Action>, t: State)
    requires Possible(Do, s, actions) && Enabled(After(Do, s, actions), a) && OnlyOf(actions, a.id)
    ensures longer == actions + [a] && OnlyOf(longer, a.id)
    ensures Possible(Do, s, longer) && t == After(Do, s, longer) == Do(After(Do, s, actions), a)
  {
    More(Do, s, actions, a);
    longer, t := actions + [a], Do(After(Do, s, actions), a);
  }

  /** The mutex of a path, or the one that would be made for it. */
  function MutexOf(s: State, path: string): MutexId {
    if path in s.locks then s.locks[path] else s.made
  }

  /** From the call to its mutex. */
  lemma GoesIn(s: State, id: CallId, c: Call) returns (actions: seq<Action>, t: State)
    requires id !in s.calls && c.to != "" && c.pc.Called?
    ensures Possible(Do, s, actions) && OnlyOf(actions, id) && t == After(Do, s, actions)
    ensures t.calls == s.calls[id := c.(pc := Waiting(MutexOf(s, c.path)))]
    ensures t.owner == s.owner && t.files == s.files
  {
    actions, t := Goes(s, [], Begin(id, c.path, c.from, c.to));
    actions, t := Goes(s, actions, CallStep(id, Load));
    if c.path !in s.locks {
      actions, t := Goes(s, actions, CallStep(id, LoadOrStore));
    }
  }

  /** Read, guard, patch and write. */
  lemma GoesOn(s: State, actions: seq<Action>, id: CallId, c: Call, readFails: bool, writeFails: bool)
    returns (longer: seq<Action>, t: State)
    requires Possible(Do, s, actions) && OnlyOf(actions, id)
    requires c.pc.Holding? && id in After(Do, s, actions).calls && After(Do, s, actions).calls[id] == c
    ensures Possible(Do, s, longer) && OnlyOf(longer, id) && t == After(Do, s, longer)
    ensures var u := After(Do, s, actions);
            var ok := !readFails && !writeFails && Takes(u.files, c.path, c.from);
            && t.calls == u.calls[id := c.(pc := Leaving(c.pc.mu, ok))]
            && t.owner == u.owner && t.files == Applied(u.files, c.path, c.to, ok)
  {
    longer, t := Goes(s, actions, CallStep(id, Read(readFails)));
    if !readFails && c.path in t.files {
      longer, t := Goes(s, longer, CallStep(id, Check));
      if Takes(t.files, c.path, c.from) {
        longer, t := Goes(s, longer, CallStep(id, Write(writeFails)));
      }
    }
  }

  /** From the mutex on. */
  lemma GoesThrough(s: State, actions: seq<Action>, id: CallId, c: Call, readFails: bool, writeFails: bool)
    returns (longer: seq<Action>, t: State)
    requires Possible(Do, s, actions) && OnlyOf(actions, id)
    requires c.pc.Waiting? && id in After(Do, s, actions).calls && After(Do, s, actions).calls[id] == c
    requires c.pc.mu !in After(Do, s, actions).owner
    ensures Possible(Do, s, longer) && OnlyOf(longer, id) && t == After(Do, s, longer)
    ensures var u := After(Do, s, actions);
            var ok := !readFails && !writeFails && Takes(u.files, c.path, c.from);
            && t.calls == u.calls[id := c.(pc := Ended(ok))]
            && t.owner == u.owner && t.files == Applied(u.files, c.path, c.to, ok)
  {
    ghost var owner := After(Do, s, actions).owner;
    longer, t := Goes(s, actions, CallStep(id, Lock));
    longer, t := GoesOn(s, longer, id, c.(pc := Holding(c.pc.mu)), readFails, writeFails);
    longer, t := Goes(s, longer, CallStep(id, Unlock));
    assert owner[c.pc.mu := id] - {c.pc.mu} == owner;
  }

  /** ApplyTransition under its mutex is one of the executions above: where the path's mutex is free,
      steps of this call alone end with the outcome and the files that ApplyTransition promises. */
  lemma ApplyIsExecution(s: State, id: CallId, c: Call, readFails: bool, writeFails: bool)
    returns (actions: seq<Action>, t: State)
    requires id !in s.calls && c.to != "" && c.pc.Called? && MutexOf(s, c.path) !in s.owner
    ensures Possible(Do, s, actions) && OnlyOf(actions, id) && t == After(Do, s, actions)
    ensures var ok := !readFails && !writeFails && Takes(s.files, c.path, c.from);
            && t.files == Applied(s.files, c.path, c.to, ok)
            && t.calls == s.calls[id := c.(pc := Ended(ok))] && t.owner == s.owner
  {
    actions, t := GoesIn(s, id, c);
    actions, t := GoesThrough(s, actions, id, c.(pc := Waiting(MutexOf(s, c.path))), readFails, writeFails);
  }

  /** Of two transitions from one status the second is refused, unless the first left the status as
      it was. */
  lemma SecondIsRefused(files: map<string, Doc>, path: string, from: string, to: string)
    requires Takes(files, path, from) && to != ""
    ensures Takes(files[path := Doc(Some(to), files[path].version + 1)], path, from) <==> to == from
  {
  }
}
