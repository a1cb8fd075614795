/** What supervise of internal/agent/agent.go makes of a run's event stream, and the permission
    precheck of internal/agent/precheck.go in front of it. Events arrive classified: whether a line
    is an init event, a rate limit, a quota report, an authentication error or a result is decided
    before. */
module Supervision {
  import opened Results
  import opened Streams
  import opened Text

  datatype Quota = Quota(bucket: string, status: string, resetsAt: int, overage: bool, reason: string)

  /** One line of output; result says whether a result event reports success. */
  datatype Event = Event(
    line: string,
    init: Option<string>,
    rateLimit: Option<string>,
    quota: Option<Quota>,
    authError: bool,
    result: Option<bool>)

  datatype Broadcast =
    | Progress(event: Event)
    | RateLimit(text: string, resetsAt: Option<int>)
    | QuotaStatus(quota: Quota)
    | AuthError

  /** Everything the supervisor has seen and sent. */
  datatype Seen = Seen(
    sent: seq<Broadcast>,
    quota: Option<Quota>,
    authErrors: nat,
    authKilled: bool,
    kills: nat,
    resultSeen: bool,
    resultSuccess: bool)

  const NOTHING := Seen([], None, 0, false, 0, false, false)

  const AUTH_ERROR_THRESHOLD := 2

  // ----- one event -----

  /** The reset time a pause can rely on. */
  function ResetOf(quota: Option<Quota>): Option<int> {
    if quota.Some? && quota.value.resetsAt > 0 then Some(quota.value.resetsAt) else None
  }

  function QuotaPart(quota: Option<Quota>, e: Event): Option<Broadcast> {
    if e.quota.Some? && quota != e.quota then Some(QuotaStatus(e.quota.value)) else None
  }

  function LimitPart(quota: Option<Quota>, e: Event): Option<Broadcast> {
    if e.rateLimit.Some? then Some(RateLimit(e.rateLimit.value, ResetOf(quota))) else None
  }

  /** Whether this event is the one that ends the run for authentication. */
  predicate Trips(s: Seen, e: Event) {
    !s.authKilled && e.authError && s.authErrors + 1 >= AUTH_ERROR_THRESHOLD
  }

  function AuthPart(s: Seen, e: Event): Option<Broadcast> {
    if Trips(s, e) then Some(AuthError) else None
  }

  function Observe(s: Seen, e: Event): Seen {
    Seen(
      Plus(Plus(Plus(s.sent + [Progress(e)], LimitPart(s.quota, e)), QuotaPart(s.quota, e)), AuthPart(s, e)),
      if e.quota.Some? then e.quota else s.quota,
      if !s.authKilled && e.authError then s.authErrors + 1 else s.authErrors,
      s.authKilled || Trips(s, e),
      if Trips(s, e) then s.kills + 1 else s.kills,
      s.resultSeen || e.result.Some?,
      if e.result.Some? then e.result.value else s.resultSuccess)
  }

  function Watch(s: Seen, es: seq<Event>): Seen {
    Fold(Observe, s, es)
  }

  // ----- what was sent -----

  function AsProgress(b: Broadcast): Option<Event> {
    if b.Progress? then Some(b.event) else None
  }

  function AsQuota(b: Broadcast): Option<Quota> {
    if b.QuotaStatus? then Some(b.quota) else None
  }

  function AsLimit(b: Broadcast): Option<Broadcast> {
    if b.RateLimit? then Some(b) else None
  }

  function AsAuthError(b: Broadcast): Option<Broadcast> {
    if b.AuthError? then Some(b) else None
  }

  function Forwarded(bs: seq<Broadcast>): seq<Event> {
    Pick(bs, AsProgress)
  }

  function QuotasSent(bs: seq<Broadcast>): seq<Quota> {
    Pick(bs, AsQuota)
  }

  function LimitsSent(bs: seq<Broadcast>): seq<Broadcast> {
    Pick(bs, AsLimit)
  }

  function AuthErrorsSent(bs: seq<Broadcast>): nat {
    |Pick(bs, AsAuthError)|
  }

  /** What f finds in the broadcasts of one event. */
  lemma PickOne<B>(s: Seen, e: Event, f: Broadcast -> Option<B>)
    ensures Pick(Observe(s, e).sent, f) ==
      Plus(Plus(Plus(Plus(Pick(s.sent, f), f(Progress(e))), Find(LimitPart(s.quota, e), f)),
                Find(QuotaPart(s.quota, e), f)),
           Find(AuthPart(s, e), f))
  {
    var s1 := Plus(s.sent, Some(Progress(e)));
    var s2 := Plus(s1, LimitPart(s.quota, e));
    var s3 := Plus(s2, QuotaPart(s.quota, e));
    PickPlus(s.sent, Some(Progress(e)), f);
    PickPlus(s1, LimitPart(s.quota, e), f);
    PickPlus(s2, QuotaPart(s.quota, e), f);
    PickPlus(s3, AuthPart(s, e), f);
  }

  function Find<B>(b: Option<Broadcast>, f: Broadcast -> Option<B>): Option<B> {
    if b.Some? then f(b.value) else None
  }

  // ----- what a stream means -----

  function QuotaIn(e: Event): Option<Quota> {
    e.quota
  }

  /** The quota reports of the stream, in order. */
  function Quotas(es: seq<Event>): seq<Quota> {
    Pick(es, QuotaIn)
  }

  function LastQuota(es: seq<Event>): Option<Quota> {
    var qs := Quotas(es);
    if qs == [] then None else Some(qs[|qs| - 1])
  }

  /** The pauses the stream asks for, each with the reset time of the latest quota report before it. */
  function Pauses(es: seq<Event>): seq<Broadcast> {
    if es == [] then []
    else Plus(Pauses(es[..|es| - 1]), LimitPart(LastQuota(es[..|es| - 1]), es[|es| - 1]))
  }

  function AuthErrors(es: seq<Event>): nat {
    if es == [] then 0 else AuthErrors(es[..|es| - 1]) + if es[|es| - 1].authError then 1 else 0
  }

  predicate HasResult(es: seq<Event>) {
    exists i :: 0 <= i < |es| && es[i].result.Some?
  }

  /** The last result event of the stream reports success. */
  predicate EndsInSuccess(es: seq<Event>) {
    exists i :: 0 <= i < |es| && es[i].result == Some(true) && forall j :: i < j < |es| ==> es[j].result == None
  }

  lemma QuotaSent(s: Seen, e: Event)
    ensures QuotasSent(Observe(s, e).sent) == Plus(QuotasSent(s.sent), if s.quota != e.quota then e.quota else None)
  {
    PickOne(s, e, AsQuota);
  }

  lemma QuotasStep(s: Seen, qs: seq<Quota>, e: Event)
    requires s.quota == (if qs == [] then None else Some(qs[|qs| - 1])) && QuotasSent(s.sent) == Changes(qs)
    ensures Observe(s, e).quota == (if e.quota.Some? then e.quota else s.quota)
    ensures QuotasSent(Observe(s, e).sent) == Changes(Plus(qs, e.quota))
  {
    QuotaSent(s, e);
    if e.quota.Some? {
      ChangesStep(qs, e.quota.value);
    }
  }

  lemma {:induction false} QuotasWatched(es: seq<Event>)
    ensures Watch(NOTHING, es).quota == LastQuota(es)
    ensures QuotasSent(Watch(NOTHING, es).sent) == Changes(Quotas(es))
  {
    if es != [] {
      var before := es[..|es| - 1];
      QuotasWatched(before);
      QuotasStep(Watch(NOTHING, before), Quotas(before), es[|es| - 1]);
    }
  }

  lemma LimitsStep(s: Seen, e: Event)
    ensures LimitsSent(Observe(s, e).sent) == Plus(LimitsSent(s.sent), LimitPart(s.quota, e))
  {
    PickOne(s, e, AsLimit);
    assert AsLimit(Progress(e)) == None;
    assert Find(LimitPart(s.quota, e), AsLimit) == LimitPart(s.quota, e);
    assert Find(QuotaPart(s.quota, e), AsLimit) == None;
    assert Find(AuthPart(s, e), AsLimit) == None;
  }

  lemma {:induction false} PausesWatched(es: seq<Event>)
    ensures LimitsSent(Watch(NOTHING, es).sent) == Pauses(es)
  {
    if es != [] {
      var before := es[..|es| - 1];
      PausesWatched(before);
      QuotasWatched(before);
      LimitsStep(Watch(NOTHING, before), es[|es| - 1]);
    }
  }

  lemma WatchLast(s: Seen, es: seq<Event>)
    requires es != []
    ensures Watch(s, es) == Observe(Watch(s, es[..|es| - 1]), es[|es| - 1])
  {
  }

  lemma LastOff<T>(s: seq<T>)
    requires s != []
    ensures s == s[..|s| - 1] + [s[|s| - 1]]
  {
  }

  lemma ForwardStep(s: Seen, e: Event)
    ensures Forwarded(Observe(s, e).sent) == Forwarded(s.sent) + [e]
  {
    PickOne(s, e, AsProgress);
  }

  /** Every event goes out exactly once and in order. */
  lemma {:induction false} AllForwarded(es: seq<Event>)
    ensures Forwarded(Watch(NOTHING, es).sent) == es
  {
    if es != [] {
      var before := es[..|es| - 1];
      AllForwarded(before);
      ForwardStep(Watch(NOTHING, before), es[|es| - 1]);
      WatchLast(NOTHING, es);
      LastOff(es);
    }
  }

  /** The signals and kills of a run with n authentication errors. */
  predicate AuthBooks(s: Seen, n: nat) {
    && s.authErrors == (if n < AUTH_ERROR_THRESHOLD then n else AUTH_ERROR_THRESHOLD)
    && (s.authKilled <==> n >= AUTH_ERROR_THRESHOLD)
    && AuthErrorsSent(s.sent) == s.kills == (if s.authKilled then 1 else 0)
  }

  lemma AuthStep(s: Seen, n: nat, e: Event)
    requires AuthBooks(s, n)
    ensures AuthBooks(Observe(s, e), if e.authError then n + 1 else n)
  {
    PickOne(s, e, AsAuthError);
  }

  /** Authentication failure is signalled, and the process killed, once if it was reported at least
      twice, and otherwise never. */
  lemma {:induction false} AuthWatched(es: seq<Event>)
    ensures AuthBooks(Watch(NOTHING, es), AuthErrors(es))
  {
    if es != [] {
      var before := es[..|es| - 1];
      AuthWatched(before);
      AuthStep(Watch(NOTHING, before), AuthErrors(before), es[|es| - 1]);
    }
  }

  lemma {:induction false} ResultsWatched(es: seq<Event>)
    ensures Watch(NOTHING, es).resultSeen <==> HasResult(es)
    ensures Watch(NOTHING, es).resultSuccess <==> EndsInSuccess(es)
  {
    if es != [] {
      var n := |es| - 1;
      var before := es[..n];
      ResultsWatched(before);
      if es[n].result.Some? {
        assert EndsInSuccess(es) <==> es[n].result.value;
      } else {
        LaterEventsKeep(before, es);
      }
    }
  }

  lemma LaterEventsKeep(before: seq<Event>, es: seq<Event>)
    requires es != [] && before == es[..|es| - 1] && es[|es| - 1].result == None
    ensures HasResult(before) <==> HasResult(es)
    ensures EndsInSuccess(before) <==> EndsInSuccess(es)
  {
    var n := |es| - 1;
    if EndsInSuccess(before) {
      var i :| 0 <= i < n && before[i].result == Some(true) && forall j :: i < j < n ==> before[j].result == None;
      assert es[i].result == Some(true) && forall j :: i < j < |es| ==> es[j].result == None;
    }
    if EndsInSuccess(es) {
      var i :| 0 <= i < |es| && es[i].result == Some(true) && forall j :: i < j < |es| ==> es[j].result == None;
      assert before[i].result == Some(true) && forall j :: i < j < n ==> before[j].result == None;
    }
    if HasResult(es) {
      var i :| 0 <= i < |es| && es[i].result.Some?;
      assert before[i].result.Some?;
    }
    assert forall i :: 0 <= i < n ==> before[i] == es[i];
  }

  // ----- the verdict -----

  datatype Context = Live | Cancelled | Expired

  datatype Status = Done | Failed | Killed | KilledTimeout

  /** The run's context tells why it was killed only while the run is registered. */
  function KilledBy(wasActive: bool, ctx: Context): Context {
    if wasActive then ctx else Live
  }

  predicate EmitsResult(driver: string) {
    driver == "claude-code-cli" || driver == "claude-mediated" || driver == "claude-env"
  }

  /** When a run counts as done: fewer than two authentication errors, no truncated stream, and a
      clean exit or, if nobody killed the run, a successful last result. */
  predicate Succeeds(driver: string, clean: bool, ctx: Context, es: seq<Event>) {
    && AuthErrors(es) < AUTH_ERROR_THRESHOLD
    && (EmitsResult(driver) ==> HasResult(es))
    && (clean || (ctx == Live && EndsInSuccess(es)))
  }

  function FinalStatus(driver: string, clean: bool, ctx: Context, es: seq<Event>): Status {
    if Succeeds(driver, clean, ctx, es) then Done
    else if clean || ctx == Live then Failed
    else if ctx == Expired then KilledTimeout
    else Killed
  }

  /** A failure is put down to authentication or to a cut stream only when the run would have
      counted as done without it; authentication comes first. */
  function FailureReason(driver: string, clean: bool, ctx: Context, es: seq<Event>): string {
    if clean || (ctx == Live && EndsInSuccess(es)) then
      if AuthErrors(es) >= AUTH_ERROR_THRESHOLD then "auth_error"
      else if EmitsResult(driver) && !HasResult(es) then "truncated_stream"
      else ""
    else ""
  }

  // ----- the precheck -----

  datatype Precheck = Passed | FailedMode | FailedTimeout

  predicate IsInit(e: Event) {
    e.init.Some?
  }

  /** How many events are read before the precheck decides, when its timer fires after timer events. */
  function ReadByPrecheck(es: seq<Event>, timer: nat): (n: nat)
    ensures n <= |es|
  {
    var first := FirstIndex(es, IsInit);
    if timer <= first then timer else if first < |es| then first + 1 else first
  }

  function PrecheckResult(es: seq<Event>, timer: nat, refuses: string -> bool): Precheck {
    var first := FirstIndex(es, IsInit);
    if timer <= first then FailedTimeout
    else if first < |es| && refuses(es[first].init.value) then FailedMode
    else Passed
  }

  function ObservedMode(es: seq<Event>, timer: nat): string {
    var first := FirstIndex(es, IsInit);
    if first < timer && first < |es| then es[first].init.value else ""
  }

  const BYPASS := "bypassPermissions"

  predicate RefusesPlain(mode: string) {
    mode != "" && mode != BYPASS
  }

  predicate RefusesBypass(mode: string) {
    mode == BYPASS
  }

  predicate RefusesNone(mode: string) {
    false
  }

  /** The modes the driver's precheck refuses; None when the driver has no precheck. */
  function Refused(driver: string, requireBypass: bool): Option<string -> bool> {
    if driver == "claude-code-cli" then Some(if requireBypass then RefusesPlain else RefusesNone)
    else if driver == "claude-mediated" then Some(RefusesBypass)
    else None
  }

  function PrecheckReason(driver: string, state: Precheck, mode: string): string
    requires !state.Passed?
  {
    if state.FailedTimeout? then "precheck_timeout"
    else if driver == "claude-mediated" && mode == BYPASS then "precheck_mediated_bypass"
    else if mode == "acceptEdits" then "permission_mode_accept_edits"
    else "permission_mode_default"
  }

  datatype Outcome = Outcome(status: Status, reason: string)

  // ----- the supervisor -----

  class Supervisor {
    var sent: seq<Broadcast>
    var quota: Option<Quota>
    var authErrCount: nat
    var authErrKilled: bool
    var kills: nat
    var resultEventSeen: bool
    var resultEventSuccess: bool

    function State(): Seen
      reads this
    {
      Seen(sent, quota, authErrCount, authErrKilled, kills, resultEventSeen, resultEventSuccess)
    }

    constructor ()
      ensures State() == NOTHING
    {
      sent, quota, authErrCount, authErrKilled := [], None, 0, false;
      kills, resultEventSeen, resultEventSuccess := 0, false, false;
    }

    method Send(b: Broadcast)
      modifies this`sent
      ensures sent == old(sent) + [b]
    {
      sent := sent + [b];
    }

    /** The broadcast closure. */
    method Forward(e: Event)
      modifies this
      ensures State() == Observe(old(State()), e)
    {
      Send(Progress(e));
      if e.rateLimit.Some? {
        Send(RateLimit(e.rateLimit.value, ResetOf(quota)));
      }
      if e.quota.Some? {
        if quota != e.quota {
          Send(QuotaStatus(e.quota.value));
        }
        quota := e.quota;
      }
      if !authErrKilled && e.authError {
        authErrCount := authErrCount + 1;
        if authErrCount >= AUTH_ERROR_THRESHOLD {
          authErrKilled := true;
          Send(AuthError);
          kills := kills + 1;
        }
      }
      if e.result.Some? {
        resultEventSeen := true;
        resultEventSuccess := e.result.value;
      }
    }

    /** Forwards the next event of a stream. */
    method ForwardNext(es: seq<Event>, i: nat, ghost start: Seen)
      requires i < |es| && State() == FoldTo(Observe, start, es, i)
      modifies this
      ensures State() == FoldTo(Observe, start, es, i + 1)
    {
      Forward(es[i]);
    }

    /** The select loop of both prechecks: reads up to and including the first init event, unless
        the stream ends or the timer, which here fires after timer events, comes first. */
    method AwaitInit(es: seq<Event>, timer: nat) returns (read: nat, pending: bool)
      modifies this
      ensures read <= |es| && read <= timer
      ensures StopsAtInit(es, read, pending)
      ensures pending ==> read == timer || read == |es|
      ensures State() == FoldTo(Observe, old(State()), es, read)
    {
      read, pending := 0, true;
      while read != timer && read < |es|
        invariant pending && read <= |es| && read <= timer
        invariant StopsAtInit(es, read, true)
        invariant State() == FoldTo(Observe, old(State()), es, read)
      {
        StopsStep(es, read);
        ForwardNext(es, read, old(State()));
        read := read + 1;
        if es[read - 1].init.Some? {
          return read, false;
        }
      }
    }

    /** runPrecheck and runMediatedPrecheck, which differ in the modes they refuse. */
    method RunPrecheck(es: seq<Event>, timer: nat, refuses: string -> bool)
      returns (state: Precheck, mode: string, read: nat)
      modifies this
      ensures read == ReadByPrecheck(es, timer)
      ensures state == PrecheckResult(es, timer, refuses) && mode == ObservedMode(es, timer)
      ensures var seen := Watch(old(State()), es[..read]);
              State() == if state.Passed? then seen else seen.(kills := seen.kills + 1)
    {
      var pending;
      read, pending := AwaitInit(es, timer);
      FirstInit(es, read, pending);
      FoldToIs(Observe, old(State()), es, read);
      if !pending {
        mode := es[read - 1].init.value;
        if refuses(mode) {
          kills := kills + 1;
          return FailedMode, mode, read;
        }
        return Passed, mode, read;
      }
      if read == timer {
        kills := kills + 1;
        return FailedTimeout, "", read;
      }
      state, mode := Passed, "";
    }

    method Drain(es: seq<Event>)
      modifies this
      ensures State() == Watch(old(State()), es)
    {
      for i := 0 to |es|
        invariant State() == FoldTo(Observe, old(State()), es, i)
      {
        ForwardNext(es, i, old(State()));
      }
      FoldToIs(Observe, old(State()), es, |es|);
      assert es[..|es|] == es;
    }

    /** The part of supervise behind the process's exit, once the events es were seen. A run that was
        no longer registered counts as one that nobody killed. */
    method Decide(driver: string, clean: bool, ctx: Context, wasActive: bool, ghost es: seq<Event>)
      returns (status: Status, reason: string)
      requires State() == Watch(NOTHING, es)
      ensures status == FinalStatus(driver, clean, KilledBy(wasActive, ctx), es)
      ensures reason == FailureReason(driver, clean, KilledBy(wasActive, ctx), es)
    {
      DecisionMeans(driver, clean, ctx, wasActive, es);
      status, reason := Done, "";
      if !clean {
        status := Failed;
        if wasActive {
          match ctx
          case Expired => status := KilledTimeout;
          case Cancelled => status := Killed;
          case Live =>
        }
      }
      if status == Failed && resultEventSeen && resultEventSuccess {
        status := Done;
      }
      if authErrKilled && status == Done {
        status, reason := Failed, "auth_error";
      }
      if status == Done && EmitsResult(driver) && !resultEventSeen {
        status, reason := Failed, "truncated_stream";
      }
    }

    /** A supervised run: the driver's precheck, the rest of the stream, the verdict. */
    method Supervise(driver: string, requireBypass: bool, es: seq<Event>, timer: nat, clean: bool, ctx: Context)
      returns (out: Outcome)
      requires State() == NOTHING
      modifies this
      ensures var r := Refused(driver, requireBypass);
              if r.Some? && !PrecheckResult(es, timer, r.value).Passed? then
                && out == Outcome(Failed,
                                  PrecheckReason(driver, PrecheckResult(es, timer, r.value), ObservedMode(es, timer)))
                && CallsFor(sent, es[..ReadByPrecheck(es, timer)])
                && kills == AuthErrorsSent(sent) + 1
              else
                && out == Outcome(FinalStatus(driver, clean, ctx, es), FailureReason(driver, clean, ctx, es))
                && CallsFor(sent, es)
                && kills == AuthErrorsSent(sent)
    {
      var r := Refused(driver, requireBypass);
      var read := 0;
      if r.Some? {
        var state, mode;
        state, mode, read := RunPrecheck(es, timer, r.value);
        if !state.Passed? {
          SentForStream(es[..read]);
          return Outcome(Failed, PrecheckReason(driver, state, mode));
        }
      }
      Drain(es[read..]);
      WholeStream(es, read);
      var status, reason := Decide(driver, clean, ctx, true, es);
      out := Outcome(status, reason);
    }
  }

  /** No init event among the events read, except the last one once the wait is over. */
  predicate StopsAtInit(es: seq<Event>, read: nat, pending: bool)
    requires read <= |es|
  {
    && (forall k :: 0 <= k < (if pending then read else read - 1) ==> es[k].init.None?)
    && (!pending ==> read > 0 && es[read - 1].init.Some?)
  }

  lemma StopsStep(es: seq<Event>, read: nat)
    requires read < |es| && StopsAtInit(es, read, true)
    ensures StopsAtInit(es, read + 1, es[read].init.None?)
  {
  }

  lemma FirstInit(es: seq<Event>, read: nat, pending: bool)
    requires read <= |es| && StopsAtInit(es, read, pending)
    ensures if pending then read <= FirstIndex(es, IsInit) else FirstIndex(es, IsInit) == read - 1
  {
    if !pending {
      FirstIndexIs(es, IsInit, read - 1);
    }
  }

  /** The broadcasts are those the stream calls for: the whole stream as progress, the quota reports
      without consecutive repeats, the pauses, and one signal from the second authentication error on. */
  predicate CallsFor(sent: seq<Broadcast>, es: seq<Event>) {
    && Forwarded(sent) == es
    && QuotasSent(sent) == Changes(Quotas(es))
    && LimitsSent(sent) == Pauses(es)
    && AuthErrorsSent(sent) == if AuthErrors(es) >= AUTH_ERROR_THRESHOLD then 1 else 0
  }

  lemma SentForStream(es: seq<Event>)
    ensures var s := Watch(NOTHING, es);
            CallsFor(s.sent, es) && s.kills == AuthErrorsSent(s.sent)
  {
    AllForwarded(es);
    QuotasWatched(es);
    PausesWatched(es);
    AuthWatched(es);
  }

  /** Prefix and rest together are the stream. */
  lemma WholeStream(es: seq<Event>, read: nat)
    requires read <= |es|
    ensures var s := Watch(Watch(NOTHING, es[..read]), es[read..]);
            && s == Watch(NOTHING, es)
            && CallsFor(s.sent, es)
            && s.kills == AuthErrorsSent(s.sent)
  {
    assert es == es[..read] + es[read..];
    FoldConcat(Observe, NOTHING, es[..read], es[read..]);
    SentForStream(es);
  }

  /** The chain of corrections to the exit status, in the order the code makes them. */
  function Decision(s: Seen, driver: string, clean: bool, ctx: Context, wasActive: bool): (Status, string) {
    var exit := if clean then Done
                else if wasActive && ctx == Expired then KilledTimeout
                else if wasActive && ctx == Cancelled then Killed
                else Failed;
    var kept := if exit == Failed && s.resultSeen && s.resultSuccess then Done else exit;
    if kept == Done && s.authKilled then (Failed, "auth_error")
    else if kept == Done && EmitsResult(driver) && !s.resultSeen then (Failed, "truncated_stream")
    else (kept, "")
  }

  /** What the corrections come to. */
  lemma DecisionMeans(driver: string, clean: bool, ctx: Context, wasActive: bool, es: seq<Event>)
    ensures var why := KilledBy(wasActive, ctx);
            Decision(Watch(NOTHING, es), driver, clean, ctx, wasActive)
            == (FinalStatus(driver, clean, why, es), FailureReason(driver, clean, why, es))
  {
    AuthWatched(es);
    ResultsWatched(es);
    SuccessIsResult(es);
  }

  lemma SuccessIsResult(es: seq<Event>)
    ensures EndsInSuccess(es) ==> HasResult(es)
  {
  }

  // ----- what the precheck decides -----

  /** The first init event is the one at k, and reports this mode. */
  predicate FirstInitAt(es: seq<Event>, k: nat, mode: string) {
    k < |es| && es[k].init == Some(mode) && forall j :: 0 <= j < k ==> es[j].init.None?
  }

  lemma FirstInitIs(es: seq<Event>, k: nat, mode: string)
    requires FirstInitAt(es, k, mode)
    ensures FirstIndex(es, IsInit) == k
  {
    FirstIndexIs(es, IsInit, k);
  }

  /** A plain run passes in any mode, or, where bypassing is required, without a mode and in
      bypassPermissions only. */
  lemma PlainPrecheck(es: seq<Event>, timer: nat, k: nat, mode: string, requireBypass: bool)
    requires FirstInitAt(es, k, mode) && k < timer
    ensures var r := Refused("claude-code-cli", requireBypass);
            && r.Some?
            && (PrecheckResult(es, timer, r.value).Passed?
                <==> !requireBypass || mode == "" || mode == "bypassPermissions")
            && !PrecheckResult(es, timer, r.value).FailedTimeout?
    ensures ReadByPrecheck(es, timer) == k + 1 && ObservedMode(es, timer) == mode
  {
    FirstInitIs(es, k, mode);
  }

  /** A mediated run passes in every mode but bypassPermissions. */
  lemma MediatedPrecheck(es: seq<Event>, timer: nat, k: nat, mode: string, requireBypass: bool)
    requires FirstInitAt(es, k, mode) && k < timer
    ensures var r := Refused("claude-mediated", requireBypass);
            && r.Some?
            && (PrecheckResult(es, timer, r.value).Passed? <==> mode != "bypassPermissions")
            && !PrecheckResult(es, timer, r.value).FailedTimeout?
    ensures ReadByPrecheck(es, timer) == k + 1 && ObservedMode(es, timer) == mode
  {
    FirstInitIs(es, k, mode);
  }

  lemma OthersHaveNoPrecheck(driver: string, requireBypass: bool)
    ensures Refused(driver, requireBypass).Some? <==> driver == "claude-code-cli" || driver == "claude-mediated"
  {
  }

  /** Without an init event in time the precheck fails when the timer fires, and passes when the stream
      ends before. */
  lemma NoInitInTime(es: seq<Event>, timer: nat, refuses: string -> bool)
    requires forall j :: 0 <= j < |es| && j < timer ==> es[j].init.None?
    ensures PrecheckResult(es, timer, refuses) == if timer <= |es| then FailedTimeout else Passed
    ensures ReadByPrecheck(es, timer) == if timer <= |es| then timer else |es|
  {
    var first := FirstIndex(es, IsInit);
    assert first < |es| ==> es[first].init.Some?;
  }

  /** The reason that is recorded. */
  lemma PrecheckReasons(mode: string)
    ensures PrecheckReason("claude-code-cli", FailedTimeout, mode) == "precheck_timeout"
    ensures PrecheckReason("claude-mediated", FailedTimeout, mode) == "precheck_timeout"
    ensures PrecheckReason("claude-code-cli", FailedMode, mode)
            == if mode == "acceptEdits" then "permission_mode_accept_edits" else "permission_mode_default"
    ensures mode == "bypassPermissions" ==>
      PrecheckReason("claude-mediated", FailedMode, mode) == "precheck_mediated_bypass"
  {
  }

  // ----- what the verdict looks at -----

  lemma {:induction false} AuthErrorsAre(es: seq<Event>)
    ensures AuthErrors(es) == |set i | 0 <= i < |es| && es[i].authError|
  {
    var all := set i | 0 <= i < |es| && es[i].authError;
    if es == [] {
      assert all == {};
    } else {
      var n := |es| - 1;
      AuthErrorsAre(es[..n]);
      assert all == (set i | 0 <= i < n && es[..n][i].authError) + if es[n].authError then {n} else {};
    }
  }

  /** The last result event, if there is one, is the one at k. */
  predicate LastResultAt(es: seq<Event>, k: int) {
    0 <= k < |es| && es[k].result.Some? && forall j :: k < j < |es| ==> es[j].result.None?
  }

  /** A run is done when at most one event reports an authentication error, its driver is not one that
      ends in a result event or there is one, and the process ended well or nobody stopped it and the
      last result event is a success. */
  lemma DoneMeans(driver: string, clean: bool, ctx: Context, es: seq<Event>)
    ensures FinalStatus(driver, clean, ctx, es).Done? <==>
      && |set i | 0 <= i < |es| && es[i].authError| <= 1
      && (driver in {"claude-code-cli", "claude-mediated", "claude-env"} ==>
            exists i :: 0 <= i < |es| && es[i].result.Some?)
      && (clean || (ctx.Live? && exists k :: LastResultAt(es, k) && es[k].result == Some(true)))
  {
    AuthErrorsAre(es);
    EndedWellIs(clean, ctx, es);
  }

  /** Any other run failed, unless somebody stopped it and it did not end well all the same. */
  lemma NotDoneMeans(driver: string, clean: bool, ctx: Context, es: seq<Event>)
    requires !FinalStatus(driver, clean, ctx, es).Done?
    ensures FinalStatus(driver, clean, ctx, es).Killed? <==> !clean && ctx == Cancelled
    ensures FinalStatus(driver, clean, ctx, es).KilledTimeout? <==> !clean && ctx == Expired
  {
  }

  /** The process ended well, or nobody stopped it and the last result event is a success. */
  ghost predicate EndedWell(clean: bool, ctx: Context, es: seq<Event>) {
    clean || (ctx.Live? && exists k :: LastResultAt(es, k) && es[k].result == Some(true))
  }

  lemma EndedWellIs(clean: bool, ctx: Context, es: seq<Event>)
    ensures EndedWell(clean, ctx, es) <==> clean || (ctx == Live && EndsInSuccess(es))
  {
    if EndsInSuccess(es) {
      var i :| 0 <= i < |es| && es[i].result == Some(true) && forall j :: i < j < |es| ==> es[j].result == None;
      assert LastResultAt(es, i);
    }
    if k :| LastResultAt(es, k) && es[k].result == Some(true) {
      assert es[k].result == Some(true) && forall j :: k < j < |es| ==> es[j].result == None;
    }
  }

  /** Why a run failed that ended well: authentication comes before a cut stream. */
  lemma AuthIsTheReason(driver: string, clean: bool, ctx: Context, es: seq<Event>)
    requires EndedWell(clean, ctx, es)
    ensures FailureReason(driver, clean, ctx, es) == "auth_error"
            <==> |set i | 0 <= i < |es| && es[i].authError| >= 2
  {
    AuthErrorsAre(es);
    EndedWellIs(clean, ctx, es);
  }

  lemma CutIsTheReason(driver: string, clean: bool, ctx: Context, es: seq<Event>)
    requires EndedWell(clean, ctx, es) && |set i | 0 <= i < |es| && es[i].authError| < 2
    ensures FailureReason(driver, clean, ctx, es) == "truncated_stream"
            <==> && driver in {"claude-code-cli", "claude-mediated", "claude-env"}
                 && forall i :: 0 <= i < |es| ==> es[i].result.None?
  {
    AuthErrorsAre(es);
    EndedWellIs(clean, ctx, es);
  }

  lemma NoReason(driver: string, clean: bool, ctx: Context, es: seq<Event>)
    requires !EndedWell(clean, ctx, es) || FinalStatus(driver, clean, ctx, es).Done?
    ensures FailureReason(driver, clean, ctx, es) == ""
  {
    EndedWellIs(clean, ctx, es);
  }

  // ----- what a pause says -----

  lemma {:induction false} LastQuotaIs(es: seq<Event>, k: nat)
    requires k < |es| && es[k].quota.Some? && forall j :: k < j < |es| ==> es[j].quota.None?
    ensures LastQuota(es) == es[k].quota
  {
    if k < |es| - 1 {
      LastQuotaIs(es[..|es| - 1], k);
    }
  }

  lemma {:induction false} NoQuotas(es: seq<Event>)
    requires forall j :: 0 <= j < |es| ==> es[j].quota.None?
    ensures LastQuota(es) == None
  {
    if es != [] {
      NoQuotas(es[..|es| - 1]);
    }
  }

  /** A rate limit asks for one pause, with its text and the reset time of the last quota report before
      it, if there is one and it says when. */
  lemma PauseMeans(es: seq<Event>, e: Event, text: string, k: nat)
    requires e.rateLimit == Some(text) && k <= |es|
    requires k < |es| ==> es[k].quota.Some?
    requires forall j :: 0 <= j < |es| && (k < j || k == |es|) ==> es[j].quota.None?
    ensures Pauses(es + [e]) == Pauses(es) +
      [RateLimit(text, if k < |es| && es[k].quota.value.resetsAt > 0 then Some(es[k].quota.value.resetsAt) else None)]
  {
    if k < |es| {
      LastQuotaIs(es, k);
    } else {
      NoQuotas(es);
    }
    assert (es + [e])[..|es|] == es;
  }

  lemma NoPause(es: seq<Event>, e: Event)
    requires e.rateLimit.None?
    ensures Pauses(es + [e]) == Pauses(es)
  {
    assert (es + [e])[..|es|] == es;
  }

  /** The quota reports of a stream are those of its events, in order. */
  lemma QuotasAre(es: seq<Event>, e: Event)
    ensures Quotas(es + [e]) == Quotas(es) + if e.quota.Some? then [e.quota.value] else []
    ensures Quotas([]) == []
  {
    assert (es + [e])[..|es|] == es;
  }
}
