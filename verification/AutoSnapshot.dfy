/**
 * Automatic captures in the editor: a stop schedules a capture, a resume or another stop cancels it, a
 * failure switches the feature off for the session. The handlers run one at a time; timers and
 * captures in flight belong to the event loop.
 */
module AutoSnapshot {

  type Session = nat

  /** A timer that has not fired, or a capture that has not completed. */
  datatype Job = Timer(session: Session) | Run(session: Session)

  /**
   * The three collections of the provider, and the event loop's side: every unfinished job under the
   * promise it will resolve, how often each promise has been resolved, and the sessions that are over.
   */
  datatype State = State(
    pending: map<Session, nat>,        // pendingAutoSnapshots
    inFlight: set<Session>,            // autoSnapshotInFlight
    disabled: set<Session>,            // autoSnapshotDisabled
    jobs: map<nat, Job>,
    resolved: map<nat, nat>,
    nextPromise: nat,
    ended: set<Session>)

  const Fresh := State(map[], {}, {}, map[], map[], 0, {})

  // ------------------------------------------------------------------
  // Handlers
  // ------------------------------------------------------------------

  /** The job of a promise is over, and the promise resolved once more. */
  function Resolve(s: State, promise: nat): State {
    s.(jobs := s.jobs - {promise}, resolved := s.resolved[promise := TimesResolved(s, promise) + 1])
  }

  function TimesResolved(s: State, promise: nat): nat {
    if promise in s.resolved then s.resolved[promise] else 0
  }

  function Cancelled(s: State, session: Session): State {
    if session !in s.pending then s else Resolve(s.(pending := s.pending - {session}), s.pending[session])
  }

  /** A promise that is resolved at once. */
  function Skipped(s: State): State {
    Resolve(s.(nextPromise := s.nextPromise + 1), s.nextPromise)
  }

  function Scheduled(s: State, session: Session): State {
    s.(jobs := s.jobs[s.nextPromise := Timer(session)], pending := s.pending[session := s.nextPromise],
       resolved := s.resolved[s.nextPromise := 0], nextPromise := s.nextPromise + 1)
  }

  function AfterStop(s: State, session: Session, supported: bool, enabled: bool): State {
    if !supported || session in s.disabled then Skipped(s)
    else if !enabled then Skipped(Cancelled(s, session))
    else Scheduled(Cancelled(s, session), session)
  }

  predicate IsTimer(s: State, promise: nat) {
    promise in s.jobs && s.jobs[promise].Timer?
  }

  predicate IsRun(s: State, promise: nat) {
    promise in s.jobs && s.jobs[promise].Run?
  }

  /** The timer's callback: nothing is pending any more, and a capture starts unless one runs or the feature is off. */
  function AfterTimer(s: State, promise: nat): State
    requires IsTimer(s, promise)
  {
    var session := s.jobs[promise].session;
    var s1 := s.(pending := s.pending - {session});
    if session in s.inFlight || session in s.disabled then Resolve(s1, promise)
    else s1.(jobs := s.jobs[promise := Run(session)], inFlight := s.inFlight + {session})
  }

  datatype Result = Captured | Failed | Threw

  function AfterCapture(s: State, promise: nat, result: Result): State
    requires IsRun(s, promise)
  {
    var session := s.jobs[promise].session;
    Resolve(s.(inFlight := s.inFlight - {session},
               disabled := if result.Failed? then s.disabled + {session} else s.disabled),
            promise)
  }

  function AfterEnd(s: State, session: Session): State {
    var s1 := Cancelled(s, session);
    s1.(inFlight := s1.inFlight - {session}, disabled := s1.disabled - {session}, ended := s1.ended + {session})
  }

  /** Every scheduled capture of `sessions` is dropped and its promise resolved. */
  function Dropped(s: State, sessions: set<Session>): State {
    s.(jobs := map p | p in s.jobs && !Awaited(s, sessions, p) :: s.jobs[p],
       resolved := map p | p in s.resolved :: s.resolved[p] + if Awaited(s, sessions, p) then 1 else 0)
  }

  predicate Awaited(s: State, sessions: set<Session>, promise: nat) {
    promise in s.jobs && s.jobs[promise].Timer? && s.jobs[promise].session in sessions
  }

  function AfterDispose(s: State): State {
    Dropped(s, s.pending.Keys).(pending := map[])
  }

  // ------------------------------------------------------------------
  // Events
  // ------------------------------------------------------------------

  datatype Event =
    | Stopped(session: Session, supported: bool, enabled: bool)
    | Resumed(session: Session)
    | TimerFires(promise: nat)
    | Completes(promise: nat, result: Result)
    | Terminated(session: Session)
    | Disposed

  predicate Fits(s: State, e: Event) {
    (e.TimerFires? ==> IsTimer(s, e.promise)) && (e.Completes? ==> IsRun(s, e.promise))
  }

  /** Besides, the editor sends nothing for a session that is over. */
  predicate Possible(s: State, e: Event) {
    Fits(s, e)
    && match e {
         case Stopped(x, _, _) => x !in s.ended
         case Resumed(x) => x !in s.ended
         case Terminated(x) => x !in s.ended
         case _ => true
       }
  }

  function After(s: State, e: Event): State
    requires Fits(s, e)
  {
    match e
    case Stopped(x, supported, enabled) => AfterStop(s, x, supported, enabled)
    case Resumed(x) => Cancelled(s, x)
    case TimerFires(p) => AfterTimer(s, p)
    case Completes(p, result) => AfterCapture(s, p, result)
    case Terminated(x) => AfterEnd(s, x)
    case Disposed => AfterDispose(s)
  }

  // ------------------------------------------------------------------
  // The invariant
  // ------------------------------------------------------------------

  /** Live timers and scheduled captures are the same thing: at most one per session. */
  ghost predicate TimersOk(s: State) {
    && (forall x :: x in s.pending ==> x !in s.ended && s.pending[x] in s.jobs && s.jobs[s.pending[x]] == Timer(x))
    && (forall p :: p in s.jobs && s.jobs[p].Timer? ==>
        s.jobs[p].session in s.pending && s.pending[s.jobs[p].session] == p)
  }

  /** At most one capture runs for a session that is not over. */
  ghost predicate RunsOk(s: State) {
    && (forall x :: x in s.inFlight ==> x !in s.ended)
    && (forall p :: p in s.jobs && s.jobs[p].Run? && s.jobs[p].session !in s.ended ==> s.jobs[p].session in s.inFlight)
    && (forall p, q ::
        p in s.jobs && q in s.jobs && s.jobs[p].Run? && s.jobs[q] == s.jobs[p] && s.jobs[p].session !in s.ended ==>
        p == q)
  }

  /** Two captures of one session. */
  predicate SameRun(s: State, p: nat, q: nat) {
    IsRun(s, p) && IsRun(s, q) && s.jobs[p].session == s.jobs[q].session
  }

  /** A promise is resolved once its job is over, and only once. */
  ghost predicate PromisesOk(s: State) {
    && (forall p: nat :: p in s.resolved <==> p < s.nextPromise)
    && (forall p :: p in s.jobs ==> p in s.resolved)
    && (forall p :: p in s.resolved ==> s.resolved[p] == if p in s.jobs then 0 else 1)
  }

  ghost predicate Inv(s: State) {
    TimersOk(s) && RunsOk(s) && PromisesOk(s)
  }

  lemma InvStarts()
    ensures Inv(Fresh)
  {
  }

  lemma CancelKeeps(s: State, session: Session)
    requires Inv(s)
    ensures Inv(Cancelled(s, session)) && session !in Cancelled(s, session).pending
  {
    hide RunsOk, TimersOk, PromisesOk;
    CancelKeepsJobs(s, session);
    CancelKeepsPromises(s, session);
  }

  lemma CancelKeepsJobs(s: State, session: Session)
    requires TimersOk(s) && RunsOk(s)
    ensures TimersOk(Cancelled(s, session)) && RunsOk(Cancelled(s, session))
    ensures session !in Cancelled(s, session).pending
  {
  }

  lemma CancelKeepsPromises(s: State, session: Session)
    requires TimersOk(s) && PromisesOk(s)
    ensures PromisesOk(Cancelled(s, session))
  {
  }

  lemma SkipKeeps(s: State)
    requires Inv(s)
    ensures Inv(Skipped(s))
  {
    assert s.nextPromise !in s.jobs;
  }

  lemma ScheduleKeeps(s: State, session: Session)
    requires Inv(s) && session !in s.ended && session !in s.pending
    ensures Inv(Scheduled(s, session))
  {
    hide RunsOk, TimersOk, PromisesOk;
    ScheduleKeepsJobs(s, session);
    ScheduleKeepsPromises(s, session);
  }

  lemma ScheduleKeepsJobs(s: State, session: Session)
    requires Inv(s) && session !in s.ended && session !in s.pending
    ensures TimersOk(Scheduled(s, session)) && RunsOk(Scheduled(s, session))
  {
    assert s.nextPromise !in s.jobs;
  }

  lemma ScheduleKeepsPromises(s: State, session: Session)
    requires PromisesOk(s)
    ensures PromisesOk(Scheduled(s, session))
  {
    assert s.nextPromise !in s.jobs;
  }

  lemma StopKeeps(s: State, session: Session, supported: bool, enabled: bool)
    requires Inv(s) && session !in s.ended
    ensures Inv(AfterStop(s, session, supported, enabled))
  {
    hide Inv, Scheduled, Skipped;
    CancelKeeps(s, session);
    SkipKeeps(s);
    SkipKeeps(Cancelled(s, session));
    ScheduleKeeps(Cancelled(s, session), session);
  }

  lemma TimerKeeps(s: State, promise: nat)
    requires Inv(s) && IsTimer(s, promise)
    ensures Inv(AfterTimer(s, promise))
  {
    assert s.pending[s.jobs[promise].session] == promise;
  }

  lemma CaptureKeeps(s: State, promise: nat, result: Result)
    requires Inv(s) && IsRun(s, promise)
    ensures Inv(AfterCapture(s, promise, result))
  {
  }

  lemma EndKeeps(s: State, session: Session)
    requires Inv(s)
    ensures Inv(AfterEnd(s, session))
  {
    hide Cancelled;
    CancelKeeps(s, session);
  }

  lemma DisposeKeeps(s: State)
    requires Inv(s)
    ensures Inv(AfterDispose(s))
  {
  }

  lemma EventKeeps(s: State, e: Event)
    requires Inv(s) && Possible(s, e)
    ensures Inv(After(s, e))
  {
    hide Inv, AfterStop, Cancelled, AfterTimer, AfterCapture, AfterEnd, AfterDispose;
    match e
    case Stopped(x, supported, enabled) => StopKeeps(s, x, supported, enabled);
    case Resumed(x) => CancelKeeps(s, x);
    case TimerFires(p) => TimerKeeps(s, p);
    case Completes(p, result) => CaptureKeeps(s, p, result);
    case Terminated(x) => EndKeeps(s, x);
    case Disposed => DisposeKeeps(s);
  }

  // ------------------------------------------------------------------
  // Whole traces
  // ------------------------------------------------------------------

  ghost predicate Trace(s: State, events: seq<Event>)
    decreases |events|
  {
    events == [] || (Possible(s, events[0]) && Trace(After(s, events[0]), events[1..]))
  }

  ghost function EndOf(s: State, events: seq<Event>): State
    requires Trace(s, events)
    decreases |events|
  {
    if events == [] then s else EndOf(After(s, events[0]), events[1..])
  }

  lemma {:induction false} TraceKeeps(s: State, events: seq<Event>)
    requires Inv(s) && Trace(s, events)
    ensures Inv(EndOf(s, events))
    decreases |events|
  {
    hide Inv, After;
    if events != [] {
      EventKeeps(s, events[0]);
      TraceKeeps(After(s, events[0]), events[1..]);
    }
  }

  /**
   * After any trace: no promise has been resolved more than once, and those not resolved have a job
   * that will; each session that is not over has at most one scheduled and one running capture.
   */
  lemma OneOfEach(events: seq<Event>)
    requires Trace(Fresh, events)
    ensures
      var s := EndOf(Fresh, events);
      && (forall p :: p in s.resolved ==> s.resolved[p] <= 1 && (s.resolved[p] == 0 <==> p in s.jobs))
      && (forall p, q :: IsTimer(s, p) && IsTimer(s, q) && s.jobs[p].session == s.jobs[q].session ==> p == q)
      && (forall p, q :: SameRun(s, p, q) && s.jobs[p].session !in s.ended ==> p == q)
  {
    hide Trace, EndOf, After, Possible;
    InvStarts();
    TraceKeeps(Fresh, events);
  }

  /** What prevents a scheduled capture of a session. */
  predicate Cancels(s: State, e: Event, session: Session) {
    match e
    case Stopped(x, supported, _) => x == session && supported && session !in s.disabled
    case Resumed(x) => x == session
    case Terminated(x) => x == session
    case Disposed => true
    case _ => false
  }

  lemma CancelResolves(s: State, e: Event, promise: nat)
    requires Inv(s) && Possible(s, e) && IsTimer(s, promise) && Cancels(s, e, s.jobs[promise].session)
    ensures promise !in After(s, e).jobs && promise in After(s, e).resolved && After(s, e).resolved[promise] == 1
  {
    assert s.pending[s.jobs[promise].session] == promise;
    assert promise < s.nextPromise;
  }

  lemma OverIsOver(s: State, e: Event, promise: nat)
    requires Inv(s) && Possible(s, e) && promise in s.resolved && promise !in s.jobs
    ensures promise in After(s, e).resolved && promise !in After(s, e).jobs
  {
    assert promise < s.nextPromise;
  }

  lemma {:induction false} StaysOver(s: State, events: seq<Event>, promise: nat)
    requires Inv(s) && Trace(s, events) && promise in s.resolved && promise !in s.jobs
    ensures forall i :: 0 <= i < |events| ==> events[i] != TimerFires(promise)
    decreases |events|
  {
    hide Inv, After;
    if events != [] {
      OverIsOver(s, events[0], promise);
      EventKeeps(s, events[0]);
      StaysOver(After(s, events[0]), events[1..], promise);
    }
  }

  /**
   * A resume, a newer stop, a termination or a dispose in time: the promise is resolved at once and the timer
   * never fires.
   */
  lemma CancelledInTime(s: State, e: Event, events: seq<Event>, promise: nat)
    requires Inv(s) && Possible(s, e) && IsTimer(s, promise) && Cancels(s, e, s.jobs[promise].session)
    requires Trace(After(s, e), events)
    ensures After(s, e).resolved[promise] == 1
    ensures forall i :: 0 <= i < |events| ==> events[i] != TimerFires(promise)
  {
    hide Inv, After, Possible;
    CancelResolves(s, e, promise);
    EventKeeps(s, e);
    StaysOver(After(s, e), events, promise);
  }

  /** A timer that can start no capture any more: it is off, or its session is. */
  ghost predicate Harmless(s: State, promise: nat) {
    promise in s.resolved && (promise in s.jobs ==> s.jobs[promise].Timer? && s.jobs[promise].session in s.disabled)
  }

  lemma StaysHarmless(s: State, e: Event, promise: nat)
    requires Inv(s) && Possible(s, e) && Harmless(s, promise)
    ensures Harmless(After(s, e), promise)
  {
    assert promise < s.nextPromise;
    if promise in s.jobs {
      assert s.pending[s.jobs[promise].session] == promise;
    }
  }

  lemma {:induction false} NeverRuns(s: State, events: seq<Event>, promise: nat)
    requires Inv(s) && Trace(s, events) && Harmless(s, promise)
    ensures Harmless(EndOf(s, events), promise)
    decreases |events|
  {
    hide Inv, After, Harmless;
    if events != [] {
      StaysHarmless(s, events[0], promise);
      EventKeeps(s, events[0]);
      NeverRuns(After(s, events[0]), events[1..], promise);
    }
  }

  /**
   * Whatever comes after a newer stop, what an older one scheduled captures nothing. If the feature is
   * off for the session the older timer is left to fire, but then it starts no capture.
   */
  lemma NewerStopPrevents(s: State, session: Session, supported: bool, enabled: bool, events: seq<Event>, promise: nat)
    requires Inv(s) && IsTimer(s, promise) && s.jobs[promise].session == session && session !in s.ended
    requires supported || session in s.disabled
    requires Trace(After(s, Stopped(session, supported, enabled)), events)
    ensures !IsRun(EndOf(After(s, Stopped(session, supported, enabled)), events), promise)
  {
    hide Inv, Trace, EndOf;
    var e := Stopped(session, supported, enabled);
    EventKeeps(s, e);
    assert Harmless(After(s, e), promise) by {
      if Cancels(s, e, session) {
        CancelResolves(s, e, promise);
      } else {
        DisabledIsHarmless(s, promise);
        StaysHarmless(s, e, promise);
      }
    }
    NeverRuns(After(s, e), events, promise);
  }

  lemma DisabledIsHarmless(s: State, promise: nat)
    requires Inv(s) && IsTimer(s, promise) && s.jobs[promise].session in s.disabled
    ensures Harmless(s, promise)
  {
  }

  ghost predicate NoJob(s: State, session: Session) {
    session !in s.pending && forall p :: p in s.jobs ==> s.jobs[p].session != session
  }

  lemma NoJobStays(s: State, e: Event, session: Session)
    requires Inv(s) && Possible(s, e) && NoJob(s, session)
    requires e.Stopped? && e.session == session ==> !e.supported
    ensures NoJob(After(s, e), session)
  {
    hide AfterStop;
    if e.Stopped? {
      StopNoJob(s, e.session, e.supported, e.enabled, session);
    }
  }

  lemma StopNoJob(s: State, stopped: Session, supported: bool, enabled: bool, session: Session)
    requires Inv(s) && NoJob(s, session) && (stopped == session ==> !supported)
    ensures NoJob(AfterStop(s, stopped, supported, enabled), session)
  {
  }

  /** A session that does not support live captures never has one scheduled, so its stops need not cancel anything. */
  lemma {:induction false} UnsupportedSchedulesNothing(s: State, events: seq<Event>, session: Session)
    requires Inv(s) && Trace(s, events) && NoJob(s, session)
    requires forall i :: 0 <= i < |events| && events[i].Stopped? && events[i].session == session ==>
      !events[i].supported
    ensures NoJob(EndOf(s, events), session)
    decreases |events|
  {
    hide Inv, After, NoJob;
    if events != [] {
      NoJobStays(s, events[0], session);
      EventKeeps(s, events[0]);
      UnsupportedSchedulesNothing(After(s, events[0]), events[1..], session);
    }
  }

  /** The captures that run for a session. */
  ghost predicate NoNewRun(s: State, s': State, session: Session) {
    forall p :: IsRun(s', p) && s'.jobs[p].session == session ==> IsRun(s, p) && s.jobs[p].session == session
  }

  lemma DisabledStays(s: State, e: Event, session: Session)
    requires Inv(s) && Possible(s, e) && session in s.disabled && e != Terminated(session)
    ensures session in After(s, e).disabled && NoNewRun(s, After(s, e), session)
  {
    hide AfterStop;
    if e.Stopped? {
      StopDisabled(s, e.session, e.supported, e.enabled, session);
    }
  }

  lemma StopDisabled(s: State, stopped: Session, supported: bool, enabled: bool, session: Session)
    requires Inv(s) && session in s.disabled
    ensures
      var s' := AfterStop(s, stopped, supported, enabled);
      session in s'.disabled && NoNewRun(s, s', session)
  {
  }

  /** A failed capture switches the feature off: no capture of the session starts from then on until it is over. */
  lemma {:induction false} FailureLatches(s: State, events: seq<Event>, session: Session)
    requires Inv(s) && Trace(s, events) && session in s.disabled
    requires forall i :: 0 <= i < |events| ==> events[i] != Terminated(session)
    ensures session in EndOf(s, events).disabled && NoNewRun(s, EndOf(s, events), session)
    decreases |events|
  {
    hide Inv, After;
    if events != [] {
      DisabledStays(s, events[0], session);
      EventKeeps(s, events[0]);
      FailureLatches(After(s, events[0]), events[1..], session);
    }
  }

  lemma FailureDisables(s: State, promise: nat)
    requires IsRun(s, promise)
    ensures s.jobs[promise].session in After(s, Completes(promise, Failed)).disabled
  {
  }

  /** So a capture that fails is the last of its session. */
  lemma FailureIsFinal(s: State, promise: nat, events: seq<Event>)
    requires Inv(s) && IsRun(s, promise) && Trace(After(s, Completes(promise, Failed)), events)
    requires forall i :: 0 <= i < |events| ==> events[i] != Terminated(s.jobs[promise].session)
    ensures
      var s1 := After(s, Completes(promise, Failed));
      s.jobs[promise].session in EndOf(s1, events).disabled && NoNewRun(s1, EndOf(s1, events), s.jobs[promise].session)
  {
    hide Inv, Trace, EndOf, NoNewRun;
    FailureDisables(s, promise);
    EventKeeps(s, Completes(promise, Failed));
    FailureLatches(After(s, Completes(promise, Failed)), events, s.jobs[promise].session);
  }

  /** Why nothing may come for a session that is over: its next capture would run beside the one still in flight. */
  lemma StoppedAfterTheEnd()
    ensures
      var s1 := After(Fresh, Stopped(7, true, true));
      IsTimer(s1, 0)
      && var s2 := After(s1, TimerFires(0));
         var s3 := After(After(s2, Terminated(7)), Stopped(7, true, true));
         IsTimer(s3, 1) && SameRun(After(s3, TimerFires(1)), 0, 1)
  {
  }

  // ------------------------------------------------------------------
  // The provider
  // ------------------------------------------------------------------

  class SnapshotProvider {
    var pending: map<Session, nat>
    var inFlight: set<Session>
    var disabled: set<Session>
    // The event loop's side
    var jobs: map<nat, Job>
    var resolved: map<nat, nat>
    var nextPromise: nat
    ghost var ended: set<Session>

    ghost function St(): State
      reads this
    {
      State(pending, inFlight, disabled, jobs, resolved, nextPromise, ended)
    }

    constructor ()
      ensures St() == Fresh
    {
      pending, inFlight, disabled := map[], {}, {};
      jobs, resolved, nextPromise, ended := map[], map[], 0, {};
    }

    method ResolvePromise(promise: nat)
      modifies this`jobs, this`resolved
      ensures St() == Resolve(old(St()), promise)
    {
      var times := if promise in resolved then resolved[promise] else 0;
      jobs, resolved := jobs - {promise}, resolved[promise := times + 1];
    }

    method NewPromise() returns (promise: nat)
      modifies this`resolved, this`nextPromise
      ensures promise == old(nextPromise)
      ensures St() == old(St()).(resolved := old(resolved)[promise := 0], nextPromise := promise + 1)
    {
      promise := nextPromise;
      nextPromise := nextPromise + 1;
      resolved := resolved[promise := 0];
    }

    /** A stop: whatever the one before it scheduled is off, and a new capture is scheduled. */
    method HandleParentStopped(session: Session, supported: bool, enabled: bool) returns (promise: nat)
      requires Inv(St()) && session !in ended
      modifies this
      ensures Inv(St()) && St() == AfterStop(old(St()), session, supported, enabled)
      ensures promise == old(nextPromise) && promise in resolved
      ensures promise in jobs <==> supported && session !in old(disabled) && enabled
    {
      hide Inv, Resolve, Skipped;
      ghost var s := St();
      StopKeeps(s, session, supported, enabled);
      Unused(s);
      if !supported || session in disabled {
        SkippedInTwo(s);
        promise := NewPromise();
        ResolvePromise(promise);
        return;
      }
      CancelPendingAutoSnapshot(session);
      CancelPromisesNothing(s, session);
      ghost var s1 := St();
      Unused(s1);
      SkippedInTwo(s1);
      promise := NewPromise();
      if !enabled {
        ResolvePromise(promise);
        return;
      }
      jobs := jobs[promise := Timer(session)];
      pending := pending[session := promise];
    }

    /** A resume. Safe for sessions with nothing pending. */
    method CancelPendingAutoSnapshot(session: Session)
      requires Inv(St())
      modifies this
      ensures Inv(St()) && St() == Cancelled(old(St()), session)
    {
      hide Inv;
      CancelKeeps(St(), session);
      if session !in pending {
        return;
      }
      var promise := pending[session];
      pending := pending - {session};
      ResolvePromise(promise);
    }

    /** The settle delay is over. */
    method OnTimer(promise: nat)
      requires Inv(St()) && IsTimer(St(), promise)
      modifies this
      ensures Inv(St()) && St() == AfterTimer(old(St()), promise)
    {
      hide Inv;
      TimerKeeps(St(), promise);
      var session := jobs[promise].session;
      pending := pending - {session};
      RunAutoSnapshot(session, promise);
    }

    /** Start a capture, unless one is running or the feature is off. */
    method RunAutoSnapshot(session: Session, promise: nat)
      modifies this
      ensures
        St() ==
          if session in old(inFlight) || session in old(disabled) then Resolve(old(St()), promise)
          else old(St()).(jobs := old(jobs)[promise := Run(session)], inFlight := old(inFlight) + {session})
    {
      if session in inFlight || session in disabled {
        ResolvePromise(promise);
        return;
      }
      inFlight := inFlight + {session};
      jobs := jobs[promise := Run(session)];
    }

    /** The capture has come back. */
    method OnCaptured(promise: nat, result: Result)
      requires Inv(St()) && IsRun(St(), promise)
      modifies this
      ensures Inv(St()) && St() == AfterCapture(old(St()), promise, result)
    {
      hide Inv;
      CaptureKeeps(St(), promise, result);
      var session := jobs[promise].session;
      inFlight := inFlight - {session};
      if result.Failed? {
        disabled := disabled + {session};
      }
      ResolvePromise(promise);
    }

    method HandleTerminateSession(session: Session)
      requires Inv(St())
      modifies this
      ensures Inv(St()) && St() == AfterEnd(old(St()), session)
    {
      hide Inv, Cancelled;
      EndKeeps(St(), session);
      CancelPendingAutoSnapshot(session);
      inFlight := inFlight - {session};
      disabled := disabled - {session};
      ended := ended + {session};
    }

    method Dispose()
      requires Inv(St())
      modifies this
      ensures Inv(St()) && St() == AfterDispose(old(St()))
    {
      hide Inv, Dropped, Resolve;
      ghost var s := St();
      DisposeKeeps(s);
      var left := pending.Keys;
      DroppedNone(s);
      assert s.pending.Keys - left == {};
      while left != {}
        invariant left <= pending.Keys && pending == s.pending
        invariant St() == Dropped(s, s.pending.Keys - left)
        decreases |left|
      {
        var session :| session in left;
        DroppedOne(s, s.pending.Keys - left, session);
        assert s.pending.Keys - (left - {session}) == s.pending.Keys - left + {session};
        ResolvePromise(pending[session]);
        left := left - {session};
      }
      assert s.pending.Keys - {} == s.pending.Keys;
      pending := map[];
    }
  }

  lemma Unused(s: State)
    requires Inv(s)
    ensures s.nextPromise !in s.jobs && s.jobs - {s.nextPromise} == s.jobs
  {
  }

  lemma CancelPromisesNothing(s: State, session: Session)
    ensures Cancelled(s, session).nextPromise == s.nextPromise
  {
  }

  lemma SkippedInTwo(s: State)
    requires Inv(s)
    ensures Resolve(s.(resolved := s.resolved[s.nextPromise := 0], nextPromise := s.nextPromise + 1), s.nextPromise) ==
      Skipped(s)
    ensures s.nextPromise in Skipped(s).resolved && s.nextPromise !in Skipped(s).jobs
  {
    assert s.nextPromise !in s.resolved;
  }

  lemma DroppedNone(s: State)
    ensures Dropped(s, {}) == s
  {
  }

  lemma AwaitedMore(s: State, sessions: set<Session>, session: Session)
    requires Inv(s) && session in s.pending && session !in sessions
    ensures s.pending[session] in s.jobs && s.pending[session] in s.resolved
    ensures !Awaited(s, sessions, s.pending[session])
    ensures forall q :: Awaited(s, sessions + {session}, q) <==> Awaited(s, sessions, q) || q == s.pending[session]
  {
    hide RunsOk;
  }

  lemma DroppedOne(s: State, sessions: set<Session>, session: Session)
    requires Inv(s) && session in s.pending && session !in sessions
    ensures Resolve(Dropped(s, sessions), s.pending[session]) == Dropped(s, sessions + {session})
  {
    hide Inv, Awaited;
    AwaitedMore(s, sessions, session);
    var a, b := Resolve(Dropped(s, sessions), s.pending[session]), Dropped(s, sessions + {session});
    assert a.jobs == b.jobs;
    assert a.resolved == b.resolved;
  }
}
