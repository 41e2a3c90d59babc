/**
 * Who may capture when. Any number of Python threads capture on request, a sampling thread on a timer
 * of its own, and a controlling thread starts and stops the sampler. A capture may run under a
 * timeout thread that raises the cancel flag. Every atomic action of every thread is a move; the
 * theorems are about all interleavings of moves.
 */
module CaptureProtocol {
  import opened Reading

  datatype Actor = Thread(id: nat) | Sampler | Controller | Timer

  /** Why `cancelRequested_` is raised; it is down if there is no cause. */
  datatype Cause = ByCaller | ByTimer(owner: Actor)

  /** Where a capture is, between claiming `snapshotInProgress_` and releasing it. */
  datatype Stage =
    | Claimed
    | TimerLock    // startTimeoutTimer: about to lock timeoutMutex_
    | TimerStart   // holding it
    | Begin
    | Walking(left: nat)
    | End
    | StopLock     // stopTimeoutTimer: about to lock timeoutMutex_
    | StopHeld     // holding it
    | Notify
    | Join
    | Reset
    | Clear
    | Release

  /**
   * The captures differ in whether they are timed, whether they clear the cancel flag before they
   * start, and whether they stop the timer even if they started none.
   */
  datatype Capture = Capture(stage: Stage, timed: bool, clearsFirst: bool, alwaysStops: bool)

  /** The body of the timeout thread. The flag of the waiting states says whether the time is up. */
  datatype TimerPc = TStart | THeld(timedOut: bool) | TWaiting | TWoken(timedOut: bool) | TFire | TDone

  /** `timeoutThread_`, and for whom it was started. */
  datatype TimerState = NoTimer | Running(pc: TimerPc, owner: Actor)

  /** The sampling thread, `SNone` if there is none. */
  datatype SamplerPc =
    | SNone
    | SLock
    | SHeld(timedOut: bool)
    | SSleeping
    | SWoken(timedOut: bool)
    | SRecheck
    | SClaim
    | SClaimed
    | SWantGil
    | SCapture
    | SRelease
    | SUnlockGil
    | SExited

  /** The thread that calls enable_sampling and disable_sampling. */
  datatype ControllerPc =
    | CIdle
    | EnLock | EnHeld
    | DiFree | DiLock | DiHeld | DiNotify | DiJoin | DiReset | DiLock2 | DiHeld2 | DiGil

  /** What the timeout of a capture works with. */
  datatype Timing = Timing(
    cancel: set<Cause>,             // cancelRequested_
    mutex: Option<Actor>,           // timeoutMutex_
    stop: bool,                     // timeoutShouldStop_
    timer: TimerState)              // timeoutThread_

  datatype World = World(
    inProgress: bool,               // snapshotInProgress_
    gil: Option<Actor>,
    captures: map<Actor, Capture>,  // who is capturing, and how far they are
    writing: Option<Actor>,         // whose snapshot is open in the writer
    timing: Timing,
    samplingMutex: Option<Actor>,
    samplingStop: bool,             // samplingShouldStop_
    active: bool,                   // samplingActive_
    sampler: SamplerPc,
    controller: ControllerPc)

  const Quiet := World(false, None, map[], None, Timing({}, None, false, NoTimer), None, false, false, SNone, CIdle)

  // ------------------------------------------------------------------
  // Moves
  // ------------------------------------------------------------------

  datatype Move =
    | TakeGil(who: Actor)
    | YieldGil(who: Actor)
    | Claim(thread: nat, timed: bool, clearsFirst: bool, alwaysStops: bool)
    | CaptureStep(who: Actor, walk: nat)
    | TimerStep
    | TimerWake(timedOut: bool)
    | SamplerStep(timed: bool, clearsFirst: bool, found: bool)
    | SamplerWake(timedOut: bool)
    | RequestCancel
    | Enable
    | Disable
    | ControllerStep

  /** A thread that runs Python code may hand over the GIL; so may a capture while it walks objects. */
  predicate MayYield(w: World, a: Actor) {
    match a
    case Thread(_) => a in w.captures ==> w.captures[a].stage.Walking?
    case Sampler => a in w.captures && w.captures[a].stage.Walking?
    case Controller => w.controller.CIdle?
    case Timer => false
  }

  predicate CaptureEnabled(w: World, a: Actor) {
    w.gil == Some(a) && a in w.captures
    && match w.captures[a].stage {
         case TimerLock => w.timing.mutex.None?
         case StopLock => w.timing.mutex.None?
         case Join => w.timing.timer.Running? && w.timing.timer.pc.TDone?
         case _ => true
       }
  }

  predicate TimerEnabled(t: Timing) {
    t.timer.Running?
    && match t.timer.pc {
         case TStart => t.mutex.None?
         case TWoken(_) => t.mutex.None?
         case THeld(_) => true
         case TFire => true
         case _ => false
       }
  }

  predicate SamplerEnabled(w: World) {
    match w.sampler
    case SNone => false
    case SLock => w.samplingMutex.None?
    case SWoken(_) => w.samplingMutex.None?
    case SSleeping => false
    case SWantGil => w.gil.None?
    case SCapture => false
    case SExited => false
    case _ => true
  }

  predicate ControllerEnabled(w: World) {
    match w.controller
    case CIdle => false
    case EnLock => w.samplingMutex.None?
    case DiLock => w.samplingMutex.None?
    case DiLock2 => w.samplingMutex.None?
    case DiJoin => w.sampler.SExited?
    case DiGil => w.gil.None?
    case _ => true
  }

  predicate Enabled(w: World, m: Move) {
    match m
    case TakeGil(a) => w.gil.None? && MayYield(w, a)
    case YieldGil(a) => w.gil == Some(a) && MayYield(w, a)
    case Claim(t, _, _, _) => w.gil == Some(Thread(t))  // also from code that a capture of this thread calls
    case CaptureStep(a, _) => CaptureEnabled(w, a)
    case TimerStep => TimerEnabled(w.timing)
    case TimerWake(_) => w.timing.timer.Running? && w.timing.timer.pc.TWaiting?
    case SamplerStep(_, _, _) => SamplerEnabled(w)
    case SamplerWake(_) => w.sampler.SSleeping?
    case RequestCancel => true
    case Enable => w.controller.CIdle? && w.gil == Some(Controller)
    case Disable => w.controller.CIdle? && w.gil == Some(Controller)
    case ControllerStep => ControllerEnabled(w)
  }

  /** Where a capture goes from its stage. */
  function NextStage(t: Timing, c: Capture, walk: nat): Stage {
    match c.stage
    case Claimed => if c.timed then TimerLock else Begin
    case TimerLock => TimerStart
    case TimerStart => Begin
    case Begin => Walking(walk)
    case Walking(left) => if left == 0 || t.cancel != {} then End else Walking(left - 1)
    case End => if c.timed || c.alwaysStops then StopLock else Clear
    case StopLock => StopHeld
    case StopHeld => if t.timer.NoTimer? then Clear else Notify
    case Notify => Join
    case Join => Reset
    case Reset => Clear
    case Clear => Release
    case Release => Release
  }

  /** What it does there to its timer and to the cancel flag. */
  function NextTiming(t: Timing, a: Actor, c: Capture): Timing {
    match c.stage
    case Claimed => if c.clearsFirst then t.(cancel := {}) else t
    case TimerLock => t.(mutex := Some(a))
    case TimerStart =>
      // a timer that is already there is left alone
      (if t.timer.Running? then t else t.(stop := false, timer := Running(TStart, a))).(mutex := None)
    case StopLock => t.(mutex := Some(a))
    case StopHeld => (if t.timer.NoTimer? then t else t.(stop := true)).(mutex := None)
    case Notify => if t.timer.Running? && t.timer.pc.TWaiting? then t.(timer := t.timer.(pc := TWoken(false))) else t
    case Reset => t.(timer := NoTimer)
    case Clear => t.(cancel := {})
    case _ => t
  }

  function AfterCapture(w: World, a: Actor, walk: nat): World
    requires CaptureEnabled(w, a)
  {
    var c := w.captures[a];
    if c.stage.Release? then
      var w1 := w.(captures := w.captures - {a});
      if a.Sampler? then w1.(sampler := SRelease) else w1.(inProgress := false)  // the sampler releases the flag itself
    else
      w.(captures := w.captures[a := c.(stage := NextStage(w.timing, c, walk))],
         timing := NextTiming(w.timing, a, c),
         writing := if c.stage.Begin? then Some(a) else if c.stage.End? then None else w.writing)
  }

  function AfterTimer(t: Timing): Timing
    requires TimerEnabled(t)
  {
    match t.timer.pc
    case TStart => t.(mutex := Some(Timer), timer := t.timer.(pc := THeld(false)))
    case TWoken(b) => t.(mutex := Some(Timer), timer := t.timer.(pc := THeld(b)))
    case THeld(b) =>
      if t.stop then t.(mutex := None, timer := t.timer.(pc := TDone))
      else if b then t.(timer := t.timer.(pc := TFire))
      else t.(mutex := None, timer := t.timer.(pc := TWaiting))
    case TFire => t.(cancel := t.cancel + {ByTimer(t.timer.owner)}, mutex := None, timer := t.timer.(pc := TDone))
  }

  function AfterSampler(w: World, timed: bool, clearsFirst: bool, found: bool): World
    requires SamplerEnabled(w)
  {
    match w.sampler
    case SLock => w.(samplingMutex := Some(Sampler), sampler := SHeld(false))
    case SWoken(b) => w.(samplingMutex := Some(Sampler), sampler := SHeld(b))
    case SHeld(b) =>
      w.(samplingMutex := None, sampler := if w.samplingStop then SExited else if b then SRecheck else SSleeping)
    case SRecheck => w.(sampler := if w.samplingStop then SExited else SClaim)
    case SClaim => if w.inProgress then w.(sampler := SLock) else w.(inProgress := true, sampler := SClaimed)
    case SClaimed =>
      if w.samplingStop then w.(inProgress := false, sampler := SExited) else w.(sampler := SWantGil)
    case SWantGil =>
      var w1 := w.(gil := Some(Sampler));
      if found then w1.(sampler := SCapture,
                        captures := w.captures[Sampler := Capture(Claimed, timed, clearsFirst, timed)])
      else w1.(sampler := SRelease)
    case SRelease => w.(inProgress := false, sampler := SUnlockGil)
    case SUnlockGil => w.(gil := None, sampler := SLock)
  }

  function AfterController(w: World): World
    requires ControllerEnabled(w)
  {
    match w.controller
    case EnLock => w.(samplingMutex := Some(Controller), controller := EnHeld)
    case EnHeld =>
      var w1 := w.(samplingMutex := None, controller := CIdle);
      if w.active then w1 else w1.(active := true, samplingStop := false, sampler := SLock)
    case DiFree => w.(gil := None, controller := DiLock)
    case DiLock => w.(samplingMutex := Some(Controller), controller := DiHeld)
    case DiHeld =>
      if w.active then w.(samplingStop := true, samplingMutex := None, controller := DiNotify)
      else w.(samplingMutex := None, controller := DiGil)
    case DiNotify => w.(sampler := if w.sampler.SSleeping? then SWoken(false) else w.sampler, controller := DiJoin)
    case DiJoin => w.(controller := DiReset)
    case DiReset => w.(sampler := SNone, controller := DiLock2)
    case DiLock2 => w.(samplingMutex := Some(Controller), controller := DiHeld2)
    case DiHeld2 => w.(active := false, samplingMutex := None, controller := DiGil)
    case DiGil => w.(gil := Some(Controller), controller := CIdle)
  }

  function After(w: World, m: Move): World
    requires Enabled(w, m)
  {
    match m
    case TakeGil(a) => w.(gil := Some(a))
    case YieldGil(_) => w.(gil := None)
    case Claim(t, timed, clearsFirst, alwaysStops) =>
      if w.inProgress then w
      else w.(inProgress := true,
              captures := w.captures[Thread(t) := Capture(Claimed, timed, clearsFirst, alwaysStops)])
    case CaptureStep(a, walk) => AfterCapture(w, a, walk)
    case TimerStep => w.(timing := AfterTimer(w.timing))
    case TimerWake(b) => w.(timing := w.timing.(timer := w.timing.timer.(pc := TWoken(b))))
    case SamplerStep(timed, clearsFirst, found) => AfterSampler(w, timed, clearsFirst, found)
    case SamplerWake(b) => w.(sampler := SWoken(b))
    case RequestCancel => w.(timing := w.timing.(cancel := w.timing.cancel + {ByCaller}))
    case Enable => w.(controller := EnLock)
    case Disable => w.(controller := DiFree)
    case ControllerStep => AfterController(w)
  }

  // ------------------------------------------------------------------
  // The invariant
  // ------------------------------------------------------------------

  predicate SamplerHolds(w: World) {
    w.sampler.SClaimed? || w.sampler.SWantGil? || w.sampler.SCapture? || w.sampler.SRelease?
  }

  /** Between starting the timer and having joined it. */
  predicate TimerWindow(stage: Stage) {
    !stage.Claimed? && !stage.TimerLock? && !stage.TimerStart? && !stage.Clear? && !stage.Release?
  }

  predicate Stopping(stage: Stage) {
    stage.Notify? || stage.Join? || stage.Reset?
  }

  predicate HoldsTimeoutMutex(stage: Stage) {
    stage.TimerStart? || stage.StopHeld?
  }

  predicate TimerHoldsMutex(t: Timing) {
    t.timer.Running? && (t.timer.pc.THeld? || t.timer.pc.TFire?)
  }

  /** A snapshot is open in the writer. */
  predicate Writes(stage: Stage) {
    stage.Walking? || stage.End?
  }

  predicate MutexOk(t: Timing, a: Actor, c: Capture) {
    && (TimerHoldsMutex(t) ==> t.mutex == Some(Timer) && !HoldsTimeoutMutex(c.stage))
    && (HoldsTimeoutMutex(c.stage) ==> t.mutex == Some(a))
    && (!TimerHoldsMutex(t) && !HoldsTimeoutMutex(c.stage) ==> t.mutex == None)
  }

  /** A timer belongs to a timed capture, from its start to its end, and no signal to stop it is lost. */
  predicate TimerOk(t: Timing, a: Actor, c: Capture) {
    && (t.timer.Running? <==> c.timed && TimerWindow(c.stage))
    && (Stopping(c.stage) || c.stage.TimerLock? || c.stage.TimerStart? ==> c.timed)
    && (t.timer.Running? ==>
          && t.timer.owner == a
          && (t.stop <==> Stopping(c.stage))
          && (c.stage.Join? ==> !t.timer.pc.TWaiting?)
          && (c.stage.Reset? ==> t.timer.pc.TDone?))
  }

  /** A timer raises the cancel flag for its own capture only, and that capture takes it down. */
  ghost predicate CancelOk(t: Timing, a: Actor, c: Capture) {
    forall b :: ByTimer(b) in t.cancel ==> b == a && c.timed && (TimerWindow(c.stage) || c.stage.Clear?)
  }

  ghost predicate TimingOk(t: Timing, a: Actor, c: Capture) {
    MutexOk(t, a, c) && TimerOk(t, a, c) && CancelOk(t, a, c)
  }

  /** Nothing is left over from any capture. */
  ghost predicate TimingClear(t: Timing) {
    t.timer.NoTimer? && t.mutex == None && forall b :: ByTimer(b) !in t.cancel
  }

  /** What holds while `a` is capturing. */
  ghost predicate BusyOk(w: World, a: Actor, c: Capture) {
    && w.captures == map[a := c] && w.inProgress
    && (a.Thread? || a.Sampler?) && (a.Sampler? <==> w.sampler.SCapture?) && (a.Thread? ==> !SamplerHolds(w))
    && (!c.stage.Walking? ==> w.gil == Some(a))
    && TimingOk(w.timing, a, c)
    && w.writing == (if Writes(c.stage) then Some(a) else None)
  }

  /** What holds while nobody is. */
  ghost predicate IdleOk(w: World) {
    && w.captures == map[] && (w.inProgress <==> SamplerHolds(w)) && !w.sampler.SCapture?
    && TimingClear(w.timing) && w.writing == None
  }

  ghost predicate CapturesOk(w: World) {
    if w.captures == map[] then IdleOk(w) else exists a :: a in w.captures && BusyOk(w, a, w.captures[a])
  }

  predicate GilOk(w: World) {
    && (w.sampler.SRelease? || w.sampler.SUnlockGil? ==> w.gil == Some(Sampler))
    && (w.gil == Some(Sampler) ==> w.sampler.SCapture? || w.sampler.SRelease? || w.sampler.SUnlockGil?)
    && (w.controller.EnLock? || w.controller.EnHeld? || w.controller.DiFree? ==> w.gil == Some(Controller))
    && (w.gil == Some(Controller) ==>
        w.controller.CIdle? || w.controller.EnLock? || w.controller.EnHeld? || w.controller.DiFree?)
    && w.gil != Some(Timer)
  }

  predicate Disabling(c: ControllerPc) {
    c.DiNotify? || c.DiJoin? || c.DiReset?
  }

  predicate Disabled(c: ControllerPc) {
    c.DiLock2? || c.DiHeld2?
  }

  /** The sampling thread exists while sampling is active, and no signal to stop it is lost. */
  predicate SamplingOk(w: World) {
    && (w.samplingMutex == Some(Sampler) <==> w.sampler.SHeld?)
    && (w.samplingMutex == Some(Controller) <==> w.controller.EnHeld? || w.controller.DiHeld? || w.controller.DiHeld2?)
    && (w.samplingMutex.Some? ==> w.samplingMutex == Some(Sampler) || w.samplingMutex == Some(Controller))
    && (w.sampler.SNone? <==> !w.active || Disabled(w.controller))
    && (Disabling(w.controller) ==> w.active && w.samplingStop)
    && (Disabled(w.controller) ==> w.active)
    && (w.active && w.samplingStop ==> Disabling(w.controller) || Disabled(w.controller))
    && (w.controller.DiJoin? ==> !w.sampler.SSleeping?)
    && (w.controller.DiReset? ==> w.sampler.SExited?)
    && (w.sampler.SExited? ==> Disabling(w.controller))
    && (w.controller.DiGil? ==> !w.active)
  }

  ghost predicate Inv(w: World) {
    CapturesOk(w) && GilOk(w) && SamplingOk(w)
  }

  lemma InvStarts()
    ensures Inv(Quiet)
  {
  }

  lemma Busy(w: World, a: Actor)
    requires CapturesOk(w) && a in w.captures
    ensures BusyOk(w, a, w.captures[a])
  {
    hide TimingOk;
  }

  lemma IsBusy(w: World, a: Actor, c: Capture)
    requires BusyOk(w, a, c)
    ensures CapturesOk(w)
  {
    hide TimingOk;
    assert a in w.captures;
  }

  lemma IsIdle(w: World)
    requires IdleOk(w)
    ensures CapturesOk(w)
  {
  }

  // ------------------------------------------------------------------
  // Every move keeps it
  // ------------------------------------------------------------------

  // One step of the capture under way

  predicate MayProceed(t: Timing, stage: Stage) {
    match stage
    case TimerLock => t.mutex.None?
    case StopLock => t.mutex.None?
    case Join => t.timer.Running? && t.timer.pc.TDone?
    case Release => false
    case _ => true
  }

  lemma StageKeepsMutex(t: Timing, a: Actor, c: Capture, walk: nat)
    requires a != Timer && TimingOk(t, a, c) && MayProceed(t, c.stage)
    ensures MutexOk(NextTiming(t, a, c), a, c.(stage := NextStage(t, c, walk)))
  {
    hide CancelOk;
  }

  lemma StageKeepsTimer(t: Timing, a: Actor, c: Capture, walk: nat)
    requires a != Timer && TimingOk(t, a, c) && MayProceed(t, c.stage)
    ensures TimerOk(NextTiming(t, a, c), a, c.(stage := NextStage(t, c, walk)))
  {
    hide CancelOk, MutexOk;
  }

  lemma StageKeepsCancel(t: Timing, a: Actor, c: Capture, walk: nat)
    requires a != Timer && TimingOk(t, a, c) && MayProceed(t, c.stage)
    ensures CancelOk(NextTiming(t, a, c), a, c.(stage := NextStage(t, c, walk)))
  {
    hide MutexOk;
  }

  lemma StageWrites(t: Timing, c: Capture, walk: nat)
    requires MayProceed(t, c.stage)
    ensures
      var stage := NextStage(t, c, walk);
      (Writes(stage) <==> if c.stage.Begin? then true else if c.stage.End? then false else Writes(c.stage))
  {
  }

  lemma StageKeepsBusy(w: World, a: Actor, walk: nat)
    requires CaptureEnabled(w, a) && BusyOk(w, a, w.captures[a]) && !w.captures[a].stage.Release?
    ensures CapturesOk(AfterCapture(w, a, walk))
  {
    hide MutexOk, TimerOk, CancelOk, NextStage, NextTiming, CapturesOk;
    var c, w' := w.captures[a], AfterCapture(w, a, walk);
    assert MayProceed(w.timing, c.stage);
    StageKeepsMutex(w.timing, a, c, walk);
    StageKeepsTimer(w.timing, a, c, walk);
    StageKeepsCancel(w.timing, a, c, walk);
    StageWrites(w.timing, c, walk);
    assert w'.captures == map[a := w'.captures[a]];
    IsBusy(w', a, w'.captures[a]);
  }

  lemma ReleaseLeavesIdle(w: World, a: Actor, walk: nat)
    requires CaptureEnabled(w, a) && BusyOk(w, a, w.captures[a]) && w.captures[a].stage.Release?
    ensures IdleOk(AfterCapture(w, a, walk))
  {
    assert AfterCapture(w, a, walk).captures == map[];
  }

  lemma CaptureLeavesRest(w: World, a: Actor, walk: nat)
    requires CaptureEnabled(w, a) && (a.Sampler? <==> w.sampler.SCapture?) && GilOk(w) && SamplingOk(w)
    ensures GilOk(AfterCapture(w, a, walk)) && SamplingOk(AfterCapture(w, a, walk))
  {
    hide NextStage, NextTiming;
  }

  lemma CaptureKeeps(w: World, a: Actor, walk: nat)
    requires Inv(w) && CaptureEnabled(w, a)
    ensures Inv(AfterCapture(w, a, walk))
  {
    hide IdleOk, GilOk, SamplingOk, AfterCapture, CapturesOk, TimingOk;
    Busy(w, a);
    CaptureLeavesRest(w, a, walk);
    if w.captures[a].stage.Release? {
      ReleaseLeavesIdle(w, a, walk);
      IsIdle(AfterCapture(w, a, walk));
    } else {
      StageKeepsBusy(w, a, walk);
    }
  }

  // The timeout thread

  lemma TimerKeepsTiming(t: Timing, a: Actor, c: Capture)
    requires TimerEnabled(t) && a != Timer && TimingOk(t, a, c)
    ensures TimingOk(AfterTimer(t), a, c)
  {
  }

  lemma WakeKeepsTiming(t: Timing, a: Actor, c: Capture, timedOut: bool)
    requires t.timer.Running? && t.timer.pc.TWaiting? && TimingOk(t, a, c)
    ensures TimingOk(t.(timer := t.timer.(pc := TWoken(timedOut))), a, c)
  {
  }

  lemma TimingKeeps(w: World, t: Timing, a: Actor)
    requires Inv(w) && a in w.captures && TimingOk(t, a, w.captures[a])
    ensures Inv(w.(timing := t))
  {
    hide TimingOk, GilOk, SamplingOk;
    Busy(w, a);
    IsBusy(w.(timing := t), a, w.captures[a]);
    RestFrame(w, w.(timing := t));
  }

  lemma RestFrame(w: World, w': World)
    requires w'.gil == w.gil && w'.sampler == w.sampler && w'.controller == w.controller
    requires w'.samplingMutex == w.samplingMutex && w'.samplingStop == w.samplingStop && w'.active == w.active
    ensures GilOk(w) ==> GilOk(w')
    ensures SamplingOk(w) ==> SamplingOk(w')
  {
  }

  lemma TimerHasCapture(w: World) returns (a: Actor)
    requires CapturesOk(w) && w.timing.timer.Running?
    ensures a in w.captures && BusyOk(w, a, w.captures[a])
  {
    a :| a in w.captures && BusyOk(w, a, w.captures[a]);
  }

  lemma TimerKeeps(w: World, m: Move)
    requires Inv(w) && Enabled(w, m) && (m.TimerStep? || m.TimerWake?)
    ensures Inv(After(w, m))
  {
    hide GilOk, SamplingOk, CapturesOk, TimingOk, AfterTimer;
    var a := TimerHasCapture(w);
    if m.TimerStep? {
      TimerKeepsTiming(w.timing, a, w.captures[a]);
    } else {
      WakeKeepsTiming(w.timing, a, w.captures[a], m.timedOut);
    }
    TimingKeeps(w, After(w, m).timing, a);
  }

  // The sampling thread

  /** Moves that leave the capture under way, its timer and its writer alone. */
  lemma CapturesFrame(w: World, w': World)
    requires CapturesOk(w)
    requires w'.captures == w.captures && w'.timing == w.timing && w'.writing == w.writing
    requires w'.sampler.SCapture? <==> w.sampler.SCapture?
    requires if w.captures == map[] then w'.inProgress <==> SamplerHolds(w')
             else w'.inProgress == w.inProgress && (SamplerHolds(w') ==> SamplerHolds(w))
    requires forall a :: a in w.captures && !w.captures[a].stage.Walking? ==> w'.gil == w.gil
    ensures CapturesOk(w')
  {
    hide TimingOk, TimingClear;
    if w.captures != map[] {
      var a :| a in w.captures && BusyOk(w, a, w.captures[a]);
      IsBusy(w', a, w.captures[a]);
    }
  }

  lemma Joins(w: World, w': World, a: Actor, c: Capture)
    requires IdleOk(w) && c.stage.Claimed? && w'.captures == map[a := c] && w'.inProgress && w'.gil == Some(a)
    requires (a.Thread? || a.Sampler?) && (a.Sampler? <==> w'.sampler.SCapture?) && (a.Thread? ==> !SamplerHolds(w'))
    requires w'.timing == w.timing && w'.writing == w.writing
    ensures CapturesOk(w')
  {
    IsBusy(w', a, c);
  }

  /** What the threads that are not capturing know about the one that is. */
  lemma WhoIsCapturing(w: World)
    requires CapturesOk(w)
    ensures forall a :: a in w.captures ==>
      && w.captures == map[a := w.captures[a]] && w.inProgress && (a.Thread? || a.Sampler?)
      && (a.Sampler? <==> w.sampler.SCapture?) && (a.Thread? ==> !SamplerHolds(w))
      && (!w.captures[a].stage.Walking? ==> w.gil == Some(a))
    ensures w.captures == map[] ==> IdleOk(w)
    ensures SamplerHolds(w) && !w.sampler.SCapture? ==> IdleOk(w)
    ensures !w.inProgress ==> IdleOk(w)
  {
    hide TimingOk, TimingClear;
  }

  lemma SamplerStarts(w: World, timed: bool, clearsFirst: bool)
    requires CapturesOk(w) && SamplerEnabled(w) && w.sampler.SWantGil?
    ensures CapturesOk(AfterSampler(w, timed, clearsFirst, true))
  {
    hide BusyOk, CapturesOk;
    WhoIsCapturing(w);
    var w' := AfterSampler(w, timed, clearsFirst, true);
    assert w'.captures == map[Sampler := Capture(Claimed, timed, clearsFirst, timed)];
    Joins(w, w', Sampler, w'.captures[Sampler]);
  }

  /** What is left alone by moves that are not part of a capture. */
  predicate CapturesUntouched(w: World, w': World) {
    && w'.captures == w.captures && w'.timing == w.timing && w'.writing == w.writing
    && (w'.sampler.SCapture? <==> w.sampler.SCapture?)
  }

  lemma SamplerLeavesTiming(w: World, timed: bool, clearsFirst: bool, found: bool)
    requires SamplerEnabled(w)
    ensures AfterSampler(w, timed, clearsFirst, found).timing == w.timing
  {
  }

  lemma SamplerTouches(w: World, timed: bool, clearsFirst: bool, found: bool)
    requires SamplerEnabled(w) && !(w.sampler.SWantGil? && found)
    ensures CapturesUntouched(w, AfterSampler(w, timed, clearsFirst, found)) && !w.sampler.SCapture?
  {
    SamplerLeavesTiming(w, timed, clearsFirst, found);
  }

  /** The sampling thread raises the flag when it finds it down, and takes it down only if it raised it. */
  lemma SamplerFlag(w: World, timed: bool, clearsFirst: bool, found: bool)
    requires SamplerEnabled(w) && !(w.sampler.SWantGil? && found)
    ensures
      var w' := AfterSampler(w, timed, clearsFirst, found);
      && (w'.inProgress == w.inProgress || w.sampler.SClaim? || SamplerHolds(w))
      && ((w.inProgress <==> SamplerHolds(w)) ==> (w'.inProgress <==> SamplerHolds(w')))
      && (SamplerHolds(w') ==> SamplerHolds(w) || !w.inProgress)
      && (w.sampler.SClaim? && w.inProgress ==> w'.inProgress)
      && (w'.gil == w.gil || w.gil == None || w.gil == Some(Sampler) || w.sampler.SUnlockGil?)
  {
  }

  lemma SamplerKeepsCaptures(w: World, timed: bool, clearsFirst: bool, found: bool)
    requires CapturesOk(w) && GilOk(w) && SamplerEnabled(w) && !(w.sampler.SWantGil? && found)
    ensures CapturesOk(AfterSampler(w, timed, clearsFirst, found))
  {
    hide BusyOk, CapturesOk, AfterSampler;
    WhoIsCapturing(w);
    SamplerTouches(w, timed, clearsFirst, found);
    SamplerFlag(w, timed, clearsFirst, found);
    CapturesFrame(w, AfterSampler(w, timed, clearsFirst, found));
  }

  lemma SamplerKeepsRest(w: World, timed: bool, clearsFirst: bool, found: bool)
    requires GilOk(w) && SamplingOk(w) && SamplerEnabled(w)
    ensures GilOk(AfterSampler(w, timed, clearsFirst, found)) && SamplingOk(AfterSampler(w, timed, clearsFirst, found))
  {
  }

  lemma SamplerKeeps(w: World, timed: bool, clearsFirst: bool, found: bool)
    requires Inv(w) && SamplerEnabled(w)
    ensures Inv(AfterSampler(w, timed, clearsFirst, found))
  {
    hide CapturesOk, GilOk, SamplingOk, AfterSampler;
    SamplerKeepsRest(w, timed, clearsFirst, found);
    if w.sampler.SWantGil? && found {
      SamplerStarts(w, timed, clearsFirst);
    } else {
      SamplerKeepsCaptures(w, timed, clearsFirst, found);
    }
  }

  // The controlling thread

  lemma ControllerKeeps(w: World)
    requires Inv(w) && ControllerEnabled(w)
    ensures Inv(AfterController(w))
  {
    hide CapturesOk, GilOk, SamplingOk, AfterController, BusyOk;
    ControllerKeepsCaptures(w);
    ControllerKeepsRest(w);
  }

  lemma ControllerTouches(w: World)
    requires SamplingOk(w) && ControllerEnabled(w)
    ensures
      var w' := AfterController(w);
      CapturesUntouched(w, w') && w'.inProgress == w.inProgress && (SamplerHolds(w') <==> SamplerHolds(w))
  {
  }

  lemma ControllerGil(w: World)
    requires GilOk(w) && ControllerEnabled(w)
    ensures AfterController(w).gil == w.gil || w.gil == None || w.gil == Some(Controller)
  {
  }

  lemma ControllerKeepsCaptures(w: World)
    requires CapturesOk(w) && GilOk(w) && SamplingOk(w) && ControllerEnabled(w)
    ensures CapturesOk(AfterController(w))
  {
    hide BusyOk, CapturesOk, AfterController;
    WhoIsCapturing(w);
    ControllerTouches(w);
    ControllerGil(w);
    CapturesFrame(w, AfterController(w));
  }

  lemma ControllerKeepsRest(w: World)
    requires GilOk(w) && SamplingOk(w) && ControllerEnabled(w)
    ensures GilOk(AfterController(w)) && SamplingOk(AfterController(w))
  {
  }

  // Calls, wake-ups and the GIL

  lemma ClaimKeeps(w: World, m: Move)
    requires Inv(w) && Enabled(w, m) && m.Claim?
    ensures Inv(After(w, m))
  {
    hide BusyOk, CapturesOk;
    WhoIsCapturing(w);
    if !w.inProgress {
      var w', a := After(w, m), Thread(m.thread);
      assert w'.captures == map[a := w'.captures[a]];
      Joins(w, w', a, w'.captures[a]);
    }
    RestFrame(w, After(w, m));
  }

  lemma GilMoveKeeps(w: World, m: Move)
    requires Inv(w) && Enabled(w, m) && (m.TakeGil? || m.YieldGil?)
    ensures Inv(After(w, m))
  {
    hide BusyOk, CapturesOk;
    WhoIsCapturing(w);
    CapturesFrame(w, After(w, m));
  }

  lemma OthersKeep(w: World, m: Move)
    requires Inv(w) && Enabled(w, m) && (m.SamplerWake? || m.Enable? || m.Disable?)
    ensures Inv(After(w, m))
  {
    hide BusyOk, CapturesOk;
    WhoIsCapturing(w);
    CapturesFrame(w, After(w, m));
  }

  lemma CancelKeeps(w: World)
    requires Inv(w)
    ensures Inv(After(w, RequestCancel))
  {
    hide GilOk, SamplingOk;
    var w' := After(w, RequestCancel);
    if w.captures != map[] {
      var a :| a in w.captures && BusyOk(w, a, w.captures[a]);
      IsBusy(w', a, w.captures[a]);
    }
    RestFrame(w, w');
  }

  lemma MoveKeeps(w: World, m: Move)
    requires Inv(w) && Enabled(w, m)
    ensures Inv(After(w, m))
  {
    hide Inv, AfterCapture, AfterTimer, AfterSampler, AfterController, CaptureEnabled, SamplerEnabled,
         ControllerEnabled;
    match m {
      case CaptureStep(a, walk) => CaptureKeeps(w, a, walk);
      case TimerStep => TimerKeeps(w, m);
      case SamplerStep(timed, clearsFirst, found) => SamplerKeeps(w, timed, clearsFirst, found);
      case ControllerStep => ControllerKeeps(w);
      case Claim(_, _, _, _) => ClaimKeeps(w, m);
      case TimerWake(_) => TimerKeeps(w, m);
      case TakeGil(_) => GilMoveKeeps(w, m);
      case YieldGil(_) => GilMoveKeeps(w, m);
      case RequestCancel => CancelKeeps(w);
      case _ => OthersKeep(w, m);
    }
  }

  // ------------------------------------------------------------------
  // Safety
  // ------------------------------------------------------------------

  ghost predicate CanRun(w: World, moves: seq<Move>)
    decreases |moves|
  {
    moves == [] || (Enabled(w, moves[0]) && CanRun(After(w, moves[0]), moves[1..]))
  }

  ghost function RunFrom(w: World, moves: seq<Move>): World
    requires CanRun(w, moves)
    decreases |moves|
  {
    if moves == [] then w else RunFrom(After(w, moves[0]), moves[1..])
  }

  lemma {:induction false} RunKeeps(w: World, moves: seq<Move>)
    requires Inv(w) && CanRun(w, moves)
    ensures Inv(RunFrom(w, moves))
    decreases |moves|
  {
    hide Inv, Enabled, After;
    if moves != [] {
      MoveKeeps(w, moves[0]);
      RunKeeps(After(w, moves[0]), moves[1..]);
    }
  }

  /**
   * In every interleaving at most one actor is between claiming and releasing the flag, the flag is up
   * while it is, and nobody else has a snapshot open in the writer.
   */
  lemma MutualExclusion(moves: seq<Move>)
    requires CanRun(Quiet, moves)
    ensures
      var w := RunFrom(Quiet, moves);
      && (forall a, b :: a in w.captures && b in w.captures ==> a == b)
      && (forall a :: a in w.captures ==> w.inProgress && (w.writing == None || w.writing == Some(a)))
      && (w.writing.Some? ==> w.writing.value in w.captures)
  {
    hide Enabled, After, MutexOk, TimerOk, CancelOk;
    InvStarts();
    RunKeeps(Quiet, moves);
  }

  /** While the flag is down there is no timer, no cancel that a timer asked for, and no open snapshot. */
  lemma CleanStart(moves: seq<Move>)
    requires CanRun(Quiet, moves) && !RunFrom(Quiet, moves).inProgress
    ensures
      var w := RunFrom(Quiet, moves);
      w.timing.timer.NoTimer? && w.timing.mutex == None && w.writing == None && forall b ::
        ByTimer(b) !in w.timing.cancel
  {
    hide Enabled, After, MutexOk, TimerOk, CancelOk;
    InvStarts();
    RunKeeps(Quiet, moves);
  }

  /** When a timer fires, the capture it was started for is still under way, and that capture asked for it. */
  lemma TimerCutsOnlyItsOwn(moves: seq<Move>)
    requires CanRun(Quiet, moves)
    ensures
      var w := RunFrom(Quiet, moves);
      && (w.timing.timer.Running? && w.timing.timer.pc.TFire? ==>
            w.timing.timer.owner in w.captures && w.captures[w.timing.timer.owner].timed)
      && (forall a :: ByTimer(a) in w.timing.cancel ==> a in w.captures && w.captures[a].timed)
  {
    hide Enabled, After, MutexOk, BusyOk;
    InvStarts();
    RunKeeps(Quiet, moves);
    var w := RunFrom(Quiet, moves);
    if w.captures != map[] {
      var a :| a in w.captures && BusyOk(w, a, w.captures[a]);
      TimingOf(w, a);
    }
  }

  lemma TimingOf(w: World, a: Actor)
    requires a in w.captures && BusyOk(w, a, w.captures[a])
    ensures w.timing.timer.Running? ==> w.timing.timer.owner == a && w.captures[a].timed
    ensures forall b :: ByTimer(b) in w.timing.cancel ==> b == a && w.captures[a].timed
  {
  }

  predicate SamplingOff(w: World) {
    !w.active && !w.controller.EnLock? && !w.controller.EnHeld?
  }

  /** disableSampling returns with the sampling thread joined. */
  lemma DisableReturns(w: World)
    requires Inv(w) && w.controller.DiGil? && ControllerEnabled(w)
    ensures AfterController(w).controller.CIdle? && SamplingOff(AfterController(w)) && AfterController(w).sampler.SNone?
  {
    hide CapturesOk, GilOk;
  }

  lemma CaptureLeavesSampling(w: World, a: Actor, walk: nat)
    requires CaptureEnabled(w, a)
    ensures AfterCapture(w, a, walk).active == w.active && AfterCapture(w, a, walk).controller == w.controller
  {
    hide NextStage, NextTiming;
  }

  lemma SamplerIdle(w: World, m: Move)
    requires Inv(w) && SamplingOff(w) && Enabled(w, m) && !m.Enable?
    ensures !m.SamplerStep? && !m.SamplerWake? && !(m.CaptureStep? && m.who == Sampler)
    ensures SamplingOff(After(w, m))
  {
    hide AfterCapture, BusyOk;
    WhoIsCapturing(w);
    if m.CaptureStep? {
      CaptureLeavesSampling(w, m.who, m.walk);
    }
  }

  /** From then on, until sampling is enabled again, the sampling thread takes no step, whatever else happens. */
  lemma {:induction false} NoSampleAfterDisable(w: World, moves: seq<Move>)
    requires Inv(w) && SamplingOff(w)
    requires CanRun(w, moves) && forall i :: 0 <= i < |moves| ==> !moves[i].Enable?
    ensures forall i :: 0 <= i < |moves| ==>
      !moves[i].SamplerStep? && !moves[i].SamplerWake? && !(moves[i].CaptureStep? && moves[i].who == Sampler)
    decreases |moves|
  {
    hide Inv, Enabled, After;
    if moves != [] {
      SamplerIdle(w, moves[0]);
      MoveKeeps(w, moves[0]);
      NoSampleAfterDisable(After(w, moves[0]), moves[1..]);
    }
  }

  // ------------------------------------------------------------------
  // Progress
  // ------------------------------------------------------------------

  /** Something is under way: a capture, a call of the controller, or a tick of the sampling thread. */
  predicate UnderWay(w: World) {
    w.captures != map[] || !w.controller.CIdle? || !(w.sampler.SNone? || w.sampler.SSleeping?)
  }

  /**
   * The moves that carry on with what is under way. Time-outs and spurious wake-ups do not count, nor
   * do new calls; a thread that is not capturing may be made to hand over the GIL, and a capture that
   * lost it may take it back.
   */
  predicate Progress(w: World, m: Move) {
    match m
    case CaptureStep(_, _) => true
    case TimerStep => true
    case SamplerStep(_, _, _) => true
    case ControllerStep => true
    case TakeGil(a) => a in w.captures
    case YieldGil(a) => a !in w.captures
    case _ => false
  }

  predicate CanProgress(w: World, m: Move) {
    Progress(w, m) && Enabled(w, m)
  }

  /** The one who holds the GIL can go on, or waits for a thread that can. */
  lemma CaptureProceeds(w: World, a: Actor) returns (m: Move)
    requires a in w.captures && BusyOk(w, a, w.captures[a]) && w.gil == Some(a)
    ensures CanProgress(w, m)
  {
    m := if CaptureEnabled(w, a) then CaptureStep(a, 0) else TimerStep;
  }

  lemma SamplerProceeds(w: World) returns (m: Move)
    requires SamplingOk(w) && !w.sampler.SNone? && !w.sampler.SSleeping? && !w.sampler.SCapture? && !w.sampler.SExited?
    requires w.sampler.SWantGil? ==> w.gil == None
    ensures CanProgress(w, m)
  {
    m := if SamplerEnabled(w) then SamplerStep(false, false, false) else ControllerStep;
  }

  lemma ControllerProceeds(w: World) returns (m: Move)
    requires SamplingOk(w) && GilOk(w) && !w.controller.CIdle? && (w.controller.DiGil? ==> w.gil == None)
    requires w.controller.DiJoin? ==> w.sampler.SExited?
    ensures CanProgress(w, m)
  {
    m := if ControllerEnabled(w) then ControllerStep else SamplerStep(false, false, false);
  }

  /**
   * No reachable state is a deadlock: while anything is under way, some thread can carry on, and not
   * because a time-out saves it.
   */
  lemma NoDeadlock(w: World) returns (m: Move)
    requires Inv(w) && UnderWay(w)
    ensures CanProgress(w, m)
  {
    hide CapturesOk, BusyOk, MutexOk, TimerOk, CancelOk, CaptureEnabled, TimerEnabled;
    WhoIsCapturing(w);
    if w.gil.Some? && w.gil.value !in w.captures {
      m := HolderProceeds(w);
    } else if w.captures != map[] {
      var a :| a in w.captures;
      if w.gil == Some(a) {
        Busy(w, a);
        m := CaptureProceeds(w, a);
      } else {
        m := TakeGil(a);
      }
    } else if !(w.sampler.SNone? || w.sampler.SSleeping? || w.sampler.SExited?) {
      m := SamplerProceeds(w);
    } else {
      m := ControllerProceeds(w);
    }
  }

  lemma HolderProceeds(w: World) returns (m: Move)
    requires GilOk(w) && SamplingOk(w) && w.gil.Some? && w.gil.value !in w.captures
    requires w.sampler.SCapture? ==> Sampler in w.captures
    ensures CanProgress(w, m)
  {
    match w.gil.value {
      case Thread(t) => m := YieldGil(Thread(t));
      case Sampler => m := SamplerStep(false, false, false);
      case Controller =>
        m := YieldGil(Controller);
        if !w.controller.CIdle? {
          m := ControllerProceeds(w);
        }
    }
  }

  // How much is left to do, so that it cannot go on for ever

  function StageRank(stage: Stage): nat {
    match stage
    case Claimed => 13
    case TimerLock => 12
    case TimerStart => 11
    case Begin => 10
    case Walking(_) => 9
    case End => 8
    case StopLock => 7
    case StopHeld => 6
    case Notify => 5
    case Join => 4
    case Reset => 3
    case Clear => 2
    case Release => 1
  }

  function TimerRank(t: TimerState): nat {
    if t.NoTimer? then 0
    else match t.pc {
      case TStart => 3
      case TWoken(_) => 3
      case THeld(_) => 2
      case TFire => 1
      case TWaiting => 0
      case TDone => 0
    }
  }

  function SamplerRank(pc: SamplerPc): nat {
    match pc
    case SWoken(_) => 11
    case SHeld(timedOut) => if timedOut then 10 else 1
    case SRecheck => 9
    case SClaim => 8
    case SClaimed => 7
    case SWantGil => 6
    case SCapture => 5
    case SRelease => 4
    case SUnlockGil => 3
    case SLock => 2
    case _ => 0
  }

  function ControllerRank(pc: ControllerPc): nat {
    match pc
    case DiFree => 9
    case DiLock => 8
    case DiHeld => 7
    case DiNotify => 6
    case DiJoin => 5
    case DiReset => 4
    case DiLock2 => 3
    case DiHeld2 => 2
    case DiGil => 1
    case EnLock => 2
    case EnHeld => 1
    case CIdle => 0
  }

  function GilRank(w: World): nat {
    if w.gil.None? then 1 else if w.gil.value in w.captures || w.gil.value.Sampler? then 0 else 2
  }

  ghost function CaptureRank(captures: map<Actor, Capture>): nat {
    if captures == map[] then 0 else var a :| a in captures; StageRank(captures[a].stage)
  }

  ghost function WalkLeft(captures: map<Actor, Capture>): nat {
    if captures == map[] then 0 else var a :| a in captures; StageLeft(captures[a].stage)
  }

  function StageLeft(stage: Stage): nat {
    if stage.Walking? then stage.left else 0
  }

  ghost function Rank(w: World): nat {
    4096 * ControllerRank(w.controller) + 256 * SamplerRank(w.sampler) + 16 * CaptureRank(w.captures)
      + TimerRank(w.timing.timer) + GilRank(w)
  }

  /** The world is nearer to rest. */
  ghost predicate Nearer(w: World, w': World) {
    Rank(w') < Rank(w) || (Rank(w') == Rank(w) && WalkLeft(w'.captures) < WalkLeft(w.captures))
  }

  lemma RankOfCapture(captures: map<Actor, Capture>, a: Actor, c: Capture)
    requires captures == map[a := c]
    ensures CaptureRank(captures) == StageRank(c.stage) && WalkLeft(captures) == StageLeft(c.stage)
  {
    assert a in captures && forall b :: b in captures ==> b == a;
  }

  /** A capture gets on: to a later stage, or with the walk. */
  predicate GetsOn(stage: Stage, stage': Stage) {
    StageRank(stage') < StageRank(stage) || (stage.Walking? && stage'.Walking? && stage'.left < stage.left)
  }

  lemma CaptureGetsOn(t: Timing, c: Capture, walk: nat)
    requires MayProceed(t, c.stage)
    ensures GetsOn(c.stage, NextStage(t, c, walk))
  {
  }

  lemma CaptureTimerRank(t: Timing, a: Actor, c: Capture)
    ensures TimerRank(NextTiming(t, a, c).timer) <= TimerRank(t.timer) + 3
    ensures c.stage.Walking? ==> NextTiming(t, a, c) == t
  {
  }

  /** A capture getting on outweighs the timer it may start or wake. */
  lemma CaptureDescends(w: World, a: Actor, walk: nat)
    requires CaptureEnabled(w, a) && w.captures == map[a := w.captures[a]] && !w.captures[a].stage.Release?
    ensures Nearer(w, AfterCapture(w, a, walk))
  {
    hide CaptureRank, WalkLeft, SamplerRank, ControllerRank, TimerRank, NextStage, NextTiming;
    var c, w' := w.captures[a], AfterCapture(w, a, walk);
    assert MayProceed(w.timing, c.stage);
    CaptureGetsOn(w.timing, c, walk);
    CaptureTimerRank(w.timing, a, c);
    assert w'.captures == map[a := w'.captures[a]];
    RankOfCapture(w.captures, a, c);
    RankOfCapture(w'.captures, a, w'.captures[a]);
  }

  lemma ReleaseDescends(w: World, a: Actor, walk: nat)
    requires CaptureEnabled(w, a) && BusyOk(w, a, w.captures[a]) && w.captures[a].stage.Release?
    ensures Nearer(w, AfterCapture(w, a, walk))
  {
    hide TimingOk, WalkLeft, ControllerRank, TimerRank, NextStage, NextTiming;
    RankOfCapture(w.captures, a, w.captures[a]);
    assert AfterCapture(w, a, walk).captures == map[];
  }

  lemma TimerGetsOn(t: Timing)
    requires TimerEnabled(t)
    ensures TimerRank(AfterTimer(t).timer) < TimerRank(t.timer)
  {
  }

  lemma TimerDescends(w: World)
    requires TimerEnabled(w.timing)
    ensures Nearer(w, After(w, TimerStep))
  {
    hide WalkLeft, CaptureRank, SamplerRank, ControllerRank, TimerRank, AfterTimer;
    TimerGetsOn(w.timing);
  }

  lemma SamplerGetsOn(w: World, timed: bool, clearsFirst: bool, found: bool)
    requires SamplerEnabled(w)
    ensures
      var w' := AfterSampler(w, timed, clearsFirst, found);
      SamplerRank(w'.sampler) < SamplerRank(w.sampler) && w'.controller == w.controller
  {
  }

  lemma SamplerDescends(w: World, timed: bool, clearsFirst: bool, found: bool)
    requires SamplerEnabled(w) && CapturesOk(w)
    ensures Nearer(w, AfterSampler(w, timed, clearsFirst, found))
  {
    hide WalkLeft, CaptureRank, CapturesOk, BusyOk, TimerRank, ControllerRank, SamplerRank, AfterSampler;
    SamplerGetsOn(w, timed, clearsFirst, found);
    SamplerLeavesTiming(w, timed, clearsFirst, found);
    if w.sampler.SWantGil? && found {
      StartedRank(w, timed, clearsFirst);
    } else {
      SamplerTouches(w, timed, clearsFirst, found);
    }
  }

  lemma StartedRank(w: World, timed: bool, clearsFirst: bool)
    requires SamplerEnabled(w) && w.sampler.SWantGil? && CapturesOk(w)
    ensures CaptureRank(AfterSampler(w, timed, clearsFirst, true).captures) == 13
  {
    hide CapturesOk, BusyOk, CaptureRank;
    WhoIsCapturing(w);
    var w' := AfterSampler(w, timed, clearsFirst, true);
    assert w'.captures == map[Sampler := Capture(Claimed, timed, clearsFirst, timed)];
    RankOfCapture(w'.captures, Sampler, w'.captures[Sampler]);
  }

  lemma ControllerGetsOn(w: World)
    requires ControllerEnabled(w)
    ensures
      var w' := AfterController(w);
      ControllerRank(w'.controller) < ControllerRank(w.controller) && w'.captures == w.captures && w'.timing == w.timing
  {
    hide SamplerRank, CaptureRank, ControllerRank;
    ControllerRankFalls(w);
  }

  lemma ControllerRankFalls(w: World)
    requires ControllerEnabled(w)
    ensures ControllerRank(AfterController(w).controller) < ControllerRank(w.controller)
  {
    var w' := AfterController(w);
    match w.controller {
      case EnLock => assert w'.controller == EnHeld;
      case EnHeld => assert w'.controller == CIdle;
      case DiFree => assert w'.controller == DiLock;
      case DiLock => assert w'.controller == DiHeld;
      case DiHeld => assert w'.controller in {DiNotify, DiGil};
      case DiNotify => assert w'.controller == DiJoin;
      case DiJoin => assert w'.controller == DiReset;
      case DiReset => assert w'.controller == DiLock2;
      case DiLock2 => assert w'.controller == DiHeld2;
      case DiHeld2 => assert w'.controller == DiGil;
      case DiGil => assert w'.controller == CIdle;
    }
  }

  lemma ControllerDescends(w: World)
    requires ControllerEnabled(w)
    ensures Nearer(w, AfterController(w))
  {
    hide WalkLeft, CaptureRank, TimerRank, ControllerRank, AfterController, SamplerRank;
    ControllerGetsOn(w);
    SamplerRankBound(AfterController(w).sampler);
  }

  lemma SamplerRankBound(pc: SamplerPc)
    ensures SamplerRank(pc) <= 11
  {
  }

  /** Every move that carries on brings the world nearer to rest. */
  lemma ProgressDescends(w: World, m: Move)
    requires Inv(w) && CanProgress(w, m)
    ensures Nearer(w, After(w, m))
  {
    hide CapturesOk, BusyOk, GilOk, SamplingOk, AfterCapture, AfterTimer, AfterSampler, AfterController, Nearer;
    match m {
      case CaptureStep(a, walk) =>
        Busy(w, a);
        WhoIsCapturing(w);
        if w.captures[a].stage.Release? {
          ReleaseDescends(w, a, walk);
        } else {
          CaptureDescends(w, a, walk);
        }
      case TimerStep => TimerDescends(w);
      case SamplerStep(timed, clearsFirst, found) => SamplerDescends(w, timed, clearsFirst, found);
      case ControllerStep => ControllerDescends(w);
      case _ => GilDescends(w, m);
    }
  }

  lemma GilDescends(w: World, m: Move)
    requires Inv(w) && CanProgress(w, m) && (m.TakeGil? || m.YieldGil?)
    ensures Nearer(w, After(w, m))
  {
    hide WalkLeft, CaptureRank, CapturesOk, SamplingOk, SamplerRank, ControllerRank, TimerRank;
  }

  /** Only moves that carry on. */
  ghost predicate OnlyProgress(w: World, moves: seq<Move>)
    requires CanRun(w, moves)
    decreases |moves|
  {
    moves == [] || (Progress(w, moves[0]) && OnlyProgress(After(w, moves[0]), moves[1..]))
  }

  /**
   * From every reachable state there is a way to rest: every capture has returned, every call of the
   * controller has, and the sampling thread sleeps or is gone. No time-out is needed for it.
   */
  lemma {:induction false} ComesToRest(w: World) returns (moves: seq<Move>)
    requires Inv(w)
    ensures CanRun(w, moves) && OnlyProgress(w, moves) && !UnderWay(RunFrom(w, moves))
    decreases Rank(w), WalkLeft(w.captures)
  {
    hide Inv, Enabled, After, Progress, UnderWay, Rank, WalkLeft;
    if UnderWay(w) {
      var m := NoDeadlock(w);
      ProgressDescends(w, m);
      MoveKeeps(w, m);
      var rest := ComesToRest(After(w, m));
      moves := [m] + rest;
      assert moves[1..] == rest;
    } else {
      moves := [];
    }
  }

  /**
   * A scheduler, who knows what has happened so far, and who always lets somebody carry on while anything is
   * under way.
   */
  ghost predicate CarriesOn(w: World, pick: seq<Move> -> Move) {
    forall moves :: CanRun(w, moves) && OnlyProgress(w, moves) && UnderWay(RunFrom(w, moves)) ==>
      CanProgress(RunFrom(w, moves), pick(moves))
  }

  ghost predicate Obeys(pick: seq<Move> -> Move, moves: seq<Move>) {
    forall i :: 0 <= i < |moves| ==> moves[i] == pick(moves[..i])
  }

  lemma {:induction false} OneMoreMove(w: World, moves: seq<Move>, m: Move)
    requires CanRun(w, moves) && OnlyProgress(w, moves) && CanProgress(RunFrom(w, moves), m)
    ensures CanRun(w, moves + [m]) && OnlyProgress(w, moves + [m])
    ensures RunFrom(w, moves + [m]) == After(RunFrom(w, moves), m)
    decreases |moves|
  {
    hide Enabled, After, Progress;
    var more := moves + [m];
    if moves == [] {
      assert more == [m] && more[1..] == [];
    } else {
      assert more[0] == moves[0] && more[1..] == moves[1..] + [m];
      OneMoreMove(After(w, moves[0]), moves[1..], m);
    }
  }

  lemma {:induction false} RestsAfter(w: World, pick: seq<Move> -> Move, done: seq<Move>) returns (moves: seq<Move>)
    requires Inv(w) && CarriesOn(w, pick) && CanRun(w, done) && OnlyProgress(w, done) && Obeys(pick, done)
    ensures CanRun(w, moves) && OnlyProgress(w, moves) && Obeys(pick, moves) && !UnderWay(RunFrom(w, moves))
    decreases Rank(RunFrom(w, done)), WalkLeft(RunFrom(w, done).captures)
  {
    hide Inv, Enabled, After, Progress, UnderWay, Rank, WalkLeft, OnlyProgress, CanRun, RunFrom;
    var now := RunFrom(w, done);
    if UnderWay(now) {
      var m := pick(done);
      RunKeeps(w, done);
      ProgressDescends(now, m);
      OneMoreMove(w, done, m);
      assert Obeys(pick, done + [m]) by {
        forall i | 0 <= i < |done + [m]| ensures (done + [m])[i] == pick((done + [m])[..i]) {
          assert (done + [m])[..i] == done[..i] && (i == |done| ==> done[..i] == done);
        }
      }
      moves := RestsAfter(w, pick, done + [m]);
    } else {
      moves := done;
    }
  }

  /**
   * Whichever way the threads are scheduled, carrying on leads from every reachable state to rest, in finitely
   * many moves.
   */
  lemma EveryScheduleRests(w: World, pick: seq<Move> -> Move) returns (moves: seq<Move>)
    requires Inv(w) && CarriesOn(w, pick)
    ensures CanRun(w, moves) && OnlyProgress(w, moves) && Obeys(pick, moves) && !UnderWay(RunFrom(w, moves))
  {
    moves := RestsAfter(w, pick, []);
  }

  /** A run that cannot carry on any further is at rest. */
  lemma StuckIsRest(w: World, moves: seq<Move>)
    requires Inv(w) && CanRun(w, moves) && OnlyProgress(w, moves)
    requires forall m :: !CanProgress(RunFrom(w, moves), m)
    ensures !UnderWay(RunFrom(w, moves))
  {
    hide Inv, CanProgress, UnderWay, CanRun, RunFrom, OnlyProgress;
    RunKeeps(w, moves);
    if UnderWay(RunFrom(w, moves)) {
      var m := NoDeadlock(RunFrom(w, moves));
    }
  }
}
