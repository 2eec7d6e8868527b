/** The decision logic of the swipeable row as a pure state machine. A row's
    state is the set of Reanimated values and React fields the component
    updates; every event the component reacts to (a gesture-state change, a pan
    sample, an open or close request, an animation frame) is a function from
    state to state. Two revisions are modelled: SwipeRow (index.tsx) and its
    successor SwipeableItem (src/index.tsx); `Revision` names the two places
    where their machines differ. The promises of SwipeableItem live in module
    Item. */
module Machine {
  import Procs
  import opened Nodes

  datatype Option<T> = None | Some(value: T)

  /** Legacy is SwipeRow (index.tsx): pan bounds not gated on a side having an
      underlay, and onClose leaves swipeDirection alone. Current is
      SwipeableItem (src/index.tsx): gated bounds, and onClose clears
      swipeDirection. */
  datatype Revision = Legacy | Current

  /** swipeDirection (null, "left", "right"); also the `open` value reported to
      the onChange prop, where NoDirection stands for `false`. */
  datatype Direction = NoDirection | Left | Right

  /** The argument of open(direction). */
  datatype Side = LeftSide | RightSide

  /** Which completion handler an animation frame ran. */
  datatype Handler = NoHandler | OpenHandler | CloseHandler

  /** The mutable state of one row.
      - position, finished: the spring's animState; clockRunning: its clock;
        toValue: the spring's target.
      - seenGestureState and the three seen* fields are the memories of the
        Reanimated onChange nodes: None until the node is first evaluated,
        afterwards the value it last saw. A node fires its action when the
        value it watches differs from its memory.
      - reports: every `open` value passed to the onChange prop, in order. */
  datatype RowState = RowState(
    position: real,
    prevTranslate: real,
    panX: real,
    gestureState: Procs.GestureState,
    seenGestureState: Option<Procs.GestureState>,
    clockRunning: bool,
    finished: bool,
    toValue: real,
    openLeftFlag: bool,
    openRightFlag: bool,
    closeFlag: bool,
    seenSwipingLeft: Option<bool>,
    seenSwipingRight: Option<bool>,
    seenIsSwiping: Option<bool>,
    swipeDirection: Direction,
    reports: seq<Direction>)

  /** A freshly constructed row: closed, gesture UNDETERMINED, clock stopped. */
  function Init(): RowState
  {
    RowState(0.0, 0.0, 0.0, Procs.Undetermined, None, false, false, 0.0,
             false, false, false, None, None, None, NoDirection, [])
  }

  // ---------------------------------------------------------------------
  // Gesture-state change (onHandlerStateChange)
  // ---------------------------------------------------------------------

  /** True when the onChange node watching the gesture state fires for `state`. */
  predicate GestureStateChanges(r: RowState, state: Procs.GestureState)
  {
    r.seenGestureState != Some(state)
  }

  /** Record the new gesture state; when it differs from the last one seen,
      capture the start offset and, on END with the clock stopped, aim the
      spring at the release target and start the clock. */
  function OnHandlerStateChange(cfg: Config, r: RowState, state: Procs.GestureState): (r': RowState)
    ensures r' == r.(gestureState := state, seenGestureState := Some(state),
                     prevTranslate := r'.prevTranslate, toValue := r'.toValue,
                     clockRunning := r'.clockRunning)
    ensures r'.prevTranslate == if GestureStateChanges(r, state) then r.position else r.prevTranslate
    ensures GestureStateChanges(r, state) && state == Procs.End && !r.clockRunning ==>
              r'.clockRunning && r'.toValue == ReleaseTarget(cfg, r.position, r.panX)
    ensures !(GestureStateChanges(r, state) && state == Procs.End && !r.clockRunning) ==>
              r'.clockRunning == r.clockRunning && r'.toValue == r.toValue
  {
    var r1 := r.(gestureState := state);
    if r1.seenGestureState == Some(r1.gestureState) then r1
    else
      var r2 := r1.(seenGestureState := Some(r1.gestureState), prevTranslate := r1.position);
      if state == Procs.End && !r2.clockRunning then
        r2.(toValue := ReleaseTarget(cfg, r2.position, r2.panX), clockRunning := true)
      else r2
  }

  /** The release decision: after the finger lifts, the spring's target is one
      of the three resting positions, the open position of the side the row is
      on exactly when the row is more than half open (for non-negative widths). */
  lemma ReleaseAimsAtRestingPosition(cfg: Config, r: RowState)
    requires GestureStateChanges(r, Procs.End) && !r.clockRunning
    ensures var r' := OnHandlerStateChange(cfg, r, Procs.End);
            r'.clockRunning && r'.toValue in Targets(cfg) &&
            (cfg.widthLeft >= 0.0 && cfg.widthRight >= 0.0 ==>
               (r.position < 0.0 && -r.position > cfg.widthLeft / 2.0 ==> r'.toValue == -cfg.widthLeft) &&
               (r.position > 0.0 && r.position > cfg.widthRight / 2.0 ==> r'.toValue == cfg.widthRight) &&
               (-cfg.widthLeft / 2.0 <= r.position <= cfg.widthRight / 2.0 ==> r'.toValue == 0.0))
  {
  }

  // ---------------------------------------------------------------------
  // Pan sample (onPanEvent)
  // ---------------------------------------------------------------------

  /** maxTranslate for the side in play. */
  function MaxTranslate(rev: Revision, cfg: Config, leftActive: bool): (m: real)
    ensures leftActive ==> m == 0.0
    ensures !leftActive && rev == Current ==>
              m == Procs.MaxTranslate(cfg.HasRight(), cfg.widthRight, cfg.overSwipe)
    ensures !leftActive && rev == Legacy ==> m == cfg.widthRight + cfg.overSwipe
  {
    if leftActive then 0.0
    else if rev == Legacy || cfg.HasRight() then UnderlayPosition(cfg, leftActive) + cfg.overSwipe
    else 0.0
  }

  /** minTranslate for the side in play. */
  function MinTranslate(rev: Revision, cfg: Config, leftActive: bool): (m: real)
    ensures !leftActive ==> m == 0.0
    ensures leftActive && rev == Current ==>
              m == Procs.MinTranslate(cfg.HasLeft(), cfg.widthLeft, cfg.overSwipe)
    ensures leftActive && rev == Legacy ==> m == -(cfg.widthLeft + cfg.overSwipe)
  {
    if !leftActive then 0.0
    else if rev == Legacy || cfg.HasLeft() then UnderlayPosition(cfg, leftActive) - cfg.overSwipe
    else 0.0
  }

  /** The pan guard as the row evaluates it: bounds follow leftActive, which is
      computed from the current position and the pan translation just stored. */
  predicate PanAccepted(rev: Revision, cfg: Config, r: RowState, translationX: real)
  {
    var leftActive := RowLeftActive(r.position, translationX);
    Procs.AcceptsPan(r.gestureState, translationX + r.prevTranslate,
                     MaxTranslate(rev, cfg, leftActive), MinTranslate(rev, cfg, leftActive))
  }

  /** Store the translation; move the row to `translationX + prevTranslate` only
      when the gesture is ACTIVE and that sum is within the bounds. A sum out of
      bounds is rejected, not clamped. */
  function OnPanEvent(rev: Revision, cfg: Config, r: RowState, translationX: real): (r': RowState)
    ensures r' == r.(panX := translationX, position := r'.position)
    ensures r'.position == r.position || r'.position == translationX + r.prevTranslate
    ensures r'.position != r.position ==> r.gestureState == Procs.Active
    ensures PanAccepted(rev, cfg, r, translationX) ==> r'.position == translationX + r.prevTranslate
    ensures !PanAccepted(rev, cfg, r, translationX) ==> r'.position == r.position
  {
    var r1 := r.(panX := translationX);
    var leftActive := RowLeftActive(r1.position, r1.panX);
    var sum := translationX + r1.prevTranslate;
    if Procs.AcceptsPan(r1.gestureState, sum, MaxTranslate(rev, cfg, leftActive), MinTranslate(rev, cfg, leftActive))
    then r1.(position := sum)
    else r1
  }

  /** A pan never carries the row across zero: from the left it can reach zero
      but not the right side, and vice versa. */
  lemma PanNeverCrossesZero(rev: Revision, cfg: Config, r: RowState, translationX: real)
    ensures r.position < 0.0 ==> OnPanEvent(rev, cfg, r, translationX).position <= 0.0
    ensures r.position > 0.0 ==> OnPanEvent(rev, cfg, r, translationX).position >= 0.0
  {
  }

  /** SwipeableItem: an accepted pan lands within [-(widthLeft + overSwipe),
      widthRight + overSwipe], and a side without an underlay admits no travel
      to that side. */
  lemma CurrentPanBounds(cfg: Config, r: RowState, translationX: real)
    requires cfg.NonNegative()
    ensures var p := OnPanEvent(Current, cfg, r, translationX).position;
            (p == r.position || -(cfg.widthLeft + cfg.overSwipe) <= p <= cfg.widthRight + cfg.overSwipe) &&
            (!cfg.HasLeft() && r.position >= 0.0 ==> p >= 0.0) &&
            (!cfg.HasRight() && r.position <= 0.0 ==> p <= 0.0)
  {
  }

  /** SwipeRow: the bounds are not gated, so with no left underlay at all the
      row still follows a left pan for overSwipe. */
  lemma LegacyOverSwipesWithoutUnderlay(cfg: Config, r: RowState)
    requires cfg.widthLeft == 0.0 && cfg.overSwipe > 0.0
    requires r.gestureState == Procs.Active && r.position == 0.0 && r.prevTranslate == 0.0
    ensures OnPanEvent(Legacy, cfg, r, -cfg.overSwipe).position == -cfg.overSwipe
    ensures OnPanEvent(Current, cfg, r, -cfg.overSwipe).position == 0.0
  {
  }

  // ---------------------------------------------------------------------
  // open / close requests: they only raise flags read by the next frame
  // ---------------------------------------------------------------------

  /** open(direction): raise the flag of the requested side, and nothing else. */
  function RequestOpen(r: RowState, side: Side): (r': RowState)
    ensures r' == r.(openLeftFlag := r'.openLeftFlag, openRightFlag := r'.openRightFlag)
    ensures side == LeftSide ==> r'.openLeftFlag && r'.openRightFlag == r.openRightFlag
    ensures side == RightSide ==> r'.openRightFlag && r'.openLeftFlag == r.openLeftFlag
  {
    if side == LeftSide then r.(openLeftFlag := true) else r.(openRightFlag := true)
  }

  /** close(): raise the close flag, and nothing else. */
  function RequestClose(r: RowState): (r': RowState)
    ensures r'.closeFlag && r' == r.(closeFlag := true)
  {
    r.(closeFlag := true)
  }

  // ---------------------------------------------------------------------
  // Animation frame (runCode)
  // ---------------------------------------------------------------------

  /** The three flag blocks of a frame, in source order. Each raised flag aims
      the spring, starts the clock and is lowered, so the last raised flag in
      the order openLeft, openRight, close decides the target. */
  function ConsumeFlags(cfg: Config, r: RowState): (r': RowState)
    ensures !r'.openLeftFlag && !r'.openRightFlag && !r'.closeFlag
    ensures r'.clockRunning == (r.clockRunning || r.openLeftFlag || r.openRightFlag || r.closeFlag)
    ensures r'.toValue == if r.closeFlag then 0.0
                          else if r.openRightFlag then cfg.widthRight
                          else if r.openLeftFlag then -cfg.widthLeft
                          else r.toValue
    ensures r' == r.(openLeftFlag := false, openRightFlag := false, closeFlag := false,
                     clockRunning := r'.clockRunning, toValue := r'.toValue)
  {
    ConsumeClose(ConsumeOpenRight(cfg, ConsumeOpenLeft(cfg, r)))
  }

  /** The openLeft flag block. */
  function ConsumeOpenLeft(cfg: Config, r: RowState): (r': RowState)
    ensures !r'.openLeftFlag
    ensures r.openLeftFlag ==> r'.clockRunning && r'.toValue == -cfg.widthLeft
    ensures r' == r.(openLeftFlag := false, clockRunning := r'.clockRunning, toValue := r'.toValue)
    ensures !r.openLeftFlag ==> r' == r
  {
    if r.openLeftFlag
    then r.(toValue := -1.0 * cfg.widthLeft, clockRunning := true, openLeftFlag := false)
    else r
  }

  /** The openRight flag block. */
  function ConsumeOpenRight(cfg: Config, r: RowState): (r': RowState)
    ensures !r'.openRightFlag
    ensures r.openRightFlag ==> r'.clockRunning && r'.toValue == cfg.widthRight
    ensures r' == r.(openRightFlag := false, clockRunning := r'.clockRunning, toValue := r'.toValue)
    ensures !r.openRightFlag ==> r' == r
  {
    if r.openRightFlag
    then r.(toValue := cfg.widthRight, clockRunning := true, openRightFlag := false)
    else r
  }

  /** The close flag block. */
  function ConsumeClose(r: RowState): (r': RowState)
    ensures !r'.closeFlag
    ensures r.closeFlag ==> r'.clockRunning && r'.toValue == 0.0
    ensures r' == r.(closeFlag := false, clockRunning := r'.clockRunning, toValue := r'.toValue)
    ensures !r.closeFlag ==> r' == r
  {
    if r.closeFlag then r.(toValue := 0.0, clockRunning := true, closeFlag := false) else r
  }

  /** onSwipeLeftChange, onSwipeRightChange and onIsSwipingChange. */
  function OnSwipeLeftChange(r: RowState, isSwiping: bool): (r': RowState)
    ensures isSwiping ==> r' == r.(swipeDirection := Left)
    ensures !isSwiping ==> r' == r
  {
    if isSwiping then r.(swipeDirection := Left) else r
  }

  function OnSwipeRightChange(r: RowState, isSwiping: bool): (r': RowState)
    ensures isSwiping ==> r' == r.(swipeDirection := Right)
    ensures !isSwiping ==> r' == r
  {
    if isSwiping then r.(swipeDirection := Right) else r
  }

  function OnIsSwipingChange(r: RowState, isSwiping: bool): (r': RowState)
    ensures !isSwiping ==> r' == r.(swipeDirection := NoDirection)
    ensures isSwiping ==> r' == r
  {
    if !isSwiping then r.(swipeDirection := NoDirection) else r
  }

  /** The onChange node watching swipingLeft: when the value differs from its
      memory it stores it and calls onSwipeLeftChange with it. */
  function WatchSwipingLeft(r: RowState): (r': RowState)
    ensures r' == r.(seenSwipingLeft := Some(r.position < 0.0), swipeDirection := r'.swipeDirection)
    ensures r'.swipeDirection == if r.seenSwipingLeft != Some(true) && r.position < 0.0 then Left
                                 else r.swipeDirection
  {
    var sl := SwipingLeft(r.position);
    if r.seenSwipingLeft != Some(sl) then OnSwipeLeftChange(r.(seenSwipingLeft := Some(sl)), sl) else r
  }

  /** The onChange node watching swipingRight. */
  function WatchSwipingRight(r: RowState): (r': RowState)
    ensures r' == r.(seenSwipingRight := Some(r.position > 0.0), swipeDirection := r'.swipeDirection)
    ensures r'.swipeDirection == if r.seenSwipingRight != Some(true) && r.position > 0.0 then Right
                                 else r.swipeDirection
  {
    var sr := SwipingRight(r.position);
    if r.seenSwipingRight != Some(sr) then OnSwipeRightChange(r.(seenSwipingRight := Some(sr)), sr) else r
  }

  /** The onChange node watching isSwiping. */
  function WatchIsSwiping(r: RowState): (r': RowState)
    ensures r' == r.(seenIsSwiping := Some(r.position != 0.0), swipeDirection := r'.swipeDirection)
    ensures r'.swipeDirection == if r.seenIsSwiping != Some(false) && r.position == 0.0 then NoDirection
                                 else r.swipeDirection
  {
    var sw := IsSwiping(r.position);
    if r.seenIsSwiping != Some(sw) then OnIsSwipingChange(r.(seenIsSwiping := Some(sw)), sw) else r
  }

  /** The three watchers of a frame, in source order. */
  function SyncDirection(r: RowState): RowState
  {
    WatchIsSwiping(WatchSwipingRight(WatchSwipingLeft(r)))
  }

  /** The side the row is on. */
  function DirectionOf(pos: real): (d: Direction)
    ensures d == NoDirection <==> pos == 0.0
    ensures d == Left <==> pos < 0.0
  {
    if pos < 0.0 then Left else if pos > 0.0 then Right else NoDirection
  }

  /** The three onChange memories are either all unset or are those of one sign
      of the position. */
  predicate MemoryOfOneSign(r: RowState)
  {
    (r.seenSwipingLeft == None && r.seenSwipingRight == None && r.seenIsSwiping == None) ||
    (r.seenSwipingLeft.Some? && r.seenSwipingRight.Some? && r.seenIsSwiping.Some? &&
     !(r.seenSwipingLeft.value && r.seenSwipingRight.value) &&
     r.seenIsSwiping.value == (r.seenSwipingLeft.value || r.seenSwipingRight.value))
  }

  /** The direction those memories stand for. */
  function RememberedDirection(r: RowState): Direction
  {
    if r.seenSwipingLeft == Some(true) then Left
    else if r.seenSwipingRight == Some(true) then Right
    else NoDirection
  }

  /** swipeDirection agrees with the onChange memories. SwipeRow keeps this
      at all times. */
  predicate DirectionAgrees(r: RowState)
  {
    MemoryOfOneSign(r) && r.swipeDirection == RememberedDirection(r)
  }

  /** SwipeableItem's weaker version: onClose may have cleared swipeDirection
      behind the memories' back. */
  predicate DirectionAgreesOrCleared(r: RowState)
  {
    MemoryOfOneSign(r) && (r.swipeDirection == RememberedDirection(r) || r.swipeDirection == NoDirection)
  }

  /** After the three onChange nodes the memories are those of the current
      position's sign; swipeDirection then follows that sign if it agreed with
      the memories before, and otherwise is at worst still cleared, and always
      cleared at zero. Nothing else changes. */
  lemma SyncDirectionFollowsSign(r: RowState)
    requires DirectionAgreesOrCleared(r)
    ensures var r' := SyncDirection(r);
            r' == r.(seenSwipingLeft := Some(r.position < 0.0), seenSwipingRight := Some(r.position > 0.0),
                     seenIsSwiping := Some(r.position != 0.0), swipeDirection := r'.swipeDirection) &&
            DirectionAgreesOrCleared(r') &&
            (DirectionAgrees(r) ==> r'.swipeDirection == DirectionOf(r.position) && DirectionAgrees(r')) &&
            (r'.swipeDirection == DirectionOf(r.position) || r'.swipeDirection == NoDirection) &&
            (r.position == 0.0 ==> r'.swipeDirection == NoDirection)
  {
    var r' := SyncDirection(r);
    if r.seenSwipingLeft == None {
      assert r'.swipeDirection == DirectionOf(r.position);
    } else if r.position < 0.0 {
      assert r.seenSwipingLeft.value ==> r.swipeDirection in {Left, NoDirection};
    } else if r.position > 0.0 {
      assert r.seenSwipingRight.value ==> r.swipeDirection in {Right, NoDirection};
    }
  }

  /** onOpen reports `swipeDirection || false`. */
  function OnOpen(r: RowState): (r': RowState)
    ensures r' == r.(reports := r.reports + [r.swipeDirection])
  {
    r.(reports := r.reports + [r.swipeDirection])
  }

  /** onClose reports `false`; SwipeableItem also clears swipeDirection. */
  function OnClose(rev: Revision, r: RowState): (r': RowState)
    ensures r'.reports == r.reports + [NoDirection]
    ensures r'.swipeDirection == if rev == Current then NoDirection else r.swipeDirection
    ensures r' == r.(reports := r'.reports, swipeDirection := r'.swipeDirection)
  {
    var r1 := if rev == Current then r.(swipeDirection := NoDirection) else r;
    r1.(reports := r1.reports + [NoDirection])
  }

  /** The clock runs in a frame when it already ran or a flag starts it. */
  predicate AnimationRuns(r: RowState)
  {
    r.clockRunning || r.openLeftFlag || r.openRightFlag || r.closeFlag
  }

  /** The handler a frame runs: none unless the spring reports finished, then
      onClose when it left the row at zero and onOpen otherwise. */
  function FrameHandler(r: RowState, springPosition: real, springFinished: bool): (h: Handler)
    ensures h != NoHandler <==> AnimationRuns(r) && springFinished
    ensures h == CloseHandler <==> AnimationRuns(r) && springFinished && springPosition == 0.0
  {
    if AnimationRuns(r) && springFinished then
      (if springPosition == 0.0 then CloseHandler else OpenHandler)
    else NoHandler
  }

  /** The clock block of runCode: while the clock runs, one spring step moves
      the row (abstracted as the position the step leaves and whether it
      reports finished), and a finished spring stops the clock, runs exactly
      one of onClose and onOpen and resets `finished`. */
  function SpringStep(rev: Revision, r: RowState, springPosition: real, springFinished: bool): (r': RowState)
    ensures !r.clockRunning ==> r' == r
    ensures r.clockRunning ==> r'.position == springPosition && r'.clockRunning == !springFinished
    ensures r.clockRunning && !springFinished ==> r' == r.(position := springPosition, finished := false)
    ensures r.clockRunning && springFinished ==>
              !r'.finished &&
              r'.reports == r.reports + [if springPosition == 0.0 then NoDirection else r.swipeDirection]
    ensures r'.swipeDirection == (if r.clockRunning && springFinished && springPosition == 0.0 && rev == Current
                                  then NoDirection else r.swipeDirection)
    ensures r' == r.(position := r'.position, clockRunning := r'.clockRunning, finished := r'.finished,
                     swipeDirection := r'.swipeDirection, reports := r'.reports)
  {
    if !r.clockRunning then r
    else
      var r1 := r.(position := springPosition, finished := springFinished);
      if !r1.finished then r1
      else
        var r2 := r1.(clockRunning := false);
        var r3 := if r2.position == 0.0 then OnClose(rev, r2) else OnOpen(r2);
        r3.(finished := false)
  }

  /** One frame of runCode: the flag blocks, the three direction watchers and
      the clock block. At most one report is made, and exactly one when the
      spring finishes: `false` when it left the row at zero, otherwise the
      direction the watchers have just set. */
  function Frame(rev: Revision, cfg: Config, r: RowState, springPosition: real, springFinished: bool): (r': RowState)
    ensures var s := SyncDirection(ConsumeFlags(cfg, r));
            var h := FrameHandler(r, springPosition, springFinished);
            && r'.toValue == s.toValue
            && !r'.openLeftFlag && !r'.openRightFlag && !r'.closeFlag
            && r'.position == (if AnimationRuns(r) then springPosition else r.position)
            && r'.clockRunning == (AnimationRuns(r) && !springFinished)
            && r'.finished == (r.finished && !AnimationRuns(r))
            && r'.reports == r.reports + (match h
                                          case NoHandler => []
                                          case CloseHandler => [NoDirection]
                                          case OpenHandler => [s.swipeDirection])
            && r'.swipeDirection == (if h == CloseHandler && rev == Current then NoDirection else s.swipeDirection)
            && r'.prevTranslate == r.prevTranslate && r'.panX == r.panX
            && r'.gestureState == r.gestureState && r'.seenGestureState == r.seenGestureState
            && r'.seenSwipingLeft == s.seenSwipingLeft && r'.seenSwipingRight == s.seenSwipingRight
            && r'.seenIsSwiping == s.seenIsSwiping
  {
    SpringStep(rev, SyncDirection(ConsumeFlags(cfg, r)), springPosition, springFinished)
  }

  // ---------------------------------------------------------------------
  // Runs of events and the invariant every reachable state keeps
  // ---------------------------------------------------------------------

  datatype Event =
    | StateChange(state: Procs.GestureState)
    | PanSample(translationX: real)
    | OpenCall(side: Side)
    | CloseCall
    | AnimationFrame(springPosition: real, springFinished: bool)

  function Step(rev: Revision, cfg: Config, r: RowState, e: Event): RowState
  {
    match e
    case StateChange(state) => OnHandlerStateChange(cfg, r, state)
    case PanSample(x) => OnPanEvent(rev, cfg, r, x)
    case OpenCall(side) => RequestOpen(r, side)
    case CloseCall => RequestClose(r)
    case AnimationFrame(p, f) => Frame(rev, cfg, r, p, f)
  }

  function Run(rev: Revision, cfg: Config, r: RowState, events: seq<Event>): RowState
    decreases |events|
  {
    if events == [] then r else Run(rev, cfg, Step(rev, cfg, r, events[0]), events[1..])
  }

  /** What holds between events: the spring's target is a resting position,
      `finished` is down, the gesture memory is the stored gesture state, and
      swipeDirection agrees with the direction memories (SwipeRow) or agrees
      or has been cleared (SwipeableItem). */
  predicate Inv(rev: Revision, cfg: Config, r: RowState)
  {
    && r.toValue in Targets(cfg)
    && !r.finished
    && (r.seenGestureState.Some? ==> r.seenGestureState.value == r.gestureState)
    && (if rev == Legacy then DirectionAgrees(r) else DirectionAgreesOrCleared(r))
  }

  lemma InitInv(rev: Revision, cfg: Config)
    ensures Inv(rev, cfg, Init())
  {
  }

  lemma StepInv(rev: Revision, cfg: Config, r: RowState, e: Event)
    requires Inv(rev, cfg, r)
    ensures Inv(rev, cfg, Step(rev, cfg, r, e))
  {
    match e
    case StateChange(state) => StateChangeInv(rev, cfg, r, state);
    case PanSample(x) => PanInv(rev, cfg, r, x);
    case OpenCall(side) => RequestInv(rev, cfg, r, RequestOpen(r, side));
    case CloseCall => RequestInv(rev, cfg, r, RequestClose(r));
    case AnimationFrame(p, f) => FrameInv(rev, cfg, r, p, f);
  }

  /** Raising a flag changes nothing the invariant speaks of. */
  lemma RequestInv(rev: Revision, cfg: Config, r: RowState, r': RowState)
    requires Inv(rev, cfg, r)
    requires r' == r.(openLeftFlag := r'.openLeftFlag, openRightFlag := r'.openRightFlag,
                      closeFlag := r'.closeFlag)
    ensures Inv(rev, cfg, r')
  {
    assert DirectionAgrees(r') == DirectionAgrees(r);
    assert DirectionAgreesOrCleared(r') == DirectionAgreesOrCleared(r);
  }

  lemma StateChangeInv(rev: Revision, cfg: Config, r: RowState, state: Procs.GestureState)
    requires Inv(rev, cfg, r)
    ensures Inv(rev, cfg, OnHandlerStateChange(cfg, r, state))
  {
    var r' := OnHandlerStateChange(cfg, r, state);
    assert DirectionAgrees(r') == DirectionAgrees(r);
    assert DirectionAgreesOrCleared(r') == DirectionAgreesOrCleared(r);
  }

  lemma PanInv(rev: Revision, cfg: Config, r: RowState, translationX: real)
    requires Inv(rev, cfg, r)
    ensures Inv(rev, cfg, OnPanEvent(rev, cfg, r, translationX))
  {
    var r' := OnPanEvent(rev, cfg, r, translationX);
    assert DirectionAgrees(r') == DirectionAgrees(r);
    assert DirectionAgreesOrCleared(r') == DirectionAgreesOrCleared(r);
  }

  lemma FrameInv(rev: Revision, cfg: Config, r: RowState, springPosition: real, springFinished: bool)
    requires Inv(rev, cfg, r)
    ensures Inv(rev, cfg, Frame(rev, cfg, r, springPosition, springFinished))
  {
    var c := ConsumeFlags(cfg, r);
    assert c.toValue in Targets(cfg);
    SyncDirectionFollowsSign(c);
  }

  lemma {:induction false} RunInv(rev: Revision, cfg: Config, r: RowState, events: seq<Event>)
    requires Inv(rev, cfg, r)
    ensures Inv(rev, cfg, Run(rev, cfg, r, events))
    decreases |events|
  {
    if events != [] {
      StepInv(rev, cfg, r, events[0]);
      RunInv(rev, cfg, Step(rev, cfg, r, events[0]), events[1..]);
    }
  }

  /** In every reachable state of either revision the spring is aimed at one
      of the three resting positions. */
  lemma ReachableTargetIsRestingPosition(rev: Revision, cfg: Config, events: seq<Event>)
    ensures Run(rev, cfg, Init(), events).toValue in Targets(cfg)
  {
    InitInv(rev, cfg);
    RunInv(rev, cfg, Init(), events);
  }

  /** SwipeRow: in a reachable state, a frame that ends the animation away from
      zero reports the side the row was on when the frame began. */
  lemma LegacyOpenReportsSide(cfg: Config, events: seq<Event>, springPosition: real)
    requires springPosition != 0.0
    ensures var r := Run(Legacy, cfg, Init(), events);
            AnimationRuns(r) ==>
              Frame(Legacy, cfg, r, springPosition, true).reports == r.reports + [DirectionOf(r.position)]
  {
    var r := Run(Legacy, cfg, Init(), events);
    InitInv(Legacy, cfg);
    RunInv(Legacy, cfg, Init(), events);
    SyncDirectionFollowsSign(ConsumeFlags(cfg, r));
  }

  /** SwipeableItem: in a reachable state, a frame that ends the animation away
      from zero reports the side the row was on when the frame began, or
      `false`; onClose may have cleared the direction while the watchers'
      memories still hold the old sign. */
  lemma CurrentOpenReportsSideOrFalse(cfg: Config, events: seq<Event>, springPosition: real)
    requires springPosition != 0.0
    ensures var r := Run(Current, cfg, Init(), events);
            var reported := Frame(Current, cfg, r, springPosition, true).reports;
            AnimationRuns(r) ==>
              reported == r.reports + [DirectionOf(r.position)] || reported == r.reports + [NoDirection]
  {
    var r := Run(Current, cfg, Init(), events);
    InitInv(Current, cfg);
    RunInv(Current, cfg, Init(), events);
    SyncDirectionFollowsSign(ConsumeFlags(cfg, r));
  }

  /** A trace on which the two revisions differ in what they report: the
      finger drags the row to -60, a close request springs it back to zero
      in the next frame, the same drag pulls it to -70 before the following
      frame, and the release opens it on the left. The left underlay is 100
      wide, the right one absent, overSwipe 20. */
  function DragThroughClose(): seq<Event>
  {
    [StateChange(Procs.Active), PanSample(-60.0), CloseCall, AnimationFrame(0.0, true),
     PanSample(-70.0), StateChange(Procs.End), AnimationFrame(-100.0, true)]
  }

  /** The direction SwipeableItem's onClose leaves behind on that trace. */
  function DirectionAfterClose(rev: Revision): Direction
  {
    if rev == Legacy then Left else NoDirection
  }

  /** The states of the trace, one per event boundary. */
  function TraceState(rev: Revision, k: nat): RowState
    requires k <= 7
  {
    var d := DirectionAfterClose(rev);
    var on, off := Some(true), Some(false);
    if k == 0 then Init()
    else if k == 1 then RowState(0.0, 0.0, 0.0, Procs.Active, Some(Procs.Active), false, false, 0.0,
                                 false, false, false, None, None, None, NoDirection, [])
    else if k == 2 then RowState(-60.0, 0.0, -60.0, Procs.Active, Some(Procs.Active), false, false, 0.0,
                                 false, false, false, None, None, None, NoDirection, [])
    else if k == 3 then RowState(-60.0, 0.0, -60.0, Procs.Active, Some(Procs.Active), false, false, 0.0,
                                 false, false, true, None, None, None, NoDirection, [])
    else if k == 4 then RowState(0.0, 0.0, -60.0, Procs.Active, Some(Procs.Active), false, false, 0.0,
                                 false, false, false, on, off, on, d, [NoDirection])
    else if k == 5 then RowState(-70.0, 0.0, -70.0, Procs.Active, Some(Procs.Active), false, false, 0.0,
                                 false, false, false, on, off, on, d, [NoDirection])
    else if k == 6 then RowState(-70.0, -70.0, -70.0, Procs.End, Some(Procs.End), true, false, -100.0,
                                 false, false, false, on, off, on, d, [NoDirection])
    else RowState(-100.0, -70.0, -70.0, Procs.End, Some(Procs.End), false, false, -100.0,
                  false, false, false, on, off, on, d, [NoDirection, d])
  }

  lemma TraceStep0(rev: Revision)
    ensures Step(rev, Config(100.0, 0.0, 20.0), TraceState(rev, 0), DragThroughClose()[0]) == TraceState(rev, 1)
  {
  }

  lemma TraceStep1(rev: Revision)
    ensures Step(rev, Config(100.0, 0.0, 20.0), TraceState(rev, 1), DragThroughClose()[1]) == TraceState(rev, 2)
  {
  }

  lemma TraceStep2(rev: Revision)
    ensures Step(rev, Config(100.0, 0.0, 20.0), TraceState(rev, 2), DragThroughClose()[2]) == TraceState(rev, 3)
  {
  }

  lemma TraceStep3(rev: Revision)
    ensures Step(rev, Config(100.0, 0.0, 20.0), TraceState(rev, 3), DragThroughClose()[3]) == TraceState(rev, 4)
  {
  }

  lemma TraceStep4(rev: Revision)
    ensures Step(rev, Config(100.0, 0.0, 20.0), TraceState(rev, 4), DragThroughClose()[4]) == TraceState(rev, 5)
  {
  }

  lemma TraceStep5(rev: Revision)
    ensures Step(rev, Config(100.0, 0.0, 20.0), TraceState(rev, 5), DragThroughClose()[5]) == TraceState(rev, 6)
  {
  }

  lemma TraceStep6(rev: Revision)
    ensures Step(rev, Config(100.0, 0.0, 20.0), TraceState(rev, 6), DragThroughClose()[6]) == TraceState(rev, 7)
  {
  }

  /** On that trace both revisions settle open on the left at -100. SwipeRow
      reports `false` and then "left"; SwipeableItem reports `false` twice,
      because its onClose cleared swipeDirection and the direction watchers
      never saw the sign change again. */
  lemma DragThroughCloseReports(rev: Revision)
    ensures var r := Run(rev, Config(100.0, 0.0, 20.0), Init(), DragThroughClose());
            r.position == -100.0 &&
            r.reports == (if rev == Legacy then [NoDirection, Left] else [NoDirection, NoDirection])
  {
    TraceStep0(rev); TraceStep1(rev); TraceStep2(rev); TraceStep3(rev);
    TraceStep4(rev); TraceStep5(rev); TraceStep6(rev);
    var states := [TraceState(rev, 0), TraceState(rev, 1), TraceState(rev, 2), TraceState(rev, 3),
                   TraceState(rev, 4), TraceState(rev, 5), TraceState(rev, 6), TraceState(rev, 7)];
    RunSteps(rev, Config(100.0, 0.0, 20.0), Init(), DragThroughClose(), states);
  }

  /** A run is the chain of its single steps. */
  lemma {:induction false} RunSteps(rev: Revision, cfg: Config, r: RowState, events: seq<Event>, states: seq<RowState>)
    requires |states| == |events| + 1 && states[0] == r
    requires forall i :: 0 <= i < |events| ==> states[i + 1] == Step(rev, cfg, states[i], events[i])
    ensures Run(rev, cfg, r, events) == states[|events|]
    decreases |events|
  {
    if events != [] {
      RunSteps(rev, cfg, states[1], events[1..], states[1..]);
    }
  }
}
