/** SwipeableItem (src/index.tsx): the row machine of module Machine in its
    Current revision, plus the promise-returning open/close. A promise is an
    id drawn from a counter; a stored resolver is the id of the promise it
    settles, None standing for the initial no-op resolver. Calling a resolver
    adds its id to `settled`; calling it again changes nothing, as resolving
    a settled promise changes nothing. */
module Item {
  import Procs
  import opened Nodes
  import opened Machine

  datatype Resolvers = Resolvers(
    openResolve: Option<nat>,
    closeResolve: Option<nat>,
    settled: set<nat>,
    nextPromise: nat)

  function NoPromises(): Resolvers
  {
    Resolvers(None, None, {}, 0)
  }

  /** Call a stored resolver. */
  function Resolve(res: Resolvers, resolver: Option<nat>): (res': Resolvers)
    ensures res' == res.(settled := res'.settled)
    ensures resolver.Some? ==> res'.settled == res.settled + {resolver.value}
    ensures resolver.None? ==> res' == res
  {
    match resolver
    case None => res
    case Some(id) => res.(settled := res.settled + {id})
  }

  /** Calling a resolver a second time changes nothing. */
  lemma ResolveTwice(res: Resolvers, resolver: Option<nat>)
    ensures Resolve(Resolve(res, resolver), resolver) == Resolve(res, resolver)
  {
  }

  /** The promise bookkeeping of open(): settle the promise of the previous
      open first, then store the resolver of a new one. The close resolver is
      independent and untouched. */
  function OpenPromise(res: Resolvers): (res': Resolvers)
    ensures res.openResolve.Some? ==> res.openResolve.value in res'.settled
    ensures res'.openResolve == Some(res.nextPromise) && res'.nextPromise == res.nextPromise + 1
    ensures res'.closeResolve == res.closeResolve
    ensures res.settled <= res'.settled
    ensures res'.settled - res.settled <= (if res.openResolve.Some? then {res.openResolve.value} else {})
  {
    var r1 := Resolve(res, res.openResolve);
    r1.(openResolve := Some(r1.nextPromise), nextPromise := r1.nextPromise + 1)
  }

  /** The promise bookkeeping of close(), the mirror image of OpenPromise. */
  function ClosePromise(res: Resolvers): (res': Resolvers)
    ensures res.closeResolve.Some? ==> res.closeResolve.value in res'.settled
    ensures res'.closeResolve == Some(res.nextPromise) && res'.nextPromise == res.nextPromise + 1
    ensures res'.openResolve == res.openResolve
    ensures res.settled <= res'.settled
    ensures res'.settled - res.settled <= (if res.closeResolve.Some? then {res.closeResolve.value} else {})
  {
    var r1 := Resolve(res, res.closeResolve);
    r1.(closeResolve := Some(r1.nextPromise), nextPromise := r1.nextPromise + 1)
  }

  /** What a frame's completion handler does to the promises: onOpen calls
      the open resolver, onClose the close resolver; neither is replaced. */
  function SettleFrame(res: Resolvers, h: Handler): (res': Resolvers)
    ensures res' == res.(settled := res'.settled)
    ensures h == NoHandler ==> res'.settled == res.settled
    ensures h == OpenHandler ==>
              res'.settled == res.settled + (if res.openResolve.Some? then {res.openResolve.value} else {})
    ensures h == CloseHandler ==>
              res'.settled == res.settled + (if res.closeResolve.Some? then {res.closeResolve.value} else {})
  {
    match h
    case NoHandler => res
    case OpenHandler => Resolve(res, res.openResolve)
    case CloseHandler => Resolve(res, res.closeResolve)
  }

  /** Every promise handed out is either settled or still reachable through
      one of the two stored resolvers; no promise is ever dropped unsettled. */
  predicate Accounted(res: Resolvers)
  {
    && (res.openResolve.Some? ==> res.openResolve.value < res.nextPromise)
    && (res.closeResolve.Some? ==> res.closeResolve.value < res.nextPromise)
    && (forall id :: id in res.settled ==> id < res.nextPromise)
    && (forall id: nat :: id < res.nextPromise && id !in res.settled ==>
          res.openResolve == Some(id) || res.closeResolve == Some(id))
  }

  /** The whole state of a SwipeableItem. */
  datatype ItemState = ItemState(row: RowState, promises: Resolvers)

  function InitItem(): ItemState
  {
    ItemState(Init(), NoPromises())
  }

  function ItemStep(cfg: Config, it: ItemState, e: Event): ItemState
  {
    match e
    case OpenCall(side) => ItemState(RequestOpen(it.row, side), OpenPromise(it.promises))
    case CloseCall => ItemState(RequestClose(it.row), ClosePromise(it.promises))
    case AnimationFrame(p, f) =>
      ItemState(Frame(Current, cfg, it.row, p, f), SettleFrame(it.promises, FrameHandler(it.row, p, f)))
    case _ => ItemState(Step(Current, cfg, it.row, e), it.promises)
  }

  function ItemRun(cfg: Config, it: ItemState, events: seq<Event>): ItemState
    decreases |events|
  {
    if events == [] then it else ItemRun(cfg, ItemStep(cfg, it, events[0]), events[1..])
  }

  /** The row part of a SwipeableItem run is the Current machine's run. */
  lemma {:induction false} ItemRunRow(cfg: Config, it: ItemState, events: seq<Event>)
    ensures ItemRun(cfg, it, events).row == Run(Current, cfg, it.row, events)
    decreases |events|
  {
    if events != [] {
      ItemRunRow(cfg, ItemStep(cfg, it, events[0]), events[1..]);
    }
  }

  lemma OpenPromiseAccounted(res: Resolvers)
    requires Accounted(res)
    ensures Accounted(OpenPromise(res))
  {
    var res' := OpenPromise(res);
    forall id: nat | id < res'.nextPromise && id !in res'.settled
      ensures res'.openResolve == Some(id) || res'.closeResolve == Some(id)
    {
      if id < res.nextPromise {
        assert res.openResolve != Some(id);
      }
    }
  }

  lemma ClosePromiseAccounted(res: Resolvers)
    requires Accounted(res)
    ensures Accounted(ClosePromise(res))
  {
    var res' := ClosePromise(res);
    forall id: nat | id < res'.nextPromise && id !in res'.settled
      ensures res'.openResolve == Some(id) || res'.closeResolve == Some(id)
    {
      if id < res.nextPromise {
        assert res.closeResolve != Some(id);
      }
    }
  }

  lemma ItemStepAccounted(cfg: Config, it: ItemState, e: Event)
    requires Accounted(it.promises)
    ensures Accounted(ItemStep(cfg, it, e).promises)
  {
    match e
    case OpenCall(side) => OpenPromiseAccounted(it.promises);
    case CloseCall => ClosePromiseAccounted(it.promises);
    case _ =>
  }

  lemma {:induction false} ItemRunAccounted(cfg: Config, it: ItemState, events: seq<Event>)
    requires Accounted(it.promises)
    ensures Accounted(ItemRun(cfg, it, events).promises)
    decreases |events|
  {
    if events != [] {
      ItemStepAccounted(cfg, it, events[0]);
      ItemRunAccounted(cfg, ItemStep(cfg, it, events[0]), events[1..]);
    }
  }

  lemma SettleFrameAccounted(res: Resolvers, h: Handler)
    requires Accounted(res)
    ensures Accounted(SettleFrame(res, h))
  {
  }

  /** In every reachable state at most two promises are pending: the one of
      the latest open() and the one of the latest close(). Every earlier
      promise was settled, at the latest when a newer call of its kind
      superseded it. */
  lemma PendingAreLatest(cfg: Config, events: seq<Event>)
    ensures var res := ItemRun(cfg, InitItem(), events).promises;
            forall id: nat :: id < res.nextPromise && id !in res.settled ==>
              res.openResolve == Some(id) || res.closeResolve == Some(id)
  {
    ItemRunAccounted(cfg, InitItem(), events);
  }

  /** open("left") then open("right") before a frame: the first promise is
      settled by the second call, and the frame that follows aims the spring
      at the right side only. */
  lemma OpenThenOpenOtherSide(cfg: Config, it: ItemState, p: real, f: bool)
    requires Accounted(it.promises)
    ensures var first := it.promises.nextPromise;
            var it2 := ItemStep(cfg, ItemStep(cfg, it, OpenCall(LeftSide)), OpenCall(RightSide));
            var it3 := ItemStep(cfg, it2, AnimationFrame(p, f));
            first in it2.promises.settled && first + 1 !in it2.promises.settled &&
            it2.promises.openResolve == Some(first + 1) &&
            (!it.row.closeFlag ==> it3.row.toValue == cfg.widthRight)
  {
    var first := it.promises.nextPromise;
    assert first !in it.promises.settled;
  }

  /** A frame whose animation ends at zero runs onClose: it settles the
      close promise and reports `open: false` again even when `false` was the
      last report, and it leaves a pending open promise pending (an open whose
      animation ends at zero, for instance toward a side of width zero, is
      never settled by its own animation). */
  lemma SettlingAtZero(cfg: Config, it: ItemState, f: bool)
    requires AnimationRuns(it.row) && f
    ensures var it' := ItemStep(cfg, it, AnimationFrame(0.0, f));
            it'.row.reports == it.row.reports + [NoDirection] &&
            it'.row.swipeDirection == NoDirection && !it'.row.clockRunning &&
            it'.promises.settled == it.promises.settled +
              (if it.promises.closeResolve.Some? then {it.promises.closeResolve.value} else {})
  {
  }

  /** One SwipeableItem component. Its fields are the values of Machine's
      RowState, the two resolvers and the promise bookkeeping. */
  class SwipeableItem {
    const cfg: Config
    var position: real
    var prevTranslate: real
    var panX: real
    var gestureState: Procs.GestureState
    var seenGestureState: Option<Procs.GestureState>
    var clockRunning: bool
    var finished: bool
    var toValue: real
    var openLeftFlag: bool
    var openRightFlag: bool
    var closeFlag: bool
    var seenSwipingLeft: Option<bool>
    var seenSwipingRight: Option<bool>
    var seenIsSwiping: Option<bool>
    var swipeDirection: Direction
    var reports: seq<Direction>
    var openResolve: Option<nat>
    var closeResolve: Option<nat>
    var settled: set<nat>
    var nextPromise: nat

    function Snapshot(): RowState
      reads this
    {
      RowState(position, prevTranslate, panX, gestureState, seenGestureState, clockRunning, finished,
               toValue, openLeftFlag, openRightFlag, closeFlag, seenSwipingLeft, seenSwipingRight,
               seenIsSwiping, swipeDirection, reports)
    }

    function Promises(): Resolvers
      reads this
    {
      Resolvers(openResolve, closeResolve, settled, nextPromise)
    }

    /** The object invariant: Machine's invariant of the Current revision, and
        every promise accounted for. */
    predicate Valid()
      reads this
    {
      Inv(Current, cfg, Snapshot()) && Accounted(Promises())
    }

    constructor (cfg: Config)
      ensures this.cfg == cfg
      ensures Snapshot() == Init() && Promises() == NoPromises()
      ensures Valid()
    {
      this.cfg := cfg;
      position, prevTranslate, panX := 0.0, 0.0, 0.0;
      gestureState, seenGestureState := Procs.Undetermined, None;
      clockRunning, finished, toValue := false, false, 0.0;
      openLeftFlag, openRightFlag, closeFlag := false, false, false;
      seenSwipingLeft, seenSwipingRight, seenIsSwiping := None, None, None;
      swipeDirection, reports := NoDirection, [];
      openResolve, closeResolve, settled, nextPromise := None, None, {}, 0;
      new;
      InitInv(Current, cfg);
    }

    /** onHandlerStateChange. */
    method OnHandlerStateChange(state: Procs.GestureState)
      requires Valid()
      modifies this
      ensures Valid()
      ensures Snapshot() == Machine.OnHandlerStateChange(cfg, old(Snapshot()), state)
      ensures Promises() == old(Promises())
    {
      gestureState := state;
      if seenGestureState != Some(gestureState) {
        seenGestureState := Some(gestureState);
        prevTranslate := position;
        if state == Procs.End && !clockRunning {
          toValue := ReleaseTarget(cfg, position, panX);
          clockRunning := true;
        }
      }
      StateChangeInv(Current, cfg, old(Snapshot()), state);
    }

    /** onPanEvent. */
    method OnPanEvent(translationX: real)
      requires Valid()
      modifies this
      ensures Valid()
      ensures Snapshot() == Machine.OnPanEvent(Current, cfg, old(Snapshot()), translationX)
      ensures Promises() == old(Promises())
    {
      panX := translationX;
      var leftActive := RowLeftActive(position, panX);
      var sum := translationX + prevTranslate;
      if gestureState == Procs.Active && sum <= MaxTranslate(Current, cfg, leftActive)
         && sum >= MinTranslate(Current, cfg, leftActive) {
        position := sum;
      }
      PanInv(Current, cfg, old(Snapshot()), translationX);
    }

    /** Call a stored resolver. */
    method CallResolver(resolver: Option<nat>)
      modifies this
      ensures Snapshot() == old(Snapshot())
      ensures Promises() == Resolve(old(Promises()), resolver)
    {
      if resolver.Some? {
        settled := settled + {resolver.value};
      }
    }

    /** open(direction): returns the new promise's id. */
    method Open(direction: Side) returns (promise: nat)
      requires Valid()
      modifies this
      ensures Valid()
      ensures promise == old(nextPromise) && openResolve == Some(promise) && promise !in settled
      ensures Snapshot() == RequestOpen(old(Snapshot()), direction)
      ensures Promises() == OpenPromise(old(Promises()))
    {
      CallResolver(openResolve);
      promise := nextPromise;
      nextPromise := nextPromise + 1;
      openResolve := Some(promise);
      if direction == LeftSide {
        openLeftFlag := true;
      } else {
        openRightFlag := true;
      }
      OpenPromiseAccounted(old(Promises()));
      RequestInv(Current, cfg, old(Snapshot()), Snapshot());
    }

    /** close(): returns the new promise's id. */
    method Close() returns (promise: nat)
      requires Valid()
      modifies this
      ensures Valid()
      ensures promise == old(nextPromise) && closeResolve == Some(promise) && promise !in settled
      ensures Snapshot() == RequestClose(old(Snapshot()))
      ensures Promises() == ClosePromise(old(Promises()))
    {
      CallResolver(closeResolve);
      promise := nextPromise;
      nextPromise := nextPromise + 1;
      closeResolve := Some(promise);
      closeFlag := true;
      ClosePromiseAccounted(old(Promises()));
      RequestInv(Current, cfg, old(Snapshot()), Snapshot());
    }

    /** onOpen. */
    method OnOpen()
      modifies this
      ensures Snapshot() == Machine.OnOpen(old(Snapshot()))
      ensures Promises() == Resolve(old(Promises()), old(openResolve))
    {
      CallResolver(openResolve);
      reports := reports + [swipeDirection];
    }

    /** onClose. */
    method OnClose()
      modifies this
      ensures Snapshot() == Machine.OnClose(Current, old(Snapshot()))
      ensures Promises() == Resolve(old(Promises()), old(closeResolve))
    {
      CallResolver(closeResolve);
      swipeDirection := NoDirection;
      reports := reports + [NoDirection];
    }

    /** The three flag blocks of runCode. */
    method ConsumeFlags()
      modifies this
      ensures Snapshot() == Machine.ConsumeFlags(cfg, old(Snapshot()))
      ensures Promises() == old(Promises())
    {
      ConsumeOpenLeft();
      ConsumeOpenRight();
      ConsumeClose();
    }

    method ConsumeOpenLeft()
      modifies this
      ensures Snapshot() == Machine.ConsumeOpenLeft(cfg, old(Snapshot()))
      ensures Promises() == old(Promises())
    {
      if openLeftFlag {
        toValue := -1.0 * cfg.widthLeft;
        clockRunning := true;
        openLeftFlag := false;
      }
    }

    method ConsumeOpenRight()
      modifies this
      ensures Snapshot() == Machine.ConsumeOpenRight(cfg, old(Snapshot()))
      ensures Promises() == old(Promises())
    {
      if openRightFlag {
        toValue := cfg.widthRight;
        clockRunning := true;
        openRightFlag := false;
      }
    }

    method ConsumeClose()
      modifies this
      ensures Snapshot() == Machine.ConsumeClose(old(Snapshot()))
      ensures Promises() == old(Promises())
    {
      if closeFlag {
        toValue := 0.0;
        clockRunning := true;
        closeFlag := false;
      }
    }

    /** The onChange node watching swipingLeft, with onSwipeLeftChange. */
    method WatchSwipingLeft()
      modifies this
      ensures Snapshot() == Machine.WatchSwipingLeft(old(Snapshot()))
      ensures Promises() == old(Promises())
    {
      var swipingLeft := SwipingLeft(position);
      if seenSwipingLeft != Some(swipingLeft) {
        seenSwipingLeft := Some(swipingLeft);
        if swipingLeft { swipeDirection := Left; }
      }
    }

    /** The onChange node watching swipingRight, with onSwipeRightChange. */
    method WatchSwipingRight()
      modifies this
      ensures Snapshot() == Machine.WatchSwipingRight(old(Snapshot()))
      ensures Promises() == old(Promises())
    {
      var swipingRight := SwipingRight(position);
      if seenSwipingRight != Some(swipingRight) {
        seenSwipingRight := Some(swipingRight);
        if swipingRight { swipeDirection := Right; }
      }
    }

    /** The onChange node watching isSwiping, with onIsSwipingChange. */
    method WatchIsSwiping()
      modifies this
      ensures Snapshot() == Machine.WatchIsSwiping(old(Snapshot()))
      ensures Promises() == old(Promises())
    {
      var isSwiping := IsSwiping(position);
      if seenIsSwiping != Some(isSwiping) {
        seenIsSwiping := Some(isSwiping);
        if !isSwiping { swipeDirection := NoDirection; }
      }
    }

    /** The clock block of runCode. */
    method SpringStep(springPosition: real, springFinished: bool)
      modifies this
      ensures Snapshot() == Machine.SpringStep(Current, old(Snapshot()), springPosition, springFinished)
      ensures Promises() == SettleFrame(old(Promises()),
                                        if old(clockRunning) && springFinished
                                        then (if springPosition == 0.0 then CloseHandler else OpenHandler)
                                        else NoHandler)
    {
      if clockRunning {
        position, finished := springPosition, springFinished;
        if finished {
          clockRunning := false;
          if position == 0.0 {
            OnClose();
          } else {
            OnOpen();
          }
          finished := false;
        }
      }
    }

    /** runCode, for one frame. */
    method RunCode(springPosition: real, springFinished: bool)
      requires Valid()
      modifies this
      ensures Valid()
      ensures Snapshot() == Frame(Current, cfg, old(Snapshot()), springPosition, springFinished)
      ensures Promises() == SettleFrame(old(Promises()), FrameHandler(old(Snapshot()), springPosition, springFinished))
    {
      ConsumeFlags();
      WatchSwipingLeft();
      WatchSwipingRight();
      WatchIsSwiping();
      SpringStep(springPosition, springFinished);
      FrameInv(Current, cfg, old(Snapshot()), springPosition, springFinished);
      SettleFrameAccounted(old(Promises()), FrameHandler(old(Snapshot()), springPosition, springFinished));
    }
  }
}
