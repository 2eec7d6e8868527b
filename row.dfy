/** SwipeRow (index.tsx): the earlier revision of the component, the row
    machine of module Machine in its Legacy revision. Its open and close only
    raise a flag for the next frame and return nothing; its completion
    handlers report to the onChange prop and keep the swipe direction. */
module Row {
  import Procs
  import opened Nodes
  import opened Machine

  class SwipeRow {
    const cfg: Config
    var position: real
    var prevTranslate: real
    var panX: real
    var gestureState: Procs.GestureState
    var seenGestureState: Option<Procs.GestureState>
    var clockRunning: bool
    var finished: bool
    var toValue: real
    var openLeftFlag: bool
    var openRightFlag: bool
    var closeFlag: bool
    var seenSwipingLeft: Option<bool>
    var seenSwipingRight: Option<bool>
    var seenIsSwiping: Option<bool>
    var swipeDirection: Direction
    var reports: seq<Direction>

    function Snapshot(): RowState
      reads this
    {
      RowState(position, prevTranslate, panX, gestureState, seenGestureState, clockRunning, finished,
               toValue, openLeftFlag, openRightFlag, closeFlag, seenSwipingLeft, seenSwipingRight,
               seenIsSwiping, swipeDirection, reports)
    }

    /** The object invariant: Machine's invariant of the Legacy revision. */
    predicate Valid()
      reads this
    {
      Inv(Legacy, cfg, Snapshot())
    }

    constructor (cfg: Config)
      ensures this.cfg == cfg
      ensures Snapshot() == Init()
      ensures Valid()
    {
      this.cfg := cfg;
      position, prevTranslate, panX := 0.0, 0.0, 0.0;
      gestureState, seenGestureState := Procs.Undetermined, None;
      clockRunning, finished, toValue := false, false, 0.0;
      openLeftFlag, openRightFlag, closeFlag := false, false, false;
      seenSwipingLeft, seenSwipingRight, seenIsSwiping := None, None, None;
      swipeDirection, reports := NoDirection, [];
      new;
      InitInv(Legacy, cfg);
    }

    /** onHandlerStateChange. */
    method OnHandlerStateChange(state: Procs.GestureState)
      requires Valid()
      modifies this
      ensures Valid()
      ensures Snapshot() == Machine.OnHandlerStateChange(cfg, old(Snapshot()), state)
    {
      gestureState := state;
      if seenGestureState != Some(gestureState) {
        seenGestureState := Some(gestureState);
        prevTranslate := position;
        if state == Procs.End && !clockRunning {
          toValue := ReleaseTarget(cfg, position, panX);
          clockRunning := true;
        }
      }
      StateChangeInv(Legacy, cfg, old(Snapshot()), state);
    }

    /** onPanEvent, with the ungated bounds of this revision. */
    method OnPanEvent(translationX: real)
      requires Valid()
      modifies this
      ensures Valid()
      ensures Snapshot() == Machine.OnPanEvent(Legacy, cfg, old(Snapshot()), translationX)
    {
      panX := translationX;
      var leftActive := RowLeftActive(position, panX);
      var sum := translationX + prevTranslate;
      if gestureState == Procs.Active && sum <= MaxTranslate(Legacy, cfg, leftActive)
         && sum >= MinTranslate(Legacy, cfg, leftActive) {
        position := sum;
      }
      PanInv(Legacy, cfg, old(Snapshot()), translationX);
    }

    /** open(direction): raise the flag of that side for the next frame. */
    method Open(direction: Side)
      requires Valid()
      modifies this
      ensures Valid()
      ensures Snapshot() == RequestOpen(old(Snapshot()), direction)
    {
      if direction == LeftSide {
        openLeftFlag := true;
      } else {
        openRightFlag := true;
      }
      RequestInv(Legacy, cfg, old(Snapshot()), Snapshot());
    }

    /** close(): raise the close flag for the next frame. */
    method Close()
      requires Valid()
      modifies this
      ensures Valid()
      ensures Snapshot() == RequestClose(old(Snapshot()))
    {
      closeFlag := true;
      RequestInv(Legacy, cfg, old(Snapshot()), Snapshot());
    }

    /** onOpen: report the current swipe direction. */
    method OnOpen()
      modifies this
      ensures Snapshot() == Machine.OnOpen(old(Snapshot()))
    {
      reports := reports + [swipeDirection];
    }

    /** onClose: report a closed row; the swipe direction is kept. */
    method OnClose()
      modifies this
      ensures Snapshot() == Machine.OnClose(Legacy, old(Snapshot()))
    {
      reports := reports + [NoDirection];
    }

    /** The three flag blocks of runCode. */
    method ConsumeFlags()
      modifies this
      ensures Snapshot() == Machine.ConsumeFlags(cfg, old(Snapshot()))
    {
      ConsumeOpenLeft();
      ConsumeOpenRight();
      ConsumeClose();
    }

    method ConsumeOpenLeft()
      modifies this
      ensures Snapshot() == Machine.ConsumeOpenLeft(cfg, old(Snapshot()))
    {
      if openLeftFlag {
        toValue := -1.0 * cfg.widthLeft;
        clockRunning := true;
        openLeftFlag := false;
      }
    }

    method ConsumeOpenRight()
      modifies this
      ensures Snapshot() == Machine.ConsumeOpenRight(cfg, old(Snapshot()))
    {
      if openRightFlag {
        toValue := cfg.widthRight;
        clockRunning := true;
        openRightFlag := false;
      }
    }

    method ConsumeClose()
      modifies this
      ensures Snapshot() == Machine.ConsumeClose(old(Snapshot()))
    {
      if closeFlag {
        toValue := 0.0;
        clockRunning := true;
        closeFlag := false;
      }
    }

    /** The onChange node watching swipingLeft, with onSwipeLeftChange. */
    method WatchSwipingLeft()
      modifies this
      ensures Snapshot() == Machine.WatchSwipingLeft(old(Snapshot()))
    {
      var swipingLeft := SwipingLeft(position);
      if seenSwipingLeft != Some(swipingLeft) {
        seenSwipingLeft := Some(swipingLeft);
        if swipingLeft { swipeDirection := Left; }
      }
    }

    /** The onChange node watching swipingRight, with onSwipeRightChange. */
    method WatchSwipingRight()
      modifies this
      ensures Snapshot() == Machine.WatchSwipingRight(old(Snapshot()))
    {
      var swipingRight := SwipingRight(position);
      if seenSwipingRight != Some(swipingRight) {
        seenSwipingRight := Some(swipingRight);
        if swipingRight { swipeDirection := Right; }
      }
    }

    /** The onChange node watching isSwiping, with onIsSwipingChange. */
    method WatchIsSwiping()
      modifies this
      ensures Snapshot() == Machine.WatchIsSwiping(old(Snapshot()))
    {
      var isSwiping := IsSwiping(position);
      if seenIsSwiping != Some(isSwiping) {
        seenIsSwiping := Some(isSwiping);
        if !isSwiping { swipeDirection := NoDirection; }
      }
    }

    /** The clock block of runCode. */
    method SpringStep(springPosition: real, springFinished: bool)
      modifies this
      ensures Snapshot() == Machine.SpringStep(Legacy, old(Snapshot()), springPosition, springFinished)
    {
      if clockRunning {
        position, finished := springPosition, springFinished;
        if finished {
          clockRunning := false;
          if position == 0.0 {
            OnClose();
          } else {
            OnOpen();
          }
          finished := false;
        }
      }
    }

    /** runCode, for one frame. */
    method RunCode(springPosition: real, springFinished: bool)
      requires Valid()
      modifies this
      ensures Valid()
      ensures Snapshot() == Frame(Legacy, cfg, old(Snapshot()), springPosition, springFinished)
    {
      ConsumeFlags();
      WatchSwipingLeft();
      WatchSwipingRight();
      WatchIsSwiping();
      SpringStep(springPosition, springFinished);
      FrameInv(Legacy, cfg, old(Snapshot()), springPosition, springFinished);
    }
  }
}
