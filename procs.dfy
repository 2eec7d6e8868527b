/** The derived-condition helpers of the swipeable row (src/procs.tsx).
    A Reanimated node that yields 0 or 1 is a `bool` here and a numeric node a
    `real`; the spring helpers of that file are not part of this model. */
module Procs {

  /** The gesture recogniser's handler state, in the order of its numeric codes
      (UNDETERMINED, FAILED, BEGAN, CANCELLED, ACTIVE, END). */
  datatype GestureState = Undetermined | Failed | Began | Cancelled | Active | End

  function Abs(x: real): (a: real)
    ensures a >= 0.0 && (a == x || a == -x)
  {
    if x < 0.0 then -x else x
  }

  /** getOpenPct: how far a side is open, as a fraction of its underlay width.
      Dividing by a zero width would give NaN or Infinity, which is not modelled. */
  function OpenPct(isSwiping: bool, pos: real, width: real): (pct: real)
    requires isSwiping ==> width != 0.0
    ensures !isSwiping ==> pct == 0.0
    ensures isSwiping ==> pct * width == Abs(pos)
    ensures width > 0.0 ==> pct >= 0.0
    ensures width > 0.0 ==> (pct >= 1.0 <==> isSwiping && Abs(pos) >= width)
  {
    if isSwiping then
      var pct := Abs(pos) / width;
      assert (pct - 1.0) * width == Abs(pos) - width;
      assert width > 0.0 ==> (pct >= 1.0 <==> Abs(pos) >= width) by {
        if width > 0.0 { ScaleKeepsSign(pct - 1.0, width); }
      }
      pct
    else 0.0
  }

  /** Multiplying by a positive width keeps the sign of a real. */
  lemma ScaleKeepsSign(a: real, w: real)
    requires w > 0.0
    ensures a >= 0.0 <==> a * w >= 0.0
  {
    if a > 0.0 {
      assert a * w > 0.0;
    } else if a < 0.0 {
      assert (-a) * w > 0.0;
      assert a * w == -((-a) * w);
    }
  }

  /** getLeftActive: the left underlay is the one in play, either because the
      row sits left of zero or because it rests at zero and the finger went left. */
  predicate LeftActive(swipingLeft: bool, isSwiping: bool, panX: real)
    ensures swipingLeft ==> LeftActive(swipingLeft, isSwiping, panX)
    ensures isSwiping && !swipingLeft ==> !LeftActive(swipingLeft, isSwiping, panX)
    ensures !isSwiping ==> (LeftActive(swipingLeft, isSwiping, panX) <==> swipingLeft || panX < 0.0)
  {
    swipingLeft || (!isSwiping && panX < 0.0)
  }

  /** With the row's own definitions of swiping (position below, above or apart
      from zero), leftActive depends on the sign of the position and, at zero
      only, on the sign of the last pan translation. */
  lemma LeftActiveAtPosition(pos: real, panX: real)
    ensures LeftActive(pos < 0.0, pos < 0.0 || pos > 0.0, panX)
            <==> pos < 0.0 || (pos == 0.0 && panX < 0.0)
  {
  }

  /** getMaxTranslate: the right-most position a pan may reach. */
  function MaxTranslate(hasRight: bool, rightWidth: real, overSwipe: real): (m: real)
    ensures !hasRight ==> m == 0.0
    ensures hasRight ==> m - overSwipe == rightWidth
    ensures rightWidth >= 0.0 && overSwipe >= 0.0 ==> 0.0 <= m <= rightWidth + overSwipe
  {
    if hasRight then rightWidth + overSwipe else 0.0
  }

  /** getMinTranslate: the left-most position a pan may reach; the mirror image
      of getMaxTranslate for the left side. */
  function MinTranslate(hasLeft: bool, leftWidth: real, overSwipe: real): (m: real)
    ensures m == -MaxTranslate(hasLeft, leftWidth, overSwipe)
    ensures leftWidth >= 0.0 && overSwipe >= 0.0 ==> -(leftWidth + overSwipe) <= m <= 0.0
  {
    if hasLeft then -1.0 * (leftWidth + overSwipe) else 0.0
  }

  /** getIsActive: a finger is down on the row. */
  predicate IsActive(g: GestureState)
    ensures !IsActive(g) <==> g in {Undetermined, Failed, Cancelled, End}
  {
    g == Active || g == Began
  }

  /** The guard of getOnPanEvent: the gesture is ACTIVE and the candidate
      position lies within [minTranslate, maxTranslate]. */
  predicate AcceptsPan(gestureState: GestureState, tempTranslate: real,
                       maxTranslate: real, minTranslate: real)
    ensures AcceptsPan(gestureState, tempTranslate, maxTranslate, minTranslate) ==>
              gestureState == Active && minTranslate <= maxTranslate
    ensures gestureState == Active && tempTranslate == maxTranslate && minTranslate <= maxTranslate ==>
              AcceptsPan(gestureState, tempTranslate, maxTranslate, minTranslate)
  {
    gestureState == Active && tempTranslate <= maxTranslate && tempTranslate >= minTranslate
  }

  /** An Animated.Value<number>: a cell that animation nodes write in place. */
  class AnimatedValue {
    var value: real

    constructor (init: real)
      ensures value == init
    {
      value := init;
    }
  }

  /** getOnPanEvent: the one guarded write of a pan sample. A candidate outside
      the bounds is rejected, never clamped. */
  method OnPanEvent(gestureState: GestureState, tempTranslate: real,
                    maxTranslate: real, minTranslate: real, pos: AnimatedValue)
    modifies pos
    ensures AcceptsPan(gestureState, tempTranslate, maxTranslate, minTranslate) ==> pos.value == tempTranslate
    ensures !AcceptsPan(gestureState, tempTranslate, maxTranslate, minTranslate) ==> pos.value == old(pos.value)
  {
    if gestureState == Active && tempTranslate <= maxTranslate && tempTranslate >= minTranslate {
      pos.value := tempTranslate;
    }
  }
}
