/** The derived animation nodes of the row: pure expressions of the position,
    the last pan translation and the underlay widths. Both revisions of the
    component (SwipeRow in index.tsx, SwipeableItem in src/index.tsx) define
    these nodes identically; only SwipeableItem defines the percent-open nodes. */
module Nodes {
  import Procs

  /** The props the nodes are built from. The nodes capture these numbers when
      the component is constructed, so they are constants of a row. */
  datatype Config = Config(widthLeft: real, widthRight: real, overSwipe: real)
  {
    predicate HasLeft() { widthLeft > 0.0 }
    predicate HasRight() { widthRight > 0.0 }
    predicate NonNegative() { widthLeft >= 0.0 && widthRight >= 0.0 && overSwipe >= 0.0 }
  }

  /** swipingLeft, swipingRight and isSwiping: the side of zero the row is on. */
  predicate SwipingLeft(pos: real)
    ensures SwipingLeft(pos) ==> !SwipingRight(pos)
    ensures SwipingLeft(pos) <==> SwipingRight(-pos)
  {
    pos < 0.0
  }

  predicate SwipingRight(pos: real)
    ensures SwipingRight(pos) ==> Procs.Abs(pos) == pos
  {
    pos > 0.0
  }

  predicate IsSwiping(pos: real)
    ensures IsSwiping(pos) <==> pos != 0.0
  {
    SwipingLeft(pos) || SwipingRight(pos)
  }

  /** leftActive, built as getLeftActive of the position's sign and panX. */
  predicate RowLeftActive(pos: real, panX: real)
    ensures RowLeftActive(pos, panX) <==> pos < 0.0 || (pos == 0.0 && panX < 0.0)
  {
    Procs.LeftActive(SwipingLeft(pos), IsSwiping(pos), panX)
  }

  /** exceedsThreshold: the row is past half of the width of the side it is on
      (the right side when it rests at zero). */
  predicate ExceedsThreshold(cfg: Config, pos: real)
    ensures pos < 0.0 ==> (ExceedsThreshold(cfg, pos) <==> pos < -cfg.widthLeft / 2.0)
    ensures pos >= 0.0 ==> (ExceedsThreshold(cfg, pos) <==> pos > cfg.widthRight / 2.0)
    ensures pos == 0.0 && cfg.widthRight >= 0.0 ==> !ExceedsThreshold(cfg, pos)
  {
    if SwipingLeft(pos) then Procs.Abs(pos) > cfg.widthLeft / 2.0
    else Procs.Abs(pos) > cfg.widthRight / 2.0
  }

  /** underlayWidth: the width of the side in play. */
  function UnderlayWidth(cfg: Config, leftActive: bool): (w: real)
    ensures leftActive ==> w == cfg.widthLeft
    ensures !leftActive ==> w == cfg.widthRight
    ensures cfg.NonNegative() ==> w >= 0.0
  {
    if leftActive then cfg.widthLeft else cfg.widthRight
  }

  /** underlayPosition: the position at which the side in play is fully open. */
  function UnderlayPosition(cfg: Config, leftActive: bool): (u: real)
    ensures leftActive ==> u == -cfg.widthLeft
    ensures !leftActive ==> u == cfg.widthRight
  {
    if leftActive then UnderlayWidth(cfg, leftActive) * -1.0 else UnderlayWidth(cfg, leftActive)
  }

  /** The three resting positions a row is ever sent to: open left, closed,
      open right. */
  function Targets(cfg: Config): set<real>
  {
    {-cfg.widthLeft, 0.0, cfg.widthRight}
  }

  /** The target chosen when the finger lifts:
      `cond(exceedsThreshold, underlayPosition, 0)`. It is always one of the
      three resting positions; for non-negative widths it is the open position
      of the side the row is on when the row is more than half open, and zero
      otherwise. */
  function ReleaseTarget(cfg: Config, pos: real, panX: real): (t: real)
    ensures t in Targets(cfg)
    ensures cfg.widthLeft >= 0.0 && cfg.widthRight >= 0.0 ==>
              t == (if pos < 0.0 && -pos > cfg.widthLeft / 2.0 then -cfg.widthLeft
                    else if pos > 0.0 && pos > cfg.widthRight / 2.0 then cfg.widthRight
                    else 0.0)
  {
    if ExceedsThreshold(cfg, pos) then UnderlayPosition(cfg, RowLeftActive(pos, panX)) else 0.0
  }

  /** percentOpenLeft (SwipeableItem only): getOpenPct of the left side. */
  function PercentOpenLeft(cfg: Config, pos: real): (pct: real)
    requires SwipingLeft(pos) ==> cfg.widthLeft != 0.0
    ensures cfg.HasLeft() ==> pct >= 0.0
    ensures cfg.HasLeft() ==> (pct >= 1.0 <==> pos <= -cfg.widthLeft)
    ensures pos >= 0.0 ==> pct == 0.0
  {
    Procs.OpenPct(SwipingLeft(pos), pos, cfg.widthLeft)
  }

  /** percentOpenRight (SwipeableItem only): getOpenPct of the right side. */
  function PercentOpenRight(cfg: Config, pos: real): (pct: real)
    requires SwipingRight(pos) ==> cfg.widthRight != 0.0
    ensures cfg.HasRight() ==> pct >= 0.0
    ensures cfg.HasRight() ==> (pct >= 1.0 <==> pos >= cfg.widthRight)
    ensures pos <= 0.0 ==> pct == 0.0
  {
    Procs.OpenPct(SwipingRight(pos), pos, cfg.widthRight)
  }

  /** isOpen: the row is at least as far out as the underlay in play is wide. */
  predicate IsOpen(cfg: Config, pos: real, panX: real)
    ensures pos == 0.0 ==> (IsOpen(cfg, pos, panX) <==> (if panX < 0.0 then cfg.widthLeft else cfg.widthRight) <= 0.0)
    ensures pos < 0.0 ==> (IsOpen(cfg, pos, panX) <==> pos <= -cfg.widthLeft)
    ensures pos > 0.0 ==> (IsOpen(cfg, pos, panX) <==> pos >= cfg.widthRight)
  {
    Procs.Abs(pos) >= UnderlayWidth(cfg, RowLeftActive(pos, panX))
  }

  /** isClosed: `|position| - underlayWidth <= 0`. */
  predicate IsClosed(cfg: Config, pos: real, panX: real)
    ensures pos == 0.0 && cfg.widthLeft >= 0.0 && cfg.widthRight >= 0.0 ==> IsClosed(cfg, pos, panX)
    ensures pos < 0.0 ==> (IsClosed(cfg, pos, panX) <==> pos >= -cfg.widthLeft)
    ensures pos > 0.0 ==> (IsClosed(cfg, pos, panX) <==> pos <= cfg.widthRight)
  {
    Procs.Abs(pos) - UnderlayWidth(cfg, RowLeftActive(pos, panX)) <= 0.0
  }

  /** The two nodes are not complements: every position is open or closed, and
      both hold exactly at the edge of the underlay in play. Off zero, "open"
      on the left side is the same as the left percent-open reaching one. */
  lemma OpenClosedCover(cfg: Config, pos: real, panX: real)
    ensures IsOpen(cfg, pos, panX) || IsClosed(cfg, pos, panX)
    ensures IsOpen(cfg, pos, panX) && IsClosed(cfg, pos, panX)
            <==> Procs.Abs(pos) == UnderlayWidth(cfg, RowLeftActive(pos, panX))
    ensures pos < 0.0 && cfg.HasLeft() ==>
              (IsOpen(cfg, pos, panX) <==> PercentOpenLeft(cfg, pos) >= 1.0)
    ensures pos > 0.0 && cfg.HasRight() ==>
              (IsOpen(cfg, pos, panX) <==> PercentOpenRight(cfg, pos) >= 1.0)
  {
  }
}
