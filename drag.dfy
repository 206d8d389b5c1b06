/** The drag state machine of one swipable card: live feedback while the finger
    moves, and a three-way decision when it is lifted. */
module Drag {
  import Cards

  /** A two-dimensional translation or offset, in screen points. */
  datatype Size = Size(width: real, height: real)

  const Zero := Size(0.0, 0.0)

  /** The horizontal distance a release must exceed, strictly, to commit a swipe. */
  const Threshold: real := 100.0

  /** Degrees of tilt are the horizontal translation divided by this. */
  const TiltDivisor: real := 10.0

  /** What a release reports to the owner of the card: nothing, or one of the two callbacks. */
  datatype SwipeEvent = None | Left | Right

  function Plus(a: Size, b: Size): Size
  {
    Size(a.width + b.width, a.height + b.height)
  }

  function Abs(x: real): (r: real)
    ensures r >= 0.0 && (r == x || r == -x)
  {
    if x < 0.0 then -x else x
  }

  /** The tilt for a horizontal translation: proportional, same sign, never clamped. */
  function Tilt(width: real): (degrees: real)
    ensures degrees * TiltDivisor == width
    ensures degrees > 0.0 <==> width > 0.0
    ensures degrees < 0.0 <==> width < 0.0
  {
    width / TiltDivisor
  }

  /** The tilt has no bound either way: any angle is exceeded by some drag to the right
      and undercut by some drag to the left. */
  lemma TiltUnbounded(bound: real)
    ensures exists width :: Tilt(width) > bound
    ensures exists width :: Tilt(width) < bound
  {
    var right := TiltDivisor * bound + TiltDivisor;
    assert Tilt(right) > bound;
    var left := TiltDivisor * bound - TiltDivisor;
    assert Tilt(left) < bound;
  }

  /** The decision taken on release, by the horizontal translation alone. */
  function Decide(width: real): (e: SwipeEvent)
    ensures e == Right <==> width > Threshold
    ensures e == Left <==> width < -Threshold
    ensures e == None <==> -Threshold <= width <= Threshold
  {
    if Abs(width) > Threshold then
      if width > 0.0 then Right else Left
    else
      None
  }

  /** The translation at exactly the threshold, either way, cancels. */
  lemma BoundaryCancels(t: Size)
    requires Abs(t.width) == Threshold
    ensures Decide(t.width) == None
  {
  }

  /** The per-card view state: the committed offset, the live drag and the tilt. */
  class SwipableCard {
    var offset: Size
    var dragAmount: Size
    var rotation: real
    const card: Cards.Card

    constructor (card: Cards.Card)
      ensures AtRest() && this.card == card
    {
      this.card := card;
      offset := Zero;
      dragAmount := Zero;
      rotation := 0.0;
    }

    /** All three fields are back at zero. */
    predicate AtRest()
      reads this
    {
      offset == Zero && dragAmount == Zero && rotation == 0.0
    }

    /** Where the card is drawn: the committed offset plus the live drag. */
    function Position(): (p: Size)
      reads this
      ensures AtRest() ==> p == Zero
      ensures dragAmount == Zero ==> p == offset
      ensures offset == Zero ==> p == dragAmount
    {
      Plus(offset, dragAmount)
    }

    /** A drag update: follow the finger and tilt, leave the committed offset alone. */
    method OnChanged(translation: Size)
      modifies this
      ensures dragAmount == translation
      ensures rotation == Tilt(translation.width)
      ensures offset == old(offset)
    {
      dragAmount := translation;
      rotation := Tilt(translation.width);
    }

    /** The release: commit beyond the threshold, otherwise snap back to rest. */
    method OnEnded(translation: Size) returns (e: SwipeEvent)
      modifies this
      ensures e == Decide(translation.width)
      ensures e == None ==> AtRest()
      ensures e != None ==> offset == translation
      ensures e != None ==> dragAmount == old(dragAmount) && rotation == old(rotation)
      ensures e != None ==> Position() == Plus(translation, old(dragAmount))
      ensures e != None && old(dragAmount) == translation ==>
                Position() == Size(2.0 * translation.width, 2.0 * translation.height)
    {
      if Abs(translation.width) > Threshold {
        if translation.width > 0.0 {
          e := Right;
        } else {
          e := Left;
        }
        offset := Size(translation.width, translation.height);
      } else {
        e := None;
        offset := Zero;
        dragAmount := Zero;
        rotation := 0.0;
      }
    }
  }
}
