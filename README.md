# NRSwipableCardView — a Dafny model of the swipe logic

NRSwipableCardView is a SwiftUI widget: a stack of cards that the user drags left or
right, dating-app style. This project models the two pieces of it that hold logic.

- **The drag state machine of `SwipableCardView`** (module `Drag`, `drag.dfy`). The view
  keeps three state fields: the committed `offset`, the live `dragAmount` and the tilt
  `rotation`. A drag update stores the translation and tilts the card by width / 10
  degrees, with no clamping. A release whose horizontal translation is strictly beyond
  100 points commits. It fires exactly one of the two callbacks, chosen by the sign of
  the width, and stores the translation in `offset`. Any other release snaps back, with
  all three fields at zero. The class `SwipableCard` holds the three fields. The
  methods `OnChanged` and `OnEnded` are the gesture handlers. The callbacks become the
  returned `SwipeEvent`: `None`, `Left` or `Right`.
- **The card stack of `CardStackView`** (module `Stack`, `stack.dfy`). `RemoveCard`
  finds the first card with the swiped card's id (`FirstIndex`) and deletes it from the
  `cards` sequence. When no card has that id, it does nothing. Both swipe handlers
  funnel into it. The stack draws its sequence reversed, so the first card is on top.
  `Release` models the closures the stack hands each card view: a
  committed release, in either direction, removes that view's card.
- **Cards** (module `Cards`, `cards.dfy`) are values with an abstract id. Each card
  built with its initializer gets a fresh id from `UUID()`. `Card` is a struct, though,
  so a host could put one card value into the array twice, and the copies would share
  an id. The model assumes each card is built once and added once, which SwiftUI's
  `ForEach` also needs, since it tells rows apart by id. `CardStack.Valid()` states
  that distinctness.

Removal is specified by the recursive function `Without`. The lemmas about it say
the following. An absent id leaves the sequence unchanged. A present id deletes exactly
its first occurrence, so the length drops by one and the other cards keep their order.
The multiset loses exactly that card. With distinct ids, the id is gone afterwards and
removing it again changes nothing.

Translations are modelled as `real`, so the division by 10 is exact. The method
`SwipeScenario` walks through three cards `[A, B, C]`, with A on top. A dragged 150
points right is swiped right, leaving `[B, C]`, and its view is drawn 300 points right.
B, now on top, is dragged 50 points left, snaps back and stays.

Only snap-back resets the drag state. A commit leaves `dragAmount` and `rotation` at
their last drag values. The rendered position `offset + dragAmount` is therefore the
release translation plus the last drag translation. When the two are equal, the card is
drawn at twice the translation, as `OnEnded` states.

## Model

| member | source | states |
|---|---|---|
| Drag.Tilt | Sources/NRSwipableCardView/NRSwipableCardView.swift:68 | the tilt times 10 is the horizontal translation; it is positive, negative or zero exactly as the width is |
| Drag.TiltUnbounded | Sources/NRSwipableCardView/NRSwipableCardView.swift:68 | the tilt is not clamped either way: every angle is exceeded by some drag and undercut by another |
| Drag.Decide | Sources/NRSwipableCardView/NRSwipableCardView.swift:72-79 | the release is a right swipe iff width > 100, a left swipe iff width < -100, and cancelled iff -100 <= width <= 100 |
| Drag.BoundaryCancels | Sources/NRSwipableCardView/NRSwipableCardView.swift:72 | a release at exactly ±100 points is cancelled (the comparison is strict) |
| Drag.SwipableCard.constructor | Sources/NRSwipableCardView/NRSwipableCardView.swift:46-58 | a new card view holds its card and starts with offset, drag and rotation at zero |
| Drag.SwipableCard.Position | Sources/NRSwipableCardView/NRSwipableCardView.swift:62 | the card is drawn at offset + dragAmount: at the origin when at rest, at the committed offset when there is no live drag, and at the live drag when nothing is committed |
| Drag.SwipableCard.OnChanged | Sources/NRSwipableCardView/NRSwipableCardView.swift:66-69 | a drag update sets dragAmount to the translation and rotation to its width / 10, and leaves offset untouched |
| Drag.SwipableCard.OnEnded | Sources/NRSwipableCardView/NRSwipableCardView.swift:70-88 | the release fires exactly the event Decide gives; a commit stores the translation in offset and keeps dragAmount and rotation, so the rendered position is the sum of the two; a cancel puts all three fields at zero |
| Stack.Without | Sources/NRSwipableCardView/NRSwipableCardView.swift:125-129 | removal never lengthens the stack and never adds a card (multiset inclusion) |
| Stack.WithoutAbsent | Sources/NRSwipableCardView/NRSwipableCardView.swift:126 | removing an id no card carries leaves the sequence unchanged |
| Stack.WithoutFirstMatch | Sources/NRSwipableCardView/NRSwipableCardView.swift:126-127 | removing an id whose first occurrence is at i yields cards[..i] + cards[i+1..]: exactly that element goes, the rest keep their order, the length drops by one |
| Stack.WithoutMultiset | Sources/NRSwipableCardView/NRSwipableCardView.swift:127 | removal takes exactly one copy of the matched card out of the multiset of cards |
| Stack.WithoutDistinct | Sources/NRSwipableCardView/NRSwipableCardView.swift:5-6 | with distinct ids, no card with the removed id remains and the ids stay distinct |
| Stack.WithoutIdempotent | Sources/NRSwipableCardView/NRSwipableCardView.swift:126 | with distinct ids, a second removal of the same id changes nothing |
| Stack.FirstIndex | Sources/NRSwipableCardView/NRSwipableCardView.swift:126 | returns the least index whose card has the id, and nothing exactly when no card has it |
| Stack.CardStack.constructor | Sources/NRSwipableCardView/NRSwipableCardView.swift:95-99 | the stack starts with the given cards, in the given order |
| Stack.CardStack.RemoveCard | Sources/NRSwipableCardView/NRSwipableCardView.swift:125-129 | the new cards are Without(old cards, id), and the ids stay distinct |
| Stack.CardStack.HandleSwipeLeft | Sources/NRSwipableCardView/NRSwipableCardView.swift:113-117 | a left swipe removes the card, exactly as RemoveCard does |
| Stack.CardStack.HandleSwipeRight | Sources/NRSwipableCardView/NRSwipableCardView.swift:119-123 | a right swipe removes the card, exactly as RemoveCard does; the direction is not recorded |
| Stack.CardStack.Release | Sources/NRSwipableCardView/NRSwipableCardView.swift:104-106 | a release on a card view fires Decide's event; a commit in either direction removes that view's card, sets the view's offset to the translation and keeps its dragAmount and rotation; a cancel leaves the stack unchanged and the view at rest |

## Left out

- Rendering (`CardView.body`, frame sizes, corner radius, shadow, padding, the `Image` and `Color` payloads): it is layout only. The card colours are not fields of `Card` here.
- Draw order (`ForEach(cards.reversed())`): it only decides which card is in front, and the first card of the sequence ends up on top. The model keeps the sequence order and does not model drawing.
- `withAnimation` and `.animation(.spring())`: animation has no effect on the state values.
- The `print` calls in the swipe handlers: console output.
- `UUID()` generation: a foreign call. Ids are abstract values, and their distinctness is the stack's invariant, which the constructor requires of its input. The source does not enforce it: a host that inserts one card value twice gets two cards with one id.
- Floating-point `CGFloat` and `Double`: translations and angles are exact reals, with no rounding.
- Gesture recognition and event delivery by SwiftUI: the handlers are methods called with a translation.
- The rule that only the topmost card takes gestures: it comes from the view hierarchy. It is not part of this model.
