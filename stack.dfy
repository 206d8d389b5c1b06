/** The card stack: an ordered sequence of cards from which a swiped card is removed
    by identity. The stack draws the sequence reversed, so the first card is on top. */
module Stack {
  import opened Cards
  import Drag

  /** The sequence with its first card of the given id deleted, and unchanged when
      no card has that id. This is the specification of removal. */
  function Without(cards: seq<Card>, id: CardId): (r: seq<Card>)
    ensures |r| <= |cards|
    ensures multiset(r) <= multiset(cards)
  {
    if cards == [] then []
    else
      assert cards == [cards[0]] + cards[1..];
      if cards[0].id == id then cards[1..]
      else [cards[0]] + Without(cards[1..], id)
  }

  /** Removing an id that is absent leaves the sequence as it was. */
  lemma {:induction false} WithoutAbsent(cards: seq<Card>, id: CardId)
    requires !HasId(cards, id)
    ensures Without(cards, id) == cards
  {
    if cards != [] {
      assert cards[0].id != id;
      assert !HasId(cards[1..], id) by {
        forall k | 0 <= k < |cards[1..]| ensures cards[1..][k].id != id {
          assert cards[1..][k] == cards[k + 1];
        }
      }
      WithoutAbsent(cards[1..], id);
      assert cards == [cards[0]] + cards[1..];
    }
  }

  /** Removing an id whose first occurrence is at index i deletes exactly that element:
      everything before it and everything after it stays, in the same order. */
  lemma {:induction false} WithoutFirstMatch(cards: seq<Card>, id: CardId, i: nat)
    requires i < |cards| && cards[i].id == id
    requires forall k :: 0 <= k < i ==> cards[k].id != id
    ensures Without(cards, id) == cards[..i] + cards[i + 1..]
    ensures |Without(cards, id)| == |cards| - 1
  {
    if i > 0 {
      WithoutFirstMatch(cards[1..], id, i - 1);
      assert cards[1..][..i - 1] + cards[1..][i..] == cards[1..i] + cards[i + 1..];
      assert cards[..i] == [cards[0]] + cards[1..i];
    }
  }

  /** Removal takes exactly one copy of the removed card out of the multiset of cards. */
  lemma WithoutMultiset(cards: seq<Card>, id: CardId, i: nat)
    requires i < |cards| && cards[i].id == id
    requires forall k :: 0 <= k < i ==> cards[k].id != id
    ensures multiset(Without(cards, id)) + multiset{cards[i]} == multiset(cards)
  {
    WithoutFirstMatch(cards, id, i);
    assert cards == cards[..i] + [cards[i]] + cards[i + 1..];
  }

  /** Element k of the sequence with index i deleted is element k or k + 1 of the original. */
  lemma DeletedAt(cards: seq<Card>, i: nat, k: nat)
    requires i < |cards| && k < |cards| - 1
    ensures (cards[..i] + cards[i + 1..])[k] == cards[if k < i then k else k + 1]
  {
  }

  /** In a stack of distinct ids, removal leaves no card with that id behind and keeps
      the ids distinct. */
  lemma WithoutDistinct(cards: seq<Card>, id: CardId)
    requires DistinctIds(cards)
    ensures !HasId(Without(cards, id), id)
    ensures DistinctIds(Without(cards, id))
  {
    if HasId(cards, id) {
      var i :| 0 <= i < |cards| && cards[i].id == id;
      WithoutFirstMatch(cards, id, i);
      var r := Without(cards, id);
      forall k | 0 <= k < |r| ensures r[k].id != id {
        DeletedAt(cards, i, k);
      }
      forall a, b | 0 <= a < b < |r| ensures r[a].id != r[b].id {
        DeletedAt(cards, i, a);
        DeletedAt(cards, i, b);
      }
    } else {
      WithoutAbsent(cards, id);
    }
  }

  /** In a stack of distinct ids, removing the same id twice is removing it once. */
  lemma WithoutIdempotent(cards: seq<Card>, id: CardId)
    requires DistinctIds(cards)
    ensures Without(Without(cards, id), id) == Without(cards, id)
  {
    WithoutDistinct(cards, id);
    WithoutAbsent(Without(cards, id), id);
  }

  /** The index of the first card with the given id, if there is one. */
  method FirstIndex(cards: seq<Card>, id: CardId) returns (index: Option<nat>)
    ensures index.Some? ==> index.value < |cards| && cards[index.value].id == id
    ensures index.Some? ==> forall k :: 0 <= k < index.value ==> cards[k].id != id
    ensures index.None? <==> !HasId(cards, id)
  {
    var i := 0;
    while i < |cards|
      invariant i <= |cards|
      invariant forall k :: 0 <= k < i ==> cards[k].id != id
    {
      if cards[i].id == id {
        return Some(i);
      }
      i := i + 1;
    }
    return None;
  }

  /** The stack view's state: the cards still on the table. */
  class CardStack {
    var cards: seq<Card>

    /** Fresh UUIDs make every id in the stack distinct. */
    ghost predicate Valid()
      reads this
    {
      DistinctIds(cards)
    }

    constructor (cards: seq<Card>)
      requires DistinctIds(cards)
      ensures Valid() && this.cards == cards
    {
      this.cards := cards;
    }

    /** Delete the first card whose id is the given card's; a no-op when there is none. */
    method RemoveCard(card: Card)
      requires Valid()
      modifies this
      ensures Valid()
      ensures cards == Without(old(cards), card.id)
    {
      WithoutDistinct(cards, card.id);
      var index := FirstIndex(cards, card.id);
      if index.Some? {
        WithoutFirstMatch(cards, card.id, index.value);
        cards := cards[..index.value] + cards[index.value + 1..];
      } else {
        WithoutAbsent(cards, card.id);
      }
    }

    /** The left-swipe callback: remove the card. */
    method HandleSwipeLeft(card: Card)
      requires Valid()
      modifies this
      ensures Valid()
      ensures cards == Without(old(cards), card.id)
    {
      RemoveCard(card);
    }

    /** The right-swipe callback: remove the card; the direction is not recorded. */
    method HandleSwipeRight(card: Card)
      requires Valid()
      modifies this
      ensures Valid()
      ensures cards == Without(old(cards), card.id)
    {
      RemoveCard(card);
    }

    /** A release on one card's view, delivered through the callbacks the stack gave it:
        a committed swipe either way removes that card, a cancelled one removes nothing. */
    method Release(view: Drag.SwipableCard, translation: Drag.Size) returns (e: Drag.SwipeEvent)
      requires Valid()
      modifies this, view
      ensures Valid()
      ensures e == Drag.Decide(translation.width)
      ensures e == Drag.None ==> cards == old(cards) && view.AtRest()
      ensures e != Drag.None ==> cards == Without(old(cards), view.card.id)
      ensures e != Drag.None ==> view.offset == translation
      ensures e != Drag.None ==> view.dragAmount == old(view.dragAmount) && view.rotation == old(view.rotation)
    {
      e := view.OnEnded(translation);
      if e == Drag.Left {
        HandleSwipeLeft(view.card);
      } else if e == Drag.Right {
        HandleSwipeRight(view.card);
      }
    }
  }

  /** Three cards A, B, C with A on top: A dragged 150 points right is swiped right and
      leaves [B, C], with A's view drawn at twice the drag; B, now on top, dragged 50 points
      left snaps back and stays. */
  method SwipeScenario(a: Card, b: Card, c: Card)
    requires DistinctIds([a, b, c])
  {
    var stack := new CardStack([a, b, c]);
    var top := new Drag.SwipableCard(a);
    top.OnChanged(Drag.Size(150.0, 0.0));
    var e := stack.Release(top, Drag.Size(150.0, 0.0));
    assert e == Drag.Right;
    assert top.dragAmount == Drag.Size(150.0, 0.0);
    assert top.Position() == Drag.Size(300.0, 0.0);
    WithoutFirstMatch([a, b, c], a.id, 0);
    assert stack.cards == [b, c];
    var next := new Drag.SwipableCard(b);
    next.OnChanged(Drag.Size(-50.0, 0.0));
    e := stack.Release(next, Drag.Size(-50.0, 0.0));
    assert e == Drag.None;
    assert stack.cards == [b, c] && next.AtRest();
  }
}
