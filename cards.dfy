/** The card data model: a card is an immutable value identified by its id. */
module Cards {

  /** A card identity. The source draws it from UUID(); here it is an abstract value
      whose only use is comparison for equality. */
  datatype CardId = CardId(uuid: nat)

  /** One swipable item. The colour payloads are not part of this model. */
  datatype Card = Card(id: CardId, imageName: string, name: string)

  datatype Option<T> = None | Some(value: T)

  /** No two cards of the sequence share an id (what fresh UUIDs give the stack). */
  predicate DistinctIds(cards: seq<Card>)
  {
    forall i, j :: 0 <= i < j < |cards| ==> cards[i].id != cards[j].id
  }

  /** Some card of the sequence carries the id. */
  predicate HasId(cards: seq<Card>, id: CardId)
  {
    exists k :: 0 <= k < |cards| && cards[k].id == id
  }
}
