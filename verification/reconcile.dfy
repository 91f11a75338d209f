/** How the board client folds pushed events into its card list
    (client/src/components/Board.tsx, lines 220-231), and the two local edits
    that mirror them (lines 342-344 and 380). */
module Reconcile {
  import opened Seqs
  import opened Cards

  /** `prev.map(c => c._id === id ? data : c)`: every card with `id` becomes `data`. */
  function ReplaceById(cards: seq<Card>, id: CardId, data: Card): (r: seq<Card>)
    ensures |r| == |cards|
    ensures forall i :: 0 <= i < |r| ==> r[i] == if cards[i].id == id then data else cards[i]
  {
    seq(|cards|, i requires 0 <= i < |cards| => if cards[i].id == id then data else cards[i])
  }

  /** The `cardUpdated` handler: replace the card with the same id if there is
      one, otherwise append the new card. */
  function Upsert(cards: seq<Card>, data: Card): (r: seq<Card>)
    ensures HasId(r, data.id)
    ensures forall i :: 0 <= i < |r| && r[i].id == data.id ==> r[i] == data
    ensures Without(r, data.id) == Without(cards, data.id)
    ensures HasId(cards, data.id) ==> Ids(r) == Ids(cards)
    ensures !HasId(cards, data.id) ==> r == cards + [data]
  {
    if HasId(cards, data.id) then
      var r := ReplaceById(cards, data.id, data);
      assert HasId(r, data.id);
      SameOutside(cards, r, data.id);
      r
    else
      var r := cards + [data];
      assert r[|cards|].id == data.id;
      FilterAppend(IdIsNot(data.id), cards, [data]);
      r
  }

  /** Two lists that agree wherever the id differs from `id` keep the same
      cards once `id` is filtered out. */
  lemma {:induction false} SameOutside(a: seq<Card>, b: seq<Card>, id: CardId)
    requires |a| == |b|
    requires forall i :: 0 <= i < |a| ==> (a[i].id == id <==> b[i].id == id)
    requires forall i :: 0 <= i < |a| && a[i].id != id ==> a[i] == b[i]
    ensures Without(a, id) == Without(b, id)
  {
    if a != [] {
      SameOutside(a[1..], b[1..], id);
    }
  }

  /** The `cardDeleted` handler: drop every card with that id, keep the rest in order. */
  function RemoveCard(cards: seq<Card>, id: CardId): (r: seq<Card>)
    ensures !HasId(r, id)
    ensures forall i :: 0 <= i < |cards| && cards[i].id != id ==> cards[i] in r
    ensures multiset(r) <= multiset(cards)
  {
    FilterMultiset(IdIsNot(id), cards);
    FilterMembers(IdIsNot(id), cards);
    var r := Without(cards, id);
    assert forall i :: 0 <= i < |r| ==> IdIsNot(id)(r[i]);
    r
  }

  /** The kept cards stay in their order, every copy included: a card
      survives the filter exactly when its id differs, wherever it sits. */
  lemma RemoveCardKeepsOrder(before: seq<Card>, c: Card, after: seq<Card>, id: CardId)
    ensures RemoveCard([], id) == []
    ensures RemoveCard(before + [c] + after, id)
      == RemoveCard(before, id) + (if c.id == id then [] else [c]) + RemoveCard(after, id)
  {
    FilterAround(IdIsNot(id), before, c, after);
  }

  /** Applying a `cardUpdated` event twice is applying it once. */
  lemma UpsertIdempotent(cards: seq<Card>, data: Card)
    ensures Upsert(Upsert(cards, data), data) == Upsert(cards, data)
  {
    var once := Upsert(cards, data);
    var twice := Upsert(once, data);
    assert twice == ReplaceById(once, data.id, data);
    assert forall i :: 0 <= i < |once| ==> twice[i] == once[i];
  }

  /** Applying a `cardDeleted` event twice is applying it once. The deleter
      filters the card out itself (line 380) and then receives its own
      `cardDeleted` event, which therefore changes nothing. */
  lemma RemoveIdempotent(cards: seq<Card>, id: CardId)
    ensures RemoveCard(RemoveCard(cards, id), id) == RemoveCard(cards, id)
  {
    FilterTwice(IdIsNot(id), IdIsNot(id), cards);
  }

  /** A deletion for an id the list does not hold changes nothing. */
  lemma RemoveAbsent(cards: seq<Card>, id: CardId)
    requires !HasId(cards, id)
    ensures RemoveCard(cards, id) == cards
  {
    forall i | 0 <= i < |cards| ensures IdIsNot(id)(cards[i]) {
      assert cards[i].id != id;
    }
    FilterAll(IdIsNot(id), cards);
  }

  /** Creating: the creator appends the saved card (line 362); every other
      client upserts the `cardUpdated` event; the two lists agree, and the
      creator's own copy of the event changes nothing. */
  lemma CreateConverges(cards: seq<Card>, saved: Card)
    requires !HasId(cards, saved.id)
    ensures Upsert(cards, saved) == cards + [saved]
    ensures Upsert(cards + [saved], saved) == cards + [saved]
  {
    UpsertIdempotent(cards, saved);
  }

  /** Editing: the editor replaces the card by id (lines 342-344); other
      clients upsert the `cardUpdated` event; when the card is on the board
      the two lists agree, and the editor's own copy of the event changes nothing. */
  lemma UpdateConverges(cards: seq<Card>, updated: Card)
    requires HasId(cards, updated.id)
    ensures Upsert(cards, updated) == ReplaceById(cards, updated.id, updated)
    ensures Upsert(ReplaceById(cards, updated.id, updated), updated) == ReplaceById(cards, updated.id, updated)
  {
    UpsertIdempotent(cards, updated);
  }
}
