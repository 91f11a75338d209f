/** Properties that join the board client, the card form and the card
    server: what a submitted form becomes on the server, and how the
    client's optimistic column after a drag agrees with the column the
    server returns once the reorder is stored. */
module Flows {
  import opened Seqs
  import opened Cards
  import opened Planner
  import opened Board
  import opened Reconcile
  import opened CardSchema
  import opened CardStore
  import opened CardForm

  /** A new card whose form passed `handleSubmit`, with one of the listed
      priorities, is accepted by the schema; it is stored in the chosen
      column with the order the board computed. */
  lemma SubmittedNewCardAccepted(cards: seq<Card>, fd: PartialCard, id: CardId)
    requires Submittable(fd) && PriorityAllowed(fd.priority)
    ensures NewCard(id, NewCardBody(cards, fd)).Ok?
    ensures NewCard(id, NewCardBody(cards, fd)).value.columnId == fd.columnId.value
    ensures NewCard(id, NewCardBody(cards, fd)).value.order == |InColumn(cards, fd.columnId.value)|
    ensures NewCard(id, NewCardBody(cards, fd)).value.title == fd.title.value
  {
    var body := NewCardBody(cards, fd);
    assert body.title == fd.title && body.priority == fd.priority;
  }

  lemma IdsHas(s: seq<Card>, x: CardId)
    requires x in Ids(s)
    ensures HasId(s, x)
  {
    var i :| 0 <= i < |Ids(s)| && Ids(s)[i] == x;
    assert s[i].id == x;
  }

  lemma HasIds(s: seq<Card>, i: nat)
    requires i < |s|
    ensures s[i].id in Ids(s)
  {
    assert Ids(s)[i] == s[i].id;
  }

  /** A card of the destination column other than the moved one is among
      the remaining cards of that column. */
  lemma StaysInDest(cards: seq<Card>, m: Move, t: nat)
    requires t < |cards| && cards[t].id != m.moved.id && cards[t].columnId == m.destColumn
    ensures cards[t].id in Ids(InColumn(Others(cards, m), m.destColumn))
  {
    FilterMembers(IdIsNot(m.moved.id), cards);
    FilterMembers(ColumnIs(m.destColumn), Others(cards, m));
    assert IdIsNot(m.moved.id)(cards[t]);
    assert cards[t] in Others(cards, m);
    assert ColumnIs(m.destColumn)(cards[t]);
    var w := InColumn(Others(cards, m), m.destColumn);
    var u :| 0 <= u < |w| && w[u] == cards[t];
    HasIds(w, u);
  }

  /** The remaining cards of the destination column come from `cards`. */
  lemma DestFromCards(cards: seq<Card>, m: Move, x: CardId)
    requires x in Ids(InColumn(Others(cards, m), m.destColumn))
    ensures HasId(cards, x)
  {
    var w := InColumn(Others(cards, m), m.destColumn);
    IdsHas(w, x);
    var i :| 0 <= i < |w| && w[i].id == x;
    FilterMembers(IdIsNot(m.moved.id), cards);
    FilterMembers(ColumnIs(m.destColumn), Others(cards, m));
    assert w[i] in Others(cards, m);
    assert w[i] in cards;
  }

  /** The destination id list of a move names stored cards only. */
  lemma DestCommitStored(store: map<CardId, Card>, cards: seq<Card>, m: Move)
    requires IsListing(store, cards) && m.moved in cards
    ensures forall x :: x in Ids(DestCards(cards, m)) ==> x in store
  {
    var ids := Ids(DestCards(cards, m));
    DestIds(cards, m);
    forall x | x in ids ensures x in store {
      assert x in multiset(ids);
      if x != m.moved.id {
        DestFromCards(cards, m, x);
      }
    }
  }

  /** The destination id list of a move names every stored card of the
      destination column. */
  lemma DestCommitCovers(store: map<CardId, Card>, cards: seq<Card>, m: Move)
    requires IsListing(store, cards) && m.moved in cards
    ensures forall k :: k in store && store[k].columnId == m.destColumn ==> k in Ids(DestCards(cards, m))
  {
    var ids := Ids(DestCards(cards, m));
    DestIds(cards, m);
    forall k | k in store && store[k].columnId == m.destColumn ensures k in ids {
      if k != m.moved.id {
        var t :| 0 <= t < |cards| && cards[t].id == k;
        StaysInDest(cards, m, t);
      }
      assert k in multiset(ids);
    }
  }

  /** A card of a listing is the stored card under its id. */
  lemma ListedIsStored(store: map<CardId, Card>, cards: seq<Card>, c: Card)
    requires IsListing(store, cards) && c in cards
    ensures c.id in store && store[c.id] == c
  {
    var j :| 0 <= j < |cards| && cards[j] == c;
  }

  /** A card of the destination column before the splice is a card of the list. */
  lemma DestBeforeFromCards(cards: seq<Card>, m: Move, j: nat)
    requires j < |DestBefore(cards, m)|
    ensures DestBefore(cards, m)[j] in cards
  {
    var w := InColumn(Others(cards, m), m.destColumn);
    assert DestBefore(cards, m)[j] in multiset(w);
    FilterMembers(ColumnIs(m.destColumn), Others(cards, m));
    FilterMembers(IdIsNot(m.moved.id), cards);
  }

  /** The i-th card of the client's optimistic destination column is the
      stored card with that id, moved to the column with order i: exactly
      what the reorder writes for the i-th listed id. */
  lemma DestCardFromStore(store: map<CardId, Card>, cards: seq<Card>, m: Move, i: nat)
    requires IsListing(store, cards) && m.moved in cards
    requires i < |DestCards(cards, m)|
    ensures DestCards(cards, m)[i].id in store
    ensures DestCards(cards, m)[i] == store[DestCards(cards, m)[i].id].(columnId := m.destColumn, order := i)
  {
    var d := DestBefore(cards, m);
    var k := if m.index <= |d| then m.index else |d|;
    RenumberSplice(d, m.index, Landed(m));
    DestBeforeInColumn(cards, m);
    ListedIsStored(store, cards, m.moved);
    if i < k {
      DestBeforeFromCards(cards, m, i);
      ListedIsStored(store, cards, d[i]);
    } else if i > k {
      DestBeforeFromCards(cards, m, i - 1);
      ListedIsStored(store, cards, d[i - 1]);
    }
  }

  /** A card a listing renders in a column is the stored card under its id. */
  lemma VisibleIsStored(s: map<CardId, Card>, r: seq<Card>, col: ColumnId, i: nat)
    requires IsListing(s, r) && i < |Visible(r, col)|
    ensures Visible(r, col)[i].id in s && s[Visible(r, col)[i].id] == Visible(r, col)[i]
  {
    ListingColumn(s, r, col);
    FilterMembers(ColumnIs(col), r);
    assert Visible(r, col)[i] in r;
    ListedIsStored(s, r, Visible(r, col)[i]);
  }

  /** Once a column's id list is stored by a reorder, the i-th card a later
      listing renders in that column is the i-th listed card, when that card
      is the stored one moved to the column with order i. */
  lemma ListedReorderedCard(store: map<CardId, Card>, col: ColumnId, dc: seq<Card>, r: seq<Card>, i: nat)
    requires Distinct(Ids(dc)) && i < |dc|
    requires dc[i].id in store && dc[i] == store[dc[i].id].(columnId := col, order := i)
    requires IsListing(ApplyOps(store, ReorderOps(col, Ids(dc))), r)
    requires Ids(Visible(r, col)) == Ids(dc)
    ensures Visible(r, col)[i] == dc[i]
  {
    var ids := Ids(dc);
    var v := Visible(r, col);
    assert |v| == |ids|;
    VisibleIsStored(ApplyOps(store, ReorderOps(col, ids)), r, col, i);
    assert v[i].id == ids[i] == dc[i].id;
    assert ids[i] !in ids[i + 1..];
    ReorderSetsListed(store, col, ids, i);
  }

  /** The round trip of a drag, end to end. When the client's list is a
      listing of the store, the destination commit of a move names distinct
      stored cards covering the column; once the server has applied it, the
      column a later `getCards` renders is the client's optimistic
      destination column, card for card, with orders 0..n-1. */
  lemma DragCommitConverges(store: map<CardId, Card>, cards: seq<Card>, drop: DropResult, r: seq<Card>)
    requires StoreValid(store) && IsListing(store, cards)
    requires PlanDrop(cards, drop).Some?
    requires
      var m := PlanDrop(cards, drop).value;
      IsListing(ApplyOps(store, ReorderOps(m.destColumn, Ids(DestCards(cards, m)))), r)
    ensures
      var m := PlanDrop(cards, drop).value;
      Ids(Visible(r, m.destColumn)) == Ids(Visible(FinalCards(cards, m), m.destColumn))
    ensures
      var m := PlanDrop(cards, drop).value;
      Visible(r, m.destColumn) == Visible(FinalCards(cards, m), m.destColumn)
    ensures Dense(r, PlanDrop(cards, drop).value.destColumn)
  {
    var m := PlanDrop(cards, drop).value;
    var ids := Ids(DestCards(cards, m));
    CommitIdsDistinct(cards, m);
    DestCommitStored(store, cards, m);
    DestCommitCovers(store, cards, m);
    forall i | 0 <= i < |ids| ensures ids[i] in store {
      assert ids[i] in ids;
    }
    ReorderRoundTrip(store, m.destColumn, ids, r);
    DestColumnIsDestCards(cards, m);
    forall i | 0 <= i < |ids| ensures Visible(r, m.destColumn)[i] == DestCards(cards, m)[i] {
      DestCardFromStore(store, cards, m, i);
      ListedReorderedCard(store, m.destColumn, DestCards(cards, m), r, i);
    }
  }

  /** A column whose cards are all in it and listed by order renders as listed. */
  lemma VisibleListed(s: seq<Card>)
    requires forall i :: 0 <= i < |s| ==> s[i].columnId == DefaultColumn
    requires SortedByOrder(s)
    ensures Visible(s, DefaultColumn) == s
  {
    FilterAll(ColumnIs(DefaultColumn), s);
    SortSortedIsIdentity(s);
  }

  /** Deleting the middle card of three keeps the other two in order. */
  lemma RemoveMiddle(a: Card, b: Card, c: Card)
    requires a.id != b.id && c.id != b.id
    ensures RemoveCard([a, b, c], b.id) == [a, c]
  {
    var p := IdIsNot(b.id);
    FilterAround(p, [a], b, [c]);
    FilterSingle(p, a);
    FilterSingle(p, c);
    assert [a] + [b] + [c] == [a, b, c];
    assert Filter(p, [a, b, c]) == [a] + [] + [c];
  }

  /** Two cards of the column ranked 0 and 2 leave a gap, and a new card
      gets the order 2 again. */
  lemma GapAfterDelete(a: Card, c: Card)
    requires a.columnId == c.columnId == DefaultColumn
    requires a.order == 0 && c.order == 2
    ensures !Dense([a, c], DefaultColumn)
    ensures NewCardBody([a, c], EmptyPartial).order == Some(c.order)
  {
    VisibleListed([a, c]);
    assert Visible([a, c], DefaultColumn)[1].order == 2;
    FilterAll(ColumnIs(DefaultColumn), [a, c]);
  }

  /** Neither the `cardDeleted` handler nor `deleteCard` renumbers the
      column, so a deletion in the middle leaves a gap in the ranks, and the
      next card created in that column takes the order of its last card:
      with cards ranked 0, 1, 2, deleting the middle one leaves ranks 0, 2,
      and the new card's order is 2 again. */
  lemma DeleteLeavesRankGap(a: Card, b: Card, c: Card)
    requires a.columnId == b.columnId == c.columnId == DefaultColumn
    requires a.order == 0 && b.order == 1 && c.order == 2
    requires a.id != b.id && c.id != b.id
    ensures Dense([a, b, c], DefaultColumn)
    ensures RemoveCard([a, b, c], b.id) == [a, c]
    ensures !Dense([a, c], DefaultColumn)
    ensures NewCardBody([a, c], EmptyPartial).order == Some(c.order)
  {
    VisibleListed([a, b, c]);
    assert Ranked([a, b, c]);
    RemoveMiddle(a, b, c);
    GapAfterDelete(a, c);
  }
}
