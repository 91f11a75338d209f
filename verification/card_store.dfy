/** The card controller of the server (server/src/controllers/cardController.ts)
    over a store that maps each card id to its card, with the log of events
    it broadcasts. A failing database call is a parameter of each handler;
    the HTTP status of the reply is its result. */
module CardStore {
  import opened Seqs
  import opened Cards
  import opened CardSchema

  /** A broadcast on the socket server. */
  datatype Event = CardUpdated(card: Card) | CardDeleted(id: CardId) | BoardUpdated

  /** One `updateOne` of the bulk write: set the column and order of card `id`. */
  datatype UpdateOne = UpdateOne(id: CardId, columnId: ColumnId, order: int)

  /** Every stored card is stored under its own id. */
  predicate StoreValid(store: map<CardId, Card>) {
    forall k :: k in store ==> store[k].id == k
  }

  /** The `operations` list of `reorderCards` (lines 70-77): the card at
      index i of `cardIds` gets the column and order i. */
  function ReorderOps(columnId: ColumnId, cardIds: seq<CardId>): (ops: seq<UpdateOne>)
    ensures |ops| == |cardIds|
    ensures forall i :: 0 <= i < |ops| ==> ops[i].id == cardIds[i] && ops[i].columnId == columnId && ops[i].order == i
  {
    seq(|cardIds|, i requires 0 <= i < |cardIds| => UpdateOne(cardIds[i], columnId, i))
  }

  /** One update: a filter that matches no card changes nothing. */
  function ApplyOp(store: map<CardId, Card>, op: UpdateOne): map<CardId, Card> {
    if op.id in store then store[op.id := store[op.id].(columnId := op.columnId, order := op.order)]
    else store
  }

  /** The updates of an ordered bulk write, applied one after another. */
  function ApplyOps(store: map<CardId, Card>, ops: seq<UpdateOne>): map<CardId, Card>
    decreases |ops|
  {
    if ops == [] then store else ApplyOp(ApplyOps(store, ops[..|ops| - 1]), ops[|ops| - 1])
  }

  /** A reply of `getCards`: every stored card exactly once, by ascending order. */
  predicate IsListing(store: map<CardId, Card>, r: seq<Card>) {
    && SortedByOrder(r)
    && Distinct(Ids(r))
    && (forall i :: 0 <= i < |r| ==> r[i].id in store && store[r[i].id] == r[i])
    && (forall k :: k in store ==> HasId(r, k))
  }

  /** `findByIdAndUpdate` with the request body: every field the body holds
      replaces the stored one; no validator runs. */
  function Merge(c: Card, patch: PartialCard): (r: Card)
    ensures r.id == c.id
    ensures patch.title.Some? ==> r.title == patch.title.value
    ensures patch.title.None? ==> r.title == c.title
    ensures patch.columnId.Some? ==> r.columnId == patch.columnId.value
    ensures patch.columnId.None? ==> r.columnId == c.columnId
    ensures patch.order.Some? ==> r.order == patch.order.value
    ensures patch.order.None? ==> r.order == c.order
    ensures r.description == if patch.description.Some? then patch.description else c.description
    ensures r.assignee == if patch.assignee.Some? then patch.assignee else c.assignee
    ensures r.dueDate == if patch.dueDate.Some? then patch.dueDate else c.dueDate
    ensures r.priority == if patch.priority.Some? then patch.priority else c.priority
    ensures r.tags == if patch.tags.Some? then patch.tags else c.tags
  {
    Card(c.id,
         patch.title.GetOr(c.title),
         if patch.description.Some? then patch.description else c.description,
         patch.columnId.GetOr(c.columnId),
         patch.order.GetOr(c.order),
         if patch.assignee.Some? then patch.assignee else c.assignee,
         if patch.dueDate.Some? then patch.dueDate else c.dueDate,
         if patch.priority.Some? then patch.priority else c.priority,
         if patch.tags.Some? then patch.tags else c.tags)
  }

  class CardServer {
    var store: map<CardId, Card>
    var events: seq<Event>

    predicate Valid()
      reads this
    {
      StoreValid(store)
    }

    constructor ()
      ensures Valid() && store == map[] && events == []
    {
      store := map[];
      events := [];
    }

    /** `getCards` (lines 5-12): all stored cards by ascending order, or 500
        when the query fails. Nothing changes and nothing is emitted. */
    method GetCards(queryOk: bool) returns (status: nat, listing: seq<Card>)
      requires Valid()
      ensures status == if queryOk then 200 else 500
      ensures queryOk ==> IsListing(store, listing)
      ensures !queryOk ==> listing == []
    {
      if !queryOk {
        return 500, [];
      }
      var rest := store.Keys;
      listing := [];
      while rest != {}
        invariant rest <= store.Keys
        invariant ListedExcept(store, rest, listing)
        decreases rest
      {
        var k :| k in rest;
        ListedInsert(store, rest, listing, k);
        listing := InsertByOrder(store[k], listing);
        rest := rest - {k};
      }
      status := 200;
    }

    /** `createCard` (lines 14-36): the body is built into a card and
        validated; an invalid body, a clash with a stored id or a failed
        save answers 400 and changes nothing. Otherwise the card is stored,
        `cardUpdated` is emitted with it, and the reply is 201. */
    method CreateCard(body: PartialCard, newId: CardId, saveOk: bool) returns (status: nat, saved: Option<Card>)
      requires Valid()
      modifies this
      ensures Valid()
      ensures status == 201 || status == 400
      ensures status == 201 <==> NewCard(newId, body).Ok? && saveOk && newId !in old(store)
      ensures status == 201 ==>
        && saved == Some(NewCard(newId, body).value)
        && store == old(store)[newId := saved.value]
        && events == old(events) + [CardUpdated(saved.value)]
      ensures status == 400 ==> saved.None? && store == old(store) && events == old(events)
    {
      var built := NewCard(newId, body);
      if built.Err? || !saveOk || newId in store {
        return 400, None;
      }
      var c := built.value;
      store := store[newId := c];
      events := events + [CardUpdated(c)];
      return 201, Some(c);
    }

    /** `updateCard` (lines 38-50): a failed query answers 400 and an unknown
        id 404, both changing nothing; otherwise the body is merged into the
        card, `cardUpdated` is emitted with the result, and the reply is 200. */
    method UpdateCard(id: CardId, patch: PartialCard, queryOk: bool) returns (status: nat, updated: Option<Card>)
      requires Valid()
      modifies this
      ensures Valid()
      ensures status == (if !queryOk then 400 else if id !in old(store) then 404 else 200)
      ensures status == 200 ==>
        && updated == Some(Merge(old(store)[id], patch))
        && store == old(store)[id := updated.value]
        && events == old(events) + [CardUpdated(updated.value)]
      ensures status != 200 ==> updated.None? && store == old(store) && events == old(events)
    {
      if !queryOk {
        return 400, None;
      }
      if id !in store {
        return 404, None;
      }
      var c := Merge(store[id], patch);
      store := store[id := c];
      events := events + [CardUpdated(c)];
      return 200, Some(c);
    }

    /** `deleteCard` (lines 52-64): a failed query answers 500 and an unknown
        id 404, both changing nothing; otherwise the card is removed,
        `cardDeleted` is emitted with the id, and the reply is 200. */
    method DeleteCard(id: CardId, queryOk: bool) returns (status: nat)
      requires Valid()
      modifies this
      ensures Valid()
      ensures status == (if !queryOk then 500 else if id !in old(store) then 404 else 200)
      ensures status == 200 ==> store == old(store) - {id} && events == old(events) + [CardDeleted(id)]
      ensures status != 200 ==> store == old(store) && events == old(events)
    {
      if !queryOk {
        return 500;
      }
      if id !in store {
        return 404;
      }
      store := store - {id};
      events := events + [CardDeleted(id)];
      return 200;
    }

    /** `reorderCards` (lines 66-87): the updates run in list order. When
        update `failAt` fails, the ones before it stay applied, the reply is
        500 and nothing is emitted; when all succeed, `boardUpdated` is
        emitted and the reply is 200. */
    method ReorderCards(columnId: ColumnId, cardIds: seq<CardId>, failAt: Option<nat>) returns (status: nat)
      requires Valid()
      modifies this
      ensures Valid()
      ensures var ops := ReorderOps(columnId, cardIds);
        if failAt.Some? && failAt.value < |ops| then
          && status == 500
          && store == ApplyOps(old(store), ops[..failAt.value])
          && events == old(events)
        else
          && status == 200
          && store == ApplyOps(old(store), ops)
          && events == old(events) + [BoardUpdated]
    {
      var ops := ReorderOps(columnId, cardIds);
      var i := 0;
      while i < |ops|
        invariant 0 <= i <= |ops|
        invariant failAt.Some? ==> i <= failAt.value
        invariant store == ApplyOps(old(store), ops[..i])
        invariant events == old(events)
        invariant Valid()
      {
        if failAt == Some(i) {
          return 500;
        }
        ApplyOpValid(store, ops[i]);
        assert ops[..i + 1][..i] == ops[..i];
        store := ApplyOp(store, ops[i]);
        i := i + 1;
      }
      assert ops[..i] == ops;
      events := events + [BoardUpdated];
      status := 200;
    }
  }

  // ---------------------------------------------------------------------------
  // Listings

  /** A listing of every stored card except those whose ids are in `rest`. */
  predicate ListedExcept(store: map<CardId, Card>, rest: set<CardId>, listing: seq<Card>) {
    && SortedByOrder(listing)
    && Distinct(Ids(listing))
    && (forall i :: 0 <= i < |listing| ==>
          listing[i].id in store && listing[i].id !in rest && store[listing[i].id] == listing[i])
    && (forall k :: k in store && k !in rest ==> HasId(listing, k))
  }

  /** Inserting the card stored under one more key, by order, extends the listing. */
  lemma ListedInsert(store: map<CardId, Card>, rest: set<CardId>, listing: seq<Card>, k: CardId)
    requires StoreValid(store) && rest <= store.Keys && k in rest
    requires ListedExcept(store, rest, listing)
    ensures ListedExcept(store, rest - {k}, InsertByOrder(store[k], listing))
  {
    InsertSorted(store[k], listing);
    InsertKeepsDistinctIds(store[k], listing);
    InsertedStored(store, rest, listing, k);
    InsertedCovers(store, rest, listing, k);
  }

  lemma InsertedStored(store: map<CardId, Card>, rest: set<CardId>, listing: seq<Card>, k: CardId)
    requires StoreValid(store) && k in store && k in rest
    requires ListedExcept(store, rest, listing)
    ensures var next := InsertByOrder(store[k], listing);
      forall i :: 0 <= i < |next| ==>
        next[i].id in store && next[i].id !in rest - {k} && store[next[i].id] == next[i]
  {
    var next := InsertByOrder(store[k], listing);
    InsertSorted(store[k], listing);
    forall i | 0 <= i < |next|
      ensures next[i].id in store && next[i].id !in rest - {k} && store[next[i].id] == next[i]
    {
      assert next[i] in multiset(next);
      if next[i] != store[k] {
        assert next[i] in multiset(listing);
      }
    }
  }

  lemma InsertedCovers(store: map<CardId, Card>, rest: set<CardId>, listing: seq<Card>, k: CardId)
    requires StoreValid(store) && k in store && ListedExcept(store, rest, listing)
    ensures forall j :: j in store && j !in rest - {k} ==> HasId(InsertByOrder(store[k], listing), j)
  {
    var next := InsertByOrder(store[k], listing);
    InsertSorted(store[k], listing);
    forall j | j in store && j !in rest - {k} ensures HasId(next, j) {
      if j != k {
        var t :| 0 <= t < |listing| && listing[t].id == j;
        assert listing[t] in multiset(next);
        var u :| 0 <= u < |next| && next[u] == listing[t];
      } else {
        assert store[k] in multiset(next);
        var u :| 0 <= u < |next| && next[u] == store[k];
      }
    }
  }

  /** Inserting a card whose id is new into a list with unique ids keeps them unique. */
  lemma InsertKeepsDistinctIds(x: Card, t: seq<Card>)
    requires Distinct(Ids(t)) && !HasId(t, x.id)
    ensures Distinct(Ids(InsertByOrder(x, t)))
  {
    var p := InsertionPoint(x, t);
    var r := InsertByOrder(x, t);
    assert forall i :: 0 <= i < |r| ==> r[i] == if i < p then t[i] else if i == p then x else t[i - 1];
    forall a, b | 0 <= a < b < |r| ensures r[a].id != r[b].id {
      if a == p {
        assert r[b] == t[b - 1];
      } else if b == p {
        assert r[a] == t[a];
      } else {
        var a' := if a < p then a else a - 1;
        var b' := if b < p then b else b - 1;
        assert Ids(t)[a'] != Ids(t)[b'];
      }
    }
  }

  // ---------------------------------------------------------------------------
  // Bulk updates

  lemma ApplyOpValid(store: map<CardId, Card>, op: UpdateOne)
    requires StoreValid(store)
    ensures StoreValid(ApplyOp(store, op))
  {
  }

  /** A bulk write keeps the set of stored ids and the ids, titles and
      every other field of the cards; only column and order change. */
  lemma {:induction false} ApplyOpsFrame(store: map<CardId, Card>, ops: seq<UpdateOne>)
    ensures ApplyOps(store, ops).Keys == store.Keys
    ensures forall k :: k in store ==>
      ApplyOps(store, ops)[k]
        == store[k].(columnId := ApplyOps(store, ops)[k].columnId, order := ApplyOps(store, ops)[k].order)
    decreases |ops|
  {
    if ops != [] {
      ApplyOpsFrame(store, ops[..|ops| - 1]);
    }
  }

  /** A card that no update names is untouched. */
  lemma {:induction false} ApplyOpsUntouched(store: map<CardId, Card>, ops: seq<UpdateOne>, k: CardId)
    requires k in store
    requires forall i :: 0 <= i < |ops| ==> ops[i].id != k
    ensures k in ApplyOps(store, ops) && ApplyOps(store, ops)[k] == store[k]
    decreases |ops|
  {
    if ops != [] {
      ApplyOpsUntouched(store, ops[..|ops| - 1], k);
    }
  }

  /** A stored card gets the column and order of the last update naming it. */
  lemma {:induction false} ApplyOpsLast(store: map<CardId, Card>, ops: seq<UpdateOne>, i: nat)
    requires i < |ops| && ops[i].id in store
    requires forall j :: i < j < |ops| ==> ops[j].id != ops[i].id
    ensures ops[i].id in ApplyOps(store, ops)
    ensures ApplyOps(store, ops)[ops[i].id] == store[ops[i].id].(columnId := ops[i].columnId, order := ops[i].order)
    decreases |ops|
  {
    var init := ops[..|ops| - 1];
    ApplyOpsFrame(store, init);
    if i < |ops| - 1 {
      ApplyOpsLast(store, init, i);
    }
  }

  /** `reorderCards` sets the column of every listed stored card and its
      order to its (last) index in `cardIds`. */
  lemma ReorderSetsListed(store: map<CardId, Card>, columnId: ColumnId, cardIds: seq<CardId>, i: nat)
    requires i < |cardIds| && cardIds[i] in store
    requires cardIds[i] !in cardIds[i + 1..]
    ensures cardIds[i] in ApplyOps(store, ReorderOps(columnId, cardIds))
    ensures ApplyOps(store, ReorderOps(columnId, cardIds))[cardIds[i]]
         == store[cardIds[i]].(columnId := columnId, order := i)
  {
    var ops := ReorderOps(columnId, cardIds);
    forall j | i < j < |ops| ensures ops[j].id != ops[i].id {
      assert cardIds[j] in cardIds[i + 1..];
    }
    ApplyOpsLast(store, ops, i);
  }

  /** `reorderCards` leaves a stored card that `cardIds` does not list untouched. */
  lemma ReorderLeavesUnlisted(store: map<CardId, Card>, columnId: ColumnId, cardIds: seq<CardId>, k: CardId)
    requires k in store && k !in cardIds
    ensures k in ApplyOps(store, ReorderOps(columnId, cardIds))
    ensures ApplyOps(store, ReorderOps(columnId, cardIds))[k] == store[k]
  {
    var ops := ReorderOps(columnId, cardIds);
    forall j | 0 <= j < |ops| ensures ops[j].id != k {
      assert cardIds[j] in cardIds;
    }
    ApplyOpsUntouched(store, ops, k);
  }

  // ---------------------------------------------------------------------------
  // Round trip: reorderCards then getCards

  /** A store in which the cards of `columnId` are exactly those listed in
      `cardIds`, the one at index i with order i. */
  predicate ReorderedStore(s: map<CardId, Card>, columnId: ColumnId, cardIds: seq<CardId>) {
    && StoreValid(s)
    && (forall i :: 0 <= i < |cardIds| ==>
          cardIds[i] in s && s[cardIds[i]].columnId == columnId && s[cardIds[i]].order == i)
    && (forall k :: k in s && s[k].columnId == columnId ==> k in cardIds)
  }

  /** After reordering a column with distinct stored ids that cover it, the
      column holds exactly the listed cards, the card at index i with order i. */
  lemma ReorderedColumn(store: map<CardId, Card>, columnId: ColumnId, cardIds: seq<CardId>)
    requires StoreValid(store) && Distinct(cardIds)
    requires forall i :: 0 <= i < |cardIds| ==> cardIds[i] in store
    requires forall k :: k in store && store[k].columnId == columnId ==> k in cardIds
    ensures ApplyOps(store, ReorderOps(columnId, cardIds)).Keys == store.Keys
    ensures ReorderedStore(ApplyOps(store, ReorderOps(columnId, cardIds)), columnId, cardIds)
  {
    var s := ApplyOps(store, ReorderOps(columnId, cardIds));
    ApplyOpsFrame(store, ReorderOps(columnId, cardIds));
    forall i | 0 <= i < |cardIds| ensures s[cardIds[i]].columnId == columnId && s[cardIds[i]].order == i {
      ReorderSetsListed(store, columnId, cardIds, i);
    }
    forall k | k in s && s[k].columnId == columnId ensures k in cardIds {
      if k !in cardIds {
        ReorderLeavesUnlisted(store, columnId, cardIds, k);
      }
    }
  }

  /** Some card of `q` has order `i`. */
  predicate RankTaken(q: seq<Card>, i: int) {
    exists j :: 0 <= j < |q| && q[j].order == i
  }

  /** A list whose orders strictly increase, stay below n and take every
      value below n has exactly n cards, the j-th with order j. */
  lemma RanksFromCover(q: seq<Card>, n: nat)
    requires forall a, b :: 0 <= a < b < |q| ==> q[a].order < q[b].order
    requires forall j :: 0 <= j < |q| ==> 0 <= q[j].order < n
    requires forall i :: 0 <= i < n ==> RankTaken(q, i)
    ensures |q| == n
    ensures Ranked(q)
  {
    forall j | 0 <= j < |q| ensures q[j].order == j {
      RankAt(q, n, j);
    }
    if n > 0 {
      assert RankTaken(q, n - 1);
      var j :| 0 <= j < |q| && q[j].order == n - 1;
      assert j == n - 1;
    }
    if |q| > 0 {
      assert q[|q| - 1].order == |q| - 1;
    }
  }

  lemma {:induction false} RankAtLeast(q: seq<Card>, j: nat)
    requires forall a, b :: 0 <= a < b < |q| ==> q[a].order < q[b].order
    requires forall k :: 0 <= k < |q| ==> 0 <= q[k].order
    requires j < |q|
    ensures q[j].order >= j
  {
    if j > 0 {
      RankAtLeast(q, j - 1);
    }
  }

  lemma {:induction false} RankAt(q: seq<Card>, n: nat, j: nat)
    requires forall a, b :: 0 <= a < b < |q| ==> q[a].order < q[b].order
    requires forall k :: 0 <= k < |q| ==> 0 <= q[k].order < n
    requires forall i :: 0 <= i < n ==> RankTaken(q, i)
    requires j < |q|
    ensures q[j].order == j
    decreases j
  {
    RankAtLeast(q, j);
    if q[j].order != j {
      assert RankTaken(q, j);
      var k :| 0 <= k < |q| && q[k].order == j;
      if k < j {
        RankAt(q, n, k);
      }
    }
  }

  /** Unique ids make a list free of repeated cards. */
  lemma DistinctIdsDistinct(r: seq<Card>)
    requires Distinct(Ids(r))
    ensures Distinct(r)
  {
    forall a, b | 0 <= a < b < |r| ensures r[a] != r[b] {
      assert Ids(r)[a] != Ids(r)[b];
    }
  }

  /** A listing renders a column as its filtered cards, already in order. */
  lemma ListingColumn(store: map<CardId, Card>, r: seq<Card>, columnId: ColumnId)
    requires IsListing(store, r)
    ensures Visible(r, columnId) == InColumn(r, columnId)
    ensures Distinct(InColumn(r, columnId))
  {
    SortSortedIsIdentity(r);
    FilterSortCommutes(ColumnIs(columnId), r);
    DistinctIdsDistinct(r);
    FilterDistinct(ColumnIs(columnId), r);
  }

  /** Card `c` is listed in `cardIds`, and its order is its index there. */
  predicate IndexedBy(cardIds: seq<CardId>, c: Card) {
    exists i :: 0 <= i < |cardIds| && cardIds[i] == c.id && c.order == i
  }

  /** In a listing of a reordered store, every card of the column carries
      its index in `cardIds` as order. */
  lemma ColumnCardsIndexed(s: map<CardId, Card>, columnId: ColumnId, cardIds: seq<CardId>, r: seq<Card>)
    requires ReorderedStore(s, columnId, cardIds) && IsListing(s, r)
    ensures forall j :: 0 <= j < |InColumn(r, columnId)| ==> IndexedBy(cardIds, InColumn(r, columnId)[j])
  {
    var q := InColumn(r, columnId);
    FilterMembers(ColumnIs(columnId), r);
    forall j | 0 <= j < |q| ensures IndexedBy(cardIds, q[j]) {
      assert ColumnIs(columnId)(q[j]) && q[j] in r;
      assert q[j].id in cardIds;
      var i :| 0 <= i < |cardIds| && cardIds[i] == q[j].id;
    }
  }

  /** In a listing of a reordered store, every index of `cardIds` is the
      order of some card of the column. */
  lemma ColumnRanksCovered(s: map<CardId, Card>, columnId: ColumnId, cardIds: seq<CardId>, r: seq<Card>)
    requires ReorderedStore(s, columnId, cardIds) && IsListing(s, r)
    ensures forall i :: 0 <= i < |cardIds| ==> RankTaken(InColumn(r, columnId), i)
  {
    var q := InColumn(r, columnId);
    FilterMembers(ColumnIs(columnId), r);
    forall i | 0 <= i < |cardIds| ensures RankTaken(q, i) {
      assert HasId(r, cardIds[i]);
      var t :| 0 <= t < |r| && r[t].id == cardIds[i];
      assert ColumnIs(columnId)(r[t]);
      var j :| 0 <= j < |q| && q[j] == r[t];
    }
  }

  /** In a listing of a reordered store with distinct ids, the orders of
      the column's cards strictly increase. */
  lemma ColumnRanksIncrease(s: map<CardId, Card>, columnId: ColumnId, cardIds: seq<CardId>, r: seq<Card>)
    requires ReorderedStore(s, columnId, cardIds) && IsListing(s, r) && Distinct(cardIds)
    ensures var q := InColumn(r, columnId);
      forall a, b :: 0 <= a < b < |q| ==> q[a].order < q[b].order
  {
    var q := InColumn(r, columnId);
    ListingColumn(s, r, columnId);
    ColumnCardsIndexed(s, columnId, cardIds, r);
    forall a, b | 0 <= a < b < |q| ensures q[a].order < q[b].order {
      assert IndexedBy(cardIds, q[a]) && IndexedBy(cardIds, q[b]);
      var ia :| 0 <= ia < |cardIds| && cardIds[ia] == q[a].id && q[a].order == ia;
      var ib :| 0 <= ib < |cardIds| && cardIds[ib] == q[b].id && q[b].order == ib;
      if ia == ib {
        ColumnCardStored(s, r, columnId, a);
        ColumnCardStored(s, r, columnId, b);
        assert false;
      }
      assert SortedByOrder(q);
    }
  }

  /** Every card of a listed column is the stored card under its id. */
  lemma ColumnCardStored(s: map<CardId, Card>, r: seq<Card>, columnId: ColumnId, j: nat)
    requires IsListing(s, r) && j < |InColumn(r, columnId)|
    ensures InColumn(r, columnId)[j].id in s && s[InColumn(r, columnId)[j].id] == InColumn(r, columnId)[j]
  {
    FilterMembers(ColumnIs(columnId), r);
    assert InColumn(r, columnId)[j] in r;
  }

  /** In a listing of a reordered store with distinct ids, the column lists
      exactly `cardIds`, the j-th card with order j. */
  lemma ListedColumnIsCardIds(s: map<CardId, Card>, columnId: ColumnId, cardIds: seq<CardId>, r: seq<Card>)
    requires ReorderedStore(s, columnId, cardIds) && IsListing(s, r) && Distinct(cardIds)
    ensures Ids(InColumn(r, columnId)) == cardIds
    ensures Ranked(InColumn(r, columnId))
  {
    var q := InColumn(r, columnId);
    var n := |cardIds|;
    ColumnCardsIndexed(s, columnId, cardIds, r);
    ColumnRanksCovered(s, columnId, cardIds, r);
    ColumnRanksIncrease(s, columnId, cardIds, r);
    forall j | 0 <= j < |q| ensures 0 <= q[j].order < n {
      assert IndexedBy(cardIds, q[j]);
    }
    RanksFromCover(q, n);
    forall j | 0 <= j < n ensures q[j].id == cardIds[j] {
      assert IndexedBy(cardIds, q[j]);
    }
  }

  /** The round trip of a drag: when `cardIds` are distinct stored ids that
      include every card of the column, the column that a later `getCards`
      renders after a successful `reorderCards` lists exactly `cardIds`, in
      that order, with orders 0..n-1. */
  lemma ReorderRoundTrip(store: map<CardId, Card>, columnId: ColumnId, cardIds: seq<CardId>, r: seq<Card>)
    requires StoreValid(store) && Distinct(cardIds)
    requires forall i :: 0 <= i < |cardIds| ==> cardIds[i] in store
    requires forall k :: k in store && store[k].columnId == columnId ==> k in cardIds
    requires IsListing(ApplyOps(store, ReorderOps(columnId, cardIds)), r)
    ensures Ids(Visible(r, columnId)) == cardIds
    ensures Dense(r, columnId)
  {
    var s := ApplyOps(store, ReorderOps(columnId, cardIds));
    ReorderedColumn(store, columnId, cardIds);
    ListingColumn(s, r, columnId);
    ListedColumnIsCardIds(s, columnId, cardIds, r);
  }

  // ---------------------------------------------------------------------------
  // Updates

  /** An empty body changes nothing. */
  lemma MergeEmpty(c: Card)
    ensures Merge(c, EmptyPartial) == c
  {
  }

  /** Sending the same update twice is sending it once. */
  lemma MergeIdempotent(c: Card, patch: PartialCard)
    ensures Merge(Merge(c, patch), patch) == Merge(c, patch)
  {
  }

  /** Sending a whole card whose optional fields are all present as the body
      makes the stored card that card (under the stored id). An absent
      optional field keeps the stored value. */
  lemma MergeWhole(c: Card, d: Card)
    requires d.description.Some? && d.assignee.Some? && d.dueDate.Some?
    requires d.priority.Some? && d.tags.Some?
    ensures Merge(c, AsPartial(d)) == d.(id := c.id)
  {
  }

  /** No validator runs on an update: an empty title, which `createCard`
      rejects, is stored. */
  lemma UpdateSkipsValidation(c: Card)
    ensures Merge(c, EmptyPartial.(title := Some(""))).title == ""
    ensures NewCard(c.id, EmptyPartial.(title := Some(""), columnId := Some(c.columnId))).Err?
  {
  }
}
