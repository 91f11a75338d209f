/** The board client (client/src/components/Board.tsx): the card list it
    renders, the modal flags, and the requests it sends. Server replies,
    socket pushes and the outcome of every awaited call are parameters of the
    methods; every request the client sends is appended to `outbox`. */
module Board {
  import opened Seqs
  import opened Cards
  import opened Planner
  import opened Reconcile

  /** A call of client/src/services/api.ts, as the board issues it. */
  datatype Request =
    | GetCards
    | CreateCard(body: PartialCard)
    | UpdateCard(id: CardId, updates: PartialCard)
    | DeleteCard(id: CardId)
    | ReorderCards(columnId: ColumnId, cardIds: seq<CardId>)

  /** What the commit phase of a drag sends (lines 312-323): the
      destination's id list, then the source's when the columns differ, up to
      the first failed call, followed by a reload request if one failed. */
  function CommitSequence(destColumn: ColumnId, sourceColumn: ColumnId,
                          destIds: seq<CardId>, sourceIds: seq<CardId>,
                          destOk: bool, sourceOk: bool): seq<Request> {
    if !destOk then [ReorderCards(destColumn, destIds), GetCards]
    else if sourceColumn == destColumn then [ReorderCards(destColumn, destIds)]
    else if sourceOk then [ReorderCards(destColumn, destIds), ReorderCards(sourceColumn, sourceIds)]
    else [ReorderCards(destColumn, destIds), ReorderCards(sourceColumn, sourceIds), GetCards]
  }

  /** Whether one of the awaited commits of a drag failed. */
  predicate CommitFailed(destColumn: ColumnId, sourceColumn: ColumnId, destOk: bool, sourceOk: bool) {
    !destOk || (sourceColumn != destColumn && !sourceOk)
  }

  /** The `reorderCards` calls of a move when every call succeeds. */
  function CommitRequests(cards: seq<Card>, m: Move): seq<Request> {
    CommitSequence(m.destColumn, m.sourceColumn,
                   Ids(DestCards(cards, m)), Ids(SourceCards(cards, m)), true, true)
  }

  /** What a move sends, given which of its calls succeed. */
  function DragRequests(cards: seq<Card>, m: Move, destOk: bool, sourceOk: bool): seq<Request> {
    CommitSequence(m.destColumn, m.sourceColumn,
                   Ids(DestCards(cards, m)), Ids(SourceCards(cards, m)), destOk, sourceOk)
  }

  /** The body `handleSaveCard` posts for a new card (lines 349-356): the
      form data with the column defaulted to "To Do" and `order` set to the
      number of cards already in that column. */
  function NewCardBody(cards: seq<Card>, cardData: PartialCard): (body: PartialCard)
    ensures body.columnId.Some?
    ensures Truthy(cardData.columnId) ==> body.columnId == cardData.columnId
    ensures !Truthy(cardData.columnId) ==> body.columnId == Some(DefaultColumn)
    ensures body.order == Some(|InColumn(cards, body.columnId.value)|)
    ensures body.(columnId := cardData.columnId, order := cardData.order) == cardData
  {
    var col := if Truthy(cardData.columnId) then cardData.columnId.value else DefaultColumn;
    cardData.(columnId := Some(col), order := Some(|InColumn(cards, col)|))
  }

  class BoardClient {
    var cards: seq<Card>
    var isModalOpen: bool
    var editingCard: Option<Card>
    var isDeleteModalOpen: bool
    var cardToDelete: Option<CardId>
    var outbox: seq<Request>

    /** The initial state of the component (lines 191-195). */
    constructor ()
      ensures cards == [] && !isModalOpen && editingCard.None?
      ensures !isDeleteModalOpen && cardToDelete.None? && outbox == []
    {
      cards := [];
      isModalOpen := false;
      editingCard := None;
      isDeleteModalOpen := false;
      cardToDelete := None;
      outbox := [];
    }

    /** `fetchCards`: request every card; on success replace the list, on
        failure keep it. */
    method FetchCards(reply: Option<seq<Card>>)
      modifies this`cards, this`outbox
      ensures outbox == old(outbox) + [GetCards]
      ensures cards == if reply.Some? then reply.value else old(cards)
    {
      outbox := outbox + [GetCards];
      if reply.Some? {
        cards := reply.value;
      }
    }

    /** The `cardUpdated` push. */
    method OnCardUpdated(data: Card)
      modifies this`cards
      ensures cards == Upsert(old(cards), data)
    {
      cards := Upsert(cards, data);
    }

    /** The `cardDeleted` push. */
    method OnCardDeleted(id: CardId)
      modifies this`cards
      ensures cards == RemoveCard(old(cards), id)
    {
      cards := RemoveCard(cards, id);
    }

    /** The `boardUpdated` push: a full reload. */
    method OnBoardUpdated(reply: Option<seq<Card>>)
      modifies this`cards, this`outbox
      ensures outbox == old(outbox) + [GetCards]
      ensures cards == if reply.Some? then reply.value else old(cards)
    {
      FetchCards(reply);
    }

    /** A completed drag. The local list is replaced by the planned one
        before any commit is awaited; then the commits go out. */
    method OnDragEnd(drop: DropResult, destOk: bool, sourceOk: bool, reload: Option<seq<Card>>)
      modifies this`cards, this`outbox
      ensures PlanDrop(old(cards), drop).None? ==> cards == old(cards) && outbox == old(outbox)
      ensures PlanDrop(old(cards), drop).Some? ==>
        var m := PlanDrop(old(cards), drop).value;
        && outbox == old(outbox) + DragRequests(old(cards), m, destOk, sourceOk)
        && cards == if CommitFailed(m.destColumn, m.sourceColumn, destOk, sourceOk) && reload.Some?
                    then reload.value else FinalCards(old(cards), m)
    {
      var plan := PlanDrop(cards, drop);
      if plan.None? {
        return;
      }
      var m := plan.value;
      var destCardsWithOrder := DestCards(cards, m);
      var sourceCardsWithOrder := SourceCards(cards, m);
      var otherCards := Without(cards, m.moved.id);
      cards := Filter(OutsideColumns(m.destColumn, m.sourceColumn), otherCards)
        + destCardsWithOrder + sourceCardsWithOrder;
      CommitReorder(m.destColumn, m.sourceColumn, Ids(destCardsWithOrder), Ids(sourceCardsWithOrder),
                    destOk, sourceOk, reload);
    }

    /** Lines 312-323: the reorder calls are awaited destination first; the
        first failure stops them and triggers a reload, whose reply (if any)
        replaces the list. */
    method CommitReorder(destColumn: ColumnId, sourceColumn: ColumnId,
                         destIds: seq<CardId>, sourceIds: seq<CardId>,
                         destOk: bool, sourceOk: bool, reload: Option<seq<Card>>)
      modifies this`cards, this`outbox
      ensures outbox == old(outbox) + CommitSequence(destColumn, sourceColumn, destIds, sourceIds, destOk, sourceOk)
      ensures cards == if CommitFailed(destColumn, sourceColumn, destOk, sourceOk) && reload.Some?
                       then reload.value else old(cards)
    {
      outbox := outbox + [ReorderCards(destColumn, destIds)];
      if !destOk {
        FetchCards(reload);
      } else if sourceColumn != destColumn {
        outbox := outbox + [ReorderCards(sourceColumn, sourceIds)];
        if !sourceOk {
          FetchCards(reload);
        }
      }
    }

    /** `handleCreateCard`: open the modal for a new card. */
    method HandleCreateCard()
      modifies this`editingCard, this`isModalOpen
      ensures editingCard.None? && isModalOpen
    {
      editingCard := None;
      isModalOpen := true;
    }

    /** `handleEditCard`: open the modal on an existing card. */
    method HandleEditCard(card: Card)
      modifies this`editingCard, this`isModalOpen
      ensures editingCard == Some(card) && isModalOpen
    {
      editingCard := Some(card);
      isModalOpen := true;
    }

    /** The card modal's `onClose`. */
    method CloseModal()
      modifies this`editingCard, this`isModalOpen
      ensures editingCard.None? && !isModalOpen
    {
      isModalOpen := false;
      editingCard := None;
    }

    /** `handleDeleteCard`: ask for confirmation before deleting `id`. */
    method HandleDeleteCard(id: CardId)
      modifies this`cardToDelete, this`isDeleteModalOpen
      ensures cardToDelete == Some(id) && isDeleteModalOpen
    {
      cardToDelete := Some(id);
      isDeleteModalOpen := true;
    }

    /** The confirmation modal's `onClose`. */
    method CloseDeleteModal()
      modifies this`cardToDelete, this`isDeleteModalOpen
      ensures cardToDelete.None? && !isDeleteModalOpen
    {
      isDeleteModalOpen := false;
      cardToDelete := None;
    }

    /** `handleSaveCard`. Without a title nothing happens at all. Editing
        sends the form data as an update and, on success, replaces the card
        with the server's copy; creating sends `NewCardBody` and, on success,
        appends the saved card. Either way the edited card is cleared, also
        when the call failed. */
    method HandleSaveCard(cardData: PartialCard, reply: Option<Card>)
      modifies this`cards, this`outbox, this`editingCard
      ensures !Truthy(cardData.title) ==>
        cards == old(cards) && outbox == old(outbox) && editingCard == old(editingCard)
      ensures Truthy(cardData.title) && old(editingCard).Some? ==>
        var id := old(editingCard).value.id;
        && outbox == old(outbox) + [UpdateCard(id, cardData)]
        && cards == if reply.Some? then ReplaceById(old(cards), id, reply.value) else old(cards)
      ensures Truthy(cardData.title) && old(editingCard).None? ==>
        && outbox == old(outbox) + [CreateCard(NewCardBody(old(cards), cardData))]
        && cards == if reply.Some? then old(cards) + [reply.value] else old(cards)
      ensures Truthy(cardData.title) ==> editingCard.None?
    {
      if !Truthy(cardData.title) {
        return;
      }
      if editingCard.Some? {
        var id := editingCard.value.id;
        outbox := outbox + [UpdateCard(id, cardData)];
        if reply.Some? {
          cards := ReplaceById(cards, id, reply.value);
        }
      } else {
        var newCard := NewCardBody(cards, cardData);
        outbox := outbox + [CreateCard(newCard)];
        if reply.Some? {
          cards := cards + [reply.value];
        }
      }
      editingCard := None;
    }

    /** `confirmDeleteCard`. With no card (or an empty id) to delete nothing
        happens. Otherwise the deletion is sent; only when it succeeds is the
        card filtered out, the confirmation closed and, if the edit modal is
        open, that modal closed too. */
    method ConfirmDeleteCard(ok: bool)
      modifies this
      ensures !Truthy(old(cardToDelete)) ==>
        && cards == old(cards) && outbox == old(outbox)
        && cardToDelete == old(cardToDelete) && isDeleteModalOpen == old(isDeleteModalOpen)
        && isModalOpen == old(isModalOpen) && editingCard == old(editingCard)
      ensures Truthy(old(cardToDelete)) ==>
        outbox == old(outbox) + [DeleteCard(old(cardToDelete).value)]
      ensures Truthy(old(cardToDelete)) && !ok ==>
        && cards == old(cards)
        && cardToDelete == old(cardToDelete) && isDeleteModalOpen == old(isDeleteModalOpen)
        && isModalOpen == old(isModalOpen) && editingCard == old(editingCard)
      ensures Truthy(old(cardToDelete)) && ok ==>
        && cards == Without(old(cards), old(cardToDelete).value)
        && cardToDelete.None? && !isDeleteModalOpen && !isModalOpen
        && editingCard == if old(isModalOpen) then None else old(editingCard)
    {
      if !Truthy(cardToDelete) {
        return;
      }
      var id := cardToDelete.value;
      outbox := outbox + [DeleteCard(id)];
      if ok {
        cards := Without(cards, id);
        isDeleteModalOpen := false;
        cardToDelete := None;
        if isModalOpen {
          isModalOpen := false;
          editingCard := None;
        }
      }
    }
  }

  // ---------------------------------------------------------------------------
  // Properties

  /** Each `reorderCards` call of a move carries exactly the new rendered
      order of its column: the destination first, then (for a move across
      columns) the source. */
  lemma CommitsFollowColumns(cards: seq<Card>, m: Move)
    ensures |CommitRequests(cards, m)| == if m.sourceColumn != m.destColumn then 2 else 1
    ensures CommitRequests(cards, m)[0]
         == ReorderCards(m.destColumn, Ids(Visible(FinalCards(cards, m), m.destColumn)))
    ensures m.sourceColumn != m.destColumn ==>
      CommitRequests(cards, m)[1]
        == ReorderCards(m.sourceColumn, Ids(Visible(FinalCards(cards, m), m.sourceColumn)))
  {
    DestColumnIsDestCards(cards, m);
    if m.sourceColumn != m.destColumn {
      SourceColumnIsSourceCards(cards, m);
    }
  }

  /** A move on a board with unique ids sends id lists without repetitions,
      and the destination list holds the moved card. */
  lemma CommitIdsDistinct(cards: seq<Card>, m: Move)
    requires m.moved in cards && Distinct(Ids(cards))
    ensures Distinct(Ids(DestCards(cards, m))) && m.moved.id in Ids(DestCards(cards, m))
    ensures Distinct(Ids(SourceCards(cards, m)))
  {
    MovePreservesIds(cards, m);
    var out := Filter(OutsideColumns(m.destColumn, m.sourceColumn), Others(cards, m));
    var dc, sc := DestCards(cards, m), SourceCards(cards, m);
    IdsAppend(out + dc, sc);
    IdsAppend(out, dc);
    DistinctParts(Ids(out), Ids(dc), Ids(sc));
    DestCardsShape(cards, m);
    SpliceHolds(Ids(DestBefore(cards, m)), m.index, m.moved.id);
  }

  lemma DistinctParts<T>(a: seq<T>, b: seq<T>, c: seq<T>)
    requires Distinct(a + b + c)
    ensures Distinct(b) && Distinct(c)
  {
    var s := a + b + c;
    forall i, j | 0 <= i < j < |b| ensures b[i] != b[j] {
      assert s[|a| + i] == b[i] && s[|a| + j] == b[j];
    }
    forall i, j | 0 <= i < j < |c| ensures c[i] != c[j] {
      assert s[|a| + |b| + i] == c[i] && s[|a| + |b| + j] == c[j];
    }
  }

  lemma SpliceHolds<T>(s: seq<T>, i: nat, x: T)
    ensures x in Splice(s, i, x)
  {
    var k := if i <= |s| then i else |s|;
    assert Splice(s, i, x)[k] == x;
  }

  /** A card created on a dense column with the order the board computes,
      and saved with that order and column, becomes the last card of the
      rendered column, which stays dense. */
  lemma NewCardKeepsColumnDense(cards: seq<Card>, cardData: PartialCard, saved: Card)
    requires saved.columnId == NewCardBody(cards, cardData).columnId.value
    requires Some(saved.order) == NewCardBody(cards, cardData).order
    requires Dense(cards, saved.columnId)
    ensures Dense(cards + [saved], saved.columnId)
    ensures Visible(cards + [saved], saved.columnId) == Visible(cards, saved.columnId) + [saved]
  {
    AppendKeepsDense(cards, saved);
  }
}
