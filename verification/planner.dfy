/** The reorder planner of the board client: what a completed drag does to the
    local card list (client/src/components/Board.tsx, `onDragEnd`, lines 245-310).
    The drop is checked, the moved card is taken out, spliced into the
    destination column's rendered list, and both affected columns are
    renumbered 0..n-1. */
module Planner {
  import opened Seqs
  import opened Cards

  /** A droppable column and a position in it, as the drag library reports it. */
  datatype Location = Location(droppableId: ColumnId, index: nat)

  /** The outcome of a drag: no destination when the card was dropped outside
      every column. */
  datatype DropResult = DropResult(source: Location, destination: Option<Location>, draggableId: CardId)

  /** A drop that passed the guards: the card found under the dragged id and
      where it goes. */
  datatype Move = Move(moved: Card, sourceColumn: ColumnId, destColumn: ColumnId, index: nat)

  /** `cards.find(c => c._id === id)`: the first card with that id. */
  function Find(cards: seq<Card>, id: CardId): (r: Option<Card>)
    ensures r.Some? <==> HasId(cards, id)
    ensures r.Some? ==> r.value.id == id
    ensures r.Some? ==> exists i :: 0 <= i < |cards| && cards[i] == r.value && !HasId(cards[..i], id)
  {
    if cards == [] then None
    else if cards[0].id == id then
      assert cards[..0] == [];
      Some(cards[0])
    else
      var r := Find(cards[1..], id);
      FindStep(cards, id, r);
      r
  }

  lemma FindStep(cards: seq<Card>, id: CardId, r: Option<Card>)
    requires cards != [] && cards[0].id != id
    requires r.Some? <==> HasId(cards[1..], id)
    requires r.Some? ==> r.value.id == id
    requires r.Some? ==> exists i :: 0 <= i < |cards[1..]| && cards[1..][i] == r.value && !HasId(cards[1..][..i], id)
    ensures r.Some? <==> HasId(cards, id)
    ensures r.Some? ==> exists i :: 0 <= i < |cards| && cards[i] == r.value && !HasId(cards[..i], id)
  {
    if r.Some? {
      var i :| 0 <= i < |cards[1..]| && cards[1..][i] == r.value && !HasId(cards[1..][..i], id);
      assert cards[..i + 1] == [cards[0]] + cards[1..][..i];
      assert cards[i + 1] == r.value;
    }
    if HasId(cards, id) {
      var j :| 0 <= j < |cards| && cards[j].id == id;
      assert cards[1..][j - 1].id == id;
    }
  }

  /** The guards of lines 248-259: no destination, a drop back onto the same
      position, or a dragged id that is not on the board make the drop a no-op. */
  function PlanDrop(cards: seq<Card>, drop: DropResult): (r: Option<Move>)
    ensures r.None? <==>
      || drop.destination.None?
      || drop.destination.value == drop.source
      || !HasId(cards, drop.draggableId)
    ensures r.Some? ==>
      && r.value.moved.id == drop.draggableId
      && r.value.moved in cards
      && Find(cards, drop.draggableId) == Some(r.value.moved)
      && r.value.sourceColumn == drop.source.droppableId
      && r.value.destColumn == drop.destination.value.droppableId
      && r.value.index == drop.destination.value.index
  {
    if drop.destination.None? then None
    else if drop.destination.value.droppableId == drop.source.droppableId
         && drop.destination.value.index == drop.source.index then None
    else
      match Find(cards, drop.draggableId)
      case None => None
      case Some(c) =>
        Some(Move(c, drop.source.droppableId, drop.destination.value.droppableId,
                  drop.destination.value.index))
  }

  /** `otherCards` (line 274): the board without the moved card. */
  function Others(cards: seq<Card>, m: Move): seq<Card> {
    Without(cards, m.moved.id)
  }

  /** The destination column before the splice: its remaining cards, by order. */
  function DestBefore(cards: seq<Card>, m: Move): seq<Card> {
    SortByOrder(InColumn(Others(cards, m), m.destColumn))
  }

  /** The moved card as it is spliced in: only its column changes. */
  function Landed(m: Move): Card {
    m.moved.(columnId := m.destColumn)
  }

  /** `destCardsWithOrder` (lines 276-292). */
  function DestCards(cards: seq<Card>, m: Move): seq<Card> {
    Renumber(Splice(DestBefore(cards, m), m.index, Landed(m)))
  }

  /** `sourceCardsWithOrder` (lines 294-300): empty for a move inside one column. */
  function SourceCards(cards: seq<Card>, m: Move): seq<Card> {
    if m.sourceColumn == m.destColumn then []
    else Renumber(SortByOrder(InColumn(Others(cards, m), m.sourceColumn)))
  }

  /** `finalCards` (lines 302-308): untouched columns, then the two renumbered ones. */
  function FinalCards(cards: seq<Card>, m: Move): seq<Card> {
    Filter(OutsideColumns(m.destColumn, m.sourceColumn), Others(cards, m))
      + DestCards(cards, m) + SourceCards(cards, m)
  }

  // ---------------------------------------------------------------------------
  // Helper facts

  lemma DestBeforeInColumn(cards: seq<Card>, m: Move)
    ensures forall i :: 0 <= i < |DestBefore(cards, m)| ==>
      DestBefore(cards, m)[i].columnId == m.destColumn && DestBefore(cards, m)[i].id != m.moved.id
  {
    var w := InColumn(Others(cards, m), m.destColumn);
    var d := DestBefore(cards, m);
    FilterMembers(ColumnIs(m.destColumn), Others(cards, m));
    FilterMembers(IdIsNot(m.moved.id), cards);
    forall i | 0 <= i < |d|
      ensures d[i].columnId == m.destColumn && d[i].id != m.moved.id
    {
      assert d[i] in multiset(w);
      assert d[i] in Others(cards, m);
    }
  }

  lemma DestCardsShape(cards: seq<Card>, m: Move)
    ensures |DestCards(cards, m)| == |DestBefore(cards, m)| + 1
    ensures forall i :: 0 <= i < |DestCards(cards, m)| ==> DestCards(cards, m)[i].columnId == m.destColumn
    ensures forall i :: 0 <= i < |DestCards(cards, m)| ==> DestCards(cards, m)[i].order == i
    ensures Ids(DestCards(cards, m)) == Splice(Ids(DestBefore(cards, m)), m.index, m.moved.id)
  {
    DestBeforeInColumn(cards, m);
    RenumberSplice(DestBefore(cards, m), m.index, Landed(m));
  }

  lemma SourceCardsShape(cards: seq<Card>, m: Move)
    ensures forall i :: 0 <= i < |SourceCards(cards, m)| ==>
      SourceCards(cards, m)[i].columnId == m.sourceColumn && SourceCards(cards, m)[i].columnId != m.destColumn
  {
    if m.sourceColumn != m.destColumn {
      var w := InColumn(Others(cards, m), m.sourceColumn);
      var s := SortByOrder(w);
      forall i | 0 <= i < |s| ensures s[i].columnId == m.sourceColumn {
        assert s[i] in multiset(w);
      }
    }
  }

  /** Splits the final list by column. */
  lemma FinalInColumn(cards: seq<Card>, m: Move, col: ColumnId)
    ensures InColumn(FinalCards(cards, m), col)
         == InColumn(Filter(OutsideColumns(m.destColumn, m.sourceColumn), Others(cards, m)), col)
          + InColumn(DestCards(cards, m), col)
          + InColumn(SourceCards(cards, m), col)
  {
    var out := Filter(OutsideColumns(m.destColumn, m.sourceColumn), Others(cards, m));
    FilterAppend(ColumnIs(col), out + DestCards(cards, m), SourceCards(cards, m));
    FilterAppend(ColumnIs(col), out, DestCards(cards, m));
  }

  // ---------------------------------------------------------------------------
  // Properties of a move

  /** The destination column after the move, as rendered: the old rendered
      column without the moved card, with the moved card inserted at the drop
      index (clamped to append), renumbered 0..n-1. The moved card only
      changes column and order; the others only change order. */
  lemma DestColumnAfterMove(cards: seq<Card>, m: Move)
    ensures
      var after := Visible(FinalCards(cards, m), m.destColumn);
      var before := Without(Visible(cards, m.destColumn), m.moved.id);
      var k := if m.index <= |before| then m.index else |before|;
      && |after| == |before| + 1
      && Ids(after) == Splice(Ids(before), m.index, m.moved.id)
      && (forall i :: 0 <= i < |after| ==> after[i].order == i)
      && after[k] == m.moved.(columnId := m.destColumn, order := k)
      && (forall i :: 0 <= i < k ==> after[i] == before[i].(order := i))
      && (forall i :: k < i < |after| ==> after[i] == before[i - 1].(order := i))
  {
    var after := Visible(FinalCards(cards, m), m.destColumn);
    var before := Without(Visible(cards, m.destColumn), m.moved.id);
    DestColumnIsDestCards(cards, m);
    VisibleWithout(cards, m.destColumn, m.moved.id);
    assert before == DestBefore(cards, m);
    assert after == Renumber(Splice(before, m.index, Landed(m)));
    RenumberSplice(before, m.index, Landed(m));
  }

  lemma DestColumnIsDestCards(cards: seq<Card>, m: Move)
    ensures Visible(FinalCards(cards, m), m.destColumn) == DestCards(cards, m)
  {
    var dc := DestCards(cards, m);
    var out := Filter(OutsideColumns(m.destColumn, m.sourceColumn), Others(cards, m));
    FinalInColumn(cards, m, m.destColumn);
    FilterNone(ColumnIs(m.destColumn), out);
    DestCardsShape(cards, m);
    FilterAll(ColumnIs(m.destColumn), dc);
    SourceCardsShape(cards, m);
    FilterNone(ColumnIs(m.destColumn), SourceCards(cards, m));
    assert InColumn(FinalCards(cards, m), m.destColumn) == dc;
    RenumberSorted(Splice(DestBefore(cards, m), m.index, Landed(m)));
  }

  /** On a move between two columns, the source column keeps its remaining
      cards in their rendered order, renumbered 0..m-1, and no longer holds
      the moved card. */
  lemma SourceColumnAfterMove(cards: seq<Card>, m: Move)
    requires m.sourceColumn != m.destColumn
    ensures
      var after := Visible(FinalCards(cards, m), m.sourceColumn);
      var before := Without(Visible(cards, m.sourceColumn), m.moved.id);
      && |after| == |before|
      && (forall i :: 0 <= i < |after| ==> after[i] == before[i].(order := i))
      && Ids(after) == Ids(before)
      && !HasId(after, m.moved.id)
  {
    var after := Visible(FinalCards(cards, m), m.sourceColumn);
    var before := Without(Visible(cards, m.sourceColumn), m.moved.id);
    SourceColumnIsSourceCards(cards, m);
    VisibleWithout(cards, m.sourceColumn, m.moved.id);
    assert after == Renumber(before);
    RenumberSorted(before);
    forall i | 0 <= i < |after| ensures after[i].id != m.moved.id {
      assert IdIsNot(m.moved.id)(before[i]);
    }
  }

  lemma SourceColumnIsSourceCards(cards: seq<Card>, m: Move)
    requires m.sourceColumn != m.destColumn
    ensures Visible(FinalCards(cards, m), m.sourceColumn) == SourceCards(cards, m)
  {
    var sc := SourceCards(cards, m);
    var out := Filter(OutsideColumns(m.destColumn, m.sourceColumn), Others(cards, m));
    FinalInColumn(cards, m, m.sourceColumn);
    FilterNone(ColumnIs(m.sourceColumn), out);
    DestCardsShape(cards, m);
    FilterNone(ColumnIs(m.sourceColumn), DestCards(cards, m));
    SourceCardsShape(cards, m);
    FilterAll(ColumnIs(m.sourceColumn), sc);
    assert InColumn(FinalCards(cards, m), m.sourceColumn) == sc;
    RenumberSorted(SortByOrder(InColumn(Others(cards, m), m.sourceColumn)));
  }

  /** A column that is neither source nor destination keeps its cards, in
      order, minus the moved card; when the moved card came from the source
      column and ids are unique, that column is untouched. */
  lemma OtherColumnsUnchanged(cards: seq<Card>, m: Move, col: ColumnId)
    requires col != m.sourceColumn && col != m.destColumn
    ensures InColumn(FinalCards(cards, m), col) == Without(InColumn(cards, col), m.moved.id)
    ensures m.moved in cards && m.moved.columnId == m.sourceColumn && Distinct(Ids(cards))
      ==> InColumn(FinalCards(cards, m), col) == InColumn(cards, col)
  {
    OtherColumnFiltered(cards, m, col);
    if m.moved in cards && m.moved.columnId == m.sourceColumn && Distinct(Ids(cards)) {
      var c := InColumn(cards, col);
      FilterMembers(ColumnIs(col), cards);
      forall i | 0 <= i < |c| ensures IdIsNot(m.moved.id)(c[i]) {
        assert ColumnIs(col)(c[i]) && c[i] in cards;
        if c[i].id == m.moved.id {
          UniqueId(cards, c[i], m.moved);
        }
      }
      FilterAll(IdIsNot(m.moved.id), c);
    }
  }

  /** With unique ids, a card is determined by its id. */
  lemma UniqueId(cards: seq<Card>, x: Card, y: Card)
    requires Distinct(Ids(cards)) && x in cards && y in cards && x.id == y.id
    ensures x == y
  {
    var a :| 0 <= a < |cards| && cards[a] == x;
    var b :| 0 <= b < |cards| && cards[b] == y;
    assert Ids(cards)[a] == Ids(cards)[b];
  }

  lemma OtherColumnFiltered(cards: seq<Card>, m: Move, col: ColumnId)
    requires col != m.sourceColumn && col != m.destColumn
    ensures InColumn(FinalCards(cards, m), col) == Without(InColumn(cards, col), m.moved.id)
  {
    var outside := OutsideColumns(m.destColumn, m.sourceColumn);
    var w := Others(cards, m);
    FinalInColumn(cards, m, col);
    DestCardsShape(cards, m);
    FilterNone(ColumnIs(col), DestCards(cards, m));
    SourceCardsShape(cards, m);
    FilterNone(ColumnIs(col), SourceCards(cards, m));
    assert InColumn(FinalCards(cards, m), col) == Filter(ColumnIs(col), Filter(outside, w));
    FilterCommutes(ColumnIs(col), outside, w);
    assert forall x :: ColumnIs(col)(x) ==> outside(x);
    FilterTwice(ColumnIs(col), outside, w);
    assert Filter(ColumnIs(col), Filter(outside, w)) == Filter(ColumnIs(col), w);
    FilterCommutes(ColumnIs(col), IdIsNot(m.moved.id), cards);
  }

  /** The board after a move holds the same ids as before: every card but the
      moved one once more, and the moved card exactly once. With unique ids
      on the board before, the ids after are a rearrangement of them and are
      still unique. */
  lemma MovePreservesIds(cards: seq<Card>, m: Move)
    ensures multiset(Ids(FinalCards(cards, m))) == multiset(Ids(Others(cards, m))) + multiset{m.moved.id}
    ensures m.moved in cards && Distinct(Ids(cards)) ==>
      && multiset(Ids(FinalCards(cards, m))) == multiset(Ids(cards))
      && Distinct(Ids(FinalCards(cards, m)))
  {
    var w := Others(cards, m);
    var out := Filter(OutsideColumns(m.destColumn, m.sourceColumn), w);
    var dc, sc := DestCards(cards, m), SourceCards(cards, m);
    IdsAppend(out + dc, sc);
    IdsAppend(out, dc);
    assert multiset(Ids(FinalCards(cards, m))) == multiset(Ids(out)) + multiset(Ids(dc)) + multiset(Ids(sc));
    DestIds(cards, m);
    SourceIds(cards, m);
    ColumnPartition(w, m.destColumn, m.sourceColumn);
    if m.moved in cards && Distinct(Ids(cards)) {
      assert HasId(cards, m.moved.id);
      RemoveUniqueId(cards, m.moved.id);
      DistinctPermutation(Ids(FinalCards(cards, m)), Ids(cards));
    }
  }

  lemma DestIds(cards: seq<Card>, m: Move)
    ensures multiset(Ids(DestCards(cards, m)))
         == multiset(Ids(InColumn(Others(cards, m), m.destColumn))) + multiset{m.moved.id}
  {
    DestCardsShape(cards, m);
    var di := Ids(DestBefore(cards, m));
    var k := if m.index <= |di| then m.index else |di|;
    assert di == di[..k] + di[k..];
    assert multiset(Ids(DestCards(cards, m))) == multiset(di) + multiset{m.moved.id};
    SortKeepsIds(InColumn(Others(cards, m), m.destColumn));
  }

  lemma SourceIds(cards: seq<Card>, m: Move)
    ensures multiset(Ids(SourceCards(cards, m)))
         == if m.sourceColumn != m.destColumn
            then multiset(Ids(InColumn(Others(cards, m), m.sourceColumn)))
            else multiset{}
  {
    if m.sourceColumn != m.destColumn {
      var ss := SortByOrder(InColumn(Others(cards, m), m.sourceColumn));
      RenumberSorted(ss);
      SortKeepsIds(InColumn(Others(cards, m), m.sourceColumn));
    }
  }

  /** The untouched columns, the destination and (when different) the source
      split the board without loss. */
  lemma {:induction false} ColumnPartition(w: seq<Card>, d: ColumnId, s: ColumnId)
    ensures multiset(Ids(Filter(OutsideColumns(d, s), w)))
          + multiset(Ids(InColumn(w, d)))
          + (if s != d then multiset(Ids(InColumn(w, s))) else multiset{})
         == multiset(Ids(w))
  {
    if w != [] {
      var x, r := w[0], w[1..];
      ColumnPartition(r, d, s);
      assert w == [x] + r;
      IdsAppend([x], r);
      var out, ind, ins := Filter(OutsideColumns(d, s), r), InColumn(r, d), InColumn(r, s);
      if x.columnId == d {
        assert InColumn(w, d) == [x] + ind;
        IdsAppend([x], ind);
        assert Filter(OutsideColumns(d, s), w) == out;
        assert s != d ==> InColumn(w, s) == ins;
      } else if x.columnId == s {
        assert InColumn(w, s) == [x] + ins;
        IdsAppend([x], ins);
        assert Filter(OutsideColumns(d, s), w) == out;
        assert InColumn(w, d) == ind;
      } else {
        assert Filter(OutsideColumns(d, s), w) == [x] + out;
        IdsAppend([x], out);
        assert InColumn(w, d) == ind;
        assert InColumn(w, s) == ins;
      }
    }
  }

  /** Removing the one card that carries `id` leaves the other ids. */
  lemma {:induction false} RemoveUniqueId(cards: seq<Card>, id: CardId)
    requires Distinct(Ids(cards)) && HasId(cards, id)
    ensures multiset(Ids(Without(cards, id))) + multiset{id} == multiset(Ids(cards))
  {
    var c, rest := cards[0], cards[1..];
    assert cards == [c] + rest;
    IdsAppend([c], rest);
    TailDistinct(cards);
    if c.id == id {
      RemoveHeadId(cards, id);
    } else {
      var j :| 0 <= j < |cards| && cards[j].id == id;
      assert rest[j - 1].id == id;
      RemoveUniqueId(rest, id);
      assert Without(cards, id) == [c] + Without(rest, id);
      IdsAppend([c], Without(rest, id));
    }
  }

  lemma TailDistinct(cards: seq<Card>)
    requires cards != [] && Distinct(Ids(cards))
    ensures Distinct(Ids(cards[1..]))
    ensures !HasId(cards[1..], cards[0].id)
  {
    var ids := Ids(cards);
    forall i, j | 0 <= i < j < |cards| - 1 ensures Ids(cards[1..])[i] != Ids(cards[1..])[j] {
      assert ids[i + 1] != ids[j + 1];
    }
    forall i | 0 <= i < |cards| - 1 ensures cards[1..][i].id != cards[0].id {
      assert ids[0] != ids[i + 1];
    }
  }

  lemma RemoveHeadId(cards: seq<Card>, id: CardId)
    requires cards != [] && cards[0].id == id && !HasId(cards[1..], id)
    ensures Ids(Without(cards, id)) == Ids(cards[1..])
    ensures Ids(cards) == [id] + Ids(cards[1..])
  {
    var rest := cards[1..];
    assert Without(cards, id) == Without(rest, id);
    forall i | 0 <= i < |rest| ensures IdIsNot(id)(rest[i]) {
    }
    FilterAll(IdIsNot(id), rest);
  }
}
