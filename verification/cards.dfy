/** The card record shared by the board client and the card server
    (client/src/types.ts), and the ordering vocabulary both sides use:
    a column's cards, the column as rendered (sorted by `order`, ties kept in
    list order, because Array.prototype.sort is stable), renumbering, splicing. */
module Cards {
  import opened Seqs

  type CardId = string
  type ColumnId = string

  /** A stored card. The optional fields of the interface stay optional. */
  datatype Card = Card(
    id: CardId,
    title: string,
    description: Option<string>,
    columnId: ColumnId,
    order: int,
    assignee: Option<string>,
    dueDate: Option<string>,
    priority: Option<string>,
    tags: Option<seq<string>>)

  /** A request body or form state: every field of a card may be absent. */
  datatype PartialCard = PartialCard(
    id: Option<CardId>,
    title: Option<string>,
    description: Option<string>,
    columnId: Option<ColumnId>,
    order: Option<int>,
    assignee: Option<string>,
    dueDate: Option<string>,
    priority: Option<string>,
    tags: Option<seq<string>>)

  datatype Column = Column(id: ColumnId, title: string)

  /** The column a new card lands in when none is chosen. */
  const DefaultColumn: ColumnId := "To Do"

  const EmptyPartial: PartialCard :=
    PartialCard(None, None, None, None, None, None, None, None, None)

  /** The wire form of a card: every field present. */
  function AsPartial(c: Card): (r: PartialCard)
    ensures r.id == Some(c.id) && r.title == Some(c.title) && r.columnId == Some(c.columnId)
    ensures r.order == Some(c.order)
  {
    PartialCard(Some(c.id), Some(c.title), c.description, Some(c.columnId), Some(c.order),
                c.assignee, c.dueDate, c.priority, c.tags)
  }

  /** JavaScript truthiness of an optional string: absent and "" are both false. */
  predicate Truthy(s: Option<string>) {
    s.Some? && s.value != ""
  }

  function Ids(s: seq<Card>): seq<CardId> {
    seq(|s|, i requires 0 <= i < |s| => s[i].id)
  }

  predicate HasId(s: seq<Card>, id: CardId) {
    exists i :: 0 <= i < |s| && s[i].id == id
  }

  // ---------------------------------------------------------------------------
  // Filters

  function ColumnIs(col: ColumnId): Card -> bool {
    (c: Card) => c.columnId == col
  }

  function IdIsNot(id: CardId): Card -> bool {
    (c: Card) => c.id != id
  }

  function OutsideColumns(a: ColumnId, b: ColumnId): Card -> bool {
    (c: Card) => c.columnId != a && c.columnId != b
  }

  /** `cards.filter(c => c.columnId === col)` */
  function InColumn(cards: seq<Card>, col: ColumnId): seq<Card> {
    Filter(ColumnIs(col), cards)
  }

  /** `cards.filter(c => c._id !== id)` */
  function Without(cards: seq<Card>, id: CardId): seq<Card> {
    Filter(IdIsNot(id), cards)
  }

  // ---------------------------------------------------------------------------
  // Sorting by order

  predicate SortedByOrder(s: seq<Card>) {
    forall i, j :: 0 <= i < j < |s| ==> s[i].order <= s[j].order
  }

  /** The first position of `t` whose card does not have a smaller order than `x`. */
  function InsertionPoint(x: Card, t: seq<Card>): (p: nat)
    ensures p <= |t|
    ensures forall i :: 0 <= i < p ==> t[i].order < x.order
    ensures p < |t| ==> x.order <= t[p].order
  {
    if t == [] || x.order <= t[0].order then 0 else 1 + InsertionPoint(x, t[1..])
  }

  function InsertByOrder(x: Card, t: seq<Card>): seq<Card> {
    var p := InsertionPoint(x, t);
    t[..p] + [x] + t[p..]
  }

  /** `s.sort((a, b) => a.order - b.order)`: a stable insertion sort. */
  function SortByOrder(s: seq<Card>): (r: seq<Card>)
    ensures |r| == |s|
    ensures SortedByOrder(r)
    ensures multiset(r) == multiset(s)
  {
    if s == [] then []
    else
      var rest := SortByOrder(s[1..]);
      InsertSorted(s[0], rest);
      assert s == [s[0]] + s[1..];
      InsertByOrder(s[0], rest)
  }

  lemma InsertSorted(x: Card, t: seq<Card>)
    requires SortedByOrder(t)
    ensures SortedByOrder(InsertByOrder(x, t))
    ensures multiset(InsertByOrder(x, t)) == multiset(t) + multiset{x}
  {
    var p := InsertionPoint(x, t);
    var r := InsertByOrder(x, t);
    forall i | 0 <= i < |r| ensures r[i] == if i < p then t[i] else if i == p then x else t[i - 1] {
    }
    forall i, j | 0 <= i < j < |r| ensures r[i].order <= r[j].order {
    }
    assert t == t[..p] + t[p..];
    assert multiset(r) == multiset(t[..p]) + multiset{x} + multiset(t[p..]);
  }

  /** The column `col` as the board renders it: its cards sorted by order. */
  function Visible(cards: seq<Card>, col: ColumnId): seq<Card> {
    SortByOrder(InColumn(cards, col))
  }

  /** Every card's order is its position: the orders are exactly 0..n-1. */
  predicate Ranked(s: seq<Card>) {
    forall i :: 0 <= i < |s| ==> s[i].order == i
  }

  /** Ranks of a column are dense: the i-th rendered card has order i. */
  predicate Dense(cards: seq<Card>, col: ColumnId) {
    Ranked(Visible(cards, col))
  }

  /** `s.map((c, i) => ({ ...c, order: i }))` */
  function Renumber(s: seq<Card>): seq<Card> {
    seq(|s|, i requires 0 <= i < |s| => s[i].(order := i))
  }

  /** `s.splice(i, 0, x)` for a non-negative `i`: an index past the end appends. */
  function Splice<T>(s: seq<T>, i: nat, x: T): seq<T> {
    var k := if i <= |s| then i else |s|;
    s[..k] + [x] + s[k..]
  }

  /** What splicing `x` into `d` and renumbering yields, position by position. */
  lemma RenumberSplice(d: seq<Card>, index: nat, x: Card)
    ensures
      var r := Renumber(Splice(d, index, x));
      var k := if index <= |d| then index else |d|;
      && |r| == |d| + 1
      && (forall i :: 0 <= i < |r| ==> r[i].order == i)
      && (forall i :: 0 <= i < k ==> r[i] == d[i].(order := i))
      && r[k] == x.(order := k)
      && (forall i :: k < i < |r| ==> r[i] == d[i - 1].(order := i))
      && Ids(r) == Splice(Ids(d), index, x.id)
  {
    var k := if index <= |d| then index else |d|;
    var sp := Splice(d, index, x);
    assert sp == d[..k] + [x] + d[k..];
    assert Ids(sp) == Ids(d)[..k] + [x.id] + Ids(d)[k..];
  }

  // ---------------------------------------------------------------------------
  // Lemmas about sorting

  /** Sorting an already sorted column changes nothing. */
  lemma {:induction false} SortSortedIsIdentity(s: seq<Card>)
    requires SortedByOrder(s)
    ensures SortByOrder(s) == s
  {
    if s != [] {
      SortSortedIsIdentity(s[1..]);
      assert InsertionPoint(s[0], s[1..]) == 0;
      assert s == [s[0]] + s[1..];
    }
  }

  lemma {:induction false} InsertionPointSplit(x: Card, l: seq<Card>, r: seq<Card>)
    requires forall i :: 0 <= i < |l| ==> l[i].order < x.order
    requires r != [] ==> x.order <= r[0].order
    ensures InsertionPoint(x, l + r) == |l|
  {
    if l != [] {
      assert (l + r)[1..] == l[1..] + r;
      InsertionPointSplit(x, l[1..], r);
    } else {
      assert l + r == r;
    }
  }

  /** Filtering after inserting into a sorted list is inserting after filtering. */
  lemma FilterInsert(p: Card -> bool, x: Card, t: seq<Card>)
    requires SortedByOrder(t)
    ensures Filter(p, InsertByOrder(x, t))
         == if p(x) then InsertByOrder(x, Filter(p, t)) else Filter(p, t)
  {
    var k := InsertionPoint(x, t);
    assert t == t[..k] + t[k..];
    FilterSplitAt(p, x, t[..k], t[k..]);
  }

  lemma FilterSplitAt(p: Card -> bool, x: Card, lo: seq<Card>, hi: seq<Card>)
    requires forall i :: 0 <= i < |lo| ==> lo[i].order < x.order
    requires forall i :: 0 <= i < |hi| ==> x.order <= hi[i].order
    ensures Filter(p, lo + [x] + hi)
         == if p(x) then InsertByOrder(x, Filter(p, lo + hi)) else Filter(p, lo + hi)
  {
    if p(x) {
      FilterKeepsInserted(p, x, lo, hi);
    } else {
      FilterAround(p, lo, x, hi);
      FilterAppend(p, lo, hi);
    }
  }

  lemma FilterKeepsInserted(p: Card -> bool, x: Card, lo: seq<Card>, hi: seq<Card>)
    requires p(x)
    requires forall i :: 0 <= i < |lo| ==> lo[i].order < x.order
    requires forall i :: 0 <= i < |hi| ==> x.order <= hi[i].order
    ensures Filter(p, lo + [x] + hi) == InsertByOrder(x, Filter(p, lo + hi))
  {
    FilterAround(p, lo, x, hi);
    FilterAppend(p, lo, hi);
    FilterBelow(p, x, lo);
    FilterAbove(p, x, hi);
    InsertBetween(x, Filter(p, lo), Filter(p, hi));
  }

  lemma FilterBelow(p: Card -> bool, x: Card, lo: seq<Card>)
    requires forall i :: 0 <= i < |lo| ==> lo[i].order < x.order
    ensures forall i :: 0 <= i < |Filter(p, lo)| ==> Filter(p, lo)[i].order < x.order
  {
    var f := Filter(p, lo);
    FilterMembers(p, lo);
    forall i | 0 <= i < |f| ensures f[i].order < x.order {
      assert f[i] in lo;
    }
  }

  lemma FilterAbove(p: Card -> bool, x: Card, hi: seq<Card>)
    requires forall i :: 0 <= i < |hi| ==> x.order <= hi[i].order
    ensures forall i :: 0 <= i < |Filter(p, hi)| ==> x.order <= Filter(p, hi)[i].order
  {
    var f := Filter(p, hi);
    FilterMembers(p, hi);
    forall i | 0 <= i < |f| ensures x.order <= f[i].order {
      assert f[i] in hi;
    }
  }

  /** Inserting between a lower and an upper part puts `x` at the seam. */
  lemma InsertBetween(x: Card, lo: seq<Card>, hi: seq<Card>)
    requires forall i :: 0 <= i < |lo| ==> lo[i].order < x.order
    requires forall i :: 0 <= i < |hi| ==> x.order <= hi[i].order
    ensures InsertByOrder(x, lo + hi) == lo + [x] + hi
  {
    InsertionPointSplit(x, lo, hi);
    assert (lo + hi)[..|lo|] == lo;
    assert (lo + hi)[|lo|..] == hi;
  }

  /** Stability: filtering the sorted list equals sorting the filtered list. */
  lemma {:induction false} FilterSortCommutes(p: Card -> bool, s: seq<Card>)
    ensures Filter(p, SortByOrder(s)) == SortByOrder(Filter(p, s))
  {
    if s != [] {
      FilterSortCommutes(p, s[1..]);
      FilterInsert(p, s[0], SortByOrder(s[1..]));
      var f := Filter(p, s);
      if p(s[0]) {
        assert f == [s[0]] + Filter(p, s[1..]);
        assert f[0] == s[0] && f[1..] == Filter(p, s[1..]);
      } else {
        assert f == Filter(p, s[1..]);
      }
    }
  }

  /** The rendered column without card `id` is the rendered column of the
      board without card `id`. */
  lemma VisibleWithout(cards: seq<Card>, col: ColumnId, id: CardId)
    ensures Without(Visible(cards, col), id) == SortByOrder(InColumn(Without(cards, id), col))
  {
    FilterSortCommutes(IdIsNot(id), InColumn(cards, col));
    FilterCommutes(IdIsNot(id), ColumnIs(col), cards);
  }

  /** After renumbering, positions and orders agree, so the list is sorted. */
  lemma RenumberSorted(s: seq<Card>)
    ensures SortedByOrder(Renumber(s))
    ensures SortByOrder(Renumber(s)) == Renumber(s)
    ensures Ids(Renumber(s)) == Ids(s)
  {
    SortSortedIsIdentity(Renumber(s));
  }

  lemma IdsAppend(a: seq<Card>, b: seq<Card>)
    ensures Ids(a + b) == Ids(a) + Ids(b)
  {
  }

  lemma IdsInsert(x: Card, t: seq<Card>)
    ensures multiset(Ids(InsertByOrder(x, t))) == multiset(Ids(t)) + multiset{x.id}
  {
    var p := InsertionPoint(x, t);
    var lo, hi := t[..p], t[p..];
    assert t == lo + hi;
    IdsAppend(lo + [x], hi);
    IdsAppend(lo, [x]);
    IdsAppend(lo, hi);
    assert Ids([x]) == [x.id];
    assert Ids(InsertByOrder(x, t)) == Ids(lo) + [x.id] + Ids(hi);
  }

  /** Sorting rearranges cards, so it keeps the multiset of ids. */
  lemma {:induction false} SortKeepsIds(s: seq<Card>)
    ensures multiset(Ids(SortByOrder(s))) == multiset(Ids(s))
  {
    if s != [] {
      SortKeepsIds(s[1..]);
      var t := SortByOrder(s[1..]);
      assert SortByOrder(s) == InsertByOrder(s[0], t);
      IdsInsert(s[0], t);
      assert s == [s[0]] + s[1..];
      IdsAppend([s[0]], s[1..]);
      assert Ids([s[0]]) == [s[0].id];
    }
  }

  lemma {:induction false} InsertionPointAppend(x: Card, t: seq<Card>, last: Card)
    requires x.order <= last.order
    ensures InsertionPoint(x, t + [last]) == InsertionPoint(x, t)
  {
    if t == [] {
      assert t + [last] == [last];
    } else {
      assert (t + [last])[1..] == t[1..] + [last];
      InsertionPointAppend(x, t[1..], last);
    }
  }

  lemma InsertBeforeLast(x: Card, t: seq<Card>, last: Card)
    requires x.order <= last.order
    ensures InsertByOrder(x, t + [last]) == InsertByOrder(x, t) + [last]
  {
    InsertionPointAppend(x, t, last);
    var p := InsertionPoint(x, t);
    assert (t + [last])[..p] == t[..p];
    assert (t + [last])[p..] == t[p..] + [last];
  }

  /** A card whose order exceeds every other card's sorts to the end. */
  lemma {:induction false} SortAppendLast(s: seq<Card>, last: Card)
    requires forall i :: 0 <= i < |s| ==> s[i].order < last.order
    ensures SortByOrder(s + [last]) == SortByOrder(s) + [last]
  {
    if s == [] {
      assert s + [last] == [last];
    } else {
      var u := s + [last];
      assert u[0] == s[0] && u[1..] == s[1..] + [last];
      SortAppendLast(s[1..], last);
      InsertBeforeLast(s[0], SortByOrder(s[1..]), last);
    }
  }

  /** Appending a card whose order is the size of its column keeps a dense
      column dense: it becomes the last rank. */
  lemma AppendKeepsDense(cards: seq<Card>, c: Card)
    requires Dense(cards, c.columnId)
    requires c.order == |InColumn(cards, c.columnId)|
    ensures Dense(cards + [c], c.columnId)
    ensures Visible(cards + [c], c.columnId) == Visible(cards, c.columnId) + [c]
  {
    var col := InColumn(cards, c.columnId);
    var v := Visible(cards, c.columnId);
    forall i | 0 <= i < |col| ensures col[i].order < c.order {
      assert col[i] in multiset(v);
      var j :| 0 <= j < |v| && v[j] == col[i];
    }
    VisibleAppendLast(cards, c);
    RankedAppend(v, c);
  }

  lemma VisibleAppendLast(cards: seq<Card>, c: Card)
    requires forall i :: 0 <= i < |InColumn(cards, c.columnId)| ==> InColumn(cards, c.columnId)[i].order < c.order
    ensures Visible(cards + [c], c.columnId) == Visible(cards, c.columnId) + [c]
  {
    FilterAppend(ColumnIs(c.columnId), cards, [c]);
    assert InColumn(cards + [c], c.columnId) == InColumn(cards, c.columnId) + [c];
    SortAppendLast(InColumn(cards, c.columnId), c);
  }

  lemma RankedAppend(v: seq<Card>, c: Card)
    requires Ranked(v) && c.order == |v|
    ensures Ranked(v + [c])
  {
  }
}
