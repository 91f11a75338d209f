/** The card schema of the server (server/src/models/Card.ts): which fields
    a new card must have, the allowed priorities, and the defaults that fill
    in absent fields. A document is built from a request body and then
    validated, as Mongoose does on `save`. */
module CardSchema {
  import opened Seqs
  import opened Cards

  /** The `enum` of the priority path. */
  const Priorities: seq<string> := ["Low", "Medium", "High"]

  const DefaultPriority: string := "Medium"
  const DefaultOrder: int := 0

  /** The schema paths whose validators can fail. */
  datatype Path = TitlePath | ColumnIdPath | PriorityPath

  datatype Result<T> = Ok(value: T) | Err(failed: set<Path>)

  /** `required` on a String path: the value must be present and non-empty. */
  predicate RequiredString(v: Option<string>) {
    v.Some? && v.value != ""
  }

  /** The `enum` validator: an absent value passes, a present one must be listed. */
  predicate PriorityAllowed(v: Option<string>) {
    v.None? || v.value in Priorities
  }

  /** The paths of `body` whose validators fail. */
  function Failures(body: PartialCard): (f: set<Path>)
    ensures TitlePath in f <==> !RequiredString(body.title)
    ensures ColumnIdPath in f <==> !RequiredString(body.columnId)
    ensures PriorityPath in f <==> !PriorityAllowed(body.priority)
  {
    (if RequiredString(body.title) then {} else {TitlePath})
      + (if RequiredString(body.columnId) then {} else {ColumnIdPath})
      + (if PriorityAllowed(body.priority) then {} else {PriorityPath})
  }

  /** The document `new Card({...})` builds from the eight fields of a
      request body (an id in the body is not among them), with the schema
      defaults applied to absent fields. */
  function Document(id: CardId, body: PartialCard): (c: Card)
    ensures c.id == id
    ensures body.title.Some? ==> c.title == body.title.value
    ensures body.columnId.Some? ==> c.columnId == body.columnId.value
    ensures c.order == if body.order.Some? then body.order.value else DefaultOrder
    ensures c.priority == Some(if body.priority.Some? then body.priority.value else DefaultPriority)
    ensures c.tags == Some(if body.tags.Some? then body.tags.value else [])
    ensures c.description == body.description && c.assignee == body.assignee && c.dueDate == body.dueDate
  {
    Card(id, body.title.GetOr(""), body.description, body.columnId.GetOr(""),
         body.order.GetOr(DefaultOrder), body.assignee, body.dueDate,
         Some(body.priority.GetOr(DefaultPriority)), Some(body.tags.GetOr([])))
  }

  /** Building and validating a new card: every failing path is reported,
      and a card is produced only when none fails. */
  function NewCard(id: CardId, body: PartialCard): (r: Result<Card>)
    ensures r.Ok? <==> RequiredString(body.title) && RequiredString(body.columnId) && PriorityAllowed(body.priority)
    ensures r.Ok? ==> r.value == Document(id, body) && WellFormed(r.value)
    ensures r.Err? ==> r.failed == Failures(body) && r.failed != {}
  {
    var f := Failures(body);
    if f == {} then Ok(Document(id, body))
    else
      assert TitlePath in f || ColumnIdPath in f || PriorityPath in f;
      Err(f)
  }

  /** What every card the schema accepts satisfies. */
  predicate WellFormed(c: Card) {
    && c.title != ""
    && c.columnId != ""
    && c.priority.Some? && c.priority.value in Priorities
    && c.tags.Some?
  }

  // ---------------------------------------------------------------------------
  // Properties

  /** A well-formed card sent back as a body is rebuilt unchanged. */
  lemma WellFormedRoundTrip(c: Card)
    requires WellFormed(c)
    ensures NewCard(c.id, AsPartial(c)) == Ok(c)
  {
  }

  /** The schema places no constraint on `order`: any value, negative or
      shared with another card of the column, is stored as given. */
  lemma OrderUnconstrained(id: CardId, body: PartialCard, order: int)
    requires NewCard(id, body).Ok?
    ensures NewCard(id, body.(order := Some(order))).Ok?
    ensures NewCard(id, body.(order := Some(order))).value.order == order
  {
  }

  /** Without an `order` the card gets order 0; without a priority, Medium;
      without tags, the empty list. */
  lemma DefaultsApplied(id: CardId, body: PartialCard)
    requires NewCard(id, body).Ok?
    requires body.order.None? && body.priority.None? && body.tags.None?
    ensures NewCard(id, body).value.order == 0
    ensures NewCard(id, body).value.priority == Some("Medium")
    ensures NewCard(id, body).value.tags == Some([])
  {
  }

  /** A card lacking a title or a column is rejected, whatever else it holds. */
  lemma RequiredFieldsRejected(id: CardId, body: PartialCard)
    requires !RequiredString(body.title) || !RequiredString(body.columnId)
    ensures NewCard(id, body).Err?
    ensures !RequiredString(body.title) ==> TitlePath in NewCard(id, body).failed
    ensures !RequiredString(body.columnId) ==> ColumnIdPath in NewCard(id, body).failed
  {
  }
}
