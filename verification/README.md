# Kanban board: card ordering and reconciliation, in Dafny

This project models the core of a shared Kanban board. Cards sit in fixed
columns, and each card has a rank `order` inside its column. The model covers:

- **The board client** (`client/src/components/Board.tsx`), as the class
  `Board.BoardClient`:
  - the drag-and-drop planner `onDragEnd`, split into the pure plan
    (module `Planner`) and the method that applies it and then sends the
    `reorderCards` calls;
  - the handlers for the three socket pushes (module `Reconcile`);
  - the local create, edit and delete paths.
- **The card form** (`client/src/components/CardModal.tsx`), as the class
  `CardForm.CardModal`: field edits, tag append and remove, the open/reset
  effect, the delete button, and the submit guard.
- **The server's card controller** (`server/src/controllers/cardController.ts`),
  as the class `CardStore.CardServer`. It holds a map from card id to card and
  a log of the socket events it broadcasts.
- **The card schema** (`server/src/models/Card.ts`), as a validator plus a
  defaulting constructor (module `CardSchema`).
- **End-to-end properties** that join these parts (module `Flows`).

The network, the database and the socket are parameters of the methods:

- whether an awaited call succeeds;
- the reply the server sends;
- the id that the database assigns;
- the position at which a bulk write fails.

Every request the client sends is appended to `BoardClient.outbox`. Every event
the server emits is appended to `CardServer.events`.

Array helpers of JavaScript become Dafny functions:

- `filter` is `Seqs.Filter`.
- `sort((a, b) => a.order - b.order)` is `Cards.SortByOrder`. This is a
  stable insertion sort, because `Array.prototype.sort` is stable.
- `map((c, i) => ({...c, order: i}))` is `Cards.Renumber`.
- `splice(i, 0, x)` is `Cards.Splice`. An index past the end appends.

Several behaviours of the code matter for ranks and consistency. The model
captures each one as the code does it:

- **A reorder is not atomic.** `reorderCards` runs an ordered `bulkWrite`
  without a transaction. The model applies the updates one by one. A failure
  leaves the earlier updates applied (`CardStore.CardServer.ReorderCards`).
- **An unknown id in a reorder is not an error.** An `updateOne` whose filter
  matches no card changes nothing, and the batch goes on (`CardStore.ApplyOp`).
- **The server does not maintain ranks.**
  - `createCard` stores whatever `order` the body carries.
  - `updateCard` merges any body without validation, including a new column
    without a new `order` (`CardSchema.OrderUnconstrained`,
    `CardStore.UpdateSkipsValidation`).
  - The end-of-column rank of a new card is computed by the client
    (`Board.NewCardBody`).
- **The commit order is fixed.** A move across columns awaits the
  destination's reorder first. It sends the source's reorder only if the
  first one succeeded (`Board.CommitSequence`).
- **A drop of a card that is no longer on the board does nothing.** When
  `draggableId` names no card, the drag handler returns. It neither reloads
  nor sends anything (`Planner.PlanDrop` is `None`, and
  `Board.BoardClient.OnDragEnd` leaves the state unchanged).
- **A delete does not keep the ranks dense.** No side renumbers a column
  after a delete:
  - the `cardDeleted` handler and the deleter's own filter only drop the card;
  - `deleteCard` only removes the document.

  A delete in the middle of a column therefore leaves a gap in its orders.
  The next card created in that column then gets the order of the column's
  last card (`Flows.DeleteLeavesRankGap`). Lemmas about rendered columns
  that need orders 0..n-1 (`Board.NewCardKeepsColumnDense`) take them as an
  explicit assumption.

## Model

| member | source | states |
|---|---|---|
| `Planner.Find` | client/src/components/Board.tsx:258 | finds a card exactly when one with the id is on the board; the result has that id and is the first such card |
| `Planner.PlanDrop` | client/src/components/Board.tsx:245-259 | a drop is a no-op exactly when it has no destination, returns to its source position, or names an id not on the board; otherwise the move carries the card `find` returns (the first with the id), both columns and the drop index |
| `Cards.SortByOrder` | client/src/components/Board.tsx:276-278 | sorting by `order` gives a list sorted by `order` that is a permutation of its input |
| `Cards.FilterSortCommutes` | client/src/components/Board.tsx:276-278 | the sort is stable: filtering the sorted list equals sorting the filtered list |
| `Cards.SortSortedIsIdentity` | client/src/components/Board.tsx:422-424 | sorting a column that is already sorted changes nothing |
| `Cards.SortKeepsIds` | client/src/components/Board.tsx:276-278 | sorting keeps the multiset of card ids |
| `Cards.RenumberSplice` | client/src/components/Board.tsx:286-292 | after splicing a card in at an index (clamped to append) and renumbering, the card sits at that index, the cards before and after keep their relative order, the orders are 0..n-1, and the ids are the spliced id list |
| `Cards.RenumberSorted` | client/src/components/Board.tsx:292 | a renumbered list is sorted, is its own sort, and keeps its ids |
| `Cards.AppendKeepsDense` | client/src/components/Board.tsx:349-362 | appending a card whose order is the size of its column keeps a column whose orders are 0..n-1 in that form, with the new card rendered last |
| `Planner.DestColumnAfterMove` | client/src/components/Board.tsx:274-292 | the rendered destination column after a move is the old one without the moved card, with the moved card inserted at the drop index (clamped to append); orders are 0..n-1; the moved card changes only column and order, the others only order |
| `Planner.DestColumnIsDestCards` | client/src/components/Board.tsx:302-310 | rendering the destination column of the new list gives exactly `destCardsWithOrder` |
| `Planner.SourceColumnAfterMove` | client/src/components/Board.tsx:294-300 | on a cross-column move the source column keeps its other cards in their rendered order, renumbered 0..m-1, without the moved card |
| `Planner.OtherColumnsUnchanged` | client/src/components/Board.tsx:302-308 | a column that is neither source nor destination loses only the moved id; when the moved card came from the source column and ids are unique, it is unchanged |
| `Planner.MovePreservesIds` | client/src/components/Board.tsx:302-310 | the new list holds the same ids as the old one (the moved id once); with unique ids before, the new ids are a permutation and still unique |
| `Reconcile.ReplaceById` | client/src/components/Board.tsx:342-344 | every card with the id becomes the new card and every other card stays, position by position |
| `Reconcile.Upsert` | client/src/components/Board.tsx:220-227 | after `cardUpdated` the card is present and every card with its id is the pushed one; the other cards are unchanged; a known id keeps the id list, an unknown one is appended |
| `Reconcile.RemoveCard` | client/src/components/Board.tsx:229-231 | after `cardDeleted` no card has the id, every other card is kept, and nothing is added |
| `Reconcile.UpsertIdempotent` | client/src/components/Board.tsx:220-227 | applying `cardUpdated` twice equals applying it once |
| `Reconcile.RemoveCardKeepsOrder` | client/src/components/Board.tsx:229-231 | the delete filter keeps the remaining cards in their order, every copy included: it splits over concatenation and drops one card exactly when its id matches |
| `Reconcile.RemoveIdempotent` | client/src/components/Board.tsx:229-231 | applying `cardDeleted` twice equals applying it once, so the deleter's own copy of the event (after its filter at line 380) changes nothing |
| `Reconcile.RemoveAbsent` | client/src/components/Board.tsx:229-231 | deleting an id that is not on the board changes nothing |
| `Reconcile.CreateConverges` | client/src/components/Board.tsx:358-362 | the creator's append and the other clients' upsert of the pushed card give the same list, and the creator's own copy of the event changes nothing |
| `Reconcile.UpdateConverges` | client/src/components/Board.tsx:339-344 | the editor's replace and the other clients' upsert give the same list, and the editor's own copy of the event changes nothing |
| `Board.NewCardBody` | client/src/components/Board.tsx:349-356 | a new card's column defaults to "To Do" when none is given; its order is the number of cards already in that column; every other field is the form's |
| `Board.BoardClient.constructor` | client/src/components/Board.tsx:191-195 | no cards, both modals closed, nothing selected, nothing sent |
| `Board.BoardClient.FetchCards` | client/src/components/Board.tsx:200-207 | sends `getCards`; a reply replaces the list, a failure keeps it |
| `Board.BoardClient.OnCardUpdated` | client/src/components/Board.tsx:220-227 | the list becomes the upsert of the pushed card |
| `Board.BoardClient.OnCardDeleted` | client/src/components/Board.tsx:229-231 | the list loses every card with the pushed id |
| `Board.BoardClient.OnBoardUpdated` | client/src/components/Board.tsx:233-235 | a full reload |
| `Board.BoardClient.OnDragEnd` | client/src/components/Board.tsx:245-324 | a no-op drop changes nothing and sends nothing; otherwise the list becomes the planned one (or the reload, when a commit failed and the reload answered) and the commits of `CommitSequence` are sent |
| `Board.BoardClient.CommitReorder` | client/src/components/Board.tsx:312-323 | sends the destination's ids, then the source's only for a cross-column move whose first call succeeded; any failure is followed by a reload |
| `Board.CommitsFollowColumns` | client/src/components/Board.tsx:312-319 | one call for a move inside a column and two across columns; each call's id list is the new rendered order of its column |
| `Board.CommitIdsDistinct` | client/src/components/Board.tsx:313-318 | on a board with unique ids, each commit's id list has no repeats, and the destination's list holds the moved card |
| `Board.BoardClient.HandleCreateCard` | client/src/components/Board.tsx:326-329 | opens the modal with no card being edited |
| `Board.BoardClient.HandleEditCard` | client/src/components/Board.tsx:331-334 | opens the modal on the given card |
| `Board.BoardClient.CloseModal` | client/src/components/Board.tsx:441-444 | closes the modal and clears the edited card |
| `Board.BoardClient.HandleDeleteCard` | client/src/components/Board.tsx:370-373 | selects the id and opens the confirmation |
| `Board.BoardClient.CloseDeleteModal` | client/src/components/Board.tsx:453-456 | closes the confirmation and clears the selection |
| `Board.BoardClient.HandleSaveCard` | client/src/components/Board.tsx:336-368 | without a title nothing changes; an edit sends the update and replaces the card with the reply; a new card sends `NewCardBody` and appends the reply; a failed call keeps the list; the edited card is cleared |
| `Board.BoardClient.ConfirmDeleteCard` | client/src/components/Board.tsx:375-392 | without a selected id nothing happens; otherwise the delete is sent; on success the card is filtered out, the confirmation closes, and an open edit modal closes too; on failure only the request is recorded |
| `Board.NewCardKeepsColumnDense` | client/src/components/Board.tsx:349-362 | a card saved with the board's computed column and order lands last in its rendered column and keeps the orders 0..n-1, provided the column's orders were 0..n-1 before |
| `Flows.DeleteLeavesRankGap` | client/src/components/Board.tsx:229-231 | in a column ranked 0, 1, 2, deleting the middle card keeps the other two in order, leaves orders that are not 0..n-1, and the next new card gets the last card's order again |
| `CardSchema.Failures` | server/src/models/Card.ts:14-25 | the failing paths are exactly a missing or empty title, a missing or empty column, and a priority outside Low, Medium, High |
| `CardSchema.Document` | server/src/models/Card.ts:18-22 | the built document takes each given field; order defaults to 0, priority to Medium, tags to the empty list |
| `CardSchema.NewCard` | server/src/controllers/cardController.ts:15-27 | a body is accepted exactly when every validator passes; then the card is the defaulted document and is well formed; otherwise every failing path is reported |
| `CardSchema.WellFormedRoundTrip` | server/src/models/Card.ts:14-25 | a well-formed card sent back as a body is rebuilt unchanged |
| `CardSchema.OrderUnconstrained` | server/src/models/Card.ts:18 | any `order`, negative or shared with another card, is accepted and stored as given |
| `CardSchema.DefaultsApplied` | server/src/models/Card.ts:18-22 | without order, priority or tags the card gets 0, Medium and the empty list |
| `CardSchema.RequiredFieldsRejected` | server/src/models/Card.ts:15-17 | a body without a title or a column is rejected, and the missing path is reported |
| `CardStore.ReorderOps` | server/src/controllers/cardController.ts:70-77 | one update per listed id, in list order, setting the column and the order to the index |
| `CardStore.Merge` | server/src/controllers/cardController.ts:40 | the updated card takes each field the body holds and keeps the others, under the same id |
| `CardStore.CardServer.GetCards` | server/src/controllers/cardController.ts:5-12 | on success the reply lists every stored card exactly once, as stored, by ascending order; a failed query answers 500 |
| `CardStore.CardServer.CreateCard` | server/src/controllers/cardController.ts:14-36 | 201 exactly when the body validates, the save succeeds and the id is new; then the card is stored and `cardUpdated` is emitted with it; otherwise 400 and nothing changes |
| `CardStore.CardServer.UpdateCard` | server/src/controllers/cardController.ts:38-50 | a failed query answers 400 and an unknown id 404, both changing nothing; otherwise the body is merged in, `cardUpdated` is emitted with the result, and the reply is 200 |
| `CardStore.CardServer.DeleteCard` | server/src/controllers/cardController.ts:52-64 | a failed query answers 500 and an unknown id 404, both changing nothing; otherwise the card is removed, `cardDeleted` is emitted with the id, and the reply is 200 |
| `CardStore.CardServer.ReorderCards` | server/src/controllers/cardController.ts:66-87 | the updates run in list order; a failure leaves the earlier ones applied, answers 500 and emits nothing; full success emits `boardUpdated` and answers 200 |
| `CardStore.ReorderSetsListed` | server/src/controllers/cardController.ts:70-79 | a listed stored card ends in the column with its (last) index in the list as order, and its other fields unchanged |
| `CardStore.ReorderLeavesUnlisted` | server/src/controllers/cardController.ts:70-79 | a stored card the list does not name is untouched |
| `CardStore.ReorderedColumn` | server/src/controllers/cardController.ts:66-79 | after reordering with distinct stored ids that cover the column, the column holds exactly the listed cards, the one at index i with order i, and no card was added or removed |
| `CardStore.ReorderRoundTrip` | server/src/controllers/cardController.ts:66-87 | a `getCards` listing after such a reorder, filtered to the column and sorted, gives back exactly the id list, with orders 0..n-1 |
| `CardStore.MergeEmpty` | server/src/controllers/cardController.ts:40 | an empty body changes nothing |
| `CardStore.MergeIdempotent` | server/src/controllers/cardController.ts:40 | sending the same update twice equals sending it once |
| `CardStore.MergeWhole` | server/src/controllers/cardController.ts:40 | a whole card with every optional field present, sent as the body, becomes the stored card under the stored id |
| `CardStore.UpdateSkipsValidation` | server/src/controllers/cardController.ts:40 | an update can store an empty title, which creation rejects |
| `CardForm.SetField` | client/src/components/CardModal.tsx:289-296 | the named input takes the value and every other field is unchanged |
| `CardForm.Trim` | client/src/components/CardModal.tsx:299-303 | the trimmed tag is a slice of the input with only white space cut off before and after it; a non-empty result starts and ends with a non-space |
| `CardForm.TrimmedIsFixed` | client/src/components/CardModal.tsx:299-303 | a string without white space at either end is its own trim |
| `CardForm.TrimIdempotent` | client/src/components/CardModal.tsx:299-303 | trimming twice equals trimming once |
| `CardForm.TrimEmptyIffAllSpace` | client/src/components/CardModal.tsx:299 | a tag trims to nothing exactly when it is all white space |
| `CardForm.DropIndex` | client/src/components/CardModal.tsx:309-314 | removing index i keeps every other tag in order; an index out of range keeps the list |
| `CardForm.RemoveAddedTag` | client/src/components/CardModal.tsx:298-314 | removing the tag just appended gives back the previous list |
| `CardForm.BlankForm` | client/src/components/CardModal.tsx:276-284 | the reset form: empty texts, the first column's id, priority Medium, no tags |
| `CardForm.FilledForm` | client/src/components/CardModal.tsx:266-274 | the form filled from a card keeps its fields; a missing priority becomes Medium and missing tags the empty list |
| `CardForm.BlankFormNotSubmittable` | client/src/components/CardModal.tsx:322-333 | a freshly reset form cannot be submitted |
| `CardForm.SetFieldSubmittable` | client/src/components/CardModal.tsx:322-333 | emptying any input blocks submission; filling the last empty one of an otherwise complete form allows it |
| `CardForm.CardModal.constructor` | client/src/components/CardModal.tsx:251-261 | the initial form is the reset form and the tag input is empty |
| `CardForm.CardModal.Open` | client/src/components/CardModal.tsx:263-287 | when open, the form is filled from the edited card or reset; when closed, it is kept |
| `CardForm.CardModal.HandleChange` | client/src/components/CardModal.tsx:289-296 | only the named field changes |
| `CardForm.CardModal.SetNewTag` | client/src/components/CardModal.tsx:427 | the tag input takes the typed value |
| `CardForm.CardModal.HandleAddTag` | client/src/components/CardModal.tsx:298-307 | on Enter with a non-blank input the trimmed tag is appended and the input cleared; otherwise nothing changes |
| `CardForm.CardModal.RemoveTag` | client/src/components/CardModal.tsx:309-314 | exactly the tag at the index goes, the others keep their order; a form without tags keeps none |
| `CardForm.CardModal.HandleDelete` | client/src/components/CardModal.tsx:316-320 | a delete is requested only for a card with a non-empty id when a callback is supplied |
| `CardForm.CardModal.HandleSubmit` | client/src/components/CardModal.tsx:322-336 | with all six required inputs filled the form is saved and then closed; otherwise only the alert fires |
| `Flows.SubmittedNewCardAccepted` | client/src/components/Board.tsx:349-362 | a new card from a form that passed the submit guard, with a listed priority, is accepted by the schema, in the chosen column, with the board's computed order |
| `Flows.DragCommitConverges` | client/src/components/Board.tsx:312-319 | when the client's list is a listing of the store, the server stores the destination commit of a move and a later `getCards` renders that column card for card as the client's optimistic list did, with orders 0..n-1 |

## Left out

- Transport and I/O are not modelled: the socket.io connection, the axios client, the Mongo connection and server startup. A call's outcome, a server reply, a database id and a bulk write's failing position are method parameters.
- Authentication and roles are not modelled: JWT, bcrypt, the session in localStorage, and the Editor-only buttons.
- React rendering and styling are not modelled. Column.tsx, Card.tsx, ConfirmationModal.tsx, the pages and App.tsx are not part of this model.
- Due-date conversion with `Date` and `toISOString` is not modelled. `CardForm.FilledForm` takes the resulting day string as the parameter `isoDay`. Due dates are opaque strings everywhere else.
- The dead code in `onDragEnd` is not modelled: `newCards`, `updatedCard` and `destColumnCards` are computed and never used. The two identical splice branches are one splice.
- Concurrency is not modelled: several clients, the interleaving of awaited calls with pushes, and React's batching of state updates. Every handler runs to completion on the state it starts from. In particular, `handleSaveCard` appends to the `cards` of its own render; the model uses the current list.
- The local `destCards` array that `splice` mutates in place is a sequence value (`Cards.Splice`), since no other reference to it exists.
- Mongo's own sort is not modelled. `CardStore.CardServer.GetCards` builds its reply by inserting the stored cards one at a time by order, and its contract says only what the reply is (every card once, ascending by order). The relative order of cards with equal `order` is left to that loop.
- `Planner.PlanDrop` takes the drop index as a natural number, as the drag library reports it.
- `Cards.SortByOrder` compares orders as integers. `a.order - b.order` on JavaScript numbers is the same for the integer ranks the board produces. Fractional or non-finite orders are not modelled.
- JavaScript `null` is not modelled. An absent field and `null` are both `None`, and the JSON round trip of request bodies is the identity.
- Extra fields of a request body are not modelled: `_id` or timestamps in an update body, and `columnId` missing from a reorder body. `CardStore.Merge` covers the nine card fields only. A malformed id that Mongo would reject with a cast error appears as the failed-query parameter.
