/** The state of the card form (client/src/components/CardModal.tsx): the
    form data, the tag being typed, and the callbacks the form fires,
    recorded in order as `effects`. */
module CardForm {
  import opened Seqs
  import opened Cards

  /** The inputs that `handleChange` serves, by their `name` attribute. */
  datatype Field = Title | Description | ColumnField | Priority | Assignee | DueDate

  /** A callback fired by the form, or the alert it raises. */
  datatype Effect = Saved(formData: PartialCard) | Closed | DeleteRequested(id: CardId) | Alerted

  /** The value of one named input in the form data. */
  function FieldValue(fd: PartialCard, f: Field): Option<string> {
    match f
    case Title => fd.title
    case Description => fd.description
    case ColumnField => fd.columnId
    case Priority => fd.priority
    case Assignee => fd.assignee
    case DueDate => fd.dueDate
  }

  /** `{ ...prev, [name]: value }`: only the named input changes. */
  function SetField(fd: PartialCard, f: Field, value: string): (r: PartialCard)
    ensures FieldValue(r, f) == Some(value)
    ensures forall g :: g != f ==> FieldValue(r, g) == FieldValue(fd, g)
    ensures r.id == fd.id && r.order == fd.order && r.tags == fd.tags
  {
    match f
    case Title => fd.(title := Some(value))
    case Description => fd.(description := Some(value))
    case ColumnField => fd.(columnId := Some(value))
    case Priority => fd.(priority := Some(value))
    case Assignee => fd.(assignee := Some(value))
    case DueDate => fd.(dueDate := Some(value))
  }

  // ---------------------------------------------------------------------------
  // String.prototype.trim

  /** The white space and line terminators that `trim` removes. */
  predicate IsSpace(c: char) {
    || c == '\t' || c == '\n' || c == '\U{000B}' || c == '\U{000C}' || c == '\r' || c == ' '
    || c == '\U{00A0}' || c == '\U{1680}' || '\U{2000}' <= c <= '\U{200A}'
    || c == '\U{2028}' || c == '\U{2029}' || c == '\U{202F}' || c == '\U{205F}'
    || c == '\U{3000}' || c == '\U{FEFF}'
  }

  predicate AllSpace(s: string) {
    forall i :: 0 <= i < |s| ==> IsSpace(s[i])
  }

  /** The number of white-space characters `s` starts with. */
  function LeadingSpace(s: string): (n: nat)
    ensures n <= |s|
    ensures forall k :: 0 <= k < n ==> IsSpace(s[k])
    ensures n < |s| ==> !IsSpace(s[n])
  {
    if s == [] || !IsSpace(s[0]) then 0 else 1 + LeadingSpace(s[1..])
  }

  /** The number of white-space characters `s` ends with. */
  function TrailingSpace(s: string): (n: nat)
    ensures n <= |s|
    ensures forall k :: |s| - n <= k < |s| ==> IsSpace(s[k])
    ensures n < |s| ==> !IsSpace(s[|s| - n - 1])
  {
    if s == [] || !IsSpace(s[|s| - 1]) then 0 else 1 + TrailingSpace(s[..|s| - 1])
  }

  /** `s.trim()`: `s` without the white space at either end. */
  function Trim(s: string): (r: string)
    ensures var i := LeadingSpace(s);
      var j := |s| - TrailingSpace(s[i..]);
      && i <= j <= |s| && r == s[i..j]
      && AllSpace(s[..i]) && AllSpace(s[j..])
    ensures r != [] ==> !IsSpace(r[0]) && !IsSpace(r[|r| - 1])
  {
    var t := s[LeadingSpace(s)..];
    t[..|t| - TrailingSpace(t)]
  }

  /** A string without white space at either end is its own trim. */
  lemma TrimmedIsFixed(s: string)
    requires s != [] ==> !IsSpace(s[0]) && !IsSpace(s[|s| - 1])
    ensures Trim(s) == s
  {
    if s != [] {
      assert LeadingSpace(s) == 0 && s[0..] == s;
      assert TrailingSpace(s) == 0;
    }
  }

  /** Trimming twice is trimming once. */
  lemma TrimIdempotent(s: string)
    ensures Trim(Trim(s)) == Trim(s)
  {
    TrimmedIsFixed(Trim(s));
  }

  /** A string of white space only trims to nothing; any other string
      trims to a non-empty one. */
  lemma TrimEmptyIffAllSpace(s: string)
    ensures Trim(s) == "" <==> AllSpace(s)
  {
    var t := s[LeadingSpace(s)..];
    if Trim(s) == "" {
      assert TrailingSpace(t) == |t|;
    }
  }

  // ---------------------------------------------------------------------------
  // Tags

  /** `tags.filter((_, index) => index !== i)`: every position but i is kept,
      in order. */
  function DropIndex(tags: seq<string>, i: int): (r: seq<string>)
    ensures 0 <= i < |tags| ==> r == tags[..i] + tags[i + 1..]
    ensures !(0 <= i < |tags|) ==> r == tags
  {
    if tags == [] then []
    else
      var rest := DropIndex(tags[1..], i - 1);
      if i == 0 then
        assert rest == tags[1..];
        rest
      else
        assert 0 < i < |tags| ==> tags[1..][..i - 1] == tags[1..i] && tags[1..][i..] == tags[i + 1..];
        assert 0 < i < |tags| ==> tags[..i] == [tags[0]] + tags[1..i];
        [tags[0]] + rest
  }

  /** Removing the tag just appended gives back the previous list. */
  lemma RemoveAddedTag(tags: seq<string>, tag: string)
    ensures DropIndex(tags + [tag], |tags|) == tags
  {
    assert (tags + [tag])[..|tags|] == tags;
  }

  // ---------------------------------------------------------------------------
  // Opening the form

  /** The reset form (lines 276-284): empty texts, the first column, priority
      Medium, no tags. */
  function BlankForm(columns: seq<Column>): (fd: PartialCard)
    ensures fd.title == Some("") && fd.description == Some("") && fd.assignee == Some("") && fd.dueDate == Some("")
    ensures fd.columnId == Some(if columns != [] then columns[0].id else "")
    ensures fd.priority == Some("Medium") && fd.tags == Some([])
    ensures fd.id.None? && fd.order.None?
  {
    PartialCard(None, Some(""), Some(""), Some(if columns != [] then columns[0].id else ""),
                None, Some(""), Some(""), Some("Medium"), Some([]))
  }

  /** The form filled from an existing card (lines 266-274). `isoDay` is the
      date part of `new Date(dueDate).toISOString()`, used only when the
      card has a due date. */
  function FilledForm(c: Card, isoDay: string): (fd: PartialCard)
    ensures fd.id == Some(c.id) && fd.title == Some(c.title) && fd.description == c.description
    ensures fd.columnId == Some(c.columnId) && fd.order == Some(c.order) && fd.assignee == c.assignee
    ensures fd.priority == if Truthy(c.priority) then c.priority else Some("Medium")
    ensures fd.tags == if c.tags.Some? then c.tags else Some([])
    ensures fd.dueDate == Some(if Truthy(c.dueDate) then isoDay else "")
  {
    AsPartial(c).(
      priority := Some(if Truthy(c.priority) then c.priority.value else "Medium"),
      tags := Some(c.tags.GetOr([])),
      dueDate := Some(if Truthy(c.dueDate) then isoDay else ""))
  }

  /** The fields `handleSubmit` requires, all non-empty (lines 323-330). */
  predicate Submittable(fd: PartialCard) {
    && Truthy(fd.title) && Truthy(fd.description) && Truthy(fd.assignee)
    && Truthy(fd.dueDate) && Truthy(fd.priority) && Truthy(fd.columnId)
  }

  /** A freshly reset form cannot be submitted: its title is empty. */
  lemma BlankFormNotSubmittable(columns: seq<Column>)
    ensures !Submittable(BlankForm(columns))
  {
  }

  /** Editing any input to an empty value makes the form unsubmittable;
      filling the last empty input of an otherwise complete form makes it
      submittable. */
  lemma SetFieldSubmittable(fd: PartialCard, f: Field, value: string)
    ensures value == "" ==> !Submittable(SetField(fd, f, value))
    ensures value != "" && (forall g :: g != f ==> Truthy(FieldValue(fd, g)))
      ==> Submittable(SetField(fd, f, value))
  {
    var r := SetField(fd, f, value);
    assert Submittable(r) <==> forall g :: Truthy(FieldValue(r, g)) by {
      assert FieldValue(r, Title) == r.title && FieldValue(r, Description) == r.description;
      assert FieldValue(r, ColumnField) == r.columnId && FieldValue(r, Priority) == r.priority;
      assert FieldValue(r, Assignee) == r.assignee && FieldValue(r, DueDate) == r.dueDate;
    }
  }

  class CardModal {
    var formData: PartialCard
    var newTag: string
    var effects: seq<Effect>

    /** The initial state (lines 251-261). */
    constructor (columns: seq<Column>)
      ensures formData == BlankForm(columns) && newTag == "" && effects == []
    {
      formData := BlankForm(columns);
      newTag := "";
      effects := [];
    }

    /** The open/reset effect: when the modal is open the form is filled
        from the card being edited, or reset; the tag input is left as is. */
    method Open(isOpen: bool, initialData: Option<Card>, columns: seq<Column>, isoDay: string)
      modifies this`formData
      ensures !isOpen ==> formData == old(formData)
      ensures isOpen && initialData.Some? ==> formData == FilledForm(initialData.value, isoDay)
      ensures isOpen && initialData.None? ==> formData == BlankForm(columns)
    {
      if isOpen {
        if initialData.Some? {
          formData := FilledForm(initialData.value, isoDay);
        } else {
          formData := BlankForm(columns);
        }
      }
    }

    /** `handleChange`: the named input takes the typed value. */
    method HandleChange(f: Field, value: string)
      modifies this`formData
      ensures formData == SetField(old(formData), f, value)
    {
      formData := SetField(formData, f, value);
    }

    /** The tag input's `onChange`. */
    method SetNewTag(value: string)
      modifies this`newTag
      ensures newTag == value
    {
      newTag := value;
    }

    /** `handleAddTag`: on Enter with a tag that is not blank, the trimmed tag
        is appended (to an empty list when there are no tags) and the input
        is cleared; any other key changes nothing. */
    method HandleAddTag(key: string)
      modifies this`formData, this`newTag
      ensures key == "Enter" && Trim(old(newTag)) != "" ==>
        && formData == old(formData).(tags := Some(old(formData).tags.GetOr([]) + [Trim(old(newTag))]))
        && newTag == ""
      ensures !(key == "Enter" && Trim(old(newTag)) != "") ==>
        formData == old(formData) && newTag == old(newTag)
    {
      var tag := Trim(newTag);
      if key == "Enter" && tag != "" {
        formData := formData.(tags := Some(formData.tags.GetOr([]) + [tag]));
        newTag := "";
      }
    }

    /** `removeTag`: the tag at `indexToRemove` goes, the others keep their
        order; a form without a tag list keeps none. */
    method RemoveTag(indexToRemove: int)
      modifies this`formData
      ensures old(formData).tags.None? ==> formData == old(formData)
      ensures old(formData).tags.Some? ==>
        formData == old(formData).(tags := Some(DropIndex(old(formData).tags.value, indexToRemove)))
    {
      if formData.tags.Some? {
        formData := formData.(tags := Some(DropIndex(formData.tags.value, indexToRemove)));
      }
    }

    /** `handleDelete`: asks for deletion only for a card with an id and
        when a delete callback was supplied. */
    method HandleDelete(initialData: Option<Card>, hasOnDelete: bool)
      modifies this`effects
      ensures initialData.Some? && initialData.value.id != "" && hasOnDelete ==>
        effects == old(effects) + [DeleteRequested(initialData.value.id)]
      ensures !(initialData.Some? && initialData.value.id != "" && hasOnDelete) ==>
        effects == old(effects)
    {
      if initialData.Some? && initialData.value.id != "" && hasOnDelete {
        effects := effects + [DeleteRequested(initialData.value.id)];
      }
    }

    /** `handleSubmit`: with every required input filled, save the form data
        and then close; otherwise only alert. */
    method HandleSubmit()
      modifies this`effects
      ensures Submittable(formData) ==> effects == old(effects) + [Saved(formData), Closed]
      ensures !Submittable(formData) ==> effects == old(effects) + [Alerted]
    {
      if !Truthy(formData.title) || !Truthy(formData.description) || !Truthy(formData.assignee)
         || !Truthy(formData.dueDate) || !Truthy(formData.priority) || !Truthy(formData.columnId) {
        effects := effects + [Alerted];
        return;
      }
      effects := effects + [Saved(formData), Closed];
    }
  }
}
