// The editing state of src/components/EducationDialog.tsx: the education
// being edited (`tempItem`), its three text fields and its list of
// description lines. Each edit is one functional update of the item.
module EducationDialog {
  import opened Props
  import opened ListOps

  /** The single-line inputs of the dialog. */
  datatype EducationTextField = Degree | Institution | Date

  function TextFieldOf(item: EducationItem, field: EducationTextField): string
  {
    match field
    case Degree => item.degree
    case Institution => item.institution
    case Date => item.date
  }

  /** `{ ...prev, [field]: value }`: that input's field is set, everything else kept. */
  function WithTextField(item: EducationItem, field: EducationTextField, value: string): (r: EducationItem)
    ensures TextFieldOf(r, field) == value
    ensures forall f :: f != field ==> TextFieldOf(r, f) == TextFieldOf(item, f)
    ensures r.description == item.description
  {
    match field
    case Degree => item.(degree := value)
    case Institution => item.(institution := value)
    case Date => item.(date := value)
  }

  /** The item's three text fields agree. */
  predicate SameFields(a: EducationItem, b: EducationItem)
  {
    a.degree == b.degree && a.institution == b.institution && a.date == b.date
  }

  /** `addDescription`: one blank line after the existing ones. */
  function WithDescriptionAdded(item: EducationItem): (r: EducationItem)
    ensures SameFields(r, item)
    ensures |r.description| == |item.description| + 1
    ensures r.description[..|item.description|] == item.description
    ensures r.description[|item.description|] == ""
  {
    item.(description := item.description + [""])
  }

  /**
   * `updateDescription(index, value)`: the line at `index` becomes `value`,
   * the others and their number are kept; an index outside the list
   * changes nothing.
   */
  function WithDescriptionUpdated(item: EducationItem, index: int, value: string): (r: EducationItem)
    ensures SameFields(r, item)
    ensures |r.description| == |item.description|
    ensures 0 <= index < |item.description| ==> r.description == item.description[index := value]
    ensures !(0 <= index < |item.description|) ==> r == item
  {
    item.(description := MapReplace(item.description, index, value))
  }

  /**
   * `removeDescription(index)`: the line at `index` is gone and the others
   * keep their order; an index outside the list changes nothing.
   */
  function WithDescriptionRemoved(item: EducationItem, index: int): (r: EducationItem)
    ensures SameFields(r, item)
    ensures 0 <= index < |item.description| ==> r.description == RemoveAt(item.description, index)
    ensures !(0 <= index < |item.description|) ==> r == item
  {
    item.(description := FilterOut(item.description, index))
  }

  /** Removing the line that was just added gives back the item. */
  lemma RemoveUndoesAdd(item: EducationItem)
    ensures WithDescriptionRemoved(WithDescriptionAdded(item), |item.description|) == item
  {
  }

  /** Of two updates of the same line, the later one wins. */
  lemma UpdateLastWins(item: EducationItem, index: int, v: string, w: string)
    ensures WithDescriptionUpdated(WithDescriptionUpdated(item, index, v), index, w)
         == WithDescriptionUpdated(item, index, w)
  {
  }

  /** The dialog's own state. */
  class EducationDialog {
    var tempItem: EducationItem

    /** `useState(education)`. */
    constructor (education: EducationItem)
      ensures tempItem == education
    {
      tempItem := education;
    }

    /** The effect on a new `education` prop: the edited item starts over from it. */
    method SyncFromProp(education: EducationItem)
      modifies this
      ensures tempItem == education
    {
      tempItem := education;
    }

    method AddDescription()
      modifies this
      ensures tempItem == WithDescriptionAdded(old(tempItem))
    {
      tempItem := tempItem.(description := tempItem.description + [""]);
    }

    method UpdateDescription(index: int, value: string)
      modifies this
      ensures tempItem == WithDescriptionUpdated(old(tempItem), index, value)
    {
      tempItem := tempItem.(description := MapReplace(tempItem.description, index, value));
    }

    method RemoveDescription(index: int)
      modifies this
      ensures tempItem == WithDescriptionRemoved(old(tempItem), index)
    {
      tempItem := tempItem.(description := FilterOut(tempItem.description, index));
    }

    /** The degree, institution and date inputs' change handlers. */
    method EditText(field: EducationTextField, value: string)
      modifies this
      ensures tempItem == WithTextField(old(tempItem), field, value)
    {
      tempItem := WithTextField(tempItem, field, value);
    }

    /** The save button: `onSave` gets the edited item as it stands; closing is the caller's. */
    method Save() returns (saved: EducationItem)
      ensures saved == tempItem
    {
      saved := tempItem;
    }
  }
}
