// The editing state of src/components/ExperienceDialog.tsx: the experience
// being edited (`tempItem`) and the pending skill text (`newSkill`), with
// the skill list kept free of duplicates.
module ExperienceDialog {
  import opened Props
  import opened ListOps

  /** The free-text inputs of the dialog. */
  datatype ExperienceTextField = JobTitle | Company | Date | Description

  function TextFieldOf(item: ExperienceItem, field: ExperienceTextField): string
  {
    match field
    case JobTitle => item.title
    case Company => item.company
    case Date => item.date
    case Description => item.description
  }

  /** `{ ...prev, [field]: value }`: that input's field is set, everything else kept. */
  function WithTextField(item: ExperienceItem, field: ExperienceTextField, value: string): (r: ExperienceItem)
    ensures TextFieldOf(r, field) == value
    ensures forall f :: f != field ==> TextFieldOf(r, f) == TextFieldOf(item, f)
    ensures r.skills == item.skills && r.readMoreUrl == item.readMoreUrl
  {
    match field
    case JobTitle => item.(title := value)
    case Company => item.(company := value)
    case Date => item.(date := value)
    case Description => item.(description := value)
  }

  /** `e.target.value || undefined`: an empty input stores no link. */
  function UrlFromInput(value: string): (r: Option<string>)
    ensures r.None? <==> value == ""
    ensures r.Some? ==> r.value == value
  {
    if value == "" then None else Some(value)
  }

  /** `tempItem.readMoreUrl || ''`: what the link input shows. */
  function UrlInputValue(url: Option<string>): (r: string)
    ensures url.None? ==> r == ""
    ensures url.Some? ==> r == url.value
  {
    match url
    case None => ""
    case Some(u) => u
  }

  /** The input shows back exactly what was typed into it. */
  lemma UrlInputRoundTrip(value: string)
    ensures UrlInputValue(UrlFromInput(value)) == value
  {
  }

  /** Storing what the input shows keeps every link the dialog itself can store. */
  lemma UrlStoreRoundTrip(url: Option<string>)
    requires url != Some("")
    ensures UrlFromInput(UrlInputValue(url)) == url
  {
  }

  /** The guard of `addSkill`: the pending skill is non-empty and not yet listed. */
  predicate CanAddSkill(skills: seq<string>, newSkill: string)
  {
    newSkill != "" && newSkill !in skills
  }

  /** An edit of the skill list: the add button, or a skill's remove button. */
  datatype SkillEdit = Add(skill: string) | Remove(index: int)

  /**
   * The skill list after one edit: an add appends the skill when the guard
   * lets it and changes nothing otherwise; a remove filters out its
   * position. Neither ever introduces a duplicate.
   */
  function ApplySkillEdit(skills: seq<string>, e: SkillEdit): (r: seq<string>)
    ensures e.Add? ==> r == if CanAddSkill(skills, e.skill) then skills + [e.skill] else skills
    ensures e.Remove? ==> r == FilterOut(skills, e.index)
    ensures NoDuplicates(skills) ==> NoDuplicates(r)
  {
    match e
    case Add(skill) =>
      if CanAddSkill(skills, skill) then
        assert forall k :: 0 <= k < |skills| ==> (skills + [skill])[k] == skills[k];
        skills + [skill]
      else
        skills
    case Remove(i) =>
      if 0 <= i < |skills| && NoDuplicates(skills) then
        RemoveAtKeepsNoDuplicates(skills, i);
        FilterOut(skills, i)
      else
        FilterOut(skills, i)
  }

  /** The skill list after a series of edits, in order. */
  function ApplySkillEdits(skills: seq<string>, es: seq<SkillEdit>): seq<string>
    decreases |es|
  {
    if es == [] then skills else ApplySkillEdits(ApplySkillEdit(skills, es[0]), es[1..])
  }

  /** Starting from a duplicate-free list, no series of adds and removes creates a duplicate. */
  lemma {:induction false} SkillEditsKeepNoDuplicates(skills: seq<string>, es: seq<SkillEdit>)
    requires NoDuplicates(skills)
    ensures NoDuplicates(ApplySkillEdits(skills, es))
    decreases |es|
  {
    if es != [] {
      SkillEditsKeepNoDuplicates(ApplySkillEdit(skills, es[0]), es[1..]);
    }
  }

  /** The dialog's own state. */
  class ExperienceDialog {
    var tempItem: ExperienceItem
    var newSkill: string

    /** `useState(experience)` and `useState('')`. */
    constructor (experience: ExperienceItem)
      ensures tempItem == experience && newSkill == ""
    {
      tempItem := experience;
      newSkill := "";
    }

    /** The effect on a new `experience` prop: the edited item starts over from it. */
    method SyncFromProp(experience: ExperienceItem)
      modifies this
      ensures tempItem == experience && newSkill == old(newSkill)
    {
      tempItem := experience;
    }

    /** The skill input's change handler. */
    method EditNewSkill(value: string)
      modifies this
      ensures newSkill == value && tempItem == old(tempItem)
    {
      newSkill := value;
    }

    /**
     * Appends the pending skill and clears the input, exactly when the
     * skill is non-empty and not yet listed; otherwise changes nothing.
     */
    method AddSkill()
      modifies this
      ensures tempItem.skills == ApplySkillEdit(old(tempItem.skills), Add(old(newSkill)))
      ensures CanAddSkill(old(tempItem.skills), old(newSkill)) ==>
                tempItem == old(tempItem).(skills := old(tempItem.skills) + [old(newSkill)]) && newSkill == ""
      ensures !CanAddSkill(old(tempItem.skills), old(newSkill)) ==>
                tempItem == old(tempItem) && newSkill == old(newSkill)
      ensures NoDuplicates(old(tempItem.skills)) ==> NoDuplicates(tempItem.skills)
    {
      if newSkill != "" && newSkill !in tempItem.skills {
        tempItem := tempItem.(skills := tempItem.skills + [newSkill]);
        newSkill := "";
      }
    }

    /** Drops the skill at `index`; an index outside the list changes nothing. */
    method RemoveSkill(index: int)
      modifies this
      ensures tempItem == old(tempItem).(skills := ApplySkillEdit(old(tempItem.skills), Remove(index)))
      ensures newSkill == old(newSkill)
      ensures NoDuplicates(old(tempItem.skills)) ==> NoDuplicates(tempItem.skills)
    {
      tempItem := tempItem.(skills := FilterOut(tempItem.skills, index));
    }

    /** The title, company, date and description inputs' change handlers. */
    method EditText(field: ExperienceTextField, value: string)
      modifies this
      ensures tempItem == WithTextField(old(tempItem), field, value) && newSkill == old(newSkill)
    {
      tempItem := WithTextField(tempItem, field, value);
    }

    /** The link input's change handler. */
    method EditReadMoreUrl(value: string)
      modifies this
      ensures tempItem == old(tempItem).(readMoreUrl := UrlFromInput(value)) && newSkill == old(newSkill)
      ensures UrlInputValue(tempItem.readMoreUrl) == value
    {
      tempItem := tempItem.(readMoreUrl := if value == "" then None else Some(value));
    }

    /** The save button: `onSave` gets the edited item as it stands; closing is the caller's. */
    method Save() returns (saved: ExperienceItem)
      ensures saved == tempItem
    {
      saved := tempItem;
    }
  }
}
