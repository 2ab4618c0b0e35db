// The editing state of src/pages/PortfolioEditor.tsx: the portfolio being
// edited, the two dialog states, and the handlers that replace, append,
// delete and reorder entries. Loading and saving over the network are not
// part of this model.
module PortfolioEditor {
  import opened Props
  import opened ListOps

  /** The portfolio the page starts with, before any data is loaded. */
  function InitialPortfolio(): (p: PortfolioData)
    ensures p.personalInfo.name == "" && p.personalInfo.title == "" && p.personalInfo.about == ""
    ensures p.experiences == [] && p.education == []
  {
    PortfolioData(PersonalInfo("", "", ""), [], [])
  }

  /** The blank experience the dialog opens with when adding: no skills, no link. */
  function DefaultExperience(): (e: ExperienceItem)
    ensures e.title == "" && e.company == "" && e.date == "" && e.description == ""
    ensures e.skills == [] && e.readMoreUrl.None?
  {
    ExperienceItem("", "", "", "", [], None)
  }

  /** The blank education the dialog opens with when adding: one empty description line. */
  function DefaultEducation(): (e: EducationItem)
    ensures e.degree == "" && e.institution == "" && e.date == ""
    ensures |e.description| == 1 && e.description[0] == ""
  {
    EducationItem("", "", "", [""])
  }

  /** `personalInfo[field]`. */
  function PersonalFieldOf(info: PersonalInfo, field: PersonalField): string
  {
    match field
    case Name => info.name
    case Title => info.title
    case About => info.about
  }

  /** `{ ...info, [field]: value }`: that field is set and the others are kept. */
  function WithPersonalField(info: PersonalInfo, field: PersonalField, value: string): (r: PersonalInfo)
    ensures PersonalFieldOf(r, field) == value
    ensures forall f :: f != field ==> PersonalFieldOf(r, f) == PersonalFieldOf(info, f)
  {
    match field
    case Name => info.(name := value)
    case Title => info.(title := value)
    case About => info.(about := value)
  }

  /**
   * What the save handlers make of a list: with an edit index, the entry at
   * that index is replaced (the length and every other entry are kept, and
   * an index outside the list changes nothing); without one, the item is
   * appended after all existing entries.
   */
  function SaveAt<T>(s: seq<T>, editIndex: Option<int>, item: T): (r: seq<T>)
    ensures editIndex.None? ==> |r| == |s| + 1 && r[|s|] == item && r[..|s|] == s
    ensures editIndex.Some? ==> |r| == |s|
    ensures editIndex.Some? ==> forall k :: 0 <= k < |s| && k != editIndex.value ==> r[k] == s[k]
    ensures editIndex.Some? && 0 <= editIndex.value < |s| ==> r[editIndex.value] == item
  {
    if editIndex.Some? then MapReplace(s, editIndex.value, item) else s + [item]
  }

  /** Saving an entry that was opened for editing and left as it was changes nothing. */
  lemma SaveUnchangedIsNoOp<T>(s: seq<T>, i: nat)
    requires i < |s|
    ensures SaveAt(s, Some(i), s[i]) == s
  {
  }

  /** Deleting the entry that was just added gives back the list before the add. */
  lemma DeleteUndoesAdd<T>(s: seq<T>, item: T)
    ensures FilterOut(SaveAt(s, None, item), |s|) == s
  {
  }

  /** Whether a dialog is shown, and which entry it edits (none when adding). */
  datatype DialogState = DialogState(isOpen: bool, editIndex: Option<nat>)

  /** `{ isOpen: false }`. */
  function Closed(): DialogState
  {
    DialogState(false, None)
  }

  /**
   * The item a dialog is given: the entry being edited, or the blank item
   * when adding. An edit index past the end reads `undefined`, here None.
   */
  function DialogItem<T>(s: seq<T>, dialog: DialogState, blank: T): (r: Option<T>)
    ensures dialog.editIndex.None? ==> r == Some(blank)
    ensures dialog.editIndex.Some? && dialog.editIndex.value < |s| ==> r == Some(s[dialog.editIndex.value])
    ensures dialog.editIndex.Some? && dialog.editIndex.value >= |s| ==> r.None?
  {
    match dialog.editIndex
    case None => Some(blank)
    case Some(i) => if i < |s| then Some(s[i]) else None
  }

  /**
   * The page's editing state. Every handler builds the new portfolio from
   * the old one by spreading it, so it changes one section and leaves the
   * other two as they were.
   */
  class PortfolioEditor {
    var portfolio: PortfolioData
    var experienceDialog: DialogState
    var educationDialog: DialogState

    constructor ()
      ensures portfolio == InitialPortfolio()
      ensures experienceDialog == Closed() && educationDialog == Closed()
    {
      portfolio := PortfolioData(PersonalInfo("", "", ""), [], []);
      experienceDialog := DialogState(false, None);
      educationDialog := DialogState(false, None);
    }

    /** The experience the experience dialog shows. */
    function ExperienceDialogItem(): Option<ExperienceItem>
      reads this
    {
      DialogItem(portfolio.experiences, experienceDialog, DefaultExperience())
    }

    /** The education the education dialog shows. */
    function EducationDialogItem(): Option<EducationItem>
      reads this
    {
      DialogItem(portfolio.education, educationDialog, DefaultEducation())
    }

    method HandlePersonalInfoChange(field: PersonalField, value: string)
      modifies this
      ensures portfolio.personalInfo == WithPersonalField(old(portfolio.personalInfo), field, value)
      ensures portfolio.experiences == old(portfolio.experiences)
      ensures portfolio.education == old(portfolio.education)
      ensures experienceDialog == old(experienceDialog) && educationDialog == old(educationDialog)
    {
      portfolio := portfolio.(personalInfo := WithPersonalField(portfolio.personalInfo, field, value));
    }

    method HandleSaveExperience(experience: ExperienceItem)
      modifies this
      ensures portfolio.experiences == SaveAt(old(portfolio.experiences), old(experienceDialog.editIndex), experience)
      ensures portfolio.personalInfo == old(portfolio.personalInfo)
      ensures portfolio.education == old(portfolio.education)
      ensures experienceDialog == old(experienceDialog) && educationDialog == old(educationDialog)
    {
      var editIndex := experienceDialog.editIndex;
      portfolio := portfolio.(experiences := SaveAt(portfolio.experiences, editIndex, experience));
    }

    method HandleDeleteExperience(index: int)
      modifies this
      ensures portfolio.experiences == FilterOut(old(portfolio.experiences), index)
      ensures portfolio.personalInfo == old(portfolio.personalInfo)
      ensures portfolio.education == old(portfolio.education)
      ensures experienceDialog == old(experienceDialog) && educationDialog == old(educationDialog)
    {
      portfolio := portfolio.(experiences := FilterOut(portfolio.experiences, index));
    }

    method HandleReorderExperiences(newExperiences: seq<ExperienceItem>)
      modifies this
      ensures portfolio.experiences == newExperiences
      ensures portfolio.personalInfo == old(portfolio.personalInfo)
      ensures portfolio.education == old(portfolio.education)
      ensures experienceDialog == old(experienceDialog) && educationDialog == old(educationDialog)
    {
      portfolio := portfolio.(experiences := newExperiences);
    }

    method HandleSaveEducation(education: EducationItem)
      modifies this
      ensures portfolio.education == SaveAt(old(portfolio.education), old(educationDialog.editIndex), education)
      ensures portfolio.personalInfo == old(portfolio.personalInfo)
      ensures portfolio.experiences == old(portfolio.experiences)
      ensures experienceDialog == old(experienceDialog) && educationDialog == old(educationDialog)
    {
      var editIndex := educationDialog.editIndex;
      portfolio := portfolio.(education := SaveAt(portfolio.education, editIndex, education));
    }

    method HandleDeleteEducation(index: int)
      modifies this
      ensures portfolio.education == FilterOut(old(portfolio.education), index)
      ensures portfolio.personalInfo == old(portfolio.personalInfo)
      ensures portfolio.experiences == old(portfolio.experiences)
      ensures experienceDialog == old(experienceDialog) && educationDialog == old(educationDialog)
    {
      portfolio := portfolio.(education := FilterOut(portfolio.education, index));
    }

    method HandleReorderEducation(newEducation: seq<EducationItem>)
      modifies this
      ensures portfolio.education == newEducation
      ensures portfolio.personalInfo == old(portfolio.personalInfo)
      ensures portfolio.experiences == old(portfolio.experiences)
      ensures experienceDialog == old(experienceDialog) && educationDialog == old(educationDialog)
    {
      portfolio := portfolio.(education := newEducation);
    }

    /** "Add Experience" opens the dialog with no edit index; a card's edit button with its own. */
    method OpenExperienceDialog(editIndex: Option<nat>)
      modifies this
      ensures experienceDialog == DialogState(true, editIndex)
      ensures portfolio == old(portfolio) && educationDialog == old(educationDialog)
    {
      experienceDialog := DialogState(true, editIndex);
    }

    method CloseExperienceDialog()
      modifies this
      ensures experienceDialog == Closed()
      ensures portfolio == old(portfolio) && educationDialog == old(educationDialog)
    {
      experienceDialog := DialogState(false, None);
    }

    /** "Add Education" opens the dialog with no edit index; a card's edit button with its own. */
    method OpenEducationDialog(editIndex: Option<nat>)
      modifies this
      ensures educationDialog == DialogState(true, editIndex)
      ensures portfolio == old(portfolio) && experienceDialog == old(experienceDialog)
    {
      educationDialog := DialogState(true, editIndex);
    }

    method CloseEducationDialog()
      modifies this
      ensures educationDialog == Closed()
      ensures portfolio == old(portfolio) && experienceDialog == old(experienceDialog)
    {
      educationDialog := DialogState(false, None);
    }
  }
}
