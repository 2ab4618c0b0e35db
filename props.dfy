// The portfolio records of src/types/props.ts. They carry no behaviour of
// their own; the editor and the two dialogs transform them.
module Props {

  /** An optional value: `undefined` in the source is `None`. */
  datatype Option<+T> = None | Some(value: T)

  datatype PersonalInfo = PersonalInfo(name: string, title: string, about: string)

  /** The keys of PersonalInfo, as `keyof PersonalInfo` names them. */
  datatype PersonalField = Name | Title | About

  datatype ExperienceItem = ExperienceItem(
    title: string,
    company: string,
    date: string,
    description: string,
    skills: seq<string>,
    readMoreUrl: Option<string>)

  datatype EducationItem = EducationItem(
    degree: string,
    institution: string,
    date: string,
    description: seq<string>)

  datatype PortfolioData = PortfolioData(
    personalInfo: PersonalInfo,
    experiences: seq<ExperienceItem>,
    education: seq<EducationItem>)
}
