/**
  The résumé document (`CVData`) and its two entry kinds, with the typed
  field access the form uses to edit them.

  `profileImage` is optional in the type but every producer writes a string,
  with the empty string meaning "no image"; the model keeps it as a string.
  A skill level is a JavaScript number; the form only ever stores integers in
  it, so it is an `int` here.
 */
module Cv {

  datatype Option<T> = None | Some(value: T)

  datatype Education = Education(
    institution: string,
    degree: string,
    startDate: string,
    endDate: string,
    description: string)

  datatype Skill = Skill(name: string, level: int)

  datatype PersonalInfo = PersonalInfo(name: string, email: string, phone: string, location: string)

  datatype CVData = CVData(
    profileImage: string,
    title: string,
    summary: string,
    personalInfo: PersonalInfo,
    education: seq<Education>,
    skills: seq<Skill>)

  /** The keys of `Education`, i.e. `keyof Education`. */
  datatype EducationField = Institution | Degree | StartDate | EndDate | Description

  /** The six free-text inputs of a résumé: two top-level, four under `personalInfo`. */
  datatype TextField = Title | Summary | Name | Email | Phone | Location

  /** An update of one skill field, with the value typed by the field it targets. */
  datatype SkillEdit = SetName(name: string) | SetLevel(level: int)

  /** The entry appended by "Add Education": every field empty. */
  const BlankEducation: Education := Education("", "", "", "", "")

  /** The entry appended by "Add Skill": no name, level 50. */
  const DefaultSkill: Skill := Skill("", 50)

  /** The document the application starts with. */
  const EmptyCV: CVData := CVData("", "", "", PersonalInfo("", "", "", ""), [], [])

  function Field(e: Education, f: EducationField): string
  {
    match f
    case Institution => e.institution
    case Degree => e.degree
    case StartDate => e.startDate
    case EndDate => e.endDate
    case Description => e.description
  }

  /** `{ ...e, [f]: v }`: the entry with one field replaced. */
  function WithField(e: Education, f: EducationField, v: string): (r: Education)
    ensures Field(r, f) == v
    ensures forall g :: g != f ==> Field(r, g) == Field(e, g)
  {
    match f
    case Institution => e.(institution := v)
    case Degree => e.(degree := v)
    case StartDate => e.(startDate := v)
    case EndDate => e.(endDate := v)
    case Description => e.(description := v)
  }

  /** Two entries that agree on every field are the same entry. */
  lemma EducationExtensional(a: Education, b: Education)
    requires forall f :: Field(a, f) == Field(b, f)
    ensures a == b
  {
    assert Field(a, Institution) == Field(b, Institution);
    assert Field(a, Degree) == Field(b, Degree);
    assert Field(a, StartDate) == Field(b, StartDate);
    assert Field(a, EndDate) == Field(b, EndDate);
    assert Field(a, Description) == Field(b, Description);
  }

  /** `{ ...s, [field]: value }` for a skill. */
  function EditSkill(s: Skill, edit: SkillEdit): (r: Skill)
    ensures edit.SetName? ==> r.name == edit.name && r.level == s.level
    ensures edit.SetLevel? ==> r.level == edit.level && r.name == s.name
  {
    match edit
    case SetName(n) => s.(name := n)
    case SetLevel(l) => s.(level := l)
  }

  /** The value of one text field of a document, wherever it is nested. */
  function DocText(d: CVData, f: TextField): string
  {
    match f
    case Title => d.title
    case Summary => d.summary
    case Name => d.personalInfo.name
    case Email => d.personalInfo.email
    case Phone => d.personalInfo.phone
    case Location => d.personalInfo.location
  }

  /** A document with nothing filled in: no image, every text field empty, no entries. */
  predicate IsBlank(d: CVData)
  {
    && d.profileImage == ""
    && (forall f :: DocText(d, f) == "")
    && d.education == []
    && d.skills == []
  }

  lemma EmptyCVIsBlank()
    ensures IsBlank(EmptyCV)
  {
  }

  /** Only one document is blank, so `EmptyCV` is the blank document. */
  lemma BlankIsEmptyCV(d: CVData)
    requires IsBlank(d)
    ensures d == EmptyCV
  {
    assert DocText(d, Title) == "" && DocText(d, Summary) == "";
    assert DocText(d, Name) == "" && DocText(d, Email) == "";
    assert DocText(d, Phone) == "" && DocText(d, Location) == "";
  }
}
