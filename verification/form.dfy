/**
  The résumé form (`CVForm`): nine pieces of local state edited one event at
  a time, and a submit that hands them to the page as one `CVData`.

  Every edit handler is a pure function from the old state to the new one.
  The handlers that take an index are only ever invoked by the rendered rows
  of a section, so the index of an entry update always names an entry;
  removal goes through a filter and accepts any index.
 */
module CvForm {
  import opened Cv
  import Sections

  datatype FormState = FormState(
    profileImage: string,
    title: string,
    summary: string,
    name: string,
    email: string,
    phone: string,
    location: string,
    education: seq<Education>,
    skills: seq<Skill>)

  /** The state on mount: every string empty and both sections empty. */
  const InitialForm: FormState := FormState("", "", "", "", "", "", "", [], [])

  function Text(st: FormState, f: TextField): string
  {
    match f
    case Title => st.title
    case Summary => st.summary
    case Name => st.name
    case Email => st.email
    case Phone => st.phone
    case Location => st.location
  }

  /** The `onChange` of one text input: `setTitle(e.target.value)` and its five siblings. */
  function SetText(st: FormState, f: TextField, v: string): (r: FormState)
    ensures Text(r, f) == v
    ensures forall g :: g != f ==> Text(r, g) == Text(st, g)
    ensures r.profileImage == st.profileImage
    ensures r.education == st.education && r.skills == st.skills
  {
    match f
    case Title => st.(title := v)
    case Summary => st.(summary := v)
    case Name => st.(name := v)
    case Email => st.(email := v)
    case Phone => st.(phone := v)
    case Location => st.(location := v)
  }

  /**
    How the file input's change ends. `NoFile`: no file was chosen, so no
    read starts. `Loaded(url)`: the reader finished with the data URL.
    `ReadFailed`: the read errored or was aborted; the `loadend` handler
    still runs and stores the reader's null result.
   */
  datatype ImageRead = NoFile | Loaded(url: string) | ReadFailed

  /**
    The file input's change handler together with its `loadend` callback.
    A null image and the empty string both mean "no image" wherever the
    image is used, so a failed read stores `""`.
   */
  function UploadImage(st: FormState, read: ImageRead): (r: FormState)
    ensures read.NoFile? ==> r == st
    ensures read.Loaded? ==> r.profileImage == read.url
    ensures read.ReadFailed? ==> r.profileImage == ""
    ensures r.(profileImage := st.profileImage) == st
  {
    match read
    case NoFile => st
    case Loaded(url) => st.(profileImage := url)
    case ReadFailed => st.(profileImage := "")
  }

  function AddEducation(st: FormState): (r: FormState)
    ensures |r.education| == |st.education| + 1
    ensures r.education[|st.education|] == BlankEducation
    ensures forall j :: 0 <= j < |st.education| ==> r.education[j] == st.education[j]
    ensures r.(education := st.education) == st
  {
    st.(education := Sections.Append(st.education, BlankEducation))
  }

  function UpdateEducation(st: FormState, index: nat, f: EducationField, v: string): (r: FormState)
    requires index < |st.education|
    ensures |r.education| == |st.education|
    ensures Field(r.education[index], f) == v
    ensures forall g :: g != f ==> Field(r.education[index], g) == Field(st.education[index], g)
    ensures forall j :: 0 <= j < |st.education| && j != index ==> r.education[j] == st.education[j]
    ensures r.(education := st.education) == st
  {
    st.(education := Sections.ReplaceAt(st.education, index, WithField(st.education[index], f, v)))
  }

  function RemoveEducation(st: FormState, index: int): (r: FormState)
    ensures 0 <= index < |st.education| ==> |r.education| == |st.education| - 1
    ensures !(0 <= index < |st.education|) ==> r == st
    ensures forall j :: 0 <= j < |r.education| && j < index ==> r.education[j] == st.education[j]
    ensures forall j :: 0 <= index <= j < |r.education| ==> r.education[j] == st.education[j + 1]
    ensures r.(education := st.education) == st
  {
    st.(education := Sections.RemoveAt(st.education, index))
  }

  function AddSkill(st: FormState): (r: FormState)
    ensures |r.skills| == |st.skills| + 1
    ensures r.skills[|st.skills|] == Skill("", 50)
    ensures forall j :: 0 <= j < |st.skills| ==> r.skills[j] == st.skills[j]
    ensures r.(skills := st.skills) == st
  {
    st.(skills := Sections.Append(st.skills, DefaultSkill))
  }

  /** Stores the new value as given; in particular a level is not clamped. */
  function UpdateSkill(st: FormState, index: nat, edit: SkillEdit): (r: FormState)
    requires index < |st.skills|
    ensures |r.skills| == |st.skills|
    ensures edit.SetName? ==> r.skills[index] == Skill(edit.name, st.skills[index].level)
    ensures edit.SetLevel? ==> r.skills[index] == Skill(st.skills[index].name, edit.level)
    ensures forall j :: 0 <= j < |st.skills| && j != index ==> r.skills[j] == st.skills[j]
    ensures r.(skills := st.skills) == st
  {
    st.(skills := Sections.ReplaceAt(st.skills, index, EditSkill(st.skills[index], edit)))
  }

  function RemoveSkill(st: FormState, index: int): (r: FormState)
    ensures 0 <= index < |st.skills| ==> |r.skills| == |st.skills| - 1
    ensures !(0 <= index < |st.skills|) ==> r == st
    ensures forall j :: 0 <= j < |r.skills| && j < index ==> r.skills[j] == st.skills[j]
    ensures forall j :: 0 <= index <= j < |r.skills| ==> r.skills[j] == st.skills[j + 1]
    ensures r.(skills := st.skills) == st
  {
    st.(skills := Sections.RemoveAt(st.skills, index))
  }

  /**
    The submit handler's payload: the state regrouped as a document. The
    handler itself checks nothing and changes no value; whether the browser
    lets the submit event through at all is decided before it runs.
   */
  function Submit(st: FormState): (d: CVData)
    ensures forall f :: DocText(d, f) == Text(st, f)
    ensures d.profileImage == st.profileImage
    ensures d.education == st.education && d.skills == st.skills
  {
    CVData(
      st.profileImage,
      st.title,
      st.summary,
      PersonalInfo(st.name, st.email, st.phone, st.location),
      st.education,
      st.skills)
  }

  /** Submitting the untouched form yields exactly the page's empty document. */
  lemma SubmitInitialIsEmptyCV()
    ensures Submit(InitialForm) == EmptyCV
  {
  }

  /** Submit loses nothing: two states that submit the same document are the same state. */
  lemma SubmitInjective(a: FormState, b: FormState)
    requires Submit(a) == Submit(b)
    ensures a == b
  {
  }

  /** Submit reaches every document: any `CVData` is the payload of some form state. */
  lemma SubmitSurjective(d: CVData)
    ensures exists st :: Submit(st) == d
  {
    var p := d.personalInfo;
    var st := FormState(d.profileImage, d.title, d.summary, p.name, p.email, p.phone, p.location, d.education, d.skills);
    assert Submit(st) == d;
  }

  /**
    The update handler's contract pins its result down: any state that
    changes only the chosen field of entry `index` is the handler's result.
   */
  lemma UpdateEducationDetermined(st: FormState, index: nat, f: EducationField, v: string, r: FormState)
    requires index < |st.education|
    requires |r.education| == |st.education|
    requires Field(r.education[index], f) == v
    requires forall g :: g != f ==> Field(r.education[index], g) == Field(st.education[index], g)
    requires forall j :: 0 <= j < |st.education| && j != index ==> r.education[j] == st.education[j]
    requires r.(education := st.education) == st
    ensures r == UpdateEducation(st, index, f, v)
  {
    var u := UpdateEducation(st, index, f, v);
    EducationExtensional(r.education[index], u.education[index]);
    assert r.education == u.education;
  }

  /** Adding an education entry and then deleting the last row restores the form. */
  lemma AddThenRemoveEducation(st: FormState)
    ensures RemoveEducation(AddEducation(st), |st.education|) == st
  {
  }

  /** Adding a skill and then deleting the last row restores the form. */
  lemma AddThenRemoveSkill(st: FormState)
    ensures RemoveSkill(AddSkill(st), |st.skills|) == st
  {
  }

  // ---------------------------------------------------------------------
  // The form as an event-driven state machine.

  /** One user interaction with the form. */
  datatype FormEvent =
    | TextEdited(field: TextField, value: string)
    | ImageChosen(read: ImageRead)
    | EducationAdded
    | EducationEdited(index: int, efield: EducationField, evalue: string)
    | EducationRemoved(index: int)
    | SkillAdded
    | SkillEdited(index: int, edit: SkillEdit)
    | SkillRemoved(index: int)

  /** An entry update whose index names no entry; the rendered rows never issue one. */
  predicate Stale(st: FormState, e: FormEvent)
  {
    || (e.EducationEdited? && !(0 <= e.index < |st.education|))
    || (e.SkillEdited? && !(0 <= e.index < |st.skills|))
  }

  /** Dispatch of one event to its handler; `None` for an update the interface cannot issue. */
  function Step(st: FormState, e: FormEvent): (r: Option<FormState>)
    ensures r.None? <==> Stale(st, e)
  {
    match e
    case TextEdited(f, v) => Some(SetText(st, f, v))
    case ImageChosen(read) => Some(UploadImage(st, read))
    case EducationAdded => Some(AddEducation(st))
    case EducationEdited(i, f, v) =>
      if 0 <= i < |st.education| then Some(UpdateEducation(st, i, f, v)) else None
    case EducationRemoved(i) => Some(RemoveEducation(st, i))
    case SkillAdded => Some(AddSkill(st))
    case SkillEdited(i, edit) =>
      if 0 <= i < |st.skills| then Some(UpdateSkill(st, i, edit)) else None
    case SkillRemoved(i) => Some(RemoveSkill(st, i))
  }

  function Run(st: FormState, evs: seq<FormEvent>): Option<FormState>
    decreases |evs|
  {
    if |evs| == 0 then Some(st)
    else
      match Step(st, evs[0])
      case None => None
      case Some(next) => Run(next, evs[1..])
  }

  /** Every skill level lies on the slider's scale, 0 to 100. */
  predicate LevelsInRange(skills: seq<Skill>)
  {
    forall k :: 0 <= k < |skills| ==> 0 <= skills[k].level <= 100
  }

  /**
    A level update carries a value the slider can produce: it has the
    default minimum 0, `max={100}` and `step={1}`.
   */
  predicate FromSlider(e: FormEvent)
  {
    e.SkillEdited? && e.edit.SetLevel? ==> 0 <= e.edit.level <= 100
  }

  /** One slider-produced event keeps every level in range. */
  lemma StepKeepsLevelsInRange(st: FormState, e: FormEvent)
    requires LevelsInRange(st.skills)
    requires FromSlider(e)
    ensures Step(st, e).Some? ==> LevelsInRange(Step(st, e).value.skills)
  {
  }

  /**
    Levels are written only as 50 on add and as slider values on update, so
    from a state whose levels are in range they stay in range. The update
    handler itself does not enforce this.
   */
  lemma {:induction false} RunKeepsLevelsInRange(st: FormState, evs: seq<FormEvent>)
    requires LevelsInRange(st.skills)
    requires forall k :: 0 <= k < |evs| ==> FromSlider(evs[k])
    ensures Run(st, evs).Some? ==> LevelsInRange(Run(st, evs).value.skills)
    decreases |evs|
  {
    if |evs| > 0 {
      assert FromSlider(evs[0]);
      StepKeepsLevelsInRange(st, evs[0]);
      match Step(st, evs[0])
      case None =>
      case Some(next) =>
        assert forall k :: 0 <= k < |evs[1..]| ==> FromSlider(evs[1..][k]) by {
          forall k | 0 <= k < |evs[1..]|
            ensures FromSlider(evs[1..][k])
          {
            assert evs[1..][k] == evs[k + 1];
          }
        }
        RunKeepsLevelsInRange(next, evs[1..]);
    }
  }

  /** Every reachable form state of a session has its levels in range. */
  lemma SessionLevelsInRange(evs: seq<FormEvent>)
    requires forall k :: 0 <= k < |evs| ==> FromSlider(evs[k])
    ensures Run(InitialForm, evs).Some? ==> LevelsInRange(Submit(Run(InitialForm, evs).value).skills)
  {
    RunKeepsLevelsInRange(InitialForm, evs);
  }
}
