# CV builder: document, form edits and page state

This project is a Dafny model of the state logic in a browser-based résumé builder. The model covers:

- the résumé document, `CVData`, and its two list sections: education entries and skills;
- the form component's edit handlers, which add, update and remove entries by copy-and-spread and `filter`, plus its submit handler;
- the page component's state machine: the held document, the active tab and the image-frame shape.

Every handler is modelled as a pure function from the old state to the new one. The lemmas state what each handler changes and what it leaves alone. They also cover:

- how later entries shift after a removal;
- the add-then-remove round trip;
- the skill-level range invariant;
- the page state after any sequence of events.

Modules, one per source concern:

- `Cv` (`cv.dfy`): the data types from `project/app/types/cv.ts`, the empty document and the blank or default entries. It also gives typed access to entry fields and to text fields.
- `Sections` (`sections.dfy`): append, replace-at and remove-at (by filter), written once for any entry type.
- `CvForm` (`form.dfy`): the form state, one function per handler, submit, and the form as an event-driven state machine.
- `Page` (`page.dfy`): the page state, its four transitions, and the page as an event-driven state machine.

Modelling decisions:

- `profileImage` is a plain string, with `""` meaning "no image". Both the form and the page initialise it that way.
- Skill levels are `int`, because the slider only produces integers.
- A field update is typed by its field. `SkillEdit` is either `SetName(string)` or `SetLevel(int)`.
- Entry updates require an index that names an entry. The form only issues updates from its rendered rows. In the event model, an update with any other index yields `None`.
- The outcome of the file read is a parameter: no file, a loaded data URL, or a failed read. The asynchronous read is treated as completing immediately.

Two facts about the code shape the model:

- `updateSkill` (cv-form.tsx:60-64) does not clamp. It stores the value it is given. Levels stay in 0..100 only because the slider (cv-form.tsx:248-252) cannot produce anything else. `CvForm.UpdateSkill` states the no-clamp behaviour, and `CvForm.RunKeepsLevelsInRange` proves the range invariant under the slider assumption.
- page.tsx:47-53 passes `data`, `onChange`, `isCircular` and `onImageShapeChange` to the form, but the form's props declare only `onSubmit` (cv-form.tsx:13-17). The form therefore never calls `onChange` or `onImageShapeChange`, and the preview ignores `isCircular` (cv-preview.tsx:10-14). Each file's transitions are modelled as written. `Page.HandleFormChange` and `Page.SetIsCircular` model the page's handlers, but nothing in the program invokes them. `Page.FrameStaysCircular` proves that `isCircular` therefore stays `true`.

## Model

| member | source | states |
|---|---|---|
| Cv.WithField | project/app/components/cv-form.tsx:48 | the spread update sets the chosen education field to the value and keeps the other four fields |
| Cv.EducationExtensional | project/app/types/cv.ts:1-7 | an education entry is exactly its five fields: entries that agree on all of them are equal |
| Cv.EditSkill | project/app/components/cv-form.tsx:60-64 | a skill update sets the targeted field (name or level) and keeps the other |
| Cv.EmptyCVIsBlank | project/app/page.tsx:9-21 | the empty document has no image, every text field empty, and no education or skills |
| Cv.BlankIsEmptyCV | project/app/page.tsx:9-21 | the empty document is the only document with nothing filled in |
| Sections.Append | project/app/components/cv-form.tsx:40-43 | spreading then appending grows the list by one, puts the new entry last and keeps every earlier entry |
| Sections.ReplaceAt | project/app/components/cv-form.tsx:47-48 | copying and then writing position i keeps the length, places the value at i and keeps every other position |
| Sections.RemoveAt | project/app/components/cv-form.tsx:53 | filtering out position i: for an existing position the length drops by one, earlier entries stay and later ones move down one place; any other index leaves the list unchanged |
| Sections.Filter | project/app/components/cv-form.tsx:53 | the element-by-element filter loop yields the same list as the removal definition |
| Sections.RemoveAtIsSplice | project/app/components/cv-form.tsx:52-54 | removing an existing position is the splice of the list around it |
| Sections.RemoveAppended | project/app/components/cv-form.tsx:39-54 | appending and then removing the appended position gives back the original list |
| CvForm.SetText | project/app/components/cv-form.tsx:108-161 | each text input's change sets only its own field; the image and both sections stay |
| CvForm.UploadImage | project/app/components/cv-form.tsx:28-37 | with no file chosen nothing changes; a completed read sets the profile image to the data URL; a failed or aborted read still runs the `loadend` handler and clears the image; nothing else changes |
| CvForm.AddEducation | project/app/components/cv-form.tsx:39-44 | one more education entry, all five fields empty, placed last; earlier entries and the rest of the form stay |
| CvForm.UpdateEducation | project/app/components/cv-form.tsx:46-50 | at an existing index: same length, the chosen field of entry i takes the value, its other fields and every other entry stay, and nothing outside education changes |
| CvForm.UpdateEducationDetermined | project/app/components/cv-form.tsx:46-50 | any state that changes only the chosen field of entry i is exactly the update handler's result |
| CvForm.RemoveEducation | project/app/components/cv-form.tsx:52-54 | removing one education entry: length minus one, earlier entries stay, later ones shift down; an index that names no entry leaves the form unchanged |
| CvForm.AddSkill | project/app/components/cv-form.tsx:56-58 | appends exactly the skill named "" at level 50; earlier skills and the rest of the form stay |
| CvForm.UpdateSkill | project/app/components/cv-form.tsx:60-64 | at an existing index: entry i gets the new name or level as given, with no clamping; every other skill and the rest of the form stay |
| CvForm.RemoveSkill | project/app/components/cv-form.tsx:66-68 | removing one skill: length minus one, earlier skills stay, later ones shift down; an index that names no skill leaves the form unchanged |
| CvForm.Submit | project/app/components/cv-form.tsx:70-80 | the submitted document carries every text field, the image and both sections exactly as in the form state, with name, email, phone and location grouped under personalInfo |
| CvForm.SubmitInjective | project/app/components/cv-form.tsx:70-80 | submit loses no information: distinct form states submit distinct documents |
| CvForm.SubmitSurjective | project/app/components/cv-form.tsx:70-80 | every document is the handler's payload for some form state |
| CvForm.SubmitInitialIsEmptyCV | project/app/components/cv-form.tsx:18-26 | the form's initial state submits exactly the page's empty document |
| CvForm.AddThenRemoveEducation | project/app/components/cv-form.tsx:39-54 | adding an education entry and removing it at the old length restores the whole form state |
| CvForm.AddThenRemoveSkill | project/app/components/cv-form.tsx:56-68 | adding a skill and removing it at the old length restores the whole form state |
| CvForm.Step | project/app/components/cv-form.tsx:169-250 | an event is refused exactly when it is an entry update whose index names no entry |
| CvForm.StepKeepsLevelsInRange | project/app/components/cv-form.tsx:248-252 | a single event whose level, if any, comes from the 0..100 slider keeps all levels within 0..100 |
| CvForm.RunKeepsLevelsInRange | project/app/components/cv-form.tsx:56-64 | levels are written only as 50 or as slider values, so every run of such events keeps all levels within 0..100 |
| CvForm.SessionLevelsInRange | project/app/components/cv-form.tsx:26 | starting from the empty skill list, every reachable form submits levels within 0..100 |
| Page.HandleSubmit | project/app/page.tsx:28-31 | holds the submitted document and shows the preview tab; the frame shape stays |
| Page.HandleFormChange | project/app/page.tsx:33-35 | holds the new document; tab and frame shape stay |
| Page.SetActiveTab | project/app/page.tsx:41 | a tab click changes only the tab |
| Page.SetIsCircular | project/app/page.tsx:52 | the shape setter passed to the form changes only the frame shape |
| Page.InitialShellIsBlank | project/app/page.tsx:24-26 | the page starts with the blank document, on the form tab, with a circular frame |
| Page.HandleSubmitIdempotent | project/app/page.tsx:28-31 | submitting the same document twice gives the same state as submitting it once |
| Page.SubmitAbsorbsFormChange | project/app/page.tsx:28-35 | a submit overrides an earlier live change completely |
| Page.RunShellSnoc | project/app/page.tsx:24-35 | handling one more event after a run is the run extended by that event |
| Page.RunShellIsLatestWrite | project/app/page.tsx:24-52 | after any event sequence: the document is the one from the last submit or change, the tab is the one set by the last submit or tab click, and the shape is the one from the last shape-setter call; each defaults to its initial value |
| Page.DocumentOnlyFromForm | project/app/page.tsx:41-52 | tab clicks and shape-setter calls never alter the held document |
| Page.FrameStaysCircular | project/app/page.tsx:26-53 | when only submits and tab clicks occur, as in the program where the form never calls the shape setter, the frame stays circular from the initial page |
| Page.LatestNoneWritten | project/app/page.tsx:24-26 | when no event writes a slot, the slot keeps its initial value |

## Left out

- Image reading: the asynchronous `FileReader` read is replaced by its outcome. The model does not cover the race between that read and later edits.
- `CvForm.UploadImage`: a failed read stores the reader's null result in the code. The model stores `""` instead, because null and `""` both render as no image (cv-form.tsx:87, cv-preview.tsx:55).
- `CvForm.Submit`: the browser lets the submit through only when the email is empty or a well-formed address (`type="email"` inside a form without `noValidate`, cv-form.tsx:83 and 140-145). That HTML constraint validation is not modelled, so the model treats every form state as submittable.
- `CvForm.UpdateEducation`: does not model an index past the end. In JavaScript that write creates a sparse array. The rendered rows never issue such an index, so the model requires an existing index.
- `CvForm.UpdateSkill`: does not model an index past the end, for the same reason. It also does not model writing a number into `name` or a string into `level`, which the untyped `[field]: value` would allow. Both are typed here.
- The preview component (`cv-preview.tsx`) is not part of this model. It renders markup, rasterises it with a third-party library, computes the page height in floating point (`height * 210 / width`), and saves a PDF. All of that is library calls, floating point or I/O.
- JSX markup and the wiring of UI components (inputs, slider, tabs, cards) are not modelled, apart from the value ranges the slider produces.
- Tab content mounting: whether the form keeps its state while the preview tab is shown depends on the tabs library. This model keeps the form state and the page state separate.
- The extra props passed from the page to the form (`data`, `onChange`, `isCircular`, `onImageShapeChange`) are not modelled as a sync channel, because the form does not declare or use them.
