/**
 The profile editor of src/ChatBar/ChatBar.jsx: a draft copy of the profile
 and a picture preview are edited in a dialog and committed together on
 Save. The student-id input is disabled, so only name, status and picture
 can be changed through the dialog.
 */
module ProfileEditor {
  import opened Wrappers
  import opened Profile

  datatype Editor = Editor(profile: Profile, draft: Profile, preview: Option<string>, open: bool)

  const Initial: Editor := Editor(Default, Default, Default.pic, false)

  /** `openModal`: the draft becomes a copy of the profile and the preview its picture. */
  function OpenEditor(e: Editor): (r: Editor)
    ensures r.draft == e.profile && r.preview == e.profile.pic && r.open
    ensures r.profile == e.profile
  {
    e.(draft := e.profile, preview := e.profile.pic, open := true)
  }

  /** `handleChange`: only the named draft field changes. */
  function Change(e: Editor, f: Field, value: string): (r: Editor)
    ensures FieldValue(r.draft, f) == value
    ensures forall g :: g != f ==> FieldValue(r.draft, g) == FieldValue(e.draft, g)
    ensures r == e.(draft := r.draft) && r.draft.pic == e.draft.pic
  {
    e.(draft := SetField(e.draft, f, value))
  }

  /**
   `handleFileChange` once the file is read: the encoded picture becomes the
   preview only. Save then commits it; Cancel leaves the profile's picture.
   */
  function PickFile(e: Editor, dataUrl: string): (r: Editor)
    ensures r.preview == Some(dataUrl)
    ensures r.profile == e.profile && r.draft == e.draft && r.open == e.open
    ensures Save(r).profile.pic == Some(dataUrl)
    ensures Cancel(r).profile.pic == e.profile.pic
  {
    e.(preview := Some(dataUrl))
  }

  /** `handleSave`: the profile becomes the draft with its picture taken from the preview. */
  function Save(e: Editor): (r: Editor)
    ensures r.profile.(pic := None) == e.draft.(pic := None)
    ensures r.profile.pic == e.preview
    ensures !r.open
  {
    e.(profile := e.draft.(pic := e.preview), open := false)
  }

  /** `handleCancel`: the dialog closes and the profile is untouched. */
  function Cancel(e: Editor): (r: Editor)
    ensures r.profile == e.profile && !r.open
    ensures r.draft == e.draft && r.preview == e.preview
  {
    e.(open := false)
  }

  /** Saving right after opening commits the profile unchanged. */
  lemma SaveAfterOpen(e: Editor)
    ensures Save(OpenEditor(e)).profile == e.profile
  {
  }

  /** What the user can do through the dialog; the id input is disabled and fires nothing. */
  datatype UiEvent = ClickEdit | TypeName(name: string) | TypeStatus(status: string)
                   | ChooseFile(dataUrl: string) | ClickSave | ClickCancel

  function Apply(e: Editor, u: UiEvent): Editor {
    match u
    case ClickEdit => OpenEditor(e)
    case TypeName(v) => Change(e, Name, v)
    case TypeStatus(v) => Change(e, Status, v)
    case ChooseFile(d) => PickFile(e, d)
    case ClickSave => Save(e)
    case ClickCancel => Cancel(e)
  }

  function Run(e: Editor, us: seq<UiEvent>): Editor
    decreases |us|
  {
    if us == [] then e else Run(Apply(e, us[0]), us[1..])
  }

  /** The draft and the profile carry the same student id. */
  predicate IdsAgree(e: Editor) {
    e.draft.id == e.profile.id
  }

  /** No sequence of dialog interactions changes the student id. */
  lemma {:induction false} UiNeverChangesId(e: Editor, us: seq<UiEvent>)
    requires IdsAgree(e)
    ensures Run(e, us).profile.id == e.profile.id && IdsAgree(Run(e, us))
    decreases |us|
  {
    if us != [] {
      var e1 := Apply(e, us[0]);
      assert e1.profile.id == e.profile.id && IdsAgree(e1);
      UiNeverChangesId(e1, us[1..]);
    }
  }

  /** From the initial state in particular, the id stays "23–22–003". */
  lemma IdFixedFromStart(us: seq<UiEvent>)
    ensures Run(Initial, us).profile.id == Default.id
  {
    UiNeverChangesId(Initial, us);
  }

  /** The picture the right-hand bar shows, as written: the dialog's preview, saved or not. */
  function ShownPicAsWritten(e: Editor): Option<string> {
    e.preview
  }

  /** Choosing a picture and then cancelling leaves the bar showing the discarded picture. */
  lemma CancelledPictureStillShown(e: Editor, dataUrl: string)
    requires Some(dataUrl) != e.profile.pic
    ensures var r := Cancel(PickFile(OpenEditor(e), dataUrl));
            r.profile == e.profile && ShownPicAsWritten(r) != r.profile.pic
  {
  }

  /** The picture the bar should show: the committed profile picture. */
  function ShownPic(e: Editor): Option<string> {
    e.profile.pic
  }

  /** With the committed picture shown, Cancel never changes what is shown and Save shows the preview. */
  lemma ShownPicFollowsCommits(e: Editor, dataUrl: string)
    ensures ShownPic(Cancel(e)) == ShownPic(e)
    ensures ShownPic(Save(e)) == e.preview
    ensures ShownPic(PickFile(e, dataUrl)) == ShownPic(e)
  {
  }
}
