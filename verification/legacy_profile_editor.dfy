/**
 The earlier profile editor (src/ChatBar.jsx): no picture, and every field,
 the student id included, is editable in the dialog; Save commits the
 draft as it stands.
 */
module LegacyProfileEditor {
  import opened Wrappers
  import opened Profile

  datatype Editor = Editor(profile: Profile, draft: Profile, open: bool)

  const Initial: Editor := Editor(Default, Default, false)

  /** `openModal`: the draft becomes a copy of the profile. */
  function OpenEditor(e: Editor): (r: Editor)
    ensures r.draft == e.profile && r.profile == e.profile && r.open
  {
    e.(draft := e.profile, open := true)
  }

  /** `handleChange`: only the named draft field changes; the id is one of them here. */
  function Change(e: Editor, f: Field, value: string): (r: Editor)
    ensures FieldValue(r.draft, f) == value
    ensures forall g :: g != f ==> FieldValue(r.draft, g) == FieldValue(e.draft, g)
    ensures r == e.(draft := r.draft) && r.draft.pic == e.draft.pic
  {
    e.(draft := SetField(e.draft, f, value))
  }

  /** `handleSave`: the profile becomes the draft. */
  function Save(e: Editor): (r: Editor)
    ensures r.profile == e.draft && r.draft == e.draft && !r.open
  {
    e.(profile := e.draft, open := false)
  }

  /** `handleCancel`: the dialog closes; the profile is untouched. */
  function Cancel(e: Editor): (r: Editor)
    ensures r.profile == e.profile && !r.open
  {
    e.(open := false)
  }

  /** Opening and saving without edits is the identity on the profile. */
  lemma SaveAfterOpenIsIdentity(e: Editor)
    ensures Save(OpenEditor(e)).profile == e.profile
  {
  }

  /** Edits are committed field by field: open, change one field, save. */
  lemma EditThenSave(e: Editor, f: Field, value: string)
    ensures var p := Save(Change(OpenEditor(e), f, value)).profile;
            && FieldValue(p, f) == value
            && (forall g :: g != f ==> FieldValue(p, g) == FieldValue(e.profile, g))
            && p.pic == e.profile.pic
  {
  }

  /** Opening, editing anything and cancelling leaves the profile as it was. */
  lemma EditThenCancel(e: Editor, f: Field, value: string)
    ensures Cancel(Change(OpenEditor(e), f, value)).profile == e.profile
  {
  }
}
