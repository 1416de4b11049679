/**
 * The editor component's synchronisation: the text and the form are kept in
 * step by two effects, one keyed on the text and one keyed on the form, and
 * two flags that say which side an update came from
 * (`isUpdatingFromForm`, `isUpdatingFromJson`). Each user event runs to
 * completion, with the effects it triggers, before the next one.
 */
module Sync {
  import opened Wrappers
  import opened Schema
  import opened Transform
  import FormEdits

  /**
   * The text side. `Typed` is text the user supplied, with what parsing it
   * gives: `None` when `JSON.parse` or the property accesses in `jsonToForm`
   * throw. A parsed object never repeats a key (`JSON.parse` keeps the last
   * value), so a parsed document has `DistinctKeys` in `fields` and in every
   * `const`; the type itself does not enforce this. `Rendered` is the
   * pretty-printed JSON that `formToJson` writes.
   */
  datatype Text =
    | Typed(raw: string, parsed: Option<Manifest>)
    | Rendered(doc: Manifest)

  /** The texts the text effect treats as no manifest at all: empty and "{}". */
  predicate Blank(t: Text)
  {
    t.Typed? && (t.raw == "" || t.raw == "{}")
  }

  function Parsed(t: Text): Option<Manifest>
  {
    match t
    case Typed(_, parsed) => parsed
    case Rendered(doc) => Some(doc)
  }

  /** `resetForm`: one blank field named "test", no hooks; nothing in it is lost by encoding. */
  function ResetForm(): (form: FormManifest)
    ensures |form.fields| == 1 && form.fields[0].name == "test" && form.hooks.None?
    ensures form.fields[0].consts == [] && form.fields[0].validators == []
    ensures RoundTrips(form)
  {
    FormManifest([FormField("test", Some(""), Some(""), [], [])], None)
  }

  /** The form the text effect installs for a text: the reset form when the text is blank or does not decode. */
  function FormFor(t: Text): (form: FormManifest)
    ensures Blank(t) || Parsed(t).None? ==> form == ResetForm()
    ensures !Blank(t) && Parsed(t).Some? ==> form == Decode(Parsed(t).value) && form.hooks == Some(NoHooks)
  {
    if Blank(t) then ResetForm()
    else match Parsed(t)
      case Some(doc) => Decode(doc)
      case None => ResetForm()
  }

  /** The text the reset form renders brings the reset form's fields back. */
  lemma ResetFormRoundTrip()
    ensures Encode(ResetForm()) == Manifest(Some([("test", FieldSpec(Some(""), Some(Ui(Some(""))), Some([]), Some([])))]))
    ensures FormFor(Rendered(Encode(ResetForm()))) == FormManifest(ResetForm().fields, Some(NoHooks))
  {
    RenderedFormFor(ResetForm());
    var ps := FieldPairs(ResetForm().fields);
    assert ps[..|ps| - 1] == [];
  }

  /** Text the form wrote, read back, gives the form's fields, for a form encoding loses nothing of. */
  lemma RenderedFormFor(form: FormManifest)
    requires RoundTrips(form)
    ensures FormFor(Rendered(Encode(form))) == FormManifest(form.fields, Some(NoHooks))
  {
    FormRoundTrip(form);
  }

  /** Text that does not parse, and "{}" whatever it parses to, both bring up the reset form. */
  lemma ResetExamples(parsed: Option<Manifest>)
    ensures FormFor(Typed("not json", None)) == ResetForm()
    ensures FormFor(Typed("{}", parsed)) == ResetForm()
    ensures FormFor(Typed("", parsed)) == ResetForm()
  {
  }

  /**
   * A document whose `data` has no `fields` does not throw: iterating an
   * undefined `fields` visits nothing, so the form has no fields at all.
   */
  lemma MissingFieldsDecodesEmpty(raw: string)
    requires raw != "" && raw != "{}"
    ensures FormFor(Typed(raw, Some(Manifest(None)))) == FormManifest([], Some(NoHooks))
  {
  }

  /** One user action on the form, with the indices of what it addresses. */
  datatype Edit =
    | AddField
    | SetFieldName(field: nat, name: string)
    | SetFieldInputName(field: nat, inputName: string)
    | SetFieldLabel(field: nat, labelText: string)
    | DeleteField(field: nat)
    | AddConst(field: nat)
    | SetConstName(field: nat, item: nat, name: string)
    | SetConstValue(field: nat, item: nat, value: string)
    | ToggleSecure(field: nat, item: nat)
    | DeleteConst(field: nat, item: nat)
    | AddValidator(field: nat)
    | SetFactory(field: nat, item: nat, factory: string)
    | SetMinLength(field: nat, item: nat, n: int)
    | SetMaxLength(field: nat, item: nat, n: int)
    | SetRegex(field: nat, item: nat, pattern: string)
    | SetOnMatch(field: nat, item: nat, checked: bool)
    | DeleteValidator(field: nat, item: nat)

  function Apply(form: FormManifest, e: Edit): FormManifest
  {
    match e
    case AddField => FormEdits.AddField(form)
    case SetFieldName(i, name) => FormEdits.SetFieldName(form, i, name)
    case SetFieldInputName(i, inputName) => FormEdits.SetFieldInputName(form, i, inputName)
    case SetFieldLabel(i, labelText) => FormEdits.SetFieldLabel(form, i, labelText)
    case DeleteField(i) => FormEdits.DeleteField(form, i)
    case AddConst(i) => FormEdits.AddConst(form, i)
    case SetConstName(i, j, name) => FormEdits.SetConstName(form, i, j, name)
    case SetConstValue(i, j, value) => FormEdits.SetConstValue(form, i, j, value)
    case ToggleSecure(i, j) => FormEdits.ToggleSecure(form, i, j)
    case DeleteConst(i, j) => FormEdits.DeleteConst(form, i, j)
    case AddValidator(i) => FormEdits.AddValidator(form, i)
    case SetFactory(i, j, factory) => FormEdits.SetFactory(form, i, j, factory)
    case SetMinLength(i, j, n) => FormEdits.SetMinLength(form, i, j, n)
    case SetMaxLength(i, j, n) => FormEdits.SetMaxLength(form, i, j, n)
    case SetRegex(i, j, pattern) => FormEdits.SetRegex(form, i, j, pattern)
    case SetOnMatch(i, j, checked) => FormEdits.SetOnMatch(form, i, j, checked)
    case DeleteValidator(i, j) => FormEdits.DeleteValidator(form, i, j)
  }

  class Editor {
    var text: Text            // manifestJson
    var form: FormManifest    // manifestForm
    var fromForm: bool        // isUpdatingFromForm
    var fromJson: bool        // isUpdatingFromJson

    /**
     * At rest: no update is in flight, and the two sides agree: text the
     * form wrote is the encoding of the form, and the form shown for typed
     * text is what that text decodes to (or the reset form).
     */
    ghost predicate Valid()
      reads this
    {
      && !fromForm && !fromJson
      && (text.Rendered? ==> text.doc == Encode(form))
      && (text.Typed? ==> form == FormFor(text))
    }

    /** Mounting: the initial state, then the first run of both effects. */
    constructor ()
      ensures Valid()
      ensures text == Typed("{}", None) && form == ResetForm()
    {
      text := Typed("{}", None);
      form := FormManifest([], None);
      fromForm := false;
      fromJson := true;
      new;
      var formSet := TextEffect();
      var textSet := FormEffect();
    }

    /** The effect keyed on the text. Returns whether it set the form. */
    method TextEffect() returns (formSet: bool)
      modifies this
      ensures text == old(text)
      ensures formSet == old(fromJson)
      ensures form == if old(fromJson) then FormFor(text) else old(form)
      ensures !fromForm
      ensures fromJson == (old(fromJson) && Blank(text))
    {
      formSet := false;
      if fromJson && !Blank(text) {
        match Parsed(text) {
          case Some(parsedJson) =>
            form := JsonToForm(parsedJson);
          case None =>
            form := ResetForm();
            fromJson := true;
            fromForm := false;
        }
        formSet := true;
      }
      if fromJson && Blank(text) {
        form := ResetForm();
        formSet := true;
        fromJson := true;
        fromForm := false;
      } else {
        fromForm := false;
        fromJson := false;
      }
    }

    /** The effect keyed on the form. Returns whether it set the text. */
    method FormEffect() returns (textSet: bool)
      modifies this
      ensures form == old(form)
      ensures textSet == old(fromForm)
      ensures text == if old(fromForm) then Rendered(Encode(form)) else old(text)
      ensures !fromForm && !fromJson
    {
      textSet := false;
      if fromForm {
        var json := FormToJson(form);
        text := Rendered(json);
        textSet := true;
      }
      fromJson := false;
      fromForm := false;
    }

    /**
     * The text area's change event (also how the sample manifest is loaded
     * on mount). The text is kept as typed, and the form follows it.
     */
    method EditText(raw: string, parsed: Option<Manifest>)
      modifies this
      ensures Valid()
      ensures text == Typed(raw, parsed)
      ensures form == FormFor(text)
    {
      fromJson := true;
      fromForm := false;
      text := Typed(raw, parsed);
      var formSet := TextEffect();
      if formSet {
        var textSet := FormEffect();
        assert !textSet;
      }
    }

    /** A form handler: apply the edit, then the text is rewritten from the new form. */
    method EditForm(e: Edit)
      modifies this
      ensures Valid()
      ensures form == Apply(old(form), e)
      ensures text == Rendered(Encode(form))
    {
      var newForm := Apply(form, e);
      fromForm := true;
      fromJson := false;
      form := newForm;
      var before := text;
      var textSet := FormEffect();
      if textSet && text != before {
        var formSet := TextEffect();
        assert !formSet;
      }
    }
  }
}
