/**
 * The form's edit handlers. Each builds a new form from the current one with
 * `map`, `filter` and spread, addressing a field (and inside it a constant or
 * a validator) by index; an index past the end matches nothing, so the
 * handler then returns an equal copy. Hooks are carried over unchanged.
 */
module FormEdits {
  import opened Wrappers
  import opened Strings
  import opened JsObject
  import opened Schema
  import opened Transform

  // ------------------------------------------------------------- list helpers

  /** `s.map((x, j) => j === i ? g(x) : x)`. */
  function MapAt<T>(s: seq<T>, i: nat, g: T -> T): seq<T>
  {
    seq(|s|, j requires 0 <= j < |s| => if j == i then g(s[j]) else s[j])
  }

  /** `s.filter((x, j) => j !== i)`: the element at `i` goes, the others keep their order. */
  function RemoveAt<T>(s: seq<T>, i: nat): (r: seq<T>)
    ensures i < |s| ==> |r| == |s| - 1 && forall k :: 0 <= k < |r| ==> r[k] == s[if k < i then k else k + 1]
    ensures i >= |s| ==> r == s
  {
    if s == [] then []
    else if i == 0 then s[1..]
    else [s[0]] + RemoveAt(s[1..], i - 1)
  }

  /** Same length, and every element except the one at `i` is unchanged. */
  ghost predicate SameExceptAt<T>(s: seq<T>, r: seq<T>, i: nat)
  {
    |r| == |s| && forall k :: 0 <= k < |s| && k != i ==> r[k] == s[k]
  }

  /** `r` differs from `form` at most in field `i`. */
  ghost predicate FieldFrame(form: FormManifest, r: FormManifest, i: nat)
  {
    r.hooks == form.hooks && SameExceptAt(form.fields, r.fields, i)
  }

  /** `r` differs from `form` at most in constant `j` of field `i`. */
  ghost predicate ConstFrame(form: FormManifest, r: FormManifest, i: nat, j: nat)
  {
    && FieldFrame(form, r, i)
    && (i < |form.fields| ==>
          && r.fields[i] == form.fields[i].(consts := r.fields[i].consts)
          && SameExceptAt(form.fields[i].consts, r.fields[i].consts, j))
  }

  /** `r` differs from `form` at most in validator `j` of field `i`. */
  ghost predicate ValidatorFrame(form: FormManifest, r: FormManifest, i: nat, j: nat)
  {
    && FieldFrame(form, r, i)
    && (i < |form.fields| ==>
          && r.fields[i] == form.fields[i].(validators := r.fields[i].validators)
          && SameExceptAt(form.fields[i].validators, r.fields[i].validators, j))
  }

  function UpdateField(form: FormManifest, i: nat, g: FormField -> FormField): FormManifest
  {
    FormManifest(MapAt(form.fields, i, g), form.hooks)
  }

  function UpdateConst(form: FormManifest, i: nat, j: nat, g: FormConst -> FormConst): FormManifest
  {
    UpdateField(form, i, (f: FormField) => f.(consts := MapAt(f.consts, j, g)))
  }

  function UpdateValidator(form: FormManifest, i: nat, j: nat, g: FormValidator -> FormValidator): FormManifest
  {
    UpdateField(form, i, (f: FormField) => f.(validators := MapAt(f.validators, j, g)))
  }

  // ------------------------------------------------------------------- fields

  /** The placeholder a new field is named with: its 0-based position, then ". Field". */
  function NewField(count: nat): FormField
  {
    FormField(NatToString(count) + ". Field", Some(""), Some(""), [], [])
  }

  function AddField(form: FormManifest): (r: FormManifest)
    ensures r.hooks == form.hooks
    ensures |r.fields| == |form.fields| + 1 && r.fields[..|form.fields|] == form.fields
    ensures r.fields[|form.fields|] == NewField(|form.fields|)
  {
    FormManifest(form.fields + [NewField(|form.fields|)], form.hooks)
  }

  function SetFieldName(form: FormManifest, i: nat, name: string): (r: FormManifest)
    ensures FieldFrame(form, r, i)
    ensures i < |form.fields| ==> r.fields[i] == form.fields[i].(name := name)
  {
    UpdateField(form, i, (f: FormField) => f.(name := name))
  }

  function SetFieldInputName(form: FormManifest, i: nat, inputName: string): (r: FormManifest)
    ensures FieldFrame(form, r, i)
    ensures i < |form.fields| ==> r.fields[i] == form.fields[i].(inputName := Some(inputName))
  {
    UpdateField(form, i, (f: FormField) => f.(inputName := Some(inputName)))
  }

  function SetFieldLabel(form: FormManifest, i: nat, labelText: string): (r: FormManifest)
    ensures FieldFrame(form, r, i)
    ensures i < |form.fields| ==> r.fields[i] == form.fields[i].(labelText := Some(labelText))
  {
    UpdateField(form, i, (f: FormField) => f.(labelText := Some(labelText)))
  }

  function DeleteField(form: FormManifest, i: nat): (r: FormManifest)
    ensures r.hooks == form.hooks
    ensures i < |form.fields| ==> r.fields == form.fields[..i] + form.fields[i + 1..]
    ensures i >= |form.fields| ==> r == form
  {
    FormManifest(RemoveAt(form.fields, i), form.hooks)
  }

  // ---------------------------------------------------------------- constants

  /** The placeholder a new constant gets: its 1-based position, then ". const". */
  function NewConst(count: nat): FormConst
  {
    FormConst(NatToString(count + 1) + ". const", "", false)
  }

  function AddConst(form: FormManifest, i: nat): (r: FormManifest)
    ensures FieldFrame(form, r, i)
    ensures i < |form.fields| ==>
      var f := form.fields[i];
      r.fields[i] == f.(consts := f.consts + [NewConst(|f.consts|)])
  {
    UpdateField(form, i, (f: FormField) => f.(consts := f.consts + [NewConst(|f.consts|)]))
  }

  function SetConstName(form: FormManifest, i: nat, j: nat, name: string): (r: FormManifest)
    ensures ConstFrame(form, r, i, j)
    ensures i < |form.fields| && j < |form.fields[i].consts| ==>
      r.fields[i].consts[j] == form.fields[i].consts[j].(name := name)
  {
    UpdateConst(form, i, j, (c: FormConst) => c.(name := name))
  }

  function SetConstValue(form: FormManifest, i: nat, j: nat, value: string): (r: FormManifest)
    ensures ConstFrame(form, r, i, j)
    ensures i < |form.fields| && j < |form.fields[i].consts| ==>
      r.fields[i].consts[j] == form.fields[i].consts[j].(value := value)
  {
    UpdateConst(form, i, j, (c: FormConst) => c.(value := value))
  }

  function ToggleSecure(form: FormManifest, i: nat, j: nat): (r: FormManifest)
    ensures ConstFrame(form, r, i, j)
    ensures i < |form.fields| && j < |form.fields[i].consts| ==>
      r.fields[i].consts[j] == form.fields[i].consts[j].(isSecure := !form.fields[i].consts[j].isSecure)
  {
    UpdateConst(form, i, j, (c: FormConst) => c.(isSecure := !c.isSecure))
  }

  function DeleteConst(form: FormManifest, i: nat, j: nat): (r: FormManifest)
    ensures FieldFrame(form, r, i)
    ensures i < |form.fields| ==>
      var f := form.fields[i];
      r.fields[i] == f.(consts := RemoveAt(f.consts, j))
  {
    UpdateField(form, i, (f: FormField) => f.(consts := RemoveAt(f.consts, j)))
  }

  // --------------------------------------------------------------- validators

  const NewValidator: FormValidator := FormValidator("alpha", None, None, None, None, None)

  /** What a validator becomes when its factory is picked: every variant field at its default. */
  function FactoryReset(factory: string): FormValidator
  {
    FormValidator(factory, Some(0), Some(100), Some("pass"), Some([]), Some(""))
  }

  function AddValidator(form: FormManifest, i: nat): (r: FormManifest)
    ensures FieldFrame(form, r, i)
    ensures i < |form.fields| ==>
      var f := form.fields[i];
      r.fields[i] == f.(validators := f.validators + [NewValidator])
  {
    UpdateField(form, i, (f: FormField) => f.(validators := f.validators + [NewValidator]))
  }

  function SetFactory(form: FormManifest, i: nat, j: nat, factory: string): (r: FormManifest)
    ensures ValidatorFrame(form, r, i, j)
    ensures i < |form.fields| && j < |form.fields[i].validators| ==>
      r.fields[i].validators[j] == FactoryReset(factory)
  {
    UpdateValidator(form, i, j, (v: FormValidator) => FactoryReset(factory))
  }

  function SetMinLength(form: FormManifest, i: nat, j: nat, n: int): (r: FormManifest)
    ensures ValidatorFrame(form, r, i, j)
    ensures i < |form.fields| && j < |form.fields[i].validators| ==>
      r.fields[i].validators[j] == form.fields[i].validators[j].(minLength := Some(n))
  {
    UpdateValidator(form, i, j, (v: FormValidator) => v.(minLength := Some(n)))
  }

  function SetMaxLength(form: FormManifest, i: nat, j: nat, n: int): (r: FormManifest)
    ensures ValidatorFrame(form, r, i, j)
    ensures i < |form.fields| && j < |form.fields[i].validators| ==>
      r.fields[i].validators[j] == form.fields[i].validators[j].(maxLength := Some(n))
  {
    UpdateValidator(form, i, j, (v: FormValidator) => v.(maxLength := Some(n)))
  }

  function SetRegex(form: FormManifest, i: nat, j: nat, pattern: string): (r: FormManifest)
    ensures ValidatorFrame(form, r, i, j)
    ensures i < |form.fields| && j < |form.fields[i].validators| ==>
      r.fields[i].validators[j] == form.fields[i].validators[j].(regex := Some(pattern))
  {
    UpdateValidator(form, i, j, (v: FormValidator) => v.(regex := Some(pattern)))
  }

  /** The match/fail switch: on is "pass", off is "fail". */
  function SetOnMatch(form: FormManifest, i: nat, j: nat, checked: bool): (r: FormManifest)
    ensures ValidatorFrame(form, r, i, j)
    ensures i < |form.fields| && j < |form.fields[i].validators| ==>
      r.fields[i].validators[j] == form.fields[i].validators[j].(onMatch := Some(if checked then "pass" else "fail"))
  {
    UpdateValidator(form, i, j, (v: FormValidator) => v.(onMatch := Some(if checked then "pass" else "fail")))
  }

  function DeleteValidator(form: FormManifest, i: nat, j: nat): (r: FormManifest)
    ensures FieldFrame(form, r, i)
    ensures i < |form.fields| ==>
      var f := form.fields[i];
      r.fields[i] == f.(validators := RemoveAt(f.validators, j))
  {
    UpdateField(form, i, (f: FormField) => f.(validators := RemoveAt(f.validators, j)))
  }

  // ------------------------------------------------------------------- lemmas

  /** Toggling the secure flag twice gives the form back. */
  lemma ToggleSecureTwice(form: FormManifest, i: nat, j: nat)
    ensures ToggleSecure(ToggleSecure(form, i, j), i, j) == form
  {
    var r := ToggleSecure(ToggleSecure(form, i, j), i, j);
    if i < |form.fields| {
      assert r.fields[i].consts == form.fields[i].consts;
    }
    assert r.fields == form.fields;
  }

  /** Renaming a field to its current name changes nothing, so neither does the text. */
  lemma RenameToSameName(form: FormManifest, i: nat)
    requires i < |form.fields|
    ensures SetFieldName(form, i, form.fields[i].name) == form
    ensures Encode(SetFieldName(form, i, form.fields[i].name)) == Encode(form)
  {
    assert SetFieldName(form, i, form.fields[i].name).fields == form.fields;
  }

  /** Deleting the field just added gives the form back. */
  lemma AddThenDeleteField(form: FormManifest)
    ensures DeleteField(AddField(form), |form.fields|) == form
  {
    assert AddField(form).fields[..|form.fields|] == form.fields;
  }

  /** Deleting the constant just added gives the form back. */
  lemma AddThenDeleteConst(form: FormManifest, i: nat)
    requires i < |form.fields|
    ensures DeleteConst(AddConst(form, i), i, |form.fields[i].consts|) == form
  {
    var cs := form.fields[i].consts;
    var r := DeleteConst(AddConst(form, i), i, |cs|);
    assert (cs + [NewConst(|cs|)])[..|cs|] == cs;
    assert r.fields[i] == form.fields[i];
    assert r.fields == form.fields;
  }

  /** Deleting the validator just added gives the form back. */
  lemma AddThenDeleteValidator(form: FormManifest, i: nat)
    requires i < |form.fields|
    ensures DeleteValidator(AddValidator(form, i), i, |form.fields[i].validators|) == form
  {
    var vs := form.fields[i].validators;
    var r := DeleteValidator(AddValidator(form, i), i, |vs|);
    assert (vs + [NewValidator])[..|vs|] == vs;
    assert r.fields[i] == form.fields[i];
    assert r.fields == form.fields;
  }

  /** A freshly added constant has a colon-free name, so it reads back from its encoded key unchanged. */
  lemma NewConstRoundTrips(form: FormManifest, i: nat)
    requires i < |form.fields|
    ensures var cs := AddConst(form, i).fields[i].consts;
            DecodeConst(EncodeKey(cs[|cs| - 1]), "") == cs[|cs| - 1]
  {
    var c := NewConst(|form.fields[i].consts|);
    var digits := NatToString(|form.fields[i].consts| + 1);
    assert c.name == digits + ". const";
    assert forall k :: 0 <= k < |c.name| ==> c.name[k] != ':' by {
      forall k | 0 <= k < |c.name| ensures c.name[k] != ':' {
        if k >= |digits| { assert c.name[k] == ". const"[k - |digits|]; }
      }
    }
    ConstRoundTrip(c);
  }

  /** The per-factory reference: what the document holds after a validator's factory is picked. */
  function FactoryDefault(factory: string): Validator
  {
    if factory == LengthFactory then Validator(factory, Some(0), Some(100), None, None, None)
    else if factory == RegexFactory then Validator(factory, None, None, Some("pass"), None, Some(""))
    else if factory == EnumFactory then Validator(factory, None, None, None, Some([]), None)
    else Validator(factory, None, None, None, None, None)
  }

  /** After a factory change only the new factory's own fields reach the document, at their defaults. */
  lemma FactoryChangeEncoding(form: FormManifest, i: nat, j: nat, factory: string)
    requires i < |form.fields| && j < |form.fields[i].validators|
    ensures EncodeValidator(SetFactory(form, i, j, factory).fields[i].validators[j]) == FactoryDefault(factory)
  {
  }

  /** Two forms whose validators encode alike encode to the same document. */
  lemma SameEncodingAt(form: FormManifest, r: FormManifest, i: nat, j: nat)
    requires ValidatorFrame(form, r, i, j)
    requires i < |form.fields| && j < |form.fields[i].validators|
    requires EncodeValidator(r.fields[i].validators[j]) == EncodeValidator(form.fields[i].validators[j])
    ensures Encode(r) == Encode(form)
  {
    var vs, ws := form.fields[i].validators, r.fields[i].validators;
    assert EncodeValidators(ws) == EncodeValidators(vs);
    assert EncodeField(r.fields[i]) == EncodeField(form.fields[i]);
    assert FieldPairs(r.fields) == FieldPairs(form.fields);
  }

  /**
   * Editing a length bound of a validator whose factory is not "length"
   * leaves the document unchanged. The page draws the bound inputs only for
   * "length" validators, so a user cannot issue this edit; the handlers
   * themselves do not check the factory.
   */
  lemma HiddenLengthEdit(form: FormManifest, i: nat, j: nat, n: int)
    requires i < |form.fields| && j < |form.fields[i].validators|
    requires form.fields[i].validators[j].factory != LengthFactory
    ensures Encode(SetMinLength(form, i, j, n)) == Encode(form)
    ensures Encode(SetMaxLength(form, i, j, n)) == Encode(form)
  {
    SameEncodingAt(form, SetMinLength(form, i, j, n), i, j);
    SameEncodingAt(form, SetMaxLength(form, i, j, n), i, j);
  }

  /**
   * Editing the pattern or the match switch of a validator whose factory is
   * not "regex" leaves the document unchanged. The page draws these inputs
   * only for "regex" validators, so a user cannot issue this edit; the
   * handlers themselves do not check the factory.
   */
  lemma HiddenRegexEdit(form: FormManifest, i: nat, j: nat, pattern: string, checked: bool)
    requires i < |form.fields| && j < |form.fields[i].validators|
    requires form.fields[i].validators[j].factory != RegexFactory
    ensures Encode(SetRegex(form, i, j, pattern)) == Encode(form)
    ensures Encode(SetOnMatch(form, i, j, checked)) == Encode(form)
  {
    SameEncodingAt(form, SetRegex(form, i, j, pattern), i, j);
    SameEncodingAt(form, SetOnMatch(form, i, j, checked), i, j);
  }

  /**
   * Placeholder names are positions, so they can repeat: add two fields,
   * delete the first, add another, and two fields are named "1. Field";
   * the document then holds one field for the two.
   */
  lemma PlaceholderNameReuse()
    ensures var form := AddField(DeleteField(AddField(AddField(FormManifest([], None))), 0));
            && |form.fields| == 2
            && form.fields[0].name == form.fields[1].name == "1. Field"
            && |Encode(form).fields.value| == 1
  {
    var form := AddField(DeleteField(AddField(AddField(FormManifest([], None))), 0));
    assert NatToString(1) == "1";
    assert form.fields == [NewField(1), NewField(1)];
    var ps := FieldPairs(form.fields);
    assert ps[..1][..0] == [];
    assert AssignAll(ps[..1]) == [ps[0]];
    assert ps[..|ps| - 1] == ps[..1];
  }
}
