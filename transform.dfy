/**
 * The two directions between the document and the form: `jsonToForm`
 * (decode) and `formToJson` (encode). Each direction is specified by
 * functions and implemented by a method with the source's loops.
 */
module Transform {
  import opened Wrappers
  import opened Strings
  import opened JsObject
  import opened Schema

  // ---------------------------------------------------------------- constants

  /** A constant key/value pair of the document, as the form holds it. */
  function DecodeConst(key: string, value: string): (c: FormConst)
    ensures c.isSecure <==> EndsWith(key, SecureSuffix)
    ensures c.name <= key && ':' !in c.name
    ensures |c.name| < |key| ==> key[|c.name|] == ':'
    ensures c.value == value
  {
    FormConst(Before(key, ':'), value, EndsWith(key, SecureSuffix))
  }

  /** The document key a form constant is written under: the name, marked when secure. */
  function EncodeKey(c: FormConst): (key: string)
    ensures c.name <= key
    ensures c.isSecure ==> EndsWith(key, SecureSuffix)
    ensures ':' !in c.name ==> (EndsWith(key, SecureSuffix) <==> c.isSecure)
  {
    var key := c.name + (if c.isSecure then SecureSuffix else "");
    EndsWithAppended(c.name, SecureSuffix);
    assert !c.isSecure ==> key == c.name;
    if ':' in c.name then key else NoColonNotSecure(c.name); key
  }

  /** A key that the encoder can produce: no colon, or one colon that starts the secure suffix. */
  predicate CanonicalKey(key: string)
  {
    ':' !in key || (EndsWith(key, SecureSuffix) && ':' !in key[..|key| - |SecureSuffix|])
  }

  lemma NoColonNotSecure(s: string)
    requires ':' !in s
    ensures !EndsWith(s, SecureSuffix)
  {
    if |SecureSuffix| <= |s| {
      var k := |s| - |SecureSuffix|;
      assert s[k..][0] == s[k] && s[k] in s;
    }
  }

  /** A constant whose name has no colon decodes from its encoded key to itself. */
  lemma ConstRoundTrip(c: FormConst)
    requires ':' !in c.name
    ensures DecodeConst(EncodeKey(c), c.value) == c
  {
    if c.isSecure {
      BeforeSeparated(c.name, SecureSuffix, ':');
      EndsWithAppended(c.name, SecureSuffix);
    } else {
      assert EncodeKey(c) == c.name + "";
      BeforeSeparated(c.name, "", ':');
      NoColonNotSecure(c.name);
    }
  }

  /** Every key the encoder writes for a colon-free name is canonical. */
  lemma EncodedKeyCanonical(c: FormConst)
    requires ':' !in c.name
    ensures CanonicalKey(EncodeKey(c))
  {
    if c.isSecure {
      EndsWithAppended(c.name, SecureSuffix);
      assert EncodeKey(c)[..|EncodeKey(c)| - |SecureSuffix|] == c.name;
    } else {
      assert EncodeKey(c) == c.name + "" == c.name;
    }
  }

  /** Re-encoding a decoded key gives the key back exactly when the key is canonical. */
  lemma KeyRoundTrip(key: string, value: string)
    ensures EncodeKey(DecodeConst(key, value)) == key <==> CanonicalKey(key)
  {
    var c := DecodeConst(key, value);
    EncodedKeyCanonical(c);
    if ':' !in key {
      assert key + [] == key;
      BeforeSeparated(key, [], ':');
      NoColonNotSecure(key);
      assert EncodeKey(c) == key + "";
    } else if EndsWith(key, SecureSuffix) && ':' !in key[..|key| - |SecureSuffix|] {
      var prefix := key[..|key| - |SecureSuffix|];
      assert key == prefix + SecureSuffix;
      BeforeSeparated(prefix, SecureSuffix, ':');
    }
  }

  /** The pairs `formToJson` assigns into a field's `const` object, in order. */
  function ConstPairs(cs: seq<FormConst>): (ps: Entries<string>)
  {
    seq(|cs|, i requires 0 <= i < |cs| => (EncodeKey(cs[i]), cs[i].value))
  }

  /** A field's `const` object: one key per encoded constant key, none of them `__proto__`. */
  function EncodeConsts(cs: seq<FormConst>): (es: Entries<string>)
    ensures DistinctKeys(es)
    ensures forall key :: key in Keys(es) <==> key != ProtoKey && exists j :: 0 <= j < |cs| && EncodeKey(cs[j]) == key
  {
    var ps := ConstPairs(cs);
    AssignAllKeys(ps);
    assert forall key :: key in Keys(ps) <==> exists j :: 0 <= j < |cs| && EncodeKey(cs[j]) == key by {
      forall key ensures key in Keys(ps) ==> exists j :: 0 <= j < |cs| && EncodeKey(cs[j]) == key {
        if key in Keys(ps) {
          var j :| 0 <= j < |ps| && Keys(ps)[j] == key;
          assert EncodeKey(cs[j]) == key;
        }
      }
      forall key ensures (exists j :: 0 <= j < |cs| && EncodeKey(cs[j]) == key) ==> key in Keys(ps) {
        if exists j :: 0 <= j < |cs| && EncodeKey(cs[j]) == key {
          var j :| 0 <= j < |cs| && EncodeKey(cs[j]) == key;
          assert Keys(ps)[j] == key;
        }
      }
    }
    AssignAll(ps)
  }

  function DecodeConsts(es: Entries<string>): (cs: seq<FormConst>)
  {
    seq(|es|, i requires 0 <= i < |es| => DecodeConst(es[i].0, es[i].1))
  }

  /** Two constants under the same encoded key: the object keeps the value of the later one. */
  lemma EncodeConstsLookup(cs: seq<FormConst>, key: string)
    ensures Lookup(EncodeConsts(cs), key) == if key == ProtoKey then None else LastValue(ConstPairs(cs), key)
  {
    AssignAllLookup(ConstPairs(cs), key);
  }

  // --------------------------------------------------------------- validators

  /** Only the fields that belong to the factory are present (document side). */
  predicate Fits(x: Validator)
  {
    && (x.minLength.Some? || x.maxLength.Some? ==> x.factory == LengthFactory)
    && (x.value.Some? || x.onMatch.Some? ==> x.factory == RegexFactory)
    && (x.values.Some? ==> x.factory == EnumFactory)
  }

  /** Only the fields that belong to the factory are present (form side). */
  predicate WellFormed(v: FormValidator)
  {
    && (v.minLength.Some? || v.maxLength.Some? ==> v.factory == LengthFactory)
    && (v.regex.Some? || v.onMatch.Some? ==> v.factory == RegexFactory)
    && (v.enumValues.Some? ==> v.factory == EnumFactory)
  }

  /** Validators are copied with `values` read as `enumValues` and `value` as `regex`. */
  function DecodeValidator(x: Validator): (v: FormValidator)
    ensures v.factory == x.factory && v.enumValues == x.values && v.regex == x.value
    ensures v.minLength == x.minLength && v.maxLength == x.maxLength && v.onMatch == x.onMatch
    ensures WellFormed(v) <==> Fits(x)
  {
    FormValidator(x.factory, x.minLength, x.maxLength, x.onMatch, x.values, x.value)
  }

  /** The factory is always written; every other field only when it belongs to the factory. */
  function EncodeValidator(v: FormValidator): (x: Validator)
    ensures x.factory == v.factory && Fits(x)
    ensures v.factory == LengthFactory ==> x.minLength == v.minLength && x.maxLength == v.maxLength
    ensures v.factory == RegexFactory ==> x.value == v.regex && x.onMatch == v.onMatch
    ensures v.factory == EnumFactory ==> x.values == v.enumValues
  {
    Validator(
      v.factory,
      if v.factory == LengthFactory then v.minLength else None,
      if v.factory == LengthFactory then v.maxLength else None,
      if v.factory == RegexFactory then v.onMatch else None,
      if v.factory == EnumFactory then v.enumValues else None,
      if v.factory == RegexFactory then v.regex else None)
  }

  /** A form validator survives encode-then-decode exactly when it carries no field foreign to its factory. */
  lemma ValidatorRoundTrip(v: FormValidator)
    ensures DecodeValidator(EncodeValidator(v)) == v <==> WellFormed(v)
  {
  }

  /** A document validator survives decode-then-encode exactly when it carries no field foreign to its factory. */
  lemma ValidatorTextRoundTrip(x: Validator)
    ensures EncodeValidator(DecodeValidator(x)) == x <==> Fits(x)
  {
  }

  function DecodeValidators(xs: seq<Validator>): seq<FormValidator>
  {
    seq(|xs|, i requires 0 <= i < |xs| => DecodeValidator(xs[i]))
  }

  function EncodeValidators(vs: seq<FormValidator>): seq<Validator>
  {
    seq(|vs|, i requires 0 <= i < |vs| => EncodeValidator(vs[i]))
  }

  // ------------------------------------------------------------------- fields

  /** `fieldObj.ui?.label`: undefined when there is no `ui`, not `""`. */
  function Label(spec: FieldSpec): (r: Option<string>)
    ensures spec.ui.None? ==> r.None?
    ensures spec.ui.Some? ==> r == spec.ui.value.labelText
  {
    match spec.ui
    case Some(ui) => ui.labelText
    case None => None
  }

  function DecodeField(key: string, spec: FieldSpec): FormField
  {
    FormField(key, Label(spec), spec.inputName,
              DecodeConsts(spec.consts.GetOr([])), DecodeValidators(spec.validators.GetOr([])))
  }

  function EncodeField(f: FormField): FieldSpec
  {
    FieldSpec(f.inputName, Some(Ui(f.labelText)), Some(EncodeConsts(f.consts)), Some(EncodeValidators(f.validators)))
  }

  function DecodeFields(es: Entries<FieldSpec>): seq<FormField>
  {
    seq(|es|, i requires 0 <= i < |es| => DecodeField(es[i].0, es[i].1))
  }

  /** The pairs `formToJson` assigns into `data.fields`, in order. */
  function FieldPairs(fs: seq<FormField>): Entries<FieldSpec>
  {
    seq(|fs|, i requires 0 <= i < |fs| => (fs[i].name, EncodeField(fs[i])))
  }

  // ---------------------------------------------------------------- manifests

  const NoHooks: FormHooks := FormHooks([], [])

  /** The entries of `data.fields`; a missing `fields` iterates as no entries. */
  function FieldEntries(doc: Manifest): Entries<FieldSpec>
  {
    doc.fields.GetOr([])
  }

  /** `jsonToForm`: one form field per document field, in key order, with empty hooks. */
  function Decode(doc: Manifest): (form: FormManifest)
    ensures form.hooks == Some(NoHooks)
    ensures |form.fields| == |FieldEntries(doc)|
    ensures forall i :: 0 <= i < |form.fields| ==>
      var (key, spec) := FieldEntries(doc)[i];
      && form.fields[i].name == key
      && |form.fields[i].consts| == |spec.consts.GetOr([])|
      && |form.fields[i].validators| == |spec.validators.GetOr([])|
  {
    FormManifest(DecodeFields(FieldEntries(doc)), Some(NoHooks))
  }

  /**
   * `formToJson` before stringifying: `data.fields` is always written, with
   * one key per field name other than `__proto__`; hooks are not written.
   */
  function Encode(form: FormManifest): (doc: Manifest)
    ensures doc.fields.Some? && DistinctKeys(doc.fields.value)
    ensures forall name :: name in Keys(doc.fields.value) <==>
      name != ProtoKey && exists i :: 0 <= i < |form.fields| && form.fields[i].name == name
  {
    var ps := FieldPairs(form.fields);
    AssignAllKeys(ps);
    assert forall name :: name in Keys(ps) <==> exists i :: 0 <= i < |form.fields| && form.fields[i].name == name by {
      forall name ensures name in Keys(ps) ==> exists i :: 0 <= i < |form.fields| && form.fields[i].name == name {
        if name in Keys(ps) {
          var i :| 0 <= i < |ps| && Keys(ps)[i] == name;
          assert form.fields[i].name == name;
        }
      }
      forall name ensures (exists i :: 0 <= i < |form.fields| && form.fields[i].name == name) ==> name in Keys(ps) {
        if exists i :: 0 <= i < |form.fields| && form.fields[i].name == name {
          var i :| 0 <= i < |form.fields| && form.fields[i].name == name;
          assert Keys(ps)[i] == name;
        }
      }
    }
    Manifest(Some(AssignAll(ps)))
  }

  /** Field names are keys of the encoded `data.fields`, each written once, the last same-named field winning. */
  lemma EncodeFieldsLookup(form: FormManifest, name: string)
    ensures DistinctKeys(Encode(form).fields.value)
    ensures Lookup(Encode(form).fields.value, name) ==
      if name == ProtoKey then None else LastValue(FieldPairs(form.fields), name)
  {
    AssignAllKeys(FieldPairs(form.fields));
    AssignAllLookup(FieldPairs(form.fields), name);
  }

  // --------------------------------------------------------------- round trips

  /** A form field that encoding does not lose anything of. */
  predicate FieldRoundTrips(f: FormField)
  {
    && (forall c :: c in f.consts ==> ':' !in c.name)
    && DistinctKeys(ConstPairs(f.consts)) && NoProtoKey(ConstPairs(f.consts))
    && (forall v :: v in f.validators ==> WellFormed(v))
  }

  predicate RoundTrips(form: FormManifest)
  {
    && DistinctKeys(FieldPairs(form.fields)) && NoProtoKey(FieldPairs(form.fields))
    && forall f :: f in form.fields ==> FieldRoundTrips(f)
  }

  lemma ConstsRoundTrip(cs: seq<FormConst>)
    requires forall c :: c in cs ==> ':' !in c.name
    requires DistinctKeys(ConstPairs(cs)) && NoProtoKey(ConstPairs(cs))
    ensures DecodeConsts(EncodeConsts(cs)) == cs
  {
    AssignAllDistinct(ConstPairs(cs));
    forall j | 0 <= j < |cs|
      ensures DecodeConsts(ConstPairs(cs))[j] == cs[j]
    {
      ConstRoundTrip(cs[j]);
    }
  }

  lemma ValidatorsRoundTrip(vs: seq<FormValidator>)
    requires forall v :: v in vs ==> WellFormed(v)
    ensures DecodeValidators(EncodeValidators(vs)) == vs
  {
    forall j | 0 <= j < |vs|
      ensures DecodeValidators(EncodeValidators(vs))[j] == vs[j]
    {
      ValidatorRoundTrip(vs[j]);
    }
  }

  lemma FieldRoundTrip(f: FormField)
    requires FieldRoundTrips(f)
    ensures DecodeField(f.name, EncodeField(f)) == f
  {
    ConstsRoundTrip(f.consts);
    ValidatorsRoundTrip(f.validators);
  }

  /** Form first: encoding then decoding gives the same fields back, in the same order. */
  lemma FormRoundTrip(form: FormManifest)
    requires RoundTrips(form)
    ensures Decode(Encode(form)) == FormManifest(form.fields, Some(NoHooks))
  {
    var fs := form.fields;
    AssignAllDistinct(FieldPairs(fs));
    forall i | 0 <= i < |fs|
      ensures DecodeFields(FieldPairs(fs))[i] == fs[i]
    {
      FieldRoundTrip(fs[i]);
    }
  }

  /** A document field that decoding does not lose anything of. */
  predicate CanonicalSpec(spec: FieldSpec)
  {
    && spec.ui.Some? && spec.consts.Some? && spec.validators.Some?
    && DistinctKeys(spec.consts.value) && NoProtoKey(spec.consts.value)
    && (forall i :: 0 <= i < |spec.consts.value| ==> CanonicalKey(spec.consts.value[i].0))
    && (forall x :: x in spec.validators.value ==> Fits(x))
  }

  predicate Canonical(doc: Manifest)
  {
    && doc.fields.Some?
    && DistinctKeys(doc.fields.value) && NoProtoKey(doc.fields.value)
    && forall i :: 0 <= i < |doc.fields.value| ==> CanonicalSpec(doc.fields.value[i].1)
  }

  lemma ConstEntriesRoundTrip(es: Entries<string>)
    requires DistinctKeys(es) && NoProtoKey(es)
    requires forall i :: 0 <= i < |es| ==> CanonicalKey(es[i].0)
    ensures EncodeConsts(DecodeConsts(es)) == es
  {
    var ps := ConstPairs(DecodeConsts(es));
    forall j | 0 <= j < |es|
      ensures ps[j] == es[j]
    {
      KeyRoundTrip(es[j].0, es[j].1);
    }
    assert ps == es;
    AssignAllDistinct(es);
  }

  lemma ValidatorEntriesRoundTrip(xs: seq<Validator>)
    requires forall x :: x in xs ==> Fits(x)
    ensures EncodeValidators(DecodeValidators(xs)) == xs
  {
    forall j | 0 <= j < |xs|
      ensures EncodeValidators(DecodeValidators(xs))[j] == xs[j]
    {
      ValidatorTextRoundTrip(xs[j]);
    }
  }

  lemma SpecRoundTrip(key: string, spec: FieldSpec)
    requires CanonicalSpec(spec)
    ensures EncodeField(DecodeField(key, spec)) == spec
  {
    ConstEntriesRoundTrip(spec.consts.value);
    ValidatorEntriesRoundTrip(spec.validators.value);
  }

  /** Text first: decoding then encoding gives the same document back. */
  lemma TextRoundTrip(doc: Manifest)
    requires Canonical(doc)
    ensures Encode(Decode(doc)) == doc
  {
    var es := doc.fields.value;
    var ps := FieldPairs(DecodeFields(es));
    forall i | 0 <= i < |es|
      ensures ps[i] == es[i]
    {
      SpecRoundTrip(es[i].0, es[i].1);
    }
    assert ps == es;
    AssignAllDistinct(es);
  }

  // ----------------------------------------------------------------- examples

  /** Only the first colon separates the name; the suffix alone decides the flag. */
  lemma SecureKeyExamples()
    ensures DecodeConst("a:b:enc", "v") == FormConst("a", "v", true)
    ensures DecodeConst("token:enc", "abc") == FormConst("token", "abc", true)
    ensures DecodeConst("a:b", "v") == FormConst("a", "v", false)
    ensures EncodeKey(FormConst("token", "abc", true)) == "token:enc"
    ensures EncodeKey(FormConst("token", "abc", false)) == "token"
  {
    assert "a:b:enc"[3..] == ":enc";
    assert "token:enc"[5..] == ":enc";
    assert "a:b"[..1] == "a";
  }

  /** Field keys in the order "b", "a" decode to fields in that order, and encode back in it. */
  lemma FieldOrderExample(spec: FieldSpec)
    requires CanonicalSpec(spec)
    ensures var doc := Manifest(Some([("b", spec), ("a", spec)]));
            && Decode(doc).fields[0].name == "b" && Decode(doc).fields[1].name == "a"
            && Encode(Decode(doc)) == doc
  {
    var doc := Manifest(Some([("b", spec), ("a", spec)]));
    TextRoundTrip(doc);
  }

  /**
   * `JSON.parse` makes `__proto__` an own key and `for…in` visits it, so a
   * field of that name reaches the form; assigning it into `fields` does not
   * add a key, so encoding drops it again.
   */
  lemma ProtoFieldLost(spec: FieldSpec)
    ensures var doc := Manifest(Some([(ProtoKey, spec)]));
            && Decode(doc).fields[0].name == ProtoKey
            && Encode(Decode(doc)) == Manifest(Some([]))
  {
    var doc := Manifest(Some([(ProtoKey, spec)]));
    var ps := FieldPairs(Decode(doc).fields);
    assert |ps| == 1 && ps[0].0 == ProtoKey;
    assert ps[..|ps| - 1] == [];
    assert AssignAll(ps) == Assign([], ProtoKey, ps[0].1) == [];
  }

  // ------------------------------------------------------- the source's loops

  /** `jsonToForm`: a loop over the field keys, with a loop over each field's constants and validators. */
  method JsonToForm(doc: Manifest) returns (form: FormManifest)
    ensures form == Decode(doc)
  {
    var entries := FieldEntries(doc);
    var arr: seq<FormField> := [];
    for k := 0 to |entries|
      invariant arr == DecodeFields(entries[..k])
    {
      var (key, fieldObj) := entries[k];
      var constsObj := fieldObj.consts.GetOr([]);
      var constsArr: seq<FormConst> := [];
      for c := 0 to |constsObj|
        invariant constsArr == DecodeConsts(constsObj[..c])
      {
        var (constKey, value) := constsObj[c];
        constsArr := constsArr + [FormConst(Before(constKey, ':'), value, EndsWith(constKey, SecureSuffix))];
      }
      var validatorsObj := fieldObj.validators.GetOr([]);
      var validatorsArr: seq<FormValidator> := [];
      for j := 0 to |validatorsObj|
        invariant validatorsArr == DecodeValidators(validatorsObj[..j])
      {
        var validator := validatorsObj[j];
        validatorsArr := validatorsArr + [FormValidator(validator.factory, validator.minLength,
          validator.maxLength, validator.onMatch, validator.values, validator.value)];
      }
      assert constsObj[..|constsObj|] == constsObj && validatorsObj[..|validatorsObj|] == validatorsObj;
      arr := arr + [FormField(key, Label(fieldObj), fieldObj.inputName, constsArr, validatorsArr)];
    }
    assert entries[..|entries|] == entries;
    form := FormManifest(arr, Some(FormHooks([], [])));
  }

  /** The `const` object `formToJson` builds for one field. */
  method ConstObject(cs: seq<FormConst>) returns (constObject: Entries<string>)
    ensures constObject == EncodeConsts(cs)
  {
    constObject := [];
    for j := 0 to |cs|
      invariant constObject == AssignAll(ConstPairs(cs[..j]))
    {
      var c := cs[j];
      var suffix := if c.isSecure then SecureSuffix else "";
      assert ConstPairs(cs[..j + 1])[..j] == ConstPairs(cs[..j]);
      constObject := Assign(constObject, c.name + suffix, c.value);
    }
    assert cs[..|cs|] == cs;
  }

  /** The `validators` array `formToJson` builds for one field. */
  method ValidatorArray(vs: seq<FormValidator>) returns (validatorsArr: seq<Validator>)
    ensures validatorsArr == EncodeValidators(vs)
  {
    validatorsArr := [];
    for j := 0 to |vs|
      invariant validatorsArr == EncodeValidators(vs[..j])
    {
      var v := vs[j];
      var validator := Validator(v.factory, None, None, None, None, None);
      if v.factory == LengthFactory {
        validator := validator.(minLength := v.minLength, maxLength := v.maxLength);
      }
      if v.factory == RegexFactory {
        validator := validator.(value := v.regex, onMatch := v.onMatch);
      }
      if v.factory == EnumFactory {
        validator := validator.(values := v.enumValues);
      }
      validatorsArr := validatorsArr + [validator];
    }
    assert vs[..|vs|] == vs;
  }

  /** `formToJson` (before stringifying): one assignment into `data.fields` per form field. */
  method FormToJson(form: FormManifest) returns (doc: Manifest)
    ensures doc == Encode(form)
  {
    var fields: Entries<FieldSpec> := [];
    for i := 0 to |form.fields|
      invariant fields == AssignAll(FieldPairs(form.fields[..i]))
    {
      var element := form.fields[i];
      var constObject := ConstObject(element.consts);
      var validatorsArr := ValidatorArray(element.validators);
      assert FieldPairs(form.fields[..i + 1])[..i] == FieldPairs(form.fields[..i]);
      fields := Assign(fields, element.name, FieldSpec(element.inputName, Some(Ui(element.labelText)),
                                                       Some(constObject), Some(validatorsArr)));
    }
    assert form.fields[..|form.fields|] == form.fields;
    doc := Manifest(Some(fields));
  }
}
