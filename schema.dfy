/**
 * The two shapes of a manifest: the keyed document that the text side holds
 * (after JSON parsing), and the list-based model the form edits.
 * Keys that JSON may leave out are `Option`s.
 */
module Schema {
  import opened Wrappers
  import opened JsObject

  /** A validator as the document spells it. */
  datatype Validator = Validator(
    factory: string,
    minLength: Option<int>,
    maxLength: Option<int>,
    onMatch: Option<string>,
    values: Option<seq<string>>,
    value: Option<string>)

  datatype Ui = Ui(labelText: Option<string>)

  /** The value stored under one key of `data.fields`; `consts` is the document's `const` object. */
  datatype FieldSpec = FieldSpec(
    inputName: Option<string>,
    ui: Option<Ui>,
    consts: Option<Entries<string>>,
    validators: Option<seq<Validator>>)

  /** `{ manifest: { data: { fields } } }`; `fields` may be missing. */
  datatype Manifest = Manifest(fields: Option<Entries<FieldSpec>>)

  datatype FormConst = FormConst(name: string, value: string, isSecure: bool)

  /** A validator as the form edits it: `values` is `enumValues`, `value` is `regex`. */
  datatype FormValidator = FormValidator(
    factory: string,
    minLength: Option<int>,
    maxLength: Option<int>,
    onMatch: Option<string>,
    enumValues: Option<seq<string>>,
    regex: Option<string>)

  /** `labelText` (the source's `label`) and `inputName` are whatever the document held, so they may be undefined. */
  datatype FormField = FormField(
    name: string,
    labelText: Option<string>,
    inputName: Option<string>,
    consts: seq<FormConst>,
    validators: seq<FormValidator>)

  datatype FormHook = FormHook(factory: string)

  datatype FormHooks = FormHooks(pre: seq<FormHook>, post: seq<FormHook>)

  datatype FormManifest = FormManifest(fields: seq<FormField>, hooks: Option<FormHooks>)

  /** The suffix of a constant key that marks the constant as secure. */
  const SecureSuffix: string := ":enc"

  /** The factories that carry fields of their own. */
  const LengthFactory: string := "length"
  const RegexFactory: string := "regex"
  const EnumFactory: string := "enum"
}
