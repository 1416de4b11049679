# Manifest editor: form ⇄ JSON synchronisation, in Dafny

This project models the logic of the manifest editor in `src/App.tsx`. A manifest is edited
either as JSON text or through a form. The model covers three parts:

- **Decoding** (`jsonToForm`) turns the keyed document `{manifest: {data: {fields: {key → field}}}}`
  into the list-based form model.
  Each constant key `name` or `name:enc` becomes a `{name, value, isSecure}` record.
  Validators are copied with `values` renamed to `enumValues` and `value` renamed to `regex`.
- **Encoding** (`formToJson`) goes the other way.
  It writes each constant under `name` or `name:enc`.
  It writes only the validator fields that belong to the validator's factory.
  It assigns into JavaScript objects, so a repeated key overwrites the earlier value in place.
- **The sync controller** keeps the text and the form in step.
  It uses two effects and two flags, `isUpdatingFromForm` and `isUpdatingFromJson`.
  It also covers the index-addressed edit handlers of the form.

Modules, one per file:

- `Wrappers`: `Option`, which stands for a value JavaScript may leave undefined.
- `Strings`: `split(":")[0]`, `endsWith`, and number-to-decimal conversion.
- `JsObject`: a JavaScript object as an association list of its own keys in insertion order. Assignment overwrites in place or appends. Assigning `__proto__` runs the inherited setter instead and adds no key.
- `Schema`: the document and form datatypes.
- `Transform`: the decoder and encoder. Specification functions sit beside the loop methods `JsonToForm` and `FormToJson`, together with the round-trip lemmas.
- `FormEdits`: the edit handlers, as pure functions on the form.
- `Sync`: the `Editor` class, whose fields are the text, the form and the two flags.

Parsed JSON is a typed `Manifest`. A key that JSON may omit is an `Option`.
The text side is a `Text` value, with two cases:

- `Typed(raw, parsed)`: text the user supplied, plus what parsing gives. `None` means `JSON.parse`, or a property access in `jsonToForm`, would throw.
- `Rendered(doc)`: the pretty-printed JSON of `doc` that `formToJson` writes.

The model follows the code in these cases:

- A field without `ui` decodes to an undefined label (`fieldObj.ui?.label`, line 140), not to `""`.
- An index past the end makes an edit a no-op. `map` and `filter` match nothing, so no error is raised.
- A document whose `data` has no `fields` decodes to a form with no fields, and the form is not reset. Iterating an undefined object with `for…in` visits nothing (`Sync.MissingFieldsDecodesEmpty`). Only a missing `manifest` or `data` throws, and that resets the form.
- A factory change leaves every variant field at its default on the form side: minLength 0, maxLength 100, regex `""`, onMatch `"pass"`, enumValues `[]`. Only encoding drops the fields that belong to other factories (`FormEdits.FactoryChangeEncoding`).
- After blank text (`""` or `"{}"`), the text effect leaves `isUpdatingFromJson` set. The form effect then clears it, because the reset changed the form.
- A field or constant named `__proto__` is lost by encoding. `JSON.parse` makes it an own key and `for…in` visits it, so decoding keeps it. But `fields[name] = …` (line 187) and `constObject[key] = …` (line 164) run the `__proto__` setter on a `{}` object and add no key (`Transform.ProtoFieldLost`). The round-trip lemmas therefore exclude that key.

## Model

| member | source | states |
|---|---|---|
| Strings.Before | src/App.tsx:119 | the constant name is the prefix of the key up to, not including, the first `:`; it holds no `:` |
| Strings.BeforeSeparated | src/App.tsx:119 | cutting `name + rest` at the first `:` gives back a colon-free `name` when `rest` is empty or starts with `:` |
| Strings.NatToString | src/App.tsx:297 | the number in a placeholder name is a non-empty string of decimal digits |
| Strings.NatToStringValue | src/App.tsx:297 | the decimal digits written for `n` stand for `n`, read back by the independent `DigitsValue` |
| Strings.NatToStringInjective | src/App.tsx:434 | two different counts never give the same placeholder number |
| JsObject.Lookup | src/App.tsx:164 | reading a key finds a value exactly when the key is among the object's keys |
| JsObject.Assign | src/App.tsx:164 | `o[k] = v` keeps the key order when `k` is present, otherwise appends `(k, v)` at the end; for `k` = `__proto__` the object's own keys do not change |
| JsObject.AssignLookup | src/App.tsx:164 | after `o[k] = v`, the own key `k` holds `v` unless `k` is `__proto__`, and every other key reads as before |
| JsObject.AssignDistinct | src/App.tsx:187 | assignment keeps an object's keys distinct |
| JsObject.AssignAllKeys | src/App.tsx:162-165 | the object built by a run of assignments has distinct keys, exactly the assigned ones other than `__proto__` |
| JsObject.AssignAllLookup | src/App.tsx:162-165 | in the built object each key holds the value of its LAST assignment; `__proto__` is never an own key |
| JsObject.AssignAllDistinct | src/App.tsx:187-194 | when no key repeats and none is `__proto__`, the built object holds every pair, in assignment order |
| Transform.DecodeConst | src/App.tsx:116-122 | `isSecure` holds iff the key ends in `:enc`; the name is the text before the first `:`; the value is copied |
| Transform.EncodeKey | src/App.tsx:163-164 | the key starts with the constant's name and ends in `:enc` when the constant is secure; for a colon-free name, it ends in `:enc` exactly when the constant is secure |
| Transform.EncodeConsts | src/App.tsx:159-165 | a field's `const` object has distinct keys: exactly the constants' encoded keys, without `__proto__` |
| Transform.DecodeValidator | src/App.tsx:128-135 | a validator is copied with `values` read as `enumValues` and `value` as `regex`; the form validator is well-formed exactly when the document validator fits its factory |
| Transform.Label | src/App.tsx:140 | the label is the `ui` label when `ui` is present, and undefined (not `""`) when it is absent |
| Transform.Encode | src/App.tsx:155-198 | the encoded document always has `data.fields`, with distinct keys: exactly the form's field names other than `__proto__` |
| Transform.ProtoFieldLost | src/App.tsx:108-198 | a document field keyed `__proto__` decodes to a form field of that name, and encoding that form gives a document with no fields |
| Transform.NoColonNotSecure | src/App.tsx:118 | a key without a colon never counts as secure |
| Transform.ConstRoundTrip | src/App.tsx:116-122 | a constant with a colon-free name decodes from its encoded key (`name` or `name:enc`) to itself |
| Transform.EncodedKeyCanonical | src/App.tsx:163-164 | every key written for a colon-free name is canonical (no colon, or only the one in `:enc`) |
| Transform.KeyRoundTrip | src/App.tsx:118-119 | re-encoding a decoded key gives the key back if and only if the key is canonical |
| Transform.EncodeConstsLookup | src/App.tsx:162-165 | when two constants encode to one key, the `const` object holds the later one's value; a `__proto__` key is never held |
| Transform.EncodeValidator | src/App.tsx:169-185 | `factory` is always written; min/maxLength only for `length`, value/onMatch only for `regex`, values only for `enum`, copied from the form |
| Transform.ValidatorRoundTrip | src/App.tsx:128-135 | a form validator survives encode-then-decode iff it holds no field foreign to its factory |
| Transform.ValidatorTextRoundTrip | src/App.tsx:169-185 | a document validator survives decode-then-encode iff it holds no field foreign to its factory |
| Transform.Decode | src/App.tsx:108-153 | one form field per field key, in key order, named by the key, with one constant per const key and one validator per validator; hooks are `{pre: [], post: []}` |
| Transform.EncodeFieldsLookup | src/App.tsx:187-194 | the encoded `data.fields` has distinct keys; a name shared by several form fields holds the last such field; a field named `__proto__` is not held |
| Transform.ConstsRoundTrip | src/App.tsx:162-165 | colon-free constants with distinct encoded keys, none `__proto__`, come back unchanged, in order, from encode-then-decode |
| Transform.ValidatorsRoundTrip | src/App.tsx:169-185 | well-formed validators come back unchanged, in order, from encode-then-decode |
| Transform.FieldRoundTrip | src/App.tsx:187-194 | a field whose constants and validators round-trip decodes back from its encoding |
| Transform.FormRoundTrip | src/App.tsx:155-198 | form first: for distinct field names, colon-free constant names with distinct keys, no `__proto__` name or key, and well-formed validators, decoding the encoding gives the same fields in the same order |
| Transform.ConstEntriesRoundTrip | src/App.tsx:114-122 | a `const` object with canonical keys, none `__proto__`, comes back unchanged from decode-then-encode |
| Transform.ValidatorEntriesRoundTrip | src/App.tsx:124-136 | validators holding only their factory's fields come back unchanged from decode-then-encode |
| Transform.SpecRoundTrip | src/App.tsx:138-144 | a document field with `ui`, `const` and `validators` present, canonical keys and fitting validators comes back from decode-then-encode |
| Transform.TextRoundTrip | src/App.tsx:108-153 | text first: such a document, with `fields` present and no field keyed `__proto__`, equals the encoding of its decoding |
| Transform.SecureKeyExamples | src/App.tsx:116-122 | `a:b:enc` decodes to name `a`, secure; `token:enc` with `abc` gives `{token, abc, secure}`; `token` secure encodes as `token:enc`, not secure as `token` |
| Transform.FieldOrderExample | src/App.tsx:111 | field keys in the order `b`, `a` decode in that order and encode back in it |
| Transform.JsonToForm | src/App.tsx:108-153 | the decoding loops build exactly `Decode(doc)` |
| Transform.ConstObject | src/App.tsx:159-165 | the `const` loop builds exactly the object that assigning every encoded pair in order gives |
| Transform.ValidatorArray | src/App.tsx:167-185 | the validator loop builds exactly the encoded validators, in order |
| Transform.FormToJson | src/App.tsx:155-198 | the encoding loops build exactly `Encode(form)` |
| FormEdits.RemoveAt | src/App.tsx:403-405 | deleting at an index removes exactly that element and keeps the others in order; an index past the end removes nothing |
| FormEdits.AddField | src/App.tsx:292-309 | appends one field at the end, named `<count>. Field`, with empty label and inputName and no constants or validators; hooks are kept |
| FormEdits.SetFieldName | src/App.tsx:336-348 | only field `i` changes, and only its name |
| FormEdits.SetFieldInputName | src/App.tsx:357-369 | only field `i` changes, and only its inputName |
| FormEdits.SetFieldLabel | src/App.tsx:379-391 | only field `i` changes, and only its label |
| FormEdits.DeleteField | src/App.tsx:401-410 | the fields become those before `i` followed by those after it; hooks are kept |
| FormEdits.AddConst | src/App.tsx:424-446 | only field `i` changes: one constant `<count+1>. const`, value `""`, not secure, is appended |
| FormEdits.SetConstName | src/App.tsx:473-492 | only constant `j` of field `i` changes, and only its name |
| FormEdits.SetConstValue | src/App.tsx:500-522 | only constant `j` of field `i` changes, and only its value |
| FormEdits.ToggleSecure | src/App.tsx:558-580 | only constant `j` of field `i` changes: its secure flag flips |
| FormEdits.DeleteConst | src/App.tsx:531-547 | only field `i` changes: constant `j` is removed, the others keep their order |
| FormEdits.AddValidator | src/App.tsx:601-621 | only field `i` changes: a validator `{factory: "alpha"}` is appended |
| FormEdits.SetFactory | src/App.tsx:653-680 | validator `j` of field `i` is replaced wholesale by the new factory with every variant field at its default; nothing else changes |
| FormEdits.SetMinLength | src/App.tsx:706-731 | only validator `j` of field `i` changes, and only its minLength |
| FormEdits.SetMaxLength | src/App.tsx:740-765 | only validator `j` of field `i` changes, and only its maxLength |
| FormEdits.SetRegex | src/App.tsx:778-801 | only validator `j` of field `i` changes, and only its pattern |
| FormEdits.SetOnMatch | src/App.tsx:812-839 | only validator `j` of field `i` changes: onMatch becomes `pass` when the switch is on, `fail` when off |
| FormEdits.DeleteValidator | src/App.tsx:850-866 | only field `i` changes: validator `j` is removed, the others keep their order |
| FormEdits.ToggleSecureTwice | src/App.tsx:558-580 | toggling the secure flag twice gives the form back |
| FormEdits.RenameToSameName | src/App.tsx:336-348 | renaming a field to its current name changes neither the form nor the encoded document |
| FormEdits.AddThenDeleteField | src/App.tsx:292-309 | deleting the field just added gives the form back |
| FormEdits.AddThenDeleteConst | src/App.tsx:424-446 | deleting the constant just added gives the form back |
| FormEdits.AddThenDeleteValidator | src/App.tsx:601-621 | deleting the validator just added gives the form back |
| FormEdits.NewConstRoundTrips | src/App.tsx:434 | a new constant's placeholder name is colon-free, so the constant reads back from its encoded key unchanged |
| FormEdits.FactoryChangeEncoding | src/App.tsx:663-670 | after a factory change, the encoded validator holds only the new factory's fields at their defaults (`length`: 0 and 100; `regex`: `""` and `pass`; `enum`: `[]`) |
| FormEdits.HiddenLengthEdit | src/App.tsx:706-765 | editing min/maxLength of a validator whose factory is not `length` leaves the encoded document unchanged |
| FormEdits.HiddenRegexEdit | src/App.tsx:778-839 | editing the pattern or match switch of a validator whose factory is not `regex` leaves the encoded document unchanged |
| FormEdits.PlaceholderNameReuse | src/App.tsx:297 | add two fields, delete the first, add one more: two fields are named `1. Field` and the document then holds only one field |
| Sync.ResetForm | src/App.tsx:210-222 | the reset form has one field, named `test`, with no constants or validators and no hooks; encoding loses nothing of it |
| Sync.ResetFormRoundTrip | src/App.tsx:210-222 | the reset form encodes to the single field `test` with empty inputName, label, `const` and `validators`, and that text decodes back to the same fields |
| Sync.FormFor | src/App.tsx:225-243 | blank or undecodable text gives the reset form; other text gives its decoding, with empty hooks |
| Sync.RenderedFormFor | src/App.tsx:225-259 | text the form wrote, read back by the text effect, gives the form's own fields when encoding loses nothing of the form |
| Sync.ResetExamples | src/App.tsx:225-243 | unparsable text, `{}` and empty text all bring up the reset form |
| Sync.MissingFieldsDecodesEmpty | src/App.tsx:111 | a parsed document without `data.fields` gives a form with no fields and empty hooks, not the reset form |
| Sync.Editor.constructor | src/App.tsx:201-259 | after mount the text is `{}`, the form is the reset form, and both flags are clear |
| Sync.Editor.TextEffect | src/App.tsx:224-248 | with the text flag set, the form becomes the text's decoding, or the reset form for blank or undecodable text; the text is never touched; the form flag ends clear |
| Sync.Editor.FormEffect | src/App.tsx:250-259 | the text is rewritten as the form's encoding only when the form flag is set; both flags end clear |
| Sync.Editor.EditText | src/App.tsx:923-928 | after a text edit, the text is exactly as typed, the form follows it, nothing is encoded, and both flags are clear |
| Sync.Editor.EditForm | src/App.tsx:306-308 | after a form edit, the form is the edited form, the text is its encoding, and both flags are clear |

## Left out

- Rendering: the MUI/JSX layout and widgets (lines 266-934) are not modelled.
- `JSON.parse` and `JSON.stringify(…, null, 2)` are not modelled. Parsing is a parameter of `Sync.Editor.EditText`. Encoded text is the `Rendered` value of the document, without pretty-printing.
- The sample manifest import and its load on mount (lines 23, 261-264) are left out. That effect does the same as a text edit, so it is `Sync.Editor.EditText` with the sample's text.
- `parseInt` in the length handlers is left out. The new bound is an `int` parameter, and NaN and fractions are not modelled. JSON numbers are integers here.
- JavaScript's ordering of integer-like object keys before other keys is left out. Keys iterate in insertion order.
- React scheduling and batching are left out. Each event runs with the effects it triggers as one sequential step.
- Sync.Editor.EditText: it assumes the new text differs from the current one, as a change event does. A set of the same string would not re-run the effect and would leave `isUpdatingFromJson` set.
- Sync.Editor.EditForm: whether the text effect re-runs is decided by comparing `Text` values, not strings. When it does run after a form edit, it changes nothing.
- A parsed document with a repeated key in `fields` or in a `const` is not excluded by the types. `JSON.parse` cannot produce one, and the typed `Manifest` does not say so; the round-trip lemmas require distinct keys.
- Document shapes beyond the typed schema are left out: unknown extra keys, non-string constant values, a `const` or `validators` that is a string or a plain object, and a validator without `factory`. A field or validator that is `null` makes `jsonToForm` throw; the model counts that as a failed parse (`None`).
- The hook buttons do nothing (lines 902, 910), and console logging is left out.
