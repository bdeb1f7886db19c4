# Form encoder model

A Dafny model of the Go function `EncodeFormValues` in `form.go`. It turns a
struct whose fields carry `form:"name[,omitempty]"` tags into `url.Values`,
a multimap from wire name to a list of strings, and rejects any
non-struct argument with the error "data must be a struct".

Go reflection is replaced by an explicit value model (`Form.FieldVal`):

- A struct is the ordered list of its fields.
- Each field is a raw `form` tag and a value of one of the kinds the encoder
  distinguishes: string, signed integer, unsigned integer, bool, float,
  pointer (nil or not), nested struct, or anything else.

The encoder is a pure left fold (`Form.EncodeFrom`) over the fields. One
iteration (`Form.EncodeField`) does the following:

- parses the tag: it splits on commas, trims the first piece into the wire
  name, and checks whether the trimmed second piece is exactly "omitempty";
- skips fields with an empty name;
- follows one level of pointer, handling a nil pointer separately;
- runs the kind switch, which appends one string or nothing.

The encoder's contract is stated against `Form.ValuesFor`, the strings the
fields emit under one key, in field order.

Modules:

- `Wrappers`: `Option` and `Result`.
- `Strings`: Go's `strings.Split` on one character, its inverse `Join`, and
  `strings.TrimSpace` with the white-space set of `unicode.IsSpace`. A string
  is its sequence of runes.
- `Strconv`: `strconv.FormatInt` and `strconv.FormatUint` in base 10, with
  the parser `ReadDecimal` as their inverse.
- `Form`: the data model and the encoder.
- `FormProperties`: how tags are read, the emit/omit decision table, facts
  about whole structs, and the test scenarios stated for any field names.

The package-wide `FloatPrecision` variable (`form.go:37`, initially -1) is
not global state here. It is the `floatPrecision` field of a `Form.Config`
passed to the encoder, next to `formatFloat`, which stands for
`strconv.FormatFloat(x, 'f', prec, 64)` and is taken as given.

Two consequences of the code:

- `url.Values` is a Go map, so the result has no key order. Within one key,
  values keep field order.
- A non-nil pointer to a zero value with `omitempty` is skipped, like the
  zero value itself (`form.go:81-127`).

## Model

| member | source | states |
|---|---|---|
| Form.EncodeFormValues | form.go:53-131 | fails exactly when the argument is not a struct, always with "data must be a struct"; a struct never fails, and each key of its encoding holds exactly the values its fields emit under that key, in field order, and is present exactly when that list is non-empty |
| Form.EncodeFrom | form.go:61-128 | the field loop: starting from any values, each key ends with its old values followed by what the fields emit under it, in field order; no key appears unless it was there or some field emitted under it |
| Form.EncodeField | form.go:64-127 | one iteration changes only the key the field emits under, appending exactly what the field emits; every other key keeps its values and membership |
| Form.Emitted | form.go:73-127 | a field contributes at most one string; it contributes under `key` exactly when `key` is its own non-empty wire name and its value has a text (so an `omitempty`-dropped or unsupported value contributes nothing), and then the string is that text |
| Form.FieldText | form.go:81-127 | a value emits exactly when its kind is supported (a scalar, possibly behind one pointer, or a nil pointer) and it is not both empty and under `omitempty`; empty values emit "", "0" or "false"; non-empty strings emit themselves, integers their decimal text, true "true", and floats the configured formatter's output at the configured precision |
| Form.KindText | form.go:96-127 | the kind switch: a value emits exactly when it is a string, integer, bool or float and not both zero and under `omitempty`; zero values emit "", "0" or "false"; non-zero strings emit themselves, integers their decimal text, true "true", floats the configured formatter's output at the configured precision; every other kind emits nothing |
| Form.ParseTag | form.go:66-71 | the wire name holds no comma and has no white space at either end |
| Form.Add | form.go:91 | `url.Values.Add`: the key gains exactly the new value at the end; every other key keeps its values; the key set grows by the key alone |
| Strings.Split | form.go:66 | splitting always yields at least one piece, so the first piece the parser trims always exists |
| Strings.JoinSplit | form.go:66 | the pieces contain no separator, and joining them with it restores the tag |
| Strings.SplitJoin | form.go:66 | splitting a join of separator-free pieces returns those pieces, so split and join are inverse |
| Strings.SplitNoSep | form.go:66 | a tag without a comma is a single piece |
| Strings.SplitAtFirst | form.go:66-67 | the first piece is exactly the text before the first comma |
| Strings.IsSpace | form.go:67 | the white-space set of Go's `unicode.IsSpace`, which `strings.TrimSpace` cuts |
| Strings.IsSpaceLatin1 | form.go:67 | below U+0100 the white space is exactly tab, newline, vertical tab, form feed, carriage return, space, U+0085 and U+00A0 |
| Strings.TrimSpace | form.go:67-69 | `strings.TrimSpace`: never longer than its input and no white space left at either end; with `TrimSpaceSlice` and `TrimSpacePadded` this pins it down: the slice between a leading and a trailing run of white space |
| Strings.TrimLeftSuffix | form.go:67 | left trimming removes only white space and leaves a suffix that does not start with white space |
| Strings.TrimRightPrefix | form.go:67 | right trimming removes only white space and leaves a prefix that does not end with white space |
| Strings.TrimSpaceSlice | form.go:67 | the trimmed name is a slice of the piece, with only white space cut on either side and none left at its ends |
| Strings.TrimSpacePadded | form.go:67 | trimming a trimmed core padded with white space returns exactly the core |
| Strings.TrimSpaceOfTrimmed | form.go:67 | trimming a string with no white space at its ends changes nothing |
| Strings.TrimSpaceTrimmed | form.go:67 | no white space remains at either end after trimming |
| Strings.TrimSpaceKeeps | form.go:67 | trimming introduces no character that was not there |
| Strconv.NatToDecimal | form.go:105 | the decimal spelling is canonical (digits, no leading zero) and is "0" exactly for zero |
| Strconv.FormatUint | form.go:111 | base-10 text of an unsigned value: canonical, and "0" exactly for zero |
| Strconv.FormatInt | form.go:105 | base-10 text of a signed value: a leading '-' exactly for negatives, then the canonical magnitude; "0" exactly for zero |
| Strconv.DecimalRoundTrip | form.go:105 | reading back the decimal spelling of a natural number gives that number |
| Strconv.CanonicalRoundTrip | form.go:111 | spelling the value of a canonical numeral gives the numeral back |
| Strconv.FormatIntRoundTrip | form.go:105 | parsing the formatted text of every integer gives back the integer |
| Strconv.FormatIntInjective | form.go:105 | distinct integers are emitted as distinct text |
| Strconv.FormatIntExample | form_test.go:156-158 | 123 is emitted as "123" |
| FormProperties.ParseTagNoComma | form.go:66-71 | a tag without a comma is all name, trimmed, and never sets `omitempty` |
| FormProperties.ParseTagSegments | form.go:66-71 | for a tag `a,b...`, the name is `a` trimmed and `omitempty` holds exactly when `b` trimmed is "omitempty"; anything after a second comma is ignored |
| FormProperties.ParseTagRoundTrip | form.go:66-71 | reading the tag written for a trimmed, comma-free name, with or without `,omitempty`, recovers the name and the flag |
| FormProperties.OptionIsCaseSensitive | form.go:69 | "OmitEmpty" in the second segment does not set the flag |
| FormProperties.SegmentsAreTrimmed | form.go:66-69 | white space around the name and the option is ignored, and so is a third segment |
| FormProperties.OptionOnlySecond | form.go:69 | "omitempty" in the third segment does not set the flag |
| FormProperties.EmptyNames | form.go:66-67 | an empty or blank tag, or one starting with a comma, gives the empty name |
| FormProperties.UntaggedStructEncodesEmpty | form.go:73-76 | a struct none of whose fields has a name encodes to the empty map |
| FormProperties.OmitEmptyDropsOnlyEmpty | form.go:96-127 | `omitempty` drops exactly the empty values and leaves every other value's text unchanged |
| FormProperties.ZeroValueTexts | form.go:97-126 | without `omitempty`, zero string, int, uint, bool and float emit "", "0", "0", "false" and "0" at any float precision |
| FormProperties.NilPointerText | form.go:84-93 | a nil pointer emits "" without `omitempty` and nothing with it |
| FormProperties.PointerActsAsPointee | form.go:81-94 | a non-nil pointer to a non-pointer emits exactly what its pointee emits |
| FormProperties.PointerToPointerEmitsNothing | form.go:81-96 | only one pointer level is followed: a pointer to a pointer emits nothing |
| FormProperties.UnsupportedEmitsNothing | form.go:96-127 | nested structs and the kinds outside the switch emit nothing, directly or behind a pointer |
| FormProperties.NonZeroIntegerText | form.go:103-114 | non-zero signed and unsigned integers are emitted, with or without `omitempty`, as text that parses back to the number |
| FormProperties.KeysComeFromTaggedFields | form.go:61-128 | every key of an encoding is the non-empty wire name of some field that emitted under it |
| FormProperties.NoEmptyValueLists | form.go:91 | no key of an encoding holds an empty list |
| FormProperties.SilentFieldIrrelevant | form.go:64-128 | removing a field that emits nothing does not change the encoding |
| FormProperties.NestedStructIgnored | form_test.go:244-256 | removing a nested-struct field does not change the encoding, whatever tags its own fields carry |
| FormProperties.UniqueNameValue | form.go:74-127 | with unique wire names, a field that emits is alone under its name with its text, and a field that emits nothing leaves its name absent |
| FormProperties.UniqueNamesSingleValues | form.go:61-128 | with unique wire names, every key holds exactly one value |
| FormProperties.SupportedFieldPresent | form.go:84-126 | without `omitempty`, every named field of a supported kind puts its name in the encoding |
| FormProperties.NonStructRejected | form_test.go:8-16 | a string argument, or a pointer to a struct, is rejected with "data must be a struct" |
| FormProperties.PlainScenario | form_test.go:139-172 | a string "abc" and an int 123 under plain tags encode to exactly `{name0: ["abc"], name1: ["123"]}` |
| FormProperties.ZeroAllScenario | form_test.go:209-241 | a zero string and int under plain tags encode to exactly `{name0: [""], name1: ["0"]}` |
| FormProperties.OmitEmptyScenario | form_test.go:293-316 | under `,omitempty` tags, "abc" is kept and the zero int vanishes: exactly `{name0: ["abc"]}` |
| FormProperties.PointerScenario | form_test.go:373-440 | without `omitempty`, a pointer to 0 emits "0" and a nil pointer emits "" |

## Left out

- Go reflection is not modelled: `reflect.ValueOf`, `Kind`, `Elem`, `NumField` and the `reflect.StructTag.Get` grammar. A struct is an explicit list of (raw `form` tag, value) pairs, and the tag string is taken as `Get` would return it.
- Float formatting is not modelled. `strconv.FormatFloat` is floating-point numerics, so it is the uninterpreted `Config.formatFloat`, applied to the value and the precision. NaN, infinities and negative zero are not values of `real`: negative zero counts as zero in Go too, and NaN and the infinities would reach the formatter.
- The mutable `FloatPrecision` global is not modelled as state. It becomes `Config.floatPrecision`, whose initial value is `Form.DefaultFloatPrecision`.
- Integer bit widths are not modelled. Integers are unbounded, and the widths only limit which values reach the formatter.
- Unsupported kinds (slices, maps, arrays, interfaces, channels, functions, `uintptr`, complex) are one constructor, `Unsupported`, since the switch treats them all the same.
- Key order and percent-encoding of `url.Values` are library behaviour. The result is an unordered map, as in Go.
- Invalid UTF-8 in tags is not modelled: a string is its sequence of runes.
- Repeated calls with the same input give the same result, because the model is a pure function, so no separate idempotence lemma is stated.
- The test harness, `urlValuesEqual` and the pointer helper constructors in `form_test.go` are scaffolding and are not modelled. The test cases are stated as scenario lemmas over arbitrary distinct, trimmed, comma-free field names, with two representative fields each.
