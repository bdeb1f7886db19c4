/**
 The form encoder: turns a struct whose fields carry `form:"name[,omitempty]"`
 tags into URL form values, a multimap from wire name to the strings
 appended under it.

 Go reflection is replaced by an explicit value model: a struct is the
 ordered list of its fields, each a raw `form` tag (empty when the field has
 none) and a value of one of the kinds the encoder distinguishes.
 */
module Form {
  import opened Wrappers
  import opened Strings
  import opened Strconv

  /** A field value, by the reflect kind the encoder dispatches on. */
  datatype FieldVal =
    | Str(s: string)                 // string
    | SInt(i: int)                   // int, int8 … int64
    | UInt(n: nat)                   // uint, uint8 … uint64
    | Bool(b: bool)
    | Float(x: real)                 // float32, float64
    | Ptr(target: Option<FieldVal>)  // a pointer; None is nil
    | Struct(fields: seq<Field>)     // a (nested) struct
    | Unsupported                    // slice, map, array, interface, uintptr, complex, func, chan

  /** One struct field: the value of its `form` tag and its value. */
  datatype Field = Field(tag: string, val: FieldVal)

  /** A parsed `form` tag. */
  datatype Tag = Tag(name: string, omitEmpty: bool)

  /** `url.Values`: each key maps to the values appended under it, oldest first. */
  type Values = map<string, seq<string>>

  /**
   The encoder's configuration: the package-wide `FloatPrecision` setting
   and the float formatter `strconv.FormatFloat(x, 'f', prec, 64)`, which is
   taken as given rather than modelled.
   */
  datatype Config = Config(floatPrecision: int, formatFloat: (real, int) -> string)

  /** The initial value of `FloatPrecision`: shortest representation that round-trips. */
  const DefaultFloatPrecision: int := -1

  /** The one error the encoder reports. */
  const NotStructError: string := "data must be a struct"

  const OmitEmptyOption: string := "omitempty"

  /** Splits a tag on commas: the trimmed first piece is the wire name, and
      `omitempty` is set when the trimmed second piece is exactly "omitempty". */
  function ParseTag(tag: string): (t: Tag)
    ensures ',' !in t.name
    ensures IsTrimmed(t.name)
  {
    var parts := Split(tag, ',');
    JoinSplit(tag, ',');
    TrimSpaceKeeps(parts[0], ',');
    TrimSpaceTrimmed(parts[0]);
    Tag(TrimSpace(parts[0]), |parts| > 1 && TrimSpace(parts[1]) == OmitEmptyOption)
  }

  /** The values stored under `key`, none if the key is absent. */
  function Lookup(values: Values, key: string): seq<string> {
    if key in values then values[key] else []
  }

  /** `url.Values.Add`: appends `v` to the values of `key`; every other key keeps its values. */
  function Add(values: Values, key: string, v: string): (r: Values)
    ensures r.Keys == values.Keys + {key}
    ensures Lookup(r, key) == Lookup(values, key) + [v]
    ensures forall k | k != key :: Lookup(r, k) == Lookup(values, k)
  {
    values[key := Lookup(values, key) + [v]]
  }

  // The kind-level vocabulary the contracts below are stated in.

  /** The kinds the encoder's switch has a case for. */
  predicate IsScalar(v: FieldVal) {
    v.Str? || v.SInt? || v.UInt? || v.Bool? || v.Float?
  }

  /** The zero value of a scalar kind. */
  predicate IsZero(v: FieldVal) {
    match v
    case Str(s) => s == ""
    case SInt(i) => i == 0
    case UInt(n) => n == 0
    case Bool(b) => !b
    case Float(x) => x == 0.0
    case _ => false
  }

  /** The value the kind switch sees: a non-nil pointer is dereferenced once. */
  function Deref(v: FieldVal): FieldVal {
    if v.Ptr? && v.target.Some? then v.target.value else v
  }

  predicate IsNil(v: FieldVal) {
    v.Ptr? && v.target.None?
  }

  /** A value the encoder can emit: a nil pointer, or a scalar possibly behind one pointer. */
  predicate Supported(v: FieldVal) {
    IsNil(v) || IsScalar(Deref(v))
  }

  /** A value `omitempty` drops: a nil pointer, or a zero scalar possibly behind one pointer. */
  predicate IsEmpty(v: FieldVal) {
    IsNil(v) || IsZero(Deref(v))
  }

  /** The text an empty value is emitted as when `omitempty` is off. */
  function EmptyText(v: FieldVal): string {
    var u := Deref(v);
    if u.SInt? || u.UInt? || u.Float? then "0"
    else if u.Bool? then "false"
    else ""
  }

  /**
   The kind switch on an already dereferenced value: scalars emit their
   text, zero scalars emit their zero text unless `omitempty` is set, and
   every other kind emits nothing.
   */
  function KindText(v: FieldVal, omitEmpty: bool, cfg: Config): (r: Option<string>)
    ensures r.Some? <==> IsScalar(v) && !(omitEmpty && IsZero(v))
    ensures r.Some? && IsZero(v) ==> r.value == EmptyText(v)
    ensures v.Str? && !IsZero(v) ==> r == Some(v.s)
    ensures v.SInt? && !IsZero(v) ==> r == Some(FormatInt(v.i))
    ensures v.UInt? && !IsZero(v) ==> r == Some(FormatUint(v.n))
    ensures v == Bool(true) ==> r == Some("true")
    ensures v.Float? && !IsZero(v) ==> r == Some(cfg.formatFloat(v.x, cfg.floatPrecision))
  {
    match v
    case Str(s) =>
      if s != "" then Some(s) else if !omitEmpty then Some("") else None
    case SInt(i) =>
      if i != 0 then Some(FormatInt(i)) else if !omitEmpty then Some("0") else None
    case UInt(n) =>
      if n != 0 then Some(FormatUint(n)) else if !omitEmpty then Some("0") else None
    case Bool(b) =>
      if b then Some("true") else if !omitEmpty then Some("false") else None
    case Float(x) =>
      if x != 0.0 then Some(cfg.formatFloat(x, cfg.floatPrecision))
      else if !omitEmpty then Some("0") else None
    case _ => None
  }

  /**
   The string one field's value appends, if any: a nil pointer appends ""
   unless `omitempty` is set, a non-nil pointer is dereferenced once, and
   the kind switch decides the rest.
   */
  function FieldText(v: FieldVal, omitEmpty: bool, cfg: Config): (r: Option<string>)
    ensures r.Some? <==> Supported(v) && !(omitEmpty && IsEmpty(v))
    ensures r.Some? && IsEmpty(v) ==> r.value == EmptyText(v)
    ensures Deref(v).Str? && !IsEmpty(v) ==> r == Some(Deref(v).s)
    ensures Deref(v).SInt? && !IsEmpty(v) ==> r == Some(FormatInt(Deref(v).i))
    ensures Deref(v).UInt? && !IsEmpty(v) ==> r == Some(FormatUint(Deref(v).n))
    ensures Deref(v) == Bool(true) ==> r == Some("true")
    ensures Deref(v).Float? && !IsEmpty(v) ==> r == Some(cfg.formatFloat(Deref(v).x, cfg.floatPrecision))
  {
    match v
    case Ptr(None) => if omitEmpty then None else Some("")
    case Ptr(Some(u)) => KindText(u, omitEmpty, cfg)
    case _ => KindText(v, omitEmpty, cfg)
  }

  /** What field `f` contributes under `key`: at most one string, and only under its own non-empty wire name. */
  function Emitted(f: Field, key: string, cfg: Config): (e: seq<string>)
    ensures |e| <= 1
    ensures e != [] <==> key != "" && key == ParseTag(f.tag).name && FieldText(f.val, ParseTag(f.tag).omitEmpty, cfg).Some?
    ensures key != "" && key == ParseTag(f.tag).name && FieldText(f.val, ParseTag(f.tag).omitEmpty, cfg).Some?
            ==> e == [FieldText(f.val, ParseTag(f.tag).omitEmpty, cfg).value]
  {
    var t := ParseTag(f.tag);
    if key == "" || key != t.name then []
    else match FieldText(f.val, t.omitEmpty, cfg)
      case None => []
      case Some(text) => [text]
  }

  /** The per-key view of an encoding: the strings the fields emit under `key`, in field order. */
  function ValuesFor(fields: seq<Field>, key: string, cfg: Config): seq<string> {
    if fields == [] then [] else Emitted(fields[0], key, cfg) + ValuesFor(fields[1..], key, cfg)
  }

  /** One iteration of the encoder's loop: processing field `f` adds only what `f` emits. */
  function EncodeField(values: Values, f: Field, cfg: Config): (r: Values)
    ensures forall k :: Lookup(r, k) == Lookup(values, k) + Emitted(f, k, cfg)
    ensures forall k :: k in r <==> k in values || Emitted(f, k, cfg) != []
  {
    var t := ParseTag(f.tag);
    if t.name == "" then
      values
    else
      match FieldText(f.val, t.omitEmpty, cfg)
      case None => values
      case Some(text) => Add(values, t.name, text)
  }

  lemma AppendAssoc<T>(a: seq<T>, b: seq<T>, c: seq<T>)
    ensures (a + b) + c == a + (b + c)
  {
  }

  /** The encoder's loop over the fields, in declaration order. */
  function EncodeFrom(values: Values, fields: seq<Field>, cfg: Config): (r: Values)
    ensures forall k :: Lookup(r, k) == Lookup(values, k) + ValuesFor(fields, k, cfg)
    ensures forall k :: k in r <==> k in values || ValuesFor(fields, k, cfg) != []
    decreases |fields|
  {
    if fields == [] then
      values
    else
      var next := EncodeField(values, fields[0], cfg);
      var r := EncodeFrom(next, fields[1..], cfg);
      assert forall k :: Lookup(r, k) == Lookup(values, k) + ValuesFor(fields, k, cfg) by {
        forall k {
          AppendAssoc(Lookup(values, k), Emitted(fields[0], k, cfg), ValuesFor(fields[1..], k, cfg));
        }
      }
      r
  }

  /**
   `EncodeFormValues`: a struct encodes to the values its fields emit, key
   by key in field order; anything else fails with the fixed error.
   */
  function EncodeFormValues(data: FieldVal, cfg: Config): (r: Result<Values, string>)
    ensures r.Failure? <==> !data.Struct?
    ensures r.Failure? ==> r.error == NotStructError
    ensures r.Success? ==> forall k :: Lookup(r.value, k) == ValuesFor(data.fields, k, cfg)
    ensures r.Success? ==> forall k :: k in r.value <==> ValuesFor(data.fields, k, cfg) != []
  {
    match data
    case Struct(fields) => Success(EncodeFrom(map[], fields, cfg))
    case _ => Failure(NotStructError)
  }
}
