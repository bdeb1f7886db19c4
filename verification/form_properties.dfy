/**
 Properties of the form encoder: how tags are read, the emit/omit decision
 table for one field, and what a whole struct encodes to.
 */
module FormProperties {
  import opened Wrappers
  import opened Strings
  import opened Strconv
  import opened Form

  // ---------------------------------------------------------------------------
  // Tags
  // ---------------------------------------------------------------------------

  /** The tag a Go programmer writes for a wire name, with or without the option. */
  function FormatTag(name: string, omitEmpty: bool): string {
    if omitEmpty then name + "," + OmitEmptyOption else name
  }

  /** A tag without a comma is all name, trimmed, and never sets `omitempty`. */
  lemma ParseTagNoComma(a: string)
    requires ',' !in a
    ensures ParseTag(a) == Tag(TrimSpace(a), false)
  {
    SplitNoSep(a, ',');
  }

  /**
   A tag with a comma: the name is the trimmed text before the first comma,
   and `omitempty` holds exactly when the trimmed second segment is
   "omitempty" (case-sensitive); whatever follows a second comma is ignored.
   */
  lemma ParseTagSegments(a: string, b: string, rest: string)
    requires ',' !in a && ',' !in b
    requires rest == [] || rest[0] == ','
    ensures ParseTag(a + [','] + b + rest) == Tag(TrimSpace(a), TrimSpace(b) == OmitEmptyOption)
  {
    assert a + [','] + b + rest == a + [','] + (b + rest);
    SplitAtFirst(a, ',', b + rest);
    if rest == [] {
      assert b + rest == b;
      SplitNoSep(b, ',');
    } else {
      assert b + rest == b + [','] + rest[1..];
      SplitAtFirst(b, ',', rest[1..]);
    }
  }

  /** Reading back a tag written for a trimmed, comma-free name recovers the name and the option. */
  lemma ParseTagRoundTrip(name: string, omitEmpty: bool)
    requires ',' !in name && IsTrimmed(name)
    ensures ParseTag(FormatTag(name, omitEmpty)) == Tag(name, omitEmpty)
  {
    TrimSpaceOfTrimmed(name);
    if omitEmpty {
      TrimSpaceOfTrimmed(OmitEmptyOption);
      assert FormatTag(name, omitEmpty) == name + [','] + OmitEmptyOption + [];
      ParseTagSegments(name, OmitEmptyOption, []);
    } else {
      ParseTagNoComma(name);
    }
  }

  /** The option name is matched case-sensitively: "OmitEmpty" is not "omitempty". */
  lemma OptionIsCaseSensitive(name: string)
    requires ',' !in name && IsTrimmed(name)
    ensures ParseTag(name + ",OmitEmpty") == Tag(name, false)
  {
    assert name + ",OmitEmpty" == name + [','] + "OmitEmpty" + [];
    TrimSpaceOfTrimmed(name);
    TrimSpaceOfTrimmed("OmitEmpty");
    ParseTagSegments(name, "OmitEmpty", []);
  }

  /** White space around either segment is ignored, and so is everything after a second comma. */
  lemma SegmentsAreTrimmed(name: string, pad: string, rest: string)
    requires ',' !in name && IsTrimmed(name)
    requires ',' !in pad && AllSpace(pad)
    ensures ParseTag(pad + name + pad + "," + pad + OmitEmptyOption + pad + "," + rest) == Tag(name, true)
  {
    var a := pad + name + pad;
    var b := pad + OmitEmptyOption + pad;
    assert pad + name + pad + "," + pad + OmitEmptyOption + pad + "," + rest == a + [','] + b + ([','] + rest);
    TrimSpacePadded(pad, name, pad);
    TrimSpacePadded(pad, OmitEmptyOption, pad);
    ParseTagSegments(a, b, [','] + rest);
  }

  /** The option counts only in second position. */
  lemma OptionOnlySecond(name: string, other: string)
    requires ',' !in name && IsTrimmed(name)
    requires ',' !in other && TrimSpace(other) != OmitEmptyOption
    ensures ParseTag(name + "," + other + "," + OmitEmptyOption) == Tag(name, false)
  {
    assert name + "," + other + "," + OmitEmptyOption == name + [','] + other + ("," + OmitEmptyOption);
    TrimSpaceOfTrimmed(name);
    ParseTagSegments(name, other, "," + OmitEmptyOption);
  }

  /** An absent tag, a blank tag, and a tag that starts with a comma all give the empty name. */
  lemma EmptyNames(pad: string, rest: string)
    requires ',' !in pad && AllSpace(pad)
    ensures ParseTag(pad) == Tag("", false)
    ensures ParseTag(pad + "," + rest).name == ""
  {
    ParseTagNoComma(pad);
    TrimSpacePadded(pad, [], []);
    assert pad + [] + [] == pad;
    assert pad + "," + rest == pad + [','] + rest;
    SplitAtFirst(pad, ',', rest);
  }

  // ---------------------------------------------------------------------------
  // One field: the emit/omit decision table
  // ---------------------------------------------------------------------------

  /** `omitempty` drops exactly the empty values and leaves every other value's text unchanged. */
  lemma OmitEmptyDropsOnlyEmpty(v: FieldVal, cfg: Config)
    ensures FieldText(v, true, cfg) == if IsEmpty(v) then None else FieldText(v, false, cfg)
  {
  }

  /** Without `omitempty`, zero values are emitted as "", "0", "false" and "0", whatever the float precision. */
  lemma ZeroValueTexts(cfg: Config)
    ensures FieldText(Str(""), false, cfg) == Some("")
    ensures FieldText(SInt(0), false, cfg) == Some("0")
    ensures FieldText(UInt(0), false, cfg) == Some("0")
    ensures FieldText(Bool(false), false, cfg) == Some("false")
    ensures FieldText(Float(0.0), false, cfg) == Some("0")
  {
  }

  /** A nil pointer emits "" without `omitempty` and nothing with it. */
  lemma NilPointerText(omitEmpty: bool, cfg: Config)
    ensures FieldText(Ptr(None), omitEmpty, cfg) == if omitEmpty then None else Some("")
  {
  }

  /** A non-nil pointer to a non-pointer emits exactly what its pointee would. */
  lemma PointerActsAsPointee(u: FieldVal, omitEmpty: bool, cfg: Config)
    requires !u.Ptr?
    ensures FieldText(Ptr(Some(u)), omitEmpty, cfg) == FieldText(u, omitEmpty, cfg)
  {
  }

  /** Only one pointer level is followed: a pointer to a pointer emits nothing, nil or not. */
  lemma PointerToPointerEmitsNothing(p: Option<FieldVal>, omitEmpty: bool, cfg: Config)
    ensures FieldText(Ptr(Some(Ptr(p))), omitEmpty, cfg) == None
  {
  }

  /** Nested structs and the other unsupported kinds emit nothing and raise no error. */
  lemma UnsupportedEmitsNothing(v: FieldVal, omitEmpty: bool, cfg: Config)
    requires v.Struct? || v.Unsupported?
    ensures FieldText(v, omitEmpty, cfg) == None
    ensures FieldText(Ptr(Some(v)), omitEmpty, cfg) == None
  {
  }

  /** Non-zero integers are emitted as decimal text that reads back as the same number. */
  lemma NonZeroIntegerText(i: int, n: nat, omitEmpty: bool, cfg: Config)
    requires i != 0 && n != 0
    ensures FieldText(SInt(i), omitEmpty, cfg).Some?
    ensures ReadDecimal(FieldText(SInt(i), omitEmpty, cfg).value) == Some(i)
    ensures FieldText(UInt(n), omitEmpty, cfg).Some?
    ensures ReadDecimal(FieldText(UInt(n), omitEmpty, cfg).value) == Some(n)
  {
    FormatIntRoundTrip(i);
    FormatIntRoundTrip(n);
  }

  // ---------------------------------------------------------------------------
  // Whole structs
  // ---------------------------------------------------------------------------

  /** A field that emits nothing under any key. */
  predicate Silent(f: Field, cfg: Config) {
    ParseTag(f.tag).name == "" || FieldText(f.val, ParseTag(f.tag).omitEmpty, cfg).None?
  }

  /** Field names are unique among the tagged fields. */
  predicate UniqueNames(fields: seq<Field>) {
    forall i, j | 0 <= i < j < |fields| ::
      ParseTag(fields[i].tag).name != "" ==> ParseTag(fields[i].tag).name != ParseTag(fields[j].tag).name
  }

  lemma {:induction false} ValuesForAppend(a: seq<Field>, b: seq<Field>, key: string, cfg: Config)
    ensures ValuesFor(a + b, key, cfg) == ValuesFor(a, key, cfg) + ValuesFor(b, key, cfg)
    decreases |a|
  {
    if a != [] {
      assert (a + b)[0] == a[0] && (a + b)[1..] == a[1..] + b;
      ValuesForAppend(a[1..], b, key, cfg);
      assert ValuesFor(a + b, key, cfg) == Emitted(a[0], key, cfg) + ValuesFor(a[1..] + b, key, cfg);
      AppendAssoc(Emitted(a[0], key, cfg), ValuesFor(a[1..], key, cfg), ValuesFor(b, key, cfg));
    } else {
      assert a + b == b;
    }
  }

  /** A non-empty per-key view comes from some field that emits under that key. */
  lemma {:induction false} ValuesForWitness(fields: seq<Field>, key: string, cfg: Config) returns (i: nat)
    requires ValuesFor(fields, key, cfg) != []
    ensures i < |fields| && Emitted(fields[i], key, cfg) != []
    decreases |fields|
  {
    if Emitted(fields[0], key, cfg) != [] {
      i := 0;
    } else {
      var j := ValuesForWitness(fields[1..], key, cfg);
      i := j + 1;
    }
  }

  /** No field named `key` means nothing under `key`. */
  lemma {:induction false} ValuesForAbsent(fields: seq<Field>, key: string, cfg: Config)
    requires forall i | 0 <= i < |fields| :: ParseTag(fields[i].tag).name != key
    ensures ValuesFor(fields, key, cfg) == []
    decreases |fields|
  {
    if fields != [] {
      ValuesForAbsent(fields[1..], key, cfg);
    }
  }

  /** Every key of the encoding is the non-empty wire name of a field that emitted under it. */
  lemma KeysComeFromTaggedFields(fields: seq<Field>, cfg: Config, key: string)
    ensures key in EncodeFormValues(Struct(fields), cfg).value ==>
              exists i | 0 <= i < |fields| ::
                key != "" && ParseTag(fields[i].tag).name == key && !Silent(fields[i], cfg)
  {
    if key in EncodeFormValues(Struct(fields), cfg).value {
      var i := ValuesForWitness(fields, key, cfg);
    }
  }

  /** Every key holds at least one value: `Add` never leaves an empty list behind. */
  lemma NoEmptyValueLists(fields: seq<Field>, cfg: Config, key: string)
    ensures key in EncodeFormValues(Struct(fields), cfg).value ==>
              EncodeFormValues(Struct(fields), cfg).value[key] != []
  {
    assert Lookup(EncodeFormValues(Struct(fields), cfg).value, key) == ValuesFor(fields, key, cfg);
  }

  /** A struct with no tagged field encodes to no values at all. */
  lemma UntaggedStructEncodesEmpty(fields: seq<Field>, cfg: Config)
    requires forall i | 0 <= i < |fields| :: ParseTag(fields[i].tag).name == ""
    ensures EncodeFormValues(Struct(fields), cfg) == Success(map[])
  {
    var r := EncodeFormValues(Struct(fields), cfg).value;
    forall key | key in r
      ensures false
    {
      KeysComeFromTaggedFields(fields, cfg, key);
    }
    assert r == map[];
  }

  /** Two value maps that agree on every key's membership and values are equal. */
  lemma ValuesExt(a: Values, b: Values)
    requires forall k :: k in a <==> k in b
    requires forall k :: Lookup(a, k) == Lookup(b, k)
    ensures a == b
  {
    forall k | k in a
      ensures a[k] == b[k]
    {
      assert Lookup(a, k) == Lookup(b, k);
    }
  }

  /** A silent field emits nothing under any key. */
  lemma SilentEmitsNothing(f: Field, key: string, cfg: Config)
    requires Silent(f, cfg)
    ensures Emitted(f, key, cfg) == []
  {
  }

  /** The per-key view of a single field is what that field emits. */
  lemma ValuesForSingleton(f: Field, key: string, cfg: Config)
    ensures ValuesFor([f], key, cfg) == Emitted(f, key, cfg)
  {
    assert ValuesFor([f], key, cfg) == Emitted(f, key, cfg) + ValuesFor([], key, cfg);
  }

  /** Per key, removing a silent field leaves the values unchanged. */
  lemma SilentFieldKey(fields: seq<Field>, i: nat, cfg: Config, key: string)
    requires i < |fields| && Silent(fields[i], cfg)
    ensures ValuesFor(fields, key, cfg) == ValuesFor(fields[..i] + fields[i + 1..], key, cfg)
  {
    var pre, f, tail := fields[..i], fields[i], fields[i + 1..];
    assert fields == pre + ([f] + tail);
    assert ValuesFor([f] + tail, key, cfg) == ValuesFor(tail, key, cfg) by {
      SilentEmitsNothing(f, key, cfg);
      ValuesForSingleton(f, key, cfg);
      ValuesForAppend([f], tail, key, cfg);
    }
    ValuesForAppend(pre, [f] + tail, key, cfg);
    ValuesForAppend(pre, tail, key, cfg);
  }

  /** Removing a field that emits nothing does not change the encoding. */
  lemma SilentFieldIrrelevant(fields: seq<Field>, i: nat, cfg: Config)
    requires i < |fields| && Silent(fields[i], cfg)
    ensures EncodeFormValues(Struct(fields), cfg) == EncodeFormValues(Struct(fields[..i] + fields[i + 1..]), cfg)
  {
    var rest := fields[..i] + fields[i + 1..];
    forall key {
      SilentFieldKey(fields, i, cfg, key);
    }
    ValuesExt(EncodeFormValues(Struct(fields), cfg).value, EncodeFormValues(Struct(rest), cfg).value);
  }

  /** A nested struct field contributes nothing, whatever tags its own fields carry. */
  lemma NestedStructIgnored(fields: seq<Field>, i: nat, cfg: Config)
    requires i < |fields| && fields[i].val.Struct?
    ensures EncodeFormValues(Struct(fields), cfg) == EncodeFormValues(Struct(fields[..i] + fields[i + 1..]), cfg)
  {
    SilentFieldIrrelevant(fields, i, cfg);
  }

  /**
   With unique wire names, a field that emits is found alone under its own
   name, and a field whose name does not emit leaves its name absent.
   */
  lemma UniqueNameValue(fields: seq<Field>, i: nat, cfg: Config)
    requires UniqueNames(fields)
    requires i < |fields| && ParseTag(fields[i].tag).name != ""
    ensures var t := ParseTag(fields[i].tag);
            var r := EncodeFormValues(Struct(fields), cfg).value;
            match FieldText(fields[i].val, t.omitEmpty, cfg)
            case Some(text) => t.name in r && r[t.name] == [text]
            case None => t.name !in r
  {
    var key := ParseTag(fields[i].tag).name;
    var pre, f, tail := fields[..i], fields[i], fields[i + 1..];
    assert ValuesFor(fields, key, cfg) == Emitted(f, key, cfg) by {
      assert fields == pre + ([f] + tail);
      ValuesForAbsent(pre, key, cfg);
      ValuesForAbsent(tail, key, cfg);
      ValuesForSingleton(f, key, cfg);
      ValuesForAppend([f], tail, key, cfg);
      ValuesForAppend(pre, [f] + tail, key, cfg);
    }
  }

  /** With unique wire names, every key holds exactly one value. */
  lemma UniqueNamesSingleValues(fields: seq<Field>, cfg: Config, key: string)
    requires UniqueNames(fields)
    requires key in EncodeFormValues(Struct(fields), cfg).value
    ensures |EncodeFormValues(Struct(fields), cfg).value[key]| == 1
  {
    var i := ValuesForWitness(fields, key, cfg);
    UniqueNameValue(fields, i, cfg);
  }

  /** Without `omitempty`, every tagged field of a supported kind puts its name in the encoding. */
  lemma SupportedFieldPresent(fields: seq<Field>, i: nat, cfg: Config)
    requires i < |fields| && ParseTag(fields[i].tag).name != ""
    requires !ParseTag(fields[i].tag).omitEmpty && Supported(fields[i].val)
    ensures ParseTag(fields[i].tag).name in EncodeFormValues(Struct(fields), cfg).value
  {
    var key := ParseTag(fields[i].tag).name;
    assert fields == fields[..i] + ([fields[i]] + fields[i + 1..]);
    ValuesForAppend(fields[..i], [fields[i]] + fields[i + 1..], key, cfg);
    ValuesForAppend([fields[i]], fields[i + 1..], key, cfg);
    assert ValuesFor([fields[i]], key, cfg) == Emitted(fields[i], key, cfg);
  }

  // ---------------------------------------------------------------------------
  // Scenarios
  // ---------------------------------------------------------------------------

  /** A string at the top level is rejected with the fixed message. */
  lemma NonStructRejected(cfg: Config)
    ensures EncodeFormValues(Str("This is not a struct"), cfg) == Failure("data must be a struct")
    ensures EncodeFormValues(Ptr(Some(Struct([]))), cfg).Failure?
  {
  }

  lemma TwoFieldKey(f0: Field, f1: Field, cfg: Config, key: string)
    ensures ValuesFor([f0, f1], key, cfg) == Emitted(f0, key, cfg) + Emitted(f1, key, cfg)
  {
    assert [f0, f1][1..] == [f1] && [f1][1..] == [];
    assert ValuesFor([f1], key, cfg) == Emitted(f1, key, cfg) + ValuesFor([], key, cfg);
    assert ValuesFor([f0, f1], key, cfg) == Emitted(f0, key, cfg) + ValuesFor([f1], key, cfg);
  }

  /** Key by key, two fields with distinct names that both emit give a two-key map. */
  lemma TwoFieldLookup(f0: Field, f1: Field, cfg: Config, t0: string, t1: string, k: string)
    requires ParseTag(f0.tag).name != "" && ParseTag(f1.tag).name != ""
    requires ParseTag(f0.tag).name != ParseTag(f1.tag).name
    requires FieldText(f0.val, ParseTag(f0.tag).omitEmpty, cfg) == Some(t0)
    requires FieldText(f1.val, ParseTag(f1.tag).omitEmpty, cfg) == Some(t1)
    ensures ValuesFor([f0, f1], k, cfg) == Lookup(map[ParseTag(f0.tag).name := [t0], ParseTag(f1.tag).name := [t1]], k)
    ensures k in map[ParseTag(f0.tag).name := [t0], ParseTag(f1.tag).name := [t1]] <==> ValuesFor([f0, f1], k, cfg) != []
  {
    TwoFieldKey(f0, f1, cfg, k);
    var n0, n1 := ParseTag(f0.tag).name, ParseTag(f1.tag).name;
    if k == n0 {
      assert Emitted(f0, k, cfg) == [t0] && Emitted(f1, k, cfg) == [];
    } else if k == n1 {
      assert Emitted(f0, k, cfg) == [] && Emitted(f1, k, cfg) == [t1];
    } else {
      assert Emitted(f0, k, cfg) == [] && Emitted(f1, k, cfg) == [];
    }
  }

  /** Two fields with distinct names that both emit give a two-key map. */
  lemma TwoFieldEncoding(f0: Field, f1: Field, cfg: Config, t0: string, t1: string)
    requires ParseTag(f0.tag).name != "" && ParseTag(f1.tag).name != ""
    requires ParseTag(f0.tag).name != ParseTag(f1.tag).name
    requires FieldText(f0.val, ParseTag(f0.tag).omitEmpty, cfg) == Some(t0)
    requires FieldText(f1.val, ParseTag(f1.tag).omitEmpty, cfg) == Some(t1)
    ensures EncodeFormValues(Struct([f0, f1]), cfg)
            == Success(map[ParseTag(f0.tag).name := [t0], ParseTag(f1.tag).name := [t1]])
  {
    var m := map[ParseTag(f0.tag).name := [t0], ParseTag(f1.tag).name := [t1]];
    var r := EncodeFormValues(Struct([f0, f1]), cfg).value;
    forall k
      ensures Lookup(r, k) == Lookup(m, k)
      ensures k in r <==> k in m
    {
      TwoFieldLookup(f0, f1, cfg, t0, t1, k);
    }
    ValuesExt(r, m);
  }

  /** Two tagged names as the scenarios below use them: non-empty, comma-free, trimmed and distinct. */
  predicate ScenarioNames(n0: string, n1: string) {
    && n0 != "" && ',' !in n0 && IsTrimmed(n0)
    && n1 != "" && ',' !in n1 && IsTrimmed(n1)
    && n0 != n1
  }

  /** `{StringField: "abc", IntField: 123}` with plain tags (`str_field`, `int_field` in the tests). */
  lemma PlainScenario(cfg: Config, n0: string, n1: string)
    requires ScenarioNames(n0, n1)
    ensures EncodeFormValues(Struct([Field(n0, Str("abc")), Field(n1, SInt(123))]), cfg)
            == Success(map[n0 := ["abc"], n1 := ["123"]])
  {
    ParseTagRoundTrip(n0, false);
    ParseTagRoundTrip(n1, false);
    FormatIntExample();
    TwoFieldEncoding(Field(n0, Str("abc")), Field(n1, SInt(123)), cfg, "abc", "123");
  }

  /** Zero values without `omitempty` are still emitted: "" for the string and "0" for the int. */
  lemma ZeroAllScenario(cfg: Config, n0: string, n1: string)
    requires ScenarioNames(n0, n1)
    ensures EncodeFormValues(Struct([Field(n0, Str("")), Field(n1, SInt(0))]), cfg)
            == Success(map[n0 := [""], n1 := ["0"]])
  {
    ParseTagRoundTrip(n0, false);
    ParseTagRoundTrip(n1, false);
    TwoFieldEncoding(Field(n0, Str("")), Field(n1, SInt(0)), cfg, "", "0");
  }

  /** A single field with a name that emits gives a one-key map. */
  lemma OneFieldEncoding(f0: Field, cfg: Config, t0: string)
    requires ParseTag(f0.tag).name != ""
    requires FieldText(f0.val, ParseTag(f0.tag).omitEmpty, cfg) == Some(t0)
    ensures EncodeFormValues(Struct([f0]), cfg) == Success(map[ParseTag(f0.tag).name := [t0]])
  {
    var m := map[ParseTag(f0.tag).name := [t0]];
    forall k
      ensures ValuesFor([f0], k, cfg) == Lookup(m, k)
    {
      assert ValuesFor([f0], k, cfg) == Emitted(f0, k, cfg) + ValuesFor([], k, cfg);
    }
    ValuesExt(EncodeFormValues(Struct([f0]), cfg).value, m);
  }

  /** A silent second field changes nothing: the encoding is that of the first field alone. */
  lemma SilentSecondField(f0: Field, f1: Field, cfg: Config)
    requires Silent(f1, cfg)
    ensures EncodeFormValues(Struct([f0, f1]), cfg) == EncodeFormValues(Struct([f0]), cfg)
  {
    forall k
      ensures ValuesFor([f0, f1], k, cfg) == ValuesFor([f0], k, cfg)
    {
      TwoFieldKey(f0, f1, cfg, k);
      assert Emitted(f1, k, cfg) == [];
      assert ValuesFor([f0], k, cfg) == Emitted(f0, k, cfg) + ValuesFor([], k, cfg);
    }
    ValuesExt(EncodeFormValues(Struct([f0, f1]), cfg).value, EncodeFormValues(Struct([f0]), cfg).value);
  }

  /** With `omitempty` on both fields, the zero int disappears and the string stays. */
  lemma OmitEmptyScenario(cfg: Config, n0: string, n1: string)
    requires ScenarioNames(n0, n1)
    ensures EncodeFormValues(Struct([Field(FormatTag(n0, true), Str("abc")), Field(FormatTag(n1, true), SInt(0))]), cfg)
            == Success(map[n0 := ["abc"]])
  {
    var f0 := Field(FormatTag(n0, true), Str("abc"));
    var f1 := Field(FormatTag(n1, true), SInt(0));
    ParseTagRoundTrip(n0, true);
    ParseTagRoundTrip(n1, true);
    assert FieldText(f1.val, true, cfg) == None;
    SilentSecondField(f0, f1, cfg);
    OneFieldEncoding(f0, cfg, "abc");
  }

  /** Without `omitempty`, a pointer to 0 emits "0" and a nil pointer emits "". */
  lemma PointerScenario(cfg: Config, n0: string, n1: string)
    requires ScenarioNames(n0, n1)
    ensures EncodeFormValues(Struct([Field(n0, Ptr(Some(SInt(0)))), Field(n1, Ptr(None))]), cfg)
            == Success(map[n0 := ["0"], n1 := [""]])
  {
    ParseTagRoundTrip(n0, false);
    ParseTagRoundTrip(n1, false);
    TwoFieldEncoding(Field(n0, Ptr(Some(SInt(0)))), Field(n1, Ptr(None)), cfg, "0", "");
  }
}
