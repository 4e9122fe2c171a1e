/**
 `parseAttributes` and its four stages: seed the output with `Username`,
 flatten the `UserAttributes` name/value list into top-level keys, copy the
 remaining top-level fields with boolean coercion, and synthesise
 `DisplayName` from `GivenName` and `FamilyName`.
 */
module UserUtils {
  import opened Text
  import opened Values
  import opened Records
  import opened Naming

  /** One `{Name, Value}` entry of `UserAttributes`; both are strings. */
  datatype Attribute = Attribute(name: string, value: string)

  /**
   The input user object: its `Username`, its `UserAttributes` list, and its
   other top-level entries in the order `Object.keys` lists them.
   */
  datatype User = User(username: Value, attributes: seq<Attribute>, fields: seq<(string, Value)>)

  predicate IsBooleanLiteral(s: string)
  {
    s == "true" || s == "false"
  }

  /** The pair names the tags, but its value coerces to a boolean, on which `split` throws a TypeError. */
  predicate ThrowsOnTags(a: Attribute)
  {
    TitleCase(a.name) == "Custom:tags" && IsBooleanLiteral(a.value)
  }

  /** No pair throws on the tags: the condition under which the whole call completes. */
  predicate NoBooleanTags(attrs: seq<Attribute>)
  {
    forall i :: 0 <= i < |attrs| ==> !ThrowsOnTags(attrs[i])
  }

  // ---------------------------------------------------------------------------
  // Stage 2: flattening `UserAttributes` (`parseUserAttribites`)
  // ---------------------------------------------------------------------------

  /**
   One iteration of the flattening loop. A pair whose name normalises to
   `Sub` is skipped. A pair normalising to `Custom:tags` stores its value
   split on commas under `Tags`, or throws when the coerced value is a
   boolean. Any other pair stores its coerced value under its normalised name.
   */
  function AttributeEffect(a: Attribute): (e: Effect)
    ensures TitleCase(a.name) == "Sub" ==> e == Skip
    ensures e.Throw? <==> ThrowsOnTags(a)
    ensures e.Throw? ==> e.error == NotSplittable(Bool(a.value == "true"))
    ensures e.Put? ==> e.key != "Sub" && e.key != "Custom:tags"
    ensures TitleCase(a.name) == "Custom:tags" && !IsBooleanLiteral(a.value) ==>
      && e.Put? && e.key == "Tags" && e.value.List?
      && Join(e.value.items, ',') == a.value
      && |e.value.items| >= 1 && forall i :: 0 <= i < |e.value.items| ==> ',' !in e.value.items[i]
    ensures TitleCase(a.name) != "Sub" && TitleCase(a.name) != "Custom:tags" ==>
      && e.Put? && e.key == TitleCase(a.name)
      && (e.value.Bool? <==> IsBooleanLiteral(a.value))
      && (e.value.Bool? ==> e.value.b == (a.value == "true"))
      && (!e.value.Bool? ==> e.value == Str(a.value))
  {
    var name := TitleCase(a.name);
    var value := CheckTruthy(Str(a.value));
    if name == "Sub" then Skip
    else if name == "Custom:tags" then
      match value
      case Str(s) =>
        JoinSplit(s, ',');
        SplitPartsFree(s, ',');
        Put("Tags", List(Split(s, ',')))
      case _ => Throw(NotSplittable(value))
    else Put(name, value)
  }

  function AttributeEffects(attrs: seq<Attribute>): (effects: seq<Effect>)
    ensures |effects| == |attrs|
    ensures forall i :: 0 <= i < |attrs| ==> effects[i] == AttributeEffect(attrs[i])
  {
    seq(|attrs|, i requires 0 <= i < |attrs| => AttributeEffect(attrs[i]))
  }

  /** The pair writes `key` into the output. */
  predicate Names(a: Attribute, key: string)
  {
    Writes(AttributeEffect(a), key)
  }

  /**
   `parseUserAttribites`: one forward pass over the pairs. It fails exactly
   when some pair throws on the tags, and then on the first such pair.
   */
  function ParseUserAttributes(attrs: seq<Attribute>, out: Record): (r: Result<Record>)
    ensures r.Err? <==> exists i :: 0 <= i < |attrs| && ThrowsOnTags(attrs[i])
    ensures r.Err? ==> exists i ::
      && 0 <= i < |attrs| && ThrowsOnTags(attrs[i])
      && r.error == NotSplittable(Bool(attrs[i].value == "true"))
      && forall j :: 0 <= j < i ==> !ThrowsOnTags(attrs[j])
  {
    var effects := AttributeEffects(attrs);
    var r := Apply(out, effects);
    if r.Err? then
      ApplyFirstThrow(out, effects);
      assert forall i :: FirstThrowAt(effects, i) ==> forall j :: 0 <= j < i ==> !ThrowsOnTags(attrs[j]);
      r
    else
      r
  }

  /** After flattening, the output holds the incoming keys plus those some pair writes, and no others. */
  lemma ParseUserAttributesKeys(attrs: seq<Attribute>, out: Record)
    requires NoBooleanTags(attrs)
    ensures forall key :: key in ParseUserAttributes(attrs, out).value <==>
      key in out || exists i :: 0 <= i < |attrs| && Names(attrs[i], key)
  {
    var effects := AttributeEffects(attrs);
    assert ParseUserAttributes(attrs, out) == Apply(out, effects);
    ApplyKeys(out, effects);
    assert forall key :: (exists i :: 0 <= i < |attrs| && Names(attrs[i], key)) <==> !NeverWrites(effects, key);
  }

  /**
   Last write wins: after flattening, a key holds the value written by the
   last pair that writes it, and a key no pair writes is as it was.
   */
  lemma ParseUserAttributesLastWriteWins(attrs: seq<Attribute>, out: Record)
    requires NoBooleanTags(attrs)
    ensures forall key, i ::
      && 0 <= i < |attrs| && Names(attrs[i], key)
      && (forall j :: i < j < |attrs| ==> !Names(attrs[j], key))
      ==> Get(ParseUserAttributes(attrs, out).value, key) == Some(AttributeEffect(attrs[i]).value)
    ensures forall key :: (forall i :: 0 <= i < |attrs| ==> !Names(attrs[i], key)) ==>
      Get(ParseUserAttributes(attrs, out).value, key) == Get(out, key)
  {
    var effects := AttributeEffects(attrs);
    ApplyLastWriteWins(out, effects);
    forall key, i |
      && 0 <= i < |attrs| && Names(attrs[i], key)
      && (forall j :: i < j < |attrs| ==> !Names(attrs[j], key))
      ensures LastWriteAt(effects, key, i)
    {
    }
  }

  /** Flattening never writes `Sub` or `Custom:tags`, whatever the pairs are. */
  lemma ParseUserAttributesSkipsSub(attrs: seq<Attribute>, out: Record)
    requires NoBooleanTags(attrs)
    ensures Get(ParseUserAttributes(attrs, out).value, "Sub") == Get(out, "Sub")
    ensures Get(ParseUserAttributes(attrs, out).value, "Custom:tags") == Get(out, "Custom:tags")
  {
    ParseUserAttributesLastWriteWins(attrs, out);
  }

  // ---------------------------------------------------------------------------
  // Stage 3: the remaining top-level fields (`parseOptionalFields`)
  // ---------------------------------------------------------------------------

  /** The key filter: `Username`, `UserAttributes` and the falsy empty key are dropped. */
  predicate IsPassthroughKey(key: string)
  {
    !(key == "Username" || key == "UserAttributes") && key != ""
  }

  /**
   A key that passes the filter and whose assignment creates an own property.
   Assigning to `__proto__` runs the inherited `Object.prototype.__proto__`
   setter instead: a string or boolean is ignored and an array becomes the
   prototype, so no own key `__proto__` appears.
   */
  predicate IsCopiedKey(key: string)
  {
    IsPassthroughKey(key) && key != "__proto__"
  }

  function FieldEffect(field: (string, Value)): Effect
  {
    if IsCopiedKey(field.0) then Put(field.0, CheckTruthy(field.1)) else Skip
  }

  function FieldEffects(fields: seq<(string, Value)>): (effects: seq<Effect>)
    ensures |effects| == |fields|
    ensures forall i :: 0 <= i < |fields| ==> effects[i] == FieldEffect(fields[i])
  {
    seq(|fields|, i requires 0 <= i < |fields| => FieldEffect(fields[i]))
  }

  /** Position `i` is the last entry of `fields` with this key. */
  predicate LastFieldAt(fields: seq<(string, Value)>, key: string, i: int)
  {
    && 0 <= i < |fields| && fields[i].0 == key
    && forall j :: i < j < |fields| ==> fields[j].0 != key
  }

  /** Some entry of `fields` passes the filter and so writes `key` as an own property. */
  predicate FieldWrites(fields: seq<(string, Value)>, key: string)
  {
    IsCopiedKey(key) && exists i :: 0 <= i < |fields| && fields[i].0 == key
  }

  /**
   `parseOptionalFields`: every entry whose key passes the filter is written,
   coerced, over whatever the record held, the last entry for a key winning;
   keys that fail the filter (`Username` among them), `__proto__` (whose
   assignment creates no own key) and keys no entry has are left as they were.
   */
  function ParseOptionalFields(fields: seq<(string, Value)>, out: Record): (r: Record)
    ensures forall key, i :: IsCopiedKey(key) && LastFieldAt(fields, key, i) ==>
      Get(r, key) == Some(CheckTruthy(fields[i].1))
    ensures forall key :: !FieldWrites(fields, key) ==> Get(r, key) == Get(out, key)
  {
    var effects := FieldEffects(fields);
    assert NeverThrows(effects);
    ApplyLastWriteWins(out, effects);
    assert forall key, i :: IsCopiedKey(key) && LastFieldAt(fields, key, i) ==> LastWriteAt(effects, key, i);
    assert forall key :: !FieldWrites(fields, key) ==> NeverWrites(effects, key);
    Apply(out, effects).value
  }

  /** After copying, the record holds its earlier keys plus the keys of the entries that pass the filter. */
  lemma ParseOptionalFieldsKeys(fields: seq<(string, Value)>, out: Record)
    ensures forall key :: key in ParseOptionalFields(fields, out) <==> key in out || FieldWrites(fields, key)
  {
    var effects := FieldEffects(fields);
    assert NeverThrows(effects);
    ApplyKeys(out, effects);
    assert forall key :: FieldWrites(fields, key) <==> !NeverWrites(effects, key);
  }

  // ---------------------------------------------------------------------------
  // Stage 4: the display name (`createDisplayName`)
  // ---------------------------------------------------------------------------

  /** The display-name rule on the two name fields, each possibly absent. */
  function DisplayValue(given: Option<Value>, family: Option<Value>): Value
  {
    match (given, family)
    case (Some(g), Some(f)) => Str(ToJsString(g) + ", " + ToJsString(f))
    case (Some(g), None) => g
    case (None, Some(f)) => f
    case (None, None) => Str("GivenName and FamilyName MISSING")
  }

  /**
   `createDisplayName`: sets `DisplayName` and changes nothing else. Both
   names present give `<GivenName>, <FamilyName>` with JavaScript's string
   conversion; one present gives that value as it is; none gives the fixed
   fallback text.
   */
  function CreateDisplayName(m: Record): (r: Record)
    ensures "DisplayName" in r
    ensures forall key :: key != "DisplayName" ==> Get(r, key) == Get(m, key)
    ensures "GivenName" in m && "FamilyName" in m ==>
      r["DisplayName"] == Str(ToJsString(m["GivenName"]) + ", " + ToJsString(m["FamilyName"]))
    ensures "GivenName" in m && "FamilyName" !in m ==> r["DisplayName"] == m["GivenName"]
    ensures "GivenName" !in m && "FamilyName" in m ==> r["DisplayName"] == m["FamilyName"]
    ensures "GivenName" !in m && "FamilyName" !in m ==> r["DisplayName"] == Str("GivenName and FamilyName MISSING")
    ensures r["DisplayName"] == DisplayValue(Get(r, "GivenName"), Get(r, "FamilyName"))
  {
    m["DisplayName" := DisplayValue(Get(m, "GivenName"), Get(m, "FamilyName"))]
  }

  /** Synthesising the display name a second time changes nothing. */
  lemma CreateDisplayNameIdempotent(m: Record)
    ensures CreateDisplayName(CreateDisplayName(m)) == CreateDisplayName(m)
  {
  }

  /** The display name depends on `GivenName` and `FamilyName` only. */
  lemma CreateDisplayNameReadsOnlyNames(m: Record, n: Record)
    requires Get(m, "GivenName") == Get(n, "GivenName")
    requires Get(m, "FamilyName") == Get(n, "FamilyName")
    ensures CreateDisplayName(m)["DisplayName"] == CreateDisplayName(n)["DisplayName"]
  {
  }

  // ---------------------------------------------------------------------------
  // The pipeline (`parseAttributes`)
  // ---------------------------------------------------------------------------

  /**
   `parseAttributes`: the four stages in order. It fails exactly when
   flattening throws on the tags; otherwise the output always has
   `Username` and `DisplayName`, and its `DisplayName` agrees with its own
   `GivenName` and `FamilyName`.
   */
  function ParseAttributes(user: User): (r: Result<Record>)
    ensures r.Err? <==> exists i :: 0 <= i < |user.attributes| && ThrowsOnTags(user.attributes[i])
    ensures r.Ok? ==> "Username" in r.value && "DisplayName" in r.value
    ensures r.Ok? ==> r.value["DisplayName"] == DisplayValue(Get(r.value, "GivenName"), Get(r.value, "FamilyName"))
  {
    var flattened := ParseUserAttributes(user.attributes, map["Username" := user.username]);
    if flattened.Err? then Err(flattened.error)
    else
      var passed := ParseOptionalFields(user.fields, flattened.value);
      assert "Username" in passed;
      Ok(CreateDisplayName(passed))
  }

  /**
   The output's keys are exactly `Username`, `DisplayName`, the keys some
   pair writes and the keys of the fields that pass the filter.
   */
  lemma ParseAttributesKeys(user: User)
    requires NoBooleanTags(user.attributes)
    ensures forall key :: key in ParseAttributes(user).value <==>
      || key == "Username" || key == "DisplayName"
      || (exists i :: 0 <= i < |user.attributes| && Names(user.attributes[i], key))
      || FieldWrites(user.fields, key)
  {
    forall key
      ensures key in ParseAttributes(user).value <==>
        || key == "Username" || key == "DisplayName"
        || (exists i :: 0 <= i < |user.attributes| && Names(user.attributes[i], key))
        || FieldWrites(user.fields, key)
    {
      ParseAttributesKey(user, key);
    }
  }

  /** `ParseAttributesKeys` for one key. */
  lemma ParseAttributesKey(user: User, key: string)
    requires NoBooleanTags(user.attributes)
    ensures key in ParseAttributes(user).value <==>
      || key == "Username" || key == "DisplayName"
      || (exists i :: 0 <= i < |user.attributes| && Names(user.attributes[i], key))
      || FieldWrites(user.fields, key)
  {
    var flat := ParseUserAttributes(user.attributes, map["Username" := user.username]).value;
    var passed := ParseOptionalFields(user.fields, flat);
    assert ParseAttributes(user).value == CreateDisplayName(passed);
    ParseOptionalFieldsKeys(user.fields, flat);
    ParseUserAttributesKeys(user.attributes, map["Username" := user.username]);
    if key != "DisplayName" {
      assert Get(CreateDisplayName(passed), key) == Get(passed, key);
    }
  }

  /** Fields win collisions: a field that passes the filter overrides any flattened pair under the same key. */
  lemma ParseAttributesFieldsWin(user: User, key: string, i: int)
    requires NoBooleanTags(user.attributes)
    requires key != "DisplayName" && IsCopiedKey(key) && LastFieldAt(user.fields, key, i)
    ensures key in ParseAttributes(user).value
    ensures ParseAttributes(user).value[key] == CheckTruthy(user.fields[i].1)
  {
    var flat := ParseUserAttributes(user.attributes, map["Username" := user.username]).value;
    var passed := ParseOptionalFields(user.fields, flat);
    assert Get(CreateDisplayName(passed), key) == Get(passed, key);
  }

  /** Where no field writes the key, the last pair that writes it decides its value. */
  lemma ParseAttributesPairValue(user: User, key: string, i: int)
    requires NoBooleanTags(user.attributes)
    requires key != "DisplayName" && !FieldWrites(user.fields, key)
    requires 0 <= i < |user.attributes| && Names(user.attributes[i], key)
    requires forall j :: i < j < |user.attributes| ==> !Names(user.attributes[j], key)
    ensures key in ParseAttributes(user).value
    ensures ParseAttributes(user).value[key] == AttributeEffect(user.attributes[i]).value
  {
    var seed := map["Username" := user.username];
    ParseUserAttributesLastWriteWins(user.attributes, seed);
    var flat := ParseUserAttributes(user.attributes, seed).value;
    var passed := ParseOptionalFields(user.fields, flat);
    assert Get(passed, key) == Get(flat, key);
    assert Get(CreateDisplayName(passed), key) == Get(passed, key);
  }

  /** `Username` keeps the input's value unless some pair normalises to `Username`. */
  lemma ParseAttributesUsername(user: User)
    requires NoBooleanTags(user.attributes)
    requires forall i :: 0 <= i < |user.attributes| ==> !Names(user.attributes[i], "Username")
    ensures ParseAttributes(user).value["Username"] == user.username
  {
    var seed := map["Username" := user.username];
    ParseUserAttributesLastWriteWins(user.attributes, seed);
    var flat := ParseUserAttributes(user.attributes, seed).value;
    assert Get(flat, "Username") == Some(user.username);
    var passed := ParseOptionalFields(user.fields, flat);
    assert Get(passed, "Username") == Get(flat, "Username");
    assert Get(CreateDisplayName(passed), "Username") == Get(passed, "Username");
  }

  /** The output has `Sub` exactly when the input has a top-level field named `Sub`: pairs never supply it. */
  lemma ParseAttributesSub(user: User)
    requires NoBooleanTags(user.attributes)
    ensures "Sub" in ParseAttributes(user).value <==>
      exists i :: 0 <= i < |user.fields| && user.fields[i].0 == "Sub"
  {
    var seed := map["Username" := user.username];
    ParseUserAttributesSkipsSub(user.attributes, seed);
    var flat := ParseUserAttributes(user.attributes, seed).value;
    assert "Sub" !in flat;
    var passed := ParseOptionalFields(user.fields, flat);
    ParseOptionalFieldsKeys(user.fields, flat);
    assert IsCopiedKey("Sub");
    assert "Sub" in passed <==> FieldWrites(user.fields, "Sub");
    assert Get(CreateDisplayName(passed), "Sub") == Get(passed, "Sub");
  }
}
