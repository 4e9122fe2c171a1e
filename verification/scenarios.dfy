/**
 Concrete inputs and the outputs the flattener produces for them: the
 attribute names of a typical user record, the tags split, the display-name
 cases, the crash on boolean tags, and one whole record end to end.
 */
module Scenarios {
  import opened Text
  import opened Values
  import opened Records
  import opened Naming
  import opened UserUtils

  /** A one-segment word as `titleCase` writes it: first character upper-cased, the rest kept. */
  lemma Capitalised(w: string, upper: string)
    requires |w| > 0 && upper == [ToUpper(w[0])] + w[1..]
    ensures Capital(w) + Drop(w, 1) == upper
  {
  }

  /** Two words joined by `_` title-case to the two capitalised words side by side. */
  lemma TwoWords(first: string, second: string, name: string, upper1: string, upper2: string, upper: string)
    requires name == first + "_" + second && '_' !in first && '_' !in second
    requires |first| > 0 && upper1 == [ToUpper(first[0])] + first[1..]
    requires |second| > 0 && upper2 == [ToUpper(second[0])] + second[1..]
    requires upper == upper1 + upper2
    ensures TitleCase(name) == upper
  {
    TitleCaseOfTwoWords(first, second);
    Capitalised(first, upper1);
    Capitalised(second, upper2);
  }

  /** A word without `_` title-cases to itself with its first character upper-cased. */
  lemma OneWord(name: string, upper: string)
    requires '_' !in name && |name| > 0 && upper == [ToUpper(name[0])] + name[1..]
    ensures TitleCase(name) == upper
  {
    TitleCaseOneWord(name);
    Capitalised(name, upper);
  }

  lemma GivenNameTitle()
    ensures TitleCase("given_name") == "GivenName"
  {
    TwoWords("given", "name", "given_name", "Given", "Name", "GivenName");
  }

  lemma FamilyNameTitle()
    ensures TitleCase("family_name") == "FamilyName"
  {
    TwoWords("family", "name", "family_name", "Family", "Name", "FamilyName");
  }

  lemma EmailVerifiedTitle()
    ensures TitleCase("email_verified") == "EmailVerified"
  {
    TwoWords("email", "verified", "email_verified", "Email", "Verified", "EmailVerified");
  }

  /** The namespace colon is not a separator: only the first letter changes. */
  lemma CustomTagsTitle()
    ensures TitleCase("custom:tags") == "Custom:tags"
  {
    OneWord("custom:tags", "Custom:tags");
  }

  lemma SubTitle()
    ensures TitleCase("sub") == "Sub"
  {
    OneWord("sub", "Sub");
  }

  /** The attribute names of a typical record normalise as expected; `sub` becomes the `Sub` that is dropped. */
  lemma CommonNames()
    ensures TitleCase("given_name") == "GivenName"
    ensures TitleCase("family_name") == "FamilyName"
    ensures TitleCase("email_verified") == "EmailVerified"
    ensures TitleCase("custom:tags") == "Custom:tags"
    ensures TitleCase("sub") == "Sub"
  {
    GivenNameTitle();
    FamilyNameTitle();
    EmailVerifiedTitle();
    CustomTagsTitle();
    SubTitle();
  }

  /** `TitleCaseAppendSegment` with the pieces named, so that each literal fact is checked on its own. */
  lemma AppendSegment(name: string, segment: string, whole: string, front: string, k: nat, upper: string)
    requires whole == name + "_" + segment && '_' !in segment
    requires TitleCase(name) == front && k == |Split(name, '_')|
    requires upper == front + Capital(segment) + Drop(segment, k)
    ensures TitleCase(whole) == upper
  {
    TitleCaseAppendSegment(name, segment);
  }

  /** A three-segment name loses a character of its third segment: `a_b_cd` becomes `ABC`, not `ABCd`. */
  lemma ThirdSegmentTruncated()
    ensures TitleCase("a_b_cd") == "ABC"
  {
    TwoWords("a", "b", "a_b", "A", "B", "AB");
    assert |Split("a_b", '_')| == 2 by {
      assert "a_b" == "a" + ['_'] + "b";
      SplitBeforeLastPart("a", '_', "b");
      SplitWithoutSeparator("a", '_');
    }
    AppendSegment("a_b", "cd", "a_b_cd", "AB", 2, "ABC");
  }

  /** The tags pair stores its value split on commas, when the value is not a boolean literal. */
  lemma TagsEffect(value: string, parts: seq<string>)
    requires |parts| >= 1 && forall i :: 0 <= i < |parts| ==> ',' !in parts[i]
    requires Join(parts, ',') == value && !IsBooleanLiteral(value)
    ensures AttributeEffect(Attribute("custom:tags", value)) == Put("Tags", List(parts))
  {
    CustomTagsTitle();
    var items := AttributeEffect(Attribute("custom:tags", value)).value.items;
    SplitJoin(items, ',');
    SplitJoin(parts, ',');
  }

  /** `custom:tags` with value `a,b,c` stores the list `["a", "b", "c"]` under `Tags`. */
  lemma TagsSplit()
    ensures AttributeEffect(Attribute("custom:tags", "a,b,c")) == Put("Tags", List(["a", "b", "c"]))
  {
    assert Join(["a", "b", "c"], ',') == "a,b,c" by {
      assert Join(["b", "c"], ',') == "b,c" by {
        assert ["b", "c"][1..] == ["c"];
      }
      assert ["a", "b", "c"][1..] == ["b", "c"];
    }
    TagsEffect("a,b,c", ["a", "b", "c"]);
  }

  /** `given_name` with value `true` stores the boolean true under `GivenName`. */
  lemma GivenNameCoerced()
    ensures AttributeEffect(Attribute("given_name", "true")) == Put("GivenName", Bool(true))
  {
    GivenNameTitle();
  }

  /** The display-name cases on small records: both names, the given name alone, neither. */
  lemma DisplayNames()
    ensures CreateDisplayName(map["GivenName" := Str("Ada"), "FamilyName" := Str("Lovelace")])["DisplayName"]
      == Str("Ada, Lovelace")
    ensures CreateDisplayName(map["GivenName" := Str("Ada")])["DisplayName"] == Str("Ada")
    ensures CreateDisplayName(map[])["DisplayName"] == Str("GivenName and FamilyName MISSING")
  {
  }

  /** `custom:tags` with value `true` makes the whole call throw. */
  lemma BooleanTagsThrow()
    ensures ParseAttributes(User(Str("u1"), [Attribute("custom:tags", "true")], [])).Err?
  {
    CustomTagsTitle();
    assert ThrowsOnTags(Attribute("custom:tags", "true"));
  }

  /** A pair with an ordinary name and a non-boolean value stores the value as it is under the normalised name. */
  lemma PlainEffect(name: string, value: string, key: string)
    requires TitleCase(name) == key && key != "Sub" && key != "Custom:tags"
    requires !IsBooleanLiteral(value)
    ensures AttributeEffect(Attribute(name, value)) == Put(key, Str(value))
  {
  }

  /** A sequence of length four is the display of its four elements. */
  lemma FourElements<T>(s: seq<T>, x0: T, x1: T, x2: T, x3: T)
    requires |s| == 4 && s[0] == x0 && s[1] == x1 && s[2] == x2 && s[3] == x3
    ensures s == [x0, x1, x2, x3]
  {
  }

  /** The effects of four pairs are the four effects in order. */
  lemma EffectsOfFour(a0: Attribute, a1: Attribute, a2: Attribute, a3: Attribute)
    ensures AttributeEffects([a0, a1, a2, a3]) ==
      [AttributeEffect(a0), AttributeEffect(a1), AttributeEffect(a2), AttributeEffect(a3)]
  {
    var attrs := [a0, a1, a2, a3];
    var effects := AttributeEffects(attrs);
    assert attrs[0] == a0 && attrs[1] == a1 && attrs[2] == a2 && attrs[3] == a3;
    FourElements(effects, AttributeEffect(a0), AttributeEffect(a1), AttributeEffect(a2), AttributeEffect(a3));
  }

  lemma SubSkipped()
    ensures AttributeEffect(Attribute("sub", "123")) == Skip
  {
    SubTitle();
  }

  lemma GivenNameStored()
    ensures AttributeEffect(Attribute("given_name", "Ada")) == Put("GivenName", Str("Ada"))
  {
    GivenNameTitle();
    PlainEffect("given_name", "Ada", "GivenName");
  }

  lemma FamilyNameStored()
    ensures AttributeEffect(Attribute("family_name", "Lovelace")) == Put("FamilyName", Str("Lovelace"))
  {
    FamilyNameTitle();
    PlainEffect("family_name", "Lovelace", "FamilyName");
  }

  lemma TagsStored()
    ensures AttributeEffect(Attribute("custom:tags", "x,y")) == Put("Tags", List(["x", "y"]))
  {
    assert Join(["x", "y"], ',') == "x,y" by {
      assert ["x", "y"][1..] == ["y"];
    }
    TagsEffect("x,y", ["x", "y"]);
  }

  /** The pairs of the whole-record example, one effect each: `sub` skipped, names stored, tags split. */
  lemma ExampleEffects()
    ensures AttributeEffects(
      [ Attribute("sub", "123"), Attribute("given_name", "Ada"),
        Attribute("family_name", "Lovelace"), Attribute("custom:tags", "x,y") ])
      == [Skip, Put("GivenName", Str("Ada")), Put("FamilyName", Str("Lovelace")), Put("Tags", List(["x", "y"]))]
  {
    EffectsOfFour(Attribute("sub", "123"), Attribute("given_name", "Ada"),
                  Attribute("family_name", "Lovelace"), Attribute("custom:tags", "x,y"));
    SubSkipped();
    GivenNameStored();
    FamilyNameStored();
    TagsStored();
  }

  /** The example's effects applied to the seed record. */
  lemma ExampleApplied()
    ensures Apply(map["Username" := Str("u1")],
      [Skip, Put("GivenName", Str("Ada")), Put("FamilyName", Str("Lovelace")), Put("Tags", List(["x", "y"]))])
      == Ok(map["Username" := Str("u1"), "GivenName" := Str("Ada"), "FamilyName" := Str("Lovelace"),
                "Tags" := List(["x", "y"])])
  {
    var e0, e1, e2, e3 := Skip, Put("GivenName", Str("Ada")), Put("FamilyName", Str("Lovelace")), Put("Tags", List(["x", "y"]));
    var seed := map["Username" := Str("u1")];
    ApplySnoc(seed, [], e0);
    assert [] + [e0] == [e0];
    ApplySnoc(seed, [e0], e1);
    assert [e0] + [e1] == [e0, e1];
    ApplySnoc(seed, [e0, e1], e2);
    assert [e0, e1] + [e2] == [e0, e1, e2];
    ApplySnoc(seed, [e0, e1, e2], e3);
    assert [e0, e1, e2] + [e3] == [e0, e1, e2, e3];
  }

  /** Flattening the example's pairs onto the seed record. */
  lemma ExampleFlattened()
    ensures ParseUserAttributes(
      [ Attribute("sub", "123"), Attribute("given_name", "Ada"),
        Attribute("family_name", "Lovelace"), Attribute("custom:tags", "x,y") ],
      map["Username" := Str("u1")])
      == Ok(map["Username" := Str("u1"), "GivenName" := Str("Ada"), "FamilyName" := Str("Lovelace"),
                "Tags" := List(["x", "y"])])
  {
    ExampleEffects();
    ExampleApplied();
  }

  /** The remaining field `Enabled` of the example is copied with its value coerced. */
  lemma ExampleFieldsCopied(flat: Record)
    ensures ParseOptionalFields([("Enabled", Str("true"))], flat) == flat["Enabled" := Bool(true)]
  {
    var fields := [("Enabled", Str("true"))];
    assert FieldEffects(fields) == [] + [Put("Enabled", Bool(true))];
    ApplySnoc(flat, [], Put("Enabled", Bool(true)));
  }

  /** The pipeline assembled from its stages' results. */
  lemma Pipeline(user: User, flat: Record, passed: Record)
    requires ParseUserAttributes(user.attributes, map["Username" := user.username]) == Ok(flat)
    requires ParseOptionalFields(user.fields, flat) == passed
    ensures ParseAttributes(user) == Ok(CreateDisplayName(passed))
  {
  }

  /** The example's display name: both names present. */
  lemma ExampleDisplayName()
    ensures CreateDisplayName(map["Username" := Str("u1"), "GivenName" := Str("Ada"), "FamilyName" := Str("Lovelace"),
                                  "Tags" := List(["x", "y"])]["Enabled" := Bool(true)])
      == map["Username" := Str("u1"), "GivenName" := Str("Ada"), "FamilyName" := Str("Lovelace"),
             "Tags" := List(["x", "y"]), "Enabled" := Bool(true), "DisplayName" := Str("Ada, Lovelace")]
  {
    var m := map["Username" := Str("u1"), "GivenName" := Str("Ada"), "FamilyName" := Str("Lovelace"),
                 "Tags" := List(["x", "y"])]["Enabled" := Bool(true)];
    assert Get(m, "GivenName") == Some(Str("Ada")) && Get(m, "FamilyName") == Some(Str("Lovelace"));
    assert "Ada" + ", " + "Lovelace" == "Ada, Lovelace";
  }

  /** A whole record: `sub` dropped, names title-cased, tags split, `Enabled` coerced, display name built. */
  lemma WholeRecord()
    ensures ParseAttributes(User(
      Str("u1"),
      [ Attribute("sub", "123"), Attribute("given_name", "Ada"),
        Attribute("family_name", "Lovelace"), Attribute("custom:tags", "x,y") ],
      [("Enabled", Str("true"))]))
      == Ok(map[
        "Username" := Str("u1"), "GivenName" := Str("Ada"), "FamilyName" := Str("Lovelace"),
        "Tags" := List(["x", "y"]), "Enabled" := Bool(true), "DisplayName" := Str("Ada, Lovelace")])
  {
    var flat := map["Username" := Str("u1"), "GivenName" := Str("Ada"), "FamilyName" := Str("Lovelace"),
                    "Tags" := List(["x", "y"])];
    ExampleFlattened();
    ExampleFieldsCopied(flat);
    ExampleDisplayName();
    Pipeline(User(
      Str("u1"),
      [ Attribute("sub", "123"), Attribute("given_name", "Ada"),
        Attribute("family_name", "Lovelace"), Attribute("custom:tags", "x,y") ],
      [("Enabled", Str("true"))]), flat, flat["Enabled" := Bool(true)]);
  }

  /** A top-level `__proto__` field passes the filter, but its assignment creates no own key. */
  lemma ProtoFieldIgnored()
    ensures ParseAttributes(User(Str("u"), [], [("__proto__", Str("x"))]))
      == Ok(map["Username" := Str("u"), "DisplayName" := Str("GivenName and FamilyName MISSING")])
  {
    var seed := map["Username" := Str("u")];
    assert ParseUserAttributes([], seed) == Ok(seed);
    var fields := [("__proto__", Str("x"))];
    assert FieldEffects(fields) == [] + [Skip];
    ApplySnoc(seed, [], Skip);
    Pipeline(User(Str("u"), [], fields), seed, seed);
  }
}
