# A verified model of the user-record flattener

The component under study is `parseAttributes` in `UserUtils.js`. It turns a
nested user record into one flat record. The record has a `Username`, a
`UserAttributes` list of `{Name, Value}` string pairs, and other top-level
fields. The function works in four stages, run in order:

1. **Seed.** The output starts as `{Username: <input Username>}`.
2. **Flatten** (`parseUserAttribites`). Each pair's name is normalised from
   snake case to title case (`titleCase`). Its value is coerced by
   `checkTruthy`: the strings `"true"` and `"false"` become booleans.
   - A pair normalising to `Sub` is dropped.
   - A pair normalising to `Custom:tags` stores its value, split on commas,
     under `Tags`.
   - Any other pair stores its value under its normalised name.
   - The last write to a key wins.
3. **Passthrough** (`parseOptionalFields`). Every other top-level field is
   copied with `checkTruthy` applied. It overwrites any flattened value under
   the same key.
4. **Display name** (`createDisplayName`). `DisplayName` is built from
   `GivenName` and `FamilyName`, with a fixed fallback text.

The Dafny modules follow this structure:

- `Text` (`text.dfy`) holds the JavaScript string primitives the code uses:
  `split` and `join` on one character, `charAt(0).toUpperCase()` and
  `slice(n)`. It proves that split and join are inverse in both directions.
- `Values` (`values.dfy`) holds the value union `Str | Bool | List`,
  JavaScript's loose equality `==` against the literals `"true"`/`"false"`,
  `checkTruthy`, and the string conversion that `+` applies.
- `Records` (`records.dfy`) holds the output record (`map<string, Value>`)
  and the one loop shape both copying stages share. Each input element
  yields an effect: write a key, skip, or throw. `Apply` runs the effects in
  order. Lemmas prove last-write-wins, the key set, and the first-throw
  error.
- `Naming` (`naming.dfy`) holds `titleCase`, with lemmas that characterise it
  segment by segment.
- `UserUtils` (`user_utils.dfy`) holds the four stages and the pipeline, with
  their contracts and the end-to-end lemmas.
- `Scenarios` (`scenarios.dfy`) holds concrete inputs and outputs: the usual
  attribute names, the tags split, the display-name cases, the crash on
  boolean tags, and one whole record end to end.

### Behaviour modelled as the code has it

Where the code and its own doc comments differ, the model follows the code:

- **`checkTruthy` uses loose equality.** Its comment (UserUtils.js:66-70)
  speaks of "a string of true or false". Besides the strings `"true"` and
  `"false"`, it also turns the one-item arrays `["true"]` and `["false"]`
  into booleans. An array is compared through its joined text
  (`Values.LooselyEquals`).
- **The passthrough filter drops the empty key.** The comment at
  UserUtils.js:93 names only `Username` and `UserAttributes`. The filter
  callback returns the key itself, so `""` is falsy and is filtered out too.
- **A `__proto__` field creates no key.** It passes the filter, but the
  assignment at UserUtils.js:101 runs the inherited `__proto__` setter: a
  string or boolean is ignored and an array becomes the object's prototype.
  No own key `__proto__` appears in the output (`UserUtils.IsCopiedKey`,
  `Scenarios.ProtoFieldIgnored`).
- **Boolean tags crash the call.** `value.split(',')` runs on the coerced
  value. A `custom:tags` value of `"true"` or `"false"` is a boolean by then,
  so the call throws a TypeError. The model returns
  `Err(NotSplittable(...))`, and the whole of `parseAttributes` fails.
- **Later segments are truncated.** The comment at UserUtils.js:51-52
  promises snake case to title case, but `titleCase` takes segment `j`'s
  tail with `slice(j)`, not `slice(1)`. From the third segment on, characters are
  lost: `a_b_cd` becomes `ABC`. The model keeps this behaviour
  (`Naming.TitleCaseAppendSegment`, `Scenarios.ThirdSegmentTruncated`).

## Model

| member | source | states |
|---|---|---|
| `Text.Split` | UserUtils.js:42 | `split` on one character always yields at least one part, even for the empty string |
| `Text.JoinSplit` | UserUtils.js:42 | Joining the parts of a split with the same separator gives the original string back |
| `Text.SplitJoin` | UserUtils.js:42 | Parts that hold no separator are recovered exactly by splitting their join |
| `Text.SplitCount` | UserUtils.js:42 | A split has exactly one more part than the string has separators |
| `Text.SplitPartsFree` | UserUtils.js:58 | No part of a split contains the separator |
| `Text.SplitWithoutSeparator` | UserUtils.js:58 | A string without the separator splits into itself alone |
| `Text.SplitBeforeLastPart` | UserUtils.js:58 | Splitting `p + d + seg`, where `seg` has no `d`, gives the parts of `p` followed by `seg` |
| `Text.JoinIsWord` | UserUtils.js:75-77 | A non-empty word without a comma is the comma-join of exactly one list, the word alone |
| `Text.ToUpper` | UserUtils.js:59 | `a`-`z` become the matching `A`-`Z` and every other character is kept; so no lower-case letter remains and only `_` maps to `_` |
| `Text.ToUpperIdempotent` | UserUtils.js:59 | Upper-casing an upper-cased character changes nothing |
| `Values.LooselyEquals` | UserUtils.js:75-77 | `v == "true"` (or `"false"`) holds exactly for that string and for the one-item array holding it; never for a boolean |
| `Values.CheckTruthy` | UserUtils.js:74-81 | Exactly `true`, `"true"` and `["true"]` yield `true`; likewise for false; every other value is returned unchanged |
| `Values.CheckTruthyIdempotent` | UserUtils.js:74-81 | Coercing a coerced value changes nothing |
| `Values.CheckTruthyOnStrings` | UserUtils.js:74-81 | A string is changed by the coercion exactly when it is `"true"` or `"false"` |
| `Records.Apply` | UserUtils.js:36-48 | A pass fails exactly when some element throws; a completed pass never removes a key |
| `Records.ApplyFirstThrow` | UserUtils.js:36-42 | A failed pass carries the error of the first element that throws |
| `Records.ApplyLastWriteWins` | UserUtils.js:36-48 | Each key holds the value of its last write; a key never written is as it was |
| `Records.ApplyKeys` | UserUtils.js:36-48 | The keys after a pass are the incoming keys plus the keys some element writes |
| `Naming.TitleCase` | UserUtils.js:57-64 | The normalised name never contains `_` and never starts with a lower-case letter |
| `Naming.AssembleUnscored` | UserUtils.js:59-63 | Segments without `_` contribute no `_` |
| `Naming.AssembleStartsUpper` | UserUtils.js:59-63 | The assembled name starts with an upper-cased character, or is empty |
| `Naming.TitleCaseAppendSegment` | UserUtils.js:60-62 | Appending `_segment` appends the segment's upper-cased first character and its tail from offset k, where k is the segment's index |
| `Naming.TitleCaseOneWord` | UserUtils.js:58-59 | A name without `_` only has its first character upper-cased; a colon stays as it is |
| `Naming.TitleCaseOfTwoWords` | UserUtils.js:57-64 | `first_second` becomes both words with their first characters upper-cased, the rest kept |
| `Naming.TitleCaseIdempotent` | UserUtils.js:57-64 | Normalising a normalised name changes nothing |
| `UserUtils.AttributeEffect` | UserUtils.js:37-46 | A `Sub` pair is skipped. A tags pair throws exactly when its value is a boolean literal; otherwise it writes `Tags` as a comma-free list that joins back to the value. Any other pair writes its coerced value under its normalised name, and never `Sub` or `Custom:tags` |
| `UserUtils.ParseUserAttributes` | UserUtils.js:35-49 | Flattening fails exactly when some pair throws on the tags, with the first such pair's error |
| `UserUtils.ParseUserAttributesKeys` | UserUtils.js:35-49 | After flattening, the keys are the incoming keys plus those some pair writes |
| `UserUtils.ParseUserAttributesLastWriteWins` | UserUtils.js:36-48 | A key holds the value of the last pair that writes it; a key no pair writes is unchanged |
| `UserUtils.ParseUserAttributesSkipsSub` | UserUtils.js:39-46 | Flattening never adds or changes `Sub` or `Custom:tags` |
| `UserUtils.ParseOptionalFields` | UserUtils.js:90-105 | The last entry for each passing key is written, coerced. Keys that fail the filter (`Username`, `UserAttributes`, `""`), `__proto__` (whose assignment creates no own key) and keys no entry has are unchanged |
| `UserUtils.ParseOptionalFieldsKeys` | UserUtils.js:90-105 | After copying, the keys are the earlier keys plus the keys of the entries that pass the filter, except `__proto__` |
| `UserUtils.CreateDisplayName` | UserUtils.js:115-126 | `DisplayName` follows the four-way rule (`G, F` with JavaScript string conversion / `G` / `F` / fallback text), and no other key changes |
| `UserUtils.CreateDisplayNameIdempotent` | UserUtils.js:115-126 | Building the display name twice is building it once |
| `UserUtils.CreateDisplayNameReadsOnlyNames` | UserUtils.js:115-126 | The display name depends only on `GivenName` and `FamilyName` |
| `UserUtils.ParseAttributes` | UserUtils.js:16-24 | The call fails exactly when some pair throws on the tags. Otherwise the output has `Username` and `DisplayName`, and `DisplayName` agrees with the output's own names |
| `UserUtils.ParseAttributesKeys` | UserUtils.js:16-24 | The output's keys are exactly `Username`, `DisplayName`, the keys pairs write, and the keys of passing fields other than `__proto__` |
| `UserUtils.ParseAttributesFieldsWin` | UserUtils.js:20-21 | A passing field overrides any flattened pair under the same key |
| `UserUtils.ParseAttributesPairValue` | UserUtils.js:19-21 | Where no field writes a key, the last pair writing it decides its value |
| `UserUtils.ParseAttributesUsername` | UserUtils.js:18-21 | `Username` is the input's unless some pair normalises to `Username` |
| `UserUtils.ParseAttributesSub` | UserUtils.js:18-21 | The output has `Sub` exactly when the input has a top-level `Sub` field; pairs never supply it |
| `Scenarios.CommonNames` | UserUtils.js:57-64 | `given_name`, `family_name`, `email_verified`, `custom:tags` and `sub` normalise to `GivenName`, `FamilyName`, `EmailVerified`, `Custom:tags` and `Sub` |
| `Scenarios.ThirdSegmentTruncated` | UserUtils.js:61 | `a_b_cd` normalises to `ABC`: the third segment loses two characters |
| `Scenarios.TagsSplit` | UserUtils.js:41-42 | `custom:tags = "a,b,c"` writes `Tags = ["a", "b", "c"]` |
| `Scenarios.GivenNameCoerced` | UserUtils.js:37-45 | `given_name = "true"` writes the boolean true under `GivenName` |
| `Scenarios.BooleanTagsThrow` | UserUtils.js:41-42 | `custom:tags = "true"` makes the whole call throw |
| `Scenarios.DisplayNames` | UserUtils.js:115-126 | `Ada`/`Lovelace` gives `Ada, Lovelace`; `Ada` alone gives `Ada`; neither gives the fallback text |
| `Scenarios.WholeRecord` | UserUtils.js:16-24 | The sample record with `sub`, names, tags and `Enabled = "true"` flattens to the expected six keys |
| `Scenarios.ProtoFieldIgnored` | UserUtils.js:90-105 | A record whose only other field is `__proto__ = "x"` gives just `Username` and the fallback `DisplayName` |

## Left out

- Text.ToUpper: upper-casing is ASCII only (`a`-`z`). JavaScript's full Unicode `toUpperCase`, including characters whose upper case is longer than one character, is not modelled.
- Naming.TitleCase: a Dafny `string` is a sequence of Unicode scalar values, while `charAt` and `slice` count UTF-16 code units. On names with characters outside the Basic Multilingual Plane the two differ: the source turns segment 2 of `x_y_😀z` into a lone high surrogate followed by `z`, the model into `😀`. The same holds for `Text.Capital` and `Text.Drop`.
- Values.LooselyEquals: loose equality is modelled only for strings, booleans and arrays of strings. Numbers, `null`, `undefined` and objects are not values of the model.
- Field values other than strings, booleans and arrays of strings (numbers, nested objects, `null`) are not modelled.
- The order of the remaining top-level fields is an input: a sequence in the order `Object.keys` gives. Its rules for integer-like keys are not modelled. Duplicate keys cannot occur in a JavaScript object; the model accepts them, and the last one wins.
- A missing `Username`, a missing `UserAttributes`, and malformed pairs without `Name` or `Value` are excluded by the types: a `User` always has all three, and every pair has two strings.
- The loop counters `i` and `j` are undeclared globals in the source. They are modelled as local positions: the loops never nest on the same variable, so behaviour is the same.
- The commented-out block that reads `input.json` and writes `myOutput.json` (UserUtils.js:128-136) is file I/O and is not modelled.
- The output is a `map`, so the order in which keys were inserted is not kept. `JSON.stringify` of the source's result would list `Username` first and `DisplayName` last, in insertion order.
- A field `__proto__` whose value is an array replaces the output's prototype in the source. The model has no prototypes; it only records that no own key is created.
- In-place mutation of the output object is modelled as threading an immutable map through pure functions. Each stage returns the object it received, so the two are equivalent.
