/**
 The values a flattened user record holds, and the two JavaScript conversions
 the flattener applies to them: the string-to-boolean coercion `checkTruthy`
 (with the loose equality `==` it is written with) and the string conversion
 that `+` performs when the display name is built.
 */
module Values {
  import opened Text

  /** A field value: a string, a boolean, or an array of strings (the split tags). */
  datatype Value = Str(s: string) | Bool(b: bool) | List(items: seq<string>)

  /** JavaScript's ToString: booleans print as `true`/`false`, an array joins its items with `,`. */
  function ToJsString(v: Value): string
  {
    match v
    case Str(s) => s
    case Bool(b) => if b then "true" else "false"
    case List(items) => Join(items, ',')
  }

  /**
   JavaScript's `v == literal` for the literals "true" and "false". A string
   compares as text; a boolean is compared as the number 0 or 1 against the
   literal's numeric value NaN, so never equal; an array is first converted
   to its joined string.
   */
  predicate LooselyEquals(v: Value, literal: string)
    requires literal == "true" || literal == "false"
    ensures LooselyEquals(v, literal) <==> v == Str(literal) || v == List([literal])
  {
    match v
    case Str(s) => s == literal
    case Bool(_) => false
    case List(items) =>
      JoinIsWord(items, ',', literal);
      Join(items, ',') == literal
  }

  /**
   `checkTruthy`: the values loosely equal to "true" become the boolean true,
   those loosely equal to "false" become false, and everything else is
   returned unchanged. Besides the two strings, the one-item arrays
   ["true"] and ["false"] are caught by the loose equality.
   */
  function CheckTruthy(v: Value): (r: Value)
    ensures r == Bool(true) <==> v == Bool(true) || v == Str("true") || v == List(["true"])
    ensures r == Bool(false) <==> v == Bool(false) || v == Str("false") || v == List(["false"])
    ensures !r.Bool? ==> r == v
  {
    if LooselyEquals(v, "true") then Bool(true)
    else if LooselyEquals(v, "false") then Bool(false)
    else v
  }

  /** Coercing twice is coercing once: a coerced value is never coerced again. */
  lemma CheckTruthyIdempotent(v: Value)
    ensures CheckTruthy(CheckTruthy(v)) == CheckTruthy(v)
  {
  }

  /** A string is changed by the coercion exactly when it is one of the two boolean literals. */
  lemma CheckTruthyOnStrings(s: string)
    ensures CheckTruthy(Str(s)) != Str(s) <==> s == "true" || s == "false"
    ensures CheckTruthy(Str(s)).Bool? || CheckTruthy(Str(s)) == Str(s)
  {
  }
}
