/**
 The string primitives the user-record flattener relies on, with JavaScript's
 semantics: `String.prototype.split` and `Array.prototype.join` on a
 one-character separator, `charAt(0).toUpperCase()` and `slice(n)`.
 Upper-casing is ASCII only. A Dafny `string` is a sequence of Unicode scalar
 values, while JavaScript indexes UTF-16 code units, so `charAt` and `slice`
 agree with JavaScript only on text inside the Basic Multilingual Plane.
 */
module Text {

  /** ASCII upper-casing of one character: `a`..`z` become `A`..`Z`, every other character is kept. */
  function ToUpper(c: char): (r: char)
    ensures 'a' <= c <= 'z' ==> 'A' <= r <= 'Z' && r as int - 'A' as int == c as int - 'a' as int
    ensures !('a' <= c <= 'z') ==> r == c
    ensures !('a' <= r <= 'z')
    ensures r == '_' <==> c == '_'
  {
    if 'a' <= c <= 'z' then (c as int - 32) as char else c
  }

  /** Upper-casing an upper-cased character changes nothing. */
  lemma ToUpperIdempotent(c: char)
    ensures ToUpper(ToUpper(c)) == ToUpper(c)
  {
  }

  /** `s.charAt(0).toUpperCase()`: the first character upper-cased, or "" when `s` is empty. */
  function Capital(s: string): string
  {
    if |s| == 0 then "" else [ToUpper(s[0])]
  }

  /** `s.slice(n)` for a non-negative `n`: `s` without its first `n` characters, "" once `n` passes the end. */
  function Drop(s: string, n: nat): string
  {
    if n <= |s| then s[n..] else ""
  }

  /** `parts.join(d)`: the parts separated by `d`; "" for no parts. */
  function Join(parts: seq<string>, d: char): string
  {
    if |parts| == 0 then ""
    else if |parts| == 1 then parts[0]
    else parts[0] + [d] + Join(parts[1..], d)
  }

  /**
   `s.split(d)`: the maximal runs of `s` between occurrences of `d`, in
   order, read off from the front. The lemmas below show there is one more
   part than `s` has occurrences of `d`, that no part holds `d`, and that
   splitting and joining are inverse.
   */
  function Split(s: string, d: char): (parts: seq<string>)
    ensures |parts| >= 1
    decreases |s|
  {
    if |s| == 0 then [""]
    else
      var rest := Split(s[1..], d);
      if s[0] == d then [""] + rest
      else [[s[0]] + rest[0]] + rest[1..]
  }

  /** One step of splitting: the first character either closes an empty part or joins the first part. */
  lemma SplitCons(c: char, t: string, d: char)
    ensures Split([c] + t, d) ==
      if c == d then [""] + Split(t, d) else [[c] + Split(t, d)[0]] + Split(t, d)[1..]
  {
    assert ([c] + t)[1..] == t;
  }

  /** There is one more part than separators. */
  lemma {:induction false} SplitCount(s: string, d: char)
    ensures |Split(s, d)| == multiset(s)[d] + 1
    decreases |s|
  {
    if |s| > 0 {
      SplitCount(s[1..], d);
      assert s == [s[0]] + s[1..];
      assert multiset(s) == multiset([s[0]]) + multiset(s[1..]);
    }
  }

  /** No part holds the separator. */
  lemma {:induction false} SplitPartsFree(s: string, d: char)
    ensures forall i :: 0 <= i < |Split(s, d)| ==> d !in Split(s, d)[i]
    decreases |s|
  {
    if |s| > 0 {
      SplitPartsFree(s[1..], d);
    }
  }

  /** Putting a character in front of the first part puts it in front of the joined string. */
  lemma JoinExtendsFirstPart(parts: seq<string>, c: char, d: char)
    requires |parts| >= 1
    ensures Join([[c] + parts[0]] + parts[1..], d) == [c] + Join(parts, d)
  {
    var q := [[c] + parts[0]] + parts[1..];
    assert q[0] == [c] + parts[0];
    assert q[1..] == parts[1..];
    if |parts| > 1 {
      assert Join(q, d) == ([c] + parts[0]) + [d] + Join(parts[1..], d);
    }
  }

  /** Round trip: joining the parts of `s` with the separator gives `s` back. */
  lemma {:induction false} JoinSplit(s: string, d: char)
    ensures Join(Split(s, d), d) == s
    decreases |s|
  {
    if |s| > 0 {
      JoinSplit(s[1..], d);
      var rest := Split(s[1..], d);
      assert s == [s[0]] + s[1..];
      if s[0] == d {
        assert ([""] + rest)[1..] == rest;
      } else {
        JoinExtendsFirstPart(rest, s[0], d);
      }
    }
  }

  /** A string without the separator splits into itself alone. */
  lemma {:induction false} SplitWithoutSeparator(s: string, d: char)
    requires d !in s
    ensures Split(s, d) == [s]
    decreases |s|
  {
    if |s| > 0 {
      SplitWithoutSeparator(s[1..], d);
      assert [s[0]] + s[1..] == s;
    }
  }

  /** Splitting `p + d + t`, where `p` holds no `d`, yields `p` followed by the parts of `t`. */
  lemma {:induction false} SplitAfterPart(p: string, d: char, t: string)
    requires d !in p
    ensures Split(p + [d] + t, d) == [p] + Split(t, d)
    decreases |p|
  {
    if |p| == 0 {
      assert p + [d] + t == [d] + t;
      SplitCons(d, t, d);
    } else {
      var tail := p[1..];
      assert p == [p[0]] + tail;
      assert p + [d] + t == [p[0]] + (tail + [d] + t);
      SplitAfterPart(tail, d, t);
      SplitCons(p[0], tail + [d] + t, d);
      var rest := [tail] + Split(t, d);
      assert rest[0] == tail && rest[1..] == Split(t, d);
    }
  }

  /** Splitting `p + d + seg`, where `seg` holds no `d`, appends `seg` to the parts of `p`. */
  lemma {:induction false} SplitBeforeLastPart(p: string, d: char, seg: string)
    requires d !in seg
    ensures Split(p + [d] + seg, d) == Split(p, d) + [seg]
    decreases |p|
  {
    if |p| == 0 {
      assert p + [d] + seg == [] + [d] + seg;
      SplitAfterPart([], d, seg);
      SplitWithoutSeparator(seg, d);
    } else {
      var tail := p[1..];
      assert p == [p[0]] + tail;
      assert p + [d] + seg == [p[0]] + (tail + [d] + seg);
      SplitBeforeLastPart(tail, d, seg);
      SplitCons(p[0], tail + [d] + seg, d);
      SplitCons(p[0], tail, d);
      AppendKeepsHead(Split(tail, d), seg, [p[0]]);
    }
  }

  /** Appending an element after a non-empty sequence leaves its head alone. */
  lemma AppendKeepsHead(xs: seq<string>, x: string, c: string)
    requires |xs| >= 1
    ensures [c + (xs + [x])[0]] + (xs + [x])[1..] == ([c + xs[0]] + xs[1..]) + [x]
    ensures [""] + (xs + [x]) == ([""] + xs) + [x]
  {
    assert (xs + [x])[1..] == xs[1..] + [x];
  }

  /** The other round trip: parts without the separator come back from splitting their join. */
  lemma {:induction false} SplitJoin(parts: seq<string>, d: char)
    requires |parts| >= 1
    requires forall i :: 0 <= i < |parts| ==> d !in parts[i]
    ensures Split(Join(parts, d), d) == parts
  {
    if |parts| == 1 {
      SplitWithoutSeparator(parts[0], d);
    } else {
      SplitJoin(parts[1..], d);
      SplitAfterPart(parts[0], d, Join(parts[1..], d));
      assert [parts[0]] + parts[1..] == parts;
    }
  }

  /** Joining two or more parts always puts a separator in the result. */
  lemma JoinOfSeveralHasSeparator(parts: seq<string>, d: char)
    requires |parts| >= 2
    ensures d in Join(parts, d)
  {
    var s := Join(parts, d);
    assert s == parts[0] + [d] + Join(parts[1..], d);
    assert s[|parts[0]|] == d;
  }

  /** A non-empty word without the separator is the join of exactly one list: the word alone. */
  lemma JoinIsWord(parts: seq<string>, d: char, w: string)
    requires w != "" && d !in w
    ensures Join(parts, d) == w <==> parts == [w]
  {
    if |parts| >= 2 {
      JoinOfSeveralHasSeparator(parts, d);
    }
  }
}
