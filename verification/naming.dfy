/**
 `titleCase`: the snake-case to title-case normaliser applied to attribute
 names. The name is split on `_`; every segment contributes its first
 character upper-cased followed by its tail, where the tail of segment `j`
 starts at offset `j` (offset 1 for segment 0). For the third segment on this
 drops more than the first character, and the model keeps that behaviour.
 */
module Naming {
  import opened Text

  /** The text segment number `j` contributes: `charAt(0).toUpperCase() + slice(j)`, with `slice(1)` for segment 0. */
  function Piece(segment: string, j: nat): string
  {
    Capital(segment) + Drop(segment, if j == 0 then 1 else j)
  }

  /** A segment without `_` contributes no `_`. */
  lemma PieceUnscored(segment: string, j: nat)
    requires '_' !in segment
    ensures '_' !in Piece(segment, j)
  {
    var n := if j == 0 then 1 else j;
    if n <= |segment| {
      var tail := segment[n..];
      assert forall i :: 0 <= i < |tail| ==> tail[i] == segment[n + i];
    }
    if |segment| > 0 {
      assert Capital(segment) == [ToUpper(segment[0])];
    }
  }

  /** The string the loop has built once every segment's piece has been appended, in order. */
  function Assemble(segments: seq<string>): string
  {
    if |segments| == 0 then ""
    else
      var n := |segments| - 1;
      Assemble(segments[..n]) + Piece(segments[n], n)
  }

  /** No `_` comes out of segments without one. */
  lemma {:induction false} AssembleUnscored(segments: seq<string>)
    requires forall j :: 0 <= j < |segments| ==> '_' !in segments[j]
    ensures '_' !in Assemble(segments)
  {
    if |segments| > 0 {
      var n := |segments| - 1;
      AssembleUnscored(segments[..n]);
      PieceUnscored(segments[n], n);
    }
  }

  /** The string is empty or starts with a character that is not a lower-case letter. */
  predicate StartsUpper(s: string)
  {
    |s| > 0 ==> !('a' <= s[0] <= 'z')
  }

  /** A piece starts with its segment's first character upper-cased, or is empty with its segment. */
  lemma PieceStartsUpper(segment: string, j: nat)
    ensures StartsUpper(Piece(segment, j))
  {
    if |segment| > 0 {
      assert Piece(segment, j)[0] == ToUpper(segment[0]);
    }
  }

  /** The accumulated string starts with an upper-cased character, whichever segment supplied it. */
  lemma {:induction false} AssembleStartsUpper(segments: seq<string>)
    ensures StartsUpper(Assemble(segments))
  {
    if |segments| > 0 {
      var n := |segments| - 1;
      AssembleStartsUpper(segments[..n]);
      var prev := Assemble(segments[..n]);
      var piece := Piece(segments[n], n);
      PieceStartsUpper(segments[n], n);
      if |prev| == 0 {
        assert prev + piece == piece;
      } else {
        assert (prev + piece)[0] == prev[0];
      }
    }
  }

  /**
   The normalised name. It never contains `_` and it never starts with a
   lower-case letter.
   */
  function TitleCase(name: string): (r: string)
    ensures '_' !in r
    ensures |r| > 0 ==> !('a' <= r[0] <= 'z')
  {
    var segments := Split(name, '_');
    SplitPartsFree(name, '_');
    AssembleUnscored(segments);
    AssembleStartsUpper(segments);
    Assemble(segments)
  }

  /** Appending one segment appends its piece. */
  lemma AssembleOneMore(segments: seq<string>, segment: string)
    ensures Assemble(segments + [segment]) == Assemble(segments) + Piece(segment, |segments|)
  {
    assert (segments + [segment])[..|segments|] == segments;
  }

  /**
   Appending a segment: `name + "_" + segment` normalises to the normalised
   `name` followed by the segment's first character upper-cased and its tail
   from offset k, where k is the segment's position: the number of segments
   of `name`, which `SplitCount` shows is one more than the number of
   underscores in `name`. For k >= 2 the characters between the first and
   the k-th are lost.
   */
  lemma TitleCaseAppendSegment(name: string, segment: string)
    requires '_' !in segment
    ensures TitleCase(name + "_" + segment) ==
      TitleCase(name) + Capital(segment) + Drop(segment, |Split(name, '_')|)
  {
    var whole := name + "_" + segment;
    var k := |Split(name, '_')|;
    AssembleAfterUnderscore(name, segment);
    Regroup(TitleCase(whole), Assemble(Split(whole, '_')), TitleCase(name), Assemble(Split(name, '_')),
            Capital(segment), Drop(segment, k));
  }

  /** `t` is `a` and `u` is `b`, so `a == b + (p + q)` carries over to `t` and `u`. */
  lemma Regroup(t: string, a: string, u: string, b: string, p: string, q: string)
    requires t == a && u == b && a == b + (p + q)
    ensures t == u + p + q
  {
  }

  /** `TitleCaseAppendSegment` stated on the segments, before the names are title-cased. */
  lemma AssembleAfterUnderscore(name: string, segment: string)
    requires '_' !in segment
    ensures Assemble(Split(name + "_" + segment, '_')) ==
      Assemble(Split(name, '_')) + (Capital(segment) + Drop(segment, |Split(name, '_')|))
  {
    var front := Split(name, '_');
    assert name + "_" + segment == name + ['_'] + segment;
    SplitBeforeLastPart(name, '_', segment);
    AssembleOneMore(front, segment);
  }

  /** A name without `_` is one segment: only its first character is upper-cased. */
  lemma TitleCaseOneWord(name: string)
    requires '_' !in name
    ensures TitleCase(name) == Capital(name) + Drop(name, 1)
  {
    SplitWithoutSeparator(name, '_');
    assert [name][..0] == [];
  }

  /** Names of one or two segments are title-cased as intended: each segment's first character upper-cased, the rest kept. */
  lemma TitleCaseOfTwoWords(first: string, second: string)
    requires '_' !in first && '_' !in second
    ensures TitleCase(first + "_" + second) ==
      Capital(first) + Drop(first, 1) + Capital(second) + Drop(second, 1)
  {
    TitleCaseAppendSegment(first, second);
    TitleCaseOneWord(first);
    SplitWithoutSeparator(first, '_');
  }

  /** Normalising a normalised name changes nothing. */
  lemma TitleCaseIdempotent(name: string)
    ensures TitleCase(TitleCase(name)) == TitleCase(name)
  {
    var r := TitleCase(name);
    TitleCaseOneWord(r);
    if |r| > 0 {
      assert Capital(r) == [r[0]];
      assert [r[0]] + Drop(r, 1) == r;
    }
  }
}
