/**
 * String helpers used by the controller and the authentication stage:
 * the `string.IsNullOrWhiteSpace` / `string.IsNullOrEmpty` tests, `Split(" ")`
 * and `Last()`, and decimal rendering of an id for messages.
 */
module Text {
  import opened Wrappers

  /** `char.IsWhiteSpace`: U+0009..U+000D, U+0020, U+0085, U+00A0 and the
      Unicode space, line and paragraph separators. */
  predicate IsWhiteSpace(c: char)
  {
    var n := c as int;
    || (9 <= n <= 13) || n == 0x20 || n == 0x85 || n == 0xA0 || n == 0x1680
    || (0x2000 <= n <= 0x200A) || n == 0x2028 || n == 0x2029 || n == 0x202F
    || n == 0x205F || n == 0x3000
  }

  /** `string.IsNullOrWhiteSpace`: null, empty, or white space only. */
  predicate IsNullOrWhiteSpace(s: Option<string>)
  {
    s.None? || forall i :: 0 <= i < |s.value| ==> IsWhiteSpace(s.value[i])
  }

  /** `string.IsNullOrEmpty`. */
  predicate IsNullOrEmpty(s: Option<string>)
  {
    s.None? || |s.value| == 0
  }

  /** `s.Split(" ")` with no options: one segment per space, plus one. Empty
      segments are kept. */
  function Split(s: string): (parts: seq<string>)
    ensures |parts| >= 1
    ensures forall i :: 0 <= i < |parts| ==> ' ' !in parts[i]
    decreases |s|
  {
    if |s| == 0 then [""]
    else
      var rest := Split(s[1..]);
      if s[0] == ' ' then [""] + rest
      else [[s[0]] + rest[0]] + rest[1..]
  }

  /** `string.Join(" ", parts)`: the inverse of Split. */
  function Join(parts: seq<string>): (s: string)
    requires |parts| >= 1
  {
    if |parts| == 1 then parts[0] else parts[0] + " " + Join(parts[1..])
  }

  /** Joining the segments with single spaces gives back the original text,
      so Split loses nothing. */
  lemma {:induction false} JoinSplit(s: string)
    ensures Join(Split(s)) == s
    decreases |s|
  {
    if |s| > 0 {
      var rest := Split(s[1..]);
      JoinSplit(s[1..]);
      if s[0] == ' ' {
        assert Split(s)[1..] == rest;
      } else {
        var parts := Split(s);
        if |rest| == 1 {
          assert parts == [[s[0]] + rest[0]];
        } else {
          assert parts[1..] == rest[1..];
          assert Join(rest) == rest[0] + " " + Join(rest[1..]);
        }
        assert s == [s[0]] + s[1..];
      }
    }
  }

  /** Splitting the join of space-free segments gives the segments back. */
  lemma {:induction false} SplitJoin(parts: seq<string>)
    requires |parts| >= 1
    requires forall i :: 0 <= i < |parts| ==> ' ' !in parts[i]
    ensures Split(Join(parts)) == parts
    decreases |Join(parts)|, |parts|
  {
    if |parts| == 1 {
      SplitSpaceFree(parts[0]);
    } else {
      var p := parts[0];
      if |p| == 0 {
        var j := Join(parts[1..]);
        assert Join(parts) == [' '] + j;
        assert Join(parts)[1..] == j;
        SplitJoin(parts[1..]);
      } else {
        var tail := [p[1..]] + parts[1..];
        assert tail[1..] == parts[1..];
        assert Join(tail) == p[1..] + " " + Join(parts[1..]);
        assert Join(parts)[1..] == Join(tail);
        assert ' ' !in p[1..] by {
          forall i | 0 <= i < |p[1..]| ensures p[1..][i] != ' ' { assert p[1..][i] == p[i + 1]; }
        }
        SplitJoin(tail);
        assert Join(parts)[0] == p[0];
        assert [p[0]] + p[1..] == p;
      }
    }
  }

  /** Text without a space is one segment: itself. */
  lemma {:induction false} SplitSpaceFree(s: string)
    requires ' ' !in s
    ensures Split(s) == [s]
    decreases |s|
  {
    if |s| > 0 {
      assert ' ' !in s[1..] by {
        forall i | 0 <= i < |s[1..]| ensures s[1..][i] != ' ' { assert s[1..][i] == s[i + 1]; }
      }
      SplitSpaceFree(s[1..]);
      assert [s[0]] + s[1..] == s;
    }
  }

  /** `Split(" ").Last()`: the token of an Authorization header value. */
  function LastSegment(s: string): (t: string)
    ensures ' ' !in t
  {
    var parts := Split(s);
    parts[|parts| - 1]
  }

  /** The last segment is exactly the text after the last space of `s`, or the
      whole of `s` when it has no space: a space-free suffix that is either all
      of `s` or preceded by a space. */
  lemma {:induction false} LastSegmentIsTextAfterLastSpace(s: string)
    ensures var t := LastSegment(s);
      && |t| <= |s| && t == s[|s| - |t|..]
      && (|t| < |s| ==> s[|s| - |t| - 1] == ' ')
    decreases |s|
  {
    if |s| > 0 {
      var rest := s[1..];
      var tr := LastSegment(rest);
      LastSegmentIsTextAfterLastSpace(rest);
      var parts := Split(rest);
      if s[0] == ' ' {
        assert LastSegment(s) == tr;
      } else if |parts| == 1 {
        JoinSplit(rest);
        assert LastSegment(s) == [s[0]] + parts[0];
        assert [s[0]] + rest == s;
      } else {
        assert LastSegment(s) == tr;
        if |tr| == |rest| {
          JoinSplit(rest);
          JoinHasSpace(parts);
          assert false;
        }
      }
    }
  }

  /** More than one segment means a space was there to split at. */
  lemma JoinHasSpace(parts: seq<string>)
    requires |parts| >= 2
    ensures ' ' in Join(parts)
  {
    assert Join(parts)[|parts[0]|] == ' ';
  }

  /** A header value that ends in a space yields the empty token. */
  lemma TrailingSpaceGivesEmptyToken(s: string)
    requires |s| > 0 && s[|s| - 1] == ' '
    ensures LastSegment(s) == ""
  {
    LastSegmentIsTextAfterLastSpace(s);
  }

  /** A header value without a space is its own token. */
  lemma SpaceFreeIsOwnToken(s: string)
    requires ' ' !in s
    ensures LastSegment(s) == s
  {
    SplitSpaceFree(s);
  }

  /** When position `k` holds the last space of `s`, the token is the text
      after it. */
  lemma TokenFollowsLastSpace(s: string, k: nat)
    requires k < |s| && s[k] == ' ' && ' ' !in s[k + 1..]
    ensures LastSegment(s) == s[k + 1..]
  {
    LastSegmentIsTextAfterLastSpace(s);
  }

  /** The examples of the extraction: "Bearer a b" gives "b", "abc" gives
      "abc", "Bearer " gives "". */
  lemma TokenExamples()
    ensures LastSegment("Bearer a b") == "b"
    ensures LastSegment("abc") == "abc"
    ensures LastSegment("Bearer ") == ""
  {
    TokenFollowsLastSpace("Bearer a b", 8);
    SpaceFreeIsOwnToken("abc");
    TrailingSpaceGivesEmptyToken("Bearer ");
  }

  function Digit(d: int): (c: char)
    requires 0 <= d < 10
  {
    (48 + d) as char
  }

  /** Decimal rendering of a non-negative integer, as in string interpolation. */
  function NatString(n: nat): (s: string)
    decreases n
  {
    if n < 10 then [Digit(n)] else NatString(n / 10) + [Digit(n % 10)]
  }

  /** Decimal rendering of an integer, with a leading minus sign if negative. */
  function IntString(n: int): (s: string)
  {
    if n < 0 then "-" + NatString(-n) else NatString(n)
  }
}
