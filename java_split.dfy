/**
  The behaviour of java.lang.String.split when the pattern is one literal
  character, as the servlet uses it: `split("&")` and `split("=")` (limit zero)
  in the form-body parser, `split("/", 5)` when it takes the key from a GET URI.

  With limit zero Java cuts the string at every delimiter, returns the whole
  string when there is no delimiter at all, and otherwise drops the empty
  strings at the end of the result. With a positive limit n it cuts at most
  n - 1 times and keeps every piece, empty ones included.
*/
module JavaSplit {

  /** Index of the first occurrence of `c` in `s` (String.indexOf). */
  function FirstIndex(s: string, c: char): (i: nat)
    requires c in s
    ensures i < |s| && s[i] == c && c !in s[..i]
  {
    if s[0] == c then 0
    else
      var j := FirstIndex(s[1..], c);
      assert s[..1 + j] == [s[0]] + s[1..][..j];
      1 + j
  }

  /** Glues pieces back together with `c` between neighbours. */
  function Join(xs: seq<string>, c: char): string
    requires |xs| >= 1
  {
    if |xs| == 1 then xs[0] else xs[0] + [c] + Join(xs[1..], c)
  }

  /** No piece contains the delimiter. */
  predicate Free(xs: seq<string>, c: char)
  {
    forall k :: 0 <= k < |xs| ==> c !in xs[k]
  }

  /** Every piece of `s` between occurrences of `c`, empty pieces included. */
  function Pieces(s: string, c: char): (r: seq<string>)
    ensures |r| >= 1
    decreases |s|
  {
    if c !in s then [s]
    else
      var i := FirstIndex(s, c);
      [s[..i]] + Pieces(s[i + 1..], c)
  }

  /** The first piece is the text before the first delimiter, or everything when there is none. */
  lemma PiecesFirst(s: string, c: char)
    ensures Pieces(s, c)[0] == if c in s then s[..FirstIndex(s, c)] else s
  {
  }

  /** The empty strings at the end of a list removed (what limit zero does). */
  function DropTrailingEmpty(xs: seq<string>): (r: seq<string>)
    ensures |r| <= |xs| && r == xs[..|r|]
    ensures r == [] || r[|r| - 1] != []
    ensures forall k :: |r| <= k < |xs| ==> xs[k] == []
  {
    if xs == [] || xs[|xs| - 1] != [] then xs
    else DropTrailingEmpty(xs[..|xs| - 1])
  }

  /**
    `s.split(c)`: limit zero. A string without `c` comes back whole; otherwise
    the result is the cut at every delimiter with all trailing empty pieces
    dropped, so what is kept is a prefix of the cut ending in a non-empty piece.
  */
  function Split(s: string, c: char): (r: seq<string>)
    ensures c !in s ==> r == [s]
    ensures var p := Pieces(s, c);
      |r| <= |p| && r == p[..|r|] && forall k :: |r| <= k < |p| ==> p[k] == []
    ensures c in s ==> r == [] || r[|r| - 1] != []
  {
    if c !in s then [s] else DropTrailingEmpty(Pieces(s, c))
  }

  /**
    `s.split(c, limit)` for a positive limit: the result is never empty, holds at
    most `limit` pieces, joins back to `s`, and only its last piece may contain
    `c`, which it does only when the limit was reached.
  */
  function SplitLimit(s: string, c: char, limit: nat): (r: seq<string>)
    requires limit >= 1
    ensures 1 <= |r| <= limit
    ensures Join(r, c) == s
    ensures forall k :: 0 <= k < |r| - 1 ==> c !in r[k]
    ensures |r| < limit ==> c !in r[|r| - 1]
    decreases limit
  {
    if limit == 1 || c !in s then [s]
    else
      var i := FirstIndex(s, c);
      var rest := SplitLimit(s[i + 1..], c, limit - 1);
      var r := [s[..i]] + rest;
      JoinCons(s[..i], rest, c);
      assert s == s[..i] + [c] + s[i + 1..];
      r
  }

  /** Putting one piece in front of a list: the join gains that piece and a delimiter. */
  lemma JoinCons(x: string, xs: seq<string>, c: char)
    requires |xs| >= 1
    ensures var r := [x] + xs;
      && Join(r, c) == x + [c] + Join(xs, c)
      && r[1..] == xs
      && forall k :: 1 <= k < |r| ==> r[k] == xs[k - 1]
  {
    assert ([x] + xs)[1..] == xs;
  }

  /** The last piece ends the joined string, right after a delimiter unless it is the whole string. */
  lemma {:induction false} JoinEndsWithLast(xs: seq<string>, c: char)
    requires |xs| >= 1
    ensures var s := Join(xs, c); var l := xs[|xs| - 1];
      |l| <= |s| && s[|s| - |l|..] == l && (|l| < |s| ==> s[|s| - |l| - 1] == c)
  {
    if |xs| > 1 {
      JoinEndsWithLast(xs[1..], c);
      var y := Join(xs[1..], c);
      var l := xs[|xs| - 1];
      assert xs[1..][|xs[1..]| - 1] == l;
      var s := xs[0] + [c] + y;
      assert s[|s| - |y|..] == y;
      if |l| < |y| {
        assert s[|s| - |l| - 1] == y[|y| - |l| - 1];
      } else {
        assert s[|s| - |l| - 1] == s[|s| - |y| - 1];
      }
      assert s[|s| - |l|..] == y[|y| - |l|..];
    }
  }

  /** Cutting at every delimiter loses nothing: the pieces join back to `s`. */
  lemma {:induction false} PiecesJoin(s: string, c: char)
    ensures Join(Pieces(s, c), c) == s
    ensures Free(Pieces(s, c), c)
    decreases |s|
  {
    if c in s {
      var i := FirstIndex(s, c);
      var tail := Pieces(s[i + 1..], c);
      PiecesJoin(s[i + 1..], c);
      assert ([s[..i]] + tail)[1..] == tail;
      assert s == s[..i] + [c] + s[i + 1..];
    }
  }

  /** The first delimiter of `x + [c] + y` sits just after `x` when `x` has none. */
  lemma FirstIndexAfter(x: string, c: char, y: string)
    requires c !in x
    ensures FirstIndex(x + [c] + y, c) == |x|
  {
    var s := x + [c] + y;
    assert s[|x|] == c;
    assert s[..|x|] == x;
  }

  /** One cut at every delimiter, on a string whose first delimiter follows `x`. */
  lemma PiecesStep(x: string, c: char, y: string)
    requires c !in x
    ensures Pieces(x + [c] + y, c) == [x] + Pieces(y, c)
  {
    var s := x + [c] + y;
    FirstIndexAfter(x, c, y);
    assert s[..|x|] == x;
    assert s[|x| + 1..] == y;
  }

  /** Pieces and Join are inverse: any delimiter-free list is the cut of its join. */
  lemma {:induction false} PiecesOfJoin(xs: seq<string>, c: char)
    requires |xs| >= 1 && Free(xs, c)
    ensures Pieces(Join(xs, c), c) == xs
  {
    if |xs| > 1 {
      var tail := xs[1..];
      assert Free(tail, c) by {
        assert forall k :: 0 <= k < |tail| ==> tail[k] == xs[k + 1];
      }
      assert c !in xs[0];
      var y := Join(tail, c);
      assert Join(xs, c) == xs[0] + [c] + y;
      PiecesStep(xs[0], c, y);
      PiecesOfJoin(tail, c);
      assert [xs[0]] + tail == xs;
    }
  }

  /** A delimiter-free list whose last piece is not empty is what `split` returns for its join. */
  lemma SplitOfJoin(xs: seq<string>, c: char)
    requires |xs| >= 1 && Free(xs, c) && xs[|xs| - 1] != []
    ensures Split(Join(xs, c), c) == xs
  {
    PiecesOfJoin(xs, c);
    var s := Join(xs, c);
    if c !in s {
      assert Pieces(s, c) == [s];
    }
  }

  /** One cut of `split(c, limit)` on a string whose first delimiter follows `x`. */
  lemma SplitLimitStep(x: string, c: char, y: string, limit: nat)
    requires c !in x && limit >= 2
    ensures SplitLimit(x + [c] + y, c, limit) == [x] + SplitLimit(y, c, limit - 1)
  {
    var s := x + [c] + y;
    FirstIndexAfter(x, c, y);
    assert s[..|x|] == x;
    assert s[|x| + 1..] == y;
  }

  /** Every string in the list is empty. */
  predicate AllEmpty(xs: seq<string>)
  {
    forall k :: 0 <= k < |xs| ==> xs[k] == []
  }

  /** Every character of the string is `c`. */
  predicate AllDelimiters(s: string, c: char)
  {
    forall j :: 0 <= j < |s| ==> s[j] == c
  }

  /** All pieces are empty exactly when `s` consists of delimiters only. */
  lemma {:induction false} PiecesAllEmpty(s: string, c: char)
    ensures AllEmpty(Pieces(s, c)) <==> AllDelimiters(s, c)
    decreases |s|
  {
    if c !in s {
      assert Pieces(s, c) == [s];
      if s != [] {
        assert s[0] in s;
      }
    } else {
      var i := FirstIndex(s, c);
      var rest := s[i + 1..];
      assert Pieces(s, c) == [s[..i]] + Pieces(rest, c);
      PiecesAllEmpty(rest, c);
      if AllDelimiters(s, c) {
        assert s[0] == c;
        assert i == 0;
        assert forall j :: 0 <= j < |rest| ==> rest[j] == s[j + 1];
      }
      if AllEmpty(Pieces(s, c)) {
        assert Pieces(s, c)[0] == s[..i];
        assert forall k :: 0 <= k < |Pieces(rest, c)| ==> Pieces(rest, c)[k] == Pieces(s, c)[k + 1];
        assert forall j :: 1 <= j < |s| ==> s[j] == rest[j - 1];
      }
    }
  }
}
