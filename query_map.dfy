/**
  The servlet's form-body parser (`getQueryMap`): the first line of a POST body
  is cut at every `&` into segments, each segment is cut at every `=`, and the
  first two parts become a name and a value in a hash map, a later segment
  overwriting an earlier one of the same name. A segment whose `=`-split has
  fewer than two parts makes the lookup of part 1 (or part 0) throw, so the
  whole parse fails; that is `None` here.

  Neither names nor values are URL-decoded: the model, like the servlet, keeps
  the raw text.
*/
module FormBody {
  import opened Wrappers
  import opened JavaSplit

  /** Some `=` in the segment is followed, later on, by a character other than `=`. */
  predicate HasValue(seg: string)
  {
    exists i, j :: 0 <= i < j < |seg| && seg[i] == '=' && seg[j] != '='
  }

  /**
    `seg` starts with `name=value`, where neither holds a `=`, and what follows
    is either nothing or another `=`: the name is the text before the first `=`
    and the value the text from there up to the next `=`.
  */
  predicate Shaped(seg: string, name: string, value: string)
  {
    var n := |name| + 1 + |value|;
    && '=' !in name && '=' !in value
    && n <= |seg| && seg[..n] == name + "=" + value
    && (n == |seg| || seg[n] == '=')
  }

  /** One segment: `param.split("=")[0]` and `param.split("=")[1]`, or failure. */
  function ParseSegment(seg: string): Option<(string, string)>
  {
    var parts := Split(seg, '=');
    if |parts| < 2 then None else Some((parts[0], parts[1]))
  }

  /** Each segment parsed on its own. */
  function Parsed(segs: seq<string>): seq<Option<(string, string)>>
  {
    seq(|segs|, k requires 0 <= k < |segs| => ParseSegment(segs[k]))
  }

  /**
    The map the loop of `getQueryMap` has built after the given parsed segments:
    each pair is put in turn, and the first failed segment fails the whole loop.
  */
  function Collect(parsed: seq<Option<(string, string)>>): Option<map<string, string>>
  {
    if parsed == [] then Some(map[])
    else
      match Collect(parsed[..|parsed| - 1])
      case None => None
      case Some(m) =>
        match parsed[|parsed| - 1]
        case None => None
        case Some(p) => Some(m[p.0 := p.1])
  }

  /** What `getQueryMap(query)` returns, or None where it throws. */
  function QueryMap(query: string): Option<map<string, string>>
  {
    Collect(Parsed(Split(query, '&')))
  }

  /** `getQueryMap`: the loop over the `&`-segments, putting each name and value. */
  method GetQueryMap(query: string) returns (r: Option<map<string, string>>)
    ensures r == QueryMap(query)
  {
    var params := Split(query, '&');
    ghost var parsed := Parsed(params);
    var m: map<string, string> := map[];
    for i := 0 to |params|
      invariant Collect(parsed[..i]) == Some(m)
    {
      var parts := Split(params[i], '=');
      if |parts| < 2 {
        // part 1 (or even part 0) of the split does not exist: the lookup throws
        assert parsed[i] == None;
        CollectDefined(parsed);
        return None;
      }
      assert parsed[i] == Some((parts[0], parts[1]));
      CollectStep(parsed, i, m);
      m := m[parts[0] := parts[1]];
    }
    assert parsed[..|params|] == parsed;
    r := Some(m);
  }

  /** One turn of the loop: a segment that parses adds its name and value to the map so far. */
  lemma CollectStep(parsed: seq<Option<(string, string)>>, i: nat, m: map<string, string>)
    requires i < |parsed| && Collect(parsed[..i]) == Some(m) && parsed[i].Some?
    ensures Collect(parsed[..i + 1]) == Some(m[parsed[i].value.0 := parsed[i].value.1])
  {
    var pre := parsed[..i + 1];
    assert pre[..|pre| - 1] == parsed[..i];
  }

  /** Limit zero leaves two parts or more exactly when some piece after the first is not empty. */
  lemma DropTrailingEmptyAtLeastTwo(p: seq<string>)
    requires |p| >= 1
    ensures |DropTrailingEmpty(p)| >= 2 <==> !AllEmpty(p[1..])
  {
    var r := DropTrailingEmpty(p);
    if |r| >= 2 {
      assert p[1..][|r| - 2] == r[|r| - 1];
    }
    if !AllEmpty(p[1..]) {
      var k :| 0 <= k < |p[1..]| && p[1..][k] != [];
      assert p[k + 1] != [];
    }
  }

  /** A value part exists exactly when something other than `=` follows the first `=`. */
  lemma HasValueAfterFirst(seg: string)
    requires '=' in seg
    ensures var i0 := FirstIndex(seg, '=');
      HasValue(seg) <==> !AllDelimiters(seg[i0 + 1..], '=')
  {
    var i0 := FirstIndex(seg, '=');
    var rest := seg[i0 + 1..];
    if HasValue(seg) {
      var i, j :| 0 <= i < j < |seg| && seg[i] == '=' && seg[j] != '=';
      assert rest[j - i0 - 1] == seg[j];
    }
    if !AllDelimiters(rest, '=') {
      var j :| 0 <= j < |rest| && rest[j] != '=';
      assert seg[i0] == '=' && seg[i0 + 1 + j] == rest[j];
    }
  }

  /** A segment parses exactly when it has a value part. */
  lemma ParseSegmentDefined(seg: string)
    ensures ParseSegment(seg).Some? <==> HasValue(seg)
  {
    if '=' in seg {
      var i0 := FirstIndex(seg, '=');
      var rest := seg[i0 + 1..];
      var p := Pieces(seg, '=');
      assert p[1..] == Pieces(rest, '=');
      DropTrailingEmptyAtLeastTwo(p);
      PiecesAllEmpty(rest, '=');
      HasValueAfterFirst(seg);
    } else {
      assert Split(seg, '=') == [seg];
    }
  }

  /** A segment `name=value` followed by nothing or by more text starting with `=` has that shape. */
  lemma ShapedOf(seg: string, name: string, value: string, tail: string)
    requires seg == name + "=" + value + tail
    requires '=' !in name && '=' !in value && (tail == [] || tail[0] == '=')
    ensures Shaped(seg, name, value)
  {
    var n := |name| + 1 + |value|;
    assert seg[..n] == name + "=" + value;
    assert tail != [] ==> seg[n] == tail[0];
  }

  /** Cut at the first `=` of what follows `name=`, the segment has the shape name=value. */
  lemma ShapedBeforeNext(seg: string, name: string, rest: string)
    requires seg == name + "=" + rest && '=' !in name && '=' in rest
    ensures Shaped(seg, name, rest[..FirstIndex(rest, '=')])
  {
    var i1 := FirstIndex(rest, '=');
    var v := rest[..i1];
    var tail := rest[i1..];
    assert rest == v + tail;
    assert seg == name + "=" + v + tail;
    ShapedOf(seg, name, v, tail);
  }

  /** The text before the first `=` and the first piece after it have the shape name=value. */
  lemma ShapedAtFirst(seg: string)
    requires '=' in seg
    ensures var i0 := FirstIndex(seg, '=');
      Shaped(seg, seg[..i0], Pieces(seg[i0 + 1..], '=')[0])
  {
    var i0 := FirstIndex(seg, '=');
    var name := seg[..i0];
    var rest := seg[i0 + 1..];
    assert seg == name + "=" + rest;
    PiecesFirst(rest, '=');
    if '=' in rest {
      ShapedBeforeNext(seg, name, rest);
    } else {
      ShapedOf(seg, name, rest, []);
    }
  }

  /** A segment that parses has the shape name=value, its name before the first `=`. */
  lemma ParseSegmentShape(seg: string)
    requires ParseSegment(seg).Some?
    ensures Shaped(seg, ParseSegment(seg).value.0, ParseSegment(seg).value.1)
  {
    assert '=' in seg;
    var i0 := FirstIndex(seg, '=');
    var p := Pieces(seg, '=');
    assert p == [seg[..i0]] + Pieces(seg[i0 + 1..], '=');
    var parts := Split(seg, '=');
    assert parts == DropTrailingEmpty(p);
    assert parts[0] == p[0] && parts[1] == p[1];
    ShapedAtFirst(seg);
  }

  /** A segment written as name=value (no `=` in either, value non-empty) parses back to that pair. */
  lemma ParseSegmentOfPair(name: string, value: string)
    requires '=' !in name && '=' !in value && value != []
    ensures ParseSegment(name + "=" + value) == Some((name, value))
  {
    var xs := [name, value];
    assert Join(xs[1..], '=') == value;
    assert Join(xs, '=') == name + "=" + value;
    SplitOfJoin(xs, '=');
  }

  /** The loop completes exactly when every segment parses. */
  lemma {:induction false} CollectDefined(parsed: seq<Option<(string, string)>>)
    ensures Collect(parsed).Some? <==> forall k :: 0 <= k < |parsed| ==> parsed[k].Some?
  {
    if parsed != [] {
      var init := parsed[..|parsed| - 1];
      CollectDefined(init);
      assert forall k :: 0 <= k < |init| ==> init[k] == parsed[k];
    }
  }

  /** The value of the last parsed segment named `name`, searching from the end. */
  function LastValue(parsed: seq<Option<(string, string)>>, name: string): Option<string>
  {
    if parsed == [] then None
    else
      var last := parsed[|parsed| - 1];
      if last.Some? && last.value.0 == name then Some(last.value.1)
      else LastValue(parsed[..|parsed| - 1], name)
  }

  /**
    Later segments win: a name is a key of the result exactly when some segment
    carries it, and it is bound to the value of the last such segment.
  */
  lemma {:induction false} CollectLastWins(parsed: seq<Option<(string, string)>>, m: map<string, string>, name: string)
    requires Collect(parsed) == Some(m)
    ensures name in m <==> LastValue(parsed, name).Some?
    ensures name in m ==> m[name] == LastValue(parsed, name).value
  {
    if parsed != [] {
      var init := parsed[..|parsed| - 1];
      CollectLastWins(init, Collect(init).value, name);
    }
  }

  /** The body parses exactly when every `&`-segment has a value part. */
  lemma QueryMapDefined(query: string)
    ensures var segs := Split(query, '&');
      QueryMap(query).Some? <==> forall k :: 0 <= k < |segs| ==> HasValue(segs[k])
  {
    var segs := Split(query, '&');
    var parsed := Parsed(segs);
    CollectDefined(parsed);
    forall k | 0 <= k < |segs|
      ensures parsed[k].Some? <==> HasValue(segs[k])
    {
      ParseSegmentDefined(segs[k]);
    }
  }

  // ---- Encoding a list of pairs and parsing it back ----

  /** The `name=value` segments of a list of pairs. */
  function Segments(pairs: seq<(string, string)>): (segs: seq<string>)
    ensures |segs| == |pairs|
  {
    seq(|pairs|, k requires 0 <= k < |pairs| => pairs[k].0 + "=" + pairs[k].1)
  }

  /** A form body `n1=v1&n2=v2&...`. */
  function Encode(pairs: seq<(string, string)>): string
    requires |pairs| >= 1
  {
    Join(Segments(pairs), '&')
  }

  /** The map obtained by putting the pairs, in order, into an empty hash map. */
  function ToMap(pairs: seq<(string, string)>): map<string, string>
  {
    if pairs == [] then map[]
    else ToMap(pairs[..|pairs| - 1])[pairs[|pairs| - 1].0 := pairs[|pairs| - 1].1]
  }

  /** Pairs whose text holds neither separator and whose values are not empty. */
  predicate Encodable(pairs: seq<(string, string)>)
  {
    forall k :: 0 <= k < |pairs| ==>
      && '&' !in pairs[k].0 && '=' !in pairs[k].0
      && '&' !in pairs[k].1 && '=' !in pairs[k].1
      && pairs[k].1 != []
  }

  /** Every pair, as a segment that parsed. */
  function Present(pairs: seq<(string, string)>): seq<Option<(string, string)>>
  {
    seq(|pairs|, k requires 0 <= k < |pairs| => Some(pairs[k]))
  }

  /** Putting every pair in turn builds the map of the pairs. */
  lemma {:induction false} CollectPresent(pairs: seq<(string, string)>)
    ensures Collect(Present(pairs)) == Some(ToMap(pairs))
  {
    if pairs != [] {
      var init := pairs[..|pairs| - 1];
      assert Present(pairs)[..|pairs| - 1] == Present(init);
      CollectPresent(init);
    }
  }

  /** Each encoded segment parses back to its pair. */
  lemma ParsedSegments(pairs: seq<(string, string)>)
    requires Encodable(pairs)
    ensures Parsed(Segments(pairs)) == Present(pairs)
  {
    forall k | 0 <= k < |pairs|
      ensures ParseSegment(Segments(pairs)[k]) == Some(pairs[k])
    {
      ParseSegmentOfPair(pairs[k].0, pairs[k].1);
    }
  }

  /** Round trip: parsing an encoded body gives the map of its pairs, later names winning. */
  lemma QueryMapOfEncode(pairs: seq<(string, string)>)
    requires |pairs| >= 1 && Encodable(pairs)
    ensures QueryMap(Encode(pairs)) == Some(ToMap(pairs))
  {
    var segs := Segments(pairs);
    forall k | 0 <= k < |segs|
      ensures '&' !in segs[k]
    {
      assert segs[k] == pairs[k].0 + "=" + pairs[k].1;
    }
    assert segs[|segs| - 1] != [];
    SplitOfJoin(segs, '&');
    ParsedSegments(pairs);
    CollectPresent(pairs);
  }

  /** A segment with no value part makes the whole body fail, e.g. `a` or `a=`. */
  lemma MissingValueFails()
    ensures QueryMap("a") == None
    ensures QueryMap("a=") == None
  {
    assert Split("a", '&') == ["a"];
    assert Split("a=", '&') == ["a="];
    ParseSegmentDefined("a");
    ParseSegmentDefined("a=");
    assert Parsed(["a"]) == [None];
    assert Parsed(["a="]) == [None];
  }
}
