/** The scraper's `trim` helper (crawl.js:106): `(s || '').replace(/\s+/g, ' ').trim()`. */
module CrawlTrim {
  import opened JsString

  /** Every white-space character is a plain space, and no two spaces are adjacent. */
  ghost predicate Collapsed(t: string) {
    && (forall i :: 0 <= i < |t| && IsSpace(t[i]) ==> t[i] == ' ')
    && (forall i :: 0 <= i < |t| - 1 ==> !(IsSpace(t[i]) && IsSpace(t[i + 1])))
  }

  /** What `trim` promises of its output: collapsed, and no white space at either end. */
  ghost predicate Tidy(t: string) {
    Collapsed(t) && (t == [] || (!IsSpace(t[0]) && !IsSpace(t[|t| - 1])))
  }

  /** `.replace(/\s+/g, ' ')`: each maximal run of white space becomes a single space. */
  function CollapseSpaces(s: string): (r: string)
    ensures |r| <= |s|
    ensures r == [] <==> s == []
    ensures s != [] && IsSpace(s[0]) ==> r[0] == ' '
    ensures s != [] && !IsSpace(s[0]) ==> r[0] == s[0]
    ensures Collapsed(r)
    ensures NonSpaces(r) == NonSpaces(s)
    decreases |s|
  {
    if s == [] then []
    else if IsSpace(s[0]) then
      var j := SpaceRunEnd(s, 1);
      var run := s[..j];
      var rest := s[j..];
      assert s == run + rest;
      NonSpacesAppend(run, rest);
      NonSpacesOfSpaces(run);
      var tail := CollapseSpaces(rest);
      assert NonSpaces([' '] + tail) == NonSpaces(tail);
      [' '] + tail
    else
      var tail := CollapseSpaces(s[1..]);
      assert ([s[0]] + tail)[1..] == tail;
      [s[0]] + tail
  }

  /** A slice of a collapsed string is collapsed. */
  lemma CollapsedSlice(t: string, a: nat, b: nat)
    requires Collapsed(t) && a <= b <= |t|
    ensures Collapsed(t[a..b])
  {
    var u := t[a..b];
    assert forall i :: 0 <= i < |u| ==> u[i] == t[a + i];
  }

  /** crawl.js's `trim`: null and undefined become the empty string; otherwise white-space runs
      are collapsed and both ends stripped. */
  function Trim(s: Option<string>): (r: string)
    ensures s.None? ==> r == ""
    ensures Tidy(r)
    ensures NonSpaces(r) == NonSpaces(s.GetOr(""))
  {
    var c := CollapseSpaces(s.GetOr(""));
    StripTidy(c);
    NonSpacesStrip(c);
    Strip(c)
  }

  /** Stripping a collapsed string leaves a tidy one. */
  lemma StripTidy(c: string)
    requires Collapsed(c)
    ensures Tidy(Strip(c))
  {
    var r := Strip(c);
    CollapsedSlice(c, StripFrom(c), StripFrom(c) + |r|);
  }

  /** A collapsed string is left alone by the collapsing step. */
  lemma {:induction false} CollapseFixpoint(t: string)
    requires Collapsed(t)
    ensures CollapseSpaces(t) == t
    decreases |t|
  {
    if t != [] {
      assert Collapsed(t[1..]) by { CollapsedSlice(t, 1, |t|); }
      if IsSpace(t[0]) {
        assert SpaceRunEnd(t, 1) == 1;
      }
      CollapseFixpoint(t[1..]);
    }
  }

  /** `trim` hands back a tidy string unchanged. */
  lemma TrimFixpoint(t: string)
    requires Tidy(t)
    ensures Trim(Some(t)) == t
  {
    CollapseFixpoint(t);
    assert StripFrom(t) == 0;
  }

  /** `trim(trim(s)) == trim(s)`. */
  lemma TrimIdempotent(s: Option<string>)
    ensures Trim(Some(Trim(s))) == Trim(s)
  {
    TrimFixpoint(Trim(s));
  }

  /** `trim` gives the empty string exactly when its input holds nothing but white space. */
  lemma TrimEmptyIff(s: Option<string>)
    ensures Trim(s) == "" <==> NonSpaces(s.GetOr("")) == ""
  {
    var r := Trim(s);
    if r != "" {
      assert NonSpaces(r) == [r[0]] + NonSpaces(r[1..]);
    }
  }

  /** Text with no white space in it. */
  predicate Word(t: string) {
    t != [] && forall i :: 0 <= i < |t| ==> !IsSpace(t[i])
  }

  /** A white-space run at the front of `x` that ends inside `x` ends there in `x + y` too. */
  lemma {:induction false} SpaceRunEndPrefix(x: string, y: string, i: nat)
    requires i <= |x| && SpaceRunEnd(x, i) < |x|
    ensures SpaceRunEnd(x + y, i) == SpaceRunEnd(x, i)
    decreases |x| - i
  {
    assert (x + y)[i] == x[i];
    if IsSpace(x[i]) {
      SpaceRunEndPrefix(x, y, i + 1);
    }
  }

  /** The first step of collapsing `x` and `x + y` alike, when `x` ends in a character that
      is not white space. */
  lemma CollapseHeads(x: string, y: string) returns (c: char, j: nat)
    requires x != [] && !IsSpace(x[|x| - 1])
    ensures 1 <= j <= |x|
    ensures CollapseSpaces(x) == [c] + CollapseSpaces(x[j..])
    ensures CollapseSpaces(x + y) == [c] + CollapseSpaces(x[j..] + y)
  {
    if IsSpace(x[0]) {
      c, j := ' ', SpaceRunEnd(x, 1);
      CollapseHeadSpace(x, y);
    } else {
      c, j := x[0], 1;
      CollapseHeadWord(x, y);
    }
  }

  lemma CollapseHeadSpace(x: string, y: string)
    requires x != [] && IsSpace(x[0]) && !IsSpace(x[|x| - 1])
    ensures SpaceRunEnd(x, 1) <= |x|
    ensures CollapseSpaces(x) == [' '] + CollapseSpaces(x[SpaceRunEnd(x, 1)..])
    ensures CollapseSpaces(x + y) == [' '] + CollapseSpaces(x[SpaceRunEnd(x, 1)..] + y)
  {
    var s := x + y;
    assert s[0] == x[0];
    SpaceRunEndPrefix(x, y, 1);
    var j := SpaceRunEnd(x, 1);
    assert s[j..] == x[j..] + y;
  }

  lemma CollapseHeadWord(x: string, y: string)
    requires x != [] && !IsSpace(x[0])
    ensures CollapseSpaces(x) == [x[0]] + CollapseSpaces(x[1..])
    ensures CollapseSpaces(x + y) == [x[0]] + CollapseSpaces(x[1..] + y)
  {
    var s := x + y;
    assert s[0] == x[0];
    assert s[1..] == x[1..] + y;
  }

  /** Collapsing works run by run: cutting after a character that is not white space splits
      the result the same way. */
  lemma {:induction false} CollapseAppend(x: string, y: string)
    requires x != [] && !IsSpace(x[|x| - 1])
    ensures CollapseSpaces(x + y) == CollapseSpaces(x) + CollapseSpaces(y)
    decreases |x|
  {
    var c, j := CollapseHeads(x, y);
    var u := x[j..];
    if u == [] {
      assert u + y == y;
    } else {
      assert u[|u| - 1] == x[|x| - 1];
      CollapseAppend(u, y);
    }
    ConcatAssoc([c], CollapseSpaces(u), CollapseSpaces(y));
  }

  lemma ConcatAssoc(a: string, b: string, c: string)
    ensures a + (b + c) == (a + b) + c
  {
  }

  /** A run of white space followed by the end or by a character that is not white space
      becomes one space. */
  lemma CollapseRun(w: string, y: string)
    requires w != [] && forall i :: 0 <= i < |w| ==> IsSpace(w[i])
    requires y == [] || !IsSpace(y[0])
    ensures CollapseSpaces(w + y) == [' '] + CollapseSpaces(y)
  {
    var s := w + y;
    assert s[0] == w[0];
    var j := SpaceRunEnd(s, 1);
    assert forall k :: 1 <= k < |w| ==> IsSpace(s[k]);
    assert |w| < |s| ==> s[|w|] == y[0];
    assert j == |w|;
    assert s[j..] == y;
  }

  /** Between two pieces of text the white-space run, however long and whatever it is made
      of, becomes exactly one space. */
  lemma CollapseBetween(x: string, w: string, y: string)
    requires x != [] && !IsSpace(x[|x| - 1])
    requires w != [] && forall i :: 0 <= i < |w| ==> IsSpace(w[i])
    requires y != [] && !IsSpace(y[0])
    ensures CollapseSpaces(x + w + y) == CollapseSpaces(x) + " " + CollapseSpaces(y)
  {
    ConcatAssoc(x, w, y);
    CollapseAppend(x, w + y);
    CollapseRun(w, y);
    ConcatAssoc(CollapseSpaces(x), " ", CollapseSpaces(y));
  }

  /** `trim` of two words with white space between them is the two words joined by one
      space. */
  lemma TrimTwoWords(x: string, w: string, y: string)
    requires Word(x) && Word(y)
    requires w != [] && forall i :: 0 <= i < |w| ==> IsSpace(w[i])
    ensures Trim(Some(x + w + y)) == x + " " + y
  {
    CollapseBetween(x, w, y);
    CollapseFixpoint(x);
    CollapseFixpoint(y);
    TwoWordsTidy(x, y);
    TrimOfCollapsed(x + w + y, x + " " + y);
  }

  lemma TwoWordsTidy(x: string, y: string)
    requires Word(x) && Word(y)
    ensures Tidy(x + " " + y)
  {
    var t := x + " " + y;
    assert forall i :: 0 <= i < |t| && IsSpace(t[i]) ==> i == |x|;
  }

  /** `trim` of a text whose white space collapses to a tidy string is that string. */
  lemma TrimOfCollapsed(s: string, t: string)
    requires CollapseSpaces(s) == t && Tidy(t)
    ensures Trim(Some(s)) == t
  {
    TrimFixpoint(t);
    CollapseFixpoint(t);
  }
}
