/** The two regular expressions crawl.js:71-72 runs over the joined page scripts to find a
    coordinate pair. Each is written out as a scanner: every repetition in them is followed by a
    character its class cannot contain, so the greedy run is the only one that can match and no
    backtracking is needed. */
module CoordScan {
  import opened JsString

  /** The class `[\d.]` of both capture groups. */
  predicate IsCoordChar(c: char) {
    IsDigit(c) || c == '.'
  }

  /** The class `[,\s]` between the two key-value pairs. */
  predicate IsSeparator(c: char) {
    c == ',' || IsSpace(c)
  }

  /** `s[k]` is in `[\d.]`; the quantifiers below are about these facts only. */
  predicate CoordAt(s: string, k: int) {
    0 <= k < |s| && IsCoordChar(s[k])
  }

  /** `s[k]` is in `\s`. */
  predicate SpaceAt(s: string, k: int) {
    0 <= k < |s| && IsSpace(s[k])
  }

  /** `s[k]` is in `[,\s]`. */
  predicate SeparatorAt(s: string, k: int) {
    0 <= k < |s| && IsSeparator(s[k])
  }

  /** A captured coordinate: one or more digits and dots. */
  predicate CoordText(t: string) {
    |t| >= 1 && forall k :: 0 <= k < |t| ==> CoordAt(t, k)
  }

  /** The two groups of one match: latitude first, longitude second. */
  datatype Capture = Capture(lat: string, lng: string)

  predicate WellFormed(c: Capture) {
    CoordText(c.lat) && CoordText(c.lng)
  }

  /** The end of the white-space run `\s*` starting at `i`. */
  function SkipSpaces(s: string, i: nat): (j: nat)
    requires i <= |s|
    ensures i <= j <= |s|
    ensures forall k :: i <= k < j ==> SpaceAt(s, k)
    ensures j == |s| || !SpaceAt(s, j)
    decreases |s| - i
  {
    if i < |s| && SpaceAt(s, i) then SkipSpaces(s, i + 1) else i
  }

  /** `\s` is the white space that trimming removes: the run ends where JsString's does. */
  lemma SkipSpacesIsSpaceRun(s: string, i: nat)
    requires i <= |s|
    ensures SkipSpaces(s, i) == SpaceRunEnd(s, i)
  {
    var j := SkipSpaces(s, i);
    var e := SpaceRunEnd(s, i);
    assert j < |s| ==> !IsSpace(s[j]);
    assert e < |s| ==> !SpaceAt(s, e);
  }

  /** The end of the run `[\d.]*` starting at `i`. */
  function SkipCoordChars(s: string, i: nat): (j: nat)
    requires i <= |s|
    ensures i <= j <= |s|
    ensures forall k :: i <= k < j ==> CoordAt(s, k)
    ensures j == |s| || !CoordAt(s, j)
    decreases |s| - i
  {
    if i < |s| && CoordAt(s, i) then SkipCoordChars(s, i + 1) else i
  }

  /** The end of the run `[,\s]*` starting at `i`. */
  function SkipSeparators(s: string, i: nat): (j: nat)
    requires i <= |s|
    ensures i <= j <= |s|
    ensures forall k :: i <= k < j ==> SeparatorAt(s, k)
    ensures j == |s| || !SeparatorAt(s, j)
    decreases |s| - i
  {
    if i < |s| && SeparatorAt(s, i) then SkipSeparators(s, i + 1) else i
  }

  /** The lower-case literal `lit` occurs at `i`, compared case-insensitively (the `i` flag). */
  predicate LiteralAt(s: string, i: nat, lit: string) {
    i + |lit| <= |s| && Lower(s[i..i + |lit|]) == lit
  }

  /** LiteralAt, character by character. */
  lemma LiteralAtChars(s: string, i: nat, lit: string)
    requires i + |lit| <= |s|
    requires forall k :: 0 <= k < |lit| ==> LowerChar(s[i + k]) == lit[k]
    ensures LiteralAt(s, i, lit)
  {
    var w := Lower(s[i..i + |lit|]);
    assert forall k :: 0 <= k < |lit| ==> w[k] == lit[k];
  }

  /** A literal whose first letter differs does not occur at `i`. */
  lemma NotLiteralAt(s: string, i: nat, lit: string)
    requires i < |s| && |lit| > 0 && LowerChar(s[i]) != lit[0]
    ensures !LiteralAt(s, i, lit)
  {
    if i + |lit| <= |s| {
      assert Lower(s[i..i + |lit|])[0] == LowerChar(s[i]);
    }
  }

  /** A literal with a different letter at offset `m` does not occur at `i`. */
  lemma NotLiteralAtChar(s: string, i: nat, lit: string, m: nat)
    requires m < |lit| && i + m < |s| && LowerChar(s[i + m]) != lit[m]
    ensures !LiteralAt(s, i, lit)
  {
    if i + |lit| <= |s| {
      assert Lower(s[i..i + |lit|])[m] == LowerChar(s[i + m]);
    }
  }

  /** One capture group and the position just after it. */
  datatype Group = Group(text: string, end: nat)

  /** A run of coordinate characters, cut out, is a coordinate text. */
  lemma CoordSlice(s: string, b: nat, c: nat)
    requires b < c <= |s| && forall k :: b <= k < c ==> CoordAt(s, k)
    ensures CoordText(s[b..c])
  {
    forall k | 0 <= k < c - b
      ensures CoordAt(s[b..c], k)
    {
      assert CoordAt(s, b + k);
    }
  }

  /** A coordinate text has neither a parenthesis nor a minus sign. */
  lemma CoordTextChars(t: string)
    requires CoordText(t)
    ensures '(' !in t && '-' !in t
  {
    forall k | 0 <= k < |t|
      ensures t[k] != '(' && t[k] != '-'
    {
      assert CoordAt(t, k);
    }
  }

  /** `\s*[P]\s*([\d.]+)` matched at `i`, where `[P]` is the class of the characters of
      `punct`. */
  function GroupAfter(s: string, i: nat, punct: string): (r: Option<Group>)
    requires i <= |s|
    ensures r.Some? ==> CoordText(r.value.text) && i < r.value.end <= |s|
  {
    var a := SkipSpaces(s, i);
    if a < |s| && s[a] in punct then
      var b := SkipSpaces(s, a + 1);
      var c := SkipCoordChars(s, b);
      if b < c then CoordSlice(s, b, c); Some(Group(s[b..c], c)) else None
    else None
  }

  /** `\s*\(\s*([\d.]+)\s*,\s*([\d.]+)\s*\)` matched at `i`. */
  function CallArgsAt(s: string, i: nat): (r: Option<Capture>)
    requires i <= |s|
    ensures r.Some? ==> WellFormed(r.value)
  {
    match GroupAfter(s, i, "(")
    case None => None
    case Some(first) =>
      match GroupAfter(s, first.end, ",")
      case None => None
      case Some(second) =>
        var e := SkipSpaces(s, second.end);
        if e < |s| && s[e] == ')' then Some(Capture(first.text, second.text)) else None
  }

  /** `(?:LatLng|new\s+kakao\.maps\.LatLng)` followed by the call arguments, matched at `i`. */
  function ConstructorAt(s: string, i: nat): (r: Option<Capture>)
    requires i <= |s|
    ensures r.Some? ==> WellFormed(r.value)
  {
    if LiteralAt(s, i, "latlng") && CallArgsAt(s, i + 6).Some? then CallArgsAt(s, i + 6)
    else if LiteralAt(s, i, "new") then
      var j := SkipSpaces(s, i + 3);
      if i + 3 < j && LiteralAt(s, j, "kakao.maps.latlng") then CallArgsAt(s, j + 17) else None
    else None
  }

  /** `lat\s*[:=]\s*([\d.]+)[,\s]+lng\s*[:=]\s*([\d.]+)` matched at `i`. */
  function KeyValueAt(s: string, i: nat): (r: Option<Capture>)
    requires i <= |s|
    ensures r.Some? ==> WellFormed(r.value)
  {
    if LiteralAt(s, i, "lat") then
      match GroupAfter(s, i + 3, ":=")
      case None => None
      case Some(first) => LngAfter(s, first)
    else None
  }

  /** `[,\s]+lng\s*[:=]\s*([\d.]+)` after the latitude group `first`. */
  function LngAfter(s: string, first: Group): (r: Option<Capture>)
    requires first.end <= |s| && CoordText(first.text)
    ensures r.Some? ==> WellFormed(r.value) && r.value.lat == first.text
  {
    var d := SkipSeparators(s, first.end);
    if first.end < d && LiteralAt(s, d, "lng") then
      match GroupAfter(s, d + 3, ":=")
      case None => None
      case Some(second) => Some(Capture(first.text, second.text))
    else None
  }

  /** The two patterns, in the order crawl.js tries them. */
  datatype Pattern = Constructor | KeyValue

  function MatchAt(p: Pattern, s: string, i: nat): (r: Option<Capture>)
    requires i <= |s|
    ensures r.Some? ==> WellFormed(r.value)
  {
    match p
    case Constructor => ConstructorAt(s, i)
    case KeyValue => KeyValueAt(s, i)
  }

  /** The leftmost position at or after `i` where the pattern matches. */
  function MatchPos(p: Pattern, s: string, i: nat): (k: Option<nat>)
    requires i <= |s|
    ensures k.Some? ==> i <= k.value <= |s| && MatchAt(p, s, k.value).Some?
    ensures k.Some? ==> forall j :: i <= j < k.value ==> MatchAt(p, s, j).None?
    ensures k.None? ==> forall j :: i <= j <= |s| ==> MatchAt(p, s, j).None?
    decreases |s| - i
  {
    if MatchAt(p, s, i).Some? then Some(i)
    else if i == |s| then None
    else MatchPos(p, s, i + 1)
  }

  /** String.prototype.match with a non-global pattern: the match at the leftmost position. */
  function FirstMatch(p: Pattern, s: string): (r: Option<Capture>)
    ensures r.Some? ==> WellFormed(r.value)
    ensures r.None? <==> forall k :: 0 <= k <= |s| ==> MatchAt(p, s, k).None?
    ensures MatchAt(p, s, 0).Some? ==> r == MatchAt(p, s, 0)
    ensures MatchPos(p, s, 0).Some? ==> r == MatchAt(p, s, MatchPos(p, s, 0).value)
  {
    match MatchPos(p, s, 0)
    case None => None
    case Some(k) => MatchAt(p, s, k)
  }

  /** `scripts.join('\n')`. */
  function JoinLines(scripts: seq<string>): string {
    if scripts == [] then ""
    else if |scripts| == 1 then scripts[0]
    else JoinLines(scripts[..|scripts| - 1]) + "\n" + scripts[|scripts| - 1]
  }

  /** Joining two non-empty lists of scripts is joining their two joins with one newline:
      every script keeps its text, and scripts are separated by exactly one `\n`. */
  lemma {:induction false} JoinLinesConcat(a: seq<string>, b: seq<string>)
    requires a != [] && b != []
    ensures JoinLines(a + b) == JoinLines(a) + "\n" + JoinLines(b)
    decreases |b|
  {
    var ab := a + b;
    var last := b[|b| - 1];
    if |b| == 1 {
      assert ab[..|ab| - 1] == a;
    } else {
      var init := b[..|b| - 1];
      assert ab[..|ab| - 1] == a + init;
      JoinLinesConcat(a, init);
      var ja, jb := JoinLines(a), JoinLines(init);
      assert (ja + "\n" + jb) + "\n" + last == ja + "\n" + (jb + "\n" + last);
    }
  }

  /** `big.match(constructor) || big.match(keyValue)`: the constructor pattern wins whenever it
      matches anywhere; only otherwise is the key-value pattern tried. Both coordinates come
      from the same match, and each is a run of digits and dots. */
  function FindCoordinates(big: string): (r: Option<Capture>)
    ensures r.Some? ==> WellFormed(r.value)
    ensures FirstMatch(Constructor, big).Some? ==> r == FirstMatch(Constructor, big)
    ensures FirstMatch(Constructor, big).None? ==> r == FirstMatch(KeyValue, big)
    ensures r.None? <==> && (forall k :: 0 <= k <= |big| ==> MatchAt(Constructor, big, k).None?)
                         && (forall k :: 0 <= k <= |big| ==> MatchAt(KeyValue, big, k).None?)
  {
    var ctor := FirstMatch(Constructor, big);
    if ctor.Some? then ctor else FirstMatch(KeyValue, big)
  }

  /** No captured coordinate carries a sign: a minus sign can never be part of a match. */
  lemma UnsignedCoordinates(big: string)
    requires FindCoordinates(big).Some?
    ensures '-' !in FindCoordinates(big).value.lat && '-' !in FindCoordinates(big).value.lng
  {
    var c := FindCoordinates(big).value;
    CoordTextChars(c.lat);
    CoordTextChars(c.lng);
  }

  // Where each sub-pattern puts its parts. The predicates below say, position by position, how
  // a text can be laid out for a sub-pattern to match it; the lemmas after them show that each
  // scanner returns a capture exactly when the text is laid out that way, and returns the
  // characters the layout puts in the groups.

  /** `s[a..b]` is white space: a way `\s*` matches there. */
  predicate Spaces(s: string, a: nat, b: nat) {
    a <= b <= |s| && forall k :: a <= k < b ==> SpaceAt(s, k)
  }

  /** `s[a..b]` is a non-empty run of `[,\s]`: a way `[,\s]+` matches there. */
  predicate Separators(s: string, a: nat, b: nat) {
    a < b <= |s| && forall k :: a <= k < b ==> SeparatorAt(s, k)
  }

  /** `s[b..c]` is a maximal non-empty run of `[\d.]`. In both patterns the character that
      follows `([\d.]+)` lies outside the class, so the greedy group can only match this way. */
  predicate CoordsTo(s: string, b: nat, c: nat) {
    b < c <= |s| && (forall k :: b <= k < c ==> CoordAt(s, k)) && !CoordAt(s, c)
  }

  /** The position of the punctuation and the bounds of the group of `\s*[P]\s*([\d.]+)`. */
  datatype GroupMarks = GroupMarks(punct: nat, start: nat, end: nat)

  /** `\s*[P]\s*([\d.]+)` matches from `i` with its parts where `m` puts them. */
  predicate GroupLayout(s: string, i: nat, punct: string, m: GroupMarks) {
    && Spaces(s, i, m.punct) && m.punct < |s| && s[m.punct] in punct
    && Spaces(s, m.punct + 1, m.start) && CoordsTo(s, m.start, m.end)
  }

  /** No character of the class `[P]` is white space. */
  predicate NoSpaceIn(punct: string) {
    forall k :: 0 <= k < |punct| ==> !IsSpace(punct[k])
  }

  /** A text laid out for the sub-pattern is captured as laid out. */
  lemma GroupAfterComplete(s: string, i: nat, punct: string, m: GroupMarks)
    requires NoSpaceIn(punct) && GroupLayout(s, i, punct, m)
    ensures GroupAfter(s, i, punct) == Some(Group(s[m.start..m.end], m.end))
  {
    assert !SpaceAt(s, m.punct);
    SkipSpacesOver(s, i, m.punct - i);
    assert CoordAt(s, m.start);
    SkipSpacesOver(s, m.punct + 1, m.start - m.punct - 1);
    SkipCoordCharsOver(s, m.start, m.end - m.start);
  }

  /** Whatever the sub-pattern captures, the text is laid out for it: `m` says where. */
  lemma GroupAfterSound(s: string, i: nat, punct: string) returns (m: GroupMarks)
    requires i <= |s| && GroupAfter(s, i, punct).Some?
    ensures GroupLayout(s, i, punct, m)
    ensures GroupAfter(s, i, punct) == Some(Group(s[m.start..m.end], m.end))
  {
    var a := SkipSpaces(s, i);
    var b := SkipSpaces(s, a + 1);
    m := GroupMarks(a, b, SkipCoordChars(s, b));
  }

  /** `\s*\(\s*([\d.]+)\s*,\s*([\d.]+)\s*\)` matches from `i` with its groups at `first` and
      `second` and its closing parenthesis at `close`. */
  predicate ArgsLayout(s: string, i: nat, first: GroupMarks, second: GroupMarks, close: nat) {
    && GroupLayout(s, i, "(", first) && GroupLayout(s, first.end, ",", second)
    && Spaces(s, second.end, close) && close < |s| && s[close] == ')'
  }

  lemma CallArgsComplete(s: string, i: nat, first: GroupMarks, second: GroupMarks, close: nat)
    requires ArgsLayout(s, i, first, second, close)
    ensures CallArgsAt(s, i) == Some(Capture(s[first.start..first.end], s[second.start..second.end]))
  {
    GroupAfterComplete(s, i, "(", first);
    GroupAfterComplete(s, first.end, ",", second);
    SkipSpacesOver(s, second.end, close - second.end);
    CallArgsFromGroups(s, i, Group(s[first.start..first.end], first.end),
                       Group(s[second.start..second.end], second.end), close);
  }

  lemma CallArgsSound(s: string, i: nat) returns (first: GroupMarks, second: GroupMarks, close: nat)
    requires i <= |s| && CallArgsAt(s, i).Some?
    ensures ArgsLayout(s, i, first, second, close)
    ensures CallArgsAt(s, i) == Some(Capture(s[first.start..first.end], s[second.start..second.end]))
  {
    first := GroupAfterSound(s, i, "(");
    second := GroupAfterSound(s, first.end, ",");
    close := SkipSpaces(s, second.end);
  }

  /** LiteralAt, read back character by character. */
  lemma LiteralAtChar(s: string, i: nat, lit: string, k: nat)
    requires LiteralAt(s, i, lit) && k < |lit|
    ensures LowerChar(s[i + k]) == lit[k]
  {
    assert Lower(s[i..i + |lit|])[k] == LowerChar(s[i + k]);
  }

  /** `LatLng` and the call arguments from `i`. */
  predicate LatLngLayout(s: string, i: nat, first: GroupMarks, second: GroupMarks, close: nat) {
    LiteralAt(s, i, "latlng") && ArgsLayout(s, i + 6, first, second, close)
  }

  /** `new\s+kakao\.maps\.LatLng`, its white space ending at `j`, and the call arguments. */
  predicate KakaoLayout(s: string, i: nat, j: nat, first: GroupMarks, second: GroupMarks, close: nat) {
    && LiteralAt(s, i, "new") && i + 3 < j && Spaces(s, i + 3, j)
    && LiteralAt(s, j, "kakao.maps.latlng") && ArgsLayout(s, j + 17, first, second, close)
  }

  lemma LatLngComplete(s: string, i: nat, first: GroupMarks, second: GroupMarks, close: nat)
    requires LatLngLayout(s, i, first, second, close)
    ensures ConstructorAt(s, i) == Some(Capture(s[first.start..first.end], s[second.start..second.end]))
  {
    CallArgsComplete(s, i + 6, first, second, close);
  }

  lemma KakaoComplete(s: string, i: nat, j: nat, first: GroupMarks, second: GroupMarks, close: nat)
    requires KakaoLayout(s, i, j, first, second, close)
    ensures ConstructorAt(s, i) == Some(Capture(s[first.start..first.end], s[second.start..second.end]))
  {
    LiteralAtChar(s, i, "new", 0);
    NotLiteralAt(s, i, "latlng");
    LiteralAtChar(s, j, "kakao.maps.latlng", 0);
    assert !SpaceAt(s, j);
    SkipSpacesOver(s, i + 3, j - i - 3);
    CallArgsComplete(s, j + 17, first, second, close);
  }

  /** Whatever the constructor pattern captures, the text is laid out for one of its two
      alternatives: `kakao` says which, and the marks say where. */
  lemma ConstructorSound(s: string, i: nat)
    returns (kakao: bool, j: nat, first: GroupMarks, second: GroupMarks, close: nat)
    requires i <= |s| && ConstructorAt(s, i).Some?
    ensures !kakao ==> LatLngLayout(s, i, first, second, close)
    ensures kakao ==> KakaoLayout(s, i, j, first, second, close)
    ensures ConstructorAt(s, i) == Some(Capture(s[first.start..first.end], s[second.start..second.end]))
  {
    kakao := !(LiteralAt(s, i, "latlng") && CallArgsAt(s, i + 6).Some?);
    if !kakao {
      j := i + 6;
      first, second, close := LatLngSound(s, i);
    } else {
      KakaoCase(s, i);
      j, first, second, close := KakaoSound(s, i);
    }
  }

  /** The short alternative `LatLng(...)`, when it matches. */
  lemma LatLngSound(s: string, i: nat) returns (first: GroupMarks, second: GroupMarks, close: nat)
    requires i <= |s| && LiteralAt(s, i, "latlng") && CallArgsAt(s, i + 6).Some?
    ensures LatLngLayout(s, i, first, second, close)
    ensures ConstructorAt(s, i) == Some(Capture(s[first.start..first.end], s[second.start..second.end]))
  {
    first, second, close := CallArgsSound(s, i + 6);
  }

  /** The `new kakao.maps.LatLng` alternative, from the end of its white space. */
  lemma KakaoSound(s: string, i: nat) returns (j: nat, first: GroupMarks, second: GroupMarks, close: nat)
    requires i + 3 <= |s| && LiteralAt(s, i, "new")
    requires i + 3 < SkipSpaces(s, i + 3) && LiteralAt(s, SkipSpaces(s, i + 3), "kakao.maps.latlng")
    requires CallArgsAt(s, SkipSpaces(s, i + 3) + 17).Some?
    ensures j == SkipSpaces(s, i + 3) && KakaoLayout(s, i, j, first, second, close)
    ensures CallArgsAt(s, SkipSpaces(s, i + 3) + 17)
      == Some(Capture(s[first.start..first.end], s[second.start..second.end]))
  {
    j := SkipSpaces(s, i + 3);
    first, second, close := CallArgsSound(s, j + 17);
  }

  /** When the short alternative does not match, the constructor pattern is the
      `new kakao.maps.LatLng` one. */
  lemma KakaoCase(s: string, i: nat)
    requires i <= |s| && ConstructorAt(s, i).Some?
    requires !(LiteralAt(s, i, "latlng") && CallArgsAt(s, i + 6).Some?)
    ensures i + 3 <= |s| && LiteralAt(s, i, "new")
    ensures i + 3 < SkipSpaces(s, i + 3) && LiteralAt(s, SkipSpaces(s, i + 3), "kakao.maps.latlng")
    ensures CallArgsAt(s, SkipSpaces(s, i + 3) + 17).Some?
    ensures ConstructorAt(s, i) == CallArgsAt(s, SkipSpaces(s, i + 3) + 17)
  {
  }

  /** `lat\s*[:=]\s*([\d.]+)[,\s]+lng\s*[:=]\s*([\d.]+)` from `i`, the separators ending at
      `sep`. */
  predicate KeyValueLayout(s: string, i: nat, first: GroupMarks, sep: nat, second: GroupMarks) {
    && LiteralAt(s, i, "lat") && GroupLayout(s, i + 3, ":=", first)
    && Separators(s, first.end, sep) && LiteralAt(s, sep, "lng")
    && GroupLayout(s, sep + 3, ":=", second)
  }

  /** A text laid out for the longitude half after the latitude group `g` is captured as laid
      out. */
  lemma LngAfterComplete(s: string, g: Group, sep: nat, second: GroupMarks)
    requires g.end <= |s| && CoordText(g.text)
    requires Separators(s, g.end, sep) && LiteralAt(s, sep, "lng") && GroupLayout(s, sep + 3, ":=", second)
    ensures LngAfter(s, g) == Some(Capture(g.text, s[second.start..second.end]))
  {
    LiteralAtChar(s, sep, "lng", 0);
    assert !SeparatorAt(s, sep);
    SkipSeparatorsOver(s, g.end, sep - g.end);
    GroupAfterComplete(s, sep + 3, ":=", second);
    LngFromGroup(s, g, Group(s[second.start..second.end], second.end), sep);
  }

  lemma KeyValueComplete(s: string, i: nat, first: GroupMarks, sep: nat, second: GroupMarks)
    requires KeyValueLayout(s, i, first, sep, second)
    ensures KeyValueAt(s, i) == Some(Capture(s[first.start..first.end], s[second.start..second.end]))
  {
    var g := Group(s[first.start..first.end], first.end);
    GroupAfterComplete(s, i + 3, ":=", first);
    LngAfterComplete(s, g, sep, second);
  }

  /** Whatever the longitude half captures, the text after the latitude group is laid out for
      it: its separators end at `sep` and its group is at `second`. */
  lemma LngAfterSound(s: string, first: Group) returns (sep: nat, second: GroupMarks)
    requires first.end <= |s| && CoordText(first.text) && LngAfter(s, first).Some?
    ensures Separators(s, first.end, sep) && LiteralAt(s, sep, "lng") && GroupLayout(s, sep + 3, ":=", second)
    ensures LngAfter(s, first) == Some(Capture(first.text, s[second.start..second.end]))
  {
    sep := SkipSeparators(s, first.end);
    second := GroupAfterSound(s, sep + 3, ":=");
  }

  /** Whatever the key-value pattern captures, the text is laid out for it: the marks say
      where. */
  lemma KeyValueSound(s: string, i: nat) returns (first: GroupMarks, sep: nat, second: GroupMarks)
    requires i <= |s| && KeyValueAt(s, i).Some?
    ensures KeyValueLayout(s, i, first, sep, second)
    ensures KeyValueAt(s, i) == Some(Capture(s[first.start..first.end], s[second.start..second.end]))
  {
    var g := GroupAfter(s, i + 3, ":=").value;
    assert KeyValueAt(s, i) == LngAfter(s, g);
    first := GroupAfterSound(s, i + 3, ":=");
    sep, second := LngAfterSound(s, g);
  }

  // The lemmas below show that the scanners recover the coordinates from the texts that the
  // target pages write. They go through small lemmas about an arbitrary string `s` whose
  // characters are known pointwise, which keeps each proof obligation small.

  lemma SkipSpacesOver(s: string, i: nat, w: nat)
    requires i + w <= |s| && forall k :: i <= k < i + w ==> SpaceAt(s, k)
    requires i + w == |s| || !SpaceAt(s, i + w)
    ensures SkipSpaces(s, i) == i + w
  {
  }

  lemma SkipCoordCharsOver(s: string, i: nat, n: nat)
    requires i + n <= |s| && forall k :: i <= k < i + n ==> CoordAt(s, k)
    requires i + n == |s| || !CoordAt(s, i + n)
    ensures SkipCoordChars(s, i) == i + n
  {
  }

  lemma SkipSeparatorsOver(s: string, i: nat, w: nat)
    requires i + w <= |s| && forall k :: i <= k < i + w ==> SeparatorAt(s, k)
    requires !SeparatorAt(s, i + w)
    ensures SkipSeparators(s, i) == i + w
  {
  }

  /** A copy of a coordinate text inside `s` is a run of coordinate characters. */
  lemma CoordRun(s: string, j: nat, t: string)
    requires j + |t| <= |s| && s[j..j + |t|] == t && CoordText(t)
    ensures forall k :: j <= k < j + |t| ==> CoordAt(s, k)
  {
    forall k | j <= k < j + |t|
      ensures CoordAt(s, k)
    {
      assert CoordAt(t, k - j);
      assert s[k] == t[k - j];
    }
  }

  /** The call arguments from their two groups and the closing parenthesis at `close`. */
  lemma CallArgsFromGroups(s: string, i: nat, first: Group, second: Group, close: nat)
    requires i <= |s| && GroupAfter(s, i, "(") == Some(first) && GroupAfter(s, first.end, ",") == Some(second)
    requires second.end <= |s| && SkipSpaces(s, second.end) == close && close < |s| && s[close] == ')'
    ensures CallArgsAt(s, i) == Some(Capture(first.text, second.text))
  {
  }

  /** `(a, b)` at `i`. */
  lemma CallArgsOver(s: string, i: nat, a: string, b: string)
    requires CoordText(a) && CoordText(b)
    requires i + 4 + |a| + |b| <= |s|
    requires s[i] == '(' && s[i + 1..i + 1 + |a|] == a
    requires s[i + 1 + |a|] == ',' && s[i + 2 + |a|] == ' '
    requires s[i + 3 + |a|..i + 3 + |a| + |b|] == b && s[i + 3 + |a| + |b|] == ')'
    ensures CallArgsAt(s, i) == Some(Capture(a, b))
  {
    var n := |a|;
    CoordRun(s, i + 1, a);
    CoordRun(s, i + 3 + n, b);
    var first := GroupMarks(i, i + 1, i + 1 + n);
    var second := GroupMarks(i + 1 + n, i + 3 + n, i + 3 + n + |b|);
    assert GroupLayout(s, i, "(", first);
    assert GroupLayout(s, i + 1 + n, ",", second);
    CallArgsComplete(s, i, first, second, i + 3 + n + |b|);
  }

  /** A text without an opening parenthesis never matches the constructor pattern. */
  lemma NoConstructorWithoutParen(s: string)
    requires '(' !in s
    ensures FirstMatch(Constructor, s).None?
  {
    forall k | 0 <= k <= |s| ensures MatchAt(Constructor, s, k).None? {
      forall j | 0 <= j <= |s| ensures GroupAfter(s, j, "(").None? {
      }
    }
  }

  function KeyValueText(lat: string, lng: string): string {
    "lat: " + lat + ", lng: " + lng
  }

  lemma KeyValueTextChars(a: string, b: string)
    requires CoordText(a) && CoordText(b)
    ensures var s := KeyValueText(a, b);
      && LiteralAt(s, 0, "lat")
      && s[3] == ':' && s[4] == ' ' && s[5..5 + |a|] == a
      && s[5 + |a|] == ',' && s[6 + |a|] == ' ' && s[7 + |a|] == 'l'
      && LiteralAt(s, 7 + |a|, "lng")
      && s[10 + |a|] == ':' && s[11 + |a|] == ' ' && s[12 + |a|..] == b
      && '(' !in s
  {
    var s := KeyValueText(a, b);
    assert s == "lat: " + a + ", lng: " + b;
    LiteralAtChars(s, 0, "lat");
    LiteralAtChars(s, 7 + |a|, "lng");
    CoordTextChars(a);
    CoordTextChars(b);
  }

  /** The longitude half of the key-value pattern from its group. */
  lemma LngFromGroup(s: string, first: Group, second: Group, d: nat)
    requires first.end <= |s| && CoordText(first.text)
    requires SkipSeparators(s, first.end) == d && first.end < d && LiteralAt(s, d, "lng")
    requires GroupAfter(s, d + 3, ":=") == Some(second)
    ensures LngAfter(s, first) == Some(Capture(first.text, second.text))
  {
  }

  /** A text without an opening parenthesis that is laid out for the key-value pattern at its
      start yields that pattern's capture. */
  lemma KeyValueFound(s: string, first: GroupMarks, sep: nat, second: GroupMarks)
    requires '(' !in s && KeyValueLayout(s, 0, first, sep, second)
    ensures FindCoordinates(s) == Some(Capture(s[first.start..first.end], s[second.start..second.end]))
  {
    KeyValueComplete(s, 0, first, sep, second);
    NoConstructorWithoutParen(s);
  }

  /** A text laid out as `lat: A, lng: B` yields exactly the pair (A, B). */
  lemma KeyValueOver(s: string, a: string, b: string)
    requires CoordText(a) && CoordText(b) && |s| == 12 + |a| + |b|
    requires LiteralAt(s, 0, "lat") && s[3] == ':' && s[4] == ' ' && s[5..5 + |a|] == a
    requires s[5 + |a|] == ',' && s[6 + |a|] == ' ' && s[7 + |a|] == 'l' && LiteralAt(s, 7 + |a|, "lng")
    requires s[10 + |a|] == ':' && s[11 + |a|] == ' ' && s[12 + |a|..] == b
    requires '(' !in s
    ensures FindCoordinates(s) == Some(Capture(a, b))
  {
    var n := |a|;
    CoordRun(s, 5, a);
    assert s[12 + n..12 + n + |b|] == b;
    CoordRun(s, 12 + n, b);
    var first := GroupMarks(3, 5, 5 + n);
    var second := GroupMarks(10 + n, 12 + n, 12 + n + |b|);
    assert GroupLayout(s, 3, ":=", first);
    assert Separators(s, 5 + n, 7 + n);
    assert GroupLayout(s, 10 + n, ":=", second);
    KeyValueFound(s, first, 7 + n, second);
  }

  /** A script that writes `lat: A, lng: B` yields exactly the pair (A, B). */
  lemma KeyValueRoundTrip(a: string, b: string)
    requires CoordText(a) && CoordText(b)
    ensures FindCoordinates(KeyValueText(a, b)) == Some(Capture(a, b))
  {
    KeyValueTextChars(a, b);
    KeyValueOver(KeyValueText(a, b), a, b);
  }

  function LatLngText(lat: string, lng: string): string {
    "LatLng(" + lat + ", " + lng + ")"
  }

  lemma LatLngTextChars(a: string, b: string)
    ensures var s := LatLngText(a, b);
      && |s| == 10 + |a| + |b| && LiteralAt(s, 0, "latlng")
      && s[6] == '(' && s[7..7 + |a|] == a && s[7 + |a|] == ',' && s[8 + |a|] == ' '
      && s[9 + |a|..9 + |a| + |b|] == b && s[9 + |a| + |b|] == ')'
  {
    var s := LatLngText(a, b);
    assert s[..7] == "LatLng(";
    LiteralAtChars(s, 0, "latlng");
  }

  /** A script that calls `LatLng(A, B)` yields exactly the pair (A, B), found by the constructor
      pattern. */
  lemma LatLngRoundTrip(a: string, b: string)
    requires CoordText(a) && CoordText(b)
    ensures FindCoordinates(LatLngText(a, b)) == Some(Capture(a, b))
  {
    var s := LatLngText(a, b);
    LatLngTextChars(a, b);
    CallArgsOver(s, 6, a, b);
    assert ConstructorAt(s, 0) == Some(Capture(a, b));
  }

  /** Only a position whose letter is `l` or `n` can start the constructor pattern. */
  lemma NoConstructorAt(s: string, k: nat)
    requires k < |s| ==> LowerChar(s[k]) != 'l' && LowerChar(s[k]) != 'n'
    requires k <= |s|
    ensures MatchAt(Constructor, s, k).None?
  {
    if k < |s| {
      NotLiteralAt(s, k, "latlng");
      NotLiteralAt(s, k, "new");
    }
  }

  /** Only a position whose letter is `l` can start the key-value pattern. */
  lemma NoKeyValueAt(s: string, k: nat)
    requires k < |s| ==> LowerChar(s[k]) != 'l'
    requires k <= |s|
    ensures MatchAt(KeyValue, s, k).None?
  {
    if k < |s| {
      NotLiteralAt(s, k, "lat");
    }
  }

  function KakaoText(lat: string, lng: string): string {
    "new kakao.maps.LatLng(" + lat + ", " + lng + ")"
  }

  lemma KakaoTextChars(a: string, b: string)
    ensures var s := KakaoText(a, b);
      && |s| == 25 + |a| + |b| && LiteralAt(s, 0, "new") && s[3] == ' '
      && LiteralAt(s, 4, "kakao.maps.latlng")
      && s[21] == '(' && s[22..22 + |a|] == a && s[22 + |a|] == ',' && s[23 + |a|] == ' '
      && s[24 + |a|..24 + |a| + |b|] == b && s[24 + |a| + |b|] == ')'
  {
    var s := KakaoText(a, b);
    assert s[..22] == "new kakao.maps.LatLng(";
    LiteralAtChars(s, 0, "new");
    LiteralAtChars(s, 4, "kakao.maps.latlng");
  }

  /** A text laid out as `new kakao.maps.LatLng(A, B)` yields exactly the pair (A, B). */
  lemma KakaoOver(s: string, a: string, b: string)
    requires CoordText(a) && CoordText(b) && |s| == 25 + |a| + |b|
    requires LiteralAt(s, 0, "new") && s[3] == ' ' && LiteralAt(s, 4, "kakao.maps.latlng")
    requires s[21] == '(' && s[22..22 + |a|] == a && s[22 + |a|] == ',' && s[23 + |a|] == ' '
    requires s[24 + |a|..24 + |a| + |b|] == b && s[24 + |a| + |b|] == ')'
    ensures FindCoordinates(s) == Some(Capture(a, b))
  {
    var n := |a|;
    CoordRun(s, 22, a);
    CoordRun(s, 24 + n, b);
    var first := GroupMarks(21, 22, 22 + n);
    var second := GroupMarks(22 + n, 24 + n, 24 + n + |b|);
    assert GroupLayout(s, 21, "(", first);
    assert GroupLayout(s, 22 + n, ",", second);
    assert ArgsLayout(s, 21, first, second, 24 + n + |b|);
    assert Spaces(s, 3, 4);
    KakaoComplete(s, 0, 4, first, second, 24 + n + |b|);
  }

  /** A script that calls `new kakao.maps.LatLng(A, B)` yields exactly the pair (A, B), found
      by the constructor pattern. */
  lemma KakaoRoundTrip(a: string, b: string)
    requires CoordText(a) && CoordText(b)
    ensures FindCoordinates(KakaoText(a, b)) == Some(Capture(a, b))
  {
    KakaoTextChars(a, b);
    KakaoOver(KakaoText(a, b), a, b);
  }

  function AssignText(lat: string, lng: string): string {
    "lat=" + lat + "\nlng=" + lng
  }

  lemma AssignTextChars(a: string, b: string)
    requires CoordText(a) && CoordText(b)
    ensures var s := AssignText(a, b);
      && |s| == 9 + |a| + |b| && LiteralAt(s, 0, "lat") && s[3] == '=' && s[4..4 + |a|] == a
      && s[4 + |a|] == '\n' && s[5 + |a|] == 'l' && LiteralAt(s, 5 + |a|, "lng") && s[8 + |a|] == '='
      && s[9 + |a|..] == b && '(' !in s
  {
    var s := AssignText(a, b);
    assert s == "lat=" + a + "\nlng=" + b;
    LiteralAtChars(s, 0, "lat");
    LiteralAtChars(s, 5 + |a|, "lng");
    CoordTextChars(a);
    CoordTextChars(b);
  }

  /** A text laid out as `lat=A` and `lng=B` on two lines yields exactly the pair (A, B). */
  lemma AssignOver(s: string, a: string, b: string)
    requires CoordText(a) && CoordText(b) && |s| == 9 + |a| + |b|
    requires LiteralAt(s, 0, "lat") && s[3] == '=' && s[4..4 + |a|] == a
    requires s[4 + |a|] == '\n' && s[5 + |a|] == 'l' && LiteralAt(s, 5 + |a|, "lng")
    requires s[8 + |a|] == '=' && s[9 + |a|..] == b && '(' !in s
    ensures FindCoordinates(s) == Some(Capture(a, b))
  {
    var n := |a|;
    var sep := 5 + n;
    assert s[sep + 3] == '=' && s[sep + 4..] == b;
    AssignLatHalf(s, a);
    var second := AssignLngHalf(s, sep, b);
    KeyValueFound(s, GroupMarks(3, 4, 4 + n), sep, second);
  }

  lemma AssignLatHalf(s: string, a: string)
    requires CoordText(a) && 5 + |a| <= |s|
    requires s[3] == '=' && s[4..4 + |a|] == a && s[4 + |a|] == '\n'
    ensures GroupLayout(s, 3, ":=", GroupMarks(3, 4, 4 + |a|))
    ensures Separators(s, 4 + |a|, 5 + |a|)
  {
    CoordRun(s, 4, a);
    assert SeparatorAt(s, 4 + |a|);
  }

  lemma AssignLngHalf(s: string, sep: nat, b: string) returns (m: GroupMarks)
    requires CoordText(b) && |s| == sep + 4 + |b|
    requires s[sep + 3] == '=' && s[sep + 4..] == b
    ensures GroupLayout(s, sep + 3, ":=", m) && s[m.start..m.end] == b
  {
    m := GroupMarks(sep + 3, sep + 4, sep + 4 + |b|);
    assert s[sep + 4..sep + 4 + |b|] == b;
    CoordRun(s, sep + 4, b);
  }

  /** A script that assigns `lat=A` and `lng=B` on two lines yields exactly the pair (A, B),
      found by the key-value pattern. */
  lemma AssignRoundTrip(a: string, b: string)
    requires CoordText(a) && CoordText(b)
    ensures FindCoordinates(AssignText(a, b)) == Some(Capture(a, b))
  {
    AssignTextChars(a, b);
    AssignOver(AssignText(a, b), a, b);
  }

  /** Once the latitude group reaches the end of the text, no longitude half can follow. */
  lemma LngAfterAtEnd(s: string, g: Group)
    requires g.end == |s| && CoordText(g.text)
    ensures LngAfter(s, g).None?
  {
  }

  /** A text laid out as `lat: A` with no longitude after it yields nothing. */
  lemma LatOnlyOver(s: string, a: string)
    requires CoordText(a) && |s| == 5 + |a| && '(' !in s
    requires LiteralAt(s, 0, "lat") && s[3] == ':' && s[4] == ' ' && s[5..] == a
    requires forall k :: 1 <= k < |s| ==> LowerChar(s[k]) != 'l'
    ensures FindCoordinates(s).None?
  {
    NoConstructorWithoutParen(s);
    assert s[5..5 + |a|] == a;
    CoordRun(s, 5, a);
    var first := GroupMarks(3, 5, |s|);
    assert GroupLayout(s, 3, ":=", first);
    GroupAfterComplete(s, 3, ":=", first);
    LngAfterAtEnd(s, GroupAfter(s, 3, ":=").value);
    forall k | 0 <= k <= |s| ensures MatchAt(KeyValue, s, k).None? {
      if k > 0 {
        NoKeyValueAt(s, k);
      }
    }
  }

  function LatOnlyText(lat: string): string {
    "lat: " + lat
  }

  /** A script that writes `lat: A` and no longitude yields nothing. */
  lemma LatOnlyNone(a: string)
    requires CoordText(a)
    ensures FindCoordinates(LatOnlyText(a)).None?
  {
    var s := LatOnlyText(a);
    assert s[..5] == "lat: ";
    LiteralAtChars(s, 0, "lat");
    CoordTextChars(a);
    forall k | 1 <= k < |s| ensures LowerChar(s[k]) != 'l' {
      if k >= 5 {
        assert s[k] == a[k - 5];
        assert CoordAt(a, k - 5);
      } else {
        assert s[k] == s[..5][k];
      }
    }
    LatOnlyOver(s, a);
  }

  /** A text that begins `LatLng(-` and has no `l` or `n` after that yields nothing: the
      sign stops the constructor pattern, and `lat` is never followed by `:` or `=`. */
  lemma SignedLatLngOver(s: string)
    requires |s| >= 8 && s[..8] == "LatLng(-"
    requires forall k :: 8 <= k < |s| ==> LowerChar(s[k]) != 'l' && LowerChar(s[k]) != 'n'
    ensures FindCoordinates(s).None?
  {
    forall k | 0 <= k < 8 ensures s[k] == "LatLng(-"[k] {
      assert s[k] == s[..8][k];
    }
    SkipSpacesOver(s, 6, 0);
    SkipSpacesOver(s, 7, 0);
    SkipCoordCharsOver(s, 7, 0);
    assert GroupAfter(s, 6, "(").None?;
    SkipSpacesOver(s, 3, 0);
    assert GroupAfter(s, 3, ":=").None?;
    forall k | 0 <= k <= |s| ensures MatchAt(Constructor, s, k).None? {
      if k == 0 {
        NotLiteralAt(s, 0, "new");
      } else if k == 3 {
        NotLiteralAtChar(s, 3, "latlng", 1);
        NotLiteralAt(s, 3, "new");
      } else if k == 4 {
        NotLiteralAt(s, 4, "latlng");
        NotLiteralAtChar(s, 4, "new", 1);
      } else {
        NoConstructorAt(s, k);
      }
    }
    forall k | 0 <= k <= |s| ensures MatchAt(KeyValue, s, k).None? {
      if k == 3 {
        NotLiteralAtChar(s, 3, "lat", 1);
      } else if k != 0 {
        NoKeyValueAt(s, k);
      }
    }
  }

  function SignedLatLngText(lat: string, lng: string): string {
    "LatLng(-" + lat + ", " + lng + ")"
  }

  /** A negative latitude in `LatLng(-A, B)` is not captured as A: the script yields
      nothing. */
  lemma SignedLatLngNone(a: string, b: string)
    requires CoordText(a) && CoordText(b)
    ensures FindCoordinates(SignedLatLngText(a, b)).None?
  {
    var s := SignedLatLngText(a, b);
    var n := |a|;
    assert s[..8] == "LatLng(-";
    forall k | 8 <= k < |s| ensures LowerChar(s[k]) != 'l' && LowerChar(s[k]) != 'n' {
      if k < 8 + n {
        assert s[k] == a[k - 8];
        assert CoordAt(a, k - 8);
      } else if 10 + n <= k < 10 + n + |b| {
        assert s[k] == b[k - 10 - n];
        assert CoordAt(b, k - 10 - n);
      }
    }
    SignedLatLngOver(s);
  }

  /** A text that begins `lat: -`, has no `(` and no later `lat` yields nothing: the sign
      stops the latitude group. */
  lemma SignedKeyValueOver(s: string)
    requires |s| >= 6 && s[..6] == "lat: -" && '(' !in s
    requires forall k :: 1 <= k <= |s| ==> !LiteralAt(s, k, "lat")
    ensures FindCoordinates(s).None?
  {
    forall k | 0 <= k < 6 ensures s[k] == "lat: -"[k] {
      assert s[k] == s[..6][k];
    }
    NoConstructorWithoutParen(s);
    SkipSpacesOver(s, 3, 0);
    SkipSpacesOver(s, 4, 1);
    SkipCoordCharsOver(s, 5, 0);
    assert GroupAfter(s, 3, ":=").None?;
  }

  function SignedKeyValueText(lat: string, lng: string): string {
    "lat: -" + lat + ", lng: " + lng
  }

  /** A negative latitude in `lat: -A, lng: B` is not captured as A: the script yields
      nothing. */
  lemma SignedKeyValueNone(a: string, b: string)
    requires CoordText(a) && CoordText(b)
    ensures FindCoordinates(SignedKeyValueText(a, b)).None?
  {
    var s := SignedKeyValueText(a, b);
    var n := |a|;
    assert s[..6] == "lat: -";
    CoordTextChars(a);
    CoordTextChars(b);
    assert s == "lat: -" + a + ", lng: " + b;
    forall k | 1 <= k < |s| ensures !LiteralAt(s, k, "lat") {
      if k == 8 + n {
        NotLiteralAtChar(s, k, "lat", 1);
      } else if k < 6 {
        assert s[k] == s[..6][k];
        NotLiteralAt(s, k, "lat");
      } else if k < 6 + n {
        assert s[k] == a[k - 6];
        assert CoordAt(a, k - 6);
        NotLiteralAt(s, k, "lat");
      } else if 13 + n <= k {
        assert s[k] == b[k - 13 - n];
        assert CoordAt(b, k - 13 - n);
        NotLiteralAt(s, k, "lat");
      } else {
        NotLiteralAt(s, k, "lat");
      }
    }
    SignedKeyValueOver(s);
  }
}
