/** The play search of routes/search.js: the query is escaped into a literal pattern, matched
    case-insensitively against four fields, and the result is cut to a limit. */
module Search {
  import opened JsString

  /** The characters `esc` escapes: `. * + ? ^ $ { } ( ) | [ ] \` (routes/search.js:6). */
  predicate IsRegexMeta(c: char) {
    || c == '.' || c == '*' || c == '+' || c == '?' || c == '^' || c == '$' || c == '{' || c == '}'
    || c == '(' || c == ')' || c == '|' || c == '[' || c == ']' || c == '\\'
  }

  /** `esc(s)`: a backslash before every metacharacter, every other character unchanged. The
      default argument `''` gives `''`. */
  function Esc(s: string): (r: string)
    ensures |s| <= |r| <= 2 * |s|
    ensures s == "" ==> r == ""
  {
    if s == [] then []
    else (if IsRegexMeta(s[0]) then ['\\', s[0]] else [s[0]]) + Esc(s[1..])
  }

  /** Escaping distributes over concatenation, so each character is escaped on its own. */
  lemma {:induction false} EscAppend(a: string, b: string)
    ensures Esc(a + b) == Esc(a) + Esc(b)
    decreases |a|
  {
    if a == [] {
      assert a + b == b;
    } else {
      assert (a + b)[1..] == a[1..] + b;
      EscAppend(a[1..], b);
    }
  }

  /** A pattern in which every metacharacter is escaped and every backslash escapes one: a
      regular expression that denotes a literal string. */
  predicate Escaped(t: string)
    decreases |t|
  {
    t == []
    || (|t| >= 2 && t[0] == '\\' && IsRegexMeta(t[1]) && Escaped(t[2..]))
    || (!IsRegexMeta(t[0]) && Escaped(t[1..]))
  }

  /** Removes the escaping backslashes: the literal text a pattern stands for. */
  function Unescape(t: string): (r: string)
    ensures |r| <= |t|
    decreases |t|
  {
    if t == [] then []
    else if |t| >= 2 && t[0] == '\\' then [t[1]] + Unescape(t[2..])
    else [t[0]] + Unescape(t[1..])
  }

  /** `esc` always yields a literal pattern. */
  lemma {:induction false} EscIsEscaped(s: string)
    ensures Escaped(Esc(s))
    decreases |s|
  {
    if s != [] {
      EscIsEscaped(s[1..]);
      var r := Esc(s);
      if IsRegexMeta(s[0]) {
        assert r[2..] == Esc(s[1..]);
      } else {
        assert r[1..] == Esc(s[1..]);
      }
    }
  }

  /** Removing the inserted backslashes from `esc(s)` gives `s` back. */
  lemma {:induction false} UnescapeEsc(s: string)
    ensures Unescape(Esc(s)) == s
    decreases |s|
  {
    if s != [] {
      UnescapeEsc(s[1..]);
      var r := Esc(s);
      if IsRegexMeta(s[0]) {
        assert r[2..] == Esc(s[1..]);
      } else {
        assert r[1..] == Esc(s[1..]);
      }
    }
  }

  /** Every literal pattern is the escaping of its text, so `esc` is a bijection between strings
      and literal patterns. */
  lemma {:induction false} EscUnescape(t: string)
    requires Escaped(t)
    ensures Esc(Unescape(t)) == t
    decreases |t|
  {
    if t != [] {
      if |t| >= 2 && t[0] == '\\' && IsRegexMeta(t[1]) {
        EscUnescape(t[2..]);
        assert t == ['\\', t[1]] + t[2..];
      } else {
        EscUnescape(t[1..]);
        assert t == [t[0]] + t[1..];
      }
    }
  }

  /** `needle` occurs in `hay` starting at `i`. */
  predicate OccursAt(hay: string, needle: string, i: nat) {
    i + |needle| <= |hay| && hay[i..i + |needle|] == needle
  }

  /** The case-insensitive test of the literal pattern `esc(q)`: the field is a string that
      contains `q`, ignoring ASCII case. A missing field never matches. */
  predicate ContainsCI(field: Option<string>, q: string) {
    field.Some? && exists i :: 0 <= i <= |field.value| && OccursAt(Lower(field.value), Lower(q), i)
  }

  /** A field that contains the query letter for letter matches it. */
  lemma ContainsSubstring(field: string, q: string, i: nat)
    requires OccursAt(field, q, i)
    ensures ContainsCI(Some(field), q)
  {
    var lf, lq := Lower(field), Lower(q);
    assert lf[i..i + |q|] == lq by {
      forall k | 0 <= k < |q| ensures lf[i + k] == lq[k] {
        assert field[i + k] == q[k];
      }
    }
    assert OccursAt(lf, lq, i);
  }

  /** A lower-case letter and its upper-case form are the same to the test: lower-casing the
      field or the query changes nothing. */
  lemma ContainsIgnoresCase(field: string, q: string)
    ensures ContainsCI(Some(Lower(field)), q) <==> ContainsCI(Some(field), q)
    ensures ContainsCI(Some(field), Lower(q)) <==> ContainsCI(Some(field), q)
  {
    LowerIdempotent(field);
    LowerIdempotent(q);
  }

  lemma LowerIdempotent(s: string)
    ensures Lower(Lower(s)) == Lower(s)
  {
  }

  /** The `location` sub-document. */
  datatype Location = Location(areaName: Option<string>, address: Option<string>, lat: Option<int>, lng: Option<int>)

  /** A stored play; `other` holds the remaining schema fields (area, sale, price, stars,
      imageUrl) by name. */
  datatype Play = Play(title: Option<string>, category: Option<string>, posterUrl: Option<string>,
                       detailUrl: Option<string>, location: Option<Location>, other: map<string, string>)

  function AreaName(p: Play): Option<string> {
    if p.location.Some? then p.location.value.areaName else None
  }

  function AddressOf(p: Play): Option<string> {
    if p.location.Some? then p.location.value.address else None
  }

  /** The `$or` of routes/search.js:17-24. */
  predicate Matches(p: Play, q: string) {
    ContainsCI(p.title, q) || ContainsCI(p.category, q) || ContainsCI(AreaName(p), q) || ContainsCI(AddressOf(p), q)
  }

  /** `.select('title category posterUrl detailUrl location')`. */
  function Select(p: Play): (r: Play)
    ensures r.other == map[]
    ensures r.(other := p.other) == p
  {
    p.(other := map[])
  }

  /** The projection keeps every field the filter reads. */
  lemma SelectKeepsMatch(p: Play, q: string)
    ensures Matches(Select(p), q) <==> Matches(p, q)
  {
  }

  /** The matching plays, in store order. */
  function Matching(plays: seq<Play>, q: string): (r: seq<Play>)
    ensures |r| <= |plays|
    ensures forall p :: p in r <==> p in plays && Matches(p, q)
    decreases |plays|
  {
    if plays == [] then []
    else
      var rest := Matching(plays[..|plays| - 1], q);
      var p := plays[|plays| - 1];
      assert forall x :: x in plays <==> x in plays[..|plays| - 1] || x == p;
      if Matches(p, q) then rest + [p] else rest
  }

  /** Filtering distributes over consecutive parts of the store, so matches keep their store
      order and none is repeated or dropped. */
  lemma {:induction false} MatchingAppend(a: seq<Play>, b: seq<Play>, q: string)
    ensures Matching(a + b, q) == Matching(a, q) + Matching(b, q)
    decreases |b|
  {
    if b == [] {
      assert a + b == a;
    } else {
      var b' := b[..|b| - 1];
      assert (a + b)[..|a + b| - 1] == a + b';
      assert (a + b)[|a + b| - 1] == b[|b| - 1];
      MatchingAppend(a, b', q);
    }
  }

  /** The limit as routes/search.js:11 writes it: `Math.min(parseInt(limit) || 20, 50)`, where
      `param` is the integer `parseInt` reads, None for NaN. A negative value passes through. */
  function LimitAsWritten(param: Option<int>): (n: int)
    ensures n <= 50 && n != 0
    ensures param.None? || param == Some(0) ==> n == 20
    ensures param.Some? && 1 <= param.value <= 50 ==> n == param.value
    ensures param.Some? && param.value > 50 ==> n == 50
    ensures param.Some? && param.value < 0 ==> n == param.value
  {
    var n := if param.None? || param.value == 0 then 20 else param.value;
    if n < 50 then n else 50
  }

  /** How many documents MongoDB returns at most for `.limit(n)`: a negative limit counts as
      its absolute value (a single batch), 0 as no limit. */
  function MongoLimitCount(n: int): (c: Option<nat>)
    ensures n == 0 <==> c.None?
    ensures n != 0 ==> c.Some? && c.value > 0
    ensures n > 0 ==> c == Some(n)
    ensures n < 0 ==> c == Some(-n)
  {
    if n == 0 then None else if n < 0 then Some(-n) else Some(n)
  }

  /** As written, any limit below -50 makes MongoDB return more than 50 plays. */
  lemma AsWrittenExceedsCap(k: int)
    requires k < -50
    ensures MongoLimitCount(LimitAsWritten(Some(k))).value > 50
  {
  }

  /** The evidently intended limit: 20 by default, clamped to 1..50. */
  function Limit(param: Option<int>): (n: int)
    ensures 1 <= n <= 50
    ensures param.None? || param == Some(0) ==> n == 20
    ensures param.Some? && 1 <= param.value <= 50 ==> n == param.value
    ensures param.Some? && param.value > 50 ==> n == 50
    ensures param.Some? && param.value < 0 ==> n == 1
  {
    var n := if param.None? || param.value == 0 then 20 else param.value;
    if n < 1 then 1 else if n < 50 then n else 50
  }

  /** The corrected limit agrees with the source on every limit the source keeps within the cap,
      and MongoDB returns at most 50 plays for it. */
  lemma LimitCorrection(param: Option<int>)
    ensures MongoLimitCount(Limit(param)) == Some(Limit(param)) && Limit(param) <= 50
    ensures LimitAsWritten(param) >= 1 ==> Limit(param) == LimitAsWritten(param)
  {
  }

  /** The response `{ items }`; `queried` is false when no store query was made. */
  datatype SearchResponse = SearchResponse(items: seq<Play>, queried: bool)

  /** The projection of each play. */
  function Project(xs: seq<Play>): (r: seq<Play>)
    ensures |r| == |xs|
    ensures forall i :: 0 <= i < |xs| ==> r[i] == Select(xs[i])
  {
    seq(|xs|, i requires 0 <= i < |xs| => Select(xs[i]))
  }

  /** The first `count` matching plays in store order, projected. */
  function Served(plays: seq<Play>, q: string, count: nat): (r: seq<Play>)
    ensures var m := Matching(plays, q);
      && |r| == (if |m| <= count then |m| else count)
      && forall i :: 0 <= i < |r| ==> r[i] == Select(m[i])
  {
    var m := Matching(plays, q);
    Project(if |m| <= count then m else m[..count])
  }

  /** How many plays MongoDB returns for the limit as written: never 0, because `|| 20` turns
      0 into 20. */
  function ServedCount(limitParam: Option<int>): (c: nat)
    ensures MongoLimitCount(LimitAsWritten(limitParam)) == Some(c)
    ensures c >= 1
  {
    MongoLimitCount(LimitAsWritten(limitParam)).value
  }

  /** GET /search (routes/search.js:8-31) as written: nothing is queried for a blank `q`;
      otherwise the first matching plays in store order, projected, as many as MongoDB returns
      for `.limit(Math.min(parseInt(limit) || 20, 50))`. */
  function Find(plays: seq<Play>, qParam: Option<string>, limitParam: Option<int>): (r: SearchResponse)
    ensures Strip(qParam.GetOr("")) == "" ==> r == SearchResponse([], false)
    ensures Strip(qParam.GetOr("")) != "" ==> r.queried
    ensures r.queried ==> var m := Matching(plays, Strip(qParam.GetOr("")));
      && |r.items| == (if |m| <= ServedCount(limitParam) then |m| else ServedCount(limitParam))
      && forall i :: 0 <= i < |r.items| ==> r.items[i] == Select(m[i])
  {
    var q := Strip(qParam.GetOr(""));
    if q == "" then SearchResponse([], false)
    else SearchResponse(Served(plays, q, ServedCount(limitParam)), true)
  }

  /** The handler with the corrected limit: at most 50 plays whatever the parameter. */
  function FindCorrected(plays: seq<Play>, qParam: Option<string>, limitParam: Option<int>): (r: SearchResponse)
    ensures Strip(qParam.GetOr("")) == "" ==> r == SearchResponse([], false)
    ensures Strip(qParam.GetOr("")) != "" ==> r.queried
    ensures |r.items| <= Limit(limitParam) <= 50
    ensures r.queried ==> var m := Matching(plays, Strip(qParam.GetOr("")));
      && |r.items| == (if |m| <= Limit(limitParam) then |m| else Limit(limitParam))
      && forall i :: 0 <= i < |r.items| ==> r.items[i] == Select(m[i])
  {
    var q := Strip(qParam.GetOr(""));
    if q == "" then SearchResponse([], false)
    else SearchResponse(Served(plays, q, Limit(limitParam)), true)
  }

  /** As written, a limit below -50 on a query with enough matches returns more than 50 plays. */
  lemma FindExceedsCap(plays: seq<Play>, q: string, k: int)
    requires Strip(q) != "" && k < -50 && |Matching(plays, Strip(q))| >= -k
    ensures |Find(plays, Some(q), Some(k)).items| == -k
    ensures |Find(plays, Some(q), Some(k)).items| > 50
  {
  }

  /** The corrected handler answers exactly as the source does whenever the source's limit is
      positive. */
  lemma FindCorrectedAgrees(plays: seq<Play>, qParam: Option<string>, limitParam: Option<int>)
    requires LimitAsWritten(limitParam) >= 1
    ensures FindCorrected(plays, qParam, limitParam) == Find(plays, qParam, limitParam)
  {
    LimitCorrection(limitParam);
  }

  /** What is served matches the query and comes from the store, and when no more plays match
      than the count, every match is served. */
  lemma ServedSound(plays: seq<Play>, q: string, count: nat)
    ensures forall p :: p in Served(plays, q, count) ==> Matches(p, q) && exists s :: s in plays && Select(s) == p
    ensures |Matching(plays, q)| <= count ==> forall p :: p in plays && Matches(p, q) ==> Select(p) in Served(plays, q, count)
  {
    var r := Served(plays, q, count);
    var m := Matching(plays, q);
    forall p | p in r
      ensures Matches(p, q) && exists s :: s in plays && Select(s) == p
    {
      var i :| 0 <= i < |r| && r[i] == p;
      assert m[i] in m;
      SelectKeepsMatch(m[i], q);
    }
    if |m| <= count {
      forall p | p in plays && Matches(p, q)
        ensures Select(p) in r
      {
        var i :| 0 <= i < |m| && m[i] == p;
        assert r[i] == Select(p);
      }
    }
  }

  /** Every returned play matches the trimmed query and comes from the store, and when no more
      plays match than MongoDB returns, every match is returned; likewise for the corrected
      handler and its limit. */
  lemma FindSound(plays: seq<Play>, qParam: Option<string>, limitParam: Option<int>)
    ensures var q := Strip(qParam.GetOr(""));
      var r := Find(plays, qParam, limitParam);
      && (forall p :: p in r.items ==> Matches(p, q) && exists s :: s in plays && Select(s) == p)
      && (r.queried && |Matching(plays, q)| <= ServedCount(limitParam) ==>
            forall p :: p in plays && Matches(p, q) ==> Select(p) in r.items)
    ensures var q := Strip(qParam.GetOr(""));
      var r := FindCorrected(plays, qParam, limitParam);
      && (forall p :: p in r.items ==> Matches(p, q) && exists s :: s in plays && Select(s) == p)
      && (r.queried && |Matching(plays, q)| <= Limit(limitParam) ==>
            forall p :: p in plays && Matches(p, q) ==> Select(p) in r.items)
  {
    var q := Strip(qParam.GetOr(""));
    ServedSound(plays, q, ServedCount(limitParam));
    ServedSound(plays, q, Limit(limitParam));
  }

  /** The search depends only on the trimmed query. */
  lemma SurroundingSpaceIgnored(plays: seq<Play>, q: string, limitParam: Option<int>)
    ensures Find(plays, Some(q), limitParam) == Find(plays, Some(Strip(q)), limitParam)
    ensures FindCorrected(plays, Some(q), limitParam) == FindCorrected(plays, Some(Strip(q)), limitParam)
  {
    StripIdempotent(q);
  }
}
