/**
 * The command router of `DataCleaner.execute_command`: an ordered table of
 * three regular expressions, each searched for anywhere in the command with
 * `re.search` and `re.IGNORECASE`. The first pattern that matches, in
 * declaration order, picks the operation; its groups are the arguments.
 *
 * The patterns are fixed, so their matching is written out here: keywords
 * separated by `\s+`, optionally followed by `\s+(.+)`, which captures the
 * rest of the line.
 */
module Router {
  import opened Wrappers

  // ----- characters -----

  /** Python's `\s` in a str pattern: the characters `str.isspace` accepts. */
  predicate IsSpace(c: char) {
    c == ' ' || '\t' <= c <= '\r' || '\U{1c}' <= c <= '\U{1f}' || c == '\U{85}' || c == '\U{a0}' ||
    c == '\U{1680}' || '\U{2000}' <= c <= '\U{200a}' || c == '\U{2028}' || c == '\U{2029}' ||
    c == '\U{202f}' || c == '\U{205f}' || c == '\U{3000}'
  }

  /** ASCII case folding: re.IGNORECASE lets an upper-case letter match the pattern's lower-case one. */
  function Lower(c: char): char {
    if 'A' <= c <= 'Z' then (c as int + 32) as char else c
  }

  /** A keyword of a pattern: one or more lower-case ASCII letters. */
  predicate IsKeyword(w: string) {
    |w| > 0 && forall k :: 0 <= k < |w| ==> 'a' <= w[k] <= 'z'
  }

  /** The keyword w occurs at position i of s, ignoring case. */
  predicate KeywordAt(s: string, i: nat, w: string) {
    i + |w| <= |s| && forall k :: 0 <= k < |w| ==> Lower(s[i + k]) == w[k]
  }

  predicate AllSpace(s: string, a: nat, b: nat)
    requires a <= b <= |s|
  {
    forall k :: a <= k < b ==> IsSpace(s[k])
  }

  // ----- the pieces of a pattern -----

  /** Where the run of whitespace starting at k ends: as far as a greedy `\s` repetition reaches. */
  function SpaceEnd(s: string, k: nat): (m: nat)
    requires k <= |s|
    ensures k <= m <= |s| && AllSpace(s, k, m)
    ensures m == |s| || !IsSpace(s[m])
    decreases |s| - k
  {
    if k < |s| && IsSpace(s[k]) then SpaceEnd(s, k + 1) else k
  }

  /** Where the line holding position p ends: as far as a greedy `.` repetition reaches. */
  function LineEnd(s: string, p: nat): (e: nat)
    requires p <= |s|
    ensures p <= e <= |s| && (e == |s| || s[e] == '\n')
    ensures forall k :: p <= k < e ==> s[k] != '\n'
    decreases |s| - p
  {
    if p < |s| && s[p] != '\n' then LineEnd(s, p + 1) else p
  }

  /** Backtracking into `\s+`: the last position in [lo, p] at which `.` can match. */
  function Backoff(s: string, lo: nat, p: nat): (r: Option<nat>)
    requires lo <= p <= |s|
    ensures r.Some? ==> lo <= r.value <= p && r.value < |s| && s[r.value] != '\n'
    ensures r.Some? ==> forall q :: r.value < q <= p && q < |s| ==> s[q] == '\n'
    ensures r.None? ==> forall q :: lo <= q <= p && q < |s| ==> s[q] == '\n'
    decreases p
  {
    if p < |s| && s[p] != '\n' then Some(p)
    else if p == lo then None
    else Backoff(s, lo, p - 1)
  }

  /** `\s+(.+)` matched from position a can start its group at p: whitespace in between, and `.` matches at p. */
  predicate GroupStart(s: string, a: nat, p: int) {
    a < p < |s| && AllSpace(s, a, p) && s[p] != '\n'
  }

  lemma GroupStartInRun(s: string, a: nat, p: int)
    requires a <= |s| && GroupStart(s, a, p)
    ensures p <= SpaceEnd(s, a)
  {
  }

  /**
   * The group `\s+(.+)` captures when matched from position a. Python's engine
   * lets `\s+` take the longest run it can give back to, so the group starts at
   * the last possible place and runs to the end of its line.
   */
  function GroupAt(s: string, a: nat): (r: Option<string>)
    requires a <= |s|
    ensures r.Some? ==> |r.value| > 0
  {
    var m := SpaceEnd(s, a);
    if m == a then None
    else match Backoff(s, a + 1, m)
      case None => None
      case Some(p) => Some(s[p..LineEnd(s, p)])
  }

  /**
   * GroupAt agrees with the regular expression: it fails exactly when no start
   * is possible, and otherwise captures from the last possible start to the
   * end of that line.
   */
  lemma GroupAtIsGreedy(s: string, a: nat)
    requires a <= |s|
    ensures GroupAt(s, a).None? <==> forall p :: !GroupStart(s, a, p)
    ensures GroupAt(s, a).Some? ==>
              exists p :: GroupStart(s, a, p) && (forall q :: GroupStart(s, a, q) ==> q <= p) &&
                          GroupAt(s, a).value == s[p..LineEnd(s, p)]
    ensures GroupAt(s, a).Some? ==> forall k :: 0 <= k < |GroupAt(s, a).value| ==> GroupAt(s, a).value[k] != '\n'
  {
    var m := SpaceEnd(s, a);
    assert forall q :: GroupStart(s, a, q) ==> q <= m by {
      forall q | GroupStart(s, a, q) ensures q <= m { GroupStartInRun(s, a, q); }
    }
    if m > a {
      match Backoff(s, a + 1, m)
      case None =>
      case Some(p) =>
        assert GroupStart(s, a, p);
    }
  }

  /** Where the keywords `w0\s+w1...\s+wn`, matched at i, end. */
  function WordsEnd(words: seq<string>, s: string, i: nat): (r: Option<nat>)
    requires i <= |s|
    ensures r.Some? ==> i <= r.value <= |s|
    decreases |words|
  {
    if |words| == 0 then Some(i)
    else if !KeywordAt(s, i, words[0]) then None
    else if |words| == 1 then Some(i + |words[0]|)
    else
      var a := i + |words[0]|;
      var m := SpaceEnd(s, a);
      if m == a then None else WordsEnd(words[1..], s, m)
  }

  /** The regular-expression reading of `w0\s+w1...\s+wn`: some split of s[i..e] into keywords and whitespace runs. */
  ghost predicate WordsSpan(words: seq<string>, s: string, i: nat, e: nat)
    decreases |words|
  {
    if |words| == 0 then e == i
    else
      KeywordAt(s, i, words[0]) &&
      if |words| == 1 then e == i + |words[0]|
      else exists b :: i + |words[0]| < b <= |s| && AllSpace(s, i + |words[0]|, b) && WordsSpan(words[1..], s, b, e)
  }

  /** Greedy matching of the keywords finds a match exactly where the regular expression has one. */
  lemma {:induction false} WordsEndIsSpan(words: seq<string>, s: string, i: nat, e: nat)
    requires i <= |s|
    requires forall k :: 0 <= k < |words| ==> IsKeyword(words[k])
    ensures WordsEnd(words, s, i) == Some(e) <==> WordsSpan(words, s, i, e)
    decreases |words|
  {
    if |words| > 1 && KeywordAt(s, i, words[0]) {
      var a := i + |words[0]|;
      var m := SpaceEnd(s, a);
      assert forall k :: 0 <= k < |words[1..]| ==> IsKeyword(words[1..][k]) by {
        forall k | 0 <= k < |words[1..]| ensures IsKeyword(words[1..][k]) { assert words[1..][k] == words[k + 1]; }
      }
      if WordsSpan(words, s, i, e) {
        var b :| a < b <= |s| && AllSpace(s, a, b) && WordsSpan(words[1..], s, b, e);
        KeywordNotSpace(s, b, words[1]);
        assert b == m;
        WordsEndIsSpan(words[1..], s, b, e);
      }
      if WordsEnd(words, s, i) == Some(e) {
        WordsEndIsSpan(words[1..], s, m, e);
      }
    }
  }

  /** A keyword never starts on whitespace, so a whitespace run before it cannot be split another way. */
  lemma KeywordNotSpace(s: string, b: nat, w: string)
    requires IsKeyword(w) && KeywordAt(s, b, w)
    ensures b < |s| && !IsSpace(s[b])
  {
    assert Lower(s[b + 0]) == w[0];
  }

  // ----- patterns and re.search -----

  /** A pattern of the router: keywords joined by `\s+`, then `\s+(.+)` when it captures. */
  datatype Pattern = Pattern(words: seq<string>, captures: bool)

  /** `re.match` of the pattern at position i: the groups, or None. */
  function MatchAt(p: Pattern, s: string, i: nat): (r: Option<seq<string>>)
    requires i <= |s|
    ensures r.Some? ==> |r.value| == if p.captures then 1 else 0
  {
    match WordsEnd(p.words, s, i)
    case None => None
    case Some(e) =>
      if !p.captures then Some([])
      else match GroupAt(s, e)
        case None => None
        case Some(g) => Some([g])
  }

  /** The pattern matches at i exactly when the regular expression allows it. */
  lemma MatchAtIsRegexMatch(p: Pattern, s: string, i: nat)
    requires i <= |s|
    requires forall k :: 0 <= k < |p.words| ==> IsKeyword(p.words[k])
    ensures MatchAt(p, s, i).Some? <==>
            exists e :: i <= e <= |s| && WordsSpan(p.words, s, i, e) && (p.captures ==> exists q :: GroupStart(s, e, q))
  {
    match WordsEnd(p.words, s, i)
    case None =>
      forall e | i <= e <= |s| ensures !WordsSpan(p.words, s, i, e) {
        WordsEndIsSpan(p.words, s, i, e);
      }
    case Some(e0) =>
      WordsEndIsSpan(p.words, s, i, e0);
      GroupAtIsGreedy(s, e0);
      forall e | i <= e <= |s| && WordsSpan(p.words, s, i, e) ensures e == e0 {
        WordsEndIsSpan(p.words, s, i, e);
      }
  }

  /** A successful search: where the match starts, and its groups. */
  datatype Hit = Hit(start: nat, groups: seq<string>)

  /** `re.match` of the pattern at every position of s, the end included. */
  function Matches(p: Pattern, s: string): (ms: seq<Option<seq<string>>>)
    ensures |ms| == |s| + 1
  {
    seq(|s| + 1, j requires 0 <= j <= |s| => MatchAt(p, s, j))
  }

  /** The scan of `re.search`: the first position from i on that holds a match. */
  function FirstMatch(ms: seq<Option<seq<string>>>, i: nat): (r: Option<Hit>)
    requires i <= |ms|
    ensures r.Some? ==> i <= r.value.start < |ms| && ms[r.value.start] == Some(r.value.groups)
    decreases |ms| - i
  {
    if i == |ms| then None
    else match ms[i]
      case Some(g) => Some(Hit(i, g))
      case None => FirstMatch(ms, i + 1)
  }

  /** The scan stops at the leftmost match from i on, and finds none only when there is none. */
  lemma {:induction false} FirstMatchIsLeftmost(ms: seq<Option<seq<string>>>, i: nat)
    requires i <= |ms|
    ensures FirstMatch(ms, i).Some? ==> forall j :: i <= j < FirstMatch(ms, i).value.start ==> ms[j].None?
    ensures FirstMatch(ms, i).None? ==> forall j :: i <= j < |ms| ==> ms[j].None?
    decreases |ms| - i
  {
    if i < |ms| && ms[i].None? {
      FirstMatchIsLeftmost(ms, i + 1);
    }
  }

  /** `re.search`: the leftmost position at which the pattern matches, if any. */
  function Search(p: Pattern, s: string): (r: Option<Hit>)
    ensures r.Some? ==> r.value.start <= |s| && MatchAt(p, s, r.value.start) == Some(r.value.groups)
    ensures r.Some? ==> |r.value.groups| == if p.captures then 1 else 0
  {
    FirstMatch(Matches(p, s), 0)
  }

  /** Search finds a match exactly when the pattern matches somewhere, and then the leftmost one. */
  lemma SearchIsLeftmost(p: Pattern, s: string)
    ensures Search(p, s).Some? ==> forall j :: 0 <= j < Search(p, s).value.start ==> MatchAt(p, s, j).None?
    ensures Search(p, s).None? <==> forall j :: 0 <= j <= |s| ==> MatchAt(p, s, j).None?
  {
    var ms := Matches(p, s);
    FirstMatchIsLeftmost(ms, 0);
    assert forall j :: 0 <= j <= |s| ==> ms[j] == MatchAt(p, s, j);
  }

  // ----- the routing table -----

  /** The operation a pattern is bound to. */
  datatype Op = ConvertDatesOp | DropColumnsOp | FilterOp

  /** One entry of the command map: a pattern, its operation, and the name of the method the map binds. */
  datatype Route = Route(pattern: Pattern, op: Op, handler: string)

  /** The command map, in declaration order. */
  const Routes: seq<Route> := [
    Route(Pattern(["convertir", "dates"], false), ConvertDatesOp, "_convert_dates"),
    Route(Pattern(["supprimer", "colonnes"], true), DropColumnsOp, "_drop_columns"),
    Route(Pattern(["filtrer"], true), FilterOp, "_filter_data")
  ]

  /** The call the router makes: the operation and the text its pattern captured. */
  datatype Command = ConvertDates | DropColumns(columns: string) | Filter(condition: string)

  /** The pattern has as many groups as its operation takes arguments. */
  predicate Arity(r: Route) {
    r.pattern.captures == (r.op != ConvertDatesOp)
  }

  /** `method(*match.groups())`. */
  function Bind(op: Op, groups: seq<string>): Command
    requires |groups| == if op == ConvertDatesOp then 0 else 1
  {
    match op
    case ConvertDatesOp => ConvertDates
    case DropColumnsOp => DropColumns(groups[0])
    case FilterOp => Filter(groups[0])
  }

  /** Route k is the first, in order, whose pattern occurs in s. */
  predicate FirstHit(routes: seq<Route>, s: string, k: nat)
    requires k < |routes|
  {
    Search(routes[k].pattern, s).Some? && forall j :: 0 <= j < k ==> Search(routes[j].pattern, s).None?
  }

  /** The loop of execute_command over the map: the first route that matches wins; no match gives None. */
  function ResolveIn(routes: seq<Route>, s: string): (r: Option<Command>)
    requires forall k :: 0 <= k < |routes| ==> Arity(routes[k])
    ensures r.None? <==> forall k :: 0 <= k < |routes| ==> Search(routes[k].pattern, s).None?
    ensures r.Some? ==> exists k :: 0 <= k < |routes| && FirstHit(routes, s, k) && Arity(routes[k]) &&
                                    r.value == Bind(routes[k].op, Search(routes[k].pattern, s).value.groups)
    decreases |routes|
  {
    if |routes| == 0 then None
    else match Search(routes[0].pattern, s)
      case Some(h) =>
        assert FirstHit(routes, s, 0) && Arity(routes[0]);
        Some(Bind(routes[0].op, h.groups))
      case None =>
        var rest := routes[1..];
        var r := ResolveIn(rest, s);
        assert forall k :: 1 <= k < |routes| ==> routes[k] == rest[k - 1];
        if r.Some? then
          var k :| 0 <= k < |rest| && FirstHit(rest, s, k) && Arity(rest[k]) &&
                   r.value == Bind(rest[k].op, Search(rest[k].pattern, s).value.groups);
          assert FirstHit(routes, s, k + 1);
          r
        else r
  }

  /** The map holds, in this order, the date, drop-columns and filter routes, each pattern capturing what its operation takes. */
  lemma RoutesWellFormed()
    ensures |Routes| == 3 && Routes[0].op == ConvertDatesOp && Routes[1].op == DropColumnsOp && Routes[2].op == FilterOp
    ensures forall k :: 0 <= k < |Routes| ==> Arity(Routes[k])
    ensures forall k, w :: 0 <= k < |Routes| && 0 <= w < |Routes[k].pattern.words| ==> IsKeyword(Routes[k].pattern.words[w])
  {
  }

  /**
   * execute_command's choice of operation for a command: None exactly when no
   * pattern of the map occurs in it, otherwise the operation of the first
   * route in map order whose pattern occurs, bound to what that pattern captured.
   */
  function Resolve(s: string): (r: Option<Command>)
    ensures r.None? <==> forall k :: 0 <= k < |Routes| ==> Search(Routes[k].pattern, s).None?
    ensures r.Some? ==> exists k :: 0 <= k < |Routes| && FirstHit(Routes, s, k) && Arity(Routes[k]) &&
                                    r.value == Bind(Routes[k].op, Search(Routes[k].pattern, s).value.groups)
  {
    RoutesWellFormed();
    ResolveIn(Routes, s)
  }
}
