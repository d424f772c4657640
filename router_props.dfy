/**
 * Properties of the router that hold for every command: matching ignores
 * letter case, may start anywhere in the command, and a captured argument is
 * a non-empty piece of one line.
 */
module RouterProps {
  import opened Wrappers
  import opened Router

  // ----- letter case -----

  function LowerStr(s: string): (r: string)
    ensures |r| == |s|
  {
    seq(|s|, k requires 0 <= k < |s| => Lower(s[k]))
  }

  function LowerGroups(g: seq<string>): seq<string> {
    seq(|g|, k requires 0 <= k < |g| => LowerStr(g[k]))
  }

  function LowerCommand(c: Command): Command {
    match c
    case ConvertDates => ConvertDates
    case DropColumns(a) => DropColumns(LowerStr(a))
    case Filter(a) => Filter(LowerStr(a))
  }

  lemma LowerChar(c: char)
    ensures Lower(Lower(c)) == Lower(c)
    ensures IsSpace(Lower(c)) == IsSpace(c)
    ensures (Lower(c) == '\n') == (c == '\n')
  {
  }

  lemma LowerKeywordAt(s: string, i: nat, w: string)
    ensures KeywordAt(LowerStr(s), i, w) == KeywordAt(s, i, w)
  {
    if i + |w| <= |s| {
      forall k | 0 <= k < |w|
        ensures (Lower(LowerStr(s)[i + k]) == w[k]) == (Lower(s[i + k]) == w[k])
      {
        LowerChar(s[i + k]);
      }
    }
  }

  lemma {:induction false} LowerSpaceEnd(s: string, k: nat)
    requires k <= |s|
    ensures SpaceEnd(LowerStr(s), k) == SpaceEnd(s, k)
    decreases |s| - k
  {
    if k < |s| {
      LowerChar(s[k]);
      LowerSpaceEnd(s, k + 1);
    }
  }

  lemma {:induction false} LowerLineEnd(s: string, p: nat)
    requires p <= |s|
    ensures LineEnd(LowerStr(s), p) == LineEnd(s, p)
    decreases |s| - p
  {
    if p < |s| {
      LowerChar(s[p]);
      LowerLineEnd(s, p + 1);
    }
  }

  lemma {:induction false} LowerBackoff(s: string, lo: nat, p: nat)
    requires lo <= p <= |s|
    ensures Backoff(LowerStr(s), lo, p) == Backoff(s, lo, p)
    decreases p
  {
    if p < |s| {
      LowerChar(s[p]);
    }
    if p > lo {
      LowerBackoff(s, lo, p - 1);
    }
  }

  lemma LowerGroupAt(s: string, a: nat)
    requires a <= |s|
    ensures GroupAt(LowerStr(s), a) == match GroupAt(s, a) case None => None case Some(g) => Some(LowerStr(g))
  {
    var m := SpaceEnd(s, a);
    LowerSpaceEnd(s, a);
    if m > a {
      LowerBackoff(s, a + 1, m);
      match Backoff(s, a + 1, m)
      case None =>
      case Some(p) =>
        LowerLineEnd(s, p);
        assert LowerStr(s)[p..LineEnd(s, p)] == LowerStr(s[p..LineEnd(s, p)]);
    }
  }

  /** Keywords occur at the same places in the lower-cased text. The offset is written `0 + j` so that the
   * clause has the `d + j` shape of `WordsEndMoved`'s hypotheses, with d = 0. */
  lemma LowerKeywords(s: string)
    ensures forall j: nat, w: string :: j <= |s| ==> KeywordAt(LowerStr(s), 0 + j, w) == KeywordAt(s, j, w)
  {
    forall j: nat, w: string | j <= |s| ensures KeywordAt(LowerStr(s), 0 + j, w) == KeywordAt(s, j, w) {
      LowerKeywordAt(s, j, w);
    }
  }

  /** Whitespace runs end at the same places in the lower-cased text. The offsets are written `0 + k` so
   * that the clause has the `d + k` shape of `WordsEndMoved`'s hypotheses, with d = 0. */
  lemma LowerSpaces(s: string)
    ensures forall k :: 0 <= k <= |s| ==> SpaceEnd(LowerStr(s), 0 + k) == 0 + SpaceEnd(s, k)
  {
    forall k | 0 <= k <= |s| ensures SpaceEnd(LowerStr(s), 0 + k) == 0 + SpaceEnd(s, k) {
      LowerSpaceEnd(s, k);
    }
  }

  lemma LowerWordsEnd(words: seq<string>, s: string, i: nat)
    requires i <= |s|
    ensures WordsEnd(words, LowerStr(s), i) == WordsEnd(words, s, i)
  {
    LowerKeywords(s);
    LowerSpaces(s);
    WordsEndMoved(words, s, LowerStr(s), 0, i);
  }

  lemma LowerMatchAt(p: Pattern, s: string, i: nat)
    requires i <= |s|
    ensures MatchAt(p, LowerStr(s), i) == LowerMatch(MatchAt(p, s, i))
  {
    LowerWordsEnd(p.words, s, i);
    match WordsEnd(p.words, s, i)
    case None =>
    case Some(e) =>
      if !p.captures {
        assert LowerGroups([]) == [];
      } else {
        LowerGroupAt(s, e);
        match GroupAt(s, e)
        case None =>
        case Some(g) =>
          assert LowerGroups([g]) == [LowerStr(g)];
      }
  }

  function LowerMatch(m: Option<seq<string>>): Option<seq<string>> {
    match m
    case None => None
    case Some(g) => Some(LowerGroups(g))
  }

  function LowerHit(h: Option<Hit>): Option<Hit> {
    match h
    case None => None
    case Some(h) => Some(Hit(h.start, LowerGroups(h.groups)))
  }

  lemma {:induction false} FirstMatchLowered(ms: seq<Option<seq<string>>>, ls: seq<Option<seq<string>>>, i: nat)
    requires i <= |ms| == |ls|
    requires forall j :: i <= j < |ms| ==> ls[j] == LowerMatch(ms[j])
    ensures FirstMatch(ls, i) == LowerHit(FirstMatch(ms, i))
    decreases |ms| - i
  {
    if i < |ms| && ms[i].None? {
      FirstMatchLowered(ms, ls, i + 1);
    }
  }

  lemma LowerSearch(p: Pattern, s: string)
    ensures Search(p, LowerStr(s)) == LowerHit(Search(p, s))
  {
    var ms, ls := Matches(p, s), Matches(p, LowerStr(s));
    forall j | 0 <= j < |ms| ensures ls[j] == LowerMatch(ms[j]) {
      LowerMatchAt(p, s, j);
    }
    FirstMatchLowered(ms, ls, 0);
  }

  lemma {:induction false} LowerResolveIn(routes: seq<Route>, s: string)
    requires forall k :: 0 <= k < |routes| ==> Arity(routes[k])
    ensures ResolveIn(routes, LowerStr(s)) ==
            match ResolveIn(routes, s) case None => None case Some(c) => Some(LowerCommand(c))
    decreases |routes|
  {
    if |routes| > 0 {
      LowerSearch(routes[0].pattern, s);
      LowerResolveIn(routes[1..], s);
    }
  }

  /**
   * Matching ignores letter case: lower-casing a command selects the same
   * operation, with the lower-cased argument.
   */
  lemma ResolveIgnoresCase(s: string)
    ensures Resolve(LowerStr(s)) == match Resolve(s) case None => None case Some(c) => Some(LowerCommand(c))
  {
    RoutesWellFormed();
    LowerResolveIn(Routes, s);
  }

  // ----- unanchored search -----

  lemma ShiftKeywordAt(x: string, s: string, i: nat, w: string)
    ensures KeywordAt(x + s, |x| + i, w) == KeywordAt(s, i, w)
  {
    if i + |w| <= |s| {
      forall k | 0 <= k < |w|
        ensures (Lower((x + s)[|x| + i + k]) == w[k]) == (Lower(s[i + k]) == w[k])
      {
        assert (x + s)[|x| + i + k] == s[i + k];
      }
    }
  }

  lemma {:induction false} ShiftSpaceEnd(x: string, s: string, k: nat)
    requires k <= |s|
    ensures SpaceEnd(x + s, |x| + k) == |x| + SpaceEnd(s, k)
    decreases |s| - k
  {
    if k < |s| {
      assert (x + s)[|x| + k] == s[k];
      ShiftSpaceEnd(x, s, k + 1);
    }
  }

  lemma {:induction false} ShiftLineEnd(x: string, s: string, p: nat)
    requires p <= |s|
    ensures LineEnd(x + s, |x| + p) == |x| + LineEnd(s, p)
    decreases |s| - p
  {
    if p < |s| {
      assert (x + s)[|x| + p] == s[p];
      ShiftLineEnd(x, s, p + 1);
    }
  }

  lemma {:induction false} ShiftBackoff(x: string, s: string, lo: nat, p: nat)
    requires lo <= p <= |s|
    ensures Backoff(x + s, |x| + lo, |x| + p) == match Backoff(s, lo, p) case None => None case Some(q) => Some(|x| + q)
    decreases p
  {
    if p < |s| {
      assert (x + s)[|x| + p] == s[p];
    }
    if p > lo {
      ShiftBackoff(x, s, lo, p - 1);
    }
  }

  lemma ShiftGroupAt(x: string, s: string, a: nat)
    requires a <= |s|
    ensures GroupAt(x + s, |x| + a) == GroupAt(s, a)
  {
    var m := SpaceEnd(s, a);
    ShiftSpaceEnd(x, s, a);
    if m > a {
      ShiftBackoff(x, s, a + 1, m);
      match Backoff(s, a + 1, m)
      case None =>
      case Some(p) =>
        ShiftLineEnd(x, s, p);
        ShiftSlice(x, s, p, LineEnd(s, p));
    }
  }

  lemma ShiftSlice(x: string, s: string, p: nat, e: nat)
    requires p <= e <= |s|
    ensures (x + s)[|x| + p..|x| + e] == s[p..e]
  {
  }

  /** A position moved by d. */
  function Moved(r: Option<nat>, d: nat): Option<nat> {
    match r
    case None => None
    case Some(e) => Some(d + e)
  }

  /**
   * Keyword matching on a text l that agrees with s, moved d positions on,
   * in where keywords occur and where whitespace runs end.
   */
  lemma {:induction false} WordsEndMoved(words: seq<string>, s: string, l: string, d: nat, i: nat)
    requires i <= |s| && |l| == d + |s|
    requires forall j: nat, w: string :: j <= |s| ==> KeywordAt(l, d + j, w) == KeywordAt(s, j, w)
    requires forall k :: 0 <= k <= |s| ==> SpaceEnd(l, d + k) == d + SpaceEnd(s, k)
    ensures WordsEnd(words, l, d + i) == Moved(WordsEnd(words, s, i), d)
    decreases |words|
  {
    if |words| > 1 && KeywordAt(s, i, words[0]) {
      var m := SpaceEnd(s, i + |words[0]|);
      assert SpaceEnd(l, d + (i + |words[0]|)) == d + m;
      if m > i + |words[0]| {
        WordsEndMoved(words[1..], s, l, d, m);
      }
    }
  }

  lemma ShiftKeywords(x: string, s: string)
    ensures forall j: nat, w: string :: j <= |s| ==> KeywordAt(x + s, |x| + j, w) == KeywordAt(s, j, w)
  {
    forall j: nat, w: string | j <= |s| ensures KeywordAt(x + s, |x| + j, w) == KeywordAt(s, j, w) {
      ShiftKeywordAt(x, s, j, w);
    }
  }

  lemma ShiftSpaces(x: string, s: string)
    ensures forall k :: 0 <= k <= |s| ==> SpaceEnd(x + s, |x| + k) == |x| + SpaceEnd(s, k)
  {
    forall k | 0 <= k <= |s| ensures SpaceEnd(x + s, |x| + k) == |x| + SpaceEnd(s, k) {
      ShiftSpaceEnd(x, s, k);
    }
  }

  lemma ShiftWordsEnd(x: string, words: seq<string>, s: string, i: nat)
    requires i <= |s|
    ensures WordsEnd(words, x + s, |x| + i) == Moved(WordsEnd(words, s, i), |x|)
  {
    ShiftKeywords(x, s);
    ShiftSpaces(x, s);
    WordsEndMoved(words, s, x + s, |x|, i);
  }

  /** Text in front of a match does not change what the pattern matches there. */
  lemma ShiftMatchAt(x: string, p: Pattern, s: string, i: nat)
    requires i <= |s|
    ensures MatchAt(p, x + s, |x| + i) == MatchAt(p, s, i)
  {
    ShiftWordsEnd(x, p.words, s, i);
    match WordsEnd(p.words, s, i)
    case None =>
    case Some(e) =>
      ShiftGroupAt(x, s, e);
  }

  /**
   * The search is not anchored: a command that selects an operation still
   * selects one, whatever text is put in front of it.
   */
  lemma ResolveUnanchored(x: string, s: string)
    ensures Resolve(s).Some? ==> Resolve(x + s).Some?
  {
    RoutesWellFormed();
    if Resolve(s).Some? {
      var k :| 0 <= k < |Routes| && Search(Routes[k].pattern, s).Some?;
      var pat := Routes[k].pattern;
      var h := Search(pat, s).value;
      ShiftMatchAt(x, pat, s, h.start);
      SearchIsLeftmost(pat, x + s);
      assert Search(pat, x + s).Some?;
    }
  }

  // ----- order and arguments -----

  /** `convertir dates` is tried first: a command holding it converts dates, whatever else it holds. */
  lemma ConvertDatesComesFirst(s: string)
    requires Search(Routes[0].pattern, s).Some?
    ensures Resolve(s) == Some(ConvertDates)
  {
  }

  /** `supprimer colonnes` is dispatched only when `convertir dates` does not occur; then it wins over `filtrer`. */
  lemma DropColumnsComesSecond(s: string)
    requires Search(Routes[0].pattern, s).None? && Search(Routes[1].pattern, s).Some?
    ensures Resolve(s) == Some(DropColumns(Search(Routes[1].pattern, s).value.groups[0]))
  {
  }

  /** `filtrer` is dispatched only when neither earlier pattern occurs. */
  lemma FilterComesLast(s: string)
    requires Search(Routes[0].pattern, s).None? && Search(Routes[1].pattern, s).None?
    requires Search(Routes[2].pattern, s).Some?
    ensures Resolve(s) == Some(Filter(Search(Routes[2].pattern, s).value.groups[0]))
  {
  }

  /** The text a pattern captures after `\s+` at position a: non-empty, within one line, after whitespace. */
  predicate IsArgumentOf(s: string, arg: string) {
    exists p, e :: 0 < p < e <= |s| && arg == s[p..e] && IsSpace(s[p - 1]) && (e == |s| || s[e] == '\n')
  }

  /** What `\s+(.+)` captures is an argument of the command. */
  lemma GroupIsArgument(s: string, a: nat)
    requires a <= |s| && GroupAt(s, a).Some?
    ensures (forall k :: 0 <= k < |GroupAt(s, a).value| ==> GroupAt(s, a).value[k] != '\n') &&
            IsArgumentOf(s, GroupAt(s, a).value)
  {
    GroupAtIsGreedy(s, a);
    var p :| GroupStart(s, a, p) && GroupAt(s, a).value == s[p..LineEnd(s, p)];
    assert IsSpace(s[p - 1]);
  }

  /**
   * The argument given to `supprimer colonnes` or `filtrer` is never empty,
   * holds no line break, follows whitespace and runs to the end of its line.
   */
  lemma ArgumentShape(s: string)
    requires Resolve(s).Some? && !Resolve(s).value.ConvertDates?
    ensures var arg := if Resolve(s).value.DropColumns? then Resolve(s).value.columns else Resolve(s).value.condition;
            |arg| > 0 && (forall k :: 0 <= k < |arg| ==> arg[k] != '\n') && IsArgumentOf(s, arg)
  {
    RoutesWellFormed();
    var k :| 0 <= k < |Routes| && FirstHit(Routes, s, k) && Arity(Routes[k]) &&
             Resolve(s).value == Bind(Routes[k].op, Search(Routes[k].pattern, s).value.groups);
    var pat := Routes[k].pattern;
    var h := Search(pat, s).value;
    assert pat.captures;
    var e := WordsEnd(pat.words, s, h.start).value;
    assert GroupAt(s, e) == Some(h.groups[0]);
    GroupIsArgument(s, e);
  }
}
