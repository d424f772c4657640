/** Commands worked through the router. */
module RouterExamples {
  import opened Wrappers
  import opened Router
  import opened RouterProps

  /** A keyword written in lower case in the command is found there. */
  lemma KeywordLiteral(s: string, i: nat, w: string)
    requires i + |w| <= |s| && s[i..i + |w|] == w && IsKeyword(w)
    ensures KeywordAt(s, i, w)
  {
    forall k | 0 <= k < |w| ensures Lower(s[i + k]) == w[k] {
      assert s[i + k] == s[i..i + |w|][k];
    }
  }

  /** A pattern that matches at the very start is what re.search reports. */
  lemma SearchAtStart(p: Pattern, s: string, g: seq<string>)
    requires MatchAt(p, s, 0) == Some(g)
    ensures Search(p, s) == Some(Hit(0, g))
  {
  }

  lemma MatchNeedsFirstWord(p: Pattern, s: string, j: nat)
    requires j <= |s| && |p.words| > 0 && MatchAt(p, s, j).Some?
    ensures KeywordAt(s, j, p.words[0])
  {
  }

  /** Where a pattern matches, the command holds the first letter of its first keyword. */
  lemma MatchNeedsInitial(p: Pattern, s: string, j: nat)
    requires j <= |s| && |p.words| > 0 && |p.words[0]| > 0 && MatchAt(p, s, j).Some?
    ensures j < |s| && Lower(s[j]) == p.words[0][0]
  {
    MatchNeedsFirstWord(p, s, j);
    assert Lower(s[j + 0]) == p.words[0][0];
  }

  /** A pattern cannot occur in a command that lacks the first letter of its first keyword. */
  lemma NoMatchWithoutInitial(p: Pattern, s: string)
    requires |p.words| > 0 && |p.words[0]| > 0
    requires forall k :: 0 <= k < |s| ==> Lower(s[k]) != p.words[0][0]
    ensures Search(p, s).None?
  {
    SearchIsLeftmost(p, s);
    forall j | 0 <= j <= |s| ensures MatchAt(p, s, j).None? {
      if MatchAt(p, s, j).Some? {
        MatchNeedsInitial(p, s, j);
      }
    }
  }

  /** A command none of whose letters starts a keyword of the map matches no route: execute_command returns None. */
  lemma NoInitialNoRoute(s: string)
    requires forall k :: 0 <= k < |s| ==> Lower(s[k]) !in {'c', 's', 'f'}
    ensures Resolve(s) == None
  {
    var w0, w1, w2: string := "convertir", "supprimer", "filtrer";
    assert Routes[0].pattern.words[0] == w0 && w0[0] == 'c';
    assert Routes[1].pattern.words[0] == w1 && w1[0] == 's';
    assert Routes[2].pattern.words[0] == w2 && w2[0] == 'f';
    NoMatchWithoutInitial(Routes[0].pattern, s);
    NoMatchWithoutInitial(Routes[1].pattern, s);
    NoMatchWithoutInitial(Routes[2].pattern, s);
    RoutesWellFormed();
  }

  /** The empty command matches no pattern. */
  lemma EmptyIsNone()
    ensures Resolve("") == None
  {
    NoInitialNoRoute("");
  }

  /** A command with none of the map's keywords, `xyzzy`, matches no pattern. */
  lemma UnknownCommandIsNone()
    ensures Resolve("xyzzy") == None
  {
    var s := "xyzzy";
    assert forall k :: 0 <= k < |s| ==> s[k] in {'x', 'y', 'z'};
    NoInitialNoRoute(s);
  }

  /** `convertir dates` cannot occur in a command without the letter v. */
  lemma NoConvertWithoutV(s: string)
    requires forall k :: 0 <= k < |s| ==> Lower(s[k]) != 'v'
    ensures Search(Routes[0].pattern, s).None?
  {
    SearchIsLeftmost(Routes[0].pattern, s);
    var p := Routes[0].pattern;
    var w: string := "convertir";
    assert w[3] == 'v';
    assert p.words[0] == w;
    forall j | 0 <= j <= |s| ensures MatchAt(p, s, j).None? {
      if MatchAt(p, s, j).Some? {
        MatchNeedsFirstWord(p, s, j);
      }
    }
  }

  lemma ConvertDatesMatch()
    ensures MatchAt(Routes[0].pattern, "convertir dates", 0) == Some([])
  {
    var s := "convertir dates";
    KeywordLiteral(s, 0, "convertir");
    assert SpaceEnd(s, 9) == 10;
    KeywordLiteral(s, 10, "dates");
    assert WordsEnd(["convertir", "dates"], s, 0) == Some(15);
  }

  lemma ConvertDatesExample()
    ensures Resolve("convertir dates") == Some(ConvertDates)
  {
    ConvertDatesMatch();
    SearchAtStart(Routes[0].pattern, "convertir dates", []);
    ConvertDatesComesFirst("convertir dates");
  }

  /** A later `convertir dates` wins over an earlier `filtrer`: the map is tried in order, not the command. */
  lemma RouteOrderExample()
    ensures Resolve("filtrer x puis convertir dates") == Some(ConvertDates)
  {
    var x, s := "filtrer x puis ", "convertir dates";
    assert x + s == "filtrer x puis convertir dates";
    ConvertDatesMatch();
    ShiftMatchAt(x, Routes[0].pattern, s, 0);
    SearchIsLeftmost(Routes[0].pattern, x + s);
    ConvertDatesComesFirst(x + s);
  }

  lemma LowerConvertDates()
    ensures LowerStr("CONVERTIR DATES") == "convertir dates"
  {
  }

  /** Upper-case letters match the lower-case patterns. */
  lemma UpperCaseExample()
    ensures Resolve("CONVERTIR DATES") == Some(ConvertDates)
  {
    var u := "CONVERTIR DATES";
    LowerConvertDates();
    ResolveIgnoresCase(u);
    ConvertDatesExample();
    match Resolve(u)
    case None =>
    case Some(c) =>
      assert LowerCommand(c) == ConvertDates;
  }

  lemma NoV(s: string)
    requires s == "supprimer colonnes a, b"
    ensures forall k :: 0 <= k < |s| ==> Lower(s[k]) != 'v'
  {
  }

  lemma DropColumnsMatch(s: string)
    requires s == "supprimer colonnes a, b"
    ensures MatchAt(Routes[1].pattern, s, 0) == Some(["a, b"])
  {
    KeywordLiteral(s, 0, "supprimer");
    assert SpaceEnd(s, 9) == 10;
    assert s[10..18] == "colonnes";
    KeywordLiteral(s, 10, "colonnes");
    assert WordsEnd(["supprimer", "colonnes"], s, 0) == Some(18);
    assert SpaceEnd(s, 18) == 19;
    assert Backoff(s, 19, 19) == Some(19);
    assert LineEnd(s, 19) == 23;
    assert s[19..23] == "a, b";
  }

  lemma DropColumnsExample()
    ensures Resolve("supprimer colonnes a, b") == Some(DropColumns("a, b"))
  {
    var s := "supprimer colonnes a, b";
    NoV(s);
    NoConvertWithoutV(s);
    DropColumnsMatch(s);
    SearchAtStart(Routes[1].pattern, s, ["a, b"]);
    DropColumnsComesSecond(s);
  }
}
