/**
  The titles of the "problems we solve" list: the helper that breaks a title before a word on
  narrow screens, the split of an arrow title into its two sides, and the choice among the four
  title renderings. Titles are translations; the two titles the choice compares against are
  parameters.
 */
module ProblemTitles {
  import opened Wrappers
  import opened JsText

  /** What `renderWithMobileBreak` renders: the whole text, or a first part (shown followed by
      one space) and a second part, with a line break between them on narrow screens. */
  datatype MobileBreak = Whole(text: string) | Broken(first: string, second: string)

  /** `renderWithMobileBreak(text, breakBefore)` */
  function RenderWithMobileBreak(text: string, breakBefore: string): (r: MobileBreak)
    ensures r.Whole? <==> !Contains(text, breakBefore)
    ensures r.Whole? ==> r.text == text
    ensures r.Broken? ==> var idx := IndexOf(text, breakBefore);
      && r.second == text[idx..]
      && StartsWith(r.second, breakBefore)
      && r.first == TrimEnd(text[..idx])
  {
    var idx := IndexOf(text, breakBefore);
    if idx == -1 then Whole(text)
    else
      assert text[idx..][..|breakBefore|] == text[idx..idx + |breakBefore|];
      Broken(TrimEnd(text[..idx]), text[idx..])
  }

  /** A broken title is its first part, some whitespace, and its second part, so nothing but
      whitespace is lost. */
  lemma MobileBreakRebuilds(text: string, breakBefore: string)
    requires RenderWithMobileBreak(text, breakBefore).Broken?
    ensures var r := RenderWithMobileBreak(text, breakBefore);
      exists ws :: AllWhitespace(ws) && text == r.first + ws + r.second
  {
    var idx := IndexOf(text, breakBefore);
    TrimmedPrefixSplits(text, idx);
    var ws := text[..idx][|TrimEnd(text[..idx])|..];
    assert AllWhitespace(ws) && text == TrimEnd(text[..idx]) + ws + text[idx..];
  }

  /** A text is its prefix with trailing whitespace trimmed, that whitespace, and the rest. */
  lemma TrimmedPrefixSplits(text: string, idx: nat)
    requires idx <= |text|
    ensures var f := TrimEnd(text[..idx]);
      AllWhitespace(text[..idx][|f|..]) && text == f + text[..idx][|f|..] + text[idx..]
  {
    var p := text[..idx];
    var f := TrimEnd(p);
    assert p == f + p[|f|..];
    assert text == p + text[idx..];
  }

  /** The first part does not hold the word: it lies before the word's first occurrence. */
  lemma FirstPartLacksWord(text: string, w: string)
    requires RenderWithMobileBreak(text, w).Broken? && |w| > 0
    ensures !Contains(RenderWithMobileBreak(text, w).first, w)
  {
    var idx := IndexOf(text, w);
    var f := RenderWithMobileBreak(text, w).first;
    assert f == text[..|f|];
    forall j | 0 <= j <= |f|
      ensures !OccursAt(f, w, j)
    {
      OccursInPrefix(text, |f|, w, j);
    }
  }

  /** An occurrence in a prefix is an occurrence in the whole. */
  lemma OccursInPrefix(s: string, n: nat, t: string, j: int)
    requires n <= |s|
    ensures OccursAt(s[..n], t, j) ==> OccursAt(s, t, j)
  {
    if OccursAt(s[..n], t, j) {
      assert s[..n][j..j + |t|] == s[j..j + |t|];
    }
  }

  /** The choice the titles make between a Bulgarian and an English text: the Bulgarian one when
      the title holds the marker. */
  function ByLanguage(problem: string, marker: string, bulgarian: string, english: string): (w: string)
    ensures Contains(problem, marker) ==> w == bulgarian
    ensures !Contains(problem, marker) ==> w == english
  {
    if Contains(problem, marker) then bulgarian else english
  }

  /** The word the fourth title breaks before. */
  function BreakWord(problem: string): string
  {
    ByLanguage(problem, "кандидати", "кандидати", "candidates")
  }

  const Arrow := " → "

  /** `problem.split(' → ')[0]` and `[1]`; the second is `undefined` (nothing shown) when the
      arrow is not surrounded by spaces. */
  function ArrowSides(problem: string): (r: (string, Option<string>))
    ensures !Contains(problem, Arrow) ==> r == (problem, None)
    ensures Contains(problem, Arrow) ==> r.0 == problem[..IndexOf(problem, Arrow)] && r.1.Some?
  {
    var parts := Split(problem, Arrow);
    (parts[0], if |parts| > 1 then Some(parts[1]) else None)
  }

  /** The sides of an arrow title: the text before the first arrow, and the text after it up to
      the next arrow if any; later pieces are dropped. With a single arrow the sides and the
      arrow make up the whole title. */
  lemma ArrowSidesDropLaterPieces(problem: string)
    requires Contains(problem, Arrow)
    ensures var i := IndexOf(problem, Arrow);
      var rest := problem[i + |Arrow|..];
      && ArrowSides(problem).0 == problem[..i]
      && ArrowSides(problem).1 == Some(Split(rest, Arrow)[0])
      && (!Contains(rest, Arrow) ==> problem == ArrowSides(problem).0 + Arrow + ArrowSides(problem).1.value)
  {
    var i := IndexOf(problem, Arrow);
    SplitFirstPiece(problem, Arrow);
  }

  /** The word the third title is split before, with its leading space: the Bulgarian one when
      the title has the Bulgarian stem. */
  function RiskWord(problem: string): string
  {
    ByLanguage(problem, "желан", " желан", " desired")
  }

  /** What the second line of the third title adds after the word. */
  function RiskTail(problem: string): string
  {
    ByLanguage(problem, "желан", " риск", " risk")
  }

  /** The first line of the third title is the text before the first occurrence of the word;
      when the word does not occur with its leading space, it is the whole title. */
  lemma RiskHeadPrecedesWord(problem: string)
    ensures var w := RiskWord(problem);
      var head := Split(problem, w)[0];
      && (Contains(problem, w) ==> head == problem[..IndexOf(problem, w)] && problem == head + w + problem[IndexOf(problem, w) + |w|..])
      && (!Contains(problem, w) ==> head == problem)
  {
    var w := RiskWord(problem);
    if Contains(problem, w) {
      SplitFirstPiece(problem, w);
    }
  }

  /** How a title is rendered. */
  datatype TitleView =
    | ArrowView(left: string, right: Option<string>)
    | RiskView(head: string, tail: string)
    | BreakView(parts: MobileBreak)
    | PlainView(text: string)

  /** The choice among the renderings: an arrow title (any `→`) first, then the third title
      split before its 'desired' word, then the fourth title broken before its break word, and
      every other title as it is. `title3` and `title4` are the translations of those titles. */
  function RenderTitle(problem: string, title3: string, title4: string): (v: TitleView)
    ensures v.ArrowView? <==> Contains(problem, "→")
    ensures v.RiskView? <==> !Contains(problem, "→") && problem == title3
    ensures v.BreakView? <==> !Contains(problem, "→") && problem != title3 && problem == title4
    ensures v.BreakView? ==> v.parts == RenderWithMobileBreak(problem, BreakWord(problem))
    ensures v.PlainView? ==> v.text == problem
    ensures v.ArrowView? ==> (v.left, v.right) == ArrowSides(problem)
    ensures v.RiskView? ==> v.head == Split(problem, RiskWord(problem))[0] && v.tail == RiskWord(problem) + RiskTail(problem)
  {
    if Contains(problem, "→") then
      var sides := ArrowSides(problem);
      ArrowView(sides.0, sides.1)
    else if problem == title3 then
      RiskView(Split(problem, RiskWord(problem))[0], RiskWord(problem) + RiskTail(problem))
    else if problem == title4 then BreakView(RenderWithMobileBreak(problem, BreakWord(problem)))
    else PlainView(problem)
  }

  /** A title with `→` but no arrow with spaces around it shows only its left side, which is
      the whole title. */
  lemma BareArrowShowsLeftOnly(problem: string, title3: string, title4: string)
    requires Contains(problem, "→") && !Contains(problem, Arrow)
    ensures RenderTitle(problem, title3, title4) == ArrowView(problem, None)
  {
  }
}
