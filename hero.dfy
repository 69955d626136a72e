/**
  The hero section's text handling: the choice between the Bulgarian and the English markup of
  the title and the subtitle, and the feature list, whose items are translations in which the
  phrases between double quotes are highlighted. The translation function `t` is a parameter.
 */
module HeroText {
  import opened JsText

  /** One rendered piece of a feature text. */
  datatype Segment = Segment(text: string, highlighted: bool)

  const Quote := '"'

  /** `text.split('"').map(...)`: every piece, highlighted at an odd index. */
  function HighlightSegments(text: string): (r: seq<Segment>)
    ensures |r| == |Split(text, [Quote])|
    ensures forall i :: 0 <= i < |r| ==> r[i].text == Split(text, [Quote])[i]
    ensures forall i :: 0 <= i < |r| ==> (r[i].highlighted <==> i % 2 == 1)
  {
    var parts := Split(text, [Quote]);
    seq(|parts|, i requires 0 <= i < |parts| => Segment(parts[i], i % 2 == 1))
  }

  /** The texts of a list of segments. */
  function Texts(segs: seq<Segment>): (r: seq<string>)
    ensures |r| == |segs| && forall i :: 0 <= i < |r| ==> r[i] == segs[i].text
  {
    seq(|segs|, i requires 0 <= i < |segs| => segs[i].text)
  }

  /** There is one segment more than the text has quotes, no segment holds a quote, and joining
      the segments' texts with the quote gives the text back. */
  lemma SegmentsRebuildText(text: string)
    ensures |HighlightSegments(text)| == Count(text, Quote) + 1
    ensures forall i, j :: 0 <= i < |HighlightSegments(text)| && 0 <= j < |HighlightSegments(text)[i].text| ==>
      HighlightSegments(text)[i].text[j] != Quote
    ensures Join(Texts(HighlightSegments(text)), [Quote]) == text
  {
    SplitCharPieces(text, Quote);
    JoinSplit(text, [Quote]);
    assert Texts(HighlightSegments(text)) == Split(text, [Quote]);
  }

  /** A text without a quote is one plain segment. */
  lemma UnquotedTextIsPlain(text: string)
    requires forall i :: 0 <= i < |text| ==> text[i] != Quote
    ensures HighlightSegments(text) == [Segment(text, false)]
  {
    ContainsCharIff(text, Quote);
  }

  /** The first quote of a text whose opening part holds none is right after that part. */
  lemma QuoteAfterPlainPart(a: string, rest: string)
    requires forall i :: 0 <= i < |a| ==> a[i] != Quote
    ensures IndexOf(a + [Quote] + rest, [Quote]) == |a|
  {
    var s := a + [Quote] + rest;
    assert s[|a|..|a| + 1] == [Quote];
    assert OccursAt(s, [Quote], |a|);
    assert forall j :: 0 <= j < |a| ==> !OccursAt(s, [Quote], j) by {
      forall j | 0 <= j < |a| ensures !OccursAt(s, [Quote], j) {
        assert s[j..j + 1] == [a[j]];
      }
    }
  }

  /** Splitting a text whose opening part holds no quote yields that part, then the pieces of
      what follows its first quote. */
  lemma SplitAfterPlainPart(a: string, rest: string)
    requires forall i :: 0 <= i < |a| ==> a[i] != Quote
    ensures Split(a + [Quote] + rest, [Quote]) == [a] + Split(rest, [Quote])
  {
    var s := a + [Quote] + rest;
    QuoteAfterPlainPart(a, rest);
    assert s[..|a|] == a;
    assert s[|a| + 1..] == rest;
  }

  /** A phrase between a pair of quotes, after a plain opening, is shown highlighted between
      the plain opening and what follows the closing quote. */
  lemma QuotedPhraseIsHighlighted(a: string, b: string, c: string)
    requires forall i :: 0 <= i < |a| ==> a[i] != Quote
    requires forall i :: 0 <= i < |b| ==> b[i] != Quote
    ensures |HighlightSegments(a + [Quote] + b + [Quote] + c)| >= 3
    ensures HighlightSegments(a + [Quote] + b + [Quote] + c)[0] == Segment(a, false)
    ensures HighlightSegments(a + [Quote] + b + [Quote] + c)[1] == Segment(b, true)
    ensures HighlightSegments(a + [Quote] + b + [Quote] + c)[2].text == Split(c, [Quote])[0]
  {
    var rest := b + [Quote] + c;
    var s := a + [Quote] + rest;
    assert a + [Quote] + b + [Quote] + c == s;
    SplitAfterPlainPart(a, rest);
    SplitAfterPlainPart(b, c);
    var parts := Split(s, [Quote]);
    assert parts[0] == a && parts[1] == b && parts[2] == Split(c, [Quote])[0];
    var h := HighlightSegments(s);
    assert h[0].text == a && h[1].text == b;
  }

  /** Whether the title, or the subtitle, is given its Bulgarian markup: the test is for one
      Bulgarian word in the translated text. */
  predicate BulgarianTitle(mainTitle: string)
  {
    Contains(mainTitle, "Агрегираме")
  }

  predicate BulgarianSubtitle(subtitle: string)
  {
    Contains(subtitle, "оптимални")
  }

  /** The Bulgarian markup is chosen for a text holding the word anywhere in it, and the English
      one for a text in which the word's first letter does not occur at all. */
  lemma LanguageSelection(a: string, b: string, english: string)
    requires forall i :: 0 <= i < |english| ==> english[i] != 'А' && english[i] != 'о'
    ensures BulgarianTitle(a + "Агрегираме" + b)
    ensures BulgarianSubtitle(a + "оптимални" + b)
    ensures !BulgarianTitle(english) && !BulgarianSubtitle(english)
  {
    ContainsInfix(a, "Агрегираме", b);
    ContainsInfix(a, "оптимални", b);
    ContainsFirstLetter(english, "Агрегираме");
    ContainsFirstLetter(english, "оптимални");
  }

  /** A text that contains a word contains the word's first letter. */
  lemma ContainsFirstLetter(s: string, w: string)
    requires w != []
    ensures Contains(s, w) ==> exists i :: 0 <= i < |s| && s[i] == w[0]
  {
    if Contains(s, w) {
      var i := IndexOf(s, w);
      assert s[i..i + |w|][0] == s[i];
    }
  }

  /** The numbers of the feature items. */
  const FeatureNumbers: seq<nat> := [1, 2, 3, 4, 5, 6]

  /** `hero.feature${num}` for a one-digit number. */
  function FeatureKey(num: nat): (k: string)
    requires num <= 9
    ensures |k| == 13 && k[12] == ('0' as int + num) as char
  {
    "hero.feature" + [('0' as int + num) as char]
  }

  /** The feature list: one item per number, each the segments of its translation. */
  function RenderFeatures(t: string -> string): (r: seq<seq<Segment>>)
    ensures |r| == |FeatureNumbers|
    ensures forall i :: 0 <= i < |r| ==> r[i] == HighlightSegments(t(FeatureKey(FeatureNumbers[i])))
  {
    seq(|FeatureNumbers|, i requires 0 <= i < |FeatureNumbers| => HighlightSegments(t(FeatureKey(FeatureNumbers[i]))))
  }

  /** Exactly six items are rendered, numbered 1 to 6, and no two share a key. */
  lemma SixDistinctFeatures(t: string -> string)
    ensures |RenderFeatures(t)| == 6
    ensures forall i :: 0 <= i < 6 ==> FeatureNumbers[i] == i + 1
    ensures forall i, j :: 0 <= i < j < 6 ==> FeatureKey(FeatureNumbers[i]) != FeatureKey(FeatureNumbers[j])
  {
    forall i, j | 0 <= i < j < 6
      ensures FeatureKey(FeatureNumbers[i]) != FeatureKey(FeatureNumbers[j])
    {
      assert FeatureKey(FeatureNumbers[i])[12] != FeatureKey(FeatureNumbers[j])[12];
    }
  }
}
