/**
  The legal page: the line classifier that turns a translated text into bullets, paragraphs and
  line breaks, the `tab` query whitelist that chooses the section shown, the section change that
  navigates, and the dispatch from the section to its content. The translation function and the
  router are outside the model; the navigation is recorded as the location it replaces.
 */
module LegalPage {
  import opened Wrappers
  import opened JsText

  /** One rendered item of a text: a bullet with its content, a paragraph holding a line as
      written, or a line break for an empty line. */
  datatype Item = Bullet(content: string) | Paragraph(line: string) | LineBreak

  /** The rendering of one line. */
  function ClassifyLine(line: string): (item: Item)
    ensures item.Bullet? <==> StartsWith(Trim(line), "-")
    ensures item.Bullet? ==> item.content == Trim(Trim(line)[1..])
    ensures item.Paragraph? <==> line != "" && !StartsWith(Trim(line), "-")
    ensures item.Paragraph? ==> item.line == line
    ensures item == LineBreak <==> line == ""
  {
    if StartsWith(Trim(line), "-") then Bullet(Trim(Trim(line)[1..]))
    else if line != "" then Paragraph(line)
    else assert Trim(line) == []; LineBreak
  }

  /** `renderTextWithBullets(text)`: one item per line of `text`, in order. */
  function RenderTextWithBullets(text: string): (items: seq<Item>)
    ensures |items| == |Split(text, "\n")|
    ensures forall i :: 0 <= i < |items| ==> items[i] == ClassifyLine(Split(text, "\n")[i])
  {
    var lines := Split(text, "\n");
    seq(|lines|, i requires 0 <= i < |lines| => ClassifyLine(lines[i]))
  }

  /** There is one item more than the text has newlines, and the lines the items come from are
      the text cut at its newlines: none holds a newline, and joined back with newlines they give
      the text. */
  lemma RenderedLines(text: string)
    ensures |RenderTextWithBullets(text)| == Count(text, '\n') + 1
    ensures forall i, j :: 0 <= i < |Split(text, "\n")| && 0 <= j < |Split(text, "\n")[i]| ==>
      Split(text, "\n")[i][j] != '\n'
    ensures Join(Split(text, "\n"), "\n") == text
  {
    SplitCharPieces(text, '\n');
    JoinSplit(text, "\n");
  }

  /** A whitespace-only line is a paragraph, not a line break: only the empty line is. */
  lemma BlankLineIsParagraph(line: string)
    requires line != "" && AllWhitespace(line)
    ensures ClassifyLine(line) == Paragraph(line)
  {
    BlankIffAllWhitespace(line);
  }

  /** A bullet's content is trimmed on both sides, and the dash is dropped. */
  lemma BulletContentTrimmed(line: string)
    requires ClassifyLine(line).Bullet?
    ensures var c := ClassifyLine(line).content;
      c != [] ==> !IsWhitespace(c[0]) && !IsWhitespace(c[|c| - 1])
  {
    TrimInfix(Trim(line)[1..]);
  }

  /** A line with a dash after its indentation is a bullet even when the dash is all there is. */
  lemma IndentedDashIsBullet(indent: string, rest: string)
    requires AllWhitespace(indent)
    ensures ClassifyLine(indent + "-" + rest).Bullet?
  {
    var line := indent + "-" + rest;
    assert line == indent + ("-" + rest);
    TrimStartSkips(indent, "-" + rest);
    TrimEndKeepsFirst("-" + rest);
    assert Trim(line)[..1] == "-";
  }

  /** Trimming the end keeps a first character that is not whitespace. */
  lemma TrimEndKeepsFirst(s: string)
    requires s != [] && !IsWhitespace(s[0])
    ensures |TrimEnd(s)| >= 1 && TrimEnd(s)[0] == s[0]
  {
    var r := TrimEnd(s);
    assert r[0] == s[..|r|][0];
  }

  /** Trimming the start skips leading whitespace up to a non-whitespace character. */
  lemma {:induction false} TrimStartSkips(ws: string, s: string)
    requires AllWhitespace(ws) && s != [] && !IsWhitespace(s[0])
    ensures TrimStart(ws + s) == s
  {
    if ws != [] {
      assert (ws + s)[1..] == ws[1..] + s;
      TrimStartSkips(ws[1..], s);
    } else {
      assert ws + s == s;
    }
  }

  /** The sections of the page, in the order of its menu. */
  const Sections := ["terms", "privacy", "cookies"]

  /** The whitelist effect: a present, non-empty `tab` naming a section selects it; anything else
      leaves the section as it was. */
  function ApplyTabQuery(active: string, tab: Option<string>): (r: string)
    ensures tab.Some? && tab.value in Sections ==> r == tab.value
    ensures !(tab.Some? && tab.value in Sections) ==> r == active
  {
    if tab.Some? && tab.value != "" && tab.value in Sections then tab.value else active
  }

  /** What `renderContent` shows: one of the three sections, or nothing. */
  datatype Content = TermsContent | PrivacyContent | CookiesContent

  function RenderContent(section: string): (r: Option<Content>)
    ensures r.Some? <==> section in Sections
    ensures r == Some(TermsContent) <==> section == "terms"
    ensures r == Some(PrivacyContent) <==> section == "privacy"
    ensures r == Some(CookiesContent) <==> section == "cookies"
  {
    if section == "terms" then Some(TermsContent)
    else if section == "privacy" then Some(PrivacyContent)
    else if section == "cookies" then Some(CookiesContent)
    else None
  }

  /** The path and query the legal page's own links begin with. */
  const TabPrefix := "/legal?tab="

  /** The location `handleSectionChange` navigates to. */
  function SectionLocation(section: string): string
  {
    TabPrefix + section
  }

  /** `searchParams.get("tab")` for a location on the legal page whose query is the single
      `tab` parameter: the text after `tab=`, or nothing for any other location. */
  function TabParam(location: string): (r: Option<string>)
    ensures r.Some? <==> StartsWith(location, TabPrefix)
    ensures r.Some? ==> location == TabPrefix + r.value
  {
    if StartsWith(location, TabPrefix) then Some(location[|TabPrefix|..]) else None
  }

  /** The page's state: the section shown and the location, which the section change replaces
      in the history. */
  class LegalState {
    var activeSection: string
    var location: string

    predicate Valid()
      reads this
    {
      activeSection in Sections
    }

    /** The first render: 'terms'. */
    constructor(location0: string)
      ensures Valid()
      ensures activeSection == "terms" && location == location0
    {
      activeSection := "terms";
      location := location0;
    }

    /** The effect run when the query changes, given the value of its `tab` parameter. */
    method OnSearchParams(tab: Option<string>)
      modifies this
      ensures activeSection == ApplyTabQuery(old(activeSection), tab)
      ensures location == old(location)
      ensures old(Valid()) ==> Valid()
    {
      if tab.Some? && tab.value != "" && tab.value in Sections {
        activeSection := tab.value;
      }
    }

    /** `handleSectionChange(section)` */
    method HandleSectionChange(section: string)
      modifies this
      ensures activeSection == section
      ensures location == SectionLocation(section)
      ensures section in Sections ==> Valid()
    {
      activeSection := section;
      location := SectionLocation(section);
    }

    /** The shown content: always a section in a valid state. */
    function Shown(): (r: Option<Content>)
      reads this
      ensures Valid() ==> r.Some?
    {
      RenderContent(activeSection)
    }
  }

  /** Changing the section and reloading the location it navigated to shows the same section:
      the `tab` parameter of that location is the section, and the query effect selects it back
      from whatever section was shown. A name outside the three leaves the shown section as it
      was. */
  lemma LocationRestoresSection(section: string, active: string)
    ensures TabParam(SectionLocation(section)) == Some(section)
    ensures section in Sections ==> ApplyTabQuery(active, TabParam(SectionLocation(section))) == section
    ensures section in Sections ==> RenderContent(ApplyTabQuery(active, TabParam(SectionLocation(section)))).Some?
    ensures section !in Sections ==> ApplyTabQuery(active, TabParam(SectionLocation(section))) == active
  {
    assert SectionLocation(section)[..|TabPrefix|] == TabPrefix;
    assert SectionLocation(section)[|TabPrefix|..] == section;
  }
}
