/**
  The footer's links: the mapping from a link's text to its target, the condition under which the
  social icons are shown, and the targets of the three legal links. Link texts are translations,
  so the translation function `t` is a parameter.
 */
module FooterLinks {
  import opened JsText
  import LegalPage

  /** The translation keys of the company links, in the order they are tested. */
  const CompanyKeys := ["footer.home", "footer.aboutUs", "footer.solutions", "footer.contact"]
  const CompanyTargets := ["#", "#about", "#services", "#contact"]

  /** The translation keys of the service-filter links. */
  const ServiceKeys := ["services.filters.all", "services.filters.applicants",
                        "services.filters.activeClients", "services.filters.inactiveClients"]

  /** The company and the service-filter labels as `t` renders them. */
  function CompanyLabels(t: string -> string): seq<string>
  {
    [t(CompanyKeys[0]), t(CompanyKeys[1]), t(CompanyKeys[2]), t(CompanyKeys[3])]
  }

  function ServiceLabels(t: string -> string): seq<string>
  {
    [t(ServiceKeys[0]), t(ServiceKeys[1]), t(ServiceKeys[2]), t(ServiceKeys[3])]
  }

  /** `getHref(linkText)`: an address first, then the company links in order, then the service
      links, then `#`. */
  function GetHref(linkText: string, t: string -> string): (href: string)
    ensures Contains(linkText, "@") ==> href == "mailto:" + linkText
    ensures !Contains(linkText, "@") ==> href in {"#", "#about", "#services", "#contact"}
    ensures !Contains(linkText, "@") && linkText !in CompanyLabels(t) && linkText !in ServiceLabels(t) ==> href == "#"
  {
    if Contains(linkText, "@") then "mailto:" + linkText
    else if linkText == t(CompanyKeys[0]) then CompanyTargets[0]
    else if linkText == t(CompanyKeys[1]) then CompanyTargets[1]
    else if linkText == t(CompanyKeys[2]) then CompanyTargets[2]
    else if linkText == t(CompanyKeys[3]) then CompanyTargets[3]
    else if linkText in {t(ServiceKeys[0]), t(ServiceKeys[1]), t(ServiceKeys[2]), t(ServiceKeys[3])} then "#services"
    else "#"
  }

  /** Every target is a fragment of the page or a mail link. */
  lemma HrefShape(linkText: string, t: string -> string)
    ensures StartsWith(GetHref(linkText, t), "#") || StartsWith(GetHref(linkText, t), "mailto:")
  {
    var h := GetHref(linkText, t);
    if Contains(linkText, "@") {
      assert h[..7] == "mailto:";
    } else {
      assert h[..1] == "#";
    }
  }

  /** The first company label the text equals decides its target; a text equal to none of them
      and to no service label goes to the top of the page. */
  lemma CompanyLinkTargets(linkText: string, t: string -> string, i: nat)
    requires !Contains(linkText, "@") && i < |CompanyKeys|
    requires linkText == t(CompanyKeys[i])
    requires forall j :: 0 <= j < i ==> linkText != t(CompanyKeys[j])
    ensures GetHref(linkText, t) == CompanyTargets[i]
  {
  }

  /** A service-filter label that is no company label goes to the services section. */
  lemma ServiceLinksGoToServices(linkText: string, t: string -> string, i: nat)
    requires !Contains(linkText, "@") && i < |ServiceKeys|
    requires linkText == t(ServiceKeys[i])
    requires forall j :: 0 <= j < |CompanyKeys| ==> linkText != t(CompanyKeys[j])
    ensures GetHref(linkText, t) == "#services"
  {
  }

  /** An address wins over every label it might equal. */
  lemma AddressWins(linkText: string, t: string -> string, k: nat)
    requires k < |linkText| && linkText[k] == '@'
    ensures GetHref(linkText, t) == "mailto:" + linkText
  {
    ContainsCharIff(linkText, '@');
  }

  /** The link of the "Get in touch" section, the company address, is a mail link to it. */
  lemma ContactAddressLink(t: string -> string)
    ensures GetHref(CompanyAddress, t) == "mailto:" + CompanyAddress
  {
    AddressWins(CompanyAddress, t, 4);
  }

  /** The social icons are shown under a section exactly when its title is "Get in touch". */
  predicate ShowsSocialIcons(title: string)
  {
    title == "Get in touch"
  }

  /** One rendered link section: its title, its links as (text, href) pairs, and whether the
      social icons follow. */
  datatype FooterSection = FooterSection(title: string, links: seq<(string, string)>, icons: bool)

  /** The link texts of the three sections: the company labels, the service labels, and the
      company address. */
  function SectionLinks(t: string -> string): seq<seq<string>>
  {
    [CompanyLabels(t), ServiceLabels(t), [CompanyAddress]]
  }

  const SectionTitleKeys := ["footer.company", "footer.services", "footer.getInTouch"]

  const CompanyAddress := "info@autegry.com"

  /** `footerSections.map(...)`: each section with its translated title, each link with the
      target `getHref` gives it, and the icons under a title equal to the English literal. */
  function RenderSections(t: string -> string): (r: seq<FooterSection>)
    ensures |r| == 3
    ensures forall i :: 0 <= i < 3 ==> r[i].title == t(SectionTitleKeys[i])
    ensures forall i :: 0 <= i < 3 ==> |r[i].links| == |SectionLinks(t)[i]|
    ensures forall i, k :: 0 <= i < 3 && 0 <= k < |r[i].links| ==>
      r[i].links[k] == (SectionLinks(t)[i][k], GetHref(SectionLinks(t)[i][k], t))
    ensures forall i :: 0 <= i < 3 ==> (r[i].icons <==> t(SectionTitleKeys[i]) == "Get in touch")
  {
    seq(3, i requires 0 <= i < 3 =>
      var links := SectionLinks(t)[i];
      FooterSection(t(SectionTitleKeys[i]),
                    seq(|links|, k requires 0 <= k < |links| => (links[k], GetHref(links[k], t))),
                    ShowsSocialIcons(t(SectionTitleKeys[i]))))
  }

  /** The contact section holds one mail link to the company address. Its icons depend on the
      translated title, not on the section: a translation that renders its title otherwise shows
      no icons there, and one that renders another title as the literal shows icons there too. */
  lemma ContactSectionRendering(t: string -> string)
    ensures RenderSections(t)[2].links == [(CompanyAddress, "mailto:" + CompanyAddress)]
    ensures RenderSections(t)[2].icons <==> t("footer.getInTouch") == "Get in touch"
    ensures RenderSections(t)[0].icons <==> t("footer.company") == "Get in touch"
  {
    ContactAddressLink(t);
    assert SectionLinks(t)[2] == [CompanyAddress];
  }

  /** With company labels that are distinct and hold no `@`, each company link targets its own
      fragment, in the order `#`, `#about`, `#services`, `#contact`. */
  lemma CompanySectionTargets(t: string -> string)
    requires forall j :: 0 <= j < 4 ==> !Contains(t(CompanyKeys[j]), "@")
    requires forall j, k :: 0 <= j < k < 4 ==> t(CompanyKeys[j]) != t(CompanyKeys[k])
    ensures forall k :: 0 <= k < 4 ==> RenderSections(t)[0].links[k].1 == CompanyTargets[k]
  {
    forall k | 0 <= k < 4 ensures RenderSections(t)[0].links[k].1 == CompanyTargets[k] {
      assert SectionLinks(t)[0][k] == t(CompanyKeys[k]);
      CompanyLinkTargets(t(CompanyKeys[k]), t, k);
    }
  }

  /** The bottom links. */
  const LegalLinks := ["/legal?tab=terms", "/legal?tab=privacy", "/legal?tab=cookies"]

  /** Each bottom link is the location the legal page navigates to for one of its sections, in
      the order of its menu, so following it opens that section. */
  lemma LegalLinksOpenSections()
    ensures |LegalLinks| == |LegalPage.Sections|
    ensures forall i :: 0 <= i < |LegalLinks| ==> LegalLinks[i] == LegalPage.SectionLocation(LegalPage.Sections[i])
  {
  }
}
