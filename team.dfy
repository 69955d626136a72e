/**
  The team carousel's index arithmetic over its five cards: the position of the first visible
  card, the page it puts the carousel on for each layout, where the Prev, Next and dot buttons
  scroll to, and which dot is active. The carousel widget itself is outside the model: its
  selected index arrives through `Attach` and `Select`, and the buttons produce the scroll command
  they would issue.
 */
module TeamCarousel {

  /** The number of team members. */
  const TeamSize := 5

  /** Below the mobile breakpoint, at least 1024 pixels wide, or in between. `isMobile` is tested
      first, so a mobile width is mobile whatever `isDesktop` says. */
  datatype Layout = Mobile | Tablet | Desktop

  function LayoutOf(isMobile: bool, isDesktop: bool): Layout
  {
    if isMobile then Mobile else if isDesktop then Desktop else Tablet
  }

  /** The layout the Prev and Next buttons act for: they test `isDesktop` first. */
  function ButtonLayout(isMobile: bool, isDesktop: bool): Layout
  {
    if isDesktop then Desktop else if !isMobile then Tablet else Mobile
  }

  /** The buttons and the page agree on the layout unless both flags are set, and then the
      buttons act as on a desktop while the page and the dots are those of a phone. */
  lemma LayoutsAgree(isMobile: bool, isDesktop: bool)
    ensures !(isMobile && isDesktop) ==> ButtonLayout(isMobile, isDesktop) == LayoutOf(isMobile, isDesktop)
    ensures isMobile && isDesktop ==> ButtonLayout(isMobile, isDesktop) == Desktop && LayoutOf(isMobile, isDesktop) == Mobile
  {
  }

  /** What a button asks the carousel to do. */
  datatype ScrollCommand = ScrollTo(position: nat) | ScrollNext | ScrollPrev

  /** `current % teamMembers.length`: the selected index is never negative, so this is `current mod 5`. */
  function NormalizedCurrent(current: nat): (n: nat)
    ensures n < TeamSize
    ensures current < TeamSize ==> n == current
    ensures (current - n) % TeamSize == 0
  {
    current % TeamSize
  }

  /** `getDesktopPage()`: page 0 shows cards 1-3, page 1 starts at card 4. */
  function DesktopPage(n: nat): (p: nat)
    ensures p == 1 <==> n >= 3
    ensures p <= 1
  {
    if n >= 3 then 1 else 0
  }

  /** `getTabletPage()`: positions 0-1, 2-3 and 4 make pages 0, 1 and 2. */
  function TabletPage(n: nat): (p: nat)
    ensures p <= 2
    ensures n < TeamSize ==> p == n / 2
  {
    if n <= 1 then 0 else if n <= 3 then 1 else 2
  }

  /** The number of dots, and of pages, in a layout. */
  function PageCount(layout: Layout): nat
  {
    match layout
    case Mobile => TeamSize
    case Tablet => 3
    case Desktop => 2
  }

  /** `currentPage` */
  function CurrentPage(layout: Layout, current: nat): (p: nat)
    ensures p < PageCount(layout)
    ensures layout == Mobile ==> p == NormalizedCurrent(current)
  {
    var n := NormalizedCurrent(current);
    match layout
    case Mobile => n
    case Desktop => DesktopPage(n)
    case Tablet => TabletPage(n)
  }

  /** Desktop Next: from the first page to position 3, from the second back to 0. */
  function DesktopNextTarget(n: nat): nat
  {
    if n < 3 then 3 else 0
  }

  /** Desktop Prev as written: both branches of its conditional are 0. */
  function DesktopPrevTargetAsWritten(n: nat): (t: nat)
    ensures DesktopPage(t) == 0
  {
    if n >= 3 then 0 else 0
  }

  /** Desktop Prev as its comment describes it: a toggle between positions 0 and 3. */
  function DesktopPrevToggle(n: nat): nat
  {
    if n >= 3 then 0 else 3
  }

  /** Tablet Next: forward by two cards, wrapping. */
  function TabletNextTarget(n: nat): (t: nat)
    requires n < TeamSize
    ensures t < TeamSize
  {
    (n + 2) % TeamSize
  }

  /** Tablet Prev: back by two cards, wrapping. */
  function TabletPrevTarget(n: nat): (t: nat)
    requires n < TeamSize
    ensures t < TeamSize
  {
    (n - 2 + TeamSize) % TeamSize
  }

  /** The Next button's command, for the layout `ButtonLayout` gives. */
  function NextCommand(layout: Layout, current: nat): ScrollCommand
  {
    var n := NormalizedCurrent(current);
    match layout
    case Desktop => ScrollTo(DesktopNextTarget(n))
    case Tablet => ScrollTo(TabletNextTarget(n))
    case Mobile => ScrollNext
  }

  /** The Prev button's command, for the layout `ButtonLayout` gives, as written. */
  function PrevCommand(layout: Layout, current: nat): ScrollCommand
  {
    var n := NormalizedCurrent(current);
    match layout
    case Desktop => ScrollTo(DesktopPrevTargetAsWritten(n))
    case Tablet => ScrollTo(TabletPrevTarget(n))
    case Mobile => ScrollPrev
  }

  /** The Prev button's command with the desktop toggle its comment describes. */
  function PrevCommandIntended(layout: Layout, current: nat): ScrollCommand
  {
    var n := NormalizedCurrent(current);
    match layout
    case Desktop => ScrollTo(DesktopPrevToggle(n))
    case Tablet => ScrollTo(TabletPrevTarget(n))
    case Mobile => ScrollPrev
  }

  /** The position dot `d` scrolls to: every card on mobile, `[0, 2, 4]` on tablets, 0 or 3 on
      desktops. */
  function DotTarget(layout: Layout, d: nat): nat
    requires d < PageCount(layout)
  {
    match layout
    case Mobile => d
    case Tablet => [0, 2, 4][d]
    case Desktop => if d == 0 then 0 else 3
  }

  /** Whether dot `d` is drawn active: on mobile the normalized index is the dot's, elsewhere the
      current page is. */
  predicate DotActive(layout: Layout, current: nat, d: nat)
  {
    if layout == Mobile then current % TeamSize == d else CurrentPage(layout, current) == d
  }

  /** The desktop page is 1 exactly from position 3 on, the tablet page is 0, 1 or 2, and on
      every layout the page is one of its dots. */
  lemma PagesInRange(layout: Layout, current: nat)
    ensures DesktopPage(NormalizedCurrent(current)) == 1 <==> NormalizedCurrent(current) >= 3
    ensures TabletPage(NormalizedCurrent(current)) in {0, 1, 2}
    ensures CurrentPage(layout, current) < PageCount(layout)
  {
  }

  /** Exactly one dot is active, and it is the one for the current page. */
  lemma ExactlyOneDotActive(layout: Layout, current: nat)
    ensures DotActive(layout, current, CurrentPage(layout, current))
    ensures forall d :: 0 <= d < PageCount(layout) && DotActive(layout, current, d) ==> d == CurrentPage(layout, current)
  {
  }

  /** Every dot scrolls to a position whose page is that dot. */
  lemma DotTargetsLandOnTheirPage(layout: Layout, d: nat)
    requires d < PageCount(layout)
    ensures DotTarget(layout, d) < TeamSize
    ensures CurrentPage(layout, DotTarget(layout, d)) == d
  {
  }

  /** On tablets Prev undoes Next and Next undoes Prev. */
  lemma {:induction false} TabletPrevUndoesNext(n: nat)
    requires n < TeamSize
    ensures TabletPrevTarget(TabletNextTarget(n)) == n
    ensures TabletNextTarget(TabletPrevTarget(n)) == n
  {
    if n < 3 {
      assert TabletNextTarget(n) == n + 2;
    } else {
      assert TabletNextTarget(n) == n - 3;
    }
    if n < 2 {
      assert TabletPrevTarget(n) == n + 3;
    } else {
      assert TabletPrevTarget(n) == n - 2;
    }
  }

  /** On desktops Next moves to the other page. */
  lemma DesktopNextTogglesPage(n: nat)
    requires n < TeamSize
    ensures DesktopPage(DesktopNextTarget(n)) == 1 - DesktopPage(n)
  {
  }

  /** As written, desktop Prev scrolls to position 0 from every position, so on the first page
      it does not move to the other page (position 0 is already on page 0), unlike Next. */
  lemma DesktopPrevAsWrittenStaysOnFirstPage(n: nat)
    ensures DesktopPrevTargetAsWritten(n) == 0
    ensures n < 3 ==> DesktopPage(DesktopPrevTargetAsWritten(n)) == DesktopPage(n)
    ensures n < 3 ==> DesktopPage(DesktopNextTarget(n)) != DesktopPage(n)
  {
  }

  /** The corrected desktop Prev moves to the other page, like Next. */
  lemma DesktopPrevToggleTogglesPage(n: nat)
    requires n < TeamSize
    ensures DesktopPage(DesktopPrevToggle(n)) == 1 - DesktopPage(n)
    ensures DesktopPrevToggle(n) == DesktopNextTarget(n)
  {
  }

  /** What the buttons do from any selected index, as written: on desktops Next moves to the
      other page while Prev always scrolls to the first card, so it leaves the second page and
      stays on the first; on tablets Prev scrolls back to where the carousel was before Next; on
      mobile both leave the step to the carousel. */
  lemma ButtonCommands(current: nat)
    ensures var next := NextCommand(Desktop, current);
      next.ScrollTo? && CurrentPage(Desktop, next.position) == 1 - CurrentPage(Desktop, current)
    ensures PrevCommand(Desktop, current) == ScrollTo(0)
    ensures CurrentPage(Desktop, PrevCommand(Desktop, current).position) == 0
    ensures NextCommand(Tablet, current).ScrollTo?
    ensures PrevCommand(Tablet, NextCommand(Tablet, current).position) == ScrollTo(NormalizedCurrent(current))
    ensures NextCommand(Mobile, current) == ScrollNext && PrevCommand(Mobile, current) == ScrollPrev
  {
    var n := NormalizedCurrent(current);
    DesktopNextTogglesPage(n);
    TabletPrevUndoesNext(n);
    assert NormalizedCurrent(TabletNextTarget(n)) == TabletNextTarget(n);
  }

  /** With the corrected desktop toggle, Prev moves to the other page on desktops, as Next does,
      and it is the written command on tablets and mobile. */
  lemma IntendedPrevCommands(current: nat)
    ensures var prev := PrevCommandIntended(Desktop, current);
      prev.ScrollTo? && CurrentPage(Desktop, prev.position) == 1 - CurrentPage(Desktop, current)
    ensures PrevCommandIntended(Desktop, current) == NextCommand(Desktop, current)
    ensures PrevCommandIntended(Tablet, current) == PrevCommand(Tablet, current)
    ensures PrevCommandIntended(Mobile, current) == PrevCommand(Mobile, current)
  {
    DesktopPrevToggleTogglesPage(NormalizedCurrent(current));
  }

  /** The carousel's selected index as the component keeps it in state. */
  class CarouselState {
    var current: nat
    var count: nat

    constructor()
      ensures current == 0 && count == 0
    {
      current := 0;
      count := 0;
    }

    /** The effect run when the carousel becomes available: the number of snaps and the
        selected one. */
    method Attach(snapCount: nat, selected: nat)
      modifies this
      ensures count == snapCount && current == selected
    {
      count := snapCount;
      current := selected;
    }

    /** The carousel's `select` event. */
    method Select(selected: nat)
      modifies this
      ensures current == selected && count == old(count)
    {
      current := selected;
    }

    /** The page shown and the dot drawn active, from the state. */
    function Page(layout: Layout): (p: nat)
      reads this
      ensures p < PageCount(layout)
      ensures DotActive(layout, current, p)
    {
      CurrentPage(layout, current)
    }
  }
}
