/**
  The services section: ten services shown through a filter (all, or one of three customer
  groups) and, on mobile with the 'all' filter, a "load more" window over them that grows in
  steps of three. A service stands for its index in the component's static list; the list of
  feature keys of a card is shown through the translation function, given as a parameter.
 */
module ServicesSection {
  import opened Wrappers
  import opened JsText

  /** The number of services in the static list. */
  const ServiceCount := 10

  /** The size of the first window, and of each step of "load more". */
  const Step := 3

  const AllFilter := "all"

  /** `serviceCategories`: the indices of the services of each customer group. */
  const ServiceCategories: map<string, seq<nat>> := map[
    "currently-applying" := [0, 1, 2],
    "active-clients" := [3, 6, 7, 8],
    "inactive-clients" := [4, 5, 9]]

  /** `serviceCategories[filter]?.includes(index)`: false for a filter with no list. */
  predicate InCategory(filter: string, i: nat)
  {
    filter in ServiceCategories && i in ServiceCategories[filter]
  }

  predicate Increasing(s: seq<nat>)
  {
    forall j, k :: 0 <= j < k < |s| ==> s[j] < s[k]
  }

  /** The indices from `i` up to `n` (exclusive) that the filter keeps, in order. */
  function Kept(filter: string, i: nat, n: nat): (r: seq<nat>)
    ensures forall k: nat :: k in r <==> i <= k < n && (filter == AllFilter || InCategory(filter, k))
    ensures Increasing(r)
    ensures i <= n ==> |r| <= n - i
    ensures filter != AllFilter && filter !in ServiceCategories ==> r == []
    decreases n - i
  {
    if i >= n then []
    else
      var rest := Kept(filter, i + 1, n);
      if filter == AllFilter || InCategory(filter, i) then
        assert forall k :: 0 <= k < |rest| ==> rest[k] in rest;
        [i] + rest
      else rest
  }

  /** `filteredServices`: all services for 'all', otherwise those whose index is in the
      filter's list, in the order of the static list. */
  function FilteredServices(filter: string): (r: seq<nat>)
    ensures forall k: nat :: k in r <==> k < ServiceCount && (filter == AllFilter || InCategory(filter, k))
    ensures Increasing(r)
    ensures filter != AllFilter && filter !in ServiceCategories ==> r == []
  {
    Kept(filter, 0, ServiceCount)
  }

  /** An increasing sequence whose members are exactly the indices below `n` is `0 .. n-1`. */
  lemma IncreasingFull(r: seq<nat>, n: nat)
    requires Increasing(r)
    requires forall k: nat :: k in r <==> k < n
    ensures |r| == n && forall k :: 0 <= k < n ==> r[k] == k
  {
    IdentityPrefix(r, n, n);
    if |r| > 0 {
      StepsUp(r, |r| - 1);
      assert r[|r| - 1] in r;
    }
  }

  /** The first `k` entries of such a sequence are `0 .. k-1`. */
  lemma {:induction false} IdentityPrefix(r: seq<nat>, n: nat, k: nat)
    requires Increasing(r)
    requires forall j: nat :: j in r <==> j < n
    requires k <= n
    ensures |r| >= k && forall i :: 0 <= i < k ==> r[i] == i
  {
    if k > 0 {
      IdentityPrefix(r, n, k - 1);
      var m := k - 1;
      assert m in r;
      var j :| 0 <= j < |r| && r[j] == m;
      assert j >= m;
      StepsUp(r, m);
    }
  }

  /** The entry at `k` of an increasing sequence of naturals is at least `k`. */
  lemma {:induction false} StepsUp(r: seq<nat>, k: nat)
    requires Increasing(r) && k < |r|
    ensures k <= r[k]
  {
    if k > 0 {
      StepsUp(r, k - 1);
    }
  }

  /** The 'all' filter shows the ten services in their original order. */
  lemma AllShowsEverything()
    ensures |FilteredServices(AllFilter)| == ServiceCount
    ensures forall k :: 0 <= k < ServiceCount ==> FilteredServices(AllFilter)[k] == k
  {
    var r := FilteredServices(AllFilter);
    IncreasingFull(r, ServiceCount);
  }

  /** Each group's list is increasing and holds indices of the static list only, and no group
      is called 'all'. */
  lemma CategoriesWellFormed(filter: string)
    requires filter in ServiceCategories
    ensures filter != AllFilter
    ensures Increasing(ServiceCategories[filter])
    ensures forall k :: k in ServiceCategories[filter] ==> k < ServiceCount
  {
    assert filter == "currently-applying" || filter == "active-clients" || filter == "inactive-clients";
  }

  /** A group filter shows exactly its list. */
  lemma GroupFilterShowsItsList(filter: string)
    requires filter in ServiceCategories
    ensures FilteredServices(filter) == ServiceCategories[filter]
  {
    CategoriesWellFormed(filter);
    SameIncreasing(FilteredServices(filter), ServiceCategories[filter]);
  }

  /** Two increasing sequences with the same members are equal. */
  lemma {:induction false} SameIncreasing(a: seq<nat>, b: seq<nat>)
    requires Increasing(a) && Increasing(b)
    requires forall k :: k in a <==> k in b
    ensures a == b
    decreases |a|
  {
    assert a != [] ==> a[0] in b;
    assert b != [] ==> b[0] in a;
    if a != [] && b != [] {
      assert a[0] == b[0] by {
        assert a[0] in b && b[0] in a;
      }
      forall k ensures k in a[1..] ==> k in b[1..] {
        TailMember(a, b, k);
      }
      forall k ensures k in b[1..] ==> k in a[1..] {
        TailMember(b, a, k);
      }
      SameIncreasing(a[1..], b[1..]);
      assert a == [a[0]] + a[1..] && b == [b[0]] + b[1..];
    }
  }

  /** A member of the tail of one of two such sequences with the same head is in the other's tail. */
  lemma TailMember(a: seq<nat>, b: seq<nat>, k: nat)
    requires Increasing(a) && Increasing(b) && a != [] && b != [] && a[0] == b[0]
    requires forall x :: x in a <==> x in b
    ensures k in a[1..] ==> k in b[1..]
  {
    if k in a[1..] {
      var j :| 0 <= j < |a| - 1 && a[1..][j] == k;
      assert a[j + 1] == k;
      assert k in b;
      var i :| 0 <= i < |b| && b[i] == k;
      assert i != 0;
      assert b[1..][i - 1] == k;
    }
  }

  /** The three groups do not overlap and together hold every service. */
  lemma GroupsPartitionServices()
    ensures forall i: nat :: i < ServiceCount ==>
      (InCategory("currently-applying", i) || InCategory("active-clients", i) || InCategory("inactive-clients", i))
    ensures forall f, g, i: nat :: f in ServiceCategories && g in ServiceCategories && f != g ==>
      !(InCategory(f, i) && InCategory(g, i))
    ensures forall f, i :: f in ServiceCategories && i in ServiceCategories[f] ==> i < ServiceCount
  {
  }

  /** Whether the window applies: mobile with the 'all' filter. */
  predicate Windowed(isMobile: bool, filter: string)
  {
    isMobile && filter == AllFilter
  }

  /** `displayedServices`: `slice(0, count)` of the filtered list when windowed, which clamps at
      the list's end, and the whole list otherwise. */
  function DisplayedServices(isMobile: bool, filter: string, count: nat): (r: seq<nat>)
    ensures var f := FilteredServices(filter);
      && (Windowed(isMobile, filter) ==> |r| == if count < |f| then count else |f|)
      && (!Windowed(isMobile, filter) ==> r == f)
      && r == f[..|r|]
  {
    var f := FilteredServices(filter);
    if Windowed(isMobile, filter) then f[..if count < |f| then count else |f|] else f
  }

  /** `hasMoreCards` */
  predicate HasMoreCards(isMobile: bool, filter: string, count: nat)
  {
    Windowed(isMobile, filter) && count < |FilteredServices(filter)|
  }

  /** `showingAllCards` */
  predicate ShowingAllCards(isMobile: bool, filter: string, count: nat)
  {
    Windowed(isMobile, filter) && count >= |FilteredServices(filter)| && |FilteredServices(filter)| > 3
  }

  /** The "load more" and the "show less" buttons are never both shown; "load more" is shown
      exactly when the window hides some service, and "show less" only when it hides none. */
  lemma ButtonsExclusive(isMobile: bool, filter: string, count: nat)
    ensures !(HasMoreCards(isMobile, filter, count) && ShowingAllCards(isMobile, filter, count))
    ensures HasMoreCards(isMobile, filter, count) <==>
      Windowed(isMobile, filter) && |DisplayedServices(isMobile, filter, count)| < |FilteredServices(filter)|
    ensures ShowingAllCards(isMobile, filter, count) ==>
      DisplayedServices(isMobile, filter, count) == FilteredServices(filter)
  {
  }

  /** Loading more shows up to three more services, never more than there are. */
  lemma LoadMoreShowsThreeMore(isMobile: bool, filter: string, count: nat)
    requires Windowed(isMobile, filter)
    ensures var before, after := |DisplayedServices(isMobile, filter, count)|, |DisplayedServices(isMobile, filter, count + Step)|;
      after == if before + Step < |FilteredServices(filter)| then before + Step else |FilteredServices(filter)|
  {
  }

  /** From the first window, three rounds of "load more" show all ten services. */
  lemma ThreeLoadsShowAll(isMobile: bool)
    requires isMobile
    ensures HasMoreCards(isMobile, AllFilter, Step)
    ensures ShowingAllCards(isMobile, AllFilter, Step + 3 * Step)
    ensures DisplayedServices(isMobile, AllFilter, Step + 3 * Step) == FilteredServices(AllFilter)
  {
    AllShowsEverything();
  }

  /** The feature keys of a card whose translation is present and not blank, in order. The
      truthiness test is implied by the trim test, as a blank string is falsy once trimmed. */
  function VisibleFeatures(keys: seq<string>, t: string -> string): (r: seq<string>)
    ensures forall k :: k in r ==> k in keys && t(k) != "" && !IsBlank(t(k))
    ensures forall k :: k in keys && !IsBlank(t(k)) ==> k in r
    ensures |r| <= |keys|
  {
    if keys == [] then []
    else if t(keys[0]) != "" && !IsBlank(t(keys[0])) then [keys[0]] + VisibleFeatures(keys[1..], t)
    else
      assert t(keys[0]) == "" ==> IsBlank(t(keys[0]));
      VisibleFeatures(keys[1..], t)
  }

  /** The section's state, with the window size a positive multiple of three. */
  class ServicesState {
    var activeFilter: string
    var visibleCardsCount: nat

    predicate Valid()
      reads this
    {
      visibleCardsCount >= Step && visibleCardsCount % Step == 0
    }

    constructor()
      ensures Valid()
      ensures activeFilter == AllFilter && visibleCardsCount == Step
    {
      activeFilter := AllFilter;
      visibleCardsCount := Step;
    }

    /** "Load more": three more cards, same filter. */
    method HandleLoadMore()
      requires Valid()
      modifies this
      ensures Valid()
      ensures visibleCardsCount == old(visibleCardsCount) + Step && activeFilter == old(activeFilter)
    {
      visibleCardsCount := visibleCardsCount + Step;
    }

    /** "Show less": back to the first window. */
    method HandleShowLess()
      requires Valid()
      modifies this
      ensures Valid()
      ensures visibleCardsCount == Step && activeFilter == old(activeFilter)
    {
      visibleCardsCount := Step;
    }

    /** A filter chip: the filter changes and the window is reset. */
    method HandleFilterChange(filterId: string)
      requires Valid()
      modifies this
      ensures Valid()
      ensures activeFilter == filterId && visibleCardsCount == Step
    {
      activeFilter := filterId;
      visibleCardsCount := Step;
    }

    /** The `serviceFilterChange` window event: a truthy `filter` in its detail acts like a chip,
        anything else is ignored. */
    method OnFilterEvent(filter: Option<string>)
      requires Valid()
      modifies this
      ensures Valid()
      ensures filter.Some? && filter.value != "" ==> activeFilter == filter.value && visibleCardsCount == Step
      ensures !(filter.Some? && filter.value != "") ==>
        activeFilter == old(activeFilter) && visibleCardsCount == old(visibleCardsCount)
    {
      if filter.Some? && filter.value != "" {
        activeFilter := filter.value;
        visibleCardsCount := Step;
      }
    }

    /** What the section shows in this state. */
    function Displayed(isMobile: bool): (r: seq<nat>)
      reads this
      ensures |r| <= ServiceCount
      ensures Windowed(isMobile, activeFilter) && Valid() ==> |r| >= Step
    {
      AllShowsEverything();
      DisplayedServices(isMobile, activeFilter, visibleCardsCount)
    }
  }
}
