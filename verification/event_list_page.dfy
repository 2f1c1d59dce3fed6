/** The list page's derived data: the filtered event list and the sorted,
    de-duplicated list of types offered by the type filter. */
module EventListPage {
  import opened Text
  import opened EventModel

  // ---------------------------------------------------------------------------
  // Order-preserving selection
  // ---------------------------------------------------------------------------

  /** `xs.filter(p)`: the elements satisfying `p`, in their original order. */
  function Keep(xs: seq<Event>, p: Event -> bool): (r: seq<Event>)
    ensures |r| <= |xs|
    ensures forall x :: x in r <==> x in xs && p(x)
    ensures forall x :: multiset(r)[x] == if p(x) then multiset(xs)[x] else 0
  {
    if xs == [] then []
    else
      assert xs == [xs[0]] + xs[1..];
      if p(xs[0]) then [xs[0]] + Keep(xs[1..], p)
      else Keep(xs[1..], p)
  }

  /** `xs` can be obtained from `ys` by deleting elements (order kept). */
  predicate SubsequenceOf(xs: seq<Event>, ys: seq<Event>)
    decreases |ys|
  {
    if xs == [] then true
    else if ys == [] then false
    else if xs[0] == ys[0] then SubsequenceOf(xs[1..], ys[1..])
    else SubsequenceOf(xs, ys[1..])
  }

  /** Dropping the first element of a subsequence keeps it a subsequence. */
  lemma {:induction false} SubsequenceDropFirst(xs: seq<Event>, ys: seq<Event>)
    requires xs != [] && SubsequenceOf(xs, ys)
    ensures SubsequenceOf(xs[1..], ys)
    decreases |ys|, 1
  {
    if xs[0] == ys[0] {
      SubsequenceExtend(xs[1..], ys[1..], ys[0]);
      assert [ys[0]] + ys[1..] == ys;
    } else {
      SubsequenceDropFirst(xs, ys[1..]);
      SubsequenceExtend(xs[1..], ys[1..], ys[0]);
      assert [ys[0]] + ys[1..] == ys;
    }
  }

  /** A subsequence of `ys` is a subsequence of `ys` with anything in front. */
  lemma {:induction false} SubsequenceExtend(xs: seq<Event>, ys: seq<Event>, y: Event)
    requires SubsequenceOf(xs, ys)
    ensures SubsequenceOf(xs, [y] + ys)
    decreases |ys|, 2
  {
    var zs := [y] + ys;
    assert zs[1..] == ys;
    if xs != [] && xs[0] == y {
      SubsequenceDropFirst(xs, ys);
    }
  }

  /** Filtering keeps the survivors in their original relative order. */
  lemma {:induction false} KeepIsSubsequence(xs: seq<Event>, p: Event -> bool)
    ensures SubsequenceOf(Keep(xs, p), xs)
  {
    if xs != [] {
      KeepIsSubsequence(xs[1..], p);
      var r := Keep(xs, p);
      if p(xs[0]) {
        assert r[0] == xs[0] && r[1..] == Keep(xs[1..], p);
      } else {
        SubsequenceExtend(Keep(xs[1..], p), xs[1..], xs[0]);
        assert [xs[0]] + xs[1..] == xs;
      }
    }
  }

  /** Filtering twice is filtering once by both conditions. */
  lemma {:induction false} KeepTwice(xs: seq<Event>, p: Event -> bool, q: Event -> bool, pq: Event -> bool)
    requires forall x :: pq(x) == (p(x) && q(x))
    ensures Keep(Keep(xs, p), q) == Keep(xs, pq)
  {
    if xs != [] {
      KeepTwice(xs[1..], p, q, pq);
      if p(xs[0]) {
        var k := Keep(xs, p);
        assert k[0] == xs[0] && k[1..] == Keep(xs[1..], p);
      }
    }
  }

  /** A condition every element meets filters nothing out. */
  lemma {:induction false} KeepAll(xs: seq<Event>, p: Event -> bool)
    requires forall i | 0 <= i < |xs| :: p(xs[i])
    ensures Keep(xs, p) == xs
  {
    if xs != [] {
      assert p(xs[0]);
      KeepAll(xs[1..], p);
    }
  }

  // ---------------------------------------------------------------------------
  // Filtered events
  // ---------------------------------------------------------------------------

  /** `searchType.trim()` is truthy. */
  predicate TypeFilterActive(searchType: string) {
    Trim(searchType) != []
  }

  /** `searchDate` is truthy. */
  predicate DateFilterActive(searchDate: string) {
    searchDate != ""
  }

  /** The event's lower-cased type contains the lower-cased, untrimmed query. */
  predicate TypeMatches(e: Event, searchType: string) {
    Includes(Lower(e.eventType), Lower(searchType))
  }

  /** The event falls on exactly the date of the filter. */
  predicate DateMatches(e: Event, searchDate: string) {
    e.date == searchDate
  }

  /** What the page shows for a pair of filters, as one condition: each active
      filter holds of the event. */
  predicate Shown(e: Event, searchType: string, searchDate: string) {
    && (TypeFilterActive(searchType) ==> TypeMatches(e, searchType))
    && (DateFilterActive(searchDate) ==> DateMatches(e, searchDate))
  }

  /** `filteredEvents`: a copy of the list, narrowed by type when the type
      filter is non-blank, then by exact date when the date filter is set. */
  function FilteredEvents(events: seq<Event>, searchType: string, searchDate: string): (r: seq<Event>)
    ensures forall e :: e in r <==> e in events && Shown(e, searchType, searchDate)
    ensures forall e :: multiset(r)[e] == if Shown(e, searchType, searchDate) then multiset(events)[e] else 0
    ensures SubsequenceOf(r, events)
    ensures !TypeFilterActive(searchType) && !DateFilterActive(searchDate) ==> r == events
  {
    var byType := if TypeFilterActive(searchType) then Keep(events, e => TypeMatches(e, searchType)) else events;
    var byDate := if DateFilterActive(searchDate) then Keep(byType, e => DateMatches(e, searchDate)) else byType;
    FiltersCompose(events, searchType, searchDate);
    KeepIsSubsequence(events, e => Shown(e, searchType, searchDate));
    byDate
  }

  /** The two passes of `filteredEvents` select exactly the events `Shown` describes. */
  lemma FiltersCompose(events: seq<Event>, searchType: string, searchDate: string)
    ensures
      var byType := if TypeFilterActive(searchType) then Keep(events, e => TypeMatches(e, searchType)) else events;
      var byDate := if DateFilterActive(searchDate) then Keep(byType, e => DateMatches(e, searchDate)) else byType;
      byDate == Keep(events, e => Shown(e, searchType, searchDate))
  {
    var shown := e => Shown(e, searchType, searchDate);
    if TypeFilterActive(searchType) && DateFilterActive(searchDate) {
      KeepTwice(events, e => TypeMatches(e, searchType), e => DateMatches(e, searchDate), shown);
    } else if TypeFilterActive(searchType) {
      KeepTwice(events, e => TypeMatches(e, searchType), (e: Event) => true, shown);
      KeepAll(Keep(events, e => TypeMatches(e, searchType)), (e: Event) => true);
    } else if DateFilterActive(searchDate) {
      KeepTwice(events, (e: Event) => true, e => DateMatches(e, searchDate), shown);
      KeepAll(events, (e: Event) => true);
    } else {
      KeepAll(events, shown);
    }
  }

  /** A whitespace-only type filter is ignored: the listing is the one for
      an empty query, whatever the date filter. */
  lemma BlankTypeQueryIgnored(events: seq<Event>, q: string, searchDate: string)
    requires Blank(q)
    ensures FilteredEvents(events, q, searchDate) == FilteredEvents(events, "", searchDate)
    ensures !DateFilterActive(searchDate) ==> FilteredEvents(events, q, searchDate) == events
  {
    TrimEmptyIffBlank(q);
    TrimEmptyIffBlank("");
  }

  /** The query is matched without trimming: "wed" finds a Wedding, " wed" does not. */
  lemma TypeQueryUntrimmed(e: Event)
    requires e.eventType == "Wedding"
    ensures TypeMatches(e, "wed")
    ensures !TypeMatches(e, " wed")
  {
    var hay := Lower("Wedding");
    assert hay[0] == 'w' && hay[1] == 'e' && hay[2] == 'd';
    assert Lower("wed") == "wed";
    IncludesIffOccurs(hay, "wed");
    assert OccursAt(hay, "wed", 0);
    var spaced := Lower(" wed");
    assert spaced[0] == ' ';
    assert forall k | 0 <= k < |hay| :: hay[k] != ' ';
    LeadingSpaceNeverMatches(hay, spaced);
  }

  /** A needle that starts with a space occurs nowhere in a haystack without
      spaces: a type query with a leading space matches no type name that
      has none. */
  lemma LeadingSpaceNeverMatches(hay: string, needle: string)
    requires forall k | 0 <= k < |hay| :: hay[k] != ' '
    requires needle != [] && needle[0] == ' '
    ensures !Includes(hay, needle)
  {
    IncludesIffOccurs(hay, needle);
    forall i | 0 <= i && i + |needle| <= |hay| ensures !OccursAt(hay, needle, i) {
      assert hay[i..i + |needle|][0] == hay[i];
    }
  }

  /** `handleClearFilters`: both filters become empty. */
  function ClearFilters(): (filters: (string, string))
    ensures !TypeFilterActive(filters.0) && !DateFilterActive(filters.1)
  {
    TrimEmptyIffBlank("");
    ("", "")
  }

  /** After clearing, the page shows the whole list again; the clear button
      is disabled exactly when both filters are already empty. */
  lemma ClearedFiltersShowAll(events: seq<Event>)
    ensures FilteredEvents(events, ClearFilters().0, ClearFilters().1) == events
    ensures ClearDisabled(ClearFilters().0, ClearFilters().1)
  {
  }

  /** The clear button's `disabled`: `!searchType && !searchDate`. */
  predicate ClearDisabled(searchType: string, searchDate: string) {
    searchType == "" && searchDate == ""
  }

  // ---------------------------------------------------------------------------
  // Type index
  // ---------------------------------------------------------------------------

  /** The set of types present in the list. */
  function TypesOf(events: seq<Event>): set<string> {
    set e | e in events :: e.eventType
  }

  /** Strictly ascending, hence free of duplicates. */
  predicate StrictlySorted(xs: seq<string>) {
    forall i, j | 0 <= i < j < |xs| :: Below(xs[i], xs[j])
  }

  /** Puts `x` into a sorted list at its place, unless it is already there. */
  function Insert(xs: seq<string>, x: string): (r: seq<string>)
    ensures forall y :: y in r <==> y in xs || y == x
  {
    if xs == [] then [x]
    else if x == xs[0] then xs
    else if Below(x, xs[0]) then [x] + xs
    else [xs[0]] + Insert(xs[1..], x)
  }

  lemma {:induction false} InsertKeepsSorted(xs: seq<string>, x: string)
    requires StrictlySorted(xs)
    ensures StrictlySorted(Insert(xs, x))
  {
    if xs == [] {
    } else if x == xs[0] {
    } else if Below(x, xs[0]) {
      var r := [x] + xs;
      forall i, j | 0 <= i < j < |r| ensures Below(r[i], r[j]) {
        if i == 0 && j > 1 {
          BelowTransitive(x, xs[0], xs[j - 1]);
        }
      }
    } else {
      BelowTotal(x, xs[0]);
      InsertKeepsSorted(xs[1..], x);
      var rest := Insert(xs[1..], x);
      var r := [xs[0]] + rest;
      forall i, j | 0 <= i < j < |r| ensures Below(r[i], r[j]) {
        if i == 0 {
          assert r[j] in rest;
          if r[j] != x {
            var k :| 1 <= k < |xs| && xs[k] == r[j];
          }
        }
      }
    }
  }

  /** `eventTypes`: the distinct types present, sorted ascending. */
  function EventTypes(events: seq<Event>): (r: seq<string>)
    ensures StrictlySorted(r)
    ensures forall t :: t in r <==> t in TypesOf(events)
  {
    if events == [] then []
    else
      var rest := EventTypes(events[1..]);
      InsertKeepsSorted(rest, events[0].eventType);
      assert forall e | e in events :: e == events[0] || e in events[1..];
      Insert(rest, events[0].eventType)
  }

  /** The head of a non-empty list is one of its elements (stated as a lemma so
      that the empty case carries no index to check). */
  lemma HeadIsElement(s: seq<string>)
    ensures s != [] ==> s[0] in s
  {
  }

  /** A strictly sorted list is determined by its elements: `eventTypes` is
      the one ascending, duplicate-free listing of the types present. */
  lemma {:induction false} SortedListingUnique(xs: seq<string>, ys: seq<string>)
    requires StrictlySorted(xs) && StrictlySorted(ys)
    requires forall t :: t in xs <==> t in ys
    ensures xs == ys
    decreases |xs|
  {
    if xs == [] {
      HeadIsElement(ys);
    } else {
      assert xs[0] in xs;
      assert ys != [];
      assert ys[0] in ys;
      if xs[0] != ys[0] {
        var k :| 0 <= k < |ys| && ys[k] == xs[0];
        var m :| 0 <= m < |xs| && xs[m] == ys[0];
        assert Below(ys[0], xs[0]);
        assert Below(xs[0], ys[0]);
        BelowAsymmetric(xs[0], ys[0]);
      }
      forall t ensures t in xs[1..] <==> t in ys[1..] {
        if t in xs[1..] {
          var i :| 0 <= i < |xs[1..]| && xs[1..][i] == t;
          assert Below(xs[0], xs[i + 1]);
          BelowIrreflexive(t);
          assert t in ys;
          assert t != ys[0];
        }
        if t in ys[1..] {
          var i :| 0 <= i < |ys[1..]| && ys[1..][i] == t;
          assert Below(ys[0], ys[i + 1]);
          BelowIrreflexive(t);
          assert t in xs;
          assert t != xs[0];
        }
      }
      SortedListingUnique(xs[1..], ys[1..]);
      assert xs == [xs[0]] + xs[1..];
      assert ys == [ys[0]] + ys[1..];
    }
  }

  /** The type index depends only on which types occur: not on the order or
      repetition of the events, nor on anything else about them. */
  lemma EventTypesIgnoresOrder(a: seq<Event>, b: seq<Event>)
    requires TypesOf(a) == TypesOf(b)
    ensures EventTypes(a) == EventTypes(b)
  {
    SortedListingUnique(EventTypes(a), EventTypes(b));
  }
}
