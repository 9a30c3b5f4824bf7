/** Which rows the list shows, and in which order, said of the rows themselves. */
module ListFilters {
  import opened CipherItem
  import opened StableSort
  import opened RowDiff
  import opened ListModel
  import opened ListModelRuns
  import opened ListDrift

  // ----- what a user asks for -----

  /** The folder chosen: all items, the items without a folder, or those of one folder. */
  predicate Chosen(x: Item, folder: string) {
    && (folder == "none" ==> x.folderId == "")
    && (folder != "" && folder != "none" ==> x.folderId == folder)
  }

  /** The text occurs, up to letter case, at some place of some of the three texts. */
  predicate Found(x: Item, query: string, loc: Locale) {
    OccursIn(x.name, query, loc) || OccursIn(x.username, query, loc) || OccursIn(x.primaryUri, query, loc)
  }

  predicate OccursAt(t: string, query: string, i: int, loc: Locale) {
    0 <= i <= |t| - |query| && SameLetters(t[i..i + |query|], query, loc)
  }

  predicate OccursIn(t: string, query: string, loc: Locale) {
    exists i | 0 <= i <= |t| :: OccursAt(t, query, i, loc)
  }

  predicate SameLetters(a: string, b: string, loc: Locale) {
    |a| == |b| && forall j :: 0 <= j < |a| ==> loc.fold(a[j]) == loc.fold(b[j])
  }

  lemma OccursExactly(t: string, query: string, loc: Locale)
    ensures OccursIn(t, query, loc) <==> Contains(t, query, loc)
  {
    forall i | 0 <= i <= |t| ensures OccursAt(t, query, i, loc) <==> ContainsAt(t, query, i, loc) {
      if i <= |t| - |query| {
        FoldedExactly(t[i..i + |query|], query, loc);
      }
    }
  }

  lemma FoldedExactly(a: string, b: string, loc: Locale)
    requires |a| == |b|
    ensures SameLetters(a, b, loc) <==> Folded(a, loc) == Folded(b, loc)
  {
    if Folded(a, loc) == Folded(b, loc) {
      forall j | 0 <= j < |a| ensures loc.fold(a[j]) == loc.fold(b[j]) {
        assert Folded(a, loc)[j] == Folded(b, loc)[j];
      }
    }
  }

  lemma NothingOccurs(t: string, loc: Locale)
    ensures OccursIn(t, "", loc)
  {
    assert OccursAt(t, "", 0, loc);
  }

  lemma PassesExactly(x: Item, query: string, folder: string, loc: Locale)
    ensures Passes(query, folder, loc)(x) <==> Chosen(x, folder) && Found(x, query, loc)
  {
    hide OccursIn, Contains;
    OccursExactly(x.name, query, loc);
    OccursExactly(x.username, query, loc);
    OccursExactly(x.primaryUri, query, loc);
    NothingOccurs(x.name, loc);
  }

  // ----- rows -----

  /** How often x occurs. */
  lemma {:induction false} FilterCounts(s: seq<Item>, p: Item -> bool, x: Item)
    ensures multiset(Filter(s, p))[x] == if p(x) then multiset(s)[x] else 0
  {
    if s != [] {
      FilterCounts(s[1..], p, x);
      assert s == [s[0]] + s[1..];
    }
  }

  /** The order of the rows: favourites before others, by name within each, and source
      order where names compare equal. */
  ghost predicate InListOrder(rows: seq<Item>, loc: Locale) {
    && (forall i, j :: 0 <= i < j < |rows| && rows[j].favorite ==> rows[i].favorite)
    && (forall i, j :: 0 <= i < j < |rows| && rows[i].favorite == rows[j].favorite ==>
          loc.compare(rows[i].name, rows[j].name) <= 0)
  }

  predicate SamePlace(x: Item, y: Item, loc: Locale) {
    x.favorite == y.favorite && loc.compare(x.name, y.name) == 0
  }

  function AtPlace(x: Item, loc: Locale): Item -> bool {
    (y: Item) => SamePlace(x, y, loc)
  }

  function Asked(query: string, folder: string, loc: Locale): Item -> bool {
    (y: Item) => Chosen(y, folder) && Found(y, query, loc)
  }

  /** The rows are exactly the items asked for, each as often as the source has it, in
      list order, and items of the same place in source order. */
  ghost predicate ShowsExactly(rows: seq<Item>, source: seq<Item>, query: string, folder: string, loc: Locale) {
    && (forall x :: multiset(rows)[x] == if Chosen(x, folder) && Found(x, query, loc) then multiset(source)[x] else 0)
    && InListOrder(rows, loc)
    && (forall x :: Filter(rows, AtPlace(x, loc)) == Filter(Filter(source, Asked(query, folder, loc)), AtPlace(x, loc)))
  }

  lemma LessIs(a: Item, b: Item, loc: Locale)
    requires Lawful(loc)
    ensures !Less(loc)(b, a) <==> (a.favorite == b.favorite ==> loc.compare(a.name, b.name) <= 0)
                                  && (b.favorite ==> a.favorite)
    ensures Equivalent(a, b, Less(loc)) <==> SamePlace(a, b, loc)
  {
    assert loc.compare(b.name, a.name) < 0 <==> loc.compare(a.name, b.name) > 0;
    assert loc.compare(a.name, b.name) < 0 <==> loc.compare(b.name, a.name) > 0;
  }

  lemma {:induction false} SameFilter(s: seq<Item>, p: Item -> bool, q: Item -> bool)
    requires forall x :: x in s ==> p(x) == q(x)
    ensures Filter(s, p) == Filter(s, q)
  {
    if s != [] {
      assert s[0] in s && forall x :: x in s[1..] ==> x in s;
      SameFilter(s[1..], p, q);
    }
  }

  lemma SortedIsListOrder(rows: seq<Item>, loc: Locale)
    requires Lawful(loc) && Sorted(rows, Less(loc))
    ensures InListOrder(rows, loc)
  {
    forall i, j | 0 <= i < j < |rows|
      ensures (rows[j].favorite ==> rows[i].favorite)
              && (rows[i].favorite == rows[j].favorite ==> loc.compare(rows[i].name, rows[j].name) <= 0)
    {
      LessIs(rows[i], rows[j], loc);
    }
  }

  lemma PlaceIsClass(s: seq<Item>, x: Item, loc: Locale)
    requires Lawful(loc)
    ensures Filter(s, AtPlace(x, loc)) == ClassOf(s, x, Less(loc))
  {
    hide Filter;
    forall y ensures Equivalent(x, y, Less(loc)) <==> AtPlace(x, loc)(y) {
      LessIs(x, y, loc);
    }
    SameFilter(s, AtPlace(x, loc), y => Equivalent(x, y, Less(loc)));
  }

  lemma AskedIsPasses(source: seq<Item>, query: string, folder: string, loc: Locale)
    ensures Filter(source, Asked(query, folder, loc)) == Filter(source, Passes(query, folder, loc))
  {
    hide Filter, Chosen, Found, InFolder, Matches;
    forall y ensures Asked(query, folder, loc)(y) <==> Passes(query, folder, loc)(y) {
      PassesExactly(y, query, folder, loc);
    }
    SameFilter(source, Asked(query, folder, loc), Passes(query, folder, loc));
  }

  lemma PlaceKept(source: seq<Item>, query: string, folder: string, loc: Locale, x: Item)
    requires Lawful(loc)
    ensures Filter(Filtered(source, query, folder, loc), AtPlace(x, loc))
            == Filter(Filter(source, Asked(query, folder, loc)), AtPlace(x, loc))
  {
    hide Filter, Asked, Passes, AtPlace, Less, ClassOf, Lawful;
    LessIsOrder(loc);
    var kept := Filter(source, Passes(query, folder, loc));
    AskedIsPasses(source, query, folder, loc);
    SortIsStable(kept, Less(loc));
    PlaceIsClass(kept, x, loc);
    PlaceIsClass(Filtered(source, query, folder, loc), x, loc);
  }

  lemma FilteredShows(source: seq<Item>, query: string, folder: string, loc: Locale)
    requires Lawful(loc)
    ensures ShowsExactly(Filtered(source, query, folder, loc), source, query, folder, loc)
  {
    hide Chosen, Found;
    LessIsOrder(loc);
    var p := Passes(query, folder, loc);
    SortSorted(Filter(source, p), Less(loc));
    SortedIsListOrder(Filtered(source, query, folder, loc), loc);
    forall x
      ensures multiset(Filtered(source, query, folder, loc))[x]
              == if Chosen(x, folder) && Found(x, query, loc) then multiset(source)[x] else 0
    {
      PassesExactly(x, query, folder, loc);
      FilterCounts(source, p, x);
    }
    forall x
      ensures Filter(Filtered(source, query, folder, loc), AtPlace(x, loc))
              == Filter(Filter(source, Asked(query, folder, loc)), AtPlace(x, loc))
    {
      PlaceKept(source, query, folder, loc, x);
    }
  }

  // ----- over runs -----

  /** What was asked for last. */
  function LastItems(events: seq<Event>): seq<Item> {
    if events == [] then []
    else if events[|events| - 1].Refreshed? then events[|events| - 1].items else LastItems(events[..|events| - 1])
  }

  function LastQuery(events: seq<Event>): string {
    if events == [] then ""
    else if events[|events| - 1].Searched? then events[|events| - 1].query else LastQuery(events[..|events| - 1])
  }

  function LastFolder(events: seq<Event>): string {
    if events == [] then ""
    else if events[|events| - 1].Foldered? then events[|events| - 1].folder else LastFolder(events[..|events| - 1])
  }

  lemma {:induction false} RunLast(s: State, events: seq<Event>, loc: Locale)
    requires events != []
    ensures Run(s, events, loc) == Step(Run(s, events[..|events| - 1], loc), events[|events| - 1], loc)
    decreases |events|
  {
    hide Step;
    var n := |events| - 1;
    if n > 0 {
      RunLast(Step(s, events[0], loc), events[1..], loc);
      assert events[1..][..n - 1] == events[..n][1..];
    }
  }

  lemma SettingsAfter(s: State, e: Event, loc: Locale)
    ensures var t := Step(s, e, loc);
            && t.source == (if e.Refreshed? then e.items else s.source)
            && t.query == (if e.Searched? then e.query else s.query)
            && t.folder == (if e.Foldered? then e.folder else s.folder)
  {
    hide Filtered, Diff, Replay;
  }

  lemma {:induction false} LastSettings(events: seq<Event>, loc: Locale)
    ensures var s := Run(INITIAL, events, loc);
            s.source == LastItems(events) && s.query == LastQuery(events) && s.folder == LastFolder(events)
    decreases |events|
  {
    hide Step;
    if events != [] {
      var n := |events| - 1;
      LastSettings(events[..n], loc);
      RunLast(INITIAL, events, loc);
      SettingsAfter(Run(INITIAL, events[..n], loc), events[n], loc);
    }
  }

  /** Whatever slots were called: when the sources gave one item per id, the rows are
      exactly the items of the last source in the last folder that the last text is
      found in. On any sources an id is shown if and only if such an item has it; and
      right after a refresh the rows are exact again. */
  lemma RowsExactly(events: seq<Event>, loc: Locale)
    requires Lawful(loc)
    ensures var s := Run(INITIAL, events, loc);
            var source, query, folder := LastItems(events), LastQuery(events), LastFolder(events);
            && ((forall e :: e in events && e.Refreshed? ==> OneItemPerId(e.items)) ==>
                  ShowsExactly(s.filtered, source, query, folder, loc))
            && (forall id :: id in Ids(s.filtered) <==>
                  exists x :: x in source && x.id == id && Chosen(x, folder) && Found(x, query, loc))
            && (events != [] && events[|events| - 1].Refreshed? ==>
                  ShowsExactly(s.filtered, source, query, folder, loc))
  {
    hide Step, Run, ShowsExactly, Chosen, Found, LastItems, LastQuery, LastFolder, Lawful, OneItemPerId;
    var s := Run(INITIAL, events, loc);
    LastSettings(events, loc);
    ViewsNeverDisagree(events, loc);
    FilteredShows(s.source, s.query, s.folder, loc);
    ShownIds(s, loc);
    if forall e :: e in events && e.Refreshed? ==> OneItemPerId(e.items) {
      NeverDrifts(events, loc);
    }
    if events != [] && events[|events| - 1].Refreshed? {
      RunLast(INITIAL, events, loc);
      Recomputed(Run(INITIAL, events[..|events| - 1], loc), events[|events| - 1], loc);
    }
  }

  lemma Recomputed(s: State, e: Event, loc: Locale)
    requires e.Refreshed?
    ensures var t := Step(s, e, loc); t.filtered == Filtered(t.source, t.query, t.folder, loc)
  {
    hide Filtered;
  }

  lemma ShownIds(s: State, loc: Locale)
    requires Lawful(loc) && Ids(s.filtered) == Ids(Filtered(s.source, s.query, s.folder, loc))
    ensures forall id :: id in Ids(s.filtered) <==>
              exists x :: x in s.source && x.id == id && Chosen(x, s.folder) && Found(x, s.query, loc)
  {
    hide Filtered, Chosen, Found;
    var rows := Filtered(s.source, s.query, s.folder, loc);
    FilteredMembers(s.source, s.query, s.folder, loc);
    forall x ensures x in rows <==> x in s.source && Chosen(x, s.folder) && Found(x, s.query, loc) {
      PassesExactly(x, s.query, s.folder, loc);
    }
    forall id
      ensures id in Ids(rows) <==>
              exists x :: x in s.source && x.id == id && Chosen(x, s.folder) && Found(x, s.query, loc)
    {
      if id in Ids(rows) {
        var i :| 0 <= i < |rows| && rows[i].id == id;
        assert rows[i] in rows;
      }
      if exists x :: x in s.source && x.id == id && Chosen(x, s.folder) && Found(x, s.query, loc) {
        var x :| x in s.source && x.id == id && Chosen(x, s.folder) && Found(x, s.query, loc);
        assert x in rows;
        var i :| 0 <= i < |rows| && rows[i] == x;
        assert Ids(rows)[i] == id;
      }
    }
  }

  /** The four kinds of list a user sees, on a source with one item per id. */
  lemma FoldersAndSearch(source: seq<Item>, query: string, folder: string, loc: Locale)
    requires Lawful(loc) && OneItemPerId(source)
    ensures var s := Run(INITIAL, [Refreshed(source), Searched(query), Foldered(folder)], loc);
            && (folder == "" && query == "" ==> forall x :: x in s.filtered <==> x in source)
            && (folder == "none" && query == "" ==> forall x :: x in s.filtered <==> x in source && x.folderId == "")
            && (folder != "" && folder != "none" && query == "" ==>
                  forall x :: x in s.filtered <==> x in source && x.folderId == folder)
            && (folder == "" ==> forall x :: x in s.filtered <==> x in source && Found(x, query, loc))
  {
    hide Step, Run, OccursIn, Lawful, OneItemPerId;
    var events := [Refreshed(source), Searched(query), Foldered(folder)];
    ThreeSet(source, query, folder);
    RowsExactly(events, loc);
    var s := Run(INITIAL, events, loc);
    forall x ensures x in s.filtered <==> x in source && Chosen(x, folder) && Found(x, query, loc) {
      assert x in s.filtered <==> multiset(s.filtered)[x] > 0;
      assert multiset(s.filtered)[x] == if Chosen(x, folder) && Found(x, query, loc) then multiset(source)[x] else 0;
    }
    if query == "" {
      forall x: Item ensures Found(x, query, loc) {
        NothingOccurs(x.name, loc);
      }
    }
  }

  lemma ThreeSet(source: seq<Item>, query: string, folder: string)
    ensures var events := [Refreshed(source), Searched(query), Foldered(folder)];
            LastItems(events) == source && LastQuery(events) == query && LastFolder(events) == folder
  {
    var a, b, e := Refreshed(source), Searched(query), Foldered(folder);
    assert [a, b, e][..2] == [a, b] && [a, b][..1] == [a];
    assert LastItems([a, b]) == LastItems([a]) && LastQuery([a, b]) == query;
  }
}
