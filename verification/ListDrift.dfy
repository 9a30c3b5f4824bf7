/** When the list drifts: the row diff compares ids only, so with several items under
    one id it can leave another list than a recomputation would give. */
module ListDrift {
  import opened CipherItem
  import opened StableSort
  import opened RowDiff
  import opened ListModel
  import opened ListModelRuns

  // ----- what the walk leaves -----

  function HasId(ids: set<string>): Item -> bool {
    (item: Item) => item.id in ids
  }

  /** Wanted items in their order, each replaced by the next row if that has its id. */
  function Merged(rows: seq<Item>, wanted: seq<Item>): seq<Item> {
    if wanted == [] then []
    else if rows != [] && rows[0].id == wanted[0].id then [rows[0]] + Merged(rows[1..], wanted[1..])
    else [wanted[0]] + Merged(rows, wanted[1..])
  }

  /** The walk drops the rows whose id is not wanted and merges the others. */
  lemma {:induction false} WalkMerges(kept: seq<Item>, rest: seq<Item>, wanted: seq<Item>, ids: set<string>)
    requires forall w :: w in wanted ==> w.id in ids
    ensures ValidScript(kept + rest, Walk(|kept|, rest, wanted, ids))
    ensures Replay(kept + rest, Walk(|kept|, rest, wanted, ids)) == kept + Merged(Filter(rest, HasId(ids)), wanted)
    decreases |rest| + |wanted|
  {
    hide Walk, Replay, ValidScript, Apply, ValidOp;
    if wanted == [] {
      if rest == [] {
        WalkEnds(|kept|, ids);
        NoOps(kept + rest);
        assert kept + rest == kept + Merged([], []);
      } else {
        WalkDrops(|kept|, rest, wanted, ids);
        WalkMerges(kept, rest[1..], [], ids);
        RemoveFirst(kept, rest);
        FirstOp(kept + rest, RemoveRow(|kept|), Walk(|kept|, rest[1..], [], ids));
      }
    } else if rest != [] && rest[0].id !in ids {
      assert wanted[0] in wanted;
      WalkDrops(|kept|, rest, wanted, ids);
      WalkMerges(kept, rest[1..], wanted, ids);
      RemoveFirst(kept, rest);
      FirstOp(kept + rest, RemoveRow(|kept|), Walk(|kept|, rest[1..], wanted, ids));
    } else {
      WalkMeets(|kept|, rest, wanted, ids);
      if rest != [] && rest[0].id == wanted[0].id {
        Regrouped(kept, rest[0], rest[1..]);
        assert [rest[0]] + rest[1..] == rest;
        WalkMerges(kept + [rest[0]], rest[1..], wanted[1..], ids);
        Regrouped(kept, rest[0], Merged(Filter(rest[1..], HasId(ids)), wanted[1..]));
      } else {
        WalkMerges(kept + [wanted[0]], rest, wanted[1..], ids);
        InsertFirst(kept, rest, wanted[0]);
        FirstOp(kept + rest, InsertRow(|kept|, wanted[0]), Walk(|kept| + 1, rest, wanted[1..], ids));
        Regrouped(kept, wanted[0], Merged(Filter(rest, HasId(ids)), wanted[1..]));
      }
    }
  }

  lemma NoOps(view: seq<Item>)
    ensures ValidScript(view, []) && Replay(view, []) == view
  {
  }

  lemma FirstOp(view: seq<Item>, op: RowOp, ops: seq<RowOp>)
    requires ValidOp(view, op) && ValidScript(Apply(view, op), ops)
    ensures ValidScript(view, [op] + ops) && Replay(view, [op] + ops) == Replay(Apply(view, op), ops)
  {
    hide Apply, ValidOp;
    assert ([op] + ops)[1..] == ops;
  }

  lemma Regrouped(a: seq<Item>, x: Item, b: seq<Item>)
    ensures (a + [x]) + b == a + ([x] + b)
  {
  }

  // ----- the exact condition -----

  /** Along m, what passes p being shown and what passes q being wanted. A row that is
      not wanted itself stands in the way of the next wanted item with its id, and keeps
      every later row from being compared; a wanted item that is not shown is lost to the
      next row if that has its id. */
  ghost predicate Drifts(m: seq<Item>, p: Item -> bool, q: Item -> bool) {
    if m == [] then false
    else if p(m[0]) && !q(m[0]) then exists w :: w in m && q(w) && w.id == m[0].id
    else
      || (!p(m[0]) && q(m[0]) && Filter(m[1..], p) != [] && Filter(m[1..], p)[0].id == m[0].id)
      || Drifts(m[1..], p, q)
  }

  /** A row whose id is not wanted any more changes nothing after it. */
  lemma {:induction false} BlockedForGood(x: Item, rows: seq<Item>, wanted: seq<Item>)
    requires forall w :: w in wanted ==> w.id != x.id
    ensures Merged([x] + rows, wanted) == wanted
  {
    if wanted != [] {
      assert wanted[0] in wanted;
      BlockedForGood(x, rows, wanted[1..]);
    }
  }

  /** A row whose id is still wanted stays. */
  lemma {:induction false} BlockerStays(x: Item, rows: seq<Item>, wanted: seq<Item>)
    requires exists w :: w in wanted && w.id == x.id
    ensures x in Merged([x] + rows, wanted)
  {
    if wanted[0].id != x.id {
      BlockerStays(x, rows, wanted[1..]);
    }
  }

  lemma {:induction false} MergedExactly(m: seq<Item>, p: Item -> bool, q: Item -> bool)
    ensures Merged(Filter(m, p), Filter(m, q)) == Filter(m, q) <==> !Drifts(m, p, q)
  {
    if m != [] {
      var x, t := m[0], m[1..];
      MergedExactly(t, p, q);
      if p(x) && !q(x) {
        Blocker(x, t, p, q);
      } else if q(x) {
        assert Filter(m, q) == [x] + Filter(t, q);
        assert Filter(m, q)[1..] == Filter(t, q);
        if p(x) {
          assert Filter(m, p) == [x] + Filter(t, p);
          assert Filter(m, p)[1..] == Filter(t, p);
          SameHead(x, Merged(Filter(t, p), Filter(t, q)), Filter(t, q));
        } else if Filter(t, p) != [] && Filter(t, p)[0].id == x.id {
          assert p(Filter(t, p)[0]);
          assert Merged(Filter(m, p), Filter(m, q))[0] == Filter(t, p)[0];
        } else {
          SameHead(x, Merged(Filter(t, p), Filter(t, q)), Filter(t, q));
        }
      }
    }
  }

  lemma Blocker(x: Item, t: seq<Item>, p: Item -> bool, q: Item -> bool)
    requires p(x) && !q(x)
    ensures Merged([x] + Filter(t, p), Filter(t, q)) == Filter(t, q) <==>
            !(exists w :: w in [x] + t && q(w) && w.id == x.id)
  {
    if exists w :: w in [x] + t && q(w) && w.id == x.id {
      var w :| w in [x] + t && q(w) && w.id == x.id;
      assert w in Filter(t, q) && x !in Filter(t, q);
      BlockerStays(x, Filter(t, p), Filter(t, q));
    } else {
      forall w | w in Filter(t, q) ensures w.id != x.id {
        assert w in [x] + t;
      }
      BlockedForGood(x, Filter(t, p), Filter(t, q));
    }
  }

  lemma SameHead(x: Item, a: seq<Item>, b: seq<Item>)
    ensures [x] + a == [x] + b <==> a == b
  {
    assert ([x] + a)[1..] == a && ([x] + b)[1..] == b;
  }

  /** The rows that were shown and whose id is wanted now. */
  function StillWanted(query: string, folder: string, ids: set<string>, loc: Locale): Item -> bool {
    (item: Item) => Passes(query, folder, loc)(item) && item.id in ids
  }

  lemma {:induction false} FilterTwice(m: seq<Item>, query: string, folder: string, ids: set<string>, loc: Locale)
    ensures Filter(Filter(m, Passes(query, folder, loc)), HasId(ids)) == Filter(m, StillWanted(query, folder, ids, loc))
  {
    if m != [] {
      FilterTwice(m[1..], query, folder, ids, loc);
      if Passes(query, folder, loc)(m[0]) {
        assert Filter(m, Passes(query, folder, loc))[1..] == Filter(m[1..], Passes(query, folder, loc));
      }
    }
  }

  /** Whether a change from one pair of filters to another drifts, read off the sorted
      source and the filters. */
  ghost predicate ChangeDrifts(source: seq<Item>, q1: string, f1: string, q2: string, f2: string, loc: Locale) {
    Drifts(Sort(source, Less(loc)), StillWanted(q1, f1, IdSet(Filtered(source, q2, f2, loc)), loc), Passes(q2, f2, loc))
  }

  /** For every source, ids repeated or not, and every change of filters: the diff leaves
      the recomputed list exactly if the change does not drift. */
  lemma ChangeExactly(source: seq<Item>, q1: string, f1: string, q2: string, f2: string, loc: Locale)
    requires Lawful(loc)
    ensures var shown, wanted := Filtered(source, q1, f1, loc), Filtered(source, q2, f2, loc);
            ValidScript(shown, Diff(shown, wanted))
            && (Replay(shown, Diff(shown, wanted)) == wanted <==> !ChangeDrifts(source, q1, f1, q2, f2, loc))
  {
    hide Filtered, Filter, Passes, StillWanted, HasId, Merged, Drifts, Walk, Replay, ValidScript, Lawful;
    var shown, wanted := Filtered(source, q1, f1, loc), Filtered(source, q2, f2, loc);
    var m, ids := Sort(source, Less(loc)), IdSet(wanted);
    FilteredIsCut(source, q1, f1, loc);
    FilteredIsCut(source, q2, f2, loc);
    assert [] + shown == shown;
    WalkMerges([], shown, wanted, ids);
    FilterTwice(m, q1, f1, ids, loc);
    MergedExactly(m, StillWanted(q1, f1, ids, loc), Passes(q2, f2, loc));
    assert [] + Merged(Filter(shown, HasId(ids)), wanted) == Merged(Filter(shown, HasId(ids)), wanted);
  }

  // ----- over runs -----

  /** The model shows what a recomputation would give. */
  predicate Shows(s: State, loc: Locale) {
    s.filtered == Wanted(s, loc)
  }

  /** The slot runs a diff that drifts. */
  ghost predicate StepDrifts(s: State, e: Event, loc: Locale) {
    match e
    case Refreshed(_) => false
    case Searched(query) => query != s.query && ChangeDrifts(s.source, s.query, s.folder, query, s.folder, loc)
    case Foldered(folder) => folder != s.folder && ChangeDrifts(s.source, s.query, s.folder, s.query, folder, loc)
  }

  lemma StepExactly(s: State, e: Event, loc: Locale)
    requires Lawful(loc) && Shows(s, loc)
    ensures Shows(Step(s, e, loc), loc) <==> !StepDrifts(s, e, loc)
  {
    hide Filtered, Diff, Replay, ChangeDrifts, Lawful;
    match e
    case Refreshed(items) =>
    case Searched(query) => ChangeExactly(s.source, s.query, s.folder, query, s.folder, loc);
    case Foldered(folder) => ChangeExactly(s.source, s.query, s.folder, s.query, folder, loc);
  }

  /** At some point of the run the list is not the recomputed one. */
  ghost predicate EverOff(s: State, events: seq<Event>, loc: Locale)
    decreases |events|
  {
    !Shows(s, loc) || (events != [] && EverOff(Step(s, events[0], loc), events[1..], loc))
  }

  /** At some point of the run a diff drifts away from a list that was right. */
  ghost predicate EverDrifts(s: State, events: seq<Event>, loc: Locale)
    decreases |events|
  {
    events != [] &&
    ((Shows(s, loc) && StepDrifts(s, events[0], loc)) || EverDrifts(Step(s, events[0], loc), events[1..], loc))
  }

  lemma {:induction false} RunExactly(s: State, events: seq<Event>, loc: Locale)
    requires Lawful(loc) && Shows(s, loc)
    ensures EverOff(s, events, loc) <==> EverDrifts(s, events, loc)
    decreases |events|
  {
    hide Lawful, Shows, Step, StepDrifts;
    if events != [] {
      StepExactly(s, events[0], loc);
      if Shows(Step(s, events[0], loc), loc) {
        RunExactly(Step(s, events[0], loc), events[1..], loc);
      }
    }
  }

  /** Over every run on any sources: the shown list is ever another than the recomputed
      one if and only if some change of filters drifts from a list that was right. */
  lemma DriftsExactly(events: seq<Event>, loc: Locale)
    requires Lawful(loc)
    ensures EverOff(INITIAL, events, loc) <==> EverDrifts(INITIAL, events, loc)
  {
    InitialShows(loc);
    RunExactly(INITIAL, events, loc);
  }

  lemma InitialShows(loc: Locale)
    ensures Shows(INITIAL, loc)
  {
  }

  // ----- one item per id -----

  /** Two items with one id are one item (in particular when ids are distinct). */
  ghost predicate OneItemPerId(s: seq<Item>) {
    forall x, y :: x in s && y in s && x.id == y.id ==> x == y
  }

  lemma {:induction false} OneItemStays(m: seq<Item>, p: Item -> bool, q: Item -> bool)
    requires OneItemPerId(m)
    ensures !Drifts(m, p, q)
  {
    if m != [] {
      assert m[0] in m && forall x :: x in m[1..] ==> x in m;
      OneItemStays(m[1..], p, q);
      if Filter(m[1..], p) != [] {
        assert Filter(m[1..], p)[0] in Filter(m[1..], p);
      }
    }
  }

  lemma OneItemNeverDrifts(s: State, e: Event, loc: Locale)
    requires Lawful(loc) && OneItemPerId(s.source)
    ensures !StepDrifts(s, e, loc)
  {
    hide Lawful, Drifts;
    LessIsOrder(loc);
    SortSorted(s.source, Less(loc));
    match e
    case Refreshed(_) =>
    case Searched(query) =>
      OneItemStays(Sort(s.source, Less(loc)),
                   StillWanted(s.query, s.folder, IdSet(Filtered(s.source, query, s.folder, loc)), loc),
                   Passes(query, s.folder, loc));
    case Foldered(folder) =>
      OneItemStays(Sort(s.source, Less(loc)),
                   StillWanted(s.query, s.folder, IdSet(Filtered(s.source, s.query, folder, loc)), loc),
                   Passes(s.query, folder, loc));
  }

  lemma SourceAfter(s: State, e: Event, loc: Locale)
    ensures Step(s, e, loc).source == if e.Refreshed? then e.items else s.source
  {
    hide Filtered, Diff, Replay;
  }

  lemma {:induction false} RunShows(s: State, events: seq<Event>, loc: Locale)
    requires Lawful(loc) && Shows(s, loc) && OneItemPerId(s.source)
    requires forall e :: e in events && e.Refreshed? ==> OneItemPerId(e.items)
    ensures Shows(Run(s, events, loc), loc) && !EverOff(s, events, loc)
    decreases |events|
  {
    hide Lawful, Shows, Step, StepDrifts, OneItemPerId;
    if events != [] {
      assert events[0] in events;
      OneItemNeverDrifts(s, events[0], loc);
      StepExactly(s, events[0], loc);
      SourceAfter(s, events[0], loc);
      assert forall e :: e in events[1..] ==> e in events;
      RunShows(Step(s, events[0], loc), events[1..], loc);
    }
  }

  lemma FavoritesFirst(s: State, loc: Locale)
    requires Lawful(loc) && InStep(s, loc) && Shows(s, loc)
    ensures s.hasFavorites <==> exists i :: 0 <= i < |s.filtered| && s.filtered[i].favorite
  {
    LessIsOrder(loc);
    SortSorted(Filter(s.source, Passes(s.query, s.folder, loc)), Less(loc));
    if exists i :: 0 <= i < |s.filtered| && s.filtered[i].favorite {
      var i :| 0 <= i < |s.filtered| && s.filtered[i].favorite;
      assert i > 0 ==> !Less(loc)(s.filtered[i], s.filtered[0]);
    }
  }

  /** In particular, over every run whose sources give one item per id the shown list is
      the recomputed one item for item at every point, and the flag says whether a shown
      item is a favourite. */
  lemma NeverDrifts(events: seq<Event>, loc: Locale)
    requires Lawful(loc)
    requires forall e :: e in events && e.Refreshed? ==> OneItemPerId(e.items)
    ensures var s := Run(INITIAL, events, loc);
            && s.filtered == Filtered(s.source, s.query, s.folder, loc)
            && (s.hasFavorites <==> exists i :: 0 <= i < |s.filtered| && s.filtered[i].favorite)
            && !EverOff(INITIAL, events, loc)
  {
    InitialShows(loc);
    RunShows(INITIAL, events, loc);
    ViewsNeverDisagree(events, loc);
    FavoritesFirst(Run(INITIAL, events, loc), loc);
  }

  // ----- two items with one id -----

  function Named(name: string): Item {
    Item("x", Login, "", "", false, name, "", "", false, false, false, false)
  }

  lemma NameFilter(loc: Locale)
    requires loc.fold('a') != loc.fold('b')
    ensures Passes("b", "", loc)(Named("b")) && !Passes("b", "", loc)(Named("a"))
  {
    var b := "b";
    assert b[0..0 + |b|] == b;
    assert ContainsAt(b, b, 0, loc);
    var a := "a";
    assert a[0..0 + |b|] == a;
    assert Folded(a, loc)[0] != Folded(b, loc)[0];
    assert !ContainsAt(a, b, 0, loc);
  }

  /** With two items under one id, a search for the second one's name leaves the first
      one on show. */
  lemma DriftExample(loc: Locale)
    requires Lawful(loc) && loc.compare("a", "b") < 0 && loc.fold('a') != loc.fold('b')
    ensures ChangeDrifts([Named("a"), Named("b")], "", "", "b", "", loc)
    ensures var s := Run(INITIAL, [Refreshed([Named("a"), Named("b")]), Searched("b")], loc);
            s.filtered == [Named("a")] && Filtered(s.source, s.query, s.folder, loc) == [Named("b")]
  {
    var a, b := Named("a"), Named("b");
    TwoNamed(loc);
    var ids := IdSet([b]);
    assert b in [a, b];
    var p, q := StillWanted("", "", ids, loc), Passes("b", "", loc);
    assert p(a) && !q(a) && q(b) && [a, b][0] == a;
    assert Drifts([a, b], p, q);
    LeavesFirst(a, b);
    TwoSteps(loc);
  }

  lemma TwoNamed(loc: Locale)
    requires Lawful(loc) && loc.compare("a", "b") < 0 && loc.fold('a') != loc.fold('b')
    ensures var a, b := Named("a"), Named("b");
            && Sort([a, b], Less(loc)) == [a, b]
            && Filtered([a, b], "", "", loc) == [a, b] && Filtered([a, b], "b", "", loc) == [b]
            && !Passes("b", "", loc)(a) && Passes("b", "", loc)(b)
  {
    var a, b := Named("a"), Named("b");
    NameFilter(loc);
    assert [a, b][1..] == [b] && [b][1..] == [];
    assert loc.compare("b", "a") > 0;
    assert Sort([b], Less(loc)) == [b];
    assert Sort([a, b], Less(loc)) == [a, b];
    assert Filter([b], Passes("", "", loc)) == [b];
    assert Filter([b], Passes("b", "", loc)) == [b];
  }

  lemma LeavesFirst(a: Item, b: Item)
    requires a.id == b.id
    ensures ValidScript([a, b], Diff([a, b], [b])) && Replay([a, b], Diff([a, b], [b])) == [a]
  {
    assert [] + [a, b] == [a, b];
    WalkMerges([], [a, b], [b], IdSet([b]));
    assert [a, b][1..] == [b] && [b][1..] == [] && [b][0].id in IdSet([b]);
    assert Filter([b], HasId(IdSet([b]))) == [b];
    assert Filter([a, b], HasId(IdSet([b]))) == [a, b];
    assert Merged([a, b], [b]) == [a] + Merged([b], []);
  }

  lemma TwoSteps(loc: Locale)
    requires Lawful(loc) && loc.compare("a", "b") < 0 && loc.fold('a') != loc.fold('b')
    ensures var s := Run(INITIAL, [Refreshed([Named("a"), Named("b")]), Searched("b")], loc);
            s.filtered == [Named("a")] && Filtered(s.source, s.query, s.folder, loc) == [Named("b")]
  {
    hide Filtered, Diff, Replay, Lawful;
    var a, b := Named("a"), Named("b");
    TwoNamed(loc);
    LeavesFirst(a, b);
    var events := [Refreshed([a, b]), Searched("b")];
    var s1 := Step(INITIAL, events[0], loc);
    assert s1.filtered == [a, b] && s1.source == [a, b];
    var s2 := Step(s1, events[1], loc);
    assert s2.filtered == [a];
    assert events[1..] == [events[1]] && events[1..][1..] == [];
    assert Run(s1, events[1..], loc) == s2;
  }
}
