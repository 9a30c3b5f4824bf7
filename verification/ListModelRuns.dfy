/** What holds of the list model over every run of its slots. */
module ListModelRuns {
  import opened CipherItem
  import opened StableSort
  import opened RowDiff
  import opened ListModel

  lemma LessIsOrder(loc: Locale)
    requires Lawful(loc)
    ensures StrictWeakOrder(Less(loc))
  {
    var less := Less(loc);
    forall a, b ensures !less(b, a) <==> NotAfter(a, b, loc) {
      assert loc.compare(b.name, a.name) < 0 <==> loc.compare(a.name, b.name) > 0;
    }
    forall a, b | less(a, b) ensures !less(b, a) {
      assert !less(b, a) <==> NotAfter(a, b, loc);
    }
    forall a, b, c | !less(b, a) && !less(c, b) ensures !less(c, a) {
      assert NotAfter(a, b, loc) && NotAfter(b, c, loc);
      assert NotAfter(a, c, loc);
    }
  }

  ghost predicate NotAfter(a: Item, b: Item, loc: Locale) {
    if a.favorite != b.favorite then a.favorite else loc.compare(a.name, b.name) <= 0
  }

  /** Every filtered list is cut out of one and the same sorted source. */
  lemma FilteredIsCut(source: seq<Item>, query: string, folder: string, loc: Locale)
    requires Lawful(loc)
    ensures Filtered(source, query, folder, loc) == Filter(Sort(source, Less(loc)), Passes(query, folder, loc))
  {
    LessIsOrder(loc);
    FilterCommutes(source, Less(loc), Passes(query, folder, loc));
  }

  ghost predicate DistinctIds(s: seq<Item>) {
    forall i, j :: 0 <= i < j < |s| ==> s[i].id != s[j].id
  }

  lemma FilteredMembers(source: seq<Item>, query: string, folder: string, loc: Locale)
    requires Lawful(loc)
    ensures forall x :: x in Filtered(source, query, folder, loc) <==> x in source && Passes(query, folder, loc)(x)
  {
    LessIsOrder(loc);
    SortSorted(Filter(source, Passes(query, folder, loc)), Less(loc));
  }

  lemma DistinctBag(s: seq<Item>)
    requires forall x :: multiset(Ids(s))[x] <= 1
    ensures DistinctIds(s)
  {
    forall i, j | 0 <= i < j < |s| ensures s[i].id != s[j].id {
      var x := s[j].id;
      var a, b := Ids(s)[..j], Ids(s)[j..];
      assert Ids(s) == a + b && a[i] == s[i].id && b[0] == x;
      assert multiset(Ids(s)) == multiset(a) + multiset(b);
      assert multiset(Ids(s))[x] == multiset(a)[x] + multiset(b)[x];
      assert x in b && x !in a;
    }
  }

  lemma {:induction false} BagDistinct(s: seq<Item>, x: string)
    requires DistinctIds(s)
    ensures multiset(Ids(s))[x] <= 1
  {
    if s != [] {
      BagDistinct(s[1..], x);
      assert s == [s[0]] + s[1..];
      BagFirst(s[0], s[1..]);
      assert s[0].id !in multiset(Ids(s[1..]));
    }
  }

  lemma {:induction false} SameBagIds(s: seq<Item>, less: (Item, Item) -> bool)
    ensures multiset(Ids(Sort(s, less))) == multiset(Ids(s))
  {
    if s != [] {
      SameBagIds(s[1..], less);
      InsertBagIds(s[0], Sort(s[1..], less), less);
      assert s == [s[0]] + s[1..];
      BagFirst(s[0], s[1..]);
    }
  }

  lemma {:induction false} InsertBagIds(x: Item, s: seq<Item>, less: (Item, Item) -> bool)
    ensures multiset(Ids(Insert(x, s, less))) == multiset([x.id]) + multiset(Ids(s))
  {
    if s != [] && less(s[0], x) {
      InsertBagIds(x, s[1..], less);
      BagFirst(s[0], Insert(x, s[1..], less));
      assert s == [s[0]] + s[1..];
      BagFirst(s[0], s[1..]);
    } else {
      BagFirst(x, s);
      assert [x] + [] == [x];
    }
  }

  lemma SortDistinct(s: seq<Item>, less: (Item, Item) -> bool)
    requires DistinctIds(s)
    ensures DistinctIds(Sort(s, less))
  {
    SameBagIds(s, less);
    forall x ensures multiset(Ids(Sort(s, less)))[x] <= 1 {
      BagDistinct(s, x);
    }
    DistinctBag(Sort(s, less));
  }

  /** A list cut out of m follows the order of m's ids. */
  lemma {:induction false} CutInOrder(m: seq<Item>, p: Item -> bool)
    requires DistinctIds(m)
    ensures InOrder(Filter(m, p), Ids(m))
  {
    if m != [] {
      CutInOrder(m[1..], p);
      var t, f := m[1..], Filter(m[1..], p);
      IdsFirst(m);
      forall x | x in f
        ensures x.id in Ids(t) && x.id != m[0].id && IndexOf(Ids(m), x.id) == 1 + IndexOf(Ids(t), x.id)
      {
        var i :| 0 <= i < |t| && t[i] == x;
        assert Ids(t)[i] == x.id && m[i + 1] == x;
      }
      assert IndexOf(Ids(m), m[0].id) == 0;
      ShiftOrder(m, f);
    }
  }

  lemma ShiftOrder(m: seq<Item>, f: seq<Item>)
    requires m != [] && InOrder(f, Ids(m[1..]))
    requires Ids(m) == [m[0].id] + Ids(m[1..])
    requires forall x :: x in f ==> x.id in Ids(m) && IndexOf(Ids(m), x.id) == 1 + IndexOf(Ids(m[1..]), x.id)
    requires IndexOf(Ids(m), m[0].id) == 0
    ensures InOrder(f, Ids(m)) && InOrder([m[0]] + f, Ids(m))
  {
    hide IndexOf, Ids;
    forall i | 0 <= i < |f| ensures f[i].id in Ids(m) && IndexOf(Ids(m), f[i].id) == 1 + IndexOf(Ids(m[1..]), f[i].id) {
      assert f[i] in f;
    }
  }

  /** A change of search or folder emits the fewest row operations that lead from
      the old list to the new one: one removal for each item that fell out, one
      insertion for each that came in, and nothing else. */
  lemma FilterChangeMinimal(source: seq<Item>, q1: string, f1: string, q2: string, f2: string, loc: Locale,
                            ops: seq<RowOp>)
    requires Lawful(loc) && DistinctIds(source)
    ensures var shown, wanted := Filtered(source, q1, f1, loc), Filtered(source, q2, f2, loc);
            && ValidScript(shown, Diff(shown, wanted))
            && Removed(shown, Diff(shown, wanted)) == Without(shown, wanted)
            && Inserted(Diff(shown, wanted)) == Without(wanted, shown)
            && (ValidScript(shown, ops) && Ids(Replay(shown, ops)) == Ids(wanted) ==> |Diff(shown, wanted)| <= |ops|)
  {
    hide Filtered, Without, Removed, Inserted, Ids, Diff, Replay, ValidScript;
    var m := Sort(source, Less(loc));
    SortDistinct(source, Less(loc));
    FilteredIsCut(source, q1, f1, loc);
    FilteredIsCut(source, q2, f2, loc);
    CutInOrder(m, Passes(q1, f1, loc));
    CutInOrder(m, Passes(q2, f2, loc));
    var shown, wanted := Filtered(source, q1, f1, loc), Filtered(source, q2, f2, loc);
    DiffExact(shown, wanted, Ids(m));
    if ValidScript(shown, ops) && Ids(Replay(shown, ops)) == Ids(wanted) {
      Minimal(shown, wanted, Ids(m), ops);
    }
  }

  // ----- runs -----

  /** A view that follows the signals shows the model's rows and flag, every row
      index was valid, and the ids are those of a recomputation. */
  ghost predicate InStep(s: State, loc: Locale) {
    && ValidLog(s.log)
    && ShownRows(s.log) == s.filtered
    && ShownFavorites(s.log) == s.hasFavorites
    && (s.hasFavorites <==> s.filtered != [] && s.filtered[0].favorite)
    && Ids(s.filtered) == Ids(Wanted(s, loc))
  }

  lemma {:induction false} LogRows(log: seq<Signal>, ops: seq<RowOp>)
    requires ValidLog(log) && ValidScript(ShownRows(log), ops)
    ensures ValidLog(log + Rows(ops)) && ShownRows(log + Rows(ops)) == Replay(ShownRows(log), ops)
    ensures ShownFavorites(log + Rows(ops)) == ShownFavorites(log)
    decreases |ops|
  {
    if ops == [] {
      assert log + Rows(ops) == log;
    } else {
      var next := log + [RowChanged(ops[0])];
      LogRow(log, ops[0]);
      assert log + Rows(ops) == next + Rows(ops[1..]);
      hide ValidLog, ShownRows, ShownFavorites, Apply, ValidOp;
      LogRows(next, ops[1..]);
    }
  }

  lemma LogRow(log: seq<Signal>, op: RowOp)
    requires ValidLog(log) && ValidOp(ShownRows(log), op)
    ensures ValidLog(log + [RowChanged(op)])
    ensures ShownRows(log + [RowChanged(op)]) == Apply(ShownRows(log), op)
    ensures ShownFavorites(log + [RowChanged(op)]) == ShownFavorites(log)
  {
    assert (log + [RowChanged(op)])[..|log|] == log;
  }

  lemma LogOne(log: seq<Signal>, x: Signal)
    requires ValidLog(log) && !x.RowChanged?
    ensures ValidLog(log + [x])
    ensures x.ModelReset? ==> ShownRows(log + [x]) == x.rows && ShownFavorites(log + [x]) == ShownFavorites(log)
    ensures x.FavoritesChanged? ==> ShownRows(log + [x]) == ShownRows(log) && ShownFavorites(log + [x]) == x.now
  {
    assert (log + [x])[..|log|] == log;
  }

  lemma FavoritesInStep(s: State, loc: Locale)
    requires ValidLog(s.log) && ShownRows(s.log) == s.filtered && ShownFavorites(s.log) == s.hasFavorites
    requires Ids(s.filtered) == Ids(Wanted(s, loc))
    ensures InStep(UpdateFavorites(s), loc)
  {
    LogOne(s.log, FavoritesChanged(s.filtered != [] && s.filtered[0].favorite));
  }

  lemma DiffInStep(s: State, loc: Locale)
    requires ValidLog(s.log) && ShownRows(s.log) == s.filtered && ShownFavorites(s.log) == s.hasFavorites
    ensures InStep(ApplyDiff(s, loc), loc)
  {
    var ops := Diff(s.filtered, Wanted(s, loc));
    DiffArrives(s.filtered, Wanted(s, loc));
    LogRows(s.log, ops);
    hide Filtered, Diff, Replay, ValidScript;
    FavoritesInStep(s.(filtered := Replay(s.filtered, ops), log := s.log + Rows(ops)), loc);
  }

  lemma StepInStep(s: State, e: Event, loc: Locale)
    requires InStep(s, loc)
    ensures InStep(Step(s, e, loc), loc)
  {
    hide Filtered, Diff, Replay, UpdateFavorites;
    match e
    case Refreshed(items) =>
      var shown := Filtered(items, s.query, s.folder, loc);
      LogOne(s.log, ModelReset(shown));
      FavoritesInStep(s.(source := items, filtered := shown, log := s.log + [ModelReset(shown)]), loc);
    case Searched(query) =>
      DiffInStep(s.(query := query), loc);
    case Foldered(folder) =>
      DiffInStep(s.(folder := folder), loc);
  }

  lemma {:induction false} RunInStep(s: State, events: seq<Event>, loc: Locale)
    requires InStep(s, loc)
    ensures InStep(Run(s, events, loc), loc)
    decreases |events|
  {
    if events != [] {
      StepInStep(s, events[0], loc);
      RunInStep(Step(s, events[0], loc), events[1..], loc);
    }
  }

  lemma InitialInStep(loc: Locale)
    ensures InStep(INITIAL, loc)
  {
  }

  /** Whatever the slots are called with, in whatever order. */
  lemma ViewsNeverDisagree(events: seq<Event>, loc: Locale)
    ensures InStep(Run(INITIAL, events, loc), loc)
  {
    InitialInStep(loc);
    RunInStep(INITIAL, events, loc);
  }
}
