/** VaultListModel: the filtered, sorted item list behind the vault page, kept
    up to date by row-level changes. */
module ListModel {
  import opened CipherItem
  import opened StableSort
  import opened RowDiff

  /** What Qt contributes: localeAwareCompare and per-character case folding. */
  datatype Locale = Locale(compare: (string, string) -> int, fold: char -> char)

  /** Name comparison is a total preorder. */
  ghost predicate Lawful(loc: Locale) {
    && (forall a, b :: loc.compare(a, b) < 0 <==> loc.compare(b, a) > 0)
    && (forall a, b, c :: loc.compare(a, b) <= 0 && loc.compare(b, c) <= 0 ==> loc.compare(a, c) <= 0)
  }

  /** Favourites first, then by name. */
  function Less(loc: Locale): (Item, Item) -> bool {
    (a: Item, b: Item) => if a.favorite != b.favorite then a.favorite else loc.compare(a.name, b.name) < 0
  }

  function Folded(s: string, loc: Locale): (r: string)
    ensures |r| == |s|
  {
    seq(|s|, i requires 0 <= i < |s| => loc.fold(s[i]))
  }

  predicate ContainsAt(s: string, query: string, i: int, loc: Locale) {
    0 <= i <= |s| - |query| && Folded(s[i..i + |query|], loc) == Folded(query, loc)
  }

  /** QString::contains, case-insensitively. */
  predicate Contains(s: string, query: string, loc: Locale) {
    exists i | 0 <= i <= |s| :: ContainsAt(s, query, i, loc)
  }

  predicate InFolder(item: Item, folder: string) {
    folder == "" || (if folder == "none" then item.folderId == "" else item.folderId == folder)
  }

  predicate Matches(item: Item, query: string, loc: Locale) {
    query == "" || Contains(item.name, query, loc) || Contains(item.username, query, loc)
    || Contains(item.primaryUri, query, loc)
  }

  function Passes(query: string, folder: string, loc: Locale): Item -> bool {
    (item: Item) => InFolder(item, folder) && Matches(item, query, loc)
  }

  /** filteredItems: filter, then stable sort. */
  function Filtered(source: seq<Item>, query: string, folder: string, loc: Locale): seq<Item> {
    Sort(Filter(source, Passes(query, folder, loc)), Less(loc))
  }

  // ----- what a view is told -----

  datatype Signal = RowChanged(op: RowOp) | ModelReset(rows: seq<Item>) | FavoritesChanged(now: bool)

  /** The rows a view holds after following every signal. */
  function ShownRows(log: seq<Signal>): seq<Item>
    requires ValidLog(log)
    decreases |log|, 1
  {
    if log == [] then []
    else
      match log[|log| - 1]
      case RowChanged(op) => Apply(ShownRows(log[..|log| - 1]), op)
      case ModelReset(rows) => rows
      case FavoritesChanged(_) => ShownRows(log[..|log| - 1])
  }

  /** Every row index was valid when it was emitted. */
  predicate ValidLog(log: seq<Signal>)
    decreases |log|, 0
  {
    log == [] ||
    (ValidLog(log[..|log| - 1])
     && (log[|log| - 1].RowChanged? ==> ValidOp(ShownRows(log[..|log| - 1]), log[|log| - 1].op)))
  }

  function ShownFavorites(log: seq<Signal>): bool {
    if log == [] then false
    else
      match log[|log| - 1]
      case FavoritesChanged(now) => now
      case _ => ShownFavorites(log[..|log| - 1])
  }

  function Rows(ops: seq<RowOp>): (r: seq<Signal>)
    ensures |r| == |ops|
  {
    seq(|ops|, i requires 0 <= i < |ops| => RowChanged(ops[i]))
  }

  // ----- the model's state and its slots, as functions -----

  datatype State = State(
    source: seq<Item>, filtered: seq<Item>, query: string, folder: string, hasFavorites: bool, log: seq<Signal>)

  const INITIAL := State([], [], "", "", false, [])

  function Wanted(s: State, loc: Locale): seq<Item> {
    Filtered(s.source, s.query, s.folder, loc)
  }

  function UpdateFavorites(s: State): State {
    var now := s.filtered != [] && s.filtered[0].favorite;
    if now == s.hasFavorites then s
    else s.(hasFavorites := now, log := s.log + [FavoritesChanged(now)])
  }

  function ApplyDiff(s: State, loc: Locale): State {
    var ops := Diff(s.filtered, Wanted(s, loc));
    DiffArrives(s.filtered, Wanted(s, loc));
    UpdateFavorites(s.(filtered := Replay(s.filtered, ops), log := s.log + Rows(ops)))
  }

  datatype Event = Refreshed(items: seq<Item>) | Searched(query: string) | Foldered(folder: string)

  function Step(s: State, e: Event, loc: Locale): State {
    match e
    case Refreshed(items) =>
      var shown := Filtered(items, s.query, s.folder, loc);
      UpdateFavorites(s.(source := items, filtered := shown, log := s.log + [ModelReset(shown)]))
    case Searched(query) => if s.query == query then s else ApplyDiff(s.(query := query), loc)
    case Foldered(folder) => if s.folder == folder then s else ApplyDiff(s.(folder := folder), loc)
  }

  function Run(s: State, events: seq<Event>, loc: Locale): State
    decreases |events|
  {
    if events == [] then s else Run(Step(s, events[0], loc), events[1..], loc)
  }

  // ----- the object -----

  class VaultListModel {
    const loc: Locale
    var source: seq<Item>
    var filtered: seq<Item>
    var searchQuery: string
    var folderFilter: string
    var hasFavorites: bool
    ghost var emitted: seq<Signal>

    constructor (loc: Locale)
      ensures this.loc == loc && Current() == INITIAL
    {
      this.loc := loc;
      source, filtered, searchQuery, folderFilter, hasFavorites := [], [], "", "", false;
      emitted := [];
    }

    ghost function Current(): State
      reads this
    {
      State(source, filtered, searchQuery, folderFilter, hasFavorites, emitted)
    }

    method FilteredItems() returns (result: seq<Item>)
      ensures result == Filtered(source, searchQuery, folderFilter, loc)
    {
      hide Contains, Sort, Filter;
      ghost var p := Passes(searchQuery, folderFilter, loc);
      result := [];
      var i := 0;
      assert source[0..] == source && [] + Filter(source, p) == Filter(source, p);
      while i < |source|
        invariant 0 <= i <= |source|
        invariant Filter(source, p) == result + Filter(source[i..], p)
      {
        var item := source[i];
        FilterStep(source, i, p);
        i := i + 1;
        if folderFilter != "" {
          if folderFilter == "none" {
            if item.folderId != "" {
              continue;
            }
          } else if item.folderId != folderFilter {
            continue;
          }
        }
        if searchQuery != "" {
          var matches := Contains(item.name, searchQuery, loc)
            || Contains(item.username, searchQuery, loc)
            || Contains(item.primaryUri, searchQuery, loc);
          if !matches {
            continue;
          }
        }
        result := result + [item];
      }
      FilterEnd(source, p);
      assert result + [] == result;
      result := Sort(result, Less(loc));
    }

    method Refresh(items: seq<Item>)
      modifies this
      ensures Current() == Step(old(Current()), Refreshed(items), loc)
    {
      source := items;
      filtered := FilteredItems();
      emitted := emitted + [ModelReset(filtered)];
      UpdateHasFavorites();
    }

    method SetSearchQuery(query: string)
      modifies this
      ensures Current() == Step(old(Current()), Searched(query), loc)
    {
      if searchQuery == query {
        return;
      }
      searchQuery := query;
      ApplyFilterDiff();
    }

    method SetFolderFilter(folderId: string)
      modifies this
      ensures Current() == Step(old(Current()), Foldered(folderId), loc)
    {
      if folderFilter == folderId {
        return;
      }
      folderFilter := folderId;
      ApplyFilterDiff();
    }

    /** A row goes, between its two signals to the view. */
    method RemoveAt(row: nat)
      requires row < |filtered|
      modifies this`filtered, this`emitted
      ensures filtered == old(filtered[..row] + filtered[row + 1..])
      ensures emitted == old(emitted) + [RowChanged(RemoveRow(row))]
    {
      emitted := emitted + [RowChanged(RemoveRow(row))];
      filtered := filtered[..row] + filtered[row + 1..];
    }

    method InsertAt(row: nat, item: Item)
      requires row <= |filtered|
      modifies this`filtered, this`emitted
      ensures filtered == old(filtered[..row] + [item] + filtered[row..])
      ensures emitted == old(emitted) + [RowChanged(InsertRow(row, item))]
    {
      emitted := emitted + [RowChanged(InsertRow(row, item))];
      filtered := filtered[..row] + [item] + filtered[row..];
    }

    /** The merge walk, changing `filtered` in place at a moving row. */
    method ApplyFilterDiff()
      modifies this
      ensures Current() == ApplyDiff(old(Current()), loc)
    {
      hide Filtered, IdSet, Apply, Diff, UpdateFavorites, Walk, Rows, Progress;
      var wanted := FilteredItems();
      var wantedIds := IdSet(wanted);
      ghost var before, ops := filtered, Diff(filtered, wanted);
      ghost var todo := ops;
      DiffArrives(before, wanted);
      DiffIs(before, wanted);
      ProgressStart(before, ops, emitted);
      assert filtered[0..] == filtered && wanted[0..] == wanted;

      var row := 0;
      var k := 0;
      assert todo == Walk(row, filtered[row..], wanted[k..], wantedIds);
      while k < |wanted|
        invariant 0 <= k <= |wanted| && 0 <= row <= |filtered|
        invariant Progress(before, ops, filtered, todo, old(emitted), emitted)
        invariant todo == Walk(row, filtered[row..], wanted[k..], wantedIds)
        invariant Unchanged(old(Current()))
      {
        var item := wanted[k];
        while row < |filtered| && filtered[row].id != item.id && filtered[row].id !in wantedIds
          invariant 0 <= row <= |filtered|
          invariant Progress(before, ops, filtered, todo, old(emitted), emitted)
          invariant todo == Walk(row, filtered[row..], wanted[k..], wantedIds)
          invariant Unchanged(old(Current()))
          decreases |filtered|
        {
          WalkDrops(row, filtered[row..], wanted[k..], wantedIds);
          ProgressStep(before, ops, filtered, todo, old(emitted), emitted);
          RemovedRow(filtered, row);
          RemoveAt(row);
          todo := todo[1..];
        }
        WalkMeets(row, filtered[row..], wanted[k..], wantedIds);
        if row < |filtered| && filtered[row].id == item.id {
          row := row + 1;
        } else {
          ProgressStep(before, ops, filtered, todo, old(emitted), emitted);
          InsertedRow(filtered, row, item);
          InsertAt(row, item);
          todo := todo[1..];
          row := row + 1;
        }
        k := k + 1;
      }
      while |filtered| > row
        invariant 0 <= row <= |filtered|
        invariant Progress(before, ops, filtered, todo, old(emitted), emitted)
        invariant todo == Walk(row, filtered[row..], [], wantedIds)
        invariant Unchanged(old(Current()))
        decreases |filtered|
      {
        WalkDrops(row, filtered[row..], [], wantedIds);
        ProgressStep(before, ops, filtered, todo, old(emitted), emitted);
        RemovedRow(filtered, row);
        RemoveAt(row);
        todo := todo[1..];
      }
      WalkEnds(row, wantedIds);
      assert filtered[row..] == [];
      ProgressDone(before, ops, filtered, old(emitted), emitted);
      UpdateHasFavorites();
    }

    /** The walk touches rows and signals only. */
    ghost predicate Unchanged(s: State)
      reads this
    {
      source == s.source && searchQuery == s.query && folderFilter == s.folder && hasFavorites == s.hasFavorites
    }

    method UpdateHasFavorites()
      modifies this
      ensures Current() == UpdateFavorites(old(Current()))
    {
      var hasFav := filtered != [] && filtered[0].favorite;
      if hasFav != hasFavorites {
        hasFavorites := hasFav;
        emitted := emitted + [FavoritesChanged(hasFav)];
      }
    }
  }

  lemma WalkDrops(row: nat, rest: seq<Item>, wanted: seq<Item>, ids: set<string>)
    requires rest != []
    requires wanted == [] || (rest[0].id != wanted[0].id && rest[0].id !in ids)
    ensures Walk(row, rest, wanted, ids) == [RemoveRow(row)] + Walk(row, rest[1..], wanted, ids)
  {
  }

  lemma WalkMeets(row: nat, rest: seq<Item>, wanted: seq<Item>, ids: set<string>)
    requires wanted != [] && (rest != [] ==> rest[0].id == wanted[0].id || rest[0].id in ids)
    ensures rest != [] && rest[0].id == wanted[0].id ==>
              Walk(row, rest, wanted, ids) == Walk(row + 1, rest[1..], wanted[1..], ids)
    ensures !(rest != [] && rest[0].id == wanted[0].id) ==>
              Walk(row, rest, wanted, ids) == [InsertRow(row, wanted[0])] + Walk(row + 1, rest, wanted[1..], ids)
  {
  }

  lemma WalkEnds(row: nat, ids: set<string>)
    ensures Walk(row, [], [], ids) == []
  {
  }

  lemma FilterStep(s: seq<Item>, i: nat, p: Item -> bool)
    requires i < |s|
    ensures p(s[i]) ==> Filter(s[i..], p) == [s[i]] + Filter(s[i + 1..], p)
    ensures !p(s[i]) ==> Filter(s[i..], p) == Filter(s[i + 1..], p)
  {
  }

  lemma FilterEnd(s: seq<Item>, p: Item -> bool)
    ensures Filter(s[|s|..], p) == []
  {
  }

  /** While `todo` remains of the script, the rest has been applied and emitted. */
  ghost predicate Progress(before: seq<Item>, ops: seq<RowOp>, rows: seq<Item>, todo: seq<RowOp>,
                           log0: seq<Signal>, log: seq<Signal>)
  {
    && ValidScript(before, ops) && ValidScript(rows, todo)
    && Replay(rows, todo) == Replay(before, ops)
    && log + Rows(todo) == log0 + Rows(ops)
  }

  lemma DiffIs(shown: seq<Item>, wanted: seq<Item>)
    ensures Diff(shown, wanted) == Walk(0, shown, wanted, IdSet(wanted))
  {
  }

  lemma ProgressStart(before: seq<Item>, ops: seq<RowOp>, log: seq<Signal>)
    requires ValidScript(before, ops)
    ensures Progress(before, ops, before, ops, log, log)
  {
  }

  lemma ProgressStep(before: seq<Item>, ops: seq<RowOp>, rows: seq<Item>, todo: seq<RowOp>,
                     log0: seq<Signal>, log: seq<Signal>)
    requires todo != [] && Progress(before, ops, rows, todo, log0, log)
    ensures ValidOp(rows, todo[0])
    ensures Progress(before, ops, Apply(rows, todo[0]), todo[1..], log0, log + [RowChanged(todo[0])])
  {
    assert Rows(todo) == [RowChanged(todo[0])] + Rows(todo[1..]);
    assert (log + [RowChanged(todo[0])]) + Rows(todo[1..]) == log + Rows(todo);
  }

  lemma ProgressDone(before: seq<Item>, ops: seq<RowOp>, rows: seq<Item>, log0: seq<Signal>, log: seq<Signal>)
    requires Progress(before, ops, rows, [], log0, log)
    ensures ValidScript(before, ops) && rows == Replay(before, ops) && log == log0 + Rows(ops)
  {
    assert log + Rows([]) == log;
  }

  lemma RemovedRow(rows: seq<Item>, row: nat)
    requires row < |rows|
    ensures Apply(rows, RemoveRow(row)) == rows[..row] + rows[row + 1..]
    ensures (rows[..row] + rows[row + 1..])[row..] == rows[row..][1..]
  {
  }

  lemma InsertedRow(rows: seq<Item>, row: nat, x: Item)
    requires row <= |rows|
    ensures Apply(rows, InsertRow(row, x)) == rows[..row] + [x] + rows[row..]
    ensures (rows[..row] + [x] + rows[row..])[row + 1..] == rows[row..]
  {
  }
}
