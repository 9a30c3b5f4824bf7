/** The merge walk that turns the shown rows into a new filtered list by
    single-row removals and insertions, compared by id only. */
module RowDiff {
  import opened CipherItem
  import opened StableSort

  datatype RowOp = InsertRow(row: nat, item: Item) | RemoveRow(row: nat)

  function Ids(s: seq<Item>): (r: seq<string>)
    ensures |r| == |s|
  {
    seq(|s|, i requires 0 <= i < |s| => s[i].id)
  }

  // ----- row operations on a view -----

  predicate ValidOp(view: seq<Item>, op: RowOp) {
    match op
    case InsertRow(row, _) => row <= |view|
    case RemoveRow(row) => row < |view|
  }

  function Apply(view: seq<Item>, op: RowOp): seq<Item>
    requires ValidOp(view, op)
  {
    match op
    case InsertRow(row, item) => view[..row] + [item] + view[row..]
    case RemoveRow(row) => view[..row] + view[row + 1..]
  }

  /** Every operation names a row that exists when it is applied. */
  predicate ValidScript(view: seq<Item>, ops: seq<RowOp>)
    decreases |ops|
  {
    ops == [] || (ValidOp(view, ops[0]) && ValidScript(Apply(view, ops[0]), ops[1..]))
  }

  function Replay(view: seq<Item>, ops: seq<RowOp>): seq<Item>
    requires ValidScript(view, ops)
    decreases |ops|
  {
    if ops == [] then view else Replay(Apply(view, ops[0]), ops[1..])
  }

  /** The rows a script takes out, in order. */
  function Removed(view: seq<Item>, ops: seq<RowOp>): seq<Item>
    requires ValidScript(view, ops)
    decreases |ops|
  {
    if ops == [] then []
    else (if ops[0].RemoveRow? then [view[ops[0].row]] else []) + Removed(Apply(view, ops[0]), ops[1..])
  }

  /** The rows a script puts in, in order. */
  function Inserted(ops: seq<RowOp>): seq<Item> {
    if ops == [] then []
    else (if ops[0].InsertRow? then [ops[0].item] else []) + Inserted(ops[1..])
  }

  // ----- the walk -----

  function IdSet(s: seq<Item>): (r: set<string>)
    ensures forall x :: x in r <==> exists i :: 0 <= i < |s| && s[i].id == x
  {
    set i | 0 <= i < |s| :: s[i].id
  }

  /** The operations emitted from `row` on, `rest` being the rows not passed yet. */
  function Walk(row: nat, rest: seq<Item>, wanted: seq<Item>, wantedIds: set<string>): seq<RowOp>
    decreases |rest| + |wanted|
  {
    if wanted == [] then
      if rest == [] then [] else [RemoveRow(row)] + Walk(row, rest[1..], [], wantedIds)
    else if rest != [] && rest[0].id != wanted[0].id && rest[0].id !in wantedIds then
      [RemoveRow(row)] + Walk(row, rest[1..], wanted, wantedIds)
    else if rest != [] && rest[0].id == wanted[0].id then
      Walk(row + 1, rest[1..], wanted[1..], wantedIds)
    else
      [InsertRow(row, wanted[0])] + Walk(row + 1, rest, wanted[1..], wantedIds)
  }

  function Diff(shown: seq<Item>, wanted: seq<Item>): seq<RowOp> {
    Walk(0, shown, wanted, IdSet(wanted))
  }

  lemma RemoveFirst(kept: seq<Item>, rest: seq<Item>)
    requires rest != []
    ensures ValidOp(kept + rest, RemoveRow(|kept|))
    ensures Apply(kept + rest, RemoveRow(|kept|)) == kept + rest[1..]
    ensures (kept + rest)[|kept|] == rest[0]
  {
  }

  lemma InsertFirst(kept: seq<Item>, rest: seq<Item>, x: Item)
    ensures ValidOp(kept + rest, InsertRow(|kept|, x))
    ensures Apply(kept + rest, InsertRow(|kept|, x)) == (kept + [x]) + rest
  {
  }

  /** Whatever the lists, every emitted index is valid and the ids shown at the
      end are the wanted ids. */
  lemma {:induction false} WalkArrives(kept: seq<Item>, rest: seq<Item>, wanted: seq<Item>, wantedIds: set<string>)
    ensures var ops := Walk(|kept|, rest, wanted, wantedIds);
            && ValidScript(kept + rest, ops)
            && Ids(Replay(kept + rest, ops)) == Ids(kept + wanted)
    decreases |rest| + |wanted|
  {
    if wanted == [] {
      if rest == [] {
        assert kept + rest == kept + wanted;
      } else {
        RemoveFirst(kept, rest);
        WalkArrives(kept, rest[1..], [], wantedIds);
      }
    } else if rest != [] && rest[0].id != wanted[0].id && rest[0].id !in wantedIds {
      RemoveFirst(kept, rest);
      WalkArrives(kept, rest[1..], wanted, wantedIds);
    } else if rest != [] && rest[0].id == wanted[0].id {
      assert (kept + [rest[0]]) + rest[1..] == kept + rest;
      assert Ids((kept + [rest[0]]) + wanted[1..]) == Ids(kept + wanted);
      WalkArrives(kept + [rest[0]], rest[1..], wanted[1..], wantedIds);
    } else {
      InsertFirst(kept, rest, wanted[0]);
      assert (kept + [wanted[0]]) + wanted[1..] == kept + wanted;
      WalkArrives(kept + [wanted[0]], rest, wanted[1..], wantedIds);
    }
  }

  /** The rows are the wanted items wherever equal ids mean equal items. */
  lemma {:induction false} WalkMatches(kept: seq<Item>, rest: seq<Item>, wanted: seq<Item>, wantedIds: set<string>)
    requires IdsDetermine(rest, wanted)
    ensures var ops := Walk(|kept|, rest, wanted, wantedIds);
            ValidScript(kept + rest, ops) && Replay(kept + rest, ops) == kept + wanted
    decreases |rest| + |wanted|
  {
    if wanted == [] {
      if rest == [] {
        assert kept + rest == kept + wanted;
      } else {
        RemoveFirst(kept, rest);
        WalkMatches(kept, rest[1..], [], wantedIds);
      }
    } else if rest != [] && rest[0].id != wanted[0].id && rest[0].id !in wantedIds {
      RemoveFirst(kept, rest);
      WalkMatches(kept, rest[1..], wanted, wantedIds);
    } else if rest != [] && rest[0].id == wanted[0].id {
      assert rest[0] == wanted[0];
      assert (kept + [rest[0]]) + rest[1..] == kept + rest;
      assert (kept + [rest[0]]) + wanted[1..] == kept + wanted;
      WalkMatches(kept + [rest[0]], rest[1..], wanted[1..], wantedIds);
    } else {
      InsertFirst(kept, rest, wanted[0]);
      assert (kept + [wanted[0]]) + wanted[1..] == kept + wanted;
      WalkMatches(kept + [wanted[0]], rest, wanted[1..], wantedIds);
    }
  }

  /** A row and a wanted item with the same id are the same item. */
  ghost predicate IdsDetermine(s: seq<Item>, t: seq<Item>) {
    forall i, j :: 0 <= i < |s| && 0 <= j < |t| && s[i].id == t[j].id ==> s[i] == t[j]
  }

  lemma DiffArrives(shown: seq<Item>, wanted: seq<Item>)
    ensures ValidScript(shown, Diff(shown, wanted))
    ensures Ids(Replay(shown, Diff(shown, wanted))) == Ids(wanted)
    ensures IdsDetermine(shown, wanted) ==> Replay(shown, Diff(shown, wanted)) == wanted
  {
    assert [] + shown == shown && [] + wanted == wanted;
    WalkArrives([], shown, wanted, IdSet(wanted));
    if IdsDetermine(shown, wanted) {
      WalkMatches([], shown, wanted, IdSet(wanted));
    }
  }

  // ----- minimality -----

  function IndexOf(order: seq<string>, x: string): (i: nat)
    requires x in order
    ensures i < |order| && order[i] == x
  {
    if order[0] == x then 0 else 1 + IndexOf(order[1..], x)
  }

  /** The ids occur in the given order, each at most once. */
  ghost predicate InOrder(s: seq<Item>, order: seq<string>) {
    && (forall i :: 0 <= i < |s| ==> s[i].id in order)
    && (forall i, j :: 0 <= i < j < |s| ==> IndexOf(order, s[i].id) < IndexOf(order, s[j].id))
  }

  /** The items of s whose id does not occur in t. */
  function Without(s: seq<Item>, t: seq<Item>): seq<Item> {
    Filter(s, (x: Item) => x.id !in Ids(t))
  }

  lemma {:induction false} FilterSame(s: seq<Item>, p: Item -> bool, q: Item -> bool)
    requires forall x :: x in s ==> p(x) == q(x)
    ensures Filter(s, p) == Filter(s, q)
  {
    if s != [] {
      assert s[0] in s;
      FilterSame(s[1..], p, q);
    }
  }

  lemma WithoutSame(s: seq<Item>, t: seq<Item>, u: seq<Item>)
    requires forall x :: x in s ==> (x.id in Ids(t) <==> x.id in Ids(u))
    ensures Without(s, t) == Without(s, u)
  {
    FilterSame(s, (x: Item) => x.id !in Ids(t), (x: Item) => x.id !in Ids(u));
  }

  lemma IdsFirst(t: seq<Item>)
    requires t != []
    ensures Ids(t) == [t[0].id] + Ids(t[1..])
  {
  }

  /** Among the rows not passed yet, the ids still wanted are those of the items
      still to come. */
  ghost predicate Tracks(rest: seq<Item>, wanted: seq<Item>, wantedIds: set<string>) {
    forall x :: x in rest ==> (x.id in wantedIds <==> x.id in Ids(wanted))
  }

  /** Between two lists in one order, the walk removes exactly the rows whose id
      is gone and inserts exactly the items whose id is new, each once; every
      other row stays untouched. */
  lemma {:induction false} WalkExact(kept: seq<Item>, rest: seq<Item>, wanted: seq<Item>, wantedIds: set<string>,
                                     order: seq<string>)
    requires InOrder(rest, order) && InOrder(wanted, order) && Tracks(rest, wanted, wantedIds)
    ensures var ops := Walk(|kept|, rest, wanted, wantedIds);
            && ValidScript(kept + rest, ops)
            && Removed(kept + rest, ops) == Without(rest, wanted)
            && Inserted(ops) == Without(wanted, rest)
    decreases |rest| + |wanted|
  {
    hide InOrder, Tracks, Ids, Without, Apply, ValidOp;
    NothingWithout(rest);
    if wanted == [] {
      if rest == [] {
        assert kept + rest == kept;
      } else {
        GoneRow(rest, wanted, wantedIds, order);
        RemoveFirst(kept, rest);
        WalkExact(kept, rest[1..], [], wantedIds, order);
      }
    } else if rest != [] && rest[0].id != wanted[0].id && rest[0].id !in wantedIds {
      GoneRow(rest, wanted, wantedIds, order);
      RemoveFirst(kept, rest);
      WalkExact(kept, rest[1..], wanted, wantedIds, order);
    } else if rest != [] && rest[0].id == wanted[0].id {
      KeptRow(rest, wanted, wantedIds, order);
      assert (kept + [rest[0]]) + rest[1..] == kept + rest;
      WalkExact(kept + [rest[0]], rest[1..], wanted[1..], wantedIds, order);
    } else {
      NewRow(rest, wanted, wantedIds, order);
      InsertFirst(kept, rest, wanted[0]);
      WalkExact(kept + [wanted[0]], rest, wanted[1..], wantedIds, order);
    }
  }

  lemma NothingWithout(t: seq<Item>)
    ensures Without([], t) == []
  {
  }

  lemma GoneRow(rest: seq<Item>, wanted: seq<Item>, wantedIds: set<string>, order: seq<string>)
    requires rest != [] && InOrder(rest, order) && Tracks(rest, wanted, wantedIds)
    requires wanted == [] || rest[0].id !in wantedIds
    ensures InOrder(rest[1..], order) && Tracks(rest[1..], wanted, wantedIds)
    ensures Without(rest, wanted) == [rest[0]] + Without(rest[1..], wanted)
    ensures Without(wanted, rest) == Without(wanted, rest[1..])
  {
    assert rest[0] in rest;
    LaterOnly(wanted, rest);
  }

  lemma LaterIdsDiffer(s: seq<Item>, order: seq<string>)
    requires s != [] && InOrder(s, order)
    ensures s[0].id !in Ids(s[1..]) && InOrder(s[1..], order)
  {
  }

  lemma KeptRow(rest: seq<Item>, wanted: seq<Item>, wantedIds: set<string>, order: seq<string>)
    requires rest != [] && wanted != [] && rest[0].id == wanted[0].id
    requires InOrder(rest, order) && InOrder(wanted, order) && Tracks(rest, wanted, wantedIds)
    ensures InOrder(rest[1..], order) && InOrder(wanted[1..], order) && Tracks(rest[1..], wanted[1..], wantedIds)
    ensures Without(rest, wanted) == Without(rest[1..], wanted[1..])
    ensures Without(wanted, rest) == Without(wanted[1..], rest[1..])
  {
    LaterIdsDiffer(rest, order);
    LaterIdsDiffer(wanted, order);
    IdsFirst(rest);
    IdsFirst(wanted);
    LaterOnly(rest[1..], wanted);
    LaterOnly(wanted[1..], rest);
  }

  lemma LaterOnly(s: seq<Item>, t: seq<Item>)
    requires t != [] && t[0].id !in Ids(s)
    ensures forall x :: x in s ==> (x.id in Ids(t) <==> x.id in Ids(t[1..]))
    ensures Without(s, t) == Without(s, t[1..])
  {
    hide Without;
    IdsFirst(t);
    forall x | x in s ensures x.id != t[0].id {
      var i :| 0 <= i < |s| && s[i] == x;
      assert Ids(s)[i] == x.id;
    }
    WithoutSame(s, t, t[1..]);
  }

  /** An inserted item's id occurs nowhere in the remaining rows: the row it is
      put before comes later in the common order. */
  lemma NewRow(rest: seq<Item>, wanted: seq<Item>, wantedIds: set<string>, order: seq<string>)
    requires wanted != [] && InOrder(rest, order) && InOrder(wanted, order) && Tracks(rest, wanted, wantedIds)
    requires rest != [] ==> rest[0].id != wanted[0].id && rest[0].id in wantedIds
    ensures InOrder(wanted[1..], order) && Tracks(rest, wanted[1..], wantedIds)
    ensures Without(rest, wanted) == Without(rest, wanted[1..])
    ensures Without(wanted, rest) == [wanted[0]] + Without(wanted[1..], rest)
  {
    LaterIdsDiffer(wanted, order);
    if rest != [] {
      assert rest[0] in rest;
      var k :| 0 <= k < |wanted| && Ids(wanted)[k] == rest[0].id;
      assert k > 0;
      forall i | 0 <= i < |rest| ensures rest[i].id != wanted[0].id {
        assert IndexOf(order, wanted[0].id) < IndexOf(order, wanted[k].id) <= IndexOf(order, rest[i].id);
      }
    }
    LaterOnly(rest, wanted);
  }

  /** The row operations of Diff, exactly. */
  lemma DiffExact(shown: seq<Item>, wanted: seq<Item>, order: seq<string>)
    requires InOrder(shown, order) && InOrder(wanted, order)
    ensures ValidScript(shown, Diff(shown, wanted))
    ensures Removed(shown, Diff(shown, wanted)) == Without(shown, wanted)
    ensures Inserted(Diff(shown, wanted)) == Without(wanted, shown)
  {
    assert [] + shown == shown;
    SetOfIds(wanted);
    WalkExact([], shown, wanted, IdSet(wanted), order);
  }

  lemma SetOfIds(s: seq<Item>)
    ensures forall x :: x in IdSet(s) <==> x in Ids(s)
  {
    forall x ensures x in IdSet(s) <==> x in Ids(s) {
      if x in IdSet(s) {
        var i :| 0 <= i < |s| && s[i].id == x;
        assert Ids(s)[i] == x;
      }
      if x in Ids(s) {
        var i :| 0 <= i < |s| && Ids(s)[i] == x;
        assert s[i].id == x;
      }
    }
  }

  lemma {:induction false} ScriptLength(view: seq<Item>, ops: seq<RowOp>)
    requires ValidScript(view, ops)
    ensures |ops| == |Removed(view, ops)| + |Inserted(ops)|
    decreases |ops|
  {
    if ops != [] {
      ScriptLength(Apply(view, ops[0]), ops[1..]);
    }
  }

  lemma IdsAppend(s: seq<Item>, t: seq<Item>)
    ensures Ids(s + t) == Ids(s) + Ids(t)
  {
  }

  lemma ApplyBalance(view: seq<Item>, op: RowOp)
    requires ValidOp(view, op)
    ensures op.RemoveRow? ==>
              multiset(Ids(view)) == multiset(Ids(Apply(view, op))) + multiset([view[op.row].id])
    ensures op.InsertRow? ==>
              multiset(Ids(Apply(view, op))) == multiset(Ids(view)) + multiset([op.item.id])
  {
    var a, b := view[..op.row], view[op.row..];
    assert view == a + b;
    IdsAppend(a, b);
    if op.RemoveRow? {
      assert b == [b[0]] + b[1..] && view[op.row + 1..] == b[1..];
      IdsAppend([b[0]], b[1..]);
      IdsAppend(a, b[1..]);
      assert Ids([b[0]]) == [b[0].id];
    } else {
      IdsAppend(a + [op.item], b);
      IdsAppend(a, [op.item]);
      assert Ids([op.item]) == [op.item.id];
    }
  }

  /** What is shown and what was removed balance what was there and what came. */
  lemma {:induction false} Balance(view: seq<Item>, ops: seq<RowOp>)
    requires ValidScript(view, ops)
    ensures multiset(Ids(Replay(view, ops))) + multiset(Ids(Removed(view, ops)))
            == multiset(Ids(view)) + multiset(Ids(Inserted(ops)))
    decreases |ops|
  {
    if ops == [] {
      assert Ids([]) == [];
    } else {
      Balance(Apply(view, ops[0]), ops[1..]);
      BalanceStep(view, ops);
    }
  }

  lemma BalanceStep(view: seq<Item>, ops: seq<RowOp>)
    requires ops != [] && ValidScript(view, ops)
    requires var next := Apply(view, ops[0]);
             multiset(Ids(Replay(next, ops[1..]))) + multiset(Ids(Removed(next, ops[1..])))
             == multiset(Ids(next)) + multiset(Ids(Inserted(ops[1..])))
    ensures multiset(Ids(Replay(view, ops))) + multiset(Ids(Removed(view, ops)))
            == multiset(Ids(view)) + multiset(Ids(Inserted(ops)))
  {
    var op, next := ops[0], Apply(view, ops[0]);
    var removed, inserted := Removed(next, ops[1..]), Inserted(ops[1..]);
    var shown := Replay(next, ops[1..]);
    ApplyBalance(view, op);
    if op.RemoveRow? {
      var x := view[op.row];
      assert Removed(view, ops) == [x] + removed && Inserted(ops) == inserted && Replay(view, ops) == shown;
      BagFirst(x, removed);
      hide *;
      BagAlgebra(multiset(Ids(shown)), multiset(Ids(removed)), multiset(Ids(next)), multiset(Ids(inserted)),
                 multiset([x.id]));
    } else {
      assert Removed(view, ops) == removed && Inserted(ops) == [op.item] + inserted && Replay(view, ops) == shown;
      BagFirst(op.item, inserted);
    }
  }

  lemma BagAlgebra(a: multiset<string>, b: multiset<string>, c: multiset<string>, d: multiset<string>,
                   one: multiset<string>)
    requires a + b == c + d
    ensures a + (one + b) == (c + one) + d
  {
    assert a + (one + b) == (a + b) + one;
    assert (c + one) + d == (c + d) + one;
  }

  lemma BagFirst(x: Item, s: seq<Item>)
    ensures multiset(Ids([x] + s)) == multiset([x.id]) + multiset(Ids(s))
  {
    IdsFirst([x] + s);
    assert ([x] + s)[1..] == s;
  }

  /** Ids in an order do not repeat. */
  lemma {:induction false} OrderedOnce(s: seq<Item>, order: seq<string>, x: string)
    requires InOrder(s, order)
    ensures multiset(Ids(s))[x] <= 1
  {
    if s != [] {
      LaterIdsDiffer(s, order);
      OrderedOnce(s[1..], order, x);
      assert s == [s[0]] + s[1..];
      BagFirst(s[0], s[1..]);
      assert s[0].id !in multiset(Ids(s[1..]));
    }
  }

  lemma {:induction false} WithoutCounts(s: seq<Item>, t: seq<Item>, x: string)
    ensures multiset(Ids(Without(s, t)))[x] == if x in Ids(t) then 0 else multiset(Ids(s))[x]
  {
    if s != [] {
      WithoutCounts(s[1..], t, x);
      assert s == [s[0]] + s[1..];
      BagFirst(s[0], s[1..]);
      if s[0].id !in Ids(t) {
        assert Without(s, t) == [s[0]] + Without(s[1..], t);
        BagFirst(s[0], Without(s[1..], t));
      }
    }
  }

  lemma SubBagSmaller<T>(a: multiset<T>, b: multiset<T>)
    requires a <= b
    ensures |a| <= |b|
  {
    assert b == a + (b - a);
  }

  /** Any script must remove each id that is gone and insert each that is new. */
  lemma ForcedOps(shown: seq<Item>, wanted: seq<Item>, order: seq<string>, ops: seq<RowOp>, x: string)
    requires InOrder(shown, order) && InOrder(wanted, order)
    requires ValidScript(shown, ops) && Ids(Replay(shown, ops)) == Ids(wanted)
    ensures multiset(Ids(Without(shown, wanted)))[x] <= multiset(Ids(Removed(shown, ops)))[x]
    ensures multiset(Ids(Without(wanted, shown)))[x] <= multiset(Ids(Inserted(ops)))[x]
  {
    hide InOrder, Without, Removed, Inserted, Replay, ValidScript, Ids;
    OrderedOnce(shown, order, x);
    OrderedOnce(wanted, order, x);
    WithoutCounts(shown, wanted, x);
    WithoutCounts(wanted, shown, x);
    Balance(shown, ops);
    assert (multiset(Ids(wanted)) + multiset(Ids(Removed(shown, ops))))[x]
           == (multiset(Ids(shown)) + multiset(Ids(Inserted(ops))))[x];
    assert x in Ids(shown) <==> x in multiset(Ids(shown));
    assert x in Ids(wanted) <==> x in multiset(Ids(wanted));
  }

  /** No script that ends with the wanted ids has fewer operations. */
  lemma Minimal(shown: seq<Item>, wanted: seq<Item>, order: seq<string>, ops: seq<RowOp>)
    requires InOrder(shown, order) && InOrder(wanted, order)
    requires ValidScript(shown, ops) && Ids(Replay(shown, ops)) == Ids(wanted)
    ensures |Diff(shown, wanted)| <= |ops|
  {
    hide InOrder, Without, Removed, Inserted, Replay, Ids, Diff;
    DiffExact(shown, wanted, order);
    ScriptLength(shown, Diff(shown, wanted));
    ScriptLength(shown, ops);
    forall x
      ensures multiset(Ids(Without(shown, wanted)))[x] <= multiset(Ids(Removed(shown, ops)))[x]
              && multiset(Ids(Without(wanted, shown)))[x] <= multiset(Ids(Inserted(ops)))[x]
    {
      ForcedOps(shown, wanted, order, ops, x);
    }
    SubBagSmaller(multiset(Ids(Without(shown, wanted))), multiset(Ids(Removed(shown, ops))));
    SubBagSmaller(multiset(Ids(Without(wanted, shown))), multiset(Ids(Inserted(ops))));
  }
}
