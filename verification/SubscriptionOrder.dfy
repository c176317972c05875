/** The user's own order of the subscription list (`src/views/SubscriptionsView.tsx`): re-sorting a fresh server
  * list by the persisted names, and the live swap while a row is dragged. */
module SubscriptionOrder {
  import opened Optional
  import opened JsText

  /** A list row; `name` is empty when the server sent none, `rest` stands for the other columns. */
  datatype Row = Row(name: Text, rest: int)

  function Key(r: Row): Text { Trim(r.name) }

  // ---------------------------------------------------------------------
  // The insertion-ordered Map from trimmed name to row
  // ---------------------------------------------------------------------

  /** A JavaScript Map whose keys are the rows' own trimmed names, as the list of its values in insertion order. */
  type RowMap = seq<Row>

  ghost predicate Distinct(m: RowMap) {
    forall i, j :: 0 <= i < j < |m| ==> Key(m[i]) != Key(m[j])
  }

  /** Position of the row with key k, or the length. */
  function Find(m: RowMap, k: Text): (i: nat)
    ensures i <= |m| && (i < |m| ==> Key(m[i]) == k)
    ensures forall j :: 0 <= j < i ==> Key(m[j]) != k
  {
    if m == [] || Key(m[0]) == k then 0 else 1 + Find(m[1..], k)
  }

  /** `Map.set`: an existing key keeps its place. */
  function Put(m: RowMap, r: Row): RowMap {
    var i := Find(m, Key(r));
    if i < |m| then m[i := r] else m + [r]
  }

  function Drop(m: RowMap, i: nat): RowMap
    requires i < |m|
  {
    m[..i] + m[i + 1..]
  }

  // ---------------------------------------------------------------------
  // applyOrder
  // ---------------------------------------------------------------------

  function Index(rows: seq<Row>): RowMap {
    if rows == [] then []
    else
      var m, r := Index(rows[..|rows| - 1]), rows[|rows| - 1];
      if Key(r) == [] then m else Put(m, r)
  }

  /** The listed rows in the order of the names, then what is left of the map. */
  function Place(m: RowMap, order: seq<Text>): seq<Row> {
    if order == [] then m
    else
      var i := Find(m, Trim(order[0]));
      if i < |m| then [m[i]] + Place(Drop(m, i), order[1..]) else Place(m, order[1..])
  }

  function Applied(rows: seq<Row>, order: seq<Text>): seq<Row> {
    if order == [] then rows else Place(Index(rows), order)
  }

  method ApplyOrder(rows: seq<Row>, order: seq<Text>) returns (out: seq<Row>)
    ensures out == Applied(rows, order)
  {
    if |order| == 0 {
      return rows;
    }
    var indexed: RowMap := [];
    for i := 0 to |rows|
      invariant indexed == Index(rows[..i])
    {
      assert rows[..i + 1][..i] == rows[..i];
      if Key(rows[i]) != [] {
        indexed := Put(indexed, rows[i]);
      }
    }
    assert rows[..|rows|] == rows;
    out := [];
    for i := 0 to |order|
      invariant out + Place(indexed, order[i..]) == Place(Index(rows), order)
    {
      assert order[i..][1..] == order[i + 1..];
      var at := Find(indexed, Trim(order[i]));
      if at < |indexed| {
        out := out + [indexed[at]];
        indexed := Drop(indexed, at);
      }
    }
    out := out + indexed;
  }

  // ---------------------------------------------------------------------
  // What the result is
  // ---------------------------------------------------------------------

  /** Names the list can be keyed by: no two alike and none blank after trimming. */
  ghost predicate Keyed(rows: seq<Row>) {
    Distinct(rows) && forall i :: 0 <= i < |rows| ==> Key(rows[i]) != []
  }

  /** Position of a key among the persisted names, or their number. */
  function Rank(order: seq<Text>, k: Text): (n: nat)
    ensures n <= |order|
  {
    if order == [] || Trim(order[0]) == k then 0 else 1 + Rank(order[1..], k)
  }

  ghost predicate SortedByRank(rows: seq<Row>, order: seq<Text>) {
    forall i, j :: 0 <= i < j < |rows| ==> Rank(order, Key(rows[i])) <= Rank(order, Key(rows[j]))
  }

  function Keep(rows: seq<Row>, p: Row -> bool): seq<Row> {
    if rows == [] then []
    else if p(rows[0]) then [rows[0]] + Keep(rows[1..], p)
    else Keep(rows[1..], p)
  }

  function NotIn(order: seq<Text>): Row -> bool {
    r => Rank(order, Key(r)) == |order|
  }

  /** The rows the user never ordered, in the order they come. */
  function Unlisted(rows: seq<Row>, order: seq<Text>): seq<Row> { Keep(rows, NotIn(order)) }

  lemma DropFacts(m: RowMap, i: nat)
    requires i < |m| && Distinct(m)
    ensures Distinct(Drop(m, i)) && |Drop(m, i)| == |m| - 1
    ensures multiset(m) == multiset([m[i]]) + multiset(Drop(m, i))
    ensures forall j :: 0 <= j < |Drop(m, i)| ==> Key(Drop(m, i)[j]) != Key(m[i])
  {
    assert m == m[..i] + [m[i]] + m[i + 1..];
  }

  /** Placing keeps every row of the map. */
  lemma {:induction false} PlacePermutes(m: RowMap, order: seq<Text>)
    requires Distinct(m)
    ensures multiset(Place(m, order)) == multiset(m)
  {
    if order != [] {
      var i := Find(m, Trim(order[0]));
      if i < |m| {
        DropFacts(m, i);
        PlacePermutes(Drop(m, i), order[1..]);
      } else {
        PlacePermutes(m, order[1..]);
      }
    }
  }

  lemma SameRows(a: seq<Row>, b: seq<Row>, i: nat)
    requires multiset(a) == multiset(b) && i < |a|
    ensures a[i] in b
  {
    assert a[i] in multiset(a);
  }

  lemma SortedShift(rows: seq<Row>, order: seq<Text>)
    requires order != [] && SortedByRank(rows, order[1..])
    requires forall j :: 0 <= j < |rows| ==> Key(rows[j]) != Trim(order[0])
    ensures SortedByRank(rows, order)
  {
    forall i, j | 0 <= i < j < |rows| ensures Rank(order, Key(rows[i])) <= Rank(order, Key(rows[j])) {
      assert Rank(order[1..], Key(rows[i])) <= Rank(order[1..], Key(rows[j]));
    }
  }

  lemma SortedCons(r: Row, tail: seq<Row>, order: seq<Text>)
    requires Rank(order, Key(r)) == 0 && SortedByRank(tail, order)
    ensures SortedByRank([r] + tail, order)
  {
    var all := [r] + tail;
    forall i, j | 0 <= i < j < |all| ensures Rank(order, Key(all[i])) <= Rank(order, Key(all[j])) {
      assert i > 0 ==> all[i] == tail[i - 1] && all[j] == tail[j - 1];
    }
  }

  /** After the first name is dealt with, no row left has it. */
  lemma PlaceTail(m: RowMap, order: seq<Text>) returns (m': RowMap, tail: seq<Row>)
    requires Distinct(m) && order != []
    ensures var i := Find(m, Trim(order[0]));
            && m' == (if i < |m| then Drop(m, i) else m) && tail == Place(m', order[1..])
            && Place(m, order) == if i < |m| then [m[i]] + tail else tail
    ensures Distinct(m')
    ensures forall j :: 0 <= j < |tail| ==> Key(tail[j]) != Trim(order[0])
    ensures forall j :: 0 <= j < |m'| ==> Key(m'[j]) != Trim(order[0])
  {
    var i := Find(m, Trim(order[0]));
    m' := if i < |m| then Drop(m, i) else m;
    tail := Place(m', order[1..]);
    if i < |m| { DropFacts(m, i); }
    PlacePermutes(m', order[1..]);
    forall j | 0 <= j < |tail| ensures Key(tail[j]) != Trim(order[0]) {
      SameRows(tail, m', j);
    }
  }

  lemma {:induction false} PlaceSorts(m: RowMap, order: seq<Text>)
    requires Distinct(m)
    ensures SortedByRank(Place(m, order), order)
  {
    if order == [] {
    } else {
      var m', tail := PlaceTail(m, order);
      PlaceSorts(m', order[1..]);
      SortedShift(tail, order);
      var i := Find(m, Trim(order[0]));
      if i < |m| {
        SortedCons(m[i], tail, order);
      }
    }
  }

  lemma {:induction false} KeepSame(rows: seq<Row>, p: Row -> bool, q: Row -> bool)
    requires forall j :: 0 <= j < |rows| ==> p(rows[j]) == q(rows[j])
    ensures Keep(rows, p) == Keep(rows, q)
  {
    if rows != [] {
      KeepSame(rows[1..], p, q);
    }
  }

  lemma {:induction false} KeepDrop(m: RowMap, i: nat, p: Row -> bool)
    requires i < |m| && !p(m[i])
    ensures Keep(Drop(m, i), p) == Keep(m, p)
  {
    if i == 0 {
      assert Drop(m, 0) == m[1..];
    } else {
      KeepDrop(m[1..], i - 1, p);
      assert Drop(m, i)[1..] == Drop(m[1..], i - 1);
    }
  }

  lemma UnlistedShift(rows: seq<Row>, order: seq<Text>)
    requires order != [] && forall j :: 0 <= j < |rows| ==> Key(rows[j]) != Trim(order[0])
    ensures Unlisted(rows, order) == Unlisted(rows, order[1..])
  {
    KeepSame(rows, NotIn(order), NotIn(order[1..]));
  }

  lemma {:induction false} PlaceKeepsUnlisted(m: RowMap, order: seq<Text>)
    requires Distinct(m)
    ensures Unlisted(Place(m, order), order) == Unlisted(m, order)
  {
    if order != [] {
      var m', tail := PlaceTail(m, order);
      PlaceKeepsUnlisted(m', order[1..]);
      UnlistedShift(tail, order);
      UnlistedShift(m', order);
      var i := Find(m, Trim(order[0]));
      if i < |m| {
        KeepDrop(m, i, NotIn(order));
        assert ([m[i]] + tail)[1..] == tail;
      }
    }
  }

  // ---------------------------------------------------------------------
  // The map built from a list
  // ---------------------------------------------------------------------

  lemma PutFacts(m: RowMap, r: Row)
    requires Keyed(m) && Key(r) != []
    ensures Keyed(Put(m, r))
    ensures |Put(m, r)| == |m| + if Find(m, Key(r)) < |m| then 0 else 1
  {}

  lemma {:induction false} IndexKeyed(rows: seq<Row>)
    ensures Keyed(Index(rows)) && |Index(rows)| <= |rows|
  {
    if rows != [] {
      IndexKeyed(rows[..|rows| - 1]);
      if Key(rows[|rows| - 1]) != [] {
        PutFacts(Index(rows[..|rows| - 1]), rows[|rows| - 1]);
      }
    }
  }

  lemma KeyedSnoc(front: seq<Row>, r: Row)
    ensures Keyed(front + [r]) <==> Keyed(front) && Key(r) != [] && Find(front, Key(r)) == |front|
  {
    var rows := front + [r];
    if Keyed(rows) {
      assert forall i :: 0 <= i < |front| ==> rows[i] == front[i];
      assert Key(rows[|front|]) != [];
    }
  }

  ghost predicate Exact(rows: seq<Row>, m: RowMap) {
    if Keyed(rows) then m == rows else |m| < |rows|
  }

  lemma ExactStep(front: seq<Row>, r: Row, m: RowMap)
    requires Exact(front, m) && Keyed(m)
    ensures Exact(front + [r], if Key(r) == [] then m else Put(m, r))
  {
    KeyedSnoc(front, r);
    if Key(r) != [] {
      PutFacts(m, r);
    }
  }

  lemma IndexSnoc(front: seq<Row>, r: Row)
    ensures Index(front + [r]) == if Key(r) == [] then Index(front) else Put(Index(front), r)
  {
    assert (front + [r])[..|front|] == front;
  }

  lemma ExactSnoc(front: seq<Row>, r: Row)
    requires Exact(front, Index(front))
    ensures Exact(front + [r], Index(front + [r]))
  {
    IndexKeyed(front);
    IndexSnoc(front, r);
    ExactStep(front, r, Index(front));
  }

  /** The map holds the whole list exactly when the list is keyed; otherwise it is shorter. */
  lemma {:induction false} IndexExact(rows: seq<Row>)
    ensures Exact(rows, Index(rows))
  {
    if rows != [] {
      var front, r := rows[..|rows| - 1], rows[|rows| - 1];
      assert front + [r] == rows;
      IndexExact(front);
      ExactSnoc(front, r);
    }
  }

  // ---------------------------------------------------------------------
  // Main results
  // ---------------------------------------------------------------------

  /** For a keyed list the result is a permutation: listed names first, in the user's order; then the rest, in
    * server order. */
  lemma AppliedIsOrdered(rows: seq<Row>, order: seq<Text>)
    requires Keyed(rows)
    ensures multiset(Applied(rows, order)) == multiset(rows)
    ensures SortedByRank(Applied(rows, order), order)
    ensures Unlisted(Applied(rows, order), order) == Unlisted(rows, order)
  {
    IndexExact(rows);
    PlacePermutes(rows, order);
    PlaceSorts(rows, order);
    PlaceKeepsUnlisted(rows, order);
  }

  /** No row is lost if and only if there is no order to apply or the list is keyed: a blank or repeated name
    * makes the list shorter. */
  lemma NothingLostExactly(rows: seq<Row>, order: seq<Text>)
    ensures multiset(Applied(rows, order)) == multiset(rows) <==> order == [] || Keyed(rows)
  {
    if order != [] {
      IndexExact(rows);
      IndexKeyed(rows);
      PlacePermutes(Index(rows), order);
      assert |multiset(Applied(rows, order))| == |multiset(Index(rows))| == |Index(rows)|;
      assert |multiset(rows)| == |rows|;
    }
  }

  /** The last row of a list with key k. */
  function LastWith(rows: seq<Row>, k: Text): Option<Row> {
    if rows == [] then None
    else if Key(rows[|rows| - 1]) == k then Some(rows[|rows| - 1])
    else LastWith(rows[..|rows| - 1], k)
  }

  /** The map holds row r under key k. */
  ghost predicate MapsTo(m: RowMap, k: Text, r: Option<Row>) {
    if r.None? then Find(m, k) == |m| else Find(m, k) < |m| && m[Find(m, k)] == r.value
  }

  lemma PutMapsTo(m: RowMap, r: Row, k: Text, was: Option<Row>)
    requires Keyed(m) && Key(r) != [] && MapsTo(m, k, was)
    ensures MapsTo(Put(m, r), k, if Key(r) == k then Some(r) else was)
  {
    var i, j := Find(m, Key(r)), Find(m, k);
    var p := Put(m, r);
    PutFacts(m, r);
    if Key(r) == k {
      FoundAt(p, i);
    } else if j < |m| {
      assert p[j] == m[j];
      FoundAt(p, j);
    }
  }

  /** Of rows with the same trimmed name the last is kept. */
  lemma {:induction false} IndexKeepsLast(rows: seq<Row>, k: Text)
    requires k != []
    ensures MapsTo(Index(rows), k, LastWith(rows, k))
  {
    if rows != [] {
      var front, r := rows[..|rows| - 1], rows[|rows| - 1];
      IndexKeepsLast(front, k);
      IndexKeyed(front);
      if Key(r) != [] {
        PutMapsTo(Index(front), r, k, LastWith(front, k));
      }
    }
  }

  /** Any list at all, once there is an order: the rows shown are, for each name that is not blank, the last row with
    * that name, and they are sorted by the user's order. */
  lemma AppliedOnAnyList(rows: seq<Row>, order: seq<Text>, r: Row)
    requires order != []
    ensures r in Applied(rows, order) <==> Key(r) != [] && LastWith(rows, Key(r)) == Some(r)
    ensures SortedByRank(Applied(rows, order), order) && Keyed(Applied(rows, order))
  {
    var m := Index(rows);
    IndexKeyed(rows);
    PlaceSorts(m, order);
    PlaceKeyed(m, order);
    PlacePermutes(m, order);
    assert r in Applied(rows, order) <==> r in multiset(m);
    if Key(r) != [] {
      IndexKeepsLast(rows, Key(r));
      if i :| 0 <= i < |m| && m[i] == r {
        FoundAt(m, i);
      }
    }
  }

  lemma {:induction false} PlaceIdempotent(m: RowMap, order: seq<Text>)
    requires Distinct(m)
    ensures Place(Place(m, order), order) == Place(m, order)
  {
    if order != [] {
      var i := Find(m, Trim(order[0]));
      if i < |m| {
        DropFacts(m, i);
        PlaceIdempotent(Drop(m, i), order[1..]);
        var tail := Place(Drop(m, i), order[1..]);
        assert Drop([m[i]] + tail, 0) == tail;
      } else {
        PlaceIdempotent(m, order[1..]);
        PlacePermutes(m, order[1..]);
        var r := Place(m, order[1..]);
        var j := Find(r, Trim(order[0]));
        if j < |r| {
          SameRows(r, m, j);
        }
      }
    }
  }

  /** Sorting a sorted list again changes nothing, keyed or not. */
  lemma AppliedIdempotent(rows: seq<Row>, order: seq<Text>)
    ensures Applied(Applied(rows, order), order) == Applied(rows, order)
  {
    if order != [] {
      IndexKeyed(rows);
      var r := Applied(rows, order);
      PlaceIdempotent(Index(rows), order);
      PlacePermutes(Index(rows), order);
      PlaceKeyed(Index(rows), order);
      IndexExact(r);
    }
  }

  lemma KeyedCons(r: Row, tail: seq<Row>)
    requires Keyed(tail) && Key(r) != [] && forall j :: 0 <= j < |tail| ==> Key(tail[j]) != Key(r)
    ensures Keyed([r] + tail)
  {}

  lemma KeyedDrop(m: RowMap, i: nat)
    requires Keyed(m) && i < |m|
    ensures Keyed(Drop(m, i))
  {}

  lemma {:induction false} PlaceKeyed(m: RowMap, order: seq<Text>)
    requires Keyed(m)
    ensures Keyed(Place(m, order))
  {
    if order != [] {
      var i := Find(m, Trim(order[0]));
      if i < |m| {
        var m' := Drop(m, i);
        KeyedDrop(m, i);
        PlaceKeyed(m', order[1..]);
        var tail := Place(m', order[1..]);
        forall j | 0 <= j < |tail| ensures Key(tail[j]) != Key(m[i]) {
          PlacePermutes(m', order[1..]);
          SameRows(tail, m', j);
          DropFacts(m, i);
        }
        KeyedCons(m[i], tail);
      } else {
        PlaceKeyed(m, order[1..]);
      }
    }
  }

  // ---------------------------------------------------------------------
  // Dragging
  // ---------------------------------------------------------------------

  function Names(rows: seq<Row>): (r: seq<Text>)
    ensures |r| == |rows|
  {
    if rows == [] then [] else [rows[0].name] + Names(rows[1..])
  }

  /** The list with the row at `from` moved to `at`. */
  function Moved(rows: seq<Row>, from: nat, at: nat): seq<Row>
    requires from < |rows| && at < |rows|
  {
    var without := Drop(rows, from);
    without[..at] + [rows[from]] + without[at..]
  }

  /** Only that row moves: it lands at `at`, the others keep their order, and nothing is lost. */
  lemma MovedFacts(rows: seq<Row>, from: nat, at: nat)
    requires from < |rows| && at < |rows|
    ensures var next := Moved(rows, from, at);
            && |next| == |rows| && next[at] == rows[from] && Drop(next, at) == Drop(rows, from)
            && multiset(next) == multiset(rows)
  {
    var without, row, next := Drop(rows, from), rows[from], Moved(rows, from, at);
    assert rows == rows[..from] + [row] + rows[from + 1..];
    assert next[..at] == without[..at] && next[at + 1..] == without[at..];
    assert without == without[..at] + without[at..];
    assert multiset(next) == multiset(without) + multiset([row]);
  }

  /** The state setter of `onPointerEnterRow`: take the dragged row out and put it back at the hovered place. When
    * it does, `order` is the list of names that is persisted. */
  method Hover(rows: seq<Row>, from: int, to: nat) returns (next: seq<Row>, order: seq<Text>, moved: bool)
    ensures moved <==> 0 <= from < |rows| && from != to
    ensures !moved ==> next == rows
    ensures moved ==> next == Moved(rows, from, if to < |rows| then to else |rows| - 1) && order == Names(next)
    ensures multiset(next) == multiset(rows)
  {
    if from < 0 || from == to || from >= |rows| {
      return rows, [], false;
    }
    var without := rows[..from] + rows[from + 1..];
    var at := if to < |without| then to else |without|;
    MovedFacts(rows, from, at);
    next := without[..at] + [rows[from]] + without[at..];
    return next, Names(next), true;
  }

  /** Re-sorting any permutation of the dragged rows by the persisted names gives the dragged list back. */
  lemma {:induction false} DragReproduced(rows: seq<Row>, dragged: seq<Row>)
    requires Keyed(rows) && multiset(rows) == multiset(dragged)
    ensures Applied(rows, Names(dragged)) == dragged
  {
    IndexExact(rows);
    if dragged == [] {
      assert |multiset(rows)| == 0;
    } else {
      PlaceReproduces(rows, dragged);
    }
  }

  lemma FoundAt(m: RowMap, i: nat)
    requires Distinct(m) && i < |m|
    ensures Find(m, Key(m[i])) == i
  {}

  lemma RestMatches(m: RowMap, i: nat, dragged: seq<Row>)
    requires Distinct(m) && i < |m| && dragged != [] && m[i] == dragged[0] && multiset(m) == multiset(dragged)
    ensures multiset(Drop(m, i)) == multiset(dragged[1..])
  {
    DropFacts(m, i);
    assert dragged == [dragged[0]] + dragged[1..];
    assert multiset(dragged) == multiset([dragged[0]]) + multiset(dragged[1..]);
    assert multiset(Drop(m, i)) == multiset(m) - multiset([m[i]]);
  }

  /** The first dragged row is found in the map, and what is left matches what is left. */
  lemma FirstRowFound(m: RowMap, dragged: seq<Row>) returns (i: nat)
    requires Distinct(m) && multiset(m) == multiset(dragged) && dragged != []
    ensures i == Find(m, Key(dragged[0])) < |m| && m[i] == dragged[0]
    ensures Distinct(Drop(m, i)) && multiset(Drop(m, i)) == multiset(dragged[1..])
  {
    SameRows(dragged, m, 0);
    i :| 0 <= i < |m| && m[i] == dragged[0];
    FoundAt(m, i);
    DropFacts(m, i);
    RestMatches(m, i, dragged);
  }

  lemma {:induction false} PlaceReproduces(m: RowMap, dragged: seq<Row>)
    requires Distinct(m) && multiset(m) == multiset(dragged)
    ensures Place(m, Names(dragged)) == dragged
  {
    if dragged == [] {
      assert |multiset(m)| == 0;
    } else {
      var i := FirstRowFound(m, dragged);
      PlaceReproduces(Drop(m, i), dragged[1..]);
      assert Names(dragged)[1..] == Names(dragged[1..]);
    }
  }

  /** Where the dragged row is: the source's own index, which can run past the end of the list. */
  function PlaceOf(src: nat, n: nat): nat
    requires n > 0
  {
    if src < n then src else n - 1
  }

  /** Apart from the row that started at `grabbed`, now at src, nothing has moved. */
  ghost predicate OnlyMoved(rows: seq<Row>, grabbed: nat, live: seq<Row>, src: nat) {
    && |live| == |rows|
    && (grabbed < |rows| ==>
          var at := PlaceOf(src, |rows|);
          live[at] == rows[grabbed] && Drop(live, at) == Drop(rows, grabbed))
  }

  lemma HoverMovesOne(rows: seq<Row>, grabbed: nat, live: seq<Row>, src: nat, to: nat)
    requires OnlyMoved(rows, grabbed, live, src) && src < |live| && grabbed < |rows|
    ensures OnlyMoved(rows, grabbed, Moved(live, src, PlaceOf(to, |live|)), to)
  {
    MovedFacts(live, src, PlaceOf(to, |live|));
  }

  /** A whole drag: the row grabbed at `grabbed` enters the rows of `hovers` one after the other. Whatever the path,
    * nothing is lost, only the grabbed row moves, it ends where it was hovered last, and re-sorting any later server
    * list of the same rows by the names persisted last gives the list the user saw last. */
  method Drag(rows: seq<Row>, grabbed: nat, hovers: seq<nat>)
    returns (live: seq<Row>, persisted: Option<seq<Text>>, src: nat)
    ensures multiset(live) == multiset(rows)
    ensures OnlyMoved(rows, grabbed, live, src)
    ensures grabbed < |rows| && (forall i :: 0 <= i < |hovers| ==> hovers[i] < |rows|) ==>
              src == if hovers == [] then grabbed else hovers[|hovers| - 1]
    ensures persisted.None? ==> live == rows
    ensures persisted.Some? ==>
              forall fetched :: Keyed(fetched) && multiset(fetched) == multiset(rows) ==>
                Applied(fetched, persisted.value) == live
  {
    live, persisted := rows, None;
    src := grabbed;
    for i := 0 to |hovers|
      invariant multiset(live) == multiset(rows)
      invariant OnlyMoved(rows, grabbed, live, src) && (grabbed >= |rows| ==> src == grabbed)
      invariant grabbed < |rows| && (forall j :: 0 <= j < i ==> hovers[j] < |rows|) ==>
                  src == if i == 0 then grabbed else hovers[i - 1]
      invariant if persisted.None? then live == rows else persisted.value == Names(live)
    {
      var next, order, moved := Hover(live, src, hovers[i]);
      if moved {
        HoverMovesOne(rows, grabbed, live, src, hovers[i]);
        live, persisted, src := next, Some(order), hovers[i];
      }
    }
    forall fetched | Keyed(fetched) && multiset(fetched) == multiset(live)
      ensures Applied(fetched, Names(live)) == live
    { DragReproduced(fetched, live); }
  }
}
