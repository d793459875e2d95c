/**
  The lookup tables an administrator keeps in order: every row carries a sort key, and moving a row swaps two keys.
  Seen through its listing, such a table is a plain list: created rows go to the end, moves swap neighbours.
*/
module OrderedTable {
  import opened Positions
  import opened Tables

  datatype Element = Element(id: ElementId, order: int, name: string, active: bool)

  datatype Direction = Up | Down

  // ---- the listing --------------------------------------------------------------------------

  /** ORDER BY "order", id */
  predicate Before(a: Element, b: Element) {
    a.order < b.order || (a.order == b.order && a.id < b.id)
  }

  function Insert(sorted: seq<Element>, e: Element): seq<Element> {
    if sorted == [] || !Before(e, sorted[|sorted| - 1]) then sorted + [e]
    else Insert(sorted[..|sorted| - 1], e) + [sorted[|sorted| - 1]]
  }

  function Listing(rows: seq<Element>): seq<Element> {
    if rows == [] then [] else Insert(Listing(rows[..|rows| - 1]), rows[|rows| - 1])
  }

  function IdsOf(rows: seq<Element>): (ids: seq<ElementId>)
    ensures |ids| == |rows|
    ensures forall i :: 0 <= i < |rows| ==> ids[i] == rows[i].id
  {
    seq(|rows|, i requires 0 <= i < |rows| => rows[i].id)
  }

  /** max("order"); None on the empty table. */
  function MaxOrder(rows: seq<Element>): Option<int> {
    if rows == [] then None
    else
      var (before, last) := (MaxOrder(rows[..|rows| - 1]), rows[|rows| - 1].order);
      if before.Some? && before.value >= last then before else Some(last)
  }

  function NextOrder(rows: seq<Element>): int {
    match MaxOrder(rows)
    case Some(max) => max + 1
    case None => 1
  }

  /** UPDATE ... SET "order" = .. WHERE id = .. */
  function WithOrder(rows: seq<Element>, id: ElementId, order: int): (r: seq<Element>)
    ensures |r| == |rows|
    ensures forall i :: 0 <= i < |rows| ==> r[i] == if rows[i].id == id then rows[i].(order := order) else rows[i]
  {
    seq(|rows|, i requires 0 <= i < |rows| => if rows[i].id == id then rows[i].(order := order) else rows[i])
  }

  /** UPDATE ... SET name = .., active = .. WHERE id = ..; an update never touches the order. */
  function Renamed(rows: seq<Element>, id: ElementId, name: string, active: Option<bool>): (r: seq<Element>)
    ensures |r| == |rows|
    ensures forall i :: 0 <= i < |rows| ==>
              var flag := if active.Some? then active.value else rows[i].active;
              r[i] == if rows[i].id == id then rows[i].(name := name, active := flag) else rows[i]
  {
    seq(|rows|, i requires 0 <= i < |rows| =>
      var flag := if active.Some? then active.value else rows[i].active;
      if rows[i].id == id then rows[i].(name := name, active := flag) else rows[i])
  }

  function Deleted(rows: seq<Element>, id: ElementId): seq<Element> {
    if rows == [] then []
    else Deleted(rows[..|rows| - 1], id) + (if rows[|rows| - 1].id == id then [] else [rows[|rows| - 1]])
  }

  function Created(rows: seq<Element>, id: ElementId, name: string, active: Option<bool>): seq<Element> {
    rows + [Element(id, NextOrder(rows), name, active.None? || active.value)]
  }

  /** The index a move goes to, if it is one of the list. */
  function Neighbor(index: nat, direction: Direction): int {
    if direction == Up then index - 1 else index + 1
  }

  /** A move writes only the two rows affected; at either end it does nothing. */
  function Moved(rows: seq<Element>, id: ElementId, direction: Direction): seq<Element> {
    var items := Listing(rows);
    if id !in IdsOf(items) then rows
    else
      var index := IndexOf(IdsOf(items), id);
      var neighbor := Neighbor(index, direction);
      if !(0 <= neighbor < |items|) then rows
      else WithOrder(WithOrder(rows, id, items[neighbor].order), items[neighbor].id, items[index].order)
  }

  datatype Outcome = Done | NotFound | Invalid | InUse

  class CoreelementTable {
    var rows: seq<Element>

    constructor ()
      ensures rows == []
    {
      rows := [];
    }

    /** valid: the outcome of the field checks, which do not concern the order. */
    method CreateCoreelement(id: ElementId, name: string, active: Option<bool>, valid: bool) returns (outcome: Outcome)
      modifies this
      ensures outcome == if valid then Done else Invalid
      ensures rows == if valid then Created(old(rows), id, name, active) else old(rows)
    {
      if !valid {
        return Invalid;
      }
      var existingMax := MaxOrder(rows);
      var base := if existingMax.Some? then existingMax.value else 0;
      rows := rows + [Element(id, base + 1, name, if active.None? then true else active.value)];
      outcome := Done;
    }

    method UpdateCoreelement(id: ElementId, name: string, active: Option<bool>, valid: bool) returns (outcome: Outcome)
      modifies this
      ensures outcome == if id !in IdsOf(old(rows)) then NotFound else if valid then Done else Invalid
      ensures rows == if outcome == Done then Renamed(old(rows), id, name, active) else old(rows)
    {
      if id !in IdsOf(rows) {
        return NotFound;
      }
      if !valid {
        return Invalid;
      }
      rows := Renamed(rows, id, name, active);
      outcome := Done;
    }

    method DeleteCoreelement(id: ElementId, inUse: bool) returns (outcome: Outcome)
      modifies this
      ensures outcome == if id !in IdsOf(old(rows)) then NotFound else if inUse then InUse else Done
      ensures rows == if outcome == Done then Deleted(old(rows), id) else old(rows)
    {
      if id !in IdsOf(rows) {
        return NotFound;
      }
      if inUse {
        return InUse;
      }
      rows := Deleted(rows, id);
      outcome := Done;
    }

    static method IndexWithId(items: seq<Element>, id: ElementId) returns (index: nat)
      ensures index <= |items| && (index < |items| ==> items[index].id == id)
      ensures forall i :: 0 <= i < index ==> items[i].id != id
    {
      index := 0;
      while index < |items| && items[index].id != id
        invariant 0 <= index <= |items|
        invariant forall i :: 0 <= i < index ==> items[i].id != id
      {
        index := index + 1;
      }
    }

    method MoveCoreelement(id: ElementId, direction: Direction) returns (outcome: Outcome)
      modifies this
      ensures outcome == if id in IdsOf(Listing(old(rows))) then Done else NotFound
      ensures rows == Moved(old(rows), id, direction)
    {
      var items := Listing(rows);
      var index: int := IndexWithId(items, id);
      if index == |items| {
        return NotFound;
      }
      assert IdsOf(items)[index] == id && index == IndexOf(IdsOf(items), id);
      outcome := Done;
      var neighborIndex: int := if direction == Up then index - 1 else index + 1;
      if !(0 <= neighborIndex < |items|) {
        return;
      }
      var current, neighbor := items[index], items[neighborIndex];
      rows := WithOrder(rows, current.id, neighbor.order);
      rows := WithOrder(rows, neighbor.id, current.order);
    }
  }

  // ---- distinct keys make the listing determine itself --------------------------------------

  /** Ids are keys; and so are the sort keys. */
  ghost predicate Distinct(rows: seq<Element>) {
    forall i, j :: 0 <= i < j < |rows| ==> rows[i].id != rows[j].id && rows[i].order != rows[j].order
  }

  predicate Increasing(rows: seq<Element>) {
    |rows| < 2 || (rows[|rows| - 2].order < rows[|rows| - 1].order && Increasing(rows[..|rows| - 1]))
  }

  ghost predicate SameElements(a: seq<Element>, b: seq<Element>) {
    forall e :: e in a <==> e in b
  }

  lemma {:induction false} InsertIncreasing(sorted: seq<Element>, e: Element)
    requires Increasing(sorted) && forall x :: x in sorted ==> x.order != e.order
    ensures Increasing(Insert(sorted, e)) && Insert(sorted, e) != []
    ensures var last := Insert(sorted, e)[|Insert(sorted, e)| - 1];
            last == e || (sorted != [] && last == sorted[|sorted| - 1])
  {
    if sorted == [] {
    } else if !Before(e, sorted[|sorted| - 1]) {
      assert (sorted + [e])[..|sorted|] == sorted;
    } else {
      var init, last := sorted[..|sorted| - 1], sorted[|sorted| - 1];
      InsertIncreasing(init, e);
      var inserted := Insert(init, e);
      assert (inserted + [last])[..|inserted|] == inserted;
    }
  }

  lemma {:induction false} InsertMembers(sorted: seq<Element>, e: Element, x: Element)
    ensures x in Insert(sorted, e) <==> x in sorted || x == e
  {
    if sorted != [] && Before(e, sorted[|sorted| - 1]) {
      assert sorted == sorted[..|sorted| - 1] + [sorted[|sorted| - 1]];
      InsertMembers(sorted[..|sorted| - 1], e, x);
    }
  }

  lemma {:induction false} ListingMembers(rows: seq<Element>, x: Element)
    ensures x in Listing(rows) <==> x in rows
  {
    if rows != [] {
      assert rows == rows[..|rows| - 1] + [rows[|rows| - 1]];
      ListingMembers(rows[..|rows| - 1], x);
      InsertMembers(Listing(rows[..|rows| - 1]), rows[|rows| - 1], x);
    }
  }

  lemma {:induction false} ListingIncreasing(rows: seq<Element>)
    requires Distinct(rows)
    ensures Increasing(Listing(rows)) && SameElements(Listing(rows), rows)
  {
    if rows != [] {
      var init, last := rows[..|rows| - 1], rows[|rows| - 1];
      ListingIncreasing(init);
      forall x | x in Listing(init) ensures x.order != last.order {
        var i :| 0 <= i < |init| && init[i] == x;
      }
      InsertIncreasing(Listing(init), last);
    }
    forall x ensures x in Listing(rows) <==> x in rows {
      ListingMembers(rows, x);
    }
  }

  lemma {:induction false} IncreasingBelow(rows: seq<Element>, i: nat, j: nat)
    requires Increasing(rows) && i < j < |rows|
    ensures rows[i].order < rows[j].order
  {
    if j < |rows| - 1 {
      IncreasingBelow(rows[..|rows| - 1], i, j);
    } else if i < j - 1 {
      IncreasingBelow(rows[..|rows| - 1], i, j - 1);
    }
  }

  lemma {:induction false} IncreasingTop(rows: seq<Element>, e: Element)
    requires Increasing(rows) && e in rows
    ensures e == rows[|rows| - 1] || e.order < rows[|rows| - 1].order
  {
    var i :| 0 <= i < |rows| && rows[i] == e;
    if i < |rows| - 1 {
      IncreasingBelow(rows, i, |rows| - 1);
    }
  }

  lemma {:induction false} InitElements(rows: seq<Element>, e: Element)
    requires Increasing(rows) && rows != []
    ensures e in rows[..|rows| - 1] <==> e in rows && e != rows[|rows| - 1]
  {
    var init, last := rows[..|rows| - 1], rows[|rows| - 1];
    assert rows == init + [last];
    if last in init {
      var i :| 0 <= i < |init| && init[i] == last;
      IncreasingBelow(rows, i, |rows| - 1);
    }
  }

  lemma {:induction false} SameNonempty(a: seq<Element>, b: seq<Element>)
    requires SameElements(a, b)
    ensures a == [] ==> b == []
  {
    if b != [] {
      assert b[0] in b;
      assert b[0] in a;
    }
  }

  lemma {:induction false} SameInit(a: seq<Element>, b: seq<Element>)
    requires Increasing(a) && Increasing(b) && SameElements(a, b) && a != [] && b != []
    ensures a[|a| - 1] == b[|b| - 1] && SameElements(a[..|a| - 1], b[..|b| - 1])
  {
    var init, init' := a[..|a| - 1], b[..|b| - 1];
    assert a[|a| - 1] in b && b[|b| - 1] in a;
    IncreasingTop(a, b[|b| - 1]);
    IncreasingTop(b, a[|a| - 1]);
    forall e ensures e in init <==> e in init' {
      InitElements(a, e);
      InitElements(b, e);
    }
  }

  /** There is only one way to list the same rows by increasing keys. */
  lemma {:induction false} IncreasingUnique(a: seq<Element>, b: seq<Element>)
    requires Increasing(a) && Increasing(b) && SameElements(a, b)
    ensures a == b
  {
    SameNonempty(a, b);
    SameNonempty(b, a);
    if a != [] {
      SameInit(a, b);
      IncreasingUnique(a[..|a| - 1], b[..|b| - 1]);
      assert a == a[..|a| - 1] + [a[|a| - 1]] && b == b[..|b| - 1] + [b[|b| - 1]];
    }
  }

  lemma {:induction false} ListingIs(rows: seq<Element>, list: seq<Element>)
    requires Distinct(rows) && Increasing(list) && SameElements(list, rows)
    ensures Listing(rows) == list
  {
    ListingIncreasing(rows);
    IncreasingUnique(Listing(rows), list);
  }

  lemma {:induction false} SameOrders(a: seq<Element>, b: seq<Element>)
    requires Increasing(a) && |a| == |b| && forall i :: 0 <= i < |a| ==> a[i].order == b[i].order
    ensures Increasing(b)
  {
    if |a| >= 2 {
      SameOrders(a[..|a| - 1], b[..|b| - 1]);
    }
  }

  lemma {:induction false} IncreasingDistinct(rows: seq<Element>, list: seq<Element>)
    requires Distinct(rows) && list == Listing(rows)
    ensures Distinct(list)
  {
    ListingIncreasing(rows);
    forall i, j | 0 <= i < j < |list| ensures list[i].id != list[j].id && list[i].order != list[j].order {
      IncreasingBelow(list, i, j);
      assert list[i] in rows && list[j] in rows;
      var a :| 0 <= a < |rows| && rows[a] == list[i];
      var b :| 0 <= b < |rows| && rows[b] == list[j];
      assert a < b || b < a;
    }
  }

  // ---- creating, updating and deleting ------------------------------------------------------

  lemma {:induction false} MaxOrderAbove(rows: seq<Element>, i: nat)
    requires i < |rows|
    ensures MaxOrder(rows).Some? && rows[i].order <= MaxOrder(rows).value
  {
    if i < |rows| - 1 {
      MaxOrderAbove(rows[..|rows| - 1], i);
    }
  }

  /** A created row goes to the end of the listing. */
  lemma {:induction false} CreateAppends(rows: seq<Element>, id: ElementId, name: string, active: Option<bool>)
    requires Distinct(rows) && id !in IdsOf(rows)
    ensures Distinct(Created(rows, id, name, active))
    ensures var e := Element(id, NextOrder(rows), name, active.None? || active.value);
            Listing(Created(rows, id, name, active)) == Listing(rows) + [e]
  {
    var e := Element(id, NextOrder(rows), name, active.None? || active.value);
    var list := Listing(rows);
    forall i | 0 <= i < |rows| ensures rows[i].order < e.order && rows[i].id != id {
      MaxOrderAbove(rows, i);
      assert IdsOf(rows)[i] == rows[i].id;
    }
    ListingIncreasing(rows);
    assert (list + [e])[..|list|] == list;
    if list != [] {
      assert list[|list| - 1] in rows;
    }
    assert Increasing(list + [e]);
    ListingIs(Created(rows, id, name, active), list + [e]);
  }

  lemma {:induction false} UpdateInPlace(rows: seq<Element>, id: ElementId, name: string, active: Option<bool>)
    requires Distinct(rows)
    ensures Distinct(Renamed(rows, id, name, active))
    ensures Listing(Renamed(rows, id, name, active)) == Renamed(Listing(rows), id, name, active)
  {
    ListingIncreasing(rows);
    SameOrders(Listing(rows), Renamed(Listing(rows), id, name, active));
    RenamedSame(Listing(rows), rows, id, name, active);
    RenamedSame(rows, Listing(rows), id, name, active);
    ListingIs(Renamed(rows, id, name, active), Renamed(Listing(rows), id, name, active));
  }

  lemma {:induction false} RenamedSame(a: seq<Element>, b: seq<Element>, id: ElementId, name: string,
                                       active: Option<bool>)
    requires SameElements(a, b)
    ensures forall e :: e in Renamed(a, id, name, active) ==> e in Renamed(b, id, name, active)
  {
    forall e | e in Renamed(a, id, name, active) ensures e in Renamed(b, id, name, active) {
      var i :| 0 <= i < |a| && Renamed(a, id, name, active)[i] == e;
      assert a[i] in b;
      var j :| 0 <= j < |b| && b[j] == a[i];
      assert Renamed(b, id, name, active)[j] == e;
    }
  }

  lemma {:induction false} DeletedMember(rows: seq<Element>, id: ElementId, e: Element)
    ensures e in Deleted(rows, id) <==> e in rows && e.id != id
  {
    if rows != [] {
      DeletedMember(rows[..|rows| - 1], id, e);
      assert rows == rows[..|rows| - 1] + [rows[|rows| - 1]];
    }
  }

  lemma {:induction false} DeletedBelow(rows: seq<Element>, id: ElementId)
    requires Increasing(rows) && rows != [] && Deleted(rows[..|rows| - 1], id) != []
    ensures var kept := Deleted(rows[..|rows| - 1], id); kept[|kept| - 1].order < rows[|rows| - 1].order
  {
    var init := rows[..|rows| - 1];
    var kept := Deleted(init, id);
    DeletedMember(init, id, kept[|kept| - 1]);
    var i := FindRow(init, kept[|kept| - 1]);
    IncreasingBelow(rows, i, |rows| - 1);
  }

  lemma {:induction false} DeletedIncreasing(rows: seq<Element>, id: ElementId)
    requires Increasing(rows)
    ensures Increasing(Deleted(rows, id))
  {
    if rows != [] {
      var init, last := rows[..|rows| - 1], rows[|rows| - 1];
      var kept := Deleted(init, id);
      DeletedIncreasing(init, id);
      if last.id == id {
        assert Deleted(rows, id) == kept;
      } else {
        assert (kept + [last])[..|kept|] == kept;
        if kept != [] {
          DeletedBelow(rows, id);
        }
      }
    }
  }

  lemma {:induction false} DeletedDistinct(rows: seq<Element>, id: ElementId)
    requires Distinct(rows)
    ensures Distinct(Deleted(rows, id))
  {
    if rows != [] {
      var init, last := rows[..|rows| - 1], rows[|rows| - 1];
      DeletedDistinct(init, id);
      forall i | 0 <= i < |Deleted(init, id)|
        ensures Deleted(init, id)[i].id != last.id && Deleted(init, id)[i].order != last.order
      {
        DeletedMember(init, id, Deleted(init, id)[i]);
        var k :| 0 <= k < |init| && init[k] == Deleted(init, id)[i];
      }
    }
  }

  lemma {:induction false} DeletedNone(rows: seq<Element>, id: ElementId)
    requires forall i :: 0 <= i < |rows| ==> rows[i].id != id
    ensures Deleted(rows, id) == rows
  {
    if rows != [] {
      DeletedNone(rows[..|rows| - 1], id);
    }
  }

  /** Deleting takes out the one row with the id and keeps the others in place. */
  lemma {:induction false} DeletedRow(rows: seq<Element>, id: ElementId, i: nat)
    requires i < |rows| && forall k :: 0 <= k < |rows| ==> (rows[k].id == id <==> k == i)
    ensures Deleted(rows, id) == rows[..i] + rows[i + 1..]
  {
    var n := |rows| - 1;
    if i == n {
      DeletedNone(rows[..n], id);
    } else {
      DeletedRow(rows[..n], id, i);
      assert rows[i + 1..] == rows[..n][i + 1..] + [rows[n]];
    }
  }

  lemma {:induction false} LargestKey(rows: seq<Element>) returns (r: Element)
    requires rows != []
    ensures r in rows && MaxOrder(rows) == Some(r.order) && forall x :: x in rows ==> x.order <= r.order
  {
    var init, last := rows[..|rows| - 1], rows[|rows| - 1];
    assert rows == init + [last];
    r := last;
    if init != [] {
      var before := LargestKey(init);
      if before.order >= last.order {
        r := before;
      }
    }
  }

  /** The key of a new row: 1 in an empty table, else one more than the largest. */
  lemma {:induction false} NewKey(rows: seq<Element>)
    ensures rows == [] ==> NextOrder(rows) == 1
    ensures rows != [] ==> exists r :: r in rows && NextOrder(rows) == r.order + 1
    ensures forall r :: r in rows ==> r.order < NextOrder(rows)
  {
    if rows != [] {
      var r := LargestKey(rows);
    }
  }

  /** Deleting takes the row out of the listing; the gap in the keys stays. */
  lemma {:induction false} DeleteRemoves(rows: seq<Element>, id: ElementId)
    requires Distinct(rows)
    ensures Distinct(Deleted(rows, id)) && Listing(Deleted(rows, id)) == Deleted(Listing(rows), id)
  {
    ListingIncreasing(rows);
    DeletedDistinct(rows, id);
    DeletedIncreasing(Listing(rows), id);
    forall e ensures e in Deleted(Listing(rows), id) <==> e in Deleted(rows, id) {
      DeletedMember(rows, id, e);
      DeletedMember(Listing(rows), id, e);
    }
    ListingIs(Deleted(rows, id), Deleted(Listing(rows), id));
  }

  // ---- moving -------------------------------------------------------------------------------

  /** The rows with the keys of two of them exchanged. */
  function SwapOrders(rows: seq<Element>, a: nat, b: nat): (r: seq<Element>)
    requires a < |rows| && b < |rows| && a != b
    ensures |r| == |rows|
    ensures forall i :: 0 <= i < |rows| ==>
              r[i] == if i == a then rows[a].(order := rows[b].order)
                      else if i == b then rows[b].(order := rows[a].order)
                      else rows[i]
  {
    rows[a := rows[a].(order := rows[b].order)][b := rows[b].(order := rows[a].order)]
  }

  lemma {:induction false} TwoUpdates(rows: seq<Element>, a: nat, b: nat)
    requires Distinct(rows) && a < |rows| && b < |rows| && a != b
    ensures WithOrder(WithOrder(rows, rows[a].id, rows[b].order), rows[b].id, rows[a].order) == SwapOrders(rows, a, b)
    ensures Distinct(SwapOrders(rows, a, b))
  {
    assert forall i :: 0 <= i < |rows| && i != a ==> rows[i].id != rows[a].id && rows[i].order != rows[a].order;
    assert forall i :: 0 <= i < |rows| && i != b ==> rows[i].id != rows[b].id && rows[i].order != rows[b].order;
  }

  lemma {:induction false} FindRow(rows: seq<Element>, e: Element) returns (i: nat)
    requires e in rows
    ensures i < |rows| && rows[i] == e
  {
    i :| 0 <= i < |rows| && rows[i] == e;
  }

  lemma {:induction false} SwappedSame(a: seq<Element>, b: seq<Element>, i: nat, j: nat, k: nat, l: nat)
    requires SameElements(a, b) && Distinct(a) && Distinct(b)
    requires i < |a| && j < |a| && i != j && k < |b| && l < |b| && k != l && a[i] == b[k] && a[j] == b[l]
    ensures forall e :: e in SwapOrders(a, i, j) ==> e in SwapOrders(b, k, l)
  {
    forall e | e in SwapOrders(a, i, j) ensures e in SwapOrders(b, k, l) {
      var x := FindRow(SwapOrders(a, i, j), e);
      assert a[x] in b;
      var y := FindRow(b, a[x]);
      assert a[x].id == b[y].id;
      assert SwapOrders(b, k, l)[y] == e;
    }
  }

  /** Two neighbours of a list exchanged. */
  function Exchange<T>(list: seq<T>, i: nat, j: nat): (r: seq<T>)
    requires i < |list| && j < |list|
    ensures |r| == |list|
  {
    list[i := list[j]][j := list[i]]
  }

  lemma {:induction false} ExchangeSame(list: seq<Element>, i: nat, j: nat)
    requires i < |list| && j < |list| && i != j
    ensures SameElements(Exchange(SwapOrders(list, i, j), i, j), SwapOrders(list, i, j))
  {
    var swapped := SwapOrders(list, i, j);
    var exchanged := Exchange(swapped, i, j);
    forall e ensures e in exchanged <==> e in swapped {
      if e in swapped {
        var x := FindRow(swapped, e);
        assert exchanged[if x == i then j else if x == j then i else x] == e;
      }
      if e in exchanged {
        var x := FindRow(exchanged, e);
        assert swapped[if x == i then j else if x == j then i else x] == e;
      }
    }
  }

  /** Exchanging two keys exchanges two places of the listing, neighbours or not. */
  lemma {:induction false} SwapListing(rows: seq<Element>, a: nat, b: nat, i: nat, j: nat)
    requires Distinct(rows) && a < |rows| && b < |rows| && i < |Listing(rows)| && j < |Listing(rows)| && i != j
             && a != b
    requires rows[a] == Listing(rows)[i] && rows[b] == Listing(rows)[j]
    ensures Listing(SwapOrders(rows, a, b)) == Exchange(SwapOrders(Listing(rows), i, j), i, j)
  {
    var list := Listing(rows);
    ListingIncreasing(rows);
    IncreasingDistinct(rows, list);
    TwoUpdates(rows, a, b);
    var swapped := SwapOrders(list, i, j);
    SameOrders(list, Exchange(swapped, i, j));
    ExchangeSame(list, i, j);
    SwappedSame(list, rows, i, j, a, b);
    SwappedSame(rows, list, a, b, i, j);
    ListingIs(SwapOrders(rows, a, b), Exchange(swapped, i, j));
  }

  lemma {:induction false} ExchangedPlaces(list: seq<Element>, i: nat, j: nat)
    requires i < |list| && j < |list| && i != j
    ensures var list' := Exchange(SwapOrders(list, i, j), i, j);
            && IdsOf(list') == Exchange(IdsOf(list), i, j)
            && forall k :: 0 <= k < |list| ==> list'[k].order == list[k].order
  {
  }

  /** The move goes from index i to index j of the listing. */
  predicate Moves(rows: seq<Element>, id: ElementId, direction: Direction, i: nat, j: int) {
    i < |Listing(rows)| && Listing(rows)[i].id == id && j == Neighbor(i, direction)
  }

  lemma {:induction false} MovedRows(rows: seq<Element>, id: ElementId, direction: Direction, i: nat, j: nat)
    returns (a: nat, b: nat)
    requires Distinct(rows) && Moves(rows, id, direction, i, j) && j < |Listing(rows)|
    ensures a < |rows| && b < |rows| && a != b && rows[a] == Listing(rows)[i] && rows[b] == Listing(rows)[j]
    ensures Moved(rows, id, direction) == SwapOrders(rows, a, b)
  {
    var list := Listing(rows);
    ListingIncreasing(rows);
    IncreasingDistinct(rows, list);
    assert list[i] in rows && list[j] in rows;
    a := FindRow(rows, list[i]);
    b := FindRow(rows, list[j]);
    ListedAt(list, i);
    TwoUpdates(rows, a, b);
  }

  lemma {:induction false} ListedAt(list: seq<Element>, i: nat)
    requires Distinct(list) && i < |list|
    ensures list[i].id in IdsOf(list) && IndexOf(IdsOf(list), list[i].id) == i
  {
    assert IdsOf(list)[i] == list[i].id;
    var k := IndexOf(IdsOf(list), list[i].id);
    assert k < i || i < k || k == i;
  }

  /**
    A move exchanges the row with its neighbour in the listing, and nothing else: names and ids change places, the
    sequence of keys stays. At either end it does nothing.
  */
  lemma {:induction false} MoveSwapsNeighbours(rows: seq<Element>, id: ElementId, direction: Direction, i: nat, j: int)
    requires Distinct(rows) && Moves(rows, id, direction, i, j)
    ensures var (list, list') := (Listing(rows), Listing(Moved(rows, id, direction)));
            if 0 <= j < |list| then
              && list' == Exchange(SwapOrders(list, i, j), i, j)
              && IdsOf(list') == Exchange(IdsOf(list), i, j)
              && forall k :: 0 <= k < |list| ==> list'[k].order == list[k].order
            else Moved(rows, id, direction) == rows
    ensures Distinct(Moved(rows, id, direction))
  {
    var list := Listing(rows);
    if 0 <= j < |list| {
      var a, b := MovedRows(rows, id, direction, i, j);
      SwapListing(rows, a, b, i, j);
      TwoUpdates(rows, a, b);
      ExchangedPlaces(list, i, j);
    } else {
      ListingIncreasing(rows);
      IncreasingDistinct(rows, list);
      ListedAt(list, i);
    }
  }

  function Opposite(direction: Direction): Direction {
    if direction == Up then Down else Up
  }

  /** Up exchanges a row with the one listed before it; at the top it does nothing. */
  lemma {:induction false} MoveUp(rows: seq<Element>, id: ElementId, i: nat)
    requires Distinct(rows) && i < |Listing(rows)| && Listing(rows)[i].id == id
    ensures i == 0 ==> Moved(rows, id, Up) == rows
    ensures var (ids, ids') := (IdsOf(Listing(rows)), IdsOf(Listing(Moved(rows, id, Up))));
            i > 0 ==> ids' == ids[i - 1 := ids[i]][i := ids[i - 1]]
  {
    MoveSwapsNeighbours(rows, id, Up, i, i - 1);
  }

  /** Down exchanges it with the one listed after it; at the bottom it does nothing. */
  lemma {:induction false} MoveDown(rows: seq<Element>, id: ElementId, i: nat)
    requires Distinct(rows) && i < |Listing(rows)| && Listing(rows)[i].id == id
    ensures i == |Listing(rows)| - 1 ==> Moved(rows, id, Down) == rows
    ensures var (ids, ids') := (IdsOf(Listing(rows)), IdsOf(Listing(Moved(rows, id, Down))));
            i < |Listing(rows)| - 1 ==> ids' == ids[i := ids[i + 1]][i + 1 := ids[i]]
  {
    MoveSwapsNeighbours(rows, id, Down, i, i + 1);
  }

  lemma {:induction false} BackInside(rows: seq<Element>, id: ElementId, direction: Direction, i: nat, j: nat)
    requires Distinct(rows) && Moves(rows, id, direction, i, j) && j < |Listing(rows)|
    ensures Moved(Moved(rows, id, direction), id, Opposite(direction)) == rows
  {
    MoveSwapsNeighbours(rows, id, direction, i, j);
    var rows', list := Moved(rows, id, direction), Listing(rows);
    assert Moves(rows', id, Opposite(direction), j, i);
    var a, b := MovedRows(rows, id, direction, i, j);
    var c, d := MovedRows(rows', id, Opposite(direction), j, i);
    BackAgain(rows, rows', a, b, c, d, list[i].id, list[j].id);
  }

  lemma {:induction false} BackAtEnd(rows: seq<Element>, id: ElementId, direction: Direction, i: nat, j: int)
    requires Distinct(rows) && Moves(rows, id, direction, i, j) && !(0 <= j < |Listing(rows)|)
    ensures Moved(Moved(rows, id, direction), id, Opposite(direction)) == rows <==> |Listing(rows)| == 1
  {
    var list, k := Listing(rows), Neighbor(i, Opposite(direction));
    MoveSwapsNeighbours(rows, id, direction, i, j);
    MoveSwapsNeighbours(rows, id, Opposite(direction), i, k);
    if |list| > 1 {
      IncreasingDistinct(rows, list);
      assert Exchange(IdsOf(list), i, k)[i] == list[k].id != list[i].id;
    }
  }

  /**
    Moving there and back is the identity on the table, exactly if the first move does something or the second does
    nothing either.
  */
  lemma {:induction false} MoveBack(rows: seq<Element>, id: ElementId, direction: Direction, i: nat, j: int)
    requires Distinct(rows) && Moves(rows, id, direction, i, j)
    ensures Moved(Moved(rows, id, direction), id, Opposite(direction)) == rows
            <==> 0 <= j < |Listing(rows)| || |Listing(rows)| == 1
  {
    if 0 <= j < |Listing(rows)| {
      BackInside(rows, id, direction, i, j);
    } else {
      BackAtEnd(rows, id, direction, i, j);
    }
  }

  lemma {:induction false} BackAgain(rows: seq<Element>, rows': seq<Element>, a: nat, b: nat, c: nat, d: nat,
                                     x: ElementId, y: ElementId)
    requires Distinct(rows) && a < |rows| && b < |rows| && a != b && rows' == SwapOrders(rows, a, b)
    requires c < |rows'| && d < |rows'| && c != d && rows'[c].id == x == rows[a].id && rows'[d].id == y == rows[b].id
    ensures SwapOrders(rows', c, d) == rows
  {
    assert rows'[c].id == rows[c].id && rows'[d].id == rows[d].id;
    assert c == a && d == b by {
      assert c < a || a < c || c == a;
      assert d < b || b < d || d == b;
    }
  }

  // ---- histories ----------------------------------------------------------------------------

  datatype Step =
    | CreateStep(id: ElementId, name: string, active: Option<bool>)
    | UpdateStep(id: ElementId, name: string, active: Option<bool>)
    | DeleteStep(id: ElementId)
    | MoveStep(id: ElementId, direction: Direction)

  function Next(rows: seq<Element>, step: Step): seq<Element> {
    match step
    case CreateStep(id, name, active) => Created(rows, id, name, active)
    case UpdateStep(id, name, active) => Renamed(rows, id, name, active)
    case DeleteStep(id) => Deleted(rows, id)
    case MoveStep(id, direction) => Moved(rows, id, direction)
  }

  function After(run: seq<Step>): seq<Element> {
    if run == [] then [] else Next(After(run[..|run| - 1]), run[|run| - 1])
  }

  function RemoveId(ids: seq<ElementId>, id: ElementId): seq<ElementId> {
    if ids == [] then []
    else RemoveId(ids[..|ids| - 1], id) + (if ids[|ids| - 1] == id then [] else [ids[|ids| - 1]])
  }

  /** Up takes an entry one place forward, Down one place back; at the ends nothing happens. */
  function PlainMoved(list: seq<ElementId>, i: nat, direction: Direction): seq<ElementId>
    requires i < |list|
  {
    if direction == Up && i > 0 then Exchange(list, i - 1, i)
    else if direction == Down && i + 1 < |list| then Exchange(list, i, i + 1)
    else list
  }

  /** The same step on a plain list of ids, with no keys at all. */
  function PlainNext(list: seq<ElementId>, step: Step): seq<ElementId> {
    match step
    case CreateStep(id, _, _) => list + [id]
    case UpdateStep(_, _, _) => list
    case DeleteStep(id) => RemoveId(list, id)
    case MoveStep(id, direction) =>
      if id !in list then list else PlainMoved(list, IndexOf(list, id), direction)
  }

  function PlainAfter(run: seq<Step>): seq<ElementId> {
    if run == [] then [] else PlainNext(PlainAfter(run[..|run| - 1]), run[|run| - 1])
  }

  /** Ids are fresh. */
  predicate Legal(run: seq<Step>) {
    run == [] ||
    (var (init, step) := (run[..|run| - 1], run[|run| - 1]);
     Legal(init) && (step.CreateStep? ==> step.id !in IdsOf(After(init))))
  }

  /** The histories meant: any steps, as long as a created row gets a fresh id. */
  lemma {:induction false} HistoryMeans(run: seq<Step>, step: Step)
    ensures Legal([]) && After([]) == []
    ensures Legal(run + [step])
            <==> Legal(run) && (step.CreateStep? ==> forall r :: r in After(run) ==> r.id != step.id)
    ensures After(run + [step]) == Next(After(run), step)
  {
    var rows := After(run);
    assert (run + [step])[..|run|] == run;
    if step.CreateStep? {
      forall r | r in rows && r.id == step.id ensures step.id in IdsOf(rows) {
        var i :| 0 <= i < |rows| && rows[i] == r;
        assert IdsOf(rows)[i] == step.id;
      }
      if step.id in IdsOf(rows) {
        var i :| 0 <= i < |rows| && IdsOf(rows)[i] == step.id;
        assert rows[i] in rows;
      }
    }
  }

  lemma {:induction false} DeletedIds(rows: seq<Element>, id: ElementId)
    ensures IdsOf(Deleted(rows, id)) == RemoveId(IdsOf(rows), id)
  {
    if rows != [] {
      DeletedIds(rows[..|rows| - 1], id);
      assert IdsOf(rows)[..|rows| - 1] == IdsOf(rows[..|rows| - 1]);
    }
  }

  lemma {:induction false} MovedInto(rows: seq<Element>, id: ElementId, direction: Direction, i: nat)
    requires Distinct(rows) && i < |Listing(rows)| && Listing(rows)[i].id == id
    ensures Distinct(Moved(rows, id, direction))
    ensures IdsOf(Listing(Moved(rows, id, direction))) == PlainMoved(IdsOf(Listing(rows)), i, direction)
  {
    MoveSwapsNeighbours(rows, id, direction, i, Neighbor(i, direction));
    if direction == Up {
      MoveUp(rows, id, i);
    } else {
      MoveDown(rows, id, i);
    }
  }

  lemma {:induction false} MoveStepPlain(rows: seq<Element>, id: ElementId, direction: Direction)
    requires Distinct(rows)
    ensures Distinct(Moved(rows, id, direction))
    ensures IdsOf(Listing(Moved(rows, id, direction))) == PlainNext(IdsOf(Listing(rows)), MoveStep(id, direction))
  {
    if id in IdsOf(Listing(rows)) {
      MovedInto(rows, id, direction, IndexOf(IdsOf(Listing(rows)), id));
    }
  }

  lemma {:induction false} StepPlain(rows: seq<Element>, step: Step)
    requires Distinct(rows) && (step.CreateStep? ==> step.id !in IdsOf(rows))
    ensures Distinct(Next(rows, step))
    ensures IdsOf(Listing(Next(rows, step))) == PlainNext(IdsOf(Listing(rows)), step)
  {
    match step
    case CreateStep(id, name, active) => CreateAppends(rows, id, name, active);
    case UpdateStep(id, name, active) =>
      UpdateInPlace(rows, id, name, active);
    case DeleteStep(id) =>
      DeleteRemoves(rows, id);
      DeletedIds(Listing(rows), id);
    case MoveStep(id, direction) => MoveStepPlain(rows, id, direction);
  }

  /**
    Over every history starting from the empty table the sort keys stay pairwise different, and the listing is what
    the same operations make of a plain list.
  */
  lemma {:induction false} RunIsPlainList(run: seq<Step>)
    requires Legal(run)
    ensures Distinct(After(run)) && IdsOf(Listing(After(run))) == PlainAfter(run)
  {
    if run != [] {
      RunIsPlainList(run[..|run| - 1]);
      StepPlain(After(run[..|run| - 1]), run[|run| - 1]);
    }
  }
}
