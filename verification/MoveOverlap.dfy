/** A move's transaction lists the target and then writes it, with no lock
    between the two. Two moves may both list before either writes. */
module MoveOverlap {
  import opened Common
  import opened Boards
  import opened BoardRuns

  /** What a move that read its card's column as it is writes to the target. */
  function Order(dest: seq<Uuid>, id: Uuid, index: int): seq<Uuid> { InsertAt(Without(dest, id), id, index) }

  lemma OrderMembers(cards: Cards, col: Uuid, dest: seq<Uuid>, id: Uuid, index: int)
    requires IsListing(cards, col, dest)
    ensures ToSet(Order(dest, id, index)) == InColumn(cards, col) + {id} && Distinct(Order(dest, id, index))
    ensures |Order(dest, id, index)| == |InColumn(cards, col) + {id}|
    ensures var k := Clamp(index, |InColumn(cards, col) - {id}|); k < |Order(dest, id, index)| && Order(dest, id, index)[k] == id
  {
    var rest := Without(dest, id);
    WithoutMembers(dest, id);
    WithoutSorted(cards, dest, id);
    assert id !in ToSet(rest);
    InsertMembers(rest, id, index);
    InsertDistinct(rest, id, index);
    DistinctSize(rest);
    DistinctSize(InsertAt(rest, id, index));
    assert InColumn(cards, col) - {id} + {id} == InColumn(cards, col) + {id};
  }

  // ---- writing an old list ----

  /** Cards that came to the column after it was listed. */
  ghost function Strangers(now: Cards, col: Uuid, order: seq<Uuid>): set<Uuid> {
    InColumn(now, col) - ToSet(order)
  }

  /** No two strangers tie, and none stands where the list puts a card. */
  ghost predicate StrangersApart(now: Cards, col: Uuid, order: seq<Uuid>) {
    && (forall a, b :: a in Strangers(now, col, order) && b in Strangers(now, col, order) && a != b
          ==> Pos(now, a) != Pos(now, b))
    && forall a :: a in Strangers(now, col, order) && 0 <= Pos(now, a) < |order| ==> order[Pos(now, a)] !in now
  }

  lemma LateWritePlaces(now: Cards, col: Uuid, order: seq<Uuid>, c: Uuid)
    requires Distinct(order) && c in now
    ensures var cards' := Reindex(now, col, order);
      && cards'.Keys == now.Keys && cards'[c].board == now[c].board
      && (c in order ==> cards'[c].column == col && 0 <= Pos(cards', c) < |order| && order[Pos(cards', c)] == c)
      && (c !in order ==> cards'[c] == now[c])
  {
    ReindexNumbers(now, col, order);
    RowKept(now, Reindex(now, col, order), col, order, c);
  }

  /** A move that writes a list made earlier changes another card's column if and
      only if that card was listed and has left the column since: it is dragged
      back. */
  lemma LateWriteDragsBackIff(now: Cards, col: Uuid, order: seq<Uuid>, c: Uuid)
    requires Distinct(order) && c in now
    ensures Reindex(now, col, order).Keys == now.Keys
    ensures Reindex(now, col, order)[c].column != now[c].column <==> c in order && now[c].column != col
  {
    LateWritePlaces(now, col, order, c);
  }

  /** And it leaves the column untied if and only if the cards that came since are
      apart from each other and from the places the list gives away. */
  lemma LateWriteTiesIff(now: Cards, col: Uuid, order: seq<Uuid>)
    requires Distinct(order)
    ensures NoTies(Reindex(now, col, order), col) <==> StrangersApart(now, col, order)
  {
    var cards' := Reindex(now, col, order);
    forall c | c in now
      ensures c in order ==> c in InColumn(cards', col) && 0 <= Pos(cards', c) < |order| && order[Pos(cards', c)] == c
      ensures c !in order ==> Pos(cards', c) == Pos(now, c) && (c in InColumn(cards', col) <==> c in Strangers(now, col, order))
    {
      LateWritePlaces(now, col, order, c);
    }
    ReindexNumbers(now, col, order);
  }

  // ---- two moves at once ----

  /** The target once both have written, the first before the second. */
  function BothWritten(cards: Cards, col: Uuid, first: seq<Uuid>, second: seq<Uuid>): Cards {
    Reindex(Reindex(cards, col, first), col, second)
  }

  /** A card the second list does not know keeps the place the first gave it, and
      ties with the card the second puts there, if it puts one. */
  lemma LeftStandingTiesIff(cards: Cards, col: Uuid, first: seq<Uuid>, second: seq<Uuid>, id: Uuid, k: nat)
    requires Distinct(first) && Distinct(second) && ToSet(first) == InColumn(cards, col) + {id} <= cards.Keys
    requires k < |first| && first[k] == id && InColumn(cards, col) <= ToSet(second) <= cards.Keys && id !in ToSet(second)
    ensures NoTies(BothWritten(cards, col, first, second), col) <==> k >= |second|
  {
    var mid := Reindex(cards, col, first);
    ReindexNumbers(cards, col, first);
    assert LastAt(first, k);
    assert Pos(mid, id) == k && id in InColumn(mid, col);
    assert InColumn(mid, col) <= ToSet(first);
    assert Strangers(mid, col, second) == {id};
    assert forall i :: 0 <= i < |second| ==> second[i] in ToSet(second);
    LateWriteTiesIff(mid, col, second);
  }

  lemma KnownIsUntied(cards: Cards, col: Uuid, first: seq<Uuid>, second: seq<Uuid>)
    requires InColumn(cards, col) <= ToSet(first) <= ToSet(second) && Distinct(second)
    ensures NoTies(BothWritten(cards, col, first, second), col)
  {
    var mid := Reindex(cards, col, first);
    ReindexNumbers(cards, col, first);
    assert Strangers(mid, col, second) == {};
    LateWriteTiesIff(mid, col, second);
  }

  lemma NewcomerTiesIff(
    cards: Cards, col: Uuid, id1: Uuid, index1: int, dest1: seq<Uuid>, id2: Uuid, index2: int, dest2: seq<Uuid>)
    requires id1 in cards && id2 in cards && IsListing(cards, col, dest1) && IsListing(cards, col, dest2)
    requires id1 !in InColumn(cards, col) && id1 != id2
    ensures NoTies(BothWritten(cards, col, Order(dest1, id1, index1), Order(dest2, id2, index2)), col) <==>
      Clamp(index1, |InColumn(cards, col)|) >= |InColumn(cards, col) + {id2}|
  {
    var here := InColumn(cards, col);
    OrderMembers(cards, col, dest1, id1, index1);
    OrderMembers(cards, col, dest2, id2, index2);
    assert here - {id1} == here;
    NewcomerStands(cards, col, Order(dest1, id1, index1), Order(dest2, id2, index2), id1, id2, Clamp(index1, |here|));
  }

  lemma NewcomerStands(cards: Cards, col: Uuid, first: seq<Uuid>, second: seq<Uuid>, id1: Uuid, id2: Uuid, k: nat)
    requires id1 in cards && id2 in cards && id1 !in InColumn(cards, col) && id1 != id2
    requires Distinct(first) && ToSet(first) == InColumn(cards, col) + {id1}
    requires Distinct(second) && ToSet(second) == InColumn(cards, col) + {id2}
    requires k < |first| && first[k] == id1
    ensures NoTies(BothWritten(cards, col, first, second), col) <==> k >= |InColumn(cards, col) + {id2}|
  {
    DistinctSize(second);
    LeftStandingTiesIff(cards, col, first, second, id1, k);
  }

  /** Two moves into one column that both list it before either writes: the cards
      end up untied if and only if the first card was in the column already, or
      is the second one too, or went last where the second brings none in. */
  lemma OverlappingMovesTieIff(
    cards: Cards, col: Uuid, id1: Uuid, index1: int, dest1: seq<Uuid>, id2: Uuid, index2: int, dest2: seq<Uuid>)
    requires id1 in cards && id2 in cards && IsListing(cards, col, dest1) && IsListing(cards, col, dest2)
    ensures NoTies(BothWritten(cards, col, Order(dest1, id1, index1), Order(dest2, id2, index2)), col) <==>
      || id1 in InColumn(cards, col) || id1 == id2
      || (id2 in InColumn(cards, col) && index1 >= |InColumn(cards, col)|)
  {
    if id1 in InColumn(cards, col) || id1 == id2 {
      OrderMembers(cards, col, dest1, id1, index1);
      OrderMembers(cards, col, dest2, id2, index2);
      KnownIsUntied(cards, col, Order(dest1, id1, index1), Order(dest2, id2, index2));
    } else {
      NewcomerTiesIff(cards, col, id1, index1, dest1, id2, index2, dest2);
    }
  }

  /** The list a move into another column writes is the same. */
  lemma OrderOfANewcomer(cards: Cards, col: Uuid, dest: seq<Uuid>, id: Uuid, index: int)
    requires IsListing(cards, col, dest) && id !in InColumn(cards, col)
    ensures Order(dest, id, index) == InsertAt(dest, id, index)
  {
    assert id !in ToSet(dest);
    AbsentIsKept(dest, id);
  }

  // ---- the rest of the two transactions ----

  /** The re-numbering of a source column, listed when it is written. */
  ghost predicate SourceWritten(x: Cards, y: Cards, src: Uuid, id: Uuid) {
    exists ids :: IsListing(x, src, ids) && y == Reindex(x, src, Without(ids, id))
  }

  lemma SourceWriteSpares(x: Cards, y: Cards, src: Uuid, id: Uuid, col: Uuid)
    requires SourceWritten(x, y, src, id) && src != col
    ensures NoTies(y, col) <==> NoTies(x, col)
  {
    var ids :| IsListing(x, src, ids) && y == Reindex(x, src, Without(ids, id));
    WithoutMembers(ids, id);
    ReindexNumbers(x, src, Without(ids, id));
    forall c | c in x
      ensures x[c].column == col || y[c].column == col ==> y[c] == x[c]
    {
      RowKept(x, y, src, Without(ids, id), c);
      assert c in Without(ids, id) ==> c in ToSet(Without(ids, id)) && c in InColumn(x, src);
    }
    SameColumn(x, y, col);
  }

  /** Two whole moves of cards 3 and 4 of column 1 to the top of an empty column 2,
      both listing it first: the two cards share place 0. */
  lemma OverlapTies() returns (cards: Cards, done: Cards)
    ensures cards == map[3 := Card(7, 1, 0), 4 := Card(7, 1, 1)] && IsListing(cards, 2, [])
    ensures exists mid :: SourceWritten(BothWritten(cards, 2, Order([], 3, 0), Order([], 4, 0)), mid, 1, 3)
                          && SourceWritten(mid, done, 1, 4)
    ensures !NoTies(done, 2)
  {
    cards := map[3 := Card(7, 1, 0), 4 := Card(7, 1, 1)];
    assert InColumn(cards, 2) == {};
    OverlappingMovesTieIff(cards, 2, 3, 0, [], 4, 0, []);
    var both := BothWritten(cards, 2, Order([], 3, 0), Order([], 4, 0));
    var ids := ListingExists(both, InColumn(both, 1));
    var mid := Reindex(both, 1, Without(ids, 3));
    assert SourceWritten(both, mid, 1, 3);
    var ids' := ListingExists(mid, InColumn(mid, 1));
    done := Reindex(mid, 1, Without(ids', 4));
    assert SourceWritten(mid, done, 1, 4);
    SourceWriteSpares(both, mid, 1, 3, 2);
    SourceWriteSpares(mid, done, 1, 4, 2);
  }
}
