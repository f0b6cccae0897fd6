/** Cards on a task board: created at the end of a column, deleted, and moved
    with a dense re-numbering of the columns touched. */
module Boards {
  import opened Common

  datatype Card = Card(board: Uuid, column: Uuid, pos: int)

  type Cards = map<Uuid, Card>

  datatype Error = NotFound | Forbidden | InvalidInput | ColumnMissing

  function InColumn(cards: Cards, col: Uuid): set<Uuid> {
    set c | c in cards && cards[c].column == col
  }

  // ---- lists of ids ----

  function Pos(cards: Cards, c: Uuid): int { if c in cards then cards[c].pos else 0 }

  ghost predicate Distinct(ids: seq<Uuid>) {
    forall i, j :: 0 <= i < j < |ids| ==> ids[i] != ids[j]
  }

  /** Positions do not decrease along the list, `skip` aside. */
  ghost predicate SortedBut(cards: Cards, ids: seq<Uuid>, skip: Uuid) {
    forall i, j :: 0 <= i < j < |ids| && ids[i] != skip && ids[j] != skip ==> Pos(cards, ids[i]) <= Pos(cards, ids[j])
  }

  ghost predicate Sorted(cards: Cards, ids: seq<Uuid>) {
    forall i, j :: 0 <= i < j < |ids| ==> Pos(cards, ids[i]) <= Pos(cards, ids[j])
  }

  /** SELECT id … WHERE column_id ORDER BY position: ties in any order. */
  ghost predicate IsListing(cards: Cards, col: Uuid, ids: seq<Uuid>) {
    ToSet(ids) == InColumn(cards, col) && Distinct(ids) && Sorted(cards, ids)
  }

  function Without(ids: seq<Uuid>, id: Uuid): seq<Uuid> {
    if ids == [] then []
    else
      var n := |ids| - 1;
      Without(ids[..n], id) + if ids[n] == id then [] else [ids[n]]
  }

  function Clamp(index: int, n: nat): nat { if index < 0 then 0 else if index > n then n else index }

  function InsertAt(ids: seq<Uuid>, id: Uuid, index: int): seq<Uuid> {
    var k := Clamp(index, |ids|);
    ids[..k] + [id] + ids[k..]
  }

  lemma {:induction false} WithoutMembers(ids: seq<Uuid>, id: Uuid)
    ensures ToSet(Without(ids, id)) == ToSet(ids) - {id}
  {
    if ids != [] {
      var n := |ids| - 1;
      WithoutMembers(ids[..n], id);
      assert ids == ids[..n] + [ids[n]];
      assert forall x :: x in ids <==> x in ids[..n] || x == ids[n];
      assert forall x :: x in Without(ids[..n], id) <==> x in ToSet(Without(ids[..n], id));
    }
  }

  /** What is left of a listing is in the same order, and still lists each once. */
  lemma {:induction false} WithoutSorted(cards: Cards, ids: seq<Uuid>, id: Uuid)
    requires Distinct(ids) && Sorted(cards, ids)
    ensures Distinct(Without(ids, id)) && Sorted(cards, Without(ids, id))
  {
    if ids != [] {
      var n := |ids| - 1;
      var init := ids[..n];
      WithoutSorted(cards, init, id);
      var r := Without(init, id);
      forall i | 0 <= i < |r|
        ensures r[i] != ids[n] && Pos(cards, r[i]) <= Pos(cards, ids[n])
      {
        WithoutMembers(init, id);
        assert r[i] in ToSet(r);
        var k :| 0 <= k < n && init[k] == r[i];
        assert ids[k] != ids[n];
      }
    }
  }

  lemma InsertMembers(ids: seq<Uuid>, id: Uuid, index: int)
    ensures ToSet(InsertAt(ids, id, index)) == ToSet(ids) + {id}
    ensures InsertAt(ids, id, index)[Clamp(index, |ids|)] == id
  {
  }

  lemma InsertDistinct(ids: seq<Uuid>, id: Uuid, index: int)
    requires id !in ids && Distinct(ids)
    ensures Distinct(InsertAt(ids, id, index))
  {
  }

  // ---- re-numbering ----

  /** UPDATE … WHERE id: no row, no change. */
  function SetPosition(cards: Cards, id: Uuid, col: Uuid, pos: int): Cards {
    if id in cards then cards[id := cards[id].(column := col, pos := pos)] else cards
  }

  function Reindex(cards: Cards, col: Uuid, ids: seq<Uuid>): Cards {
    if ids == [] then cards
    else SetPosition(Reindex(cards, col, ids[..|ids| - 1]), ids[|ids| - 1], col, |ids| - 1)
  }

  /** The last place an id is listed at. */
  ghost predicate LastAt(ids: seq<Uuid>, i: int) {
    0 <= i < |ids| && forall j :: i < j < |ids| ==> ids[j] != ids[i]
  }

  ghost predicate Numbered(cards: Cards, cards': Cards, col: Uuid, ids: seq<Uuid>) {
    && cards'.Keys == cards.Keys
    && (forall i :: LastAt(ids, i) && ids[i] in cards ==> cards'[ids[i]] == cards[ids[i]].(column := col, pos := i))
    && (forall c :: c in cards && c !in ids ==> cards'[c] == cards[c])
  }

  lemma {:induction false} ReindexNumbers(cards: Cards, col: Uuid, ids: seq<Uuid>)
    ensures Numbered(cards, Reindex(cards, col, ids), col, ids)
  {
    if ids != [] {
      var n := |ids| - 1;
      var init := ids[..n];
      ReindexNumbers(cards, col, init);
      assert ids == init + [ids[n]];
      var cards' := Reindex(cards, col, ids);
      forall i | LastAt(ids, i) && ids[i] in cards
        ensures cards'[ids[i]] == cards[ids[i]].(column := col, pos := i)
      {
        if i < n {
          assert LastAt(init, i) && init[i] == ids[i] != ids[n];
        } else {
          RowKept(cards, Reindex(cards, col, init), col, init, ids[n]);
        }
      }
    }
  }

  /** Re-numbering touches a row's column and position only. */
  lemma RowKept(cards: Cards, cards': Cards, col: Uuid, ids: seq<Uuid>, c: Uuid)
    requires Numbered(cards, cards', col, ids) && c in cards
    ensures cards'[c].board == cards[c].board
    ensures c in ids ==> cards'[c].column == col && 0 <= cards'[c].pos < |ids| && ids[cards'[c].pos] == c
  {
    if c in ids {
      var i :| 0 <= i < |ids| && ids[i] == c;
      i := LastPlace(ids, c, i);
    }
  }

  lemma {:induction false} LastPlace(ids: seq<Uuid>, c: Uuid, i: nat) returns (k: nat)
    requires i < |ids| && ids[i] == c
    ensures LastAt(ids, k) && ids[k] == c
    decreases |ids| - i
  {
    k := i;
    if j :| i < j < |ids| && ids[j] == c {
      k := LastPlace(ids, c, j);
    }
  }

  // ---- what a move promises ----

  /** If a stood above b, it still does. */
  ghost predicate KeepsOrder(cards: Cards, cards': Cards, a: Uuid, b: Uuid) {
    Pos(cards, a) < Pos(cards, b) ==> Pos(cards', a) < Pos(cards', b)
  }

  ghost predicate NoTies(cards: Cards, col: Uuid) {
    forall a, b :: a in InColumn(cards, col) && b in InColumn(cards, col) && a != b ==> Pos(cards, a) != Pos(cards, b)
  }

  /** The column is numbered from 0 without a gap or a tie. */
  ghost predicate Dense(cards: Cards, col: Uuid) {
    && NoTies(cards, col)
    && forall c :: c in InColumn(cards, col) ==> 0 <= Pos(cards, c) < |InColumn(cards, col)|
  }

  /** One column re-numbered: it now holds `members`, none tied, those other
      than `skip` in the order they had; no other card changed. */
  ghost predicate Renumbered(cards: Cards, cards': Cards, col: Uuid, members: set<Uuid>, skip: Uuid) {
    && cards'.Keys == cards.Keys && InColumn(cards', col) == members && NoTies(cards', col)
    && (forall c :: c in cards && c in members ==> cards'[c] == cards[c].(column := col, pos := cards'[c].pos))
    && (forall c :: c in cards && c !in members ==> cards'[c] == cards[c])
    && (forall a, b :: a in members && b in members && a != skip && b != skip ==> KeepsOrder(cards, cards', a, b))
  }

  lemma ReindexRenumbers(cards: Cards, col: Uuid, ids: seq<Uuid>, skip: Uuid)
    requires SortedBut(cards, ids, skip) && InColumn(cards, col) <= ToSet(ids)
    ensures Renumbered(cards, Reindex(cards, col, ids), col, ToSet(ids) * cards.Keys, skip)
    ensures forall c :: c in cards && c in ids ==>
      var p := Pos(Reindex(cards, col, ids), c); 0 <= p < |ids| && ids[p] == c
  {
    var cards' := Reindex(cards, col, ids);
    ReindexNumbers(cards, col, ids);
    forall c | c in cards && c in ids
      ensures cards'[c] == cards[c].(column := col, pos := cards'[c].pos)
      ensures 0 <= Pos(cards', c) < |ids| && ids[Pos(cards', c)] == c
    {
      RowKept(cards, cards', col, ids, c);
    }
    assert InColumn(cards', col) == ToSet(ids) * cards.Keys;
    forall a, b | a in ToSet(ids) * cards.Keys && b in ToSet(ids) * cards.Keys && a != skip && b != skip
      ensures KeepsOrder(cards, cards', a, b)
    {
      var i, j := Pos(cards', a), Pos(cards', b);
      assert ids[i] == a && ids[j] == b;
    }
  }

  lemma ReindexIsDense(cards: Cards, col: Uuid, ids: seq<Uuid>, skip: Uuid)
    requires Distinct(ids) && SortedBut(cards, ids, skip) && InColumn(cards, col) <= ToSet(ids) <= cards.Keys
    ensures Dense(Reindex(cards, col, ids), col)
    ensures forall i :: 0 <= i < |ids| ==> Pos(Reindex(cards, col, ids), ids[i]) == i
  {
    ReindexRenumbers(cards, col, ids, skip);
    DistinctSize(ids);
    assert ToSet(ids) * cards.Keys == ToSet(ids);
    forall i | 0 <= i < |ids|
      ensures Pos(Reindex(cards, col, ids), ids[i]) == i
    {
      assert ids[i] in ToSet(ids);
    }
  }

  // ---- the transaction of a move ----

  /** The rows after the move of `id` to `target`, for a card whose column was
      read as `read`. The source is listed once the target is written. */
  ghost predicate Transacted(cards: Cards, cards': Cards, id: Uuid, target: Uuid, index: int, read: Uuid) {
    exists dest, src :: TransactedBy(cards, cards', id, target, index, read, dest, src)
  }

  ghost predicate TransactedBy(
    cards: Cards, cards': Cards, id: Uuid, target: Uuid, index: int, read: Uuid, dest: seq<Uuid>, src: seq<Uuid>)
  {
    && IsListing(cards, target, dest)
    && if read == target then cards' == Reindex(cards, target, InsertAt(Without(dest, id), id, index))
       else
         var mid := Reindex(cards, target, InsertAt(dest, id, index));
         IsListing(mid, read, src) && cards' == Reindex(mid, read, Without(src, id))
  }

  /** What a move leaves behind whatever was read before it: no card lost, and
      none but the one moved in another column or another order; no ties in the
      two columns written, and no other column written at all. */
  ghost predicate Settled(cards: Cards, cards': Cards, id: Uuid, target: Uuid, read: Uuid) {
    && cards'.Keys == cards.Keys
    && (forall c :: c in cards ==> cards'[c].board == cards[c].board)
    && (forall c :: c in cards ==> cards'[c].column == if c == id then target else cards[c].column)
    && (forall a, b :: a in cards && b in cards && a != id && b != id && cards[a].column == cards[b].column
          ==> KeepsOrder(cards, cards', a, b))
    && NoTies(cards', target) && NoTies(cards', read)
    && (forall c :: c in cards && c != id && cards[c].column != target && cards[c].column != read ==> cards'[c] == cards[c])
  }

  /** What is promised of a move: besides, the columns it leaves and enters are
      dense, no third one changed, and the card is where the index says. */
  ghost predicate Moved(cards: Cards, cards': Cards, id: Uuid, target: Uuid, index: int)
    requires id in cards
  {
    && Settled(cards, cards', id, target, cards[id].column)
    && Dense(cards', target) && Dense(cards', cards[id].column)
    && Placed(cards'[id].pos, index, |set c | c in cards && cards[c].column == target && c != id|)
  }

  /** Where the index asks for among n others, or at the end it overshoots. */
  ghost predicate Placed(pos: int, index: int, n: nat) {
    && 0 <= pos <= n
    && (pos < index ==> pos == n)
    && (index < pos ==> pos == 0)
  }

  lemma ClampPlaces(cards: Cards, id: Uuid, target: Uuid, index: int, pos: int)
    ensures pos == Clamp(index, |InColumn(cards, target) - {id}|)
      <==> Placed(pos, index, |set c | c in cards && cards[c].column == target && c != id|)
  {
    assert InColumn(cards, target) - {id} == set c | c in cards && cards[c].column == target && c != id;
  }

  /** The target's half: the card is put among the others of a list. */
  lemma Enters(cards: Cards, id: Uuid, target: Uuid, index: int, others: seq<Uuid>)
    requires ToSet(others) + {id} == InColumn(cards, target) + {id} && Sorted(cards, others)
    ensures Renumbered(cards, Reindex(cards, target, InsertAt(others, id, index)), target,
                       (InColumn(cards, target) + {id}) * cards.Keys, id)
  {
    InsertMembers(others, id, index);
    ReindexRenumbers(cards, target, InsertAt(others, id, index), id);
  }

  lemma EntersDensely(cards: Cards, id: Uuid, target: Uuid, index: int, others: seq<Uuid>)
    requires id in cards && ToSet(others) == InColumn(cards, target) - {id} && Distinct(others) && Sorted(cards, others)
    ensures var cards' := Reindex(cards, target, InsertAt(others, id, index));
      Dense(cards', target) && Pos(cards', id) == Clamp(index, |InColumn(cards, target) - {id}|)
  {
    assert id !in ToSet(others);
    InsertMembers(others, id, index);
    InsertDistinct(others, id, index);
    ReindexIsDense(cards, target, InsertAt(others, id, index), id);
    DistinctSize(others);
  }

  /** The source's half: the card has left it already, if it ever was there. */
  lemma Leaves(mid: Cards, id: Uuid, read: Uuid, src: seq<Uuid>)
    requires id !in InColumn(mid, read) && IsListing(mid, read, src)
    ensures Renumbered(mid, Reindex(mid, read, Without(src, id)), read, InColumn(mid, read), id)
    ensures Dense(Reindex(mid, read, Without(src, id)), read)
  {
    var rest := Without(src, id);
    WithoutMembers(src, id);
    WithoutSorted(mid, src, id);
    assert ToSet(rest) == InColumn(mid, read) && ToSet(rest) * mid.Keys == InColumn(mid, read);
    ReindexRenumbers(mid, read, rest, id);
    ReindexIsDense(mid, read, rest, id);
  }

  lemma OneWriteSettles(cards: Cards, cards': Cards, id: Uuid, target: Uuid)
    requires Renumbered(cards, cards', target, (InColumn(cards, target) + {id}) * cards.Keys, id)
    ensures Settled(cards, cards', id, target, target)
  {
  }

  lemma TwoWritesSettle(cards: Cards, mid: Cards, cards': Cards, id: Uuid, target: Uuid, read: Uuid)
    requires read != target
    requires Renumbered(cards, mid, target, (InColumn(cards, target) + {id}) * cards.Keys, id)
    requires Renumbered(mid, cards', read, InColumn(mid, read), id)
    ensures Settled(cards, cards', id, target, read)
    ensures forall c :: c in cards && (cards[c].column == target || c == id) ==> cards'[c] == mid[c]
    ensures InColumn(mid, read) == InColumn(cards, read) - {id}
  {
    forall c | c in cards
      ensures cards[c].column == target || c == id ==> cards'[c] == mid[c]
      ensures cards[c].column != target && c != id ==> mid[c] == cards[c]
      ensures cards[c].column != target && cards[c].column != read && c != id ==> cards'[c] == cards[c]
      ensures cards'[c].column == (if c == id then target else cards[c].column) && cards'[c].board == cards[c].board
    {
      assert c in InColumn(mid, target) <==> c in InColumn(cards, target) || c == id;
      assert c in InColumn(mid, read) <==> mid[c].column == read;
    }
    forall a, b | a in cards && b in cards && a != id && b != id && cards[a].column == cards[b].column
      ensures KeepsOrder(cards, cards', a, b)
    {
      if cards[a].column == target {
        assert KeepsOrder(cards, mid, a, b);
      } else if cards[a].column == read {
        assert a in InColumn(mid, read) && b in InColumn(mid, read);
        assert KeepsOrder(mid, cards', a, b);
      }
    }
    SameColumn(mid, cards', target);
  }

  lemma SameColumn(cards: Cards, cards': Cards, col: Uuid)
    requires cards'.Keys == cards.Keys
    requires forall c :: c in cards && (cards[c].column == col || cards'[c].column == col) ==> cards'[c] == cards[c]
    ensures InColumn(cards', col) == InColumn(cards, col)
    ensures NoTies(cards', col) <==> NoTies(cards, col)
    ensures Dense(cards', col) <==> Dense(cards, col)
  {
  }

  // ---- what every move does ----

  /** Any move, on columns with ties and with anything read before it. */
  lemma EveryMoveSettles(cards: Cards, cards': Cards, id: Uuid, target: Uuid, index: int, read: Uuid)
    requires Transacted(cards, cards', id, target, index, read)
    ensures Settled(cards, cards', id, target, read)
  {
    var dest, src :| TransactedBy(cards, cards', id, target, index, read, dest, src);
    if read == target {
      WithoutMembers(dest, id);
      WithoutSorted(cards, dest, id);
      Enters(cards, id, target, index, Without(dest, id));
      OneWriteSettles(cards, cards', id, target);
    } else {
      var mid := Reindex(cards, target, InsertAt(dest, id, index));
      Enters(cards, id, target, index, dest);
      LeftBehind(cards, mid, id, target, read);
      Leaves(mid, id, read, src);
      TwoWritesSettle(cards, mid, cards', id, target, read);
    }
  }

  lemma LeftBehind(cards: Cards, mid: Cards, id: Uuid, target: Uuid, read: Uuid)
    requires read != target
    requires Renumbered(cards, mid, target, (InColumn(cards, target) + {id}) * cards.Keys, id)
    ensures id !in InColumn(mid, read)
  {
    assert id in cards ==> id in InColumn(mid, target);
  }

  /** A move to a column the card is not in puts it there densely; and a source
      that is written is dense too. */
  lemma MoveIsDense(cards: Cards, cards': Cards, id: Uuid, target: Uuid, index: int, read: Uuid)
    requires Transacted(cards, cards', id, target, index, read) && id in cards
    requires read == target || cards[id].column != target
    ensures Dense(cards', target) && Pos(cards', id) == Clamp(index, |InColumn(cards, target) - {id}|)
    ensures Dense(cards', read)
  {
    var dest, src :| TransactedBy(cards, cards', id, target, index, read, dest, src);
    if read == target {
      WithoutMembers(dest, id);
      WithoutSorted(cards, dest, id);
      EntersDensely(cards, id, target, index, Without(dest, id));
    } else {
      var mid := Reindex(cards, target, InsertAt(dest, id, index));
      assert InColumn(cards, target) - {id} == InColumn(cards, target);
      EntersDensely(cards, id, target, index, dest);
      Enters(cards, id, target, index, dest);
      LeftBehind(cards, mid, id, target, read);
      Leaves(mid, id, read, src);
      TwoWritesSettle(cards, mid, cards', id, target, read);
      assert forall c :: c in cards && (mid[c].column == target || cards'[c].column == target) ==> cards'[c] == mid[c];
      SameColumn(mid, cards', target);
    }
  }

  /** A move that read the card's column as it is keeps the whole promise. */
  lemma FreshMoveMoves(cards: Cards, cards': Cards, id: Uuid, target: Uuid, index: int)
    requires id in cards && Transacted(cards, cards', id, target, index, cards[id].column)
    ensures Moved(cards, cards', id, target, index)
  {
    EveryMoveSettles(cards, cards', id, target, index, cards[id].column);
    MoveIsDense(cards, cards', id, target, index, cards[id].column);
    ClampPlaces(cards, id, target, index, Pos(cards', id));
  }

  // ---- moves that read an old column ----

  /** Positions in a dense column's listing are the places in the list. */
  lemma {:induction false} DenseListing(cards: Cards, col: Uuid, ids: seq<Uuid>, i: nat)
    requires Dense(cards, col) && IsListing(cards, col, ids) && i < |ids|
    ensures Pos(cards, ids[i]) >= i
    decreases i
  {
    assert forall k :: 0 <= k < |ids| ==> ids[k] in ToSet(ids);
    if i > 0 {
      DenseListing(cards, col, ids, i - 1);
      assert ids[i - 1] != ids[i];
    }
  }

  lemma {:induction false} DenseListingBelow(cards: Cards, col: Uuid, ids: seq<Uuid>, i: nat)
    requires Dense(cards, col) && IsListing(cards, col, ids) && i < |ids|
    ensures Pos(cards, ids[i]) <= i
    decreases |ids| - i
  {
    assert forall k :: 0 <= k < |ids| ==> ids[k] in ToSet(ids);
    DistinctSize(ids);
    if i < |ids| - 1 {
      DenseListingBelow(cards, col, ids, i + 1);
      assert ids[i] != ids[i + 1];
    }
  }

  lemma DenseIsUnchanged(mid: Cards, read: Uuid, src: seq<Uuid>)
    requires Dense(mid, read) && IsListing(mid, read, src)
    ensures Reindex(mid, read, src) == mid
  {
    var cards' := Reindex(mid, read, src);
    ReindexNumbers(mid, read, src);
    forall c | c in mid
      ensures cards'[c] == mid[c]
    {
      if c in src {
        RowKept(mid, cards', read, src, c);
        var i := cards'[c].pos;
        assert c in InColumn(mid, read);
        DenseListing(mid, read, src, i);
        DenseListingBelow(mid, read, src, i);
      }
    }
  }

  /** Re-numbering a column changes nothing exactly when it was dense. */
  lemma LeavesUnchangedIff(mid: Cards, id: Uuid, read: Uuid, src: seq<Uuid>)
    requires id !in InColumn(mid, read) && IsListing(mid, read, src)
    ensures Reindex(mid, read, Without(src, id)) == mid <==> Dense(mid, read)
  {
    Leaves(mid, id, read, src);
    if Dense(mid, read) {
      assert id !in ToSet(src);
      AbsentIsKept(src, id);
      DenseIsUnchanged(mid, read, src);
    }
  }

  /** A card already in the target is listed twice: the last place is taken and
      one before it is left empty. */
  lemma ListedTwiceIsNotDense(cards: Cards, id: Uuid, target: Uuid, index: int, dest: seq<Uuid>)
    requires id in cards && cards[id].column == target && IsListing(cards, target, dest)
    ensures !Dense(Reindex(cards, target, InsertAt(dest, id, index)), target)
  {
    var order := InsertAt(dest, id, index);
    var mid := Reindex(cards, target, order);
    Enters(cards, id, target, index, dest);
    InsertMembers(dest, id, index);
    ReindexNumbers(cards, target, order);
    DistinctSize(dest);
    var n := |dest|;
    assert InColumn(mid, target) == InColumn(cards, target);
    assert order[n] in ToSet(order) && order[n] in cards;
    assert LastAt(order, n);
    assert Pos(mid, order[n]) == n;
  }

  /** A move that read an old column keeps the promise if and only if the card
      was not in the target already, the column it really leaves is dense without
      it, and the column it read was dense (or is the target). */
  lemma StaleMoveMovesIff(cards: Cards, cards': Cards, id: Uuid, target: Uuid, index: int, read: Uuid)
    requires id in cards && cards[id].column != read && Transacted(cards, cards', id, target, index, read)
    ensures Moved(cards, cards', id, target, index) <==>
      && cards[id].column != target
      && Dense(cards - {id}, cards[id].column)
      && (read == target || Dense(cards, read))
  {
    var dest, src :| TransactedBy(cards, cards', id, target, index, read, dest, src);
    var home := cards[id].column;
    EveryMoveSettles(cards, cards', id, target, index, read);
    if home == target {
      StaleIntoOwnColumn(cards, cards', id, target, index, read, dest, src);
    } else {
      MoveIsDense(cards, cards', id, target, index, read);
      assert forall c :: c in cards && c != id && cards[c].column == home ==> cards'[c] == cards[c];
      ColumnWithout(cards, cards', id, home);
      SettledElsewhere(cards, cards', id, target, index, read);
      if read != target {
        StaleSource(cards, cards', id, target, index, read, dest, src);
      }
    }
  }

  ghost predicate SameRows(cards: Cards, cards': Cards, col: Uuid)
    requires cards'.Keys == cards.Keys
  {
    forall c :: c in cards && cards[c].column == col ==> cards'[c] == cards[c]
  }

  lemma SettledElsewhere(cards: Cards, cards': Cards, id: Uuid, target: Uuid, index: int, read: Uuid)
    requires id in cards && cards[id].column != read && cards[id].column != target && Settled(cards, cards', id, target, read)
    requires Dense(cards', target) && Pos(cards', id) == Clamp(index, |InColumn(cards, target) - {id}|)
    ensures Moved(cards, cards', id, target, index) <==>
      Dense(cards', cards[id].column) && (read == target || SameRows(cards, cards', read))
  {
    ClampPlaces(cards, id, target, index, Pos(cards', id));
  }

  lemma StaleIntoOwnColumn(
    cards: Cards, cards': Cards, id: Uuid, target: Uuid, index: int, read: Uuid, dest: seq<Uuid>, src: seq<Uuid>)
    requires id in cards && cards[id].column == target != read
    requires TransactedBy(cards, cards', id, target, index, read, dest, src)
    ensures !Dense(cards', target)
  {
    var mid := Reindex(cards, target, InsertAt(dest, id, index));
    ListedTwiceIsNotDense(cards, id, target, index, dest);
    Enters(cards, id, target, index, dest);
    LeftBehind(cards, mid, id, target, read);
    Leaves(mid, id, read, src);
    TwoWritesSettle(cards, mid, cards', id, target, read);
    assert forall c :: c in cards && (mid[c].column == target || cards'[c].column == target) ==> cards'[c] == mid[c];
    SameColumn(mid, cards', target);
  }

  lemma ColumnWithout(cards: Cards, cards': Cards, id: Uuid, col: Uuid)
    requires cards'.Keys == cards.Keys && id in cards && cards'[id].column != col
    requires forall c :: c in cards && c != id ==> cards'[c].column == cards[c].column
    requires forall c :: c in cards && c != id && cards[c].column == col ==> cards'[c] == cards[c]
    ensures Dense(cards', col) <==> Dense(cards - {id}, col)
  {
    assert InColumn(cards', col) == InColumn(cards - {id}, col);
    assert forall c :: c in InColumn(cards', col) ==> Pos(cards', c) == Pos(cards - {id}, c);
  }

  lemma StaleSource(
    cards: Cards, cards': Cards, id: Uuid, target: Uuid, index: int, read: Uuid, dest: seq<Uuid>, src: seq<Uuid>)
    requires id in cards && cards[id].column != target && cards[id].column != read && read != target
    requires TransactedBy(cards, cards', id, target, index, read, dest, src)
    ensures cards'.Keys == cards.Keys && (SameRows(cards, cards', read) <==> Dense(cards, read))
  {
    var mid := Reindex(cards, target, InsertAt(dest, id, index));
    Enters(cards, id, target, index, dest);
    LeftBehind(cards, mid, id, target, read);
    Leaves(mid, id, read, src);
    TwoWritesSettle(cards, mid, cards', id, target, read);
    LeavesUnchangedIff(mid, id, read, src);
    assert forall c :: c in cards && (cards[c].column == read || mid[c].column == read) ==> mid[c] == cards[c];
    SameColumn(cards, mid, read);
    if SameRows(cards, cards', read) {
      SameColumn(cards, cards', read);
    }
  }

  // ---- the comment on remove ----

  function DropFirst(ids: seq<Uuid>, id: Uuid): seq<Uuid> {
    if ids == [] then [] else if ids[0] == id then ids[1..] else [ids[0]] + DropFirst(ids[1..], id)
  }

  lemma {:induction false} WithoutFromTheFront(ids: seq<Uuid>, id: Uuid)
    requires ids != []
    ensures Without(ids, id) == (if ids[0] == id then [] else [ids[0]]) + Without(ids[1..], id)
  {
    var n := |ids| - 1;
    if n > 0 {
      WithoutFromTheFront(ids[..n], id);
      assert ids[..n][1..] == ids[1..][..n - 1];
      assert ids[1..][n - 1] == ids[n];
    }
  }

  lemma {:induction false} WithoutSize(ids: seq<Uuid>, id: Uuid)
    ensures |Without(ids, id)| == |ids| - multiset(ids)[id]
  {
    if ids != [] {
      var n := |ids| - 1;
      WithoutSize(ids[..n], id);
      assert ids == ids[..n] + [ids[n]];
    }
  }

  lemma {:induction false} AbsentIsKept(ids: seq<Uuid>, id: Uuid)
    requires id !in ids
    ensures Without(ids, id) == ids
  {
    if ids != [] {
      AbsentIsKept(ids[..|ids| - 1], id);
    }
  }

  /** `remove` is documented as dropping the first occurrence and drops them
      all: the two agree exactly on lists with at most one. */
  lemma {:induction false} RemoveIsDropFirstIff(ids: seq<Uuid>, id: Uuid)
    ensures Without(ids, id) == DropFirst(ids, id) <==> multiset(ids)[id] <= 1
  {
    if ids != [] {
      WithoutFromTheFront(ids, id);
      assert ids == [ids[0]] + ids[1..];
      if ids[0] == id {
        WithoutSize(ids[1..], id);
        if id !in ids[1..] {
          AbsentIsKept(ids[1..], id);
        }
      } else {
        RemoveIsDropFirstIff(ids[1..], id);
        assert Without(ids, id)[1..] == Without(ids[1..], id);
        assert DropFirst(ids, id)[1..] == DropFirst(ids[1..], id);
      }
    }
  }
}
