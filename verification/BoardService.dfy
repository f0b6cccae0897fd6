/** The board service as it changes the tables, one request at a time: its two
    reads and writes are undisturbed, the columns it finds may hold ties. */
module BoardService {
  import opened Common
  import opened Boards
  import opened BoardRuns

  /** `remove` re-uses its argument's backing array. */
  method Remove(a: array<Uuid>, id: Uuid) returns (n: nat)
    modifies a
    ensures n <= a.Length && a[..n] == Without(old(a[..]), id)
  {
    n := 0;
    ghost var was := a[..];
    for i := 0 to a.Length
      invariant n <= i && a[..n] == Without(was[..i], id) && a[i..] == was[i..]
    {
      assert was[..i + 1][..i] == was[..i] && a[i] == a[i..][0] == was[i];
      if a[i] != id {
        a[n] := a[i];
        n := n + 1;
      }
    }
    assert was[..a.Length] == was;
  }

  /** `ids` lists the column but for `todo`, which does not come before it. */
  ghost predicate Listed(cards: Cards, col: Uuid, ids: seq<Uuid>, todo: set<Uuid>) {
    && todo <= InColumn(cards, col) && ToSet(ids) == InColumn(cards, col) - todo
    && Distinct(ids) && Sorted(cards, ids)
    && forall i, d :: 0 <= i < |ids| && d in todo ==> Pos(cards, ids[i]) <= Pos(cards, d)
  }

  lemma ListOneMore(cards: Cards, col: Uuid, ids: seq<Uuid>, todo: set<Uuid>, c: Uuid)
    requires Listed(cards, col, ids, todo)
    requires c in todo && forall d :: d in todo ==> Pos(cards, c) <= Pos(cards, d)
    ensures Listed(cards, col, ids + [c], todo - {c})
  {
    ToSetSnoc(ids, c);
    assert c !in ToSet(ids);
    assert forall i :: 0 <= i < |ids| ==> ids[i] in ToSet(ids);
  }

  ghost predicate Hang(columns: map<Uuid, Uuid>, cards: Cards) {
    forall c :: c in cards ==>
      cards[c].column in columns && columns[cards[c].column] == cards[c].board && cards[c].pos >= 0
  }

  lemma CreatedLast(columns: map<Uuid, Uuid>, cards: Cards, col: Uuid, m: int, id: Uuid)
    requires Hang(columns, cards) && col in columns && IsMax(cards, col, m)
    ensures Hang(columns, cards[id := Card(columns[col], col, m + 1)])
    ensures forall c :: c in cards && cards[c].column == col ==> cards[c].pos <= m
    ensures m == -1 || exists c :: c in cards && cards[c].column == col && cards[c].pos == m
  {
    forall c | c in cards && cards[c].column == col
      ensures cards[c].pos <= m
    {
      assert c in InColumn(cards, col) && cards[c].pos == Pos(cards, c);
    }
    if m != -1 {
      var c :| c in InColumn(cards, col) && Pos(cards, c) == m;
    }
  }

  class Service {
    var columns: map<Uuid, Uuid>
    /** A column's own position on its board. */
    var places: map<Uuid, int>
    var cards: Cards

    /** Cards hang in columns of their own board; columns and cards are at positions
        from 0 up, and no two columns of a board at the same one. */
    ghost predicate Valid()
      reads this
    {
      && Hang(columns, cards)
      && places.Keys == columns.Keys && (forall k :: k in places ==> places[k] >= 0)
      && (forall j, k :: j in columns && k in columns && j != k && columns[j] == columns[k] ==> places[j] != places[k])
    }

    constructor ()
      ensures columns == map[] && cards == map[] && Valid()
    {
      columns, places, cards := map[], map[], map[];
    }

    /** The highest position of a board's columns, -1 when it has none. */
    method MaxColumnPosition(board: Uuid) returns (m: int)
      requires Valid()
      ensures m >= -1 && forall k :: k in columns && columns[k] == board ==> places[k] <= m
      ensures m >= 0 ==> exists k :: k in columns && columns[k] == board && places[k] == m
    {
      m := -1;
      var todo := columns.Keys;
      while todo != {}
        invariant todo <= columns.Keys && m >= -1
        invariant forall k :: k in columns && k !in todo && columns[k] == board ==> places[k] <= m
        invariant m >= 0 ==> exists k :: k in columns && columns[k] == board && places[k] == m
        decreases |todo|
      {
        var k :| k in todo;
        if columns[k] == board && places[k] > m {
          m := places[k];
        }
        todo := todo - {k};
      }
    }

    method MaxCardPosition(col: Uuid) returns (m: int)
      requires Valid()
      ensures IsMax(cards, col, m)
    {
      m := -1;
      var todo := InColumn(cards, col);
      while todo != {}
        invariant todo <= InColumn(cards, col)
        invariant forall c :: c in InColumn(cards, col) - todo ==> Pos(cards, c) <= m
        invariant m == -1 || exists c :: c in InColumn(cards, col) && Pos(cards, c) == m
        decreases |todo|
      {
        var c :| c in todo;
        if cards[c].pos > m {
          m := cards[c].pos;
        }
        todo := todo - {c};
      }
    }

    /** A row that ORDER BY may put first. */
    method First(todo: set<Uuid>) returns (c: Uuid)
      requires todo != {} && todo <= cards.Keys
      ensures c in todo && forall d :: d in todo ==> Pos(cards, c) <= Pos(cards, d)
    {
      c :| c in todo;
      var rest := todo - {c};
      while rest != {}
        invariant c in todo && rest <= todo
        invariant forall d :: d in todo - rest ==> Pos(cards, c) <= Pos(cards, d)
        decreases |rest|
      {
        var d :| d in rest;
        if cards[d].pos < cards[c].pos {
          c := d;
        }
        rest := rest - {d};
      }
    }

    method ListCardIDsInColumn(col: Uuid) returns (ids: seq<Uuid>)
      ensures IsListing(cards, col, ids)
    {
      ids := [];
      var todo := InColumn(cards, col);
      while todo != {}
        invariant Listed(cards, col, ids, todo)
        decreases |todo|
      {
        var c := First(todo);
        ListOneMore(cards, col, ids, todo, c);
        ids := ids + [c];
        todo := todo - {c};
      }
    }

    method Reindex(col: Uuid, ordered: seq<Uuid>)
      modifies this`cards
      ensures cards == Boards.Reindex(old(cards), col, ordered)
    {
      for i := 0 to |ordered|
        invariant cards == Boards.Reindex(old(cards), col, ordered[..i])
      {
        assert ordered[..i + 1][..i] == ordered[..i];
        if ordered[i] in cards {
          cards := cards[ordered[i] := cards[ordered[i]].(column := col, pos := i)];
        }
      }
      assert ordered[..|ordered|] == ordered;
    }

    /** The new column is the last of its board. */
    method AddColumn(board: Uuid, founder: bool, titled: bool, id: Uuid) returns (error: Option<Error>)
      requires Valid() && id !in columns
      modifies this`columns, this`places
      ensures Valid()
      ensures error == (if !founder then Some(Forbidden) else if !titled then Some(InvalidInput) else None)
      ensures columns == if error == None then old(columns)[id := board] else old(columns)
      ensures forall k :: k in old(columns) ==> k in columns && k in places && places[k] == old(places)[k]
      ensures error == None ==> forall k :: k in old(columns) && columns[k] == board ==> places[k] < places[id]
      ensures error == None ==>
        places[id] == 0 || exists k :: k in old(columns) && old(columns)[k] == board && old(places)[k] == places[id] - 1
      ensures error != None ==> places == old(places)
    {
      if !founder {
        return Some(Forbidden);
      }
      if !titled {
        return Some(InvalidInput);
      }
      var m := MaxColumnPosition(board);
      columns := columns[id := board];
      places := places[id := m + 1];
      return None;
    }

    /** The cards go with the column by ON DELETE CASCADE. */
    method DeleteColumn(col: Uuid, founder: bool) returns (error: Option<Error>)
      requires Valid()
      modifies this`columns, this`places, this`cards
      ensures Valid()
      ensures error == (if col !in old(columns) then Some(NotFound) else if !founder then Some(Forbidden) else None)
      ensures error == None ==> columns == old(columns) - {col} && cards == old(cards) - InColumn(old(cards), col)
      ensures error == None ==> forall c :: c in cards <==> c in old(cards) && old(cards)[c].column != col
      ensures forall k :: k in columns ==> k in places && k in old(places) && places[k] == old(places)[k]
      ensures error != None ==> columns == old(columns) && cards == old(cards)
    {
      if col !in columns {
        return Some(NotFound);
      }
      if !founder {
        return Some(Forbidden);
      }
      columns := columns - {col};
      places := places - {col};
      cards := cards - InColumn(cards, col);
      return None;
    }

    /** The new card is the last of its column, and ties with none. */
    method CreateCard(col: Uuid, member: bool, titled: bool, assigneeOk: bool, id: Uuid) returns (error: Option<Error>)
      requires Valid() && id !in cards
      modifies this`cards
      ensures Valid()
      ensures error == (if col !in columns then Some(NotFound) else if !member then Some(Forbidden)
                        else if !titled || !assigneeOk then Some(InvalidInput) else None)
      ensures if error == None then cards.Keys == old(cards).Keys + {id} else cards == old(cards)
      ensures error == None ==> cards[id].column == col && cards[id].board == columns[col]
      ensures forall c :: c in old(cards) ==> c in cards && cards[c] == old(cards)[c]
      ensures error == None ==> forall c :: c in old(cards) && old(cards)[c].column == col ==> cards[c].pos < cards[id].pos
      ensures error == None ==>
        cards[id].pos == 0 || exists c :: c in old(cards) && old(cards)[c].column == col && old(cards)[c].pos == cards[id].pos - 1
    {
      if col !in columns {
        return Some(NotFound);
      }
      if !member {
        return Some(Forbidden);
      }
      if !titled || !assigneeOk {
        return Some(InvalidInput);
      }
      var m := MaxCardPosition(col);
      CreatedLast(columns, cards, col, m, id);
      cards := cards[id := Card(columns[col], col, m + 1)];
      return None;
    }

    method DeleteCard(id: Uuid, member: bool, creatorOrFounder: bool) returns (error: Option<Error>)
      requires Valid()
      modifies this`cards
      ensures Valid()
      ensures error == (if id !in old(cards) then Some(NotFound)
                        else if !member || !creatorOrFounder then Some(Forbidden) else None)
      ensures cards == if error == None then old(cards) - {id} else old(cards)
    {
      if id !in cards {
        return Some(NotFound);
      }
      if !member || !creatorOrFounder {
        return Some(Forbidden);
      }
      cards := cards - {id};
      return None;
    }

    /** The transaction of a move, for a card whose column was read as `read`. */
    method MoveTx(id: Uuid, target: Uuid, index: int, read: Uuid)
      modifies this`cards
      ensures Transacted(old(cards), cards, id, target, index, read)
    {
      var dest := ListCardIDsInColumn(target);
      if read == target {
        var slice := new Uuid[|dest|](k requires 0 <= k < |dest| => dest[k]);
        assert slice[..] == dest;
        var n := Remove(slice, id);
        Reindex(target, InsertAt(slice[..n], id, index));
        assert TransactedBy(old(cards), cards, id, target, index, read, dest, []);
      } else {
        Reindex(target, InsertAt(dest, id, index));
        var src := ListCardIDsInColumn(read);
        var slice := new Uuid[|src|](k requires 0 <= k < |src| => src[k]);
        assert slice[..] == src;
        var n := Remove(slice, id);
        Reindex(read, slice[..n]);
        assert TransactedBy(old(cards), cards, id, target, index, read, dest, src);
      }
    }

    method Move(id: Uuid, target: Uuid, index: int, member: bool) returns (error: Option<Error>)
      requires Valid()
      modifies this`cards
      ensures Valid()
      ensures error == (if id !in old(cards) then Some(NotFound) else if !member then Some(Forbidden)
                        else if target !in columns then Some(NotFound)
                        else if columns[target] != old(cards)[id].board then Some(ColumnMissing) else None)
      ensures if error == None then Moved(old(cards), cards, id, target, index) else cards == old(cards)
    {
      if id !in cards {
        return Some(NotFound);
      }
      if !member {
        return Some(Forbidden);
      }
      if target !in columns {
        return Some(NotFound);
      }
      if columns[target] != cards[id].board {
        return Some(ColumnMissing);
      }
      MoveTx(id, target, index, cards[id].column);
      FreshMoveMoves(old(cards), cards, id, target, index);
      MovedHangs(columns, old(cards), cards, id, target, index);
      return None;
    }
  }

  lemma MovedHangs(columns: map<Uuid, Uuid>, cards: Cards, cards': Cards, id: Uuid, target: Uuid, index: int)
    requires id in cards && Moved(cards, cards', id, target, index) && Hang(columns, cards)
    requires target in columns && columns[target] == cards[id].board
    ensures Hang(columns, cards')
  {
    forall c | c in cards'
      ensures cards'[c].pos >= 0
    {
      assert c in InColumn(cards', cards'[c].column);
      assert cards'[c].pos == Pos(cards', c);
    }
  }
}
