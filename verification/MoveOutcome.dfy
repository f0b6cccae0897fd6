/** How much the promise of a move leaves open: nothing, but for cards that
    were tied before it. */
module MoveOutcome {
  import opened Common
  import opened Boards

  // ---- positions are ranks ----

  lemma {:induction false} NoTiesFit(cards: Cards, s: set<Uuid>, lo: int, hi: int)
    requires lo <= hi && forall c :: c in s ==> lo <= Pos(cards, c) < hi
    requires forall a, b :: a in s && b in s && a != b ==> Pos(cards, a) != Pos(cards, b)
    ensures |s| <= hi - lo
    decreases hi - lo
  {
    if s != {} {
      if c :| c in s && Pos(cards, c) == hi - 1 {
        NoTiesFit(cards, s - {c}, lo, hi - 1);
      } else {
        assert forall c :: c in s ==> Pos(cards, c) < hi - 1;
        assert exists c :: c in s;
        NoTiesFit(cards, s, lo, hi - 1);
      }
    }
  }

  ghost function Below(cards: Cards, col: Uuid, p: int): set<Uuid> {
    set c | c in InColumn(cards, col) && Pos(cards, c) < p
  }

  /** In a dense column a card's position is the number of cards before it. */
  lemma DensePosition(cards: Cards, col: Uuid, c: Uuid)
    requires Dense(cards, col) && c in InColumn(cards, col)
    ensures Pos(cards, c) == |Below(cards, col, Pos(cards, c))|
  {
    SplitAt(cards, InColumn(cards, col), Below(cards, col, Pos(cards, c)), Pos(cards, c));
  }

  lemma SplitAt(cards: Cards, all: set<Uuid>, low: set<Uuid>, p: int)
    requires low <= all && 0 <= p <= |all|
    requires forall c :: c in all ==> 0 <= Pos(cards, c) < |all| && (c in low <==> Pos(cards, c) < p)
    requires forall a, b :: a in all && b in all && a != b ==> Pos(cards, a) != Pos(cards, b)
    ensures |low| == p
  {
    NoTiesFit(cards, low, 0, p);
    NoTiesFit(cards, all - low, p, |all|);
    assert all == low + (all - low);
  }

  // ---- without ties there is one outcome ----

  ghost predicate NoOtherTies(cards: Cards, id: Uuid, col: Uuid) {
    forall a, b :: a in InColumn(cards, col) && b in InColumn(cards, col) && a != b && a != id && b != id
      ==> Pos(cards, a) != Pos(cards, b)
  }

  ghost function OthersBefore(cards: Cards, id: Uuid, c: Uuid): set<Uuid>
    requires c in cards
  {
    set d | d in cards && d != id && cards[d].column == cards[c].column && Pos(cards, d) < Pos(cards, c)
  }

  lemma PositionAfterMove(cards: Cards, cards': Cards, id: Uuid, target: Uuid, index: int, c: Uuid)
    requires id in cards && Moved(cards, cards', id, target, index)
    requires c in cards && c != id && (cards[c].column == target || cards[c].column == cards[id].column)
    requires NoOtherTies(cards, id, cards[c].column)
    ensures var r := |OthersBefore(cards, id, c)|;
      Pos(cards', c) == if cards[c].column == target && Pos(cards', id) <= r then r + 1 else r
  {
    var col := cards[c].column;
    assert c in InColumn(cards', col);
    DensePosition(cards', col, c);
    var below := Below(cards', col, Pos(cards', c));
    forall d | d in cards && d != id
      ensures d in below <==> d in OthersBefore(cards, id, c)
    {
      assert d in InColumn(cards', col) <==> cards[d].column == col;
      if cards[d].column == col && d != c {
        assert d in InColumn(cards, col) && c in InColumn(cards, col);
        assert KeepsOrder(cards, cards', d, c) && KeepsOrder(cards, cards', c, d);
      }
    }
    assert below - {id} == OthersBefore(cards, id, c);
    if id in below {
      assert below == OthersBefore(cards, id, c) + {id};
    } else {
      assert below == OthersBefore(cards, id, c);
      assert col == target ==> id in InColumn(cards', col);
    }
  }

  lemma OneOutcome(cards: Cards, x: Cards, y: Cards, id: Uuid, target: Uuid, index: int)
    requires id in cards && NoOtherTies(cards, id, target) && NoOtherTies(cards, id, cards[id].column)
    ensures Moved(cards, x, id, target, index) && Moved(cards, y, id, target, index) ==> x == y
  {
    if Moved(cards, x, id, target, index) && Moved(cards, y, id, target, index) {
      forall c | c in cards
        ensures x[c] == y[c]
      {
        if c != id && (cards[c].column == target || cards[c].column == cards[id].column) {
          PositionAfterMove(cards, x, id, target, index, c);
          PositionAfterMove(cards, y, id, target, index, c);
        }
      }
    }
  }

  // ---- tied cards may come out either way ----

  ghost function Swapped(x: Cards, a: Uuid, b: Uuid): Cards
    requires a in x && b in x
  {
    x[a := x[a].(pos := x[b].pos)][b := x[b].(pos := x[a].pos)]
  }

  lemma SwapKeepsDense(x: Cards, a: Uuid, b: Uuid, col: Uuid)
    requires a in x && b in x && a != b && x[a].column == x[b].column && Dense(x, col)
    ensures Dense(Swapped(x, a, b), col)
  {
    var y := Swapped(x, a, b);
    assert InColumn(y, col) == InColumn(x, col);
    forall c | c in InColumn(y, col)
      ensures Pos(y, c) == Pos(x, if c == a then b else if c == b then a else c)
    {
    }
  }

  lemma SwapSettles(cards: Cards, x: Cards, id: Uuid, target: Uuid, a: Uuid, b: Uuid)
    requires id in cards && Settled(cards, x, id, target, cards[id].column)
    requires a in cards && b in cards && a != b && a != id && b != id
    requires cards[a].column == cards[b].column && Pos(cards, a) == Pos(cards, b)
    requires cards[a].column == target || cards[a].column == cards[id].column
    requires NoTies(Swapped(x, a, b), target) && NoTies(Swapped(x, a, b), cards[id].column)
    ensures Settled(cards, Swapped(x, a, b), id, target, cards[id].column)
  {
    var y := Swapped(x, a, b);
    forall p, q | p in cards && q in cards && p != id && q != id && cards[p].column == cards[q].column
      ensures KeepsOrder(cards, y, p, q)
    {
    }
  }

  lemma SwapKeepsPromise(cards: Cards, x: Cards, id: Uuid, target: Uuid, index: int, a: Uuid, b: Uuid)
    requires id in cards && Moved(cards, x, id, target, index)
    requires a in cards && b in cards && a != b && a != id && b != id
    requires cards[a].column == cards[b].column && Pos(cards, a) == Pos(cards, b)
    requires cards[a].column == target || cards[a].column == cards[id].column
    ensures Moved(cards, Swapped(x, a, b), id, target, index)
  {
    SwapKeepsDense(x, a, b, target);
    SwapKeepsDense(x, a, b, cards[id].column);
    SwapSettles(cards, x, id, target, a, b);
  }

  lemma TiedTwoOutcomes(cards: Cards, x: Cards, id: Uuid, target: Uuid, index: int, col: Uuid)
    requires id in cards && Moved(cards, x, id, target, index) && !NoOtherTies(cards, id, col)
    requires col == target || col == cards[id].column
    ensures exists y :: Moved(cards, y, id, target, index) && y != x
  {
    var a, b :| a in InColumn(cards, col) && b in InColumn(cards, col) && a != b && a != id && b != id
      && Pos(cards, a) == Pos(cards, b);
    SwapKeepsPromise(cards, x, id, target, index, a, b);
    assert a in InColumn(x, col) && b in InColumn(x, col);
    assert Swapped(x, a, b)[a].pos == x[b].pos != x[a].pos;
  }

  /** The promise of a move determines its outcome if and only if no two other
      cards of the columns it touches were tied. */
  lemma MoveIsDeterminedIff(cards: Cards, x: Cards, id: Uuid, target: Uuid, index: int)
    requires id in cards
    ensures Moved(cards, x, id, target, index) ==>
      ((forall y :: Moved(cards, y, id, target, index) ==> y == x)
       <==> NoOtherTies(cards, id, target) && NoOtherTies(cards, id, cards[id].column))
  {
    if Moved(cards, x, id, target, index) {
      if NoOtherTies(cards, id, target) && NoOtherTies(cards, id, cards[id].column) {
        forall y | Moved(cards, y, id, target, index)
          ensures y == x
        {
          OneOutcome(cards, x, y, id, target, index);
        }
      } else if !NoOtherTies(cards, id, target) {
        TiedTwoOutcomes(cards, x, id, target, index, target);
      } else {
        TiedTwoOutcomes(cards, x, id, target, index, cards[id].column);
      }
    }
  }
}
