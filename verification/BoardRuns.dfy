/** Runs of board operations. A create reads the highest position and inserts
    in two statements; a move reads the card and re-numbers in a transaction of
    its own. Any number of requests may be between their two steps. */
module BoardRuns {
  import opened Common
  import opened Boards

  /** What a create, or a move, has read so far. */
  datatype Creating = Creating(col: Uuid, pos: int)
  datatype Moving = Moving(id: Uuid, read: Uuid, target: Uuid, index: int)

  /** `columns` gives each column's board; `used` are the ids ever drawn. */
  datatype State = State(
    columns: map<Uuid, Uuid>, cards: Cards,
    creating: map<Uuid, Creating>, moving: map<Uuid, Moving>, used: set<Uuid>)

  datatype Op =
    | AddColumn(col: Uuid, board: Uuid)
    | DeleteColumn(col: Uuid)
    | ReadMax(req: Uuid, col: Uuid)
    | Insert(req: Uuid, id: Uuid)
    | ReadMove(req: Uuid, id: Uuid, target: Uuid, index: int)
    | CommitMove(req: Uuid)
    | DeleteCard(id: Uuid)
    | GiveUp(req: Uuid)

  /** m is the highest position in the column, -1 when it is empty. */
  ghost predicate IsMax(cards: Cards, col: Uuid, m: int) {
    && (forall c :: c in InColumn(cards, col) ==> Pos(cards, c) <= m)
    && (m == -1 || exists c :: c in InColumn(cards, col) && Pos(cards, c) == m)
    && (InColumn(cards, col) == {} ==> m == -1)
  }

  /** A foreign key keeps cards out of columns that are gone; a commit that
      would break it fails, and gives up. */
  ghost predicate Step(s: State, op: Op, s': State) {
    match op
    case AddColumn(col, board) =>
      col !in s.used && s' == s.(columns := s.columns[col := board], used := s.used + {col})
    case DeleteColumn(col) =>
      s' == s.(columns := s.columns - {col}, cards := s.cards - InColumn(s.cards, col))
    case ReadMax(req, col) =>
      && req !in s.creating && col in s.columns
      && exists m :: IsMax(s.cards, col, m) && s' == s.(creating := s.creating[req := Creating(col, m + 1)])
    case Insert(req, id) =>
      && req in s.creating && id !in s.used && s.creating[req].col in s.columns
      && var Creating(col, pos) := s.creating[req];
         s' == s.(cards := s.cards[id := Card(s.columns[col], col, pos)],
                  creating := s.creating - {req}, used := s.used + {id})
    case ReadMove(req, id, target, index) =>
      && req !in s.moving && id in s.cards && target in s.columns && s.columns[target] == s.cards[id].board
      && s' == s.(moving := s.moving[req := Moving(id, s.cards[id].column, target, index)])
    case CommitMove(req) =>
      && req in s.moving
      && var Moving(id, read, target, index) := s.moving[req];
         && (target in s.columns || id !in s.cards)
         && Transacted(s.cards, s'.cards, id, target, index, read)
         && s' == s.(cards := s'.cards, moving := s.moving - {req})
    case DeleteCard(id) =>
      s' == s.(cards := s.cards - {id})
    case GiveUp(req) =>
      s' == s.(creating := s.creating - {req}, moving := s.moving - {req})
  }

  ghost predicate IsRun(run: seq<State>, ops: seq<Op>) {
    && |run| == |ops| + 1
    && forall k {:trigger ops[k]} :: 0 <= k < |ops| ==> Step(run[k], ops[k], run[k + 1])
  }

  const EMPTY := State(map[], map[], map[], map[], {})

  // ---- boards ----

  /** Every card hangs in a column of its own board, and every pending move
      still leads to one. */
  ghost predicate Inv(s: State) {
    && s.cards.Keys <= s.used && s.columns.Keys <= s.used
    && (forall c :: c in s.cards ==> s.cards[c].column in s.columns && s.columns[s.cards[c].column] == s.cards[c].board)
    && (forall r :: r in s.moving ==>
          var m := s.moving[r];
          && m.id in s.used && m.target in s.used
          && (m.id in s.cards && m.target in s.columns ==> s.columns[m.target] == s.cards[m.id].board))
  }

  lemma StepKeeps(s: State, op: Op, s': State)
    requires Inv(s) && Step(s, op, s')
    ensures Inv(s')
  {
    if op.CommitMove? {
      var Moving(id, read, target, index) := s.moving[op.req];
      EveryMoveSettles(s.cards, s'.cards, id, target, index, read);
    }
  }

  lemma {:induction false} CardsStayOnTheirBoard(run: seq<State>, ops: seq<Op>, k: nat)
    requires IsRun(run, ops) && Inv(run[0]) && k < |run|
    ensures Inv(run[k])
  {
    if k > 0 {
      CardsStayOnTheirBoard(run, ops, k - 1);
      StepKeeps(run[k - 1], ops[k - 1], run[k]);
    }
  }

  // ---- positions ----

  ghost predicate AllDistinct(s: State) { forall col :: NoTies(s.cards, col) }

  /** The insert comes to a place that was taken since its maximum was read. */
  ghost predicate Collides(s: State, op: Op) {
    && op.Insert? && op.req in s.creating
    && exists c :: c in InColumn(s.cards, s.creating[op.req].col) && Pos(s.cards, c) == s.creating[op.req].pos
  }

  lemma InsertIsDistinctIff(s: State, op: Op, s': State)
    requires AllDistinct(s) && op.Insert? && Step(s, op, s') && op.id !in s.cards
    ensures AllDistinct(s') <==> !Collides(s, op)
  {
    var Creating(col, pos) := s.creating[op.req];
    assert op.id in InColumn(s'.cards, col) && Pos(s'.cards, op.id) == pos;
    forall k, c | c in InColumn(s.cards, k)
      ensures c in InColumn(s'.cards, k) && Pos(s'.cards, c) == Pos(s.cards, c)
    {
    }
    if Collides(s, op) {
      var c :| c in InColumn(s.cards, col) && Pos(s.cards, c) == pos;
      assert c != op.id;
      assert !NoTies(s'.cards, col);
    } else {
      forall k, a, b | a in InColumn(s'.cards, k) && b in InColumn(s'.cards, k) && a != b
        ensures Pos(s'.cards, a) != Pos(s'.cards, b)
      {
        assert NoTies(s.cards, k);
        assert a != op.id ==> a in InColumn(s.cards, k);
        assert b != op.id ==> b in InColumn(s.cards, k);
      }
    }
  }

  lemma FewerIsDistinct(cards: Cards, cards': Cards, col: Uuid)
    requires NoTies(cards, col) && cards'.Keys <= cards.Keys
    requires forall c :: c in InColumn(cards', col) ==> c in InColumn(cards, col) && cards'[c] == cards[c]
    ensures NoTies(cards', col)
  {
  }

  lemma MoveIsDistinct(s: State, op: Op, s': State)
    requires AllDistinct(s) && op.CommitMove? && Step(s, op, s')
    ensures AllDistinct(s')
  {
    var Moving(id, read, target, index) := s.moving[op.req];
    EveryMoveSettles(s.cards, s'.cards, id, target, index, read);
    forall col
      ensures NoTies(s'.cards, col)
    {
      if col != target && col != read {
        FewerIsDistinct(s.cards, s'.cards, col);
      }
    }
  }

  /** A step makes the first tie if and only if it inserts where a card stands. */
  lemma StepIsDistinctIff(s: State, op: Op, s': State)
    requires Inv(s) && AllDistinct(s) && Step(s, op, s')
    ensures AllDistinct(s') <==> !Collides(s, op)
  {
    match op {
      case Insert(_, id) => InsertIsDistinctIff(s, op, s');
      case CommitMove(_) => MoveIsDistinct(s, op, s');
      case _ =>
        forall col
          ensures NoTies(s'.cards, col)
        {
          FewerIsDistinct(s.cards, s'.cards, col);
        }
    }
  }

  lemma {:induction false} DistinctWithoutCollision(run: seq<State>, ops: seq<Op>, k: nat)
    requires IsRun(run, ops) && Inv(run[0]) && AllDistinct(run[0]) && k < |run|
    requires forall j :: 0 <= j < k ==> !Collides(run[j], ops[j])
    ensures AllDistinct(run[k])
  {
    if k > 0 {
      DistinctWithoutCollision(run, ops, k - 1);
      CardsStayOnTheirBoard(run, ops, k - 1);
      StepIsDistinctIff(run[k - 1], ops[k - 1], run[k]);
    }
  }

  /** Over every run: positions stay distinct exactly as long as no insert comes
      to a place taken since its maximum was read. */
  lemma PositionsStayDistinctIff(run: seq<State>, ops: seq<Op>)
    requires IsRun(run, ops) && Inv(run[0]) && AllDistinct(run[0])
    ensures (forall j :: 0 <= j < |run| ==> AllDistinct(run[j])) <==> (forall j :: 0 <= j < |ops| ==> !Collides(run[j], ops[j]))
  {
    if forall j :: 0 <= j < |run| ==> AllDistinct(run[j]) {
      forall j | 0 <= j < |ops|
        ensures !Collides(run[j], ops[j])
      {
        CardsStayOnTheirBoard(run, ops, j);
        assert AllDistinct(run[j]) && AllDistinct(run[j + 1]);
        StepIsDistinctIff(run[j], ops[j], run[j + 1]);
      }
    }
    if forall j :: 0 <= j < |ops| ==> !Collides(run[j], ops[j]) {
      forall j | 0 <= j < |run|
        ensures AllDistinct(run[j])
      {
        DistinctWithoutCollision(run, ops, j);
      }
    }
  }

  /** Creates whose two statements are next to each other never collide,
      whatever moves and deletes run around them. */
  lemma {:induction false} UndisturbedCreatesStayDistinct(run: seq<State>, ops: seq<Op>, k: nat)
    requires IsRun(run, ops) && Inv(run[0]) && AllDistinct(run[0]) && k < |run|
    requires forall j :: 0 <= j < |ops| && ops[j].Insert? ==> j > 0 && ops[j - 1].ReadMax? && ops[j - 1].req == ops[j].req
    ensures AllDistinct(run[k])
  {
    if k > 0 {
      UndisturbedCreatesStayDistinct(run, ops, k - 1);
      CardsStayOnTheirBoard(run, ops, k - 1);
      StepIsDistinctIff(run[k - 1], ops[k - 1], run[k]);
      if ops[k - 1].Insert? {
        assert Step(run[k - 2], ops[k - 2], run[k - 1]);
      }
    }
  }

  /** A move leaves no ties in the columns it writes, even where there were some. */
  lemma MoveHeals(s: State, op: Op, s': State)
    requires op.CommitMove? && Step(s, op, s')
    ensures NoTies(s'.cards, s.moving[op.req].target) && NoTies(s'.cards, s.moving[op.req].read)
  {
    var Moving(id, read, target, index) := s.moving[op.req];
    EveryMoveSettles(s.cards, s'.cards, id, target, index, read);
  }

  /** Two moves of one card that read the same column: the second leaves a gap. */
  lemma SecondMoveLeavesAGap(s: State, first: Uuid, s1: State, second: Uuid, s2: State)
    requires first != second && first in s.moving && second in s.moving && s.moving[first].id in s.cards
    requires s.moving[first] == s.moving[second] && s.moving[first].read != s.moving[first].target
    requires Step(s, CommitMove(first), s1) && Step(s1, CommitMove(second), s2)
    ensures !Dense(s2.cards, s.moving[first].target)
  {
    var Moving(id, read, target, index) := s.moving[first];
    EveryMoveSettles(s.cards, s1.cards, id, target, index, read);
    StaleMoveMovesIff(s1.cards, s2.cards, id, target, index, read);
    var dest, src :| TransactedBy(s1.cards, s2.cards, id, target, index, read, dest, src);
    StaleIntoOwnColumn(s1.cards, s2.cards, id, target, index, read, dest, src);
  }

  lemma {:induction false} Highest(cards: Cards, todo: set<Uuid>) returns (c: Uuid)
    requires todo != {}
    ensures c in todo && forall d :: d in todo ==> Pos(cards, d) <= Pos(cards, c)
    decreases |todo|
  {
    c :| c in todo;
    if todo - {c} != {} {
      var d := Highest(cards, todo - {c});
      if Pos(cards, d) > Pos(cards, c) {
        c := d;
      }
    }
  }

  lemma {:induction false} ListingExists(cards: Cards, todo: set<Uuid>) returns (ids: seq<Uuid>)
    ensures ToSet(ids) == todo && Distinct(ids) && Sorted(cards, ids)
    decreases |todo|
  {
    ids := [];
    if todo != {} {
      var c := Highest(cards, todo);
      ids := ListingExists(cards, todo - {c});
      assert forall i :: 0 <= i < |ids| ==> ids[i] in ToSet(ids);
      ToSetSnoc(ids, c);
      ids := ids + [c];
    }
  }

  /** Whatever the rows are and whatever was read, a move has an outcome. */
  lemma MoveHasAnOutcome(cards: Cards, id: Uuid, target: Uuid, index: int, read: Uuid) returns (cards': Cards)
    ensures Transacted(cards, cards', id, target, index, read)
  {
    var dest := ListingExists(cards, InColumn(cards, target));
    var mid := Reindex(cards, target, InsertAt(dest, id, index));
    var src := ListingExists(mid, InColumn(mid, read));
    cards' := if read == target then Reindex(cards, target, InsertAt(Without(dest, id), id, index))
              else Reindex(mid, read, Without(src, id));
    assert TransactedBy(cards, cards', id, target, index, read, dest, src);
  }

  lemma Extend(run: seq<State>, ops: seq<Op>, op: Op, s': State)
    requires IsRun(run, ops) && Step(run[|ops|], op, s')
    ensures IsRun(run + [s'], ops + [op])
  {
  }

  /** One card on a board of two columns. */
  lemma OneCard() returns (run: seq<State>, ops: seq<Op>)
    ensures IsRun(run, ops) && run[0] == EMPTY
    ensures run[|ops|] == State(map[1 := 7, 2 := 7], map[3 := Card(7, 1, 0)], map[], map[], {1, 2, 3})
  {
    var s1 := EMPTY.(columns := map[1 := 7], used := {1});
    var s2 := s1.(columns := map[1 := 7, 2 := 7], used := {1, 2});
    var s3 := s2.(creating := map[10 := Creating(1, 0)]);
    var s4 := s2.(cards := map[3 := Card(7, 1, 0)], used := {1, 2, 3});
    run, ops := [EMPTY], [];
    Extend(run, ops, AddColumn(1, 7), s1);
    run, ops := run + [s1], ops + [AddColumn(1, 7)];
    Extend(run, ops, AddColumn(2, 7), s2);
    run, ops := run + [s2], ops + [AddColumn(2, 7)];
    assert IsMax(s2.cards, 1, -1);
    Extend(run, ops, ReadMax(10, 1), s3);
    run, ops := run + [s3], ops + [ReadMax(10, 1)];
    assert s3.creating - {10} == map[];
    Extend(run, ops, Insert(10, 3), s4);
    run, ops := run + [s4], ops + [Insert(10, 3)];
  }

  /** Two creates that read the same maximum end up tied. */
  lemma TieHappens() returns (run: seq<State>, ops: seq<Op>)
    ensures IsRun(run, ops) && run[0] == EMPTY && !AllDistinct(run[|ops|])
  {
    run, ops := OneCard();
    var s4 := run[|ops|];
    assert InColumn(s4.cards, 2) == {} && IsMax(s4.cards, 2, -1);
    var s5 := s4.(creating := map[11 := Creating(2, 0)]);
    Extend(run, ops, ReadMax(11, 2), s5);
    run, ops := run + [s5], ops + [ReadMax(11, 2)];
    var s6 := s5.(creating := s5.creating[12 := Creating(2, 0)]);
    Extend(run, ops, ReadMax(12, 2), s6);
    run, ops := run + [s6], ops + [ReadMax(12, 2)];
    var s7 := s6.(cards := s6.cards[4 := Card(7, 2, 0)], creating := s6.creating - {11}, used := s6.used + {4});
    Extend(run, ops, Insert(11, 4), s7);
    run, ops := run + [s7], ops + [Insert(11, 4)];
    var s8 := s7.(cards := s7.cards[5 := Card(7, 2, 0)], creating := s7.creating - {12}, used := s7.used + {5});
    Extend(run, ops, Insert(12, 5), s8);
    run, ops := run + [s8], ops + [Insert(12, 5)];
    assert 4 in InColumn(s8.cards, 2) && 5 in InColumn(s8.cards, 2);
    assert !NoTies(s8.cards, 2);
  }

  /** It happens: card 3 of column 1 is moved to column 2 twice at once. */
  lemma GapHappens() returns (run: seq<State>, ops: seq<Op>)
    ensures IsRun(run, ops) && run[0] == EMPTY && !Dense(run[|ops|].cards, 2)
  {
    run, ops := OneCard();
    var s4, move := run[|ops|], Moving(3, 1, 2, 0);
    var s5 := s4.(moving := map[11 := move]);
    Extend(run, ops, ReadMove(11, 3, 2, 0), s5);
    run, ops := run + [s5], ops + [ReadMove(11, 3, 2, 0)];
    var s6 := s5.(moving := s5.moving[12 := move]);
    Extend(run, ops, ReadMove(12, 3, 2, 0), s6);
    run, ops := run + [s6], ops + [ReadMove(12, 3, 2, 0)];
    var cards7 := MoveHasAnOutcome(s6.cards, 3, 2, 0, 1);
    var s7 := s6.(cards := cards7, moving := s6.moving - {11});
    Extend(run, ops, CommitMove(11), s7);
    run, ops := run + [s7], ops + [CommitMove(11)];
    var cards8 := MoveHasAnOutcome(s7.cards, 3, 2, 0, 1);
    var s8 := s7.(cards := cards8, moving := s7.moving - {12});
    Extend(run, ops, CommitMove(12), s8);
    SecondMoveLeavesAGap(s6, 11, s7, 12, s8);
    run, ops := run + [s8], ops + [CommitMove(12)];
  }

  // ---- order over runs ----

  /** a stands above b in one column. */
  ghost predicate Above(s: State, a: Uuid, b: Uuid) {
    a in s.cards && b in s.cards && s.cards[a].column == s.cards[b].column && s.cards[a].pos < s.cards[b].pos
  }

  predicate Moves(s: State, op: Op, id: Uuid) { op.CommitMove? && op.req in s.moving && s.moving[op.req].id == id }

  lemma StepKeepsOrder(s: State, op: Op, s': State, a: Uuid, b: Uuid)
    requires Inv(s) && Step(s, op, s') && Above(s, a, b) && !Moves(s, op, a) && !Moves(s, op, b)
    ensures a in s'.cards && b in s'.cards ==> Above(s', a, b)
  {
    if op.CommitMove? {
      var Moving(id, read, target, index) := s.moving[op.req];
      EveryMoveSettles(s.cards, s'.cards, id, target, index, read);
      assert KeepsOrder(s.cards, s'.cards, a, b);
    }
  }

  /** Only moving one of the two can ever swap two cards of a column: whatever
      else is created, deleted or moved around them, however interleaved. */
  lemma {:induction false} OrderOutlastsTheRest(run: seq<State>, ops: seq<Op>, k: nat, a: Uuid, b: Uuid)
    requires IsRun(run, ops) && Inv(run[0]) && k < |run| && Above(run[0], a, b)
    requires forall i :: 0 <= i < k ==> !Moves(run[i], ops[i], a) && !Moves(run[i], ops[i], b)
    requires forall i :: 0 <= i <= k ==> a in run[i].cards && b in run[i].cards
    ensures Above(run[k], a, b)
  {
    if k > 0 {
      OrderOutlastsTheRest(run, ops, k - 1, a, b);
      CardsStayOnTheirBoard(run, ops, k - 1);
      StepKeepsOrder(run[k - 1], ops[k - 1], run[k], a, b);
    }
  }
}
