/** Moving attachment bytes between the database and the object store, row by
    row, while files keep being uploaded, forwarded and read. */
module Migrate {
  import opened Common

  type Bytes = seq<bv8>
  type Id = Uuid

  /** Object names. The migrator derives one from the row's own id; an upload
      mints a random one, which no row id ever equals. */
  datatype Key = NoKey | RowKey(id: Id) | MintedKey(n: nat)

  datatype Row = Row(data: Option<Bytes>, path: Key)

  /** `moving` is the row whose object is written and whose column is not yet
      cleared: a crash loses it and nothing else. */
  datatype State = State(rows: map<Id, Row>, objects: map<Key, Bytes>, everUsed: set<Id>, moving: Option<Id>)

  datatype Read = Content(data: Option<Bytes>) | Missing

  /** The dual-path read. */
  function Load(s: State, i: Id): Read
    requires i in s.rows
  {
    var row := s.rows[i];
    if row.path == NoKey then Content(row.data)
    else if row.path in s.objects then Content(Some(s.objects[row.path]))
    else Missing
  }

  datatype Step =
    | UploadInline(id: Id, data: Bytes)
    | UploadStored(id: Id, n: nat, data: Bytes)
    | Forward(source: Id, copy: Id)
    | RemoveRow(id: Id)
    | PurgeObject(key: Key)
    | PutBytes(id: Id)
    | ClearColumn(id: Id)
    | BringBack(id: Id)
    | Interrupt

  predicate IsInline(s: State, i: Id) { i in s.rows && s.rows[i].data.Some? && s.rows[i].path == NoKey }

  predicate IsStored(s: State, i: Id) { i in s.rows && s.rows[i].data.None? && s.rows[i].path != NoKey }

  /** Rows are removed and objects purged only between the migrator's items. */
  ghost predicate Enabled(s: State, step: Step) {
    match step
    case UploadInline(id, _) => id !in s.everUsed
    case UploadStored(id, n, _) => id !in s.everUsed && MintedKey(n) !in s.objects
    case Forward(source, copy) => source in s.rows && copy !in s.everUsed
    case RemoveRow(id) => id in s.rows && s.moving.None?
    case PurgeObject(key) => s.moving.None? && forall i :: i in s.rows ==> s.rows[i].path != key
    case PutBytes(id) => IsInline(s, id) && s.moving.None?
    case ClearColumn(id) => s.moving == Some(id)
    case BringBack(id) => IsStored(s, id) && s.rows[id].path in s.objects && s.moving.None?
    case Interrupt => true
  }

  ghost function Next(s: State, step: Step): State
    requires Enabled(s, step)
  {
    match step
    case UploadInline(id, data) => s.(rows := s.rows[id := Row(Some(data), NoKey)], everUsed := s.everUsed + {id})
    case UploadStored(id, n, data) =>
      s.(rows := s.rows[id := Row(None, MintedKey(n))], objects := s.objects[MintedKey(n) := data],
         everUsed := s.everUsed + {id})
    case Forward(source, copy) => s.(rows := s.rows[copy := s.rows[source]], everUsed := s.everUsed + {copy})
    case RemoveRow(id) => s.(rows := s.rows - {id})
    case PurgeObject(key) => s.(objects := s.objects - {key})
    case PutBytes(id) => s.(objects := s.objects[RowKey(id) := s.rows[id].data.value], moving := Some(id))
    case ClearColumn(id) => s.(rows := s.rows[id := Row(None, RowKey(id))], moving := None)
    case BringBack(id) => s.(rows := s.rows[id := Row(Some(s.objects[s.rows[id].path]), NoKey)])
    case Interrupt => s.(moving := None)
  }

  // ---- the invariant ----

  /** Row j reads the object named after row i. */
  ghost predicate Uses(s: State, j: Id, i: Id) { j in s.rows && s.rows[j].path == RowKey(i) }

  /** A row lives in one place; its bytes are there; and a key derived from a
      row's id only ever names that row's own bytes, even where a forwarded
      copy still uses the key after the row itself came back. */
  ghost predicate Inv(s: State) {
    && (forall i :: i in s.rows ==> i in s.everUsed)
    && (forall i :: i in s.rows ==> (s.rows[i].data.Some? <==> s.rows[i].path == NoKey))
    && (forall i :: i in s.rows && s.rows[i].path != NoKey ==> s.rows[i].path in s.objects)
    && (forall i :: RowKey(i) in s.objects ==> i in s.everUsed)
    && (forall i, j :: i in s.rows && Uses(s, j, i) ==> Load(s, i) == Content(Some(s.objects[RowKey(i)])))
    && (s.moving.Some? ==>
          IsInline(s, s.moving.value) && RowKey(s.moving.value) in s.objects
          && s.objects[RowKey(s.moving.value)] == s.rows[s.moving.value].data.value)
  }

  lemma StepKeepsInv(s: State, step: Step)
    requires Inv(s) && Enabled(s, step)
    ensures Inv(Next(s, step))
  {
    var s' := Next(s, step);
    forall i, j | i in s'.rows && Uses(s', j, i)
      ensures RowKey(i) in s'.objects && Load(s', i) == Content(Some(s'.objects[RowKey(i)]))
    {
      if step.Forward? && j == step.copy {
        assert Uses(s, step.source, i);
      } else if !(step.ClearColumn? && j == step.id) {
        assert Uses(s, j, i);
      }
      assert step.PutBytes? && s.rows[i].path == RowKey(step.id) ==> Uses(s, i, step.id);
    }
  }

  lemma StepKeeps(s: State, step: Step)
    requires Inv(s) && Enabled(s, step)
    ensures Inv(Next(s, step))
    ensures forall i :: i in s.rows && i in Next(s, step).rows ==> Load(Next(s, step), i) == Load(s, i)
    ensures s.everUsed <= Next(s, step).everUsed
    ensures forall i :: i in s.everUsed && i !in s.rows ==> i !in Next(s, step).rows
  {
    StepKeepsInv(s, step);
    forall i | i in s.rows && i in Next(s, step).rows
      ensures Load(Next(s, step), i) == Load(s, i)
    {
      assert step.PutBytes? && s.rows[i].path == RowKey(step.id) ==> Uses(s, i, step.id);
    }
  }

  // ---- runs ----

  const EMPTY: State := State(map[], map[], {}, None)

  ghost predicate IsRun(s: State, run: seq<Step>)
    decreases |run|
  {
    run == [] || (Enabled(s, run[0]) && IsRun(Next(s, run[0]), run[1..]))
  }

  ghost function Exec(s: State, run: seq<Step>): State
    requires IsRun(s, run)
    decreases |run|
  {
    if run == [] then s else Exec(Next(s, run[0]), run[1..])
  }

  lemma {:induction false} RunKeeps(s: State, run: seq<Step>)
    requires Inv(s) && IsRun(s, run)
    ensures Inv(Exec(s, run))
    decreases |run|
  {
    if run != [] {
      StepKeeps(s, run[0]);
      RunKeeps(Next(s, run[0]), run[1..]);
    }
  }

  lemma {:induction false} IdsAreNotReused(s: State, run: seq<Step>, i: Id)
    requires Inv(s) && IsRun(s, run) && i in s.everUsed && i !in s.rows
    ensures i !in Exec(s, run).rows
    decreases |run|
  {
    if run != [] {
      StepKeeps(s, run[0]);
      IdsAreNotReused(Next(s, run[0]), run[1..], i);
    }
  }

  /** At every prefix of every run, a row that is still there reads as before:
      in both directions, interrupted anywhere, resumed any number of times. */
  lemma {:induction false} ReadsNeverChange(s: State, run: seq<Step>, i: Id)
    requires Inv(s) && IsRun(s, run)
    requires i in s.rows && i in Exec(s, run).rows
    ensures Load(Exec(s, run), i) == Load(s, i) && Load(s, i).Content? && Load(s, i).data.Some?
    decreases |run|
  {
    if run != [] {
      StepKeeps(s, run[0]);
      if i !in Next(s, run[0]).rows {
        IdsAreNotReused(Next(s, run[0]), run[1..], i);
      }
      ReadsNeverChange(Next(s, run[0]), run[1..], i);
    }
  }

  /** The bytes are in the row and nowhere named, or in the object it names. */
  ghost predicate Holds(rows: map<Id, Row>, objects: map<Key, Bytes>, i: Id, bytes: Bytes) {
    && i in rows
    && (|| rows[i] == Row(Some(bytes), NoKey)
        || (rows[i].data.None? && rows[i].path != NoKey && rows[i].path in objects && objects[rows[i].path] == bytes))
  }

  /** What a new row holds: the bytes uploaded, or what the forwarded row reads. */
  ghost predicate Brings(s: State, step: Step, i: Id, bytes: Bytes) {
    match step
    case UploadInline(id, data) => i == id && bytes == data
    case UploadStored(id, _, data) => i == id && bytes == data
    case Forward(source, copy) => i == copy && source in s.rows && Load(s, source) == Content(Some(bytes))
    case _ => false
  }

  /** Whatever runs after it, in both directions and interrupted anywhere, a row
      that is still there reads as the bytes it was made with. */
  lemma ReadsWhatWasPutIn(before: seq<Step>, step: Step, after: seq<Step>, i: Id, bytes: Bytes)
    requires IsRun(EMPTY, before) && Enabled(Exec(EMPTY, before), step)
    requires Brings(Exec(EMPTY, before), step, i, bytes) && IsRun(Next(Exec(EMPTY, before), step), after)
    ensures var s' := Exec(Next(Exec(EMPTY, before), step), after);
      i in s'.rows ==> Holds(s'.rows, s'.objects, i, bytes)
  {
    var s := Exec(EMPTY, before);
    RunKeeps(EMPTY, before);
    StepKeeps(s, step);
    RunKeeps(Next(s, step), after);
    assert Load(Next(s, step), i) == Content(Some(bytes));
    if i in Exec(Next(s, step), after).rows {
      ReadsNeverChange(Next(s, step), after, i);
    }
  }

  lemma {:induction false} Append(s: State, run: seq<Step>, step: Step)
    requires IsRun(s, run) && Enabled(Exec(s, run), step)
    ensures IsRun(s, run + [step]) && Exec(s, run + [step]) == Next(Exec(s, run), step)
    decreases |run|
  {
    if run == [] {
      assert run + [step] == [step] && [step][1..] == [];
    } else {
      assert (run + [step])[1..] == run[1..] + [step];
      Append(Next(s, run[0]), run[1..], step);
    }
  }

  // ---- the command ----

  function InlineRows(s: State): set<Id> { set i | i in s.rows && IsInline(s, i) }

  function StoredRows(s: State): set<Id> { set i | i in s.rows && IsStored(s, i) }

  /** The migrator's frame: the same rows, each holding the bytes it held, in the
      row or in the object it names. */
  ghost predicate SameReads(s: State, s': State) {
    && s'.rows.Keys == s.rows.Keys
    && forall i, bytes :: Holds(s.rows, s.objects, i, bytes) <==> Holds(s'.rows, s'.objects, i, bytes)
  }

  lemma InlineMeans(s: State)
    requires Inv(s)
    ensures InlineRows(s) == set i | i in s.rows && s.rows[i].data.Some?
    ensures InlineRows(s) == {} ==> forall i :: i in s.rows ==> s.rows[i].data.None?
  {
    forall i | i in s.rows && s.rows[i].data.Some?
      ensures i in InlineRows(s)
    {
    }
  }

  lemma SameReadsChain(s: State, t: State, u: State)
    requires SameReads(s, t) && SameReads(t, u)
    ensures SameReads(s, u)
  {
  }

  lemma OneMoreItem(items: seq<Id>, k: nat)
    requires k < |items|
    ensures ToSet(items[..k + 1]) == ToSet(items[..k]) + {items[k]}
  {
    assert items[..k + 1] == items[..k] + [items[k]];
    ToSetSnoc(items[..k], items[k]);
  }

  lemma FewerBy(all: set<Id>, items: seq<Id>)
    requires ToSet(items) <= all && forall j, k :: 0 <= j < k < |items| ==> items[j] != items[k]
    ensures |all - ToSet(items)| == |all| - |items|
  {
    DistinctSize(items);
    assert all == (all - ToSet(items)) + ToSet(items);
  }

  datatype Outcome = Finished(moved: nat) | Failed

  /** How the driver serves one SELECT: whole, refused before any row, or cut off
      by an error once `after` rows are read. */
  datatype Fetch = Whole | Refused | Cut(after: nat)

  /** The k-th SELECT of a command; those past the end are served whole. */
  function FetchAt(fetches: seq<Fetch>, k: nat): Fetch { if k < |fetches| then fetches[k] else Whole }

  function Min(a: nat, b: nat): nat { if a < b then a else b }

  /** How many of n candidates one SELECT delivers. */
  function Taken(n: nat, limit: nat, fetch: Fetch): nat {
    if fetch.Cut? then Min(fetch.after, Min(n, limit)) else Min(n, limit)
  }

  /** How many of n rows a loop leaves that stops at the first empty batch and does
      not ask why it was empty. */
  function LeftOver(n: nat, limit: nat, fetches: seq<Fetch>, k: nat): nat
    decreases n
  {
    var t := Taken(n, limit, FetchAt(fetches, k));
    if t == 0 then n else LeftOver(n - t, limit, fetches, k + 1)
  }

  /** How many rows are left when SELECT number j is made. */
  function Before(n: nat, limit: nat, fetches: seq<Fetch>, j: nat): nat {
    if j == 0 then n
    else
      var m := Before(n, limit, fetches, j - 1);
      m - Taken(m, limit, FetchAt(fetches, j - 1))
  }

  lemma {:induction false} BeforeShifts(n: nat, limit: nat, fetches: seq<Fetch>, j: nat)
    requires j > 0
    ensures Before(n, limit, fetches, j)
      == Before(n - Taken(n, limit, FetchAt(fetches, 0)), limit, if fetches == [] then [] else fetches[1..], j - 1)
  {
    if j > 1 {
      BeforeShifts(n, limit, fetches, j - 1);
      assert FetchAt(fetches, j - 1) == FetchAt(if fetches == [] then [] else fetches[1..], j - 2);
    }
  }

  lemma {:induction false} LeftOverShifts(n: nat, limit: nat, fetches: seq<Fetch>, k: nat)
    ensures LeftOver(n, limit, fetches, k + 1) == LeftOver(n, limit, if fetches == [] then [] else fetches[1..], k)
    decreases n
  {
    assert FetchAt(fetches, k + 1) == FetchAt(if fetches == [] then [] else fetches[1..], k);
    var t := Taken(n, limit, FetchAt(fetches, k + 1));
    if t > 0 {
      LeftOverShifts(n - t, limit, fetches, k + 1);
    }
  }

  /** SELECT number j fails before its first row while rows are left. */
  ghost predicate LosesAll(n: nat, limit: nat, fetches: seq<Fetch>, j: nat) {
    FetchAt(fetches, j) == Cut(0) && Before(n, limit, fetches, j) > 0
  }

  /** With a positive limit, rows are left behind if and only if some SELECT fails
      before its first row while there are rows to read. */
  lemma {:induction false} LeftOverIff(n: nat, limit: nat, fetches: seq<Fetch>)
    requires limit >= 1
    ensures LeftOver(n, limit, fetches, 0) > 0 <==> exists j: nat :: LosesAll(n, limit, fetches, j)
    decreases n
  {
    var t := Taken(n, limit, FetchAt(fetches, 0));
    if t == 0 {
      if n > 0 {
        assert LosesAll(n, limit, fetches, 0);
      } else if j: nat :| LosesAll(n, limit, fetches, j) {
        BeforeShrinks(n, limit, fetches, j);
      }
    } else {
      var rest, m := if fetches == [] then [] else fetches[1..], n - t;
      LeftOverIff(m, limit, rest);
      LeftOverShifts(m, limit, fetches, 0);
      forall j: nat
        ensures LosesAll(n, limit, fetches, j + 1) <==> LosesAll(m, limit, rest, j)
      {
        BeforeShifts(n, limit, fetches, j + 1);
      }
      LosesLater(n, m, limit, fetches, rest);
    }
  }

  lemma LosesLater(n: nat, m: nat, limit: nat, fetches: seq<Fetch>, rest: seq<Fetch>)
    requires forall j: nat :: LosesAll(n, limit, fetches, j + 1) <==> LosesAll(m, limit, rest, j)
    requires !LosesAll(n, limit, fetches, 0)
    ensures (exists j: nat :: LosesAll(n, limit, fetches, j)) <==> (exists j: nat :: LosesAll(m, limit, rest, j))
  {
    if j: nat :| LosesAll(n, limit, fetches, j) {
      assert LosesAll(m, limit, rest, j - 1);
    }
    if j: nat :| LosesAll(m, limit, rest, j) {
      assert LosesAll(n, limit, fetches, j + 1);
    }
  }

  lemma {:induction false} BeforeShrinks(n: nat, limit: nat, fetches: seq<Fetch>, j: nat)
    ensures Before(n, limit, fetches, j) <= n
  {
    if j > 0 {
      BeforeShrinks(n, limit, fetches, j - 1);
    }
  }

  class Migrator {
    var rows: map<Id, Row>
    var objects: map<Key, Bytes>
    ghost var everUsed: set<Id>
    ghost var moving: Option<Id>

    ghost function S(): State
      reads this
    {
      State(rows, objects, everUsed, moving)
    }

    /** SELECT ... LIMIT n: some of the candidates, as many as fit and as the driver
        delivers. `cut` is what rows.Err() would say; a negative limit is an error
        too. */
    method Select(candidates: set<Id>, limit: int, fetch: Fetch) returns (batch: seq<Id>, cut: bool)
      requires fetch != Refused
      ensures forall k :: 0 <= k < |batch| ==> batch[k] in candidates
      ensures forall j, k :: 0 <= j < k < |batch| ==> batch[j] != batch[k]
      ensures |batch| == if limit < 0 then 0 else Taken(|candidates|, limit, fetch)
      ensures cut <==> fetch.Cut? || limit < 0
    {
      if limit < 0 {
        return [], true;
      }
      batch := [];
      var left := candidates;
      while left != {} && |batch| < limit
        invariant left <= candidates && forall k :: 0 <= k < |batch| ==> batch[k] in candidates - left
        invariant forall j, k :: 0 <= j < k < |batch| ==> batch[j] != batch[k]
        invariant |left| + |batch| == |candidates| && |batch| <= limit
        decreases left
      {
        var i :| i in left;
        left := left - {i};
        batch := batch + [i];
      }
      cut := fetch.Cut?;
      if cut && fetch.after < |batch| {
        batch := batch[..fetch.after];
      }
    }

    /** One item towards the store: the object first, then the row. Either
        write may be the one that fails. */
    method StoreOne(i: Id) returns (ok: bool, ghost steps: seq<Step>)
      requires Inv(S()) && moving.None? && IsInline(S(), i)
      modifies this
      ensures IsRun(old(S()), steps) && S() == Exec(old(S()), steps)
      ensures Inv(S()) && moving.None? && SameReads(old(S()), S())
      ensures if ok then rows == old(rows)[i := Row(None, RowKey(i))] else rows == old(rows)
      ensures InlineRows(S()) == InlineRows(old(S())) - if ok then {i} else {}
    {
      ghost var s0 := S();
      steps := [];
      var putOk: bool, updateOk: bool := *, *;
      if !putOk {
        return false, steps;
      }
      objects := objects[RowKey(i) := rows[i].data.value];
      moving := Some(i);
      Append(s0, steps, PutBytes(i));
      StepKeeps(s0, PutBytes(i));
      steps := steps + [PutBytes(i)];
      ghost var s1 := S();
      ghost var step := if updateOk then ClearColumn(i) else Interrupt;
      if updateOk {
        rows := rows[i := Row(None, RowKey(i))];
      }
      moving := None;
      Append(s0, steps, step);
      StepKeeps(s1, step);
      steps := steps + [step];
      ok := updateOk;
    }

    method BringOne(i: Id) returns (ok: bool, ghost steps: seq<Step>)
      requires Inv(S()) && moving.None? && IsStored(S(), i)
      modifies this
      ensures IsRun(old(S()), steps) && S() == Exec(old(S()), steps)
      ensures Inv(S()) && moving.None? && SameReads(old(S()), S()) && objects == old(objects)
      ensures rows.Keys == old(rows).Keys
      ensures forall j :: j in rows && j != i ==> rows[j] == old(rows)[j]
      ensures if ok then rows[i] == Row(Load(old(S()), i).data, NoKey) else rows == old(rows)
      ensures StoredRows(S()) == StoredRows(old(S())) - if ok then {i} else {}
    {
      ghost var s0 := S();
      steps := [];
      var readOk: bool, updateOk: bool := *, *;
      if !readOk || rows[i].path !in objects || !updateOk {
        return false, steps;
      }
      var data := objects[rows[i].path];
      rows := rows[i := Row(Some(data), NoKey)];
      Append(s0, steps, BringBack(i));
      StepKeeps(s0, BringBack(i));
      steps := [BringBack(i)];
      ok := true;
    }

    /** The items of one SELECT, in order, until one fails. */
    method StoreBatch(items: seq<Id>) returns (ok: bool)
      requires Inv(S()) && moving.None?
      requires forall k :: 0 <= k < |items| ==> items[k] in InlineRows(S())
      requires forall j, k :: 0 <= j < k < |items| ==> items[j] != items[k]
      modifies this
      ensures Inv(S()) && moving.None? && SameReads(old(S()), S())
      ensures InlineRows(S()) <= InlineRows(old(S()))
      ensures ok ==> InlineRows(S()) == InlineRows(old(S())) - ToSet(items)
    {
      ghost var s0 := S();
      var k := 0;
      while k < |items|
        invariant 0 <= k <= |items|
        invariant Inv(S()) && moving.None? && SameReads(s0, S())
        invariant InlineRows(S()) == InlineRows(s0) - ToSet(items[..k])
        invariant forall j :: k <= j < |items| ==> items[j] in InlineRows(S())
      {
        ghost var s := S();
        OneMoreItem(items, k);
        var done, _ := StoreOne(items[k]);
        if !done {
          return false;
        }
        SameReadsChain(s0, s, S());
        k := k + 1;
      }
      assert items[..k] == items;
      return true;
    }

    /** An error while reading ends it as a failure. */
    method ToStore(batch: int, dryRun: bool, fetches: seq<Fetch>) returns (r: Outcome)
      requires Inv(S()) && moving.None?
      modifies this
      ensures Inv(S()) && moving.None? && SameReads(old(S()), S())
      ensures dryRun ==> rows == old(rows) && objects == old(objects)
      ensures r.Finished? && !dryRun && batch >= 1 ==> InlineRows(S()) == {} && r.moved == |InlineRows(old(S()))|
      ensures r.Finished? && !dryRun && batch >= 1 ==> forall i :: i in rows ==> rows[i].data.None?
      ensures r.Finished? && !dryRun && batch >= 1 ==> r.moved == |set i | i in old(rows) && old(rows)[i].data.Some?|
      ensures batch < 0 ==> r == Failed
    {
      var moved: nat := 0;
      var k := 0;
      while true
        invariant Inv(S()) && moving.None? && SameReads(old(S()), S())
        invariant dryRun ==> rows == old(rows) && objects == old(objects)
        invariant k >= 0 && |InlineRows(S())| + moved == |InlineRows(old(S()))|
        decreases |InlineRows(S())|
      {
        var here := InlineRows(State(rows, objects, {}, None));
        assert here == InlineRows(S());
        if FetchAt(fetches, k) == Refused {
          return Failed;
        }
        var items, cut := Select(here, batch, FetchAt(fetches, k));
        if cut {
          return Failed;
        }
        if items == [] {
          InlineMeans(old(S()));
          InlineMeans(S());
          return Finished(moved);
        }
        if dryRun {
          // a dry run has nothing to wait for: one batch is its whole report
          return Finished(|items|);
        }
        FewerBy(here, items);
        var ok := StoreBatch(items);
        if !ok {
          return Failed;
        }
        moved := moved + |items|;
        k := k + 1;
      }
    }

    /** The items of one SELECT, in order, until one fails. */
    method BringBatch(items: seq<Id>) returns (ok: bool)
      requires Inv(S()) && moving.None?
      requires forall k :: 0 <= k < |items| ==> items[k] in StoredRows(S())
      requires forall j, k :: 0 <= j < k < |items| ==> items[j] != items[k]
      modifies this
      ensures Inv(S()) && moving.None? && SameReads(old(S()), S()) && objects == old(objects)
      ensures StoredRows(S()) <= StoredRows(old(S()))
      ensures ok ==> StoredRows(S()) == StoredRows(old(S())) - ToSet(items)
    {
      ghost var s0 := S();
      var k := 0;
      while k < |items|
        invariant 0 <= k <= |items|
        invariant Inv(S()) && moving.None? && SameReads(s0, S()) && objects == old(objects)
        invariant StoredRows(S()) == StoredRows(s0) - ToSet(items[..k])
        invariant forall j :: k <= j < |items| ==> items[j] in StoredRows(S())
      {
        ghost var s := S();
        OneMoreItem(items, k);
        var done, _ := BringOne(items[k]);
        if !done {
          return false;
        }
        SameReadsChain(s0, s, S());
        k := k + 1;
      }
      assert items[..k] == items;
      return true;
    }

    /** One SELECT and its items: how many rows it read, and whether every one of
        them was brought back (or, in a dry run, could be read). */
    method BringRound(batch: int, dryRun: bool, fetch: Fetch) returns (n: nat, ok: bool)
      requires Inv(S()) && moving.None? && fetch != Refused
      modifies this
      ensures Inv(S()) && moving.None? && SameReads(old(S()), S()) && objects == old(objects)
      ensures n == if batch < 0 then 0 else Taken(|StoredRows(old(S()))|, batch, fetch)
      ensures dryRun || n == 0 ==> rows == old(rows)
      ensures n == 0 || (ok && !dryRun) ==> |StoredRows(S())| + n == |StoredRows(old(S()))|
    {
      var here := StoredRows(State(rows, objects, {}, None));
      assert here == StoredRows(S());
      var items, cut := Select(here, batch, fetch);
      n, ok := |items|, true;
      if items == [] {
        return;
      }
      if dryRun {
        ok := *;
        return;
      }
      FewerBy(here, items);
      ok := BringBatch(items);
    }

    /** An error while reading is not looked at: a SELECT that lost all its rows
        ends the loop as a success. On success, what is left is what the driver's
        behaviour says, and the report is true. */
    method ToDb(batch: int, dryRun: bool, fetches: seq<Fetch>) returns (r: Outcome)
      requires Inv(S()) && moving.None?
      modifies this
      ensures Inv(S()) && moving.None? && SameReads(old(S()), S()) && objects == old(objects)
      ensures dryRun ==> rows == old(rows)
      ensures r.Finished? && !dryRun && batch >= 1 ==>
        && |StoredRows(S())| == LeftOver(|StoredRows(old(S()))|, batch, fetches, 0)
        && r.moved == |StoredRows(old(S()))| - |StoredRows(S())|
      ensures batch <= 0 && FetchAt(fetches, 0) != Refused ==> r == Finished(0) && rows == old(rows)
      ensures FetchAt(fetches, 0) == Cut(0) ==> r == Finished(0) && rows == old(rows)
    {
      var moved: nat := 0;
      var k := 0;
      ghost var s0, all := S(), |StoredRows(S())|;
      while true
        invariant Inv(S()) && moving.None? && SameReads(s0, S()) && objects == old(objects)
        invariant dryRun ==> rows == old(rows)
        invariant k >= 0 && (k == 0 ==> moved == 0 && rows == old(rows))
        invariant k > 0 ==> batch > 0 && FetchAt(fetches, 0) != Cut(0)
        invariant |StoredRows(S())| + moved == all
        invariant batch >= 1 ==> LeftOver(|StoredRows(S())|, batch, fetches, k) == LeftOver(all, batch, fetches, 0)
        decreases |StoredRows(S())|
      {
        if FetchAt(fetches, k) == Refused {
          return Failed;
        }
        ghost var s := S();
        var n, ok := BringRound(batch, dryRun, FetchAt(fetches, k));
        if n == 0 {
          return Finished(moved);
        }
        if !ok {
          return Failed;
        }
        if dryRun {
          return Finished(n);
        }
        SameReadsChain(s0, s, S());
        moved := moved + n;
        k := k + 1;
      }
    }

    /** Where no SELECT fails before its first row, a success has brought all back. */
    method ToDbBringsAll(batch: int, fetches: seq<Fetch>) returns (r: Outcome)
      requires Inv(S()) && moving.None? && batch >= 1
      requires forall j :: 0 <= j < |fetches| ==> fetches[j] != Cut(0)
      modifies this
      ensures SameReads(old(S()), S())
      ensures r.Finished? ==> StoredRows(S()) == {} && r.moved == |StoredRows(old(S()))|
      ensures r.Finished? ==> forall i :: i in rows ==> 
        rows[i].path == NoKey && rows[i].data.Some? && Holds(old(rows), old(objects), i, rows[i].data.value)
    {
      ghost var n := |StoredRows(S())|;
      r := ToDb(batch, false, fetches);
      LeftOverIff(n, batch, fetches);
      BackExactly(S());
      assert forall i :: i in rows && rows[i].path == NoKey && rows[i].data.Some? ==> Holds(rows, objects, i, rows[i].data.value);
    }

    /** It happens wherever there are rows to bring back: the command reports
        success and has moved nothing. */
    method ToDbMovesNothing(batch: int) returns (r: Outcome)
      requires Inv(S()) && moving.None? && batch >= 1
      modifies this
      ensures r == Finished(0) && rows == old(rows) && objects == old(objects)
    {
      r := ToDb(batch, false, [Cut(0)]);
    }

    /** There and back: on success every row is inline again with its own bytes if
        and only if no SELECT on the way back fails before its first row while
        there are rows to read. The reads are the same in any case. */
    method RoundTrip(batch: int, there: seq<Fetch>, back: seq<Fetch>) returns (ok: bool)
      requires Inv(S()) && moving.None? && batch >= 1
      modifies this
      ensures rows.Keys == old(rows).Keys && SameReads(old(S()), S())
      ensures ok ==> |StoredRows(S())| == LeftOver(|old(rows)|, batch, back, 0)
      ensures ok ==>
        ((forall i :: i in rows ==> rows[i].path == NoKey && rows[i].data.Some?)
         <==> !exists j: nat :: LosesAll(|old(rows)|, batch, back, j))
    {
      ghost var s0 := S();
      var out := ToStore(batch, false, there);
      if out.Failed? {
        return false;
      }
      ghost var s1 := S();
      AllStored(s1);
      var home := ToDb(batch, false, back);
      SameReadsChain(s0, s1, S());
      ok := home.Finished?;
      if ok {
        BackExactly(S());
        LeftOverIff(|s0.rows|, batch, back);
      }
    }
  }

  lemma AllStored(s: State)
    requires Inv(s) && InlineRows(s) == {}
    ensures StoredRows(s) == s.rows.Keys && |StoredRows(s)| == |s.rows|
  {
    forall i | i in s.rows
      ensures i in StoredRows(s)
    {
      assert i !in InlineRows(s);
    }
  }

  lemma BackExactly(s: State)
    requires Inv(s)
    ensures (forall i :: i in s.rows ==> s.rows[i].path == NoKey && s.rows[i].data.Some?) <==> StoredRows(s) == {}
  {
    if StoredRows(s) == {} {
      forall i | i in s.rows
        ensures s.rows[i].path == NoKey && s.rows[i].data.Some?
      {
        assert i !in StoredRows(s);
      }
    } else {
      var i :| i in StoredRows(s);
      assert i in s.rows && s.rows[i].path != NoKey;
    }
  }
}
