/** The device directory: registration with cross-signing, renaming, revocation. */
module Devices {
  import opened Common

  type DeviceId = Uuid
  type User = Uuid
  type PublicKey = seq<bv8>

  const KEY_BYTES: nat := 32
  const MAX_NAME: nat := 128

  /** `serial` is the row's place in the order of insertion. */
  datatype Device = Device(
    user: User, name: string, key: PublicKey, signedBy: Option<DeviceId>, serial: nat, revokedAt: Option<int>)

  type Directory = map<DeviceId, Device>

  /** `vouched` is what ed25519.Verify said of the signer's key, the new key
      and the signature. */
  datatype Input = Input(id: DeviceId, name: string, key: PublicKey, signedBy: Option<DeviceId>, vouched: bool)

  datatype Reply = Registered | ErrValidation | ErrForbidden | ErrDeviceTaken | ErrConstraint | ErrNotFound

  function CheckVouch(dir: Directory, actor: User, input: Input): Reply {
    match input.signedBy
    case None => Registered
    case Some(signer) =>
      if signer !in dir then ErrValidation
      else if dir[signer].user != actor || dir[signer].revokedAt.Some? then ErrForbidden
      else if !input.vouched then ErrValidation
      else Registered
  }

  function Truncate(name: string): string {
    if |name| > MAX_NAME then name[..MAX_NAME] else name
  }

  /** e2ee_devices_pub_unique. */
  predicate KeyTaken(dir: Directory, user: User, key: PublicKey) {
    exists d :: d in dir && dir[d].user == user && dir[d].key == key
  }

  /** INSERT ... ON CONFLICT (id) DO UPDATE SET name, for the same owner and key only. */
  function Upsert(dir: Directory, actor: User, input: Input): (Directory, Reply) {
    if input.id in dir then
      if dir[input.id].user == actor && dir[input.id].key == input.key
      then (dir[input.id := dir[input.id].(name := Truncate(input.name))], Registered)
      else (dir, ErrDeviceTaken)
    else if KeyTaken(dir, actor, input.key) then (dir, ErrConstraint)
    else (dir[input.id := Device(actor, Truncate(input.name), input.key, input.signedBy, |dir|, None)], Registered)
  }

  function RegisterDevice(dir: Directory, actor: User, input: Input): (Directory, Reply) {
    if |input.key| != KEY_BYTES || input.id == 0 then (dir, ErrValidation)
    else
      var vouch := CheckVouch(dir, actor, input);
      if vouch != Registered then (dir, vouch) else Upsert(dir, actor, input)
  }

  function RevokeDevice(dir: Directory, actor: User, id: DeviceId, at: int): (Directory, Reply) {
    if id in dir && dir[id].user == actor && dir[id].revokedAt.None?
    then (dir[id := dir[id].(revokedAt := Some(at))], Registered)
    else (dir, ErrNotFound)
  }

  // ---- runs ----

  datatype Registration = Registration(actor: User, input: Input)

  /** `checked` are the registrations whose vouch has been looked at and whose
      row is still to be written. */
  datatype State = State(dir: Directory, checked: map<Uuid, Registration>)

  /** A registration looks its signer up in one statement and writes its row in
      another. */
  datatype Step =
    | Check(req: Uuid, actor: User, input: Input)
    | Store(req: Uuid)
    | DoRevoke(actor: User, id: DeviceId, at: int)

  predicate MayRegister(dir: Directory, actor: User, input: Input) {
    |input.key| == KEY_BYTES && input.id != 0 && CheckVouch(dir, actor, input) == Registered
  }

  function Next(s: State, step: Step): State {
    match step
    case Check(req, actor, input) =>
      if req !in s.checked && MayRegister(s.dir, actor, input)
      then s.(checked := s.checked[req := Registration(actor, input)]) else s
    case Store(req) =>
      if req in s.checked
      then State(Upsert(s.dir, s.checked[req].actor, s.checked[req].input).0, s.checked - {req}) else s
    case DoRevoke(actor, id, at) => s.(dir := RevokeDevice(s.dir, actor, id, at).0)
  }

  function Exec(s: State, run: seq<Step>): State
    decreases |run|
  {
    if run == [] then s else Exec(Next(s, run[0]), run[1..])
  }

  const EMPTY := State(map[], map[])

  // ---- the invariant ----

  ghost predicate Inv(dir: Directory) {
    && (forall d :: d in dir ==> dir[d].serial < |dir|)
    && (forall d :: d in dir && dir[d].signedBy.Some? ==>
          var p := dir[d].signedBy.value; p in dir && dir[p].user == dir[d].user && dir[p].serial < dir[d].serial)
    && (forall d, e :: d in dir && e in dir && dir[d].user == dir[e].user && dir[d].key == dir[e].key ==> d == e)
  }

  /** What a later directory keeps of an earlier one. */
  ghost predicate Extends(dir: Directory, later: Directory) {
    forall d :: d in dir ==>
      && d in later
      && later[d].user == dir[d].user && later[d].key == dir[d].key
      && later[d].signedBy == dir[d].signedBy && later[d].serial == dir[d].serial
      && (dir[d].revokedAt.Some? ==> later[d].revokedAt == dir[d].revokedAt)
  }

  /** A rename or a revocation touches nothing the invariant looks at. */
  lemma TouchKeeps(dir: Directory, id: DeviceId, row: Device)
    requires Inv(dir) && id in dir
    requires row.user == dir[id].user && row.key == dir[id].key
    requires row.signedBy == dir[id].signedBy && row.serial == dir[id].serial
    requires dir[id].revokedAt.Some? ==> row.revokedAt == dir[id].revokedAt
    ensures Inv(dir[id := row]) && Extends(dir, dir[id := row])
  {
  }

  lemma InsertKeeps(dir: Directory, id: DeviceId, row: Device)
    requires Inv(dir) && id !in dir && row.serial == |dir| && !KeyTaken(dir, row.user, row.key)
    requires row.signedBy.Some? ==> row.signedBy.value in dir && dir[row.signedBy.value].user == row.user
    ensures Inv(dir[id := row]) && Extends(dir, dir[id := row])
  {
  }

  /** A signer that was looked up is still there, and still the actor's. */
  ghost predicate ChecksHold(s: State) {
    forall r :: r in s.checked && s.checked[r].input.signedBy.Some? ==>
      var signer := s.checked[r].input.signedBy.value;
      signer in s.dir && s.dir[signer].user == s.checked[r].actor
  }

  lemma UpsertKeeps(dir: Directory, actor: User, input: Input)
    requires Inv(dir)
    requires input.signedBy.Some? ==> input.signedBy.value in dir && dir[input.signedBy.value].user == actor
    ensures Inv(Upsert(dir, actor, input).0) && Extends(dir, Upsert(dir, actor, input).0)
  {
    var dir' := Upsert(dir, actor, input).0;
    if dir' != dir {
      if input.id in dir {
        TouchKeeps(dir, input.id, dir'[input.id]);
      } else {
        InsertKeeps(dir, input.id, dir'[input.id]);
      }
    }
  }

  lemma StepKeeps(s: State, step: Step)
    requires Inv(s.dir) && ChecksHold(s)
    ensures Inv(Next(s, step).dir) && ChecksHold(Next(s, step)) && Extends(s.dir, Next(s, step).dir)
  {
    match step {
      case Check(_, _, _) =>
      case Store(req) =>
        if req in s.checked {
          UpsertKeeps(s.dir, s.checked[req].actor, s.checked[req].input);
        }
      case DoRevoke(actor, id, at) =>
        if Next(s, step) != s {
          TouchKeeps(s.dir, id, Next(s, step).dir[id]);
        }
    }
  }

  lemma {:induction false} RunKeeps(s: State, run: seq<Step>)
    requires Inv(s.dir) && ChecksHold(s)
    ensures Inv(Exec(s, run).dir) && ChecksHold(Exec(s, run)) && Extends(s.dir, Exec(s, run).dir)
    decreases |run|
  {
    if run != [] {
      StepKeeps(s, run[0]);
      RunKeeps(Next(s, run[0]), run[1..]);
    }
  }

  /** Over every run a device keeps its owner, its key and its voucher, and a
      revoked device stays revoked at its first date. */
  lemma IdentityIsForGood(earlier: seq<Step>, later: seq<Step>, d: DeviceId)
    requires d in Exec(EMPTY, earlier).dir
    ensures var was, now := Exec(EMPTY, earlier).dir, Exec(Exec(EMPTY, earlier), later).dir;
      && d in now && now[d].user == was[d].user && now[d].key == was[d].key && now[d].signedBy == was[d].signedBy
      && (was[d].revokedAt.Some? ==> now[d].revokedAt == was[d].revokedAt)
  {
    RunKeeps(EMPTY, earlier);
    RunKeeps(Exec(EMPTY, earlier), later);
  }

  predicate Revokes(step: Step, user: User, d: DeviceId) { step.DoRevoke? && step.actor == user && step.id == d }

  lemma StepRevokesIff(s: State, step: Step, d: DeviceId)
    requires d in s.dir && s.dir[d].revokedAt.None?
    ensures d in Next(s, step).dir && Next(s, step).dir[d].user == s.dir[d].user
    ensures Next(s, step).dir[d].revokedAt.Some? <==> Revokes(step, s.dir[d].user, d)
  {
  }

  /** A live device is revoked by a run if and only if its owner revokes it. */
  lemma {:induction false} RevokedIffByOwner(s: State, between: seq<Step>, signer: DeviceId)
    requires Inv(s.dir) && ChecksHold(s) && signer in s.dir && s.dir[signer].revokedAt.None?
    ensures signer in Exec(s, between).dir
    ensures Exec(s, between).dir[signer].revokedAt.Some? <==>
      exists k :: 0 <= k < |between| && Revokes(between[k], s.dir[signer].user, signer)
    decreases |between|
  {
    if between != [] {
      var s', rest := Next(s, between[0]), between[1..];
      StepKeeps(s, between[0]);
      StepRevokesIff(s, between[0], signer);
      if Revokes(between[0], s.dir[signer].user, signer) {
        RunKeeps(s', rest);
      } else {
        RevokedIffByOwner(s', rest, signer);
        if k :| 0 <= k < |rest| && Revokes(rest[k], s.dir[signer].user, signer) {
          assert Revokes(between[k + 1], s.dir[signer].user, signer);
        }
        if k :| 0 <= k < |between| && Revokes(between[k], s.dir[signer].user, signer) {
          assert Revokes(rest[k - 1], s.dir[signer].user, signer);
        }
      }
    }
  }

  lemma {:induction false} CheckedUntilStored(s: State, run: seq<Step>, req: Uuid)
    requires req in s.checked && forall k :: 0 <= k < |run| ==> run[k] != Store(req)
    ensures req in Exec(s, run).checked && Exec(s, run).checked[req] == s.checked[req]
    decreases |run|
  {
    if run != [] {
      CheckedUntilStored(Next(s, run[0]), run[1..], req);
    }
  }

  /** A registration that is checked, interrupted by anything, and then stored as
      a new device: its row names the signer that was looked up, and that signer
      is a revoked device if and only if its owner revoked it in between. */
  lemma VoucherRevokedIff(s: State, req: Uuid, actor: User, input: Input, between: seq<Step>)
    requires Inv(s.dir) && ChecksHold(s) && req !in s.checked
    requires MayRegister(s.dir, actor, input) && input.signedBy.Some?
    requires forall k :: 0 <= k < |between| ==> between[k] != Store(req)
    ensures var signer := input.signedBy.value;
      var s1 := Exec(Next(s, Check(req, actor, input)), between);
      var s2 := Next(s1, Store(req));
      input.id !in s1.dir && !KeyTaken(s1.dir, actor, input.key) ==>
        && input.id in s2.dir && s2.dir[input.id].user == actor && s2.dir[input.id].signedBy == Some(signer)
        && signer in s2.dir
        && (s2.dir[signer].revokedAt.Some? <==>
              exists k :: 0 <= k < |between| && Revokes(between[k], actor, signer))
  {
    var s0 := Next(s, Check(req, actor, input));
    StepKeeps(s, Check(req, actor, input));
    CheckedUntilStored(s0, between, req);
    RevokedIffByOwner(s0, between, input.signedBy.value);
  }

  function KeyOf(b: bv8): PublicKey { seq(KEY_BYTES, _ => b) }

  /** User 7's first device, registered from nothing. */
  lemma FirstDevice() returns (run: seq<Step>)
    ensures Exec(EMPTY, run) == State(map[1 := Device(7, "", KeyOf(1), None, 0, None)], map[])
  {
    var first := Input(1, "", KeyOf(1), None, false);
    run := [Check(11, 7, first), Store(11)];
    var s1 := Next(EMPTY, Check(11, 7, first));
    assert s1.checked == map[11 := Registration(7, first)];
    assert run[1..] == [Store(11)] && [Store(11)][1..] == [];
    assert Exec(Next(s1, Store(11)), []) == Next(s1, Store(11));
  }

  /** It happens: device 1 vouches for device 2, and is revoked before 2 is
      stored. */
  lemma RevokedVoucherHappens() returns (before: seq<Step>, check: Step, revoke: Step, store: Step)
    ensures var s := Next(Next(Next(Exec(EMPTY, before), check), revoke), store);
      2 in s.dir && s.dir[2].signedBy == Some(1) && 1 in s.dir && s.dir[1].revokedAt.Some?
  {
    before := FirstDevice();
    var s := Exec(EMPTY, before);
    var second := Input(2, "", KeyOf(2), Some(1), true);
    check, revoke, store := Check(12, 7, second), DoRevoke(7, 1, 0), Store(12);
    RunKeeps(EMPTY, before);
    var s0 := Next(s, check);
    var s1 := Next(s0, revoke);
    assert [revoke][1..] == [] && Exec(s1, []) == s1;
    assert Exec(s0, [revoke]) == s1;
    assert KeyOf(1)[0] != KeyOf(2)[0];
    assert !KeyTaken(s1.dir, 7, KeyOf(2));
    assert Revokes([revoke][0], 7, 1);
    VoucherRevokedIff(s, 12, 7, second, [revoke]);
  }

  // ---- where devices come from ----

  lemma {:induction false} LastStep(s: State, run: seq<Step>)
    requires run != []
    ensures Exec(s, run) == Next(Exec(s, run[..|run| - 1]), run[|run| - 1])
    decreases |run|
  {
    var n := |run| - 1;
    if n > 0 {
      LastStep(Next(s, run[0]), run[1..]);
      TailSlices(run, n);
      assert run[1..][n - 1] == run[n];
    }
  }

  /** Step j checked this registration and let it pass: a whole key and a real id,
      and, where it names a signer, a good signature by a live device of the same
      user. */
  ghost predicate PassedCheck(run: seq<Step>, j: nat, actor: User, input: Input) {
    && j < |run| && run[j].Check? && run[j].actor == actor && run[j].input == input
    && |input.key| == 32 && input.id != 0
    && (input.signedBy != None ==>
          var dir, signer := Exec(EMPTY, run[..j]).dir, input.signedBy.value;
          input.vouched && signer in dir && dir[signer].user == actor && dir[signer].revokedAt == None)
  }

  ghost predicate Passed(run: seq<Step>, actor: User, input: Input) {
    exists j: nat :: PassedCheck(run, j, actor, input)
  }

  lemma PassedEarlier(run: seq<Step>, n: nat, actor: User, input: Input)
    requires n <= |run| && Passed(run[..n], actor, input)
    ensures Passed(run, actor, input)
  {
    var j: nat :| PassedCheck(run[..n], j, actor, input);
    assert run[..n][..j] == run[..j];
    assert PassedCheck(run, j, actor, input);
  }

  lemma {:induction false} CheckedHavePassed(run: seq<Step>, r: Uuid)
    requires r in Exec(EMPTY, run).checked
    ensures Passed(run, Exec(EMPTY, run).checked[r].actor, Exec(EMPTY, run).checked[r].input)
    decreases |run|
  {
    if run != [] {
      var n := |run| - 1;
      LastStep(EMPTY, run);
      var s, step := Exec(EMPTY, run[..n]), run[n];
      if r in s.checked {
        CheckedHavePassed(run[..n], r);
        PassedEarlier(run, n, s.checked[r].actor, s.checked[r].input);
      } else {
        assert step.Check? && PassedCheck(run, n, step.actor, step.input);
      }
    }
  }

  /** Every device in the directory was registered by its owner, with its key and
      its voucher, in a registration that passed the check. */
  lemma {:induction false} EveryDeviceWasChecked(run: seq<Step>, d: DeviceId) returns (input: Input)
    requires d in Exec(EMPTY, run).dir
    ensures var row := Exec(EMPTY, run).dir[d];
      Passed(run, row.user, input) && input.id == d && input.key == row.key && input.signedBy == row.signedBy
    decreases |run|
  {
    if run == [] {
      assert false;
    } else {
      var n := |run| - 1;
      LastStep(EMPTY, run);
      RunKeeps(EMPTY, run[..n]);
      var s := Exec(EMPTY, run[..n]);
      if d in s.dir {
        StepKeeps(s, run[n]);
        input := EveryDeviceWasChecked(run[..n], d);
        PassedEarlier(run, n, s.dir[d].user, input);
      } else {
        input := s.checked[run[n].req].input;
        CheckedHavePassed(run[..n], run[n].req);
        PassedEarlier(run, n, s.checked[run[n].req].actor, input);
      }
    }
  }

  // ---- the signed-by relation ----

  /** path[0] was vouched for by path[1], that by path[2], and so on. */
  ghost predicate VouchPath(dir: Directory, path: seq<DeviceId>) {
    && |path| > 0
    && (forall k :: 0 <= k < |path| ==> path[k] in dir)
    && (forall k :: 0 <= k < |path| - 1 ==> dir[path[k]].signedBy == Some(path[k + 1]))
  }

  lemma {:induction false} PathDescends(dir: Directory, path: seq<DeviceId>)
    requires Inv(dir) && VouchPath(dir, path)
    ensures dir[path[|path| - 1]].user == dir[path[0]].user
    ensures dir[path[|path| - 1]].serial + |path| - 1 <= dir[path[0]].serial
    decreases |path|
  {
    if |path| > 1 {
      assert dir[path[0]].signedBy == Some(path[1]);
      assert VouchPath(dir, path[1..]) by {
        forall k | 0 <= k < |path[1..]| - 1
          ensures dir[path[1..][k]].signedBy == Some(path[1..][k + 1])
        {
          assert dir[path[k + 1]].signedBy == Some(path[k + 2]);
        }
      }
      PathDescends(dir, path[1..]);
    }
  }

  /** No chain of vouches returns to where it began, and none leaves the account. */
  lemma VouchesNeverCycle(run: seq<Step>, path: seq<DeviceId>)
    requires VouchPath(Exec(EMPTY, run).dir, path)
    ensures |path| > 1 ==> path[0] != path[|path| - 1]
    ensures Exec(EMPTY, run).dir[path[|path| - 1]].user == Exec(EMPTY, run).dir[path[0]].user
  {
    RunKeeps(EMPTY, run);
    PathDescends(Exec(EMPTY, run).dir, path);
  }

  /** Every device traces back to a first one, nobody's protege: a forest. */
  lemma {:induction false} TraceToRoot(dir: Directory, d: DeviceId) returns (path: seq<DeviceId>)
    requires Inv(dir) && d in dir
    ensures VouchPath(dir, path) && path[0] == d && dir[path[|path| - 1]].signedBy.None?
    decreases dir[d].serial
  {
    match dir[d].signedBy
    case None => path := [d];
    case Some(p) =>
      var rest := TraceToRoot(dir, p);
      path := [d] + rest;
      forall k | 0 <= k < |path| - 1
        ensures dir[path[k]].signedBy == Some(path[k + 1])
      {
        if k > 0 {
          assert dir[rest[k - 1]].signedBy == Some(rest[k]);
        }
      }
  }

  lemma EveryDeviceHasARoot(run: seq<Step>, d: DeviceId) returns (path: seq<DeviceId>)
    requires d in Exec(EMPTY, run).dir
    ensures VouchPath(Exec(EMPTY, run).dir, path) && path[0] == d
    ensures Exec(EMPTY, run).dir[path[|path| - 1]].signedBy.None?
  {
    RunKeeps(EMPTY, run);
    path := TraceToRoot(Exec(EMPTY, run).dir, d);
  }

  // ---- what a registration means ----

  /** The answer to a registration, first objection first. */
  ghost function ExpectedReply(dir: Directory, actor: User, input: Input): Reply {
    var signer := input.signedBy;
    if |input.key| != 32 || input.id == 0 then ErrValidation
    else if signer != None && signer.value !in dir then ErrValidation
    else if signer != None && (dir[signer.value].user != actor || dir[signer.value].revokedAt != None) then ErrForbidden
    else if signer != None && !input.vouched then ErrValidation
    else if input.id in dir then
      if dir[input.id].user == actor && dir[input.id].key == input.key then Registered else ErrDeviceTaken
    else if exists d :: d in dir && dir[d].user == actor && dir[d].key == input.key then ErrConstraint
    else Registered
  }

  /** A device that is new gets its row; one that is not is renamed; nothing else
      changes. */
  ghost predicate RegisteredAs(was: Directory, actor: User, input: Input, dir: Directory, reply: Reply) {
    var name := if |input.name| > 128 then input.name[..128] else input.name;
    if reply != Registered then dir == was
    else if input.id in was then dir == was[input.id := was[input.id].(name := name)]
    else dir == was[input.id := Device(actor, name, input.key, input.signedBy, |was|, None)]
  }

  lemma RegisterMeans(dir: Directory, actor: User, input: Input)
    ensures var (after, reply) := RegisterDevice(dir, actor, input);
      reply == ExpectedReply(dir, actor, input) && RegisteredAs(dir, actor, input, after, reply)
  {
  }

  // ---- the service ----

  class Registry {
    var dir: Directory

    constructor ()
      ensures dir == map[] && Inv(dir)
    {
      dir := map[];
    }

    /** The two statements of a registration, undisturbed. */
    method Register(actor: User, input: Input) returns (reply: Reply)
      requires Inv(dir)
      modifies this
      ensures (dir, reply) == RegisterDevice(old(dir), actor, input)
      ensures Inv(dir) && Extends(old(dir), dir)
      ensures reply == ExpectedReply(old(dir), actor, input) && RegisteredAs(old(dir), actor, input, dir, reply)
    {
      if MayRegister(dir, actor, input) {
        UpsertKeeps(dir, actor, input);
      }
      RegisterMeans(dir, actor, input);
      if |input.key| != KEY_BYTES || input.id == 0 {
        return ErrValidation;
      }
      if input.signedBy.Some? {
        var signer := input.signedBy.value;
        if signer !in dir {
          return ErrValidation;
        }
        if dir[signer].user != actor || dir[signer].revokedAt.Some? {
          return ErrForbidden;
        }
        if !input.vouched {
          return ErrValidation;
        }
      }
      var name := Truncate(input.name);
      if input.id in dir {
        var row := dir[input.id];
        if row.user != actor || row.key != input.key {
          return ErrDeviceTaken;
        }
        dir := dir[input.id := row.(name := name)];
        return Registered;
      }
      if KeyTaken(dir, actor, input.key) {
        return ErrConstraint;
      }
      dir := dir[input.id := Device(actor, name, input.key, input.signedBy, |dir|, None)];
      return Registered;
    }

    method Revoke(actor: User, id: DeviceId, at: int) returns (reply: Reply)
      modifies this
      ensures (dir, reply) == RevokeDevice(old(dir), actor, id, at)
      ensures reply == Registered <==> id in old(dir) && old(dir)[id].user == actor && old(dir)[id].revokedAt == None
      ensures dir == if reply == Registered then old(dir)[id := old(dir)[id].(revokedAt := Some(at))] else old(dir)
      ensures Extends(old(dir), dir)
    {
      if id !in dir || dir[id].user != actor || dir[id].revokedAt.Some? {
        return ErrNotFound;
      }
      dir := dir[id := dir[id].(revokedAt := Some(at))];
      return Registered;
    }
  }
}
