/** One-time key packages (section 10 of RFC 9420): uploaded in batches, handed
    out once. A claim locks its picks (FOR UPDATE SKIP LOCKED) before it
    consumes them, and any number of claims may be open at once. */
module KeyPackages {
  import opened Common

  type DeviceId = Uuid
  type PackageId = Uuid
  type Claimer = Uuid

  datatype Device = Device(user: Uuid, revoked: bool)
  datatype Package = Package(device: DeviceId, createdAt: int, consumed: bool)

  /** `handed` counts every package ever returned to a claimer. */
  datatype State = State(
    devices: map<DeviceId, Device>, packages: map<PackageId, Package>,
    open: map<Claimer, map<DeviceId, PackageId>>, handed: multiset<PackageId>)

  /** d.user_id = user AND revoked_at IS NULL AND d.id <> exclude AND (only = nil OR d.id = only). */
  predicate Eligible(s: State, d: DeviceId, user: Uuid, exclude: DeviceId, only: DeviceId) {
    d in s.devices && s.devices[d].user == user && !s.devices[d].revoked && d != exclude && (only == 0 || d == only)
  }

  ghost predicate Locked(s: State, k: PackageId) {
    exists p, d :: p in s.open && d in s.open[p] && s.open[p][d] == k
  }

  ghost predicate Free(s: State, k: PackageId, d: DeviceId) {
    k in s.packages && s.packages[k].device == d && !s.packages[k].consumed && !Locked(s, k)
  }

  /** For each eligible device the oldest free package, where there is one. */
  ghost predicate IsPick(s: State, user: Uuid, exclude: DeviceId, only: DeviceId, picks: map<DeviceId, PackageId>) {
    && (forall d :: d in picks ==> Eligible(s, d, user, exclude, only) && Free(s, picks[d], d))
    && (forall d, k :: d in picks && Free(s, k, d) ==> s.packages[picks[d]].createdAt <= s.packages[k].createdAt)
    && (forall d, k :: Eligible(s, d, user, exclude, only) && Free(s, k, d) ==> d in picks)
  }

  datatype Step =
    | Upload(id: PackageId, device: DeviceId, at: int)
    | Begin(who: Claimer, user: Uuid, exclude: DeviceId, only: DeviceId, picks: map<DeviceId, PackageId>)
    | Commit(who: Claimer)
    | Abort(who: Claimer)
    | Register(device: DeviceId, user: Uuid)
    | Revoke(device: DeviceId)

  ghost predicate Enabled(s: State, step: Step) {
    match step
    case Upload(id, d, _) => id !in s.packages && d in s.devices && !s.devices[d].revoked
    case Begin(p, user, exclude, only, picks) => p !in s.open && IsPick(s, user, exclude, only, picks)
    case Commit(p) => p in s.open
    case Abort(p) => p in s.open
    case Register(d, _) => d !in s.devices
    case Revoke(d) => d in s.devices
  }

  function Consume(packages: map<PackageId, Package>, ids: set<PackageId>): map<PackageId, Package> {
    map k | k in packages :: if k in ids then packages[k].(consumed := true) else packages[k]
  }

  function Next(s: State, step: Step): State
    requires step.Commit? ==> step.who in s.open
    requires step.Revoke? ==> step.device in s.devices
  {
    match step
    case Upload(id, d, at) => s.(packages := s.packages[id := Package(d, at, false)])
    case Begin(p, _, _, _, picks) => s.(open := s.open[p := picks])
    case Commit(p) =>
      var ids := s.open[p].Values;
      s.(packages := Consume(s.packages, ids), open := s.open - {p}, handed := s.handed + multiset(ids))
    case Abort(p) => s.(open := s.open - {p})
    case Register(d, user) => s.(devices := s.devices[d := Device(user, false)])
    case Revoke(d) => s.(devices := s.devices[d := s.devices[d].(revoked := true)])
  }

  // ---- the invariant ----

  function Consumed(packages: map<PackageId, Package>): set<PackageId> {
    set k | k in packages && packages[k].consumed
  }

  function Available(packages: map<PackageId, Package>): set<PackageId> {
    set k | k in packages && !packages[k].consumed
  }

  ghost predicate Holds(s: State, p: Claimer, d: DeviceId, k: PackageId) {
    p in s.open && d in s.open[p] && s.open[p][d] == k
  }

  ghost predicate Inv(s: State) {
    && s.handed == multiset(Consumed(s.packages))
    && (forall p, d, k :: Holds(s, p, d, k) ==>
          k in s.packages && s.packages[k].device == d && !s.packages[k].consumed)
    && (forall p, q, d, e, k :: Holds(s, p, d, k) && Holds(s, q, e, k) ==> p == q && d == e)
  }

  lemma BeginKeeps(s: State, step: Step)
    requires Inv(s) && step.Begin? && Enabled(s, step)
    ensures Inv(Next(s, step))
  {
    var s' := Next(s, step);
    forall p, d, k | Holds(s', p, d, k)
      ensures k in s.packages && s.packages[k].device == d && !s.packages[k].consumed
      ensures p != step.who ==> Holds(s, p, d, k) && Locked(s, k)
      ensures p == step.who ==> Free(s, k, d)
    {
      if p != step.who {
        assert Holds(s, p, d, k) && s.open[p][d] == k;
      } else {
        assert Free(s, step.picks[d], d);
      }
    }
  }

  lemma CommitKeeps(s: State, step: Step)
    requires Inv(s) && step.Commit? && Enabled(s, step)
    ensures Inv(Next(s, step))
  {
    var s' := Next(s, step);
    var ids := s.open[step.who].Values;
    forall k | k in ids
      ensures k in s.packages && !s.packages[k].consumed
    {
      var d :| d in s.open[step.who] && s.open[step.who][d] == k;
      assert Holds(s, step.who, d, k);
    }
    assert Consumed(s'.packages) == Consumed(s.packages) + ids && Consumed(s.packages) !! ids;
    assert multiset(Consumed(s'.packages)) == multiset(Consumed(s.packages)) + multiset(ids);
    forall p, d, k | Holds(s', p, d, k)
      ensures Holds(s, p, d, k) && k !in ids
    {
      assert Holds(s, p, d, k);
      if k in ids {
        var e :| e in s.open[step.who] && s.open[step.who][e] == k;
        assert Holds(s, step.who, e, k);
        assert false;
      }
    }
  }

  lemma StepKeeps(s: State, step: Step)
    requires Inv(s) && Enabled(s, step)
    ensures Inv(Next(s, step))
  {
    var s' := Next(s, step);
    match step
    case Begin(_, _, _, _, _) => BeginKeeps(s, step);
    case Commit(_) => CommitKeeps(s, step);
    case Abort(_) =>
      assert forall p, d, k :: Holds(s', p, d, k) ==> Holds(s, p, d, k);
    case Upload(id, _, _) =>
      assert Consumed(s'.packages) == Consumed(s.packages);
      assert forall p, d, k :: Holds(s', p, d, k) ==> Holds(s, p, d, k);
    case Register(_, _) =>
      assert forall p, d, k :: Holds(s', p, d, k) ==> Holds(s, p, d, k);
    case Revoke(_) =>
      assert forall p, d, k :: Holds(s', p, d, k) ==> Holds(s, p, d, k);
  }

  // ---- runs ----

  const EMPTY: State := State(map[], map[], map[], multiset{})

  ghost predicate IsRun(s: State, run: seq<Step>)
    decreases |run|
  {
    run == [] || (Enabled(s, run[0]) && IsRun(Next(s, run[0]), run[1..]))
  }

  ghost function Exec(s: State, run: seq<Step>): State
    requires IsRun(s, run)
    decreases |run|
  {
    if run == [] then s else Exec(Next(s, run[0]), run[1..])
  }

  lemma {:induction false} RunKeeps(s: State, run: seq<Step>)
    requires Inv(s) && IsRun(s, run)
    ensures Inv(Exec(s, run))
    decreases |run|
  {
    if run != [] {
      StepKeeps(s, run[0]);
      RunKeeps(Next(s, run[0]), run[1..]);
    }
  }

  /** However the claims overlap, a package is handed out at most once. */
  lemma HandedOutAtMostOnce(run: seq<Step>, k: PackageId)
    requires IsRun(EMPTY, run)
    ensures Exec(EMPTY, run).handed[k] <= 1
  {
    assert Inv(EMPTY) by { assert Consumed(EMPTY.packages) == {}; }
    RunKeeps(EMPTY, run);
  }

  /** Nothing is lost either: uploaded is available plus handed out. */
  lemma UploadedIsAvailablePlusHanded(run: seq<Step>)
    requires IsRun(EMPTY, run)
    ensures var s := Exec(EMPTY, run);
      |s.packages| == |Available(s.packages)| + |s.handed|
  {
    assert Inv(EMPTY) by { assert Consumed(EMPTY.packages) == {}; }
    RunKeeps(EMPTY, run);
    var s := Exec(EMPTY, run);
    assert s.packages.Keys == Available(s.packages) + Consumed(s.packages);
    assert |s.packages.Keys| == |Available(s.packages)| + |Consumed(s.packages)|;
  }

  /** A claim returns exactly one package for every active, non-excluded device
      of the target that has an unlocked one left, its oldest, and none else. */
  lemma ClaimYieldsOnePerDevice(s: State, step: Step, d: DeviceId)
    requires Inv(s) && step.Begin? && Enabled(s, step)
    ensures var ids := step.picks.Values;
      var mine := set k | k in ids && s.packages[k].device == d;
      && (forall k :: k in ids ==> k in s.packages)
      && |mine| <= 1
      && (|mine| == 1 <==>
            && d in s.devices && s.devices[d].user == step.user && !s.devices[d].revoked
            && d != step.exclude && (step.only == 0 || d == step.only)
            && exists k :: Free(s, k, d))
      && (forall k, x :: k in mine && x in s.packages && s.packages[x].device == d && !s.packages[x].consumed && !Locked(s, x)
            ==> !s.packages[k].consumed && !Locked(s, k) && s.packages[k].createdAt <= s.packages[x].createdAt)
  {
    var ids := step.picks.Values;
    forall k | k in ids
      ensures k in s.packages && s.packages[k].device in step.picks && step.picks[s.packages[k].device] == k
    {
      var e :| e in step.picks && step.picks[e] == k;
      assert Free(s, step.picks[e], e);
    }
    var mine := set k | k in ids && s.packages[k].device == d;
    if d in step.picks {
      assert Free(s, step.picks[d], d);
      assert step.picks[d] in ids;
      assert mine == {step.picks[d]};
    } else {
      assert mine == {};
    }
  }

  // ---- the claim, with nobody else at the table ----

  /** A device gets its oldest package that is left, if it is the user's, not
      revoked, not the excluded one and (if one is named) the named one. */
  ghost predicate ClaimedFrom(
    devices: map<DeviceId, Device>, packages: map<PackageId, Package>,
    user: Uuid, exclude: DeviceId, only: DeviceId, claimed: map<DeviceId, PackageId>)
  {
    && (forall d :: d in claimed <==>
          && d in devices && devices[d].user == user && !devices[d].revoked && d != exclude && (only == 0 || d == only)
          && exists k :: k in packages && packages[k].device == d && !packages[k].consumed)
    && (forall d :: d in claimed ==>
          claimed[d] in packages && packages[claimed[d]].device == d && !packages[claimed[d]].consumed)
    && (forall d, k :: d in claimed && k in packages && packages[k].device == d && !packages[k].consumed ==>
          packages[claimed[d]].createdAt <= packages[k].createdAt)
  }

  lemma PickMeans(s: State, user: Uuid, exclude: DeviceId, only: DeviceId, picks: map<DeviceId, PackageId>)
    requires IsPick(s, user, exclude, only, picks) && s.open == map[]
    ensures ClaimedFrom(s.devices, s.packages, user, exclude, only, picks)
  {
    assert forall d, k :: Free(s, k, d) <==> k in s.packages && s.packages[k].device == d && !s.packages[k].consumed;
    forall d
      ensures d in picks <==>
        && d in s.devices && s.devices[d].user == user && !s.devices[d].revoked && d != exclude && (only == 0 || d == only)
        && exists k :: k in s.packages && s.packages[k].device == d && !s.packages[k].consumed
    {
      if d in picks {
        assert Free(s, picks[d], d);
      } else if k :| Eligible(s, d, user, exclude, only)
                     && k in s.packages && s.packages[k].device == d && !s.packages[k].consumed {
        assert Free(s, k, d);
      }
    }
  }

  class Directory {
    var devices: map<DeviceId, Device>
    var packages: map<PackageId, Package>
    ghost var handed: multiset<PackageId>

    ghost function S(): State
      reads this
    {
      State(devices, packages, map[], handed)
    }

    method Oldest(d: DeviceId) returns (k: Option<PackageId>)
      ensures k.None? <==> forall x :: !Free(S(), x, d)
      ensures k.Some? ==> Free(S(), k.value, d)
      ensures k.Some? ==> forall x :: Free(S(), x, d) ==> packages[k.value].createdAt <= packages[x].createdAt
    {
      k := None;
      var left := packages.Keys;
      while left != {}
        invariant left <= packages.Keys
        invariant k.Some? ==> Free(S(), k.value, d)
        invariant forall x :: Free(S(), x, d) && x !in left ==>
          k.Some? && packages[k.value].createdAt <= packages[x].createdAt
        decreases left
      {
        var x :| x in left;
        left := left - {x};
        if packages[x].device == d && !packages[x].consumed
           && (k.None? || packages[x].createdAt < packages[k.value].createdAt) {
          k := Some(x);
        }
      }
    }

    method ClaimKeyPackages(user: Uuid, exclude: DeviceId, only: DeviceId) returns (claimed: map<DeviceId, PackageId>)
      modifies this
      ensures IsPick(old(S()), user, exclude, only, claimed)
      ensures packages == Consume(old(packages), claimed.Values)
      ensures devices == old(devices) && handed == old(handed) + multiset(claimed.Values)
      ensures ClaimedFrom(devices, old(packages), user, exclude, only, claimed)
      ensures packages.Keys == old(packages).Keys && forall k :: k in packages ==>
        packages[k] == old(packages)[k].(consumed := old(packages)[k].consumed || k in claimed.Values)
    {
      claimed := map[];
      var left := devices.Keys;
      while left != {}
        invariant left <= devices.Keys && S() == old(S())
        invariant forall d :: d in claimed ==>
          d !in left && Eligible(S(), d, user, exclude, only) && Free(S(), claimed[d], d)
        invariant forall d, x :: d in claimed && Free(S(), x, d) ==>
          packages[claimed[d]].createdAt <= packages[x].createdAt
        invariant forall d, x :: d in devices && d !in left && Eligible(S(), d, user, exclude, only) && Free(S(), x, d) ==>
          d in claimed
        decreases left
      {
        var d :| d in left;
        left := left - {d};
        if devices[d].user == user && !devices[d].revoked && d != exclude && (only == 0 || d == only) {
          var k := Oldest(d);
          if k.Some? {
            claimed := claimed[d := k.value];
          }
        }
      }
      PickMeans(S(), user, exclude, only, claimed);
      packages := Consume(packages, claimed.Values);
      handed := handed + multiset(claimed.Values);
    }
  }
}
