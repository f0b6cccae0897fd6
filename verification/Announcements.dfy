/** Announcements: who they reach, the sliding daily quota, taking one back. */
module Announcements {
  import opened Common

  const AUTHOR_MAX_LEVEL := 3
  const BROADCASTS_PER_DAY := 10
  const PERSONAL_PER_DAY := 50
  const CEO_LEVEL := 1
  const LOWEST_LEVEL := 10
  const DAY: int := 24 * 60 * 60 * 1_000_000

  predicate HasLevel(level: int) { CEO_LEVEL <= level <= LOWEST_LEVEL }

  predicate IsCEO(level: int) { level == CEO_LEVEL }

  predicate CanInitiateChat(initiator: int, target: int) {
    !HasLevel(initiator) || !HasLevel(target) || initiator <= target
  }

  datatype Audience = All | Basic | Levels(levels: seq<int>) | User(id: Uuid)

  datatype Error = Validation | NotAuthor | AboveYou | Unreachable | Quota | NotFound

  // ---- normalize ----

  datatype Kind = KAll | KBasic | KLevels | KUser | KOther

  /** A request; `worded` says that title and body are within their bounds. */
  datatype Input = Input(kind: Kind, levels: seq<int>, user: Uuid, worded: bool)

  predicate WellFormed(i: Input) {
    i.worded && match i.kind
      case KAll => i.levels == [] && i.user == 0
      case KBasic => i.levels == [] && i.user == 0
      case KLevels => i.levels != [] && i.user == 0 && forall k :: 0 <= k < |i.levels| ==> 1 <= i.levels[k] <= 10
      case KUser => i.user != 0 && i.levels == []
      case KOther => false
  }

  /** The audience a request addresses: the same levels, none named twice. */
  ghost predicate Addresses(i: Input, a: Audience) {
    match i.kind
    case KAll => a == All
    case KBasic => a == Basic
    case KLevels =>
      && a.Levels? && ToSet(a.levels) == ToSet(i.levels)
      && forall j, k :: 0 <= j < k < |a.levels| ==> a.levels[j] != a.levels[k]
    case KUser => a == User(i.user)
    case KOther => false
  }

  method Normalize(i: Input) returns (a: Option<Audience>)
    ensures a.Some? <==> WellFormed(i)
    ensures a.Some? ==> Addresses(i, a.value)
  {
    if !i.worded {
      return None;
    }
    match i.kind {
      case KAll => return if i.levels != [] || i.user != 0 then None else Some(All);
      case KBasic => return if i.levels != [] || i.user != 0 then None else Some(Basic);
      case KUser => return if i.user == 0 || i.levels != [] then None else Some(User(i.user));
      case KOther => return None;
      case KLevels =>
        if i.levels == [] || i.user != 0 {
          return None;
        }
        var levels: seq<int> := [];
        for n := 0 to |i.levels|
          invariant forall k :: 0 <= k < n ==> HasLevel(i.levels[k])
          invariant ToSet(levels) == ToSet(i.levels[..n])
          invariant forall j, k :: 0 <= j < k < |levels| ==> levels[j] != levels[k]
        {
          var l := i.levels[n];
          if !HasLevel(l) {
            return None;
          }
          assert i.levels[..n + 1] == i.levels[..n] + [l];
          ToSetSnoc(i.levels[..n], l);
          ToSetSnoc(levels, l);
          assert l in levels <==> l in ToSet(levels);
          if l !in levels {
            levels := levels + [l];
          }
        }
        assert i.levels[..|i.levels|] == i.levels;
        return Some(Levels(levels));
    }
  }

  // ---- who is reached ----

  /** `level` 0 stands for an account without a role. */
  datatype Account = Account(active: bool, level: int, basic: bool)

  datatype World = World(users: map<Uuid, Account>, blocks: set<(Uuid, Uuid)>)

  function AuthorLevel(w: World, id: Uuid): int {
    if id in w.users && w.users[id].active then w.users[id].level else 0
  }

  predicate Blocked(w: World, a: Uuid, b: Uuid) { (a, b) in w.blocks || (b, a) in w.blocks }

  predicate Matches(w: World, audience: Audience, u: Uuid)
    requires u in w.users
  {
    match audience
    case All => true
    case Basic => w.users[u].basic
    case Levels(levels) => w.users[u].level != 0 && w.users[u].level in levels
    case User(id) => u == id
  }

  function Recipients(w: World, author: Uuid, level: int, audience: Audience): set<Uuid> {
    set u | u in w.users && w.users[u].active && u != author
            && (w.users[u].level == 0 || w.users[u].level >= level)
            && !Blocked(w, u, author) && Matches(w, audience, u)
  }

  predicate Reachable(w: World, author: Uuid, level: int, target: Uuid) {
    && target != author && target in w.users && w.users[target].active
    && (w.users[target].level == 0 || w.users[target].level >= level) && !Blocked(w, target, author)
  }

  /** A personal announcement is let through exactly when the fan-out reaches
      that one person; otherwise it would reach nobody. */
  lemma ReachableIffReached(w: World, author: Uuid, level: int, target: Uuid)
    ensures Recipients(w, author, level, User(target)) == if Reachable(w, author, level, target) then {target} else {}
  {
  }

  // ---- the log ----

  /** `created` is the start of the sending transaction, `counted` the later
      reading of the clock that the quota is counted from. */
  datatype Row = Row(author: Uuid, personal: bool, created: int, counted: int, level: int, reached: nat, revoked: bool)

  function Limit(personal: bool): nat { if personal then PERSONAL_PER_DAY else BROADCASTS_PER_DAY }

  /** count(*) … created_at > after. */
  function Sent(log: seq<Row>, author: Uuid, personal: bool, after: int): nat {
    if log == [] then 0
    else
      var r := log[|log| - 1];
      Sent(log[..|log| - 1], author, personal, after)
        + if r.author == author && r.personal == personal && r.created > after then 1 else 0
  }

  /** How many were made in the half-open window (from, to]. */
  ghost function InWindow(log: seq<Row>, author: Uuid, personal: bool, from: int, to: int): nat {
    if log == [] then 0
    else
      var r := log[|log| - 1];
      InWindow(log[..|log| - 1], author, personal, from, to)
        + if r.author == author && r.personal == personal && from < r.created <= to then 1 else 0
  }

  lemma {:induction false} WindowWithinSent(log: seq<Row>, author: Uuid, personal: bool, from: int, to: int, after: int)
    requires after <= from
    ensures InWindow(log, author, personal, from, to) <= Sent(log, author, personal, after)
  {
    if log != [] {
      WindowWithinSent(log[..|log| - 1], author, personal, from, to, after);
    }
  }

  /** Each row passed the quota when it was written. */
  ghost predicate Within(log: seq<Row>) {
    forall k :: 0 <= k < |log| && !IsCEO(log[k].level) ==>
      Sent(log[..k], log[k].author, log[k].personal, log[k].counted - DAY) < Limit(log[k].personal)
  }

  ghost predicate Lagged(log: seq<Row>, lag: int) {
    forall k :: 0 <= k < |log| ==> log[k].created <= log[k].counted <= log[k].created + lag
  }

  ghost predicate NeverCEO(log: seq<Row>, author: Uuid) {
    forall k :: 0 <= k < |log| && log[k].author == author ==> !IsCEO(log[k].level)
  }

  lemma {:induction false} WindowBound(log: seq<Row>, lag: int, author: Uuid, personal: bool, from: int, to: int)
    requires Within(log) && Lagged(log, lag) && NeverCEO(log, author) && to - from <= DAY - lag
    ensures InWindow(log, author, personal, from, to) <= Limit(personal)
  {
    if log != [] {
      var n := |log| - 1;
      var init, r := log[..n], log[n];
      assert forall k :: 0 <= k < n ==> init[..k] == log[..k];
      WindowBound(init, lag, author, personal, from, to);
      if r.author == author && r.personal == personal && from < r.created <= to {
        WindowWithinSent(init, author, personal, from, to, r.counted - DAY);
      }
    }
  }

  // ---- runs ----

  datatype Note = Note(user: Uuid, announcement: nat)

  /** `gone` are the notices that went with their owner's account. */
  datatype State = State(log: seq<Row>, notes: set<Note>, gone: set<Note>)

  /** An announcement's id is its place in the log. */
  datatype Op =
    | Send(world: World, author: Uuid, audience: Audience, begun: int, now: int)
    | Revoke(world: World, actor: Uuid, id: nat)
    | DeleteAccount(user: Uuid)

  function SendError(s: State, w: World, author: Uuid, audience: Audience, now: int): Option<Error> {
    var level := AuthorLevel(w, author);
    if !HasLevel(level) || level > AUTHOR_MAX_LEVEL then Some(NotAuthor)
    else if audience.Levels? && exists l :: l in audience.levels && !CanInitiateChat(level, l) then Some(AboveYou)
    else if audience.User? && !Reachable(w, author, level, audience.id) then Some(Unreachable)
    else if !IsCEO(level) && Sent(s.log, author, audience.User?, now - DAY) >= Limit(audience.User?) then Some(Quota)
    else None
  }

  function Notes(recipients: set<Uuid>, id: nat): set<Note> { set u | u in recipients :: Note(u, id) }

  function NotesOf(s: State, id: nat): set<Note> { set n | n in s.notes && n.announcement == id }

  function Written(s: State, w: World, author: Uuid, audience: Audience, begun: int, now: int): State {
    var level := AuthorLevel(w, author);
    var recipients := Recipients(w, author, level, audience);
    s.(log := s.log + [Row(author, audience.User?, begun, now, level, |recipients|, false)],
       notes := s.notes + Notes(recipients, |s.log|))
  }

  predicate MayRevoke(s: State, w: World, actor: Uuid, id: nat) {
    id < |s.log| && (s.log[id].author == actor || IsCEO(AuthorLevel(w, actor)))
  }

  function Apply(s: State, op: Op): State {
    match op
    case Send(w, author, audience, begun, now) =>
      if SendError(s, w, author, audience, now) == None then Written(s, w, author, audience, begun, now) else s
    case Revoke(w, actor, id) =>
      if MayRevoke(s, w, actor, id) && !s.log[id].revoked then
        s.(log := s.log[id := s.log[id].(revoked := true)], notes := s.notes - NotesOf(s, id))
      else s
    case DeleteAccount(user) =>
      var its := set n | n in s.notes && n.user == user;
      s.(notes := s.notes - its, gone := s.gone + its)
  }

  const EMPTY := State([], {}, {})

  function Exec(s: State, ops: seq<Op>): State {
    if ops == [] then s else Apply(Exec(s, ops[..|ops| - 1]), ops[|ops| - 1])
  }

  // ---- the quota over runs ----

  lemma {:induction false} RevokingChangesNoCount(log: seq<Row>, id: nat, author: Uuid, personal: bool, after: int)
    requires id < |log|
    ensures Sent(log[id := log[id].(revoked := true)], author, personal, after) == Sent(log, author, personal, after)
  {
    var log' := log[id := log[id].(revoked := true)];
    var n := |log| - 1;
    if id < n {
      RevokingChangesNoCount(log[..n], id, author, personal, after);
      assert log'[..n] == log[..n][id := log[..n][id].(revoked := true)];
    } else {
      assert log'[..n] == log[..n];
    }
  }

  lemma WithinOneMore(log: seq<Row>, r: Row)
    requires Within(log)
    requires !IsCEO(r.level) ==> Sent(log, r.author, r.personal, r.counted - DAY) < Limit(r.personal)
    ensures Within(log + [r])
  {
    var log' := log + [r];
    assert log'[..|log|] == log;
    assert forall k :: 0 <= k < |log| ==> log'[..k] == log[..k];
  }

  lemma WithinRevoked(log: seq<Row>, id: nat)
    requires Within(log) && id < |log|
    ensures Within(log[id := log[id].(revoked := true)])
  {
    var log' := log[id := log[id].(revoked := true)];
    forall k | 0 <= k < |log| && !IsCEO(log'[k].level)
      ensures Sent(log'[..k], log'[k].author, log'[k].personal, log'[k].counted - DAY) < Limit(log'[k].personal)
    {
      if id < k {
        RevokingChangesNoCount(log[..k], id, log[k].author, log[k].personal, log[k].counted - DAY);
        assert log'[..k] == log[..k][id := log[..k][id].(revoked := true)];
      } else {
        assert log'[..k] == log[..k];
      }
    }
  }

  /** The transaction's clock readings are at most `lag` apart, and the clock
      the quota is counted from does not go back. */
  ghost predicate Timed(ops: seq<Op>, lag: int) {
    && (forall k :: 0 <= k < |ops| && ops[k].Send? ==> ops[k].begun <= ops[k].now <= ops[k].begun + lag)
    && forall j, k :: 0 <= j < k < |ops| && ops[j].Send? && ops[k].Send? ==> ops[j].now <= ops[k].now
  }

  lemma {:induction false} RunsStayWithin(ops: seq<Op>, lag: int)
    requires Timed(ops, lag)
    ensures Within(Exec(EMPTY, ops).log) && Lagged(Exec(EMPTY, ops).log, lag)
  {
    if ops != [] {
      var n := |ops| - 1;
      RunsStayWithin(ops[..n], lag);
      var s := Exec(EMPTY, ops[..n]);
      match ops[n] {
        case Send(w, author, audience, begun, now) =>
          if SendError(s, w, author, audience, now) == None {
            var s' := Written(s, w, author, audience, begun, now);
            WithinOneMore(s.log, s'.log[|s.log|]);
          }
        case Revoke(w, actor, id) =>
          if MayRevoke(s, w, actor, id) && !s.log[id].revoked {
            WithinRevoked(s.log, id);
          }
        case DeleteAccount(_) =>
      }
    }
  }

  /** On every run an author who never was CEO keeps to the limit in every
      window of this length, whatever is revoked in between. */
  ghost predicate Safe(personal: bool, lag: int, length: int) {
    forall ops, author, from, to :: Timed(ops, lag) && NeverCEO(Exec(EMPTY, ops).log, author) && to - from == length
      ==> InWindow(Exec(EMPTY, ops).log, author, personal, from, to) <= Limit(personal)
  }

  // ---- a run that sends one more ----

  const TEAM := World(map[1 := Account(true, 2, false), 2 := Account(true, 5, false)], {})

  function OneSend(personal: bool, begun: int, now: int): Op {
    Send(TEAM, 1, if personal then User(2) else All, begun, now)
  }

  function Burst(personal: bool, n: nat): seq<Op> { seq(n, _ => OneSend(personal, 0, 0)) }

  ghost predicate IsBurst(s: State, personal: bool, n: nat) {
    |s.log| == n && forall k :: 0 <= k < n ==> s.log[k].(reached := 0) == Row(1, personal, 0, 0, 2, 0, false)
  }

  lemma {:induction false} BurstCounts(s: State, personal: bool, n: nat, from: int, to: int)
    requires IsBurst(s, personal, n)
    ensures Sent(s.log, 1, personal, from) == if from < 0 then n else 0
    ensures InWindow(s.log, 1, personal, from, to) == if from < 0 <= to then n else 0
    decreases n
  {
    if n > 0 {
      BurstCounts(s.(log := s.log[..n - 1]), personal, n - 1, from, to);
      assert s.log[n - 1].created == 0;
    }
  }

  lemma BurstOneMore(s: State, personal: bool, n: nat)
    requires IsBurst(s, personal, n) && n < Limit(personal)
    ensures IsBurst(Apply(s, OneSend(personal, 0, 0)), personal, n + 1)
  {
    BurstCounts(s, personal, n, -DAY, 0);
    assert SendError(s, TEAM, 1, if personal then User(2) else All, 0) == None;
  }

  lemma {:induction false} BurstRuns(personal: bool, n: nat)
    requires n <= Limit(personal)
    ensures IsBurst(Exec(EMPTY, Burst(personal, n)), personal, n)
  {
    if n > 0 {
      BurstRuns(personal, n - 1);
      assert Burst(personal, n)[..n - 1] == Burst(personal, n - 1);
      BurstOneMore(Exec(EMPTY, Burst(personal, n - 1)), personal, n - 1);
    }
  }

  lemma OneTooMany(personal: bool, lag: nat, length: int)
    requires length > 0 && length > DAY - lag
    ensures !Safe(personal, lag, length)
  {
    var n := Limit(personal);
    var start := Max(0, DAY - lag);
    var burst := Burst(personal, n);
    var last := OneSend(personal, start, DAY);
    var ops := burst + [last];
    BurstRuns(personal, n);
    var s := Exec(EMPTY, burst);
    assert ops[..n] == burst;
    BurstCounts(s, personal, n, 0, 0);
    BurstCounts(s, personal, n, start - length, start);
    var s' := Exec(EMPTY, ops);
    assert s'.log[..n] == s.log;
    assert s' == Apply(s, last);
    assert InWindow(s'.log, 1, personal, start - length, start) == n + 1;
  }

  /** The window the limit really holds for: a day less the time between a
      transaction's start and its count, and not an instant more. */
  lemma SafeIffADayLessTheLag(personal: bool, lag: nat, length: int)
    requires length > 0
    ensures Safe(personal, lag, length) <==> length <= DAY - lag
  {
    if length > DAY - lag {
      OneTooMany(personal, lag, length);
    } else {
      forall ops, author, from, to | Timed(ops, lag) && NeverCEO(Exec(EMPTY, ops).log, author) && to - from == length
        ensures InWindow(Exec(EMPTY, ops).log, author, personal, from, to) <= Limit(personal)
      {
        RunsStayWithin(ops, lag);
        WindowBound(Exec(EMPTY, ops).log, lag, author, personal, from, to);
      }
    }
  }

  // ---- notices ----

  lemma {:induction false} OneNoteEach(recipients: set<Uuid>, id: nat)
    ensures |Notes(recipients, id)| == |recipients|
  {
    if u :| u in recipients {
      OneNoteEach(recipients - {u}, id);
      assert Notes(recipients, id) == Notes(recipients - {u}, id) + {Note(u, id)};
    }
  }

  function GoneOf(s: State, id: nat): set<Note> { set n | n in s.gone && n.announcement == id }

  /** An announcement stands in exactly as many lists as it was recorded to reach,
      less those that went with an account, and in none once taken back. */
  ghost predicate NotesMatch(s: State) {
    && (forall n :: n in s.notes || n in s.gone ==> n.announcement < |s.log|)
    && s.notes !! s.gone
    && (forall k :: 0 <= k < |s.log| && s.log[k].revoked ==> NotesOf(s, k) == {})
    && forall k :: 0 <= k < |s.log| && !s.log[k].revoked ==> |NotesOf(s, k)| == s.log[k].reached - |GoneOf(s, k)|
  }

  lemma WrittenMatches(s: State, w: World, author: Uuid, audience: Audience, begun: int, now: int)
    requires NotesMatch(s)
    ensures NotesMatch(Written(s, w, author, audience, begun, now))
  {
    var s' := Written(s, w, author, audience, begun, now);
    var recipients := Recipients(w, author, AuthorLevel(w, author), audience);
    OneNoteEach(recipients, |s.log|);
    assert NotesOf(s', |s.log|) == Notes(recipients, |s.log|);
    forall k | 0 <= k < |s.log|
      ensures NotesOf(s', k) == NotesOf(s, k) && s'.log[k] == s.log[k]
    {
    }
    assert GoneOf(s, |s.log|) == {};
  }

  lemma RevokedMatches(s: State, id: nat)
    requires NotesMatch(s) && id < |s.log|
    ensures NotesMatch(s.(log := s.log[id := s.log[id].(revoked := true)], notes := s.notes - NotesOf(s, id)))
  {
    var s' := s.(log := s.log[id := s.log[id].(revoked := true)], notes := s.notes - NotesOf(s, id));
    assert NotesOf(s', id) == {};
    forall k | 0 <= k < |s.log| && k != id
      ensures NotesOf(s', k) == NotesOf(s, k) && s'.log[k] == s.log[k]
    {
    }
  }

  lemma DeletedMatches(s: State, user: Uuid)
    requires NotesMatch(s)
    ensures NotesMatch(Apply(s, DeleteAccount(user)))
  {
    var s' := Apply(s, DeleteAccount(user));
    forall k | 0 <= k < |s.log|
      ensures |NotesOf(s', k)| + |GoneOf(s', k)| == |NotesOf(s, k)| + |GoneOf(s, k)|
      ensures NotesOf(s', k) <= NotesOf(s, k)
    {
      NotesLeave(s, user, k);
    }
  }

  lemma NotesLeave(s: State, user: Uuid, k: nat)
    requires s.notes !! s.gone
    ensures var s' := Apply(s, DeleteAccount(user));
      && |NotesOf(s', k)| + |GoneOf(s', k)| == |NotesOf(s, k)| + |GoneOf(s, k)|
      && NotesOf(s', k) <= NotesOf(s, k)
  {
    var s' := Apply(s, DeleteAccount(user));
    var its := set n | n in NotesOf(s, k) && n.user == user;
    assert NotesOf(s, k) == NotesOf(s', k) + its;
    assert GoneOf(s', k) == GoneOf(s, k) + its;
    assert |NotesOf(s', k) + its| == |NotesOf(s', k)| + |its|;
    assert |GoneOf(s, k) + its| == |GoneOf(s, k)| + |its|;
  }

  lemma ApplyMatches(s: State, op: Op)
    requires NotesMatch(s)
    ensures NotesMatch(Apply(s, op))
  {
    match op {
      case Send(w, author, audience, begun, now) => WrittenMatches(s, w, author, audience, begun, now);
      case Revoke(w, actor, id) =>
        if id < |s.log| {
          RevokedMatches(s, id);
        }
      case DeleteAccount(user) => DeletedMatches(s, user);
    }
  }

  lemma {:induction false} RunsMatch(s: State, ops: seq<Op>)
    requires NotesMatch(s)
    ensures NotesMatch(Exec(s, ops))
  {
    if ops != [] {
      RunsMatch(s, ops[..|ops| - 1]);
      ApplyMatches(Exec(s, ops[..|ops| - 1]), ops[|ops| - 1]);
    }
  }

  /** Once taken back, an announcement is in nobody's list, then and after any
      further run. */
  lemma {:induction false} RevokedForGood(s: State, ops: seq<Op>, id: nat)
    requires NotesMatch(s) && id < |s.log| && s.log[id].revoked
    ensures id < |Exec(s, ops).log| && Exec(s, ops).log[id].revoked && NotesOf(Exec(s, ops), id) == {}
  {
    RunsMatch(s, ops);
    if ops != [] {
      RevokedForGood(s, ops[..|ops| - 1], id);
    }
  }

  // ---- what a send means ----

  /** Who is to be told, in terms of the request and the account rows: an active
      account other than the author, without a role or with one not above the
      author's, with no block either way, and addressed. */
  ghost predicate Addressee(w: World, author: Uuid, input: Input, u: Uuid) {
    && u in w.users && author in w.users && w.users[u].active && u != author
    && (w.users[u].level == 0 || w.users[u].level >= w.users[author].level)
    && (u, author) !in w.blocks && (author, u) !in w.blocks
    && match input.kind
       case KAll => true
       case KBasic => w.users[u].basic
       case KLevels => w.users[u].level != 0 && w.users[u].level in input.levels
       case KUser => u == input.user
       case KOther => false
  }

  /** How many rows of one kind the author has in the log after a given time. */
  ghost function CountAfter(log: seq<Row>, author: Uuid, personal: bool, after: int): nat {
    |set k | 0 <= k < |log| && log[k].author == author && log[k].personal == personal && log[k].created > after|
  }

  /** The answer to a well-formed request, first objection first. */
  ghost function FirstObjection(log: seq<Row>, w: World, author: Uuid, input: Input, now: int): Option<Error> {
    if author !in w.users || !w.users[author].active || w.users[author].level < 1 || w.users[author].level > 3
    then Some(NotAuthor)
    else if input.kind == KLevels && exists k :: 0 <= k < |input.levels| && input.levels[k] < w.users[author].level
    then Some(AboveYou)
    else if input.kind == KUser && !Addressee(w, author, input, input.user) then Some(Unreachable)
    else if w.users[author].level != 1
            && CountAfter(log, author, input.kind == KUser, now - 86_400_000_000) >= (if input.kind == KUser then 50 else 10)
    then Some(Quota)
    else None
  }

  lemma {:induction false} SentCounts(log: seq<Row>, author: Uuid, personal: bool, after: int)
    ensures Sent(log, author, personal, after) == CountAfter(log, author, personal, after)
  {
    if log != [] {
      var n := |log| - 1;
      SentCounts(log[..n], author, personal, after);
      var all := set k | 0 <= k < |log| && log[k].author == author && log[k].personal == personal && log[k].created > after;
      var fewer := set k | 0 <= k < n && log[..n][k].author == author && log[..n][k].personal == personal && log[..n][k].created > after;
      if log[n].author == author && log[n].personal == personal && log[n].created > after {
        assert all == fewer + {n};
      } else {
        assert all == fewer;
      }
    }
  }

  lemma ObjectionMeans(s: State, w: World, author: Uuid, input: Input, audience: Audience, now: int)
    requires WellFormed(input) && Addresses(input, audience)
    ensures SendError(s, w, author, audience, now) == FirstObjection(s.log, w, author, input, now)
  {
    SentCounts(s.log, author, audience.User?, now - DAY);
    if audience.Levels? {
      SameLevels(input, audience, AuthorLevel(w, author));
    }
  }

  lemma SameLevels(input: Input, audience: Audience, level: int)
    requires WellFormed(input) && Addresses(input, audience) && input.kind == KLevels
    ensures HasLevel(level) ==>
      ((exists l :: l in audience.levels && !CanInitiateChat(level, l)) <==>
       exists k :: 0 <= k < |input.levels| && input.levels[k] < level)
    ensures forall l :: l in audience.levels <==> l in input.levels
  {
    assert forall l :: l in audience.levels <==> l in ToSet(audience.levels);
    assert forall l :: l in input.levels <==> l in ToSet(input.levels);
    if HasLevel(level) {
      if l :| l in audience.levels && !CanInitiateChat(level, l) {
        var k :| 0 <= k < |input.levels| && input.levels[k] == l;
      }
      if k :| 0 <= k < |input.levels| && input.levels[k] < level {
        assert input.levels[k] in audience.levels && HasLevel(input.levels[k]);
      }
    }
  }

  lemma SentMeans(s: State, w: World, author: Uuid, input: Input, audience: Audience, now: int)
    requires WellFormed(input) && Addresses(input, audience) && SendError(s, w, author, audience, now) == None
    ensures author in w.users && AuthorLevel(w, author) == w.users[author].level
    ensures forall u :: u in Recipients(w, author, AuthorLevel(w, author), audience) <==> Addressee(w, author, input, u)
  {
    if audience.Levels? {
      SameLevels(input, audience, AuthorLevel(w, author));
    }
  }

  // ---- the service ----

  class Service {
    var log: seq<Row>
    var notes: set<Note>
    ghost var gone: set<Note>

    constructor ()
      ensures S() == EMPTY && Valid()
    {
      log, notes, gone := [], {}, {};
    }

    ghost function S(): State
      reads this
    {
      State(log, notes, gone)
    }

    ghost predicate Valid()
      reads this
    {
      NotesMatch(S())
    }

    method Send(world: World, author: Uuid, input: Input, begun: int, now: int)
      returns (error: Option<Error>, ghost audience: Audience)
      requires Valid()
      modifies this
      ensures Valid()
      ensures !WellFormed(input) ==> error == Some(Validation) && S() == old(S())
      ensures WellFormed(input) ==>
        && Addresses(input, audience)
        && error == SendError(old(S()), world, author, audience, now)
        && S() == Apply(old(S()), Op.Send(world, author, audience, begun, now))
      ensures WellFormed(input) ==> error == FirstObjection(old(log), world, author, input, now)
      ensures error != None ==> S() == old(S())
      ensures error == None ==>
        && |log| == |old(log)| + 1 && old(log) <= log && old(notes) <= notes
        && (forall n :: n in notes - old(notes) ==> n.announcement == |old(log)|)
        && (forall u :: Note(u, |old(log)|) in notes <==> Addressee(world, author, input, u))
        && var r := log[|old(log)|];
           && r.author == author && r.personal == (input.kind == KUser) && r.created == begun && r.counted == now
           && r.level == world.users[author].level && !r.revoked && r.reached == |notes - old(notes)|
    {
      audience := All;
      var normal := Normalize(input);
      if normal.None? {
        return Some(Validation), audience;
      }
      var to := normal.value;
      audience := to;
      ObjectionMeans(S(), world, author, input, to, now);
      var level := AuthorLevel(world, author);
      if !HasLevel(level) || level > AUTHOR_MAX_LEVEL {
        return Some(NotAuthor), audience;
      }
      match to {
        case Levels(levels) =>
          for k := 0 to |levels|
            invariant S() == old(S())
            invariant forall j :: 0 <= j < k ==> CanInitiateChat(level, levels[j])
          {
            if !CanInitiateChat(level, levels[k]) {
              return Some(AboveYou), audience;
            }
          }
        case User(id) =>
          if !Reachable(world, author, level, id) {
            return Some(Unreachable), audience;
          }
        case _ =>
      }
      if !IsCEO(level) {
        if Sent(log, author, to.User?, now - DAY) >= Limit(to.User?) {
          return Some(Quota), audience;
        }
      }
      SentMeans(S(), world, author, input, to, now);
      WrittenMatches(S(), world, author, to, begun, now);
      var recipients := Recipients(world, author, level, to);
      OneNoteEach(recipients, |log|);
      assert notes + Notes(recipients, |log|) - notes == Notes(recipients, |log|);
      notes := notes + Notes(recipients, |log|);
      log := log + [Row(author, to.User?, begun, now, level, |recipients|, false)];
      return None, audience;
    }

    method Revoke(world: World, actor: Uuid, id: nat) returns (error: Option<Error>)
      requires Valid()
      modifies this
      ensures Valid()
      ensures error == if MayRevoke(old(S()), world, actor, id) then None else Some(NotFound)
      ensures S() == Apply(old(S()), Op.Revoke(world, actor, id))
      ensures error == None <==>
        && id < |old(log)|
        && (|| old(log)[id].author == actor
            || (actor in world.users && world.users[actor].active && world.users[actor].level == 1))
      ensures error != None ==> S() == old(S())
      ensures error == None && !old(log)[id].revoked ==>
        && log == old(log)[id := old(log)[id].(revoked := true)]
        && forall n :: n in notes <==> n in old(notes) && n.announcement != id
    {
      if id >= |log| {
        return Some(NotFound);
      }
      if log[id].author != actor && !IsCEO(AuthorLevel(world, actor)) {
        return Some(NotFound);
      }
      if log[id].revoked {
        return None;
      }
      RevokedMatches(S(), id);
      assert (set n | n in notes && n.announcement != id) == notes - NotesOf(S(), id);
      notes := set n | n in notes && n.announcement != id;
      log := log[id := log[id].(revoked := true)];
      return None;
    }
  }
}
