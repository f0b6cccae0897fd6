/** What has to be published: for every action the events it sends, told from the
    calls that are live and who is on them. */
module CallNotices {
  import opened Common
  import opened CallDomain
  import opened CallSafety
  import opened CallTrace
  import opened CallEndings

  function From(who: User, e: Event): Sent { Sent(Some(who), e) }

  /** The party of a call that is not u. */
  function Peer(cs: CallState, u: User): User { if u == cs.caller then cs.callee else cs.caller }

  /** What the parties of a call are told when the action ends it. */
  function ClosingNotices(cs: CallState, c: CallId, a: Action): seq<Sent> {
    match a
    case DoTerminate(actor, _, Reject) => [From(actor, Rejected(cs.caller, c))]
    case DoTerminate(actor, _, Cancel) => [From(actor, Canceled(cs.callee, c)), From(actor, WakeCancel(cs.callee, c))]
    case DoTerminate(actor, _, Hangup) => [From(actor, Ended(Peer(cs, actor), c, HungUp))]
    case DropSocket(u) => [From(u, Ended(Peer(cs, u), c, PeerDisconnected))]
    case FireTimer(_) =>
      [Sent(None, TimedOut(cs.caller, c)), Sent(None, TimedOut(cs.callee, c)), Sent(None, WakeCancel(cs.callee, c))]
    case _ => []
  }

  /** A request that is refused: malformed, to oneself, too fast, outside a shared
      chat, or across a block. */
  predicate Refused(a: Action)
    requires a.DoInvite?
  {
    || a.call == 0 || a.to == 0 || a.chat == 0 || a.sdp == "" || a.to == a.actor
    || !a.env.rateOk || !a.env.pairInChat || a.env.blocked
  }

  function InviteNotices(st: Store, a: Action): seq<Sent>
    requires a.DoInvite?
  {
    if Refused(a) then []
    else if IsBusy(st, a.actor) then [From(a.actor, Ended(a.actor, a.call, CallerBusy))]
    else if IsBusy(st, a.to) then [From(a.actor, BusyTone(a.actor, a.call))]
    else if !a.env.reachable then [From(a.actor, TimedOut(a.actor, a.call))]
    else [From(a.actor, Incoming(a.to, a.call, a.actor)), From(a.actor, WakeInvite(a.to, a.call))]
  }

  /** A relay or an answer, for a frame about the live call cs. */
  function RelayNotices(cs: CallState, c: CallId, a: Action): seq<Sent> {
    match a
    case DoAnswer(actor, _, sdp) =>
      if sdp != "" && actor == cs.callee && cs.phase == Ringing then [From(actor, Answered(cs.caller, c))] else []
    case DoIce(actor, _, candidate) =>
      if candidate != "" && (actor == cs.caller || actor == cs.callee)
      then [From(actor, IceRelay(Peer(cs, actor), c, actor))] else []
    case DoRenegotiate(actor, _, kind, sdp) =>
      if sdp == "" || cs.phase != Connected then []
      else if kind == SdpOffer && actor == cs.caller then [From(actor, Renegotiated(cs.callee, c, SdpOffer))]
      else if kind == SdpAnswer && actor == cs.callee then [From(actor, Renegotiated(cs.caller, c, SdpAnswer))]
      else []
    case _ => []
  }

  /** The call an action is about, if it is live. */
  function Subject(st: Store, a: Action): Option<CallId> {
    match a
    case DoAnswer(_, call, _) => Some(call)
    case DoIce(_, call, _) => Some(call)
    case DoRenegotiate(_, call, _, _) => Some(call)
    case DoTerminate(_, call, _) => Some(call)
    case FireTimer(t) => Some(t.call)
    case DropSocket(u) => CallIdForUser(st, u)
    case _ => None
  }

  function Notices(w: World, a: Action): seq<Sent> {
    if a.DoInvite? then InviteNotices(w.store, a)
    else
      var c := Subject(w.store, a);
      if c.None? || Get(w.store, c.value).None? then []
      else
        var cs := Get(w.store, c.value).value;
        if EndingStatus(cs, c.value, a).Some? then ClosingNotices(cs, c.value, a) else RelayNotices(cs, c.value, a)
  }

  lemma InvitePublishes(w: World, a: Action)
    requires Inv(w) && a.DoInvite?
    ensures Step(w, a).trace == w.trace + Notices(w, a)
  {
    ReapKeepsStore(w.store, a.actor);
    assert Refused(a) <==> !InviteRefusal(a.actor, a.call, a.to, a.chat, a.sdp, a.env).Accepted?;
  }

  lemma RelayPublishes(w: World, a: Action)
    requires Inv(w) && (a.DoAnswer? || a.DoIce? || a.DoRenegotiate?)
    ensures Step(w, a).trace == w.trace + Notices(w, a)
  {
    if Get(w.store, a.call).Some? {
      assert CallOk(w.store, a.call);
    }
  }

  lemma EndingPublishes(w: World, a: Action)
    requires Inv(w) && (a.DoTerminate? || a.DropSocket? || a.FireTimer?)
    ensures Step(w, a).trace == w.trace + Notices(w, a)
  {
    var c := Subject(w.store, a);
    if c.Some? && Get(w.store, c.value).Some? {
      assert CallOk(w.store, c.value);
    }
  }

  /** Every action publishes its notices, all of them, in order, and nothing else. */
  lemma PublishesExactly(w: World, a: Action)
    requires Inv(w)
    ensures Step(w, a).trace == w.trace + Notices(w, a)
  {
    match a {
      case DoInvite(_, _, _, _, _, _) => InvitePublishes(w, a);
      case DoAnswer(_, _, _) => RelayPublishes(w, a);
      case DoIce(_, _, _) => RelayPublishes(w, a);
      case DoRenegotiate(_, _, _, _) => RelayPublishes(w, a);
      case DoTerminate(_, _, _) => EndingPublishes(w, a);
      case DropSocket(_) => EndingPublishes(w, a);
      case FireTimer(_) => EndingPublishes(w, a);
      case _ =>
    }
  }

  /** Whenever a live call is closed, its parties are told: the rejected caller, the
      callee of a canceled call (and its phone), the other party of a call hung up or
      dropped, both parties (and the callee's phone) of a missed one; each once. */
  lemma EndingIsTold(w: World, a: Action, c: CallId, cs: CallState)
    requires Inv(w) && Enabled(w, a) && Live(w, c, cs) && EndingStatus(cs, c, a).Some?
    ensures Step(w, a).trace == w.trace + ClosingNotices(cs, c, a) && ClosingNotices(cs, c, a) != []
    ensures Lost(w, Step(w, a), c, cs)
  {
    if a.DropSocket? {
      OnCallIsBusy(w.store, c, a.user);
    }
    PublishesExactly(w, a);
    CallEndsExactly(w, a, c, cs);
  }
}
