/** Exactly when a session can bring its own payload back to itself, and how that comes about. */
module RelayEcho {
  import opened Bytes
  import opened Frames
  import opened Messages
  import opened Registry
  import opened RelayLogic
  import opened RelayMachine
  import opened RelayInvariants
  import opened RelayTheorems
  import opened RelayRefinement

  /** From `s` to `t`, session `c` has put a payload of its own into its own queue. */
  ghost predicate Echoes(s: State, t: State, c: nat) {
    exists i :: |s.log| <= i < |t.log| && CarriesPayload(t.log[i]) && t.log[i].origin == c && t.log[i].to == c
  }

  /** The turn of session `c` for frame `f` brings its own payload back to it. */
  ghost predicate EchoTurn(s: State, c: nat, f: Frame) {
    c in s.sessions && Fits(f) && ValidRun(s, Turn(s, c, f)) && Echoes(s, Exec(s, Turn(s, c, f)), c)
  }

  lemma {:induction false} AcceptedWasOffered(channels: map<nat, Channel>, ds: seq<Delivery>, d: Delivery)
    requires d in Accepted(channels, ds)
    ensures d in ds && d.to in channels && channels[d.to].open
    decreases ds
  {
    if d !in Accepted(PutOne(channels, ds[0]), ds[1..]) {
      assert d == ds[0];
    } else {
      AcceptedWasOffered(PutOne(channels, ds[0]), ds[1..], d);
    }
  }

  /** A payload offered to connection `k` during a turn is the forward that was decided. */
  lemma {:induction false} PayloadIsForward(c: nat, x: Session, r: Routes, out: Outcome, d: Delivery)
    requires x.registered.Some? && |x.inputs| > 0 && OutcomeIsSound(r, x.registered, out)
    requires d in PhaseOffers(c, x, PhaseOf(r, out)) && CarriesPayload(d)
    ensures ForwardsTo(out, d.to)
  {
  }

  lemma {:induction false} EchoWasOffered(s: State, t: State, c: nat, ds: seq<Delivery>) returns (d: Delivery)
    requires t.log == s.log + Accepted(s.channels, ds) && Echoes(s, t, c)
    ensures d in ds && CarriesPayload(d) && d.to == c && c in s.channels && s.channels[c].open
  {
    var i :| |s.log| <= i < |t.log| && CarriesPayload(t.log[i]) && t.log[i].origin == c && t.log[i].to == c;
    d := t.log[i];
    assert d == Accepted(s.channels, ds)[i - |s.log|];
    AcceptedWasOffered(s.channels, ds, d);
  }

  /** What a turn adds to the log. */
  lemma {:induction false} TurnLog(s: State, c: nat, f: Frame)
    requires Inv(s) && Ready(s, c) && Fits(f) && ValidRun(s, Turn(s, c, f))
    ensures Exec(s, Turn(s, c, f)).log == s.log + Accepted(s.channels, TurnOffers(s, c, f))
  {
    TurnIsLoopBody(s, c, f);
  }

  lemma {:induction false} OfferNeedsRoute(s: State, c: nat, p: PeerId, f: Frame, d: Delivery)
    requires Agree(s.routes) && c in s.sessions && s.sessions[c].registered == Some(p) && Fits(f)
    requires d in TurnOffers(s, c, f) && CarriesPayload(d)
    ensures OtherRoute(s.routes, p, d.to) && ForwardsTo(Decide(s.routes, Some(p), f), d.to)
  {
    var x, out := s.sessions[c], Decide(s.routes, Some(p), f);
    DecisionIsSound(s.routes, Some(p), f);
    PayloadIsForward(c, x.(inputs := x.inputs + [f]), s.routes, out, d);
    ForwardNeedsRoute(s.routes, p, f, d.to);
  }

  /** Connection `c` is what a raw frame under some other prefix than that of `p` is routed to. */
  ghost predicate OtherPrefixRoute(r: Routes, p: PeerId, c: nat) {
    exists k :: k in r.byPrefix && ReachesBack(r, p, c, k)
  }

  ghost predicate ReachesBack(r: Routes, p: PeerId, c: nat, k: RouteId)
    requires k in r.byPrefix
  {
    k != Prefix(p) && k != ROUTE_REGISTRATION_ID && k != ECHO_ROUTE_ID && r.byPrefix[k].conn == c
  }

  ghost function Free(s: State, c: nat): int
    requires c in s.channels
  {
    QUEUE_CAPACITY - |s.channels[c].queue|
  }

  /** One or two offers to a queue with as many free places. */
  lemma {:induction false} TwoFit(channels: map<nat, Channel>, k: nat, d: Delivery, e: Delivery)
    requires k in channels && channels[k].open && d.to == k && e.to == k
    ensures RoomFor(channels, [d] + [e]) <==> |channels[k].queue| + 2 <= QUEUE_CAPACITY
    ensures RoomFor(channels, [d]) <==> |channels[k].queue| + 1 <= QUEUE_CAPACITY
    ensures Accepted(channels, [d] + [e]) == [d, e] && Accepted(channels, [d]) == [d]
  {
    OfferFirst(channels, d, [e]);
    OfferOne(channels, d);
    OfferOne(PutOne(channels, d), e);
  }

  /** A payload that the sender gets back needs the lock, and room for itself and for the answer before it, if any. */
  lemma {:induction false} ForwardToSelf(s: State, c: nat, p: PeerId, f: Frame, out: Outcome)
    requires c in s.sessions && c in s.channels && s.channels[c].open && s.sessions[c].registered == Some(p)
    requires out == Decide(s.routes, Some(p), f) && OutcomeIsSound(s.routes, Some(p), out) && ForwardsTo(out, c)
    ensures Access(Some(p), f) == Some(Shared) && PhaseFails(s, TurnPhase(s, c, f)).None?
    ensures RoomFor(s.channels, TurnOffers(s, c, f)) <==> Free(s, c) >= (if out.Answer? then 2 else 1)
    ensures out.PassOn? ==> OtherPrefixRoute(s.routes, p, c)
  {
    LockIsTakenWhenNeeded(s.routes, s.routes, Some(p), f);
    var x := s.sessions[c].(inputs := s.sessions[c].inputs + [f]);
    assert c !in Gone(s);
    if out.Answer? {
      TwoFit(s.channels, c, AnswerOffer(c, x, out.response.value), ForwardDelivery(c, x, out.next.value));
    } else {
      TwoFit(s.channels, c, ForwardDelivery(c, x, out.forward), ForwardDelivery(c, x, out.forward));
      RawForward(s.routes, p, f, out);
      assert ReachesBack(s.routes, p, c, f.sessionId);
    }
  }

  lemma {:induction false} RawForward(r: Routes, p: PeerId, f: Frame, out: Outcome)
    requires out == Decide(r, Some(p), f) && out.PassOn?
    ensures f.sessionId in r.byPrefix && out.forward.entry == r.byPrefix[f.sessionId] && f.sessionId != Prefix(p)
    ensures f.sessionId != ROUTE_REGISTRATION_ID && f.sessionId != ECHO_ROUTE_ID
  {
  }

  lemma {:induction false} EchoTook(s: State, c: nat, f: Frame) returns (d: Delivery)
    requires Inv(s) && Ready(s, c) && EchoTurn(s, c, f)
    ensures Uninterrupted(s, c, f) && s.channels[c].open
    ensures d in TurnOffers(s, c, f) && CarriesPayload(d) && d.to == c
  {
    TurnLog(s, c, f);
    d := EchoWasOffered(s, Exec(s, Turn(s, c, f)), c, TurnOffers(s, c, f));
    TurnNeeds(s, c, f);
  }

  lemma {:induction false} EchoNeeds(s: State, c: nat, p: PeerId, f: Frame, d: Delivery)
    requires Agree(s.routes) && Ready(s, c) && s.sessions[c].registered == Some(p) && Fits(f)
    requires Uninterrupted(s, c, f) && s.channels[c].open && d in TurnOffers(s, c, f) && CarriesPayload(d) && d.to == c
    ensures s.line == [] && OtherRoute(s.routes, p, c)
    ensures Free(s, c) >= 2 || (Free(s, c) >= 1 && OtherPrefixRoute(s.routes, p, c))
  {
    OfferNeedsRoute(s, c, p, f, d);
    var out := Decide(s.routes, Some(p), f);
    DecisionIsSound(s.routes, Some(p), f);
    ForwardToSelf(s, c, p, f, out);
  }

  /** A turn that takes place had what it needed. */
  lemma {:induction false} TurnNeeds(s: State, c: nat, f: Frame)
    requires Inv(s) && Ready(s, c) && Fits(f)
    ensures ValidRun(s, Turn(s, c, f)) <==> Uninterrupted(s, c, f)
  {
    TurnIsLoopBody(s, c, f);
  }

  lemma {:induction false} EchoSuffices(s: State, c: nat, p: PeerId, f: Frame)
    requires Inv(s) && Ready(s, c) && s.sessions[c].registered == Some(p) && s.line == [] && s.channels[c].open && Fits(f)
    requires var out := Decide(s.routes, Some(p), f); ForwardsTo(out, c) && Free(s, c) >= (if out.Answer? then 2 else 1)
    ensures EchoTurn(s, c, f)
  {
    var out := Decide(s.routes, Some(p), f);
    DecisionIsSound(s.routes, Some(p), f);
    ForwardToSelf(s, c, p, f, out);
    TurnNeeds(s, c, f);
    TurnLog(s, c, f);
    SelfIsLogged(s, Exec(s, Turn(s, c, f)), c, p, f, out);
  }

  lemma {:induction false} SelfIsLogged(s: State, t: State, c: nat, p: PeerId, f: Frame, out: Outcome)
    requires c in s.sessions && c in s.channels && s.channels[c].open && s.sessions[c].registered == Some(p)
    requires out == Decide(s.routes, Some(p), f) && OutcomeIsSound(s.routes, Some(p), out) && ForwardsTo(out, c)
    requires t.log == s.log + Accepted(s.channels, TurnOffers(s, c, f))
    ensures Echoes(s, t, c)
  {
    var x := s.sessions[c].(inputs := s.sessions[c].inputs + [f]);
    if out.Answer? {
      var e := ForwardDelivery(c, x, out.next.value);
      TwoFit(s.channels, c, AnswerOffer(c, x, out.response.value), e);
      assert t.log[|s.log| + 1] == e;
    } else {
      var e := ForwardDelivery(c, x, out.forward);
      TwoFit(s.channels, c, e, e);
      assert t.log[|s.log|] == e;
    }
  }

  /** A raw frame under a prefix that leads back. */
  lemma {:induction false} RawReaches(r: Routes, p: PeerId, c: nat, k: RouteId)
    requires k in r.byPrefix && ReachesBack(r, p, c, k)
    ensures var out := Decide(r, Some(p), Frame(k, ZERO_NONCE, [])); out.PassOn? && ForwardsTo(out, c)
  {
    assert DecodeClient([]).Err?;
  }

  /** A ready session can make the relay put its own payload into its own queue, by the uninterrupted turn of some frame,
      if and only if nobody is in line for the lock, its writer is there, and either its connection holds the route of
      another id than the one it is registered as and there are two free places, for the answer and the event, or a
      prefix other than its own leads back to it and there is one, for the raw frame. */
  lemma {:induction false} EchoIff(s: State, c: nat, p: PeerId)
    requires Inv(s) && Ready(s, c) && s.sessions[c].registered == Some(p)
    ensures (exists f :: EchoTurn(s, c, f)) <==>
      && s.line == [] && s.channels[c].open
      && ((Free(s, c) >= 2 && OtherRoute(s.routes, p, c)) || (Free(s, c) >= 1 && OtherPrefixRoute(s.routes, p, c)))
  {
    if f :| EchoTurn(s, c, f) {
      var d := EchoTook(s, c, f);
      EchoNeeds(s, c, p, f, d);
    }
    if s.line == [] && s.channels[c].open {
      if Free(s, c) >= 2 && OtherRoute(s.routes, p, c) {
        var f := ProbeEchoes(s, c, p);
      }
      if Free(s, c) >= 1 && OtherPrefixRoute(s.routes, p, c) {
        var f := RawEchoes(s, c, p);
      }
    }
  }

  lemma {:induction false} ProbeEchoes(s: State, c: nat, p: PeerId) returns (f: Frame)
    requires Inv(s) && Ready(s, c) && s.sessions[c].registered == Some(p) && s.line == [] && s.channels[c].open
    requires Free(s, c) >= 2 && OtherRoute(s.routes, p, c)
    ensures EchoTurn(s, c, f)
  {
    var q :| q in s.routes.byPeer && q != p && s.routes.byPeer[q].conn == c;
    f := Probe(q);
    ProbeForwards(s.routes, p, q);
    EchoSuffices(s, c, p, f);
  }

  lemma {:induction false} RawEchoes(s: State, c: nat, p: PeerId) returns (f: Frame)
    requires Inv(s) && Ready(s, c) && s.sessions[c].registered == Some(p) && s.line == [] && s.channels[c].open
    requires Free(s, c) >= 1 && OtherPrefixRoute(s.routes, p, c)
    ensures EchoTurn(s, c, f)
  {
    var k :| k in s.routes.byPrefix && ReachesBack(s.routes, p, c, k);
    f := Frame(k, ZERO_NONCE, []);
    RawReaches(s.routes, p, c, k);
    EchoSuffices(s, c, p, f);
  }

  // ---------- how a second route comes about ----------

  function RegistrationFrame(p: PeerId): (f: Frame)
    ensures Fits(f)
  {
    Frame(ROUTE_REGISTRATION_ID, ZERO_NONCE, p)
  }

  lemma {:induction false} RegistrationLeads(s: State, c: nat, p: PeerId)
    requires Inv(s) && Ready(s, c) && LockIsFree(s)
    ensures ValidRun(s, Turn(s, c, RegistrationFrame(p)))
    ensures Exec(s, Turn(s, c, RegistrationFrame(p))) ==
      After(s, c, TurnedSession(s.sessions[c], RegistrationFrame(p), Register(p)), Inserted(s.routes, p, c), [])
  {
    var f := RegistrationFrame(p);
    assert c !in s.line;
    TakenLocks(s.routes, c, s.sessions[c], f);
    RegistrationRun(s, c, f, Taken(s.sessions[c], f), TurnedSession(s.sessions[c], f, Register(p)));
  }

  lemma {:induction false} AfterRegistering(s: State, c: nat, x: Session, r: Routes)
    requires c in s.sessions && LockIsFree(s) && x.phase.Idle?
    ensures var t := After(s, c, x, r, []);
      LockIsFree(t) && t.routes == r && t.channels == s.channels && t.sessions[c] == x
  {
    var t := After(s, c, x, r, []);
    assert forall g :: Holds(t, g) ==> Holds(s, g);
  }

  /** The turn of session `c` for frame `f` takes place and leads to `t`. */
  ghost predicate TurnsTo(s: State, c: nat, f: Frame, t: State) {
    c in s.sessions && ValidRun(s, Turn(s, c, f)) && Exec(s, Turn(s, c, f)) == t
  }

  /** Registering, when the lock is free: the route is there, and those of other ids stay. */
  lemma {:induction false} RegisteringTurn(s: State, c: nat, p: PeerId) returns (t: State)
    requires Inv(s) && Ready(s, c) && LockIsFree(s)
    ensures TurnsTo(s, c, RegistrationFrame(p), t)
    ensures Inv(t) && Ready(t, c) && LockIsFree(t) && t.sessions[c].registered == Some(p)
    ensures t.routes == Inserted(s.routes, p, c) && t.channels == s.channels
  {
    RegistrationLeads(s, c, p);
    RunKeepsInv(s, Turn(s, c, RegistrationFrame(p)));
    AfterRegistering(s, c, TurnedSession(s.sessions[c], RegistrationFrame(p), Register(p)), Inserted(s.routes, p, c));
    t := Exec(s, Turn(s, c, RegistrationFrame(p)));
  }

  /** Two registrations on one connection: the second does not take the route of the first away, and from then on the
      session can reach itself. */
  lemma {:induction false} SecondRegistrationEchoes(s: State, c: nat, q: PeerId, p: PeerId) returns (m: State, t: State)
    requires Inv(s) && Ready(s, c) && LockIsFree(s) && q != p && s.channels[c].open && Free(s, c) >= 2
    ensures TurnsTo(s, c, RegistrationFrame(q), m) && TurnsTo(m, c, RegistrationFrame(p), t)
    ensures IsCurrent(t.routes, q, c) && IsCurrent(t.routes, p, c) && exists f :: EchoTurn(t, c, f)
  {
    m := RegisteringTurn(s, c, q);
    t := RegisteringTurn(m, c, p);
    BothRouted(s.routes, q, p, c);
    CanEcho(t, c, q, p);
  }

  lemma {:induction false} BothRouted(r: Routes, q: PeerId, p: PeerId, c: nat)
    requires q != p
    ensures var t := Inserted(Inserted(r, q, c), p, c); IsCurrent(t, q, c) && IsCurrent(t, p, c)
  {
  }

  lemma {:induction false} CanEcho(t: State, c: nat, q: PeerId, p: PeerId)
    requires Inv(t) && Ready(t, c) && t.sessions[c].registered == Some(p) && t.line == []
    requires t.channels[c].open && Free(t, c) >= 2 && q != p && IsCurrent(t.routes, q, c)
    ensures exists f :: EchoTurn(t, c, f)
  {
    EchoIff(t, c, p);
  }

  /** It happens: a connection that has just come up can do it. */
  lemma {:induction false} FreshConnection()
    ensures Enabled(INIT, Connect)
    ensures var s := Apply(INIT, Connect);
      Inv(s) && Ready(s, 1) && LockIsFree(s) && s.channels[1].open && Free(s, 1) == QUEUE_CAPACITY
  {
    InitInv();
    StepKeepsInv(INIT, Connect);
  }
}
