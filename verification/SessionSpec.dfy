/**
 Sessions as values, and what the session manager's operations do to them. A step is one locked section at one
 reading of the clock. The background sweep is a step like any other.
 */
module SessionSpec {
  import opened Prelude

  type SessionId = nat
  type AgentId = nat

  datatype Status = Negotiating | Active | Closed | Expired

  datatype Offer = Offer(offerId: string, provider: AgentId, connection: string)

  datatype Session = Session(
    requester: AgentId, provider: Option<AgentId>, providerConn: Option<string>, offers: seq<Offer>,
    chosen: Option<string>, chosenSchema: Option<string>, chosenView: Option<string>, status: Status,
    createdAt: real, activatedAt: Option<real>, closedAt: Option<real>, negotiationTtl: int, sessionTtl: int)
  {
    function ExpiresAt(): real {
      if status == Negotiating then createdAt + negotiationTtl as real
      else if status == Active && activatedAt.Some? then activatedAt.value + sessionTtl as real
      else createdAt
    }

    predicate IsExpired(now: real) {
      now > ExpiresAt()
    }
  }

  function NewSession(requester: AgentId, negotiationTtl: int, sessionTtl: int, now: real): Session {
    Session(requester, None, None, [], None, None, None, Negotiating, now, None, None, negotiationTtl, sessionTtl)
  }

  /** The first offer with the given identifier. */
  function FindOffer(offers: seq<Offer>, offerId: string): (found: Option<Offer>)
    ensures found.Some? ==> found.value in offers && found.value.offerId == offerId
    ensures found.None? <==> forall o | o in offers :: o.offerId != offerId
  {
    if offers == [] then None
    else if offers[0].offerId == offerId then Some(offers[0])
    else FindOffer(offers[1..], offerId)
  }

  function Activated(s: Session, offer: Offer, schema: Option<string>, view: Option<string>, now: real): Session {
    s.(chosen := Some(offer.offerId), provider := Some(offer.provider), providerConn := Some(offer.connection),
       chosenSchema := schema, chosenView := view, status := Active, activatedAt := Some(now))
  }

  function ClosedAt(s: Session, now: real): Session {
    s.(status := Closed, closedAt := Some(now))
  }

  predicate Lapsed(s: Session, now: real) {
    s.IsExpired(now) && s.status != Closed && s.status != Expired
  }

  function Swept(s: Session, now: real): Session {
    if Lapsed(s, now) then s.(status := Expired, closedAt := Some(now)) else s
  }

  type Board = map<SessionId, Session>

  datatype Action =
    | Create(id: SessionId, requester: AgentId, negotiationTtl: int, sessionTtl: int)
    | AddOffer(id: SessionId, offer: Offer)
    | Agree(id: SessionId, offerId: string, schema: Option<string>, view: Option<string>)
    | CloseSession(id: SessionId)
    | Validate(id: SessionId, sender: AgentId)
    | Sweep

  datatype Step = Step(action: Action, at: real)

  predicate OffersOpen(s: Session, now: real) {
    s.status == Negotiating && !s.IsExpired(now)
  }

  /** An agreement does not ask whether the negotiation deadline has passed. */
  predicate MayAgree(s: Session, offerId: string) {
    s.status == Negotiating && FindOffer(s.offers, offerId).Some?
  }

  predicate MayExecute(s: Session, sender: AgentId, now: real) {
    s.status == Active && !s.IsExpired(now) && (sender == s.requester || Some(sender) == s.provider)
  }

  /** Whether the manager accepts the request. */
  predicate Accepts(b: Board, step: Step) {
    match step.action
    case Create(_, _, _, _) => true
    case AddOffer(id, _) => id in b && OffersOpen(b[id], step.at)
    case Agree(id, offerId, _, _) => id in b && MayAgree(b[id], offerId)
    case CloseSession(id) => id in b
    case Validate(id, sender) => id in b && MayExecute(b[id], sender, step.at)
    case Sweep => true
  }

  function Next(b: Board, step: Step): Board {
    if !Accepts(b, step) then b else
      match step.action
      case Create(id, requester, nttl, sttl) => b[id := NewSession(requester, nttl, sttl, step.at)]
      case AddOffer(id, offer) => b[id := b[id].(offers := b[id].offers + [offer])]
      case Agree(id, offerId, schema, view) =>
        b[id := Activated(b[id], FindOffer(b[id].offers, offerId).value, schema, view, step.at)]
      case CloseSession(id) => b[id := ClosedAt(b[id], step.at)]
      case Validate(_, _) => b
      case Sweep => SweptAll(b, step.at)
  }

  function SweptAll(b: Board, now: real): Board {
    map id | id in b :: Swept(b[id], now)
  }

  /** Identifiers are fresh and the clock does not go back. */
  predicate Enabled(b: Board, now: real, step: Step) {
    now <= step.at && (step.action.Create? ==> step.action.id !in b)
  }

  /** `run` goes from `b` at `now` to `b'` at `now'` by enabled steps. */
  predicate Runs(b: Board, now: real, run: seq<Step>, b': Board, now': real)
    decreases |run|
  {
    if run == [] then b' == b && now' == now
    else Enabled(b, now, run[0]) && Runs(Next(b, run[0]), run[0].at, run[1..], b', now')
  }

  // ----- What each operation does -----

  lemma CreateEffect(b: Board, id: SessionId, requester: AgentId, negotiationTtl: int, sessionTtl: int, at: real)
    ensures var t := Next(b, Step(Create(id, requester, negotiationTtl, sessionTtl), at));
            && t.Keys == b.Keys + {id} && (forall x | x in b && x != id :: t[x] == b[x])
            && t[id].status == Negotiating && t[id].createdAt == at && t[id].requester == requester
            && t[id].negotiationTtl == negotiationTtl && t[id].sessionTtl == sessionTtl && t[id].offers == []
            && t[id].provider == None && t[id].chosen == None && t[id].activatedAt == None && t[id].closedAt == None
  {
  }

  /** An offer is accepted exactly while the session is negotiating and its negotiation time has not run out. */
  lemma OfferEffect(b: Board, id: SessionId, offer: Offer, at: real)
    ensures var step := Step(AddOffer(id, offer), at);
            && (Accepts(b, step) <==>
                  id in b && b[id].status == Negotiating && at <= b[id].createdAt + b[id].negotiationTtl as real)
            && Next(b, step) == if Accepts(b, step) then b[id := b[id].(offers := b[id].offers + [offer])] else b
  {
  }

  /** The provider comes from the first offer with the identifier; schema and view are the ones given, the time is now. */
  lemma AgreeEffect(b: Board, id: SessionId, offerId: string, schema: Option<string>, view: Option<string>, at: real)
    ensures var step, t := Step(Agree(id, offerId, schema, view), at), Next(b, Step(Agree(id, offerId, schema, view), at));
            && (Accepts(b, step) <==>
                  id in b && b[id].status == Negotiating && exists i :: 0 <= i < |b[id].offers| && b[id].offers[i].offerId == offerId)
            && (!Accepts(b, step) ==> t == b)
            && (Accepts(b, step) ==>
                  && t.Keys == b.Keys && (forall x | x in b && x != id :: t[x] == b[x])
                  && t[id].status == Active && t[id].activatedAt == Some(at) && t[id].offers == b[id].offers
                  && t[id].chosen == Some(offerId) && t[id].chosenSchema == schema && t[id].chosenView == view
                  && t[id].createdAt == b[id].createdAt && t[id].requester == b[id].requester
                  && exists i :: 0 <= i < |b[id].offers| && b[id].offers[i].offerId == offerId
                                 && (forall j | 0 <= j < i :: b[id].offers[j].offerId != offerId)
                                 && t[id].provider == Some(b[id].offers[i].provider)
                                 && t[id].providerConn == Some(b[id].offers[i].connection))
  {
    if id in b {
      FirstOffer(b[id].offers, offerId);
    }
    hide FindOffer;
  }

  lemma {:induction false} FirstOffer(offers: seq<Offer>, offerId: string)
    ensures FindOffer(offers, offerId).Some? ==>
              exists i :: 0 <= i < |offers| && offers[i] == FindOffer(offers, offerId).value && offers[i].offerId == offerId
                          && forall j | 0 <= j < i :: offers[j].offerId != offerId
  {
    if offers != [] && offers[0].offerId == offerId {
      assert offers[0] == FindOffer(offers, offerId).value;
    } else if FindOffer(offers, offerId).Some? {
      FirstOffer(offers[1..], offerId);
      var i :| 0 <= i < |offers[1..]| && offers[1..][i] == FindOffer(offers, offerId).value && offers[1..][i].offerId == offerId
               && forall j | 0 <= j < i :: offers[1..][j].offerId != offerId;
      assert forall j | 0 < j <= i :: offers[j] == offers[1..][j - 1];
      assert offers[i + 1] == FindOffer(offers, offerId).value;
    }
  }

  lemma CloseEffect(b: Board, id: SessionId, at: real)
    ensures var step := Step(CloseSession(id), at);
            && (Accepts(b, step) <==> id in b)
            && Next(b, step) == if id in b then b[id := b[id].(status := Closed, closedAt := Some(at))] else b
  {
  }

  lemma ValidateEffect(b: Board, id: SessionId, sender: AgentId, at: real)
    requires id in b && b[id].status == Active && b[id].activatedAt.Some?
    ensures Accepts(b, Step(Validate(id, sender), at)) <==>
              at <= b[id].activatedAt.value + b[id].sessionTtl as real && (sender == b[id].requester || b[id].provider == Some(sender))
  {
  }

  /** The sweep expires exactly the sessions whose negotiation or session time has run out; it leaves all others alone. */
  lemma SweepEffect(b: Board, at: real, id: SessionId)
    requires id in b && (b[id].status == Active ==> b[id].activatedAt.Some?)
    ensures var s, t := b[id], Next(b, Step(Sweep, at));
            && t.Keys == b.Keys
            && t[id] == if || (s.status == Negotiating && at > s.createdAt + s.negotiationTtl as real)
                           || (s.status == Active && at > s.activatedAt.value + s.sessionTtl as real)
                        then s.(status := Expired, closedAt := Some(at)) else s
  {
  }

  // ----- Lifecycle -----

  /** What holds of every session at every moment. */
  predicate SessionInv(s: Session, now: real) {
    && s.createdAt <= now
    && (s.status == Negotiating ==> s.activatedAt.None?) && (s.status == Active ==> s.activatedAt.Some?)
    && (s.activatedAt.Some? <==> s.chosen.Some?)
    && (s.activatedAt.Some? <==> s.provider.Some?) && (s.activatedAt.Some? <==> s.providerConn.Some?)
    && (s.activatedAt.Some? ==>
          && s.createdAt <= s.activatedAt.value <= now
          && exists o :: o in s.offers && o == Offer(s.chosen.value, s.provider.value, s.providerConn.value))
  }

  ghost predicate BoardInv(b: Board, now: real) {
    forall id | id in b :: SessionInv(b[id], now)
  }

  /** Negotiating, then active, then over: an expired session may still be closed, a closed one stays closed. */
  predicate Onward(a: Status, z: Status) {
    match a
    case Negotiating => true
    case Active => z != Negotiating
    case Expired => z == Expired || z == Closed
    case Closed => z == Closed
  }

  /** How a later state of a session may differ from an earlier one. */
  predicate Follows(s: Session, t: Session) {
    && t.requester == s.requester && t.createdAt == s.createdAt
    && t.negotiationTtl == s.negotiationTtl && t.sessionTtl == s.sessionTtl
    && Onward(s.status, t.status)
    && s.offers <= t.offers
    && (s.status != Negotiating ==>
          && t.offers == s.offers && t.provider == s.provider && t.providerConn == s.providerConn && t.chosen == s.chosen
          && t.chosenSchema == s.chosenSchema && t.chosenView == s.chosenView && t.activatedAt == s.activatedAt)
  }

  lemma StepFollows(b: Board, now: real, step: Step)
    requires BoardInv(b, now) && Enabled(b, now, step)
    ensures BoardInv(Next(b, step), step.at)
    ensures forall id | id in b :: id in Next(b, step) && Follows(b[id], Next(b, step)[id])
  {
    hide FindOffer;
    var t := Next(b, step);
    forall id | id in t
      ensures SessionInv(t[id], step.at) && (id in b ==> Follows(b[id], t[id]))
    {
      if id in b && t[id] != b[id] && step.action.AddOffer? && b[id].activatedAt.Some? {
        assert false;
      }
    }
  }

  /**
   Over any run: a session never returns to negotiating or active, its offers only grow while it is negotiated
   and are frozen afterwards together with the chosen provider and the moment of activation.
   */
  lemma {:induction false} RunFollows(b: Board, now: real, run: seq<Step>, b': Board, now': real)
    requires BoardInv(b, now) && Runs(b, now, run, b', now')
    ensures BoardInv(b', now') && now <= now'
    ensures forall id | id in b :: id in b' && Follows(b[id], b'[id])
    decreases |run|
  {
    if run != [] {
      hide BoardInv, Follows, Next, Enabled;
      assert now <= run[0].at by { EnabledTime(b, now, run[0]); }
      var mid := Next(b, run[0]);
      StepFollows(b, now, run[0]);
      RunFollows(mid, run[0].at, run[1..], b', now');
      forall id | id in b
        ensures id in b' && Follows(b[id], b'[id])
      {
        FollowsOn(b[id], mid[id], b'[id]);
      }
    } else {
      hide Next, Enabled;
    }
  }

  lemma EnabledTime(b: Board, now: real, step: Step)
    requires Enabled(b, now, step)
    ensures now <= step.at
  {
  }

  lemma FollowsOn(s: Session, t: Session, u: Session)
    requires Follows(s, t) && Follows(t, u)
    ensures Follows(s, u)
  {
  }

  /** A closed session stays closed over any run: no offer, no agreement and no execution is accepted any more. */
  lemma ClosedForGood(b: Board, now: real, step: Step, run: seq<Step>, b': Board, now': real, later: Step)
    requires BoardInv(b, now) && Enabled(b, now, step) && step.action.CloseSession? && step.action.id in b
    requires Runs(Next(b, step), step.at, run, b', now')
    ensures step.action.id in b' && b'[step.action.id].status == Closed
    ensures (later.action.AddOffer? || later.action.Agree? || later.action.Validate?) && later.action.id == step.action.id ==>
              !Accepts(b', later)
  {
    CloseEffect(b, step.action.id, step.at);
    StepFollows(b, now, step);
    RunFollows(Next(b, step), step.at, run, b', now');
  }

  /** What was agreed stays over any run; the session is active unless it has been closed or has expired. */
  lemma AgreedForGood(b: Board, now: real, step: Step, run: seq<Step>, b': Board, now': real)
    requires BoardInv(b, now) && Enabled(b, now, step) && step.action.Agree? && Accepts(b, step)
    requires Runs(Next(b, step), step.at, run, b', now')
    ensures var id := step.action.id;
            && id in b && id in b' && b'[id].status in {Active, Closed, Expired} && b'[id].activatedAt == Some(step.at)
            && b'[id].chosen == Some(step.action.offerId)
            && b'[id].chosenSchema == step.action.schema && b'[id].chosenView == step.action.view
            && b'[id].offers == b[id].offers
  {
    AgreeEffect(b, step.action.id, step.action.offerId, step.action.schema, step.action.view, step.at);
    StepFollows(b, now, step);
    RunFollows(Next(b, step), step.at, run, b', now');
  }

  /** A session activates at most once: after an accepted agreement none is ever accepted again. */
  lemma ActivatesOnce(b: Board, now: real, step: Step, run: seq<Step>, b': Board, now': real, again: Step)
    requires BoardInv(b, now) && Enabled(b, now, step) && step.action.Agree? && Accepts(b, step)
    requires Runs(Next(b, step), step.at, run, b', now')
    requires again.action.Agree? && again.action.id == step.action.id
    ensures !Accepts(b', again)
  {
    StepFollows(b, now, step);
    RunFollows(Next(b, step), step.at, run, b', now');
  }

  /**
   In any reachable state execution is accepted from the requester and from the provider of the chosen offer only,
   of a session that is active, and exactly up to `sessionTtl` seconds after its activation.
   */
  lemma ExecutionWindow(run: seq<Step>, b: Board, now: real, id: SessionId, sender: AgentId, at: real)
    requires Runs(map[], 0.0, run, b, now) && now <= at
    ensures Accepts(b, Step(Validate(id, sender), at)) <==>
              && id in b && b[id].status == Active
              && b[id].activatedAt.Some?
              && b[id].activatedAt.value <= at <= b[id].activatedAt.value + b[id].sessionTtl as real
              && (sender == b[id].requester
                  || exists o :: o in b[id].offers && Some(o.offerId) == b[id].chosen
                                 && Some(o.provider) == b[id].provider && o.provider == sender)
  {
    RunFollows(map[], 0.0, run, b, now);
    if id in b {
      assert SessionInv(b[id], now);
    }
  }

  // ----- The sweep -----

  /** A run without its sweeps. */
  function Erase(run: seq<Step>): seq<Step> {
    if run == [] then []
    else if run[0].action.Sweep? then Erase(run[1..])
    else [run[0]] + Erase(run[1..])
  }

  /** The verdicts of the steps that are not sweeps. */
  function Verdicts(b: Board, run: seq<Step>): seq<bool>
    decreases |run|
  {
    if run == [] then []
    else if run[0].action.Sweep? then Verdicts(Next(b, run[0]), run[1..])
    else [Accepts(b, run[0])] + Verdicts(Next(b, run[0]), run[1..])
  }

  predicate Timed(now: real, run: seq<Step>)
    decreases |run|
  {
    run == [] || (now <= run[0].at && Timed(run[0].at, run[1..]))
  }

  /** No agreement on a session under negotiation is attempted after the negotiation deadline. */
  predicate Polite(b: Board, run: seq<Step>)
    decreases |run|
  {
    run == [] || (InTime(b, run[0]) && Polite(Next(b, run[0]), run[1..]))
  }

  predicate InTime(b: Board, step: Step) {
    step.action.Agree? && step.action.id in b && b[step.action.id].status == Negotiating ==> !b[step.action.id].IsExpired(step.at)
  }

  /** A session that a sweep has closed, beside the one it would be otherwise. */
  predicate Alike(s: Session, t: Session, now: real) {
    s == t || (Lapsed(t, now) && s.closedAt.Some? && s == t.(status := Expired, closedAt := s.closedAt))
  }

  ghost predicate AlikeAll(b: Board, c: Board, now: real) {
    b.Keys == c.Keys && forall id | id in b :: Alike(b[id], c[id], now)
  }

  lemma StaysLapsed(s: Session, t: Session, now: real, at: real)
    requires Alike(s, t, now) && now <= at
    ensures Alike(s, t, at) && Alike(Swept(s, at), t, at)
  {
  }

  lemma SweptAlike(b: Board, c: Board, now: real, at: real)
    requires AlikeAll(b, c, now) && now <= at
    ensures AlikeAll(SweptAll(b, at), c, at) && AlikeAll(b, c, at)
  {
    hide Alike, Swept;
    forall id | id in b
      ensures Alike(Swept(b[id], at), c[id], at) && Alike(b[id], c[id], at)
    {
      StaysLapsed(b[id], c[id], now, at);
    }
  }

  lemma StepAlike(b: Board, c: Board, step: Step)
    requires AlikeAll(b, c, step.at) && InTime(c, step) && !step.action.Sweep?
    ensures Accepts(b, step) == Accepts(c, step) && AlikeAll(Next(b, step), Next(c, step), step.at)
  {
    hide FindOffer;
    match step.action
    case Create(_, _, _, _) =>
    case AddOffer(_, _) =>
    case Agree(_, _, _, _) =>
    case CloseSession(_) =>
    case Validate(_, _) =>
  }

  /**
   The sweep cannot be observed: as long as no agreement is attempted past a negotiation deadline, every verdict
   of every request is what it would be in the run without the sweeps, wherever they are and however many.
   */
  lemma {:induction false} SweepUnobservable(b: Board, c: Board, now: real, run: seq<Step>)
    requires AlikeAll(b, c, now) && Timed(now, run) && Polite(c, Erase(run))
    ensures Verdicts(b, run) == Verdicts(c, Erase(run))
    decreases |run|
  {
    if run != [] {
      var step, rest := run[0], run[1..];
      SweptAlike(b, c, now, step.at);
      hide AlikeAll, InTime, SweptAll, Accepts;
      if step.action.Sweep? {
        assert Next(b, step) == SweptAll(b, step.at) by { SweepNext(b, step); }
        SweepUnobservable(Next(b, step), c, step.at, rest);
      } else {
        assert Erase(run)[0] == step && Erase(run)[1..] == Erase(rest);
        StepAlike(b, c, step);
        SweepUnobservable(Next(b, step), Next(c, step), step.at, rest);
      }
    }
  }

  lemma SweepNext(b: Board, step: Step)
    requires step.action.Sweep?
    ensures Next(b, step) == SweptAll(b, step.at)
  {
  }

  /** Inserting sweeps anywhere in a polite run changes no verdict. */
  lemma SweepsInsertedAnywhere(now: real, base: seq<Step>, run: seq<Step>)
    requires Erase(run) == base && Timed(now, run) && Polite(map[], base)
    ensures Verdicts(map[], run) == Verdicts(map[], base)
  {
    assert Erase(base) == base by { EraseTwice(run); }
    SweepUnobservable(map[], map[], now, run);
  }

  lemma {:induction false} EraseTwice(run: seq<Step>)
    ensures Erase(Erase(run)) == Erase(run)
  {
    if run != [] {
      EraseTwice(run[1..]);
      if !run[0].action.Sweep? {
        assert Erase(run)[1..] == Erase(run[1..]);
      }
    }
  }

  /**
   Without the proviso it can be observed: a sweep just before an agreement changes the verdict exactly when the
   session is under negotiation, past its deadline, and has the offer.
   */
  lemma SweepBeforeAgree(b: Board, id: SessionId, offerId: string, schema: Option<string>, view: Option<string>, at: real)
    ensures var agree := Step(Agree(id, offerId, schema, view), at);
            Accepts(SweptAll(b, at), agree) != Accepts(b, agree) <==>
              && id in b && b[id].status == Negotiating && b[id].IsExpired(at)
              && exists o :: o in b[id].offers && o.offerId == offerId
  {
    if id in b {
      assert SweptAll(b, at)[id] == Swept(b[id], at);
    }
  }

  /**
   It does happen: half a minute of negotiation, one offer, and an agreement one second too late is accepted,
   but not if the sweep comes first.
   */
  lemma SweepObserved() returns (run: seq<Step>, b: Board, agree: Step)
    ensures Runs(map[], 0.0, run, b, 1.0) && agree.at == 31.0
    ensures Accepts(b, agree) && !Accepts(Next(b, Step(Sweep, agree.at)), agree)
  {
    var open, offer := Step(Create(0, 1, 30, 300), 0.0), Step(AddOffer(0, Offer("o", 2, "c")), 1.0);
    agree := Step(Agree(0, "o", None, None), 31.0);
    run := [open, offer];
    b := Next(Next(map[], open), offer);
    assert run[1..] == [offer] && run[1..][1..] == [];
    assert Runs(Next(map[], open), 0.0, run[1..], b, 1.0);
    assert b[0].offers == [Offer("o", 2, "c")];
  }
}
