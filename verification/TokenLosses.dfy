/**
  When the server rejects a refresh: what loses the token of a device, exactly, and what that
  costs. A rejection is the one answer that signs a device out.
  */
module TokenLosses {
  import opened Prelude
  import opened TokenProtocol

  // --- When a refresh is rejected -----------------------------------------------------

  predicate IsActive(server: Server, t: Token) {
    t in server.sessions && server.sessions[t].Active?
  }

  /** A rotated token has arrived and is not stored yet. */
  predicate HasReply(s: State) {
    exists id :: id in s.refreshes && s.refreshes[id].Answered? && s.refreshes[id].reply.Tokens?
  }

  /** The token this device goes on with: the one a refresh carries, and the stored one unless
    a reply is about to replace it. */
  predicate IsAtStake(s: State, t: Token) {
    || (exists id :: id in s.refreshes && Carried(s.refreshes[id]) == Some(t))
    || (IsComplete(s.local) && s.local.token == Some(t) && !HasReply(s))
  }

  predicate LocalIsGood(server: Server, l: Local) {
    IsComplete(l) ==> IsActive(server, l.token.value)
  }

  /** What loses this device's token: the server revokes or expires it, or trades it for one
    that is not stored, with a sign-out or with a request nobody waits for any more; or a
    rotated one does not arrive, is not stored or dies with its worker while the stored one
    is used up. */
  predicate IsLoss(s: State, a: Action) {
    match a
    case SessionRevoked(t) => IsActive(s.server, t) && IsAtStake(s, t)
    case LogoutRefreshes(id) => id in s.logouts && IsActive(s.server, s.logouts[id]) && IsAtStake(s, s.logouts[id])
    case OrphanArrives(id) => id in s.orphans && IsActive(s.server, s.orphans[id]) && IsAtStake(s, s.orphans[id])
    case Refreshing(id, m) => (m.SaveFails? || m.ReplyLost?) && HasReply(s) && !LocalIsGood(s.server, s.local)
    case WorkerDies(_) => HasReply(s) && !LocalIsGood(s.server, s.local)
    case _ => false
  }

  /** What a refresh is about to use or to store is good. */
  predicate IsGood(server: Server, l: Local, r: Refresh) {
    match r
    case Loading(Some(t)) => IsActive(server, t) && LocalIsGood(server, l)
    case Requesting(t) => IsActive(server, t) && LocalIsGood(server, l)
    case Answered(Tokens(t)) => IsActive(server, t)
    case Answered(Unauthorized) => false
    case _ => LocalIsGood(server, l)
  }

  /** The client's tokens are good for the server. */
  ghost predicate AreGood(server: Server, c: State) {
    && (c.refreshes == map[] ==> LocalIsGood(server, c.local))
    && forall id :: id in c.refreshes ==> IsGood(server, c.local, c.refreshes[id])
  }

  /** Nothing was lost so far. */
  ghost predicate NothingLost(s: State) {
    s.server.Valid() && SingleFlight(s) && AreGood(s.server, s)
  }

  lemma RequestLosesNothing(s: State, id: Id)
    requires NothingLost(s) && id in s.refreshes && s.refreshes[id].Requesting?
    ensures AreGood(StepServer(s, Refreshing(id, ServerRefreshes)), StepRefresh(s, id, ServerRefreshes))
  {
    OnlyRefresh(s, id);
    hide SingleFlight;
    assert IsGood(s.server, s.local, s.refreshes[id]);
  }

  /** The moves on a reply. */
  lemma ReplyLosesNothingExactly(s: State, id: Id, m: Move)
    requires NothingLost(s) && id in s.refreshes && CanMove(s.refreshes[id], m) && s.refreshes[id].Answered?
    ensures AreGood(s.server, StepRefresh(s, id, m)) <==> !IsLoss(s, Refreshing(id, m))
  {
    OnlyRefresh(s, id);
    assert IsGood(s.server, s.local, s.refreshes[id]);
    hide SingleFlight, Server.Valid, ServerRefresh, IsAtStake, IsActive;
  }

  lemma OtherMoveLosesNothing(s: State, id: Id, m: Move)
    requires NothingLost(s) && id in s.refreshes && CanMove(s.refreshes[id], m)
    requires !m.ServerRefreshes? && !s.refreshes[id].Answered?
    ensures AreGood(s.server, StepRefresh(s, id, m))
  {
    OnlyRefresh(s, id);
    assert IsGood(s.server, s.local, s.refreshes[id]);
    hide SingleFlight, Server.Valid, ServerRefresh, IsAtStake, HasReply;
  }

  lemma MoveLosesNothingExactly(s: State, id: Id, m: Move)
    requires NothingLost(s) && id in s.refreshes && CanMove(s.refreshes[id], m)
    ensures
      AreGood(StepServer(s, Refreshing(id, m)), StepRefresh(s, id, m)) <==> !IsLoss(s, Refreshing(id, m))
  {
    hide SingleFlight, Server.Valid, AreGood, StepRefresh, HasReply, IsAtStake;
    if m.ServerRefreshes? {
      RequestLosesNothing(s, id);
    } else if s.refreshes[id].Answered? {
      ReplyLosesNothingExactly(s, id, m);
    } else {
      OtherMoveLosesNothing(s, id, m);
    }
  }

  lemma LoginLosesNothing(s: State, user: User)
    requires NothingLost(s)
    ensures AreGood(s.server.Issue(user), StepClient(s, Login(user)))
  {
    hide SingleFlight, Server.Valid, Outstanding;
  }

  /** A server that holds all active that was active. */
  lemma StaysGood(s: State, server: Server)
    requires NothingLost(s) && forall k :: IsActive(s.server, k) ==> IsActive(server, k)
    ensures AreGood(server, s)
  {
    forall id | id in s.refreshes ensures IsGood(server, s.local, s.refreshes[id]) {
      assert IsGood(s.server, s.local, s.refreshes[id]);
    }
    hide SingleFlight, Server.Valid, IsActive;
  }

  lemma ServerLosesNothingExactly(s: State, a: Action)
    requires NothingLost(s) && Enabled(s, a)
    requires a.LogoutRefreshes? || a.OrphanArrives? || a.GraceEnds? || a.SessionRevoked?
    ensures AreGood(StepServer(s, a), s) <==> !IsLoss(s, a)
  {
    var t := if a.LogoutRefreshes? then s.logouts[a.id] else if a.OrphanArrives? then s.orphans[a.id] else a.token;
    hide SingleFlight, AreGood, IsAtStake, ServerRefresh, Server.Valid;
    if IsActive(s.server, t) {
    } else {
      StaysGood(s, StepServer(s, a));
    }
  }

  lemma DeathLosesNothingExactly(s: State, idle: bool)
    requires NothingLost(s)
    ensures AreGood(s.server, StepClient(s, WorkerDies(idle))) <==> !IsLoss(s, WorkerDies(idle))
  {
    if s.refreshes != map[] {
      var id :| id in s.refreshes;
      assert IsGood(s.server, s.local, s.refreshes[id]);
    }
    hide SingleFlight, Server.Valid, Outstanding, IsActive, IsAtStake;
  }

  lemma OthersLoseNothing(s: State, a: Action)
    requires NothingLost(s) && Enabled(s, a) && !a.Refreshing? && !a.WorkerDies? && !a.Login?
    requires !a.LogoutRefreshes? && !a.OrphanArrives? && !a.GraceEnds? && !a.SessionRevoked?
    ensures StepServer(s, a) == s.server && AreGood(s.server, StepClient(s, a)) && !IsLoss(s, a)
  {
    hide Server.Valid, Outstanding, ServerRefresh, IsAtStake, HasReply;
    if s.refreshes != map[] {
      var id :| id in s.refreshes;
      OnlyRefresh(s, id);
      assert IsGood(s.server, s.local, s.refreshes[id]);
    }
    hide SingleFlight;
  }

  lemma ClientLosesNothingExactly(s: State, a: Action)
    requires NothingLost(s) && Enabled(s, a) && !a.Refreshing?
    ensures AreGood(StepServer(s, a), StepClient(s, a)) <==> !IsLoss(s, a)
  {
    hide SingleFlight, Server.Valid, IsGood, LocalIsGood, Outstanding, ServerRefresh, IsAtStake, HasReply;
    if a.Login? {
      LoginLosesNothing(s, a.user);
    } else if a.LogoutRefreshes? || a.OrphanArrives? || a.GraceEnds? || a.SessionRevoked? {
      ServerLosesNothingExactly(s, a);
      assert StepClient(s, a).refreshes == s.refreshes && StepClient(s, a).local == s.local;
    } else if a.WorkerDies? {
      DeathLosesNothingExactly(s, a.idle);
    } else {
      OthersLoseNothing(s, a);
    }
  }

  /** A step keeps everything exactly if it is no loss. */
  lemma StepLosesNothingExactly(s: State, a: Action, t: State)
    requires Next(s, a, t) && NothingLost(s)
    ensures NothingLost(t) <==> !IsLoss(s, a)
  {
    StepKeepsSingleFlight(s, a, t);
    StepParts(s, a, t);
    if a.Refreshing? {
      MoveLosesNothingExactly(s, a.id, a.move);
    } else {
      ClientLosesNothingExactly(s, a);
    }
    ServerStaysValid(s, a);
    hide SingleFlight, Server.Valid, StepRefresh, StepServer, StepClient, Next, Enabled, IsGood, LocalIsGood, IsLoss;
  }

  /** No refresh is ever rejected in a run without a loss, for every interleaving of
    unlocks, alarms, calls, logins, locks and sign-outs. */
  lemma {:induction false} RejectedOnlyAfterALoss(states: seq<State>, actions: seq<Action>)
    requires IsRun(states, actions) && NothingLost(states[0])
    requires forall k :: 0 <= k < |actions| ==> !IsLoss(states[k], actions[k])
    ensures forall s :: s in states ==> NothingLost(s)
    ensures forall s, id :: s in states && id in s.refreshes ==> s.refreshes[id] != Answered(Unauthorized)
  {
    hide IsLoss;
    if actions != [] {
      var n := |actions| - 1;
      RunPrefix(states, actions, n);
      RejectedOnlyAfterALoss(states[..n + 1], actions[..n]);
      assert states[..n + 1][n] == states[n];
      StepLosesNothingExactly(states[n], actions[n], states[n + 1]);
      assert states == states[..n + 1] + [states[n + 1]];
    }
  }

  // --- Concrete runs ------------------------------------------------------------------

  /** The losses are real. A reply that does not arrive costs the login once the grace
    of the old token is over: the next refresh is rejected and signs the device out. */
  lemma LostReplyCostsTheLogin(s: State, id: Id, next: Id) returns (states: seq<State>, actions: seq<Action>)
    requires s.server.Valid() && IsComplete(s.local) && IsActive(s.server, s.local.token.value)
    requires s.refreshes == map[id := Requesting(s.local.token.value)] && s.inflight && next !in s.orphans
    ensures IsRun(states, actions) && states[0] == s
    ensures Last(states).local == Local(None, None) && !Last(states).unlocked
    ensures actions == [Refreshing(id, ServerRefreshes), Refreshing(id, ReplyLost), Refreshing(id, ReplyArrives),
      GraceEnds(s.local.token.value), CallRefresh(next), Refreshing(next, Loaded), Refreshing(next, ServerRefreshes),
      Refreshing(next, ReplyArrives), Refreshing(next, EndRefresh), Refreshing(next, EndRefresh)]
  {
    states, actions := LoseReply(s, id);
    hide *;
    states, actions := RejectedRefreshSignsOut(states, actions, next);
  }

  lemma LoseReply(s: State, id: Id) returns (states: seq<State>, actions: seq<Action>)
    requires s.server.Valid() && IsComplete(s.local) && IsActive(s.server, s.local.token.value)
    requires s.refreshes == map[id := Requesting(s.local.token.value)] && s.inflight
    ensures IsRun(states, actions) && states[0] == s
    ensures Last(states).server.Valid() && Last(states).refreshes == map[] && !Last(states).inflight
    ensures Last(states).orphans == s.orphans
    ensures IsComplete(Last(states).local) && Last(states).local.token.value !in Last(states).server.sessions
    ensures actions == [Refreshing(id, ServerRefreshes), Refreshing(id, ReplyLost), Refreshing(id, ReplyArrives),
      GraceEnds(s.local.token.value)]
  {
    hide IsRun, Outstanding;
    var token := s.local.token.value;
    var server := ServerRefresh(s.server, token).0;
    assert server.Valid() && token in server.sessions && server.sessions[token].Retired?;
    states, actions := DropReply(s, id);
    hide ServerRefresh, Server.Valid;
    states, actions := Act(states, actions, GraceEnds(token));
    ServerStaysValid(s.(server := server), GraceEnds(token));
  }

  lemma DropReply(s: State, id: Id) returns (states: seq<State>, actions: seq<Action>)
    requires s.server.Valid() && id in s.refreshes && s.refreshes == map[id := s.refreshes[id]]
    requires s.refreshes[id].Requesting? && s.refreshes[id].token in s.server.sessions
    ensures IsRun(states, actions) && states[0] == s
    ensures actions == [Refreshing(id, ServerRefreshes), Refreshing(id, ReplyLost), Refreshing(id, ReplyArrives)]
    ensures Last(states) == s.(server := ServerRefresh(s.server, s.refreshes[id].token).0, inflight := false,
                               refreshes := map[], unlocking := 0)
  {
    hide IsRun, Outstanding;
    states, actions := [s], [];
    assert IsRun(states, actions) by { RunOfOne(s); }
    states, actions := Act(states, actions, Refreshing(id, ServerRefreshes));
    states, actions := Act(states, actions, Refreshing(id, ReplyLost));
    states, actions := Act(states, actions, Refreshing(id, ReplyArrives));
  }

  /** A refresh with a token the server does not know ends the login. */
  lemma RejectedRefreshSignsOut(before: seq<State>, played: seq<Action>, id: Id)
    returns (states: seq<State>, actions: seq<Action>)
    requires IsRun(before, played)
    requires Last(before).server.Valid() && Last(before).refreshes == map[] && !Last(before).inflight
    requires id !in Last(before).orphans
    requires IsComplete(Last(before).local) && Last(before).local.token.value !in Last(before).server.sessions
    ensures IsRun(states, actions) && states[0] == before[0]
    ensures Last(states).local == Local(None, None) && !Last(states).unlocked
    ensures actions == played + [CallRefresh(id), Refreshing(id, Loaded), Refreshing(id, ServerRefreshes),
      Refreshing(id, ReplyArrives), Refreshing(id, EndRefresh), Refreshing(id, EndRefresh)]
  {
    hide IsRun, Outstanding;
    states, actions := SendRequest(before, played, id);
    states, actions := Act(states, actions, Refreshing(id, ServerRefreshes));
    states, actions := Act(states, actions, Refreshing(id, ReplyArrives));
    states, actions := Act(states, actions, Refreshing(id, EndRefresh));
    states, actions := Act(states, actions, Refreshing(id, EndRefresh));
  }

  // --- When a rejection can come ---------------------------------------------------------------

  ghost predicate IsLossFree(s: State, states: seq<State>, actions: seq<Action>) {
    && IsRun(states, actions) && states[0] == s
    && forall k :: 0 <= k < |actions| ==> !IsLoss(states[k], actions[k])
  }

  ghost predicate IsRejected(s: State) {
    exists id :: id in s.refreshes && s.refreshes[id] == Answered(Unauthorized)
  }

  ghost predicate IsRejecting(states: seq<State>) {
    exists s :: s in states && IsRejected(s)
  }

  /** Extend a run by an action that is no loss. */
  lemma Go(s: State, before: seq<State>, played: seq<Action>, a: Action)
    returns (states: seq<State>, actions: seq<Action>)
    requires IsLossFree(s, before, played) && before != [] && Last(before).server.Valid()
    requires Enabled(Last(before), a) && !IsLoss(Last(before), a)
    ensures IsLossFree(s, states, actions) && states != [] && Last(states) == Step(Last(before), a)
    ensures Last(states).server.Valid()
  {
    ServerStaysValid(Last(before), a);
    states, actions := before + [Step(Last(before), a)], played + [a];
    hide IsLoss, Enabled, StepRefresh, StepClient, StepServer, Server.Valid;
  }

  lemma RejectedAtLast(states: seq<State>, id: Id)
    requires states != [] && id in Last(states).refreshes && Last(states).refreshes[id] == Answered(Unauthorized)
    ensures IsRejecting(states)
  {
    assert Last(states) in states && IsRejected(Last(states));
  }

  /** A request with a token that is not active is rejected, if need be after its grace. */
  lemma RequestCanBeRejected(s: State, before: seq<State>, played: seq<Action>, id: Id)
    returns (states: seq<State>, actions: seq<Action>)
    requires IsLossFree(s, before, played) && before != [] && Last(before).server.Valid()
    requires id in Last(before).refreshes && Last(before).refreshes[id].Requesting?
    requires !IsActive(Last(before).server, Last(before).refreshes[id].token)
    ensures IsLossFree(s, states, actions) && IsRejecting(states)
  {
    hide IsLossFree, Outstanding, Server.Valid;
    states, actions := before, played;
    var t := Last(before).refreshes[id].token;
    if t in Last(before).server.sessions {
      states, actions := Go(s, states, actions, GraceEnds(t));
    }
    states, actions := Go(s, states, actions, Refreshing(id, ServerRefreshes));
    RejectedAtLast(states, id);
  }

  /** So is the next refresh of an idle client that holds such a token. */
  lemma IdleCanBeRejected(s: State, before: seq<State>, played: seq<Action>)
    returns (states: seq<State>, actions: seq<Action>)
    requires IsLossFree(s, before, played) && before != [] && Last(before).server.Valid()
    requires Last(before).refreshes == map[] && !Last(before).inflight
    requires !LocalIsGood(Last(before).server, Last(before).local)
    ensures IsLossFree(s, states, actions) && IsRejecting(states)
  {
    hide IsLossFree, Outstanding, Server.Valid;
    var id := FreeId(Last(before).orphans.Keys);
    states, actions := Go(s, before, played, CallRefresh(id));
    states, actions := Go(s, states, actions, Refreshing(id, Loaded));
    states, actions := RequestCanBeRejected(s, states, actions, id);
  }

  /** A client that waits for no rotated token becomes idle when its worker dies. */
  lemma BadTokenCanBeRejected(s: State, before: seq<State>, played: seq<Action>)
    returns (states: seq<State>, actions: seq<Action>)
    requires IsLossFree(s, before, played) && before != [] && Last(before).server.Valid() && !HasReply(Last(before))
    requires !LocalIsGood(Last(before).server, Last(before).local)
    ensures IsLossFree(s, states, actions) && IsRejecting(states)
  {
    hide IsLossFree, Outstanding, Server.Valid, HasReply, LocalIsGood;
    states, actions := Go(s, before, played, WorkerDies(false));
    states, actions := IdleCanBeRejected(s, states, actions);
  }

  /** A rotated token that is used up before it is stored. */
  lemma UsedReplyCanBeRejected(s: State, id: Id, t: Token) returns (states: seq<State>, actions: seq<Action>)
    requires IsSane(s) && id in s.refreshes && s.refreshes[id] == Answered(Tokens(t)) && !IsActive(s.server, t)
    ensures IsLossFree(s, states, actions) && IsRejecting(states)
  {
    OnlyRefresh(s, id);
    assert IsKnown(s.server, Carried(s.refreshes[id])) && t < s.server.next;
    hide IsSane, Outstanding, Server.Valid, IsAtStake, SingleFlight;
    states, actions := [s], [];
    assert IsLossFree(s, states, actions);
    hide IsLossFree;
    if s.local.material.None? {
      states, actions := Go(s, states, actions, Login(""));
    }
    states, actions := UsedReplyIsStored(s, states, actions, id, t);
  }

  lemma UsedReplyIsStored(s: State, before: seq<State>, played: seq<Action>, id: Id, t: Token)
    returns (states: seq<State>, actions: seq<Action>)
    requires IsLossFree(s, before, played) && before != [] && Last(before).server.Valid()
    requires Last(before).refreshes == map[id := Answered(Tokens(t))] && Last(before).local.material.Some?
    requires !IsActive(Last(before).server, t)
    ensures IsLossFree(s, states, actions) && IsRejecting(states)
  {
    hide IsLossFree, Outstanding, Server.Valid, IsAtStake, SingleFlight;
    states, actions := Go(s, before, played, Refreshing(id, ReplyArrives));
    states, actions := BadTokenCanBeRejected(s, states, actions);
  }

  lemma RejectionIsReachable(s: State) returns (states: seq<State>, actions: seq<Action>)
    requires IsSane(s) && !NothingLost(s)
    ensures IsLossFree(s, states, actions) && IsRejecting(states)
  {
    states, actions := [s], [];
    assert IsLossFree(s, states, actions);
    hide IsLossFree, IsRejecting, Outstanding, Server.Valid, IsAtStake;
    if s.refreshes == map[] {
      states, actions := IdleCanBeRejected(s, states, actions);
    } else {
      var id :| id in s.refreshes && !IsGood(s.server, s.local, s.refreshes[id]);
      OnlyRefresh(s, id);
      match s.refreshes[id]
      case Answered(Tokens(t)) => states, actions := UsedReplyCanBeRejected(s, id, t);
      case Answered(Unauthorized) => RejectedAtLast(states, id);
      case r =>
        if !LocalIsGood(s.server, s.local) {
          states, actions := BadTokenCanBeRejected(s, states, actions);
        } else {
          if r.Loading? {
            states, actions := Go(s, states, actions, Refreshing(id, Loaded));
          }
          states, actions := RequestCanBeRejected(s, states, actions, id);
        }
    }
  }

  /** NothingLost is exactly what it takes: no continuation of a sane state without a loss meets
    a rejection exactly if nothing was lost so far. */
  lemma NoRejectionExactly(s: State)
    requires IsSane(s)
    ensures NothingLost(s) <==>
      forall states, actions :: IsLossFree(s, states, actions) ==> !IsRejecting(states)
  {
    if NothingLost(s) {
      forall states, actions | IsLossFree(s, states, actions) ensures !IsRejecting(states) {
        RejectedOnlyAfterALoss(states, actions);
      }
    } else {
      var states, actions := RejectionIsReachable(s);
    }
  }

  /** Every loss is real: after it a rejection can come without another one. */
  lemma LossesAreReal(s: State, a: Action, t: State)
    requires Next(s, a, t) && IsSane(s) && NothingLost(s)
    ensures IsLoss(s, a) <==> exists states, actions :: IsLossFree(t, states, actions) && IsRejecting(states)
  {
    StepStaysSane(s, a, t);
    StepLosesNothingExactly(s, a, t);
    NoRejectionExactly(t);
    hide IsSane, NothingLost, IsLoss, IsLossFree, IsRejecting;
  }

  /** For an idle client with a complete login: exactly if its stored token is active. */
  lemma IdleClientExactly(s: State)
    requires IsSane(s) && s.refreshes == map[] && IsComplete(s.local)
    ensures IsActive(s.server, s.local.token.value) <==>
      forall states, actions :: IsLossFree(s, states, actions) ==> !IsRejecting(states)
  {
    NoRejectionExactly(s);
    hide IsLossFree, IsRejecting, IsActive;
  }

  // --- Staying logged in ----------------------------------------------------------------

  /** Nobody locks or signs out, and the session outlives its workers. Requests may fail in
    every way, replies may be lost or not stored, and workers may die and come back. */
  predicate IsQuiet(a: Action) {
    !a.CallEnd? && a != WorkerDies(true)
  }

  /** The server's rejection arrives. */
  predicate IsRejection(s: State, a: Action) {
    a.Refreshing? && a.move.ReplyArrives? && a.id in s.refreshes && s.refreshes[a.id] == Answered(Unauthorized)
  }

  ghost predicate LoggedInAndOpen(s: State) {
    && IsComplete(s.local) && s.unlocked && s.stored && s.enders == map[]
    && forall id :: id in s.refreshes ==> !s.refreshes[id].Ending? && s.refreshes[id] != Loading(None)
  }

  lemma PutSettleOpen(s: State, id: Id, r: Refresh, ok: bool)
    requires LoggedInAndOpen(s)
    ensures LoggedInAndOpen(Put(s, id, r)) <==> !r.Ending? && r != Loading(None)
    ensures LoggedInAndOpen(Settle(s, id, ok))
  {
    assert Put(s, id, r).refreshes[id] == r;
  }

  lemma MoveStaysOpenExactly(s: State, id: Id, m: Move)
    requires s.server.Valid() && id in s.refreshes && CanMove(s.refreshes[id], m) && LoggedInAndOpen(s)
    ensures LoggedInAndOpen(StepRefresh(s, id, m)) <==> !IsRejection(s, Refreshing(id, m))
  {
    hide Put, Settle, Server.Valid, ServerRefresh;
    forall r ensures LoggedInAndOpen(Put(s, id, r)) <==> !r.Ending? && r != Loading(None) {
      PutSettleOpen(s, id, r, true);
    }
    forall ok ensures LoggedInAndOpen(Settle(s, id, ok)) {
      PutSettleOpen(s, id, Saved, ok);
    }
  }

  lemma StepStaysOpenExactly(s: State, a: Action, t: State)
    requires Next(s, a, t) && LoggedInAndOpen(s) && IsQuiet(a)
    ensures LoggedInAndOpen(t) <==> !IsRejection(s, a)
  {
    StepParts(s, a, t);
    hide StepRefresh, StepClient, StepServer, Server.Valid, Next, Enabled, CanMove;
    if a.Refreshing? {
      MoveStaysOpenExactly(s, a.id, a.move);
    }
  }

  /** Only a rejection locks or signs out by itself: an open vault stays open and logged in, in
    every state of a run in which nobody locks or signs out, exactly if no rejection arrives.
    Whatever else fails, lost replies, failed saves and deaths included, changes neither. */
  lemma {:induction false} OnlyRejectionsLock(states: seq<State>, actions: seq<Action>)
    requires IsRun(states, actions) && LoggedInAndOpen(states[0])
    requires forall k :: 0 <= k < |actions| ==> IsQuiet(actions[k])
    ensures
      (forall k :: 0 <= k <= |actions| ==> LoggedInAndOpen(states[k])) <==>
      (forall k :: 0 <= k < |actions| ==> !IsRejection(states[k], actions[k]))
  {
    hide LoggedInAndOpen, IsRejection, IsQuiet;
    if actions != [] {
      var n := |actions| - 1;
      RunPrefix(states, actions, n);
      OnlyRejectionsLock(states[..n + 1], actions[..n]);
      assert forall k :: 0 <= k <= n ==> states[..n + 1][k] == states[k];
      assert forall k :: 0 <= k < n ==> actions[..n][k] == actions[k];
      assert Next(states[n], actions[n], states[n + 1]);
      if LoggedInAndOpen(states[n]) {
        StepStaysOpenExactly(states[n], actions[n], states[n + 1]);
      }
    }
  }

  /** So failures other than a rejection never lock, and without a loss there is none. */
  lemma FailuresNeverLock(states: seq<State>, actions: seq<Action>)
    requires IsRun(states, actions) && LoggedInAndOpen(states[0])
    requires forall k :: 0 <= k < |actions| ==> IsQuiet(actions[k])
    requires
      || (forall s, id :: s in states && id in s.refreshes ==> s.refreshes[id] != Answered(Unauthorized))
      || (NothingLost(states[0]) && forall k :: 0 <= k < |actions| ==> !IsLoss(states[k], actions[k]))
    ensures forall s :: s in states ==> LoggedInAndOpen(s)
  {
    hide LoggedInAndOpen, IsLoss;
    if NothingLost(states[0]) && forall k :: 0 <= k < |actions| ==> !IsLoss(states[k], actions[k]) {
      RejectedOnlyAfterALoss(states, actions);
    }
    hide NothingLost;
    forall k | 0 <= k < |actions| ensures !IsRejection(states[k], actions[k]) {
      assert states[k] in states;
    }
    OnlyRejectionsLock(states, actions);
  }

  // --- Staying signed in through locks ---------------------------------------------------------

  /** There is a login, and nothing is under way that ends it. Locks may be. */
  ghost predicate IsLoggedIn(s: State) {
    && IsComplete(s.local)
    && (forall id :: id in s.enders ==> !s.enders[id].signOut)
    && forall id :: id in s.refreshes ==> !s.refreshes[id].Ending? && s.refreshes[id] != Loading(None)
  }

  /** The device is signed out, by a call or by the server. */
  predicate EndsLogin(s: State, a: Action) {
    (a.CallEnd? && a.signOut) || IsRejection(s, a)
  }

  lemma PutSettleLoggedIn(s: State, id: Id, r: Refresh, ok: bool)
    requires IsLoggedIn(s)
    ensures IsLoggedIn(Put(s, id, r)) <==> !r.Ending? && r != Loading(None)
    ensures IsLoggedIn(Settle(s, id, ok))
  {
    assert Put(s, id, r).refreshes[id] == r;
  }

  lemma MoveStaysLoggedInExactly(s: State, id: Id, m: Move)
    requires s.server.Valid() && id in s.refreshes && CanMove(s.refreshes[id], m) && IsLoggedIn(s)
    ensures IsLoggedIn(StepRefresh(s, id, m)) <==> !IsRejection(s, Refreshing(id, m))
  {
    hide Put, Settle, Server.Valid, ServerRefresh;
    forall r ensures IsLoggedIn(Put(s, id, r)) <==> !r.Ending? && r != Loading(None) {
      PutSettleLoggedIn(s, id, r, true);
    }
    forall ok ensures IsLoggedIn(Settle(s, id, ok)) {
      PutSettleLoggedIn(s, id, Saved, ok);
    }
  }

  lemma ClientStaysLoggedInExactly(s: State, a: Action)
    requires Enabled(s, a) && !a.Refreshing? && IsLoggedIn(s)
    ensures IsLoggedIn(StepClient(s, a)) <==> !(a.CallEnd? && a.signOut)
  {
    if a.CallEnd? {
      assert a.id in StepClient(s, a).enders;
    }
    hide Outstanding, CanMove;
  }

  lemma StepStaysLoggedInExactly(s: State, a: Action, t: State)
    requires Next(s, a, t) && IsLoggedIn(s)
    ensures IsLoggedIn(t) <==> !EndsLogin(s, a)
  {
    StepParts(s, a, t);
    hide StepRefresh, StepClient, StepServer, Server.Valid, Next, Enabled, CanMove;
    if a.Refreshing? {
      MoveStaysLoggedInExactly(s, a.id, a.move);
    } else {
      ClientStaysLoggedInExactly(s, a);
    }
  }

  /** A login lasts, in every state of every run, exactly as long as nobody signs out and no
    rejection arrives: locks, idle deaths and failures of every kind leave it. */
  lemma {:induction false} LoginLastsExactly(states: seq<State>, actions: seq<Action>)
    requires IsRun(states, actions) && IsLoggedIn(states[0])
    ensures
      (forall k :: 0 <= k <= |actions| ==> IsLoggedIn(states[k])) <==>
      (forall k :: 0 <= k < |actions| ==> !EndsLogin(states[k], actions[k]))
  {
    hide IsLoggedIn, EndsLogin;
    if actions != [] {
      var n := |actions| - 1;
      RunPrefix(states, actions, n);
      LoginLastsExactly(states[..n + 1], actions[..n]);
      assert forall k :: 0 <= k <= n ==> states[..n + 1][k] == states[k];
      assert forall k :: 0 <= k < n ==> actions[..n][k] == actions[k];
      assert Next(states[n], actions[n], states[n + 1]);
      if IsLoggedIn(states[n]) {
        StepStaysLoggedInExactly(states[n], actions[n], states[n + 1]);
      }
    }
  }

  /** A whole lock closes the session and touches nothing else. */
  lemma LockKeepsTheLogin(s: State, id: Id) returns (states: seq<State>, actions: seq<Action>)
    requires s.server.Valid() && id !in s.enders
    ensures IsRun(states, actions) && states[0] == s
    ensures actions == [CallEnd(id, false), EndStep(id), EndStep(id)]
    ensures Last(states) == s.(unlocked := false, stored := false)
  {
    hide IsRun;
    states, actions := [s], [];
    assert IsRun(states, actions) by { RunOfOne(s); }
    states, actions := Act(states, actions, CallEnd(id, false));
    states, actions := Act(states, actions, EndStep(id));
    states, actions := Act(states, actions, EndStep(id));
    assert Last(states).enders == s.enders;
  }

  // --- What changes login and session ------------------------------------------------------------

  /** The last step of a sign-out, called for or after a rejection. */
  predicate ClearsLogin(s: State, a: Action) {
    || (a.EndStep? && a.id in s.enders && s.enders[a.id] == Ender(SessionCleared, true))
    || (a.Refreshing? && a.move.EndRefresh? && a.id in s.refreshes && s.refreshes[a.id] == Ending(SessionCleared))
  }

  /** The first step of a lock or a sign-out. */
  predicate ClosesSession(s: State, a: Action) {
    || (a.EndStep? && a.id in s.enders && s.enders[a.id].phase.Recording?)
    || (a.Refreshing? && a.move.EndRefresh? && a.id in s.refreshes && s.refreshes[a.id] == Ending(Recording))
  }

  predicate StoresToken(s: State, a: Action) {
    && a.Refreshing? && a.move.ReplyArrives? && a.id in s.refreshes
    && s.refreshes[a.id].Answered? && s.refreshes[a.id].reply.Tokens?
  }

  function LocalAfter(s: State, a: Action): Local {
    if a.Login? then Local(Some(s.server.next), Some(a.user))
    else if StoresToken(s, a) then Local(Some(s.refreshes[a.id].reply.token), s.local.material)
    else if ClearsLogin(s, a) then Local(None, None)
    else s.local
  }

  function UnlockedAfter(s: State, a: Action): bool {
    if a.UnlockCompletes? then true else if ClosesSession(s, a) then false
    else if a.WorkerDies? then s.stored && !a.idle else s.unlocked
  }

  function StoredAfter(s: State, a: Action): bool {
    if a.UnlockCompletes? then true else if ClosesSession(s, a) then false
    else if a.WorkerDies? then s.stored && !a.idle
    else s.stored || (a.Refreshing? && a.move.UpdateSession? && s.unlocked)
  }

  predicate HasChanged(s: State, a: Action, t: State) {
    t.local == LocalAfter(s, a) && t.unlocked == UnlockedAfter(s, a) && t.stored == StoredAfter(s, a)
  }

  lemma MoveChanges(s: State, id: Id, m: Move)
    requires s.server.Valid() && id in s.refreshes && CanMove(s.refreshes[id], m) && !m.EndRefresh?
    ensures HasChanged(s, Refreshing(id, m), StepRefresh(s, id, m))
  {
    hide Server.Valid, ServerRefresh;
  }

  lemma EndChanges(s: State, id: Id)
    requires s.server.Valid() && id in s.refreshes && s.refreshes[id].Ending?
    ensures HasChanged(s, Refreshing(id, EndRefresh), StepRefresh(s, id, EndRefresh))
  {
    hide Server.Valid, ServerRefresh;
  }

  lemma EnderChanges(s: State, id: Id)
    requires id in s.enders
    ensures HasChanged(s, EndStep(id), StepClient(s, EndStep(id)))
  {
  }

  lemma ClientChanges(s: State, a: Action)
    requires Enabled(s, a) && !a.Refreshing? && !a.EndStep?
    ensures HasChanged(s, a, StepClient(s, a))
  {
    hide Outstanding, CanMove;
  }

  /** Each step, whatever it is, leaves the login as it was unless it is a login, the storing of
    a rotated token or the clearing by a sign-out; and the session unless it closes it, an
    unlock sets it, or the worker dies: the next one restores what is stored, or locks when
    it was idle for too long. */
  lemma StepChangesExactly(s: State, a: Action, t: State)
    requires Next(s, a, t)
    ensures HasChanged(s, a, t)
  {
    StepParts(s, a, t);
    hide StepRefresh, StepClient, StepServer, Server.Valid, Next, Enabled, CanMove, ClearsLogin, ClosesSession;
    if a.EndStep? {
      EnderChanges(s, a.id);
    } else if !a.Refreshing? {
      ClientChanges(s, a);
    } else if a.move.EndRefresh? {
      EndChanges(s, a.id);
    } else {
      MoveChanges(s, a.id, a.move);
    }
  }
}
