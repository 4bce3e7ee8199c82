/**
  What a sign-out ends: with no unlock in flight it is final, and otherwise it is known exactly
  when something opens the vault again.
  */
module SignOut {
  import opened Prelude
  import opened TokenProtocol

  // --- Signing out is final -------------------------------------------------------------

  predicate NoUnlockInFlight(s: State) {
    s.deriving == 0 && s.unlocking == 0 && s.granted == 0
  }

  predicate SignedOut(s: State) {
    s.local.material.None? && !s.unlocked && !s.stored && NoUnlockInFlight(s)
  }

  /** How far the sign-out id has come, and what that means for the session. */
  predicate SignOutProgress(s: State, id: Id) {
    && NoUnlockInFlight(s) && id in s.enders && s.enders[id].signOut
    && match s.enders[id].phase
       case Recording => true
       case SessionCleared => !s.unlocked && !s.stored
       case AccountCleared => SignedOut(s)
  }

  /** No login state, session or unlock comes up, and no sign-out is undone. */
  predicate KeepsSignOut(s: State, t: State) {
    && NoUnlockInFlight(t) && t.enders == s.enders
    && (t.local.material.Some? ==> s.local.material.Some?)
    && (t.unlocked ==> s.unlocked) && (t.stored ==> s.stored || s.unlocked)
  }

  lemma MoveKeepsSignOut(s: State, id: Id, m: Move)
    requires s.server.Valid() && id in s.refreshes && CanMove(s.refreshes[id], m) && NoUnlockInFlight(s)
    ensures KeepsSignOut(s, StepRefresh(s, id, m))
  {
    hide ServerRefresh, Server.Valid, Put, Settle;
    forall r ensures KeepsSignOut(s, Put(s, id, r)) && SameSession(s, Put(s, id, r)) {
      PutSettleSignOut(s, id, r, true);
    }
    forall ok ensures KeepsSignOut(s, Settle(s, id, ok)) {
      PutSettleSignOut(s, id, Saved, ok);
    }
  }

  predicate SameSession(s: State, t: State) {
    t.local == s.local && t.unlocked == s.unlocked && t.stored == s.stored
  }

  lemma PutSettleSignOut(s: State, id: Id, r: Refresh, ok: bool)
    requires NoUnlockInFlight(s)
    ensures KeepsSignOut(s, Put(s, id, r)) && SameSession(s, Put(s, id, r))
    ensures KeepsSignOut(s, Settle(s, id, ok))
  {
  }

  lemma ClientKeepsSignOut(s: State, a: Action, id: Id)
    requires Enabled(s, a) && !a.Refreshing? && SignOutProgress(s, id)
    requires !a.Login? && !a.BeginUnlock? && !a.WorkerDies?
    ensures SignOutProgress(StepClient(s, a), id) || (SignedOut(s) && SignedOut(StepClient(s, a)))
  {
    hide Outstanding;
  }

  lemma SignOutStep(s: State, a: Action, t: State, id: Id)
    requires Next(s, a, t) && SignOutProgress(s, id)
    requires !a.Login? && !a.BeginUnlock? && !a.WorkerDies?
    ensures SignOutProgress(t, id) || (SignedOut(s) && SignedOut(t))
  {
    StepParts(s, a, t);
    hide StepRefresh, StepClient, StepServer, Server.Valid, Next, Enabled, CanMove;
    if a.Refreshing? {
      MoveKeepsSignOut(s, a.id, a.move);
    } else {
      ClientKeepsSignOut(s, a, id);
    }
  }

  lemma ClientStaysSignedOut(s: State, a: Action)
    requires Enabled(s, a) && !a.Refreshing? && SignedOut(s) && !a.Login?
    ensures SignedOut(StepClient(s, a))
  {
    hide Outstanding;
  }

  lemma SignedOutStep(s: State, a: Action, t: State)
    requires Next(s, a, t) && SignedOut(s) && !a.Login?
    ensures SignedOut(t) && !IsComplete(t.local)
  {
    StepParts(s, a, t);
    hide StepRefresh, StepClient, StepServer, Server.Valid, Next, Enabled, CanMove;
    if a.Refreshing? {
      MoveKeepsSignOut(s, a.id, a.move);
    } else {
      ClientStaysSignedOut(s, a);
    }
  }

  /** A refresh under way cannot bring the login back. From the start of a sign-out with no
    unlock in flight, whatever order the remaining steps of any refresh, lock or other
    sign-out land in: once the account is cleared, no login is found and no session is
    unlocked, in memory or in storage, until the next login. */
  lemma {:induction false} SignOutIsFinal(states: seq<State>, actions: seq<Action>, id: Id, m: nat)
    requires IsRun(states, actions) && m <= |actions|
    requires SignOutProgress(states[0], id)
    requires id in states[m].enders && states[m].enders[id].phase.AccountCleared?
    requires forall k :: 0 <= k < |actions| ==> !actions[k].Login?
    requires forall k :: 0 <= k < m ==> !actions[k].BeginUnlock? && !actions[k].WorkerDies?
    ensures forall k :: m <= k <= |actions| ==> SignedOut(states[k]) && !IsComplete(states[k].local)
  {
    if actions != [] {
      var n := |actions| - 1;
      RunPrefix(states, actions, n);
      if m <= n {
        SignOutIsFinal(states[..n + 1], actions[..n], id, m);
        assert states[..n + 1][n] == states[n];
        SignedOutStep(states[n], actions[n], states[n + 1]);
      } else {
        SignOutAdvances(states, actions, id);
      }
    }
  }

  lemma {:induction false} SignOutAdvances(states: seq<State>, actions: seq<Action>, id: Id)
    requires IsRun(states, actions) && SignOutProgress(states[0], id)
    requires forall k :: 0 <= k < |actions| ==>
      !actions[k].Login? && !actions[k].BeginUnlock? && !actions[k].WorkerDies?
    ensures SignOutProgress(Last(states), id) || SignedOut(Last(states))
  {
    if actions != [] {
      var n := |actions| - 1;
      RunPrefix(states, actions, n);
      SignOutAdvances(states[..n + 1], actions[..n], id);
      assert Last(states[..n + 1]) == states[n];
      if SignedOut(states[n]) {
        SignedOutStep(states[n], actions[n], states[n + 1]);
      } else {
        SignOutStep(states[n], actions[n], states[n + 1], id);
      }
    }
  }

  lemma SignOutWhileRequesting(s: State, id: Id) returns (states: seq<State>, actions: seq<Action>)
    requires s.server.Valid() && id !in s.enders
    ensures IsRun(states, actions) && states[0] == s
    ensures actions == [CallEnd(id, true), EndStep(id), EndStep(id), EndStep(id)]
    ensures Last(states) == ClearAccount(ClearSession(s))
  {
    hide IsRun;
    states, actions := [s], [];
    assert IsRun(states, actions) by { RunOfOne(s); }
    states, actions := Act(states, actions, CallEnd(id, true));
    states, actions := Act(states, actions, EndStep(id));
    states, actions := Act(states, actions, EndStep(id));
    states, actions := Act(states, actions, EndStep(id));
    assert Last(states).enders == s.enders;
  }

  lemma ReplyResumesUnlock(before: seq<State>, played: seq<Action>, r: Id)
      returns (states: seq<State>, actions: seq<Action>)
    requires IsRun(before, played) && Last(before).server.Valid() && Last(before).unlocking > 0
    requires r in Last(before).refreshes && Last(before).refreshes[r].Requesting?
    requires Last(before).refreshes[r].token in Last(before).server.sessions && Last(before).local.material.None?
    ensures IsRun(states, actions) && states[0] == before[0]
    ensures actions == played + [Refreshing(r, ServerRefreshes), Refreshing(r, ReplyArrives),
      Refreshing(r, UpdateSession), Refreshing(r, ScheduleAlarm), UnlockCompletes]
    ensures !IsComplete(Last(states).local) && Last(states).unlocked && Last(states).stored
  {
    hide IsRun;
    states, actions := Act(before, played, Refreshing(r, ServerRefreshes));
    states, actions := Act(states, actions, Refreshing(r, ReplyArrives));
    states, actions := Act(states, actions, Refreshing(r, UpdateSession));
    states, actions := Act(states, actions, Refreshing(r, ScheduleAlarm));
    states, actions := Act(states, actions, UnlockCompletes);
  }

  /** The proviso is needed: an unlock that waits for its refresh while the device is signed
    out sets the session when the reply arrives. */
  lemma UnlockInFlightReopens(s: State, id: Id, r: Id) returns (states: seq<State>, actions: seq<Action>)
    requires s.server.Valid() && id !in s.enders && s.unlocking > 0
    requires r in s.refreshes && s.refreshes[r].Requesting? && s.refreshes[r].token in s.server.sessions
    ensures IsRun(states, actions) && states[0] == s
    ensures actions == [CallEnd(id, true), EndStep(id), EndStep(id), EndStep(id),
      Refreshing(r, ServerRefreshes), Refreshing(r, ReplyArrives),
      Refreshing(r, UpdateSession), Refreshing(r, ScheduleAlarm), UnlockCompletes]
    ensures !IsComplete(Last(states).local) && Last(states).unlocked && Last(states).stored
  {
    states, actions := SignOutWhileRequesting(s, id);
    states, actions := ReplyResumesUnlock(states, actions, r);
    hide *;
  }

  // --- When an unlock in flight reopens the vault ------------------------------------------

  /** The refresh can still succeed. */
  predicate IsUsable(server: Server, r: Refresh) {
    match r
    case Loading(found) => found.Some? && found.value in server.sessions
    case Requesting(t) => t in server.sessions
    case Answered(reply) => reply.Tokens?
    case Saved => true
    case Persisted => true
    case Ending(_) => false
  }

  /** Signed out, whatever is still in flight. */
  ghost predicate IsClosed(s: State) {
    IsSane(s) && s.local.material.None? && !s.unlocked && !s.stored
  }

  /** An unlock has its tokens, or is under way and finds a refresh that can still succeed. */
  ghost predicate CanReopen(server: Server, c: State) {
    || c.granted > 0
    || (c.unlocking + c.deriving > 0 && exists id :: id in c.refreshes && IsUsable(server, c.refreshes[id]))
  }

  predicate IsShut(c: State) {
    c.local.material.None? && !c.unlocked && !c.stored
  }

  lemma MoveStaysShut(s: State, id: Id, m: Move)
    requires IsClosed(s) && id in s.refreshes && CanMove(s.refreshes[id], m) && !CanReopen(s.server, s)
    ensures
      var t := StepRefresh(s, id, m);
      IsShut(t) && !CanReopen(StepServer(s, Refreshing(id, m)), t)
  {
    OnlyRefresh(s, id);
    hide SingleFlight, Server.Valid, AreKnown;
  }

  lemma ClientStaysShut(s: State, a: Action)
    requires IsClosed(s) && Enabled(s, a) && !a.Refreshing? && !a.Login? && !CanReopen(s.server, s)
    ensures IsShut(StepClient(s, a)) && !CanReopen(s.server, StepClient(s, a))
  {
    hide Server.Valid, AreKnown, Outstanding, CanMove;
  }

  lemma StepStaysShut(s: State, a: Action, t: State)
    requires Next(s, a, t) && IsClosed(s) && !a.Login? && !CanReopen(s.server, s)
    ensures IsClosed(t) && !CanReopen(t.server, t)
  {
    StepStaysSane(s, a, t);
    StepParts(s, a, t);
    hide StepRefresh, StepClient, StepServer, Next, Enabled, CanMove, IsSane, IsUsable;
    if a.Refreshing? {
      MoveStaysShut(s, a.id, a.move);
    } else {
      ClientStaysShut(s, a);
    }
  }

  ghost predicate IsLoginFree(s: State, states: seq<State>, actions: seq<Action>) {
    IsRun(states, actions) && states[0] == s && forall k :: 0 <= k < |actions| ==> !actions[k].Login?
  }

  ghost predicate IsOpening(states: seq<State>) {
    exists t :: t in states && (t.unlocked || t.stored)
  }

  lemma {:induction false} RunStaysShut(s: State, states: seq<State>, actions: seq<Action>)
    requires IsClosed(s) && !CanReopen(s.server, s) && IsLoginFree(s, states, actions)
    ensures forall t :: t in states ==> IsClosed(t) && !CanReopen(t.server, t)
  {
    hide CanReopen, IsSane;
    if actions != [] {
      var n := |actions| - 1;
      RunPrefix(states, actions, n);
      RunStaysShut(s, states[..n + 1], actions[..n]);
      assert states[..n + 1][n] == states[n];
      StepStaysShut(states[n], actions[n], states[n + 1]);
      assert states == states[..n + 1] + [states[n + 1]];
    }
  }

  /** Extend a run by an action that is no login. */
  lemma GoOn(s: State, before: seq<State>, played: seq<Action>, a: Action)
    returns (states: seq<State>, actions: seq<Action>)
    requires IsLoginFree(s, before, played) && before != [] && Last(before).server.Valid()
    requires Enabled(Last(before), a) && !a.Login?
    ensures IsLoginFree(s, states, actions) && states != [] && Last(states) == Step(Last(before), a)
    ensures Last(states).server.Valid()
  {
    ServerStaysValid(Last(before), a);
    states, actions := before + [Step(Last(before), a)], played + [a];
    hide Enabled, StepRefresh, StepClient, StepServer, Server.Valid;
  }

  /** What brings a usable refresh on, and how far it has to go. */
  function Forward(r: Refresh): Move {
    match r
    case Loading(_) => Loaded
    case Requesting(_) => ServerRefreshes
    case Answered(_) => ReplyArrives
    case Saved => UpdateSession
    case Persisted => ScheduleAlarm
    case Ending(_) => EndRefresh
  }

  function Distance(r: Refresh): nat {
    match r
    case Loading(_) => 4
    case Requesting(_) => 3
    case Answered(_) => 2
    case Saved => 1
    case _ => 0
  }

  /** The refresh id is in the state r, everything an unlock needs is as before. */
  predicate IsAt(s: State, t: State, id: Id, r: Refresh) {
    id in t.refreshes && t.refreshes[id] == r && t.unlocking == s.unlocking
  }

  lemma RequestGoesForward(s: State, id: Id)
    requires s.server.Valid() && id in s.refreshes && s.refreshes[id].Requesting?
    requires s.refreshes[id].token in s.server.sessions
    ensures IsAt(s, Step(s, Refreshing(id, ServerRefreshes)), id, Answered(Tokens(s.server.next)))
  {
  }

  lemma OtherGoesForward(s: State, id: Id)
    requires s.server.Valid() && id in s.refreshes && IsUsable(s.server, s.refreshes[id])
    requires !s.refreshes[id].Persisted? && !s.refreshes[id].Requesting?
    ensures
      var a, r := Refreshing(id, Forward(s.refreshes[id])), s.refreshes[id];
      && Enabled(s, a) && Step(s, a).server == s.server
      && IsAt(s, Step(s, a), id,
              if r.Loading? then Requesting(r.found.value) else if r.Answered? then Saved else Persisted)
  {
    hide Server.Valid, ServerRefresh;
  }

  lemma UsableGoesForward(s: State, id: Id)
    requires s.server.Valid() && id in s.refreshes && IsUsable(s.server, s.refreshes[id]) && !s.refreshes[id].Persisted?
    ensures
      var a := Refreshing(id, Forward(s.refreshes[id]));
      && Enabled(s, a) && id in Step(s, a).refreshes && Step(s, a).unlocking == s.unlocking
      && IsUsable(Step(s, a).server, Step(s, a).refreshes[id])
      && Distance(Step(s, a).refreshes[id]) < Distance(s.refreshes[id])
  {
    hide Server.Valid, Step;
    if s.refreshes[id].Requesting? {
      RequestGoesForward(s, id);
    } else {
      OtherGoesForward(s, id);
    }
  }

  /** An unlock that waits for a usable refresh sets the session in the end. */
  lemma {:induction false} WaitingOpens(s: State, before: seq<State>, played: seq<Action>, id: Id)
    returns (states: seq<State>, actions: seq<Action>)
    requires IsLoginFree(s, before, played) && before != [] && Last(before).server.Valid()
    requires Last(before).unlocking > 0
    requires id in Last(before).refreshes && IsUsable(Last(before).server, Last(before).refreshes[id])
    ensures IsLoginFree(s, states, actions) && IsOpening(states)
    decreases Distance(Last(before).refreshes[id])
  {
    hide IsLoginFree, IsOpening, IsUsable, Server.Valid;
    var r := Last(before).refreshes[id];
    if r.Persisted? {
      states, actions := GoOn(s, before, played, Refreshing(id, ScheduleAlarm));
      states, actions := GrantedOpens(s, states, actions);
    } else {
      UsableGoesForward(Last(before), id);
      states, actions := GoOn(s, before, played, Refreshing(id, Forward(r)));
      states, actions := WaitingOpens(s, states, actions, id);
    }
  }

  lemma GrantedOpens(s: State, before: seq<State>, played: seq<Action>)
    returns (states: seq<State>, actions: seq<Action>)
    requires IsLoginFree(s, before, played) && before != [] && Last(before).server.Valid()
    requires Last(before).granted > 0
    ensures IsLoginFree(s, states, actions) && IsOpening(states)
  {
    hide IsLoginFree;
    states, actions := GoOn(s, before, played, UnlockCompletes);
    assert Last(states) in states;
  }

  lemma ReopeningRun(s: State) returns (states: seq<State>, actions: seq<Action>)
    requires IsClosed(s) && CanReopen(s.server, s)
    ensures IsLoginFree(s, states, actions) && IsOpening(states)
  {
    states, actions := [s], [];
    assert IsLoginFree(s, states, actions);
    hide IsLoginFree, IsOpening, IsUsable, Server.Valid;
    if s.granted > 0 {
      states, actions := GrantedOpens(s, states, actions);
    } else {
      var id :| id in s.refreshes && IsUsable(s.server, s.refreshes[id]);
      if s.unlocking == 0 {
        var caller := FreeId(s.refreshes.Keys + s.orphans.Keys);
        states, actions := GoOn(s, states, actions, CallUnlock(caller));
      }
      states, actions := WaitingOpens(s, states, actions, id);
    }
  }

  /** After a sign-out, something opens the vault again without a login exactly if an unlock has
    its tokens, or one is under way and a refresh that can still succeed. */
  lemma ReopensExactly(s: State)
    requires IsClosed(s)
    ensures CanReopen(s.server, s) <==>
      exists states, actions :: IsLoginFree(s, states, actions) && IsOpening(states)
  {
    if CanReopen(s.server, s) {
      var states, actions := ReopeningRun(s);
    } else {
      forall states, actions | IsLoginFree(s, states, actions) ensures !IsOpening(states) {
        RunStaysShut(s, states, actions);
      }
    }
  }

  /** So before signing out one can tell whether it will last. */
  lemma SignOutLastsExactly(s: State, id: Id)
    requires IsSane(s) && id !in s.enders
    ensures
      var t := ClearAccount(ClearSession(s));
      && (exists states, actions ::
        && IsRun(states, actions) && states[0] == s && Last(states) == t
        && actions == [CallEnd(id, true), EndStep(id), EndStep(id), EndStep(id)])
      && (CanReopen(s.server, s) <==>
        exists states, actions :: IsLoginFree(t, states, actions) && IsOpening(states))
  {
    var states, actions := SignOutWhileRequesting(s, id);
    var t := ClearAccount(ClearSession(s));
    assert IsClosed(t);
    hide IsLoginFree, IsOpening, IsClosed, IsSane;
    ReopensExactly(t);
  }
}
