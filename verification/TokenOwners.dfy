/**
  Whose token is stored: that it belongs to the account whose keys are stored, exactly as long as
  every login is safe.
  */
module TokenOwners {
  import opened Prelude
  import opened TokenProtocol

  // --- The token belongs to the account ---------------------------------------------------

  predicate IsOf(server: Server, l: Local, t: Token) {
    t in server.owner && (l.material.Some? ==> server.owner[t] == l.material.value)
  }

  predicate RefreshIsOf(server: Server, l: Local, r: Refresh) {
    Carried(r).Some? ==> IsOf(server, l, Carried(r).value)
  }

  /** The tokens in use and in storage were issued to the user whose keys are stored. */
  ghost predicate OneAccount(s: State) {
    && s.server.Valid()
    && (s.local.token.Some? ==> IsOf(s.server, s.local, s.local.token.value))
    && forall id :: id in s.refreshes ==> RefreshIsOf(s.server, s.local, s.refreshes[id])
  }

  /** The refreshes and the stored token of the client, seen by a server. */
  ghost predicate TokensAreOf(server: Server, c: State) {
    && (c.local.token.Some? ==> IsOf(server, c.local, c.local.token.value))
    && forall id :: id in c.refreshes ==> RefreshIsOf(server, c.local, c.refreshes[id])
  }

  lemma ReplyKeepsOneAccount(s: State, id: Id)
    requires OneAccount(s) && id in s.refreshes && s.refreshes[id].Answered?
    ensures TokensAreOf(s.server, StepRefresh(s, id, ReplyArrives))
  {
    assert RefreshIsOf(s.server, s.local, s.refreshes[id]);
    hide Server.Valid, ServerRefresh;
  }

  lemma MoveKeepsOneAccount(s: State, id: Id, m: Move)
    requires OneAccount(s) && id in s.refreshes && CanMove(s.refreshes[id], m)
    requires !m.ServerRefreshes? && !m.ReplyArrives? && !m.EndRefresh?
    ensures TokensAreOf(s.server, StepRefresh(s, id, m))
  {
    assert RefreshIsOf(s.server, s.local, s.refreshes[id]);
    hide Server.Valid, ServerRefresh;
  }

  lemma EndKeepsOneAccount(s: State, id: Id)
    requires OneAccount(s) && id in s.refreshes && s.refreshes[id].Ending?
    ensures TokensAreOf(s.server, StepRefresh(s, id, EndRefresh))
  {
    var c := StepRefresh(s, id, EndRefresh);
    assert c.local == s.local || c.local == Local(None, None);
    assert forall other :: other in c.refreshes ==>
      (other == id && c.refreshes[id].Ending?) || (other in s.refreshes && c.refreshes[other] == s.refreshes[other]);
    hide Server.Valid, ServerRefresh, StepRefresh;
    forall other | other in c.refreshes && !c.refreshes[other].Ending?
      ensures RefreshIsOf(s.server, c.local, c.refreshes[other])
    {
      assert RefreshIsOf(s.server, s.local, s.refreshes[other]);
    }
  }

  lemma ClientKeepsOneAccount(s: State, a: Action)
    requires OneAccount(s) && Enabled(s, a) && !a.Refreshing? && !a.Login?
    ensures TokensAreOf(s.server, StepClient(s, a))
  {
    hide Outstanding, Server.Valid;
  }

  /** No running refresh carries a token of another user. */
  ghost predicate IsSafeLogin(s: State, user: User) {
    forall id :: id in s.refreshes ==>
      var c := Carried(s.refreshes[id]);
      c.Some? && c.value in s.server.owner ==> s.server.owner[c.value] == user
  }

  /** A login keeps token and keys of one account exactly if every running refresh carries a
    token of the user that logs in, or none. */
  lemma LoginKeepsOneAccountExactly(s: State, user: User, t: State)
    requires Next(s, Login(user), t) && OneAccount(s)
    ensures OneAccount(t) <==> IsSafeLogin(s, user)
  {
    StepKeepsOwners(s, Login(user), t);
    assert t.refreshes == s.refreshes && t.local == Local(Some(s.server.next), Some(user));
    assert IsOf(t.server, t.local, s.server.next);
    forall id | id in s.refreshes && Carried(s.refreshes[id]).Some?
      ensures
        var token := Carried(s.refreshes[id]).value;
        token in s.server.owner && (RefreshIsOf(t.server, t.local, s.refreshes[id]) <==> s.server.owner[token] == user)
    {
      assert RefreshIsOf(s.server, s.local, s.refreshes[id]);
    }
    hide Server.Valid, KeepsOwners, StepClient, StepRefresh, StepServer, Carried, Next;
  }

  lemma StepKeepsOneAccount(s: State, a: Action, t: State)
    requires Next(s, a, t) && OneAccount(s) && !a.Login?
    ensures OneAccount(t)
  {
    StepParts(s, a, t);
    StepKeepsOwners(s, a, t);
    assert TokensAreOf(s.server, s);
    hide Server.Valid, StepRefresh, StepClient, ServerRefresh, Next, IsOf, RefreshIsOf;
    if !a.Refreshing? {
      ClientKeepsOneAccount(s, a);
    } else if a.move.ServerRefreshes? {
    } else if a.move.ReplyArrives? {
      ReplyKeepsOneAccount(s, a.id);
    } else if a.move.EndRefresh? {
      EndKeepsOneAccount(s, a.id);
    } else {
      MoveKeepsOneAccount(s, a.id, a.move);
    }
  }

  ghost predicate OnlySafeLogins(states: seq<State>, actions: seq<Action>)
    requires |actions| <= |states|
  {
    forall k :: 0 <= k < |actions| && actions[k].Login? ==> IsSafeLogin(states[k], actions[k].user)
  }

  /** In every run the tokens stored and in use belong to the stored account, in every state,
    exactly if every login finds no refresh that carries a token of another user. */
  lemma {:induction false} TokenBelongsToAccountExactly(states: seq<State>, actions: seq<Action>)
    requires IsRun(states, actions) && OneAccount(states[0])
    ensures (forall k :: 0 <= k <= |actions| ==> OneAccount(states[k])) <==> OnlySafeLogins(states, actions)
  {
    hide OneAccount, IsSafeLogin;
    if actions != [] {
      var n := |actions| - 1;
      var a := actions[n];
      RunPrefix(states, actions, n);
      TokenBelongsToAccountExactly(states[..n + 1], actions[..n]);
      assert forall k :: 0 <= k <= n ==> states[..n + 1][k] == states[k];
      assert Next(states[n], a, states[n + 1]);
      if OneAccount(states[n]) {
        if a.Login? {
          LoginKeepsOneAccountExactly(states[n], a.user, states[n + 1]);
        } else {
          StepKeepsOneAccount(states[n], a, states[n + 1]);
        }
      }
    }
  }

  lemma StoredTokenIsOfAccount(s: State)
    requires OneAccount(s) && IsComplete(s.local)
    ensures s.local.token.value in s.server.owner
    ensures s.server.owner[s.local.token.value] == s.local.material.value
  {
  }

  /** A refresh of one user that is under way when another logs in leaves the new account with
    a token of the old one. */
  lemma LateReplyMixesAccounts(s: State, id: Id, user: User) returns (states: seq<State>, actions: seq<Action>)
    requires s.server.Valid() && id in s.refreshes && s.refreshes[id].Requesting?
    requires s.refreshes[id].token in s.server.sessions && s.server.owner[s.refreshes[id].token] != user
    ensures IsRun(states, actions) && states[0] == s
    ensures actions == [Login(user), Refreshing(id, ServerRefreshes), Refreshing(id, ReplyArrives)]
    ensures
      var t := Last(states);
      && IsComplete(t.local) && t.local.material == Some(user)
      && !IsOf(t.server, t.local, t.local.token.value)
  {
    hide IsRun;
    states, actions := [s], [];
    assert IsRun(states, actions) by { RunOfOne(s); }
    states, actions := Act(states, actions, Login(user));
    states, actions := Act(states, actions, Refreshing(id, ServerRefreshes));
    states, actions := Act(states, actions, Refreshing(id, ReplyArrives));
  }
}
