/**
  The unlocks of the browser extension: each waits for a refresh, and opens the session only
  after that refresh has stored its token.
  */
module UnlockWaiters {
  import opened Prelude
  import opened TokenProtocol

  // --- One step -----------------------------------------------------------------------

  /** The refresh succeeds, and the unlocks that wait for it go on. */
  predicate Grants(a: Action) {
    a.Refreshing? && a.move.ScheduleAlarm?
  }

  /** It fails: the request does, its token cannot be stored, or the device is signed out. */
  predicate Fails(s: State, a: Action) {
    && a.Refreshing? && a.id in s.refreshes
    && match s.refreshes[a.id] {
         case Answered(OtherError) => a.move.ReplyArrives?
         case Answered(_) => a.move.SaveFails?
         case Ending(AccountCleared) => a.move.EndRefresh?
         case _ => false
       }
  }

  predicate Starts(s: State, a: Action) {
    (a.CallRefresh? || a.CallUnlock?) && !s.inflight
  }

  /** A lock ends with the session, a sign-out with the account. */
  predicate Ends(s: State, a: Action) {
    && a.EndStep? && a.id in s.enders
    && (s.enders[a.id].phase.AccountCleared? || s.enders[a.id] == Ender(SessionCleared, false))
  }

  /** The unlock handlers: those deriving the key, those waiting and those resumed. */
  predicate WaitersMoved(s: State, a: Action, t: State) {
    if a.WorkerDies? then t.deriving == 0 && t.unlocking == 0 && t.granted == 0 else
      && t.deriving + (if a.CallUnlock? then 1 else 0) == s.deriving + (if a.BeginUnlock? then 1 else 0)
      && t.unlocking == (if Grants(a) || Fails(s, a) then 0 else s.unlocking) + (if a.CallUnlock? then 1 else 0)
      && t.granted + (if a.UnlockCompletes? then 1 else 0) == s.granted + (if Grants(a) then s.unlocking else 0)
  }

  /** The refreshes, locks and sign-outs that run. */
  predicate RunnersMoved(s: State, a: Action, t: State) {
    if a.WorkerDies? then t.refreshes == map[] && !t.inflight && t.enders == map[] else
      && t.refreshes.Keys == (
           if Starts(s, a) then s.refreshes.Keys + {a.id}
           else if Grants(a) || Fails(s, a) then s.refreshes.Keys - {a.id} else s.refreshes.Keys)
      && t.inflight == (Starts(s, a) || (s.inflight && !Grants(a) && !Fails(s, a)))
      && t.enders.Keys == (
           if a.CallEnd? then s.enders.Keys + {a.id} else if Ends(s, a) then s.enders.Keys - {a.id}
           else s.enders.Keys)
  }

  predicate HasMoved(s: State, a: Action, t: State) {
    WaitersMoved(s, a, t) && RunnersMoved(s, a, t)
  }

  lemma PutMoves(s: State, id: Id, r: Refresh)
    requires id in s.refreshes
    ensures Put(s, id, r).refreshes.Keys == s.refreshes.Keys
    ensures Put(s, id, r).inflight == s.inflight && Put(s, id, r).enders == s.enders
  {
  }

  lemma SettleMoves(s: State, id: Id, ok: bool)
    ensures Settle(s, id, ok).refreshes.Keys == s.refreshes.Keys - {id}
    ensures !Settle(s, id, ok).inflight && Settle(s, id, ok).enders == s.enders
  {
  }

  lemma PutSettleMoves(s: State, id: Id)
    requires id in s.refreshes
    ensures forall r ::
      && Put(s, id, r).refreshes.Keys == s.refreshes.Keys
      && Put(s, id, r).inflight == s.inflight && Put(s, id, r).enders == s.enders
    ensures forall ok ::
      && Settle(s, id, ok).refreshes.Keys == s.refreshes.Keys - {id}
      && !Settle(s, id, ok).inflight && Settle(s, id, ok).enders == s.enders
  {
    hide Put, Settle;
    forall r
      ensures Put(s, id, r).refreshes.Keys == s.refreshes.Keys
      ensures Put(s, id, r).inflight == s.inflight && Put(s, id, r).enders == s.enders
    {
      PutMoves(s, id, r);
    }
    forall ok
      ensures Settle(s, id, ok).refreshes.Keys == s.refreshes.Keys - {id}
      ensures !Settle(s, id, ok).inflight && Settle(s, id, ok).enders == s.enders
    {
      SettleMoves(s, id, ok);
    }
  }

  lemma MoveMovesWaiters(s: State, id: Id, m: Move)
    requires s.server.Valid() && id in s.refreshes && CanMove(s.refreshes[id], m) && !m.EndRefresh?
    ensures WaitersMoved(s, Refreshing(id, m), StepRefresh(s, id, m))
  {
    hide Server.Valid, ServerRefresh;
  }

  lemma MoveMovesRunners(s: State, id: Id, m: Move)
    requires s.server.Valid() && id in s.refreshes && CanMove(s.refreshes[id], m) && !m.EndRefresh?
    ensures RunnersMoved(s, Refreshing(id, m), StepRefresh(s, id, m))
  {
    PutSettleMoves(s, id);
    hide Server.Valid, ServerRefresh, Put, Settle;
  }

  lemma EndMovesWaiters(s: State, id: Id)
    requires s.server.Valid() && id in s.refreshes && s.refreshes[id].Ending?
    ensures WaitersMoved(s, Refreshing(id, EndRefresh), StepRefresh(s, id, EndRefresh))
  {
    hide Server.Valid, ServerRefresh;
  }

  lemma EndMovesRunners(s: State, id: Id)
    requires s.server.Valid() && id in s.refreshes && s.refreshes[id].Ending?
    ensures RunnersMoved(s, Refreshing(id, EndRefresh), StepRefresh(s, id, EndRefresh))
  {
    PutSettleMoves(s, id);
    EndingStep(s, id);
    hide Server.Valid, StepRefresh, Put, Settle, ClearSession, ClearAccount;
  }

  /** What the end of a rejected refresh keeps of the runners. */
  lemma EndingStep(s: State, id: Id)
    requires s.server.Valid() && id in s.refreshes && s.refreshes[id].Ending?
    ensures var t, last := StepRefresh(s, id, EndRefresh), s.refreshes[id].end.AccountCleared?;
      && (last ==> t == Settle(s, id, false))
      && (!last ==> exists r :: t.refreshes == Put(s, id, r).refreshes)
      && (!last ==> t.inflight == s.inflight && t.enders == s.enders)
  {
    hide Server.Valid, ServerRefresh, Settle;
    assert Put(s, id, Ending(SessionCleared)).refreshes == s.refreshes[id := Ending(SessionCleared)];
    assert Put(s, id, Ending(AccountCleared)).refreshes == s.refreshes[id := Ending(AccountCleared)];
  }

  lemma ClientMovesWaiters(s: State, a: Action)
    requires Enabled(s, a) && !a.Refreshing?
    ensures WaitersMoved(s, a, StepClient(s, a))
  {
    hide Outstanding, CanMove;
  }

  lemma EnderMovesRunners(s: State, id: Id)
    requires id in s.enders
    ensures RunnersMoved(s, EndStep(id), StepClient(s, EndStep(id)))
  {
    EnderStops(s, id);
    hide StepClient, Ends;
  }

  lemma EnderIs(s: State, id: Id)
    requires id in s.enders
    ensures var t := StepClient(s, EndStep(id));
      && t.refreshes == s.refreshes && t.inflight == s.inflight
      && (Ends(s, EndStep(id)) ==> t.enders == s.enders - {id})
      && (!Ends(s, EndStep(id)) ==> t.enders.Keys == s.enders.Keys + {id})
  {
    var t, e := StepClient(s, EndStep(id)), s.enders[id];
    assert e.phase.Recording? ==> t.enders == s.enders[id := e.(phase := SessionCleared)];
    assert e.phase.SessionCleared? && e.signOut ==> t.enders == s.enders[id := e.(phase := AccountCleared)];
  }

  lemma EnderStops(s: State, id: Id)
    requires id in s.enders
    ensures var t := StepClient(s, EndStep(id));
      && t.refreshes == s.refreshes && t.inflight == s.inflight
      && t.enders.Keys == if Ends(s, EndStep(id)) then s.enders.Keys - {id} else s.enders.Keys
  {
    EnderIs(s, id);
    assert s.enders.Keys + {id} == s.enders.Keys;
    hide StepClient;
  }

  lemma ClientMovesRunners(s: State, a: Action)
    requires Enabled(s, a) && !a.Refreshing? && !a.EndStep?
    ensures RunnersMoved(s, a, StepClient(s, a))
  {
    hide Outstanding, CanMove;
  }

  lemma MovedWithServer(s: State, a: Action, t: State, server: Server)
    requires HasMoved(s, a, t)
    ensures HasMoved(s, a, t.(server := server))
  {
    hide Grants, Fails, Starts, Ends;
  }

  /** Each step moves the handlers that wait, and starts and ends what runs, exactly so. */
  lemma StepMovesExactly(s: State, a: Action, t: State)
    requires Next(s, a, t)
    ensures HasMoved(s, a, t)
  {
    StepParts(s, a, t);
    hide StepRefresh, StepClient, StepServer, Server.Valid, Next, Enabled, CanMove, WaitersMoved, RunnersMoved;
    if a.Refreshing? {
      if a.move.EndRefresh? {
        EndMovesWaiters(s, a.id);
        EndMovesRunners(s, a.id);
      } else {
        MoveMovesWaiters(s, a.id, a.move);
        MoveMovesRunners(s, a.id, a.move);
      }
      MovedWithServer(s, a, StepRefresh(s, a.id, a.move), StepServer(s, a));
    } else {
      ClientMovesWaiters(s, a);
      if a.EndStep? {
        EnderMovesRunners(s, a.id);
      } else {
        ClientMovesRunners(s, a);
      }
      MovedWithServer(s, a, StepClient(s, a), StepServer(s, a));
    }
  }

  // --- No unlock is lost or made up -------------------------------------------------------

  function Waiting(s: State): nat {
    s.deriving + s.unlocking + s.granted
  }

  function Begun(actions: seq<Action>): nat {
    if actions == [] then 0 else
      var n := |actions| - 1;
      Begun(actions[..n]) + if actions[n].BeginUnlock? then 1 else 0
  }

  function Done(actions: seq<Action>): nat {
    if actions == [] then 0 else
      var n := |actions| - 1;
      Done(actions[..n]) + if actions[n].UnlockCompletes? then 1 else 0
  }

  /** The unlocks that fail with this step. */
  function DroppedBy(s: State, a: Action): nat {
    if a.WorkerDies? then Waiting(s) else if Fails(s, a) then s.unlocking else 0
  }

  function Dropped(states: seq<State>, actions: seq<Action>): nat
    requires |states| == |actions| + 1
  {
    if actions == [] then 0 else
      var n := |actions| - 1;
      Dropped(states[..n + 1], actions[..n]) + DroppedBy(states[n], actions[n])
  }

  /** In every run each unlock that was begun is completed, has failed with a refresh or with the
    worker, or still waits. */
  lemma {:induction false} EveryUnlockIsAccounted(states: seq<State>, actions: seq<Action>)
    requires IsRun(states, actions)
    ensures Waiting(Last(states)) + Done(actions) + Dropped(states, actions) == Waiting(states[0]) + Begun(actions)
  {
    if actions != [] {
      var n := |actions| - 1;
      RunPrefix(states, actions, n);
      EveryUnlockIsAccounted(states[..n + 1], actions[..n]);
      StepMovesExactly(states[n], actions[n], states[n + 1]);
      hide Next, Fails, RunnersMoved;
      assert Last(states[..n + 1]) == states[n];
    }
  }

  // --- The session opens after the token is stored -------------------------------------------

  /** The rotated token reaches the disk. */
  predicate Stores(s: State, a: Action, t: State, id: Id) {
    && a == Refreshing(id, ReplyArrives) && id in s.refreshes && s.refreshes[id].Answered?
    && s.refreshes[id].reply.Tokens? && t.local.token == Some(s.refreshes[id].reply.token)
  }

  predicate StaysAlive(actions: seq<Action>, i: nat, n: nat)
    requires n <= |actions|
  {
    forall k :: i <= k < n ==> !actions[k].WorkerDies?
  }

  /** The token of this refresh reached the disk before step n, in the same life of the worker. */
  ghost predicate HasStored(states: seq<State>, actions: seq<Action>, n: nat, id: Id) {
    && |states| == |actions| + 1 && n <= |actions|
    && exists i :: 0 <= i < n && Stores(states[i], actions[i], states[i + 1], id) && StaysAlive(actions, i, n)
  }

  predicate IsStored(s: State, id: Id) {
    id in s.refreshes && (s.refreshes[id].Saved? || s.refreshes[id].Persisted?)
  }

  lemma PutOthers(s: State, id: Id, r: Refresh, other: Id)
    requires id in s.refreshes
    ensures IsStored(Put(s, id, r), other) ==> if other == id then r.Saved? || r.Persisted? else IsStored(s, other)
  {
  }

  lemma MoveStores(s: State, id: Id, m: Move, other: Id)
    requires s.server.Valid() && id in s.refreshes && CanMove(s.refreshes[id], m)
    requires IsStored(StepRefresh(s, id, m), other) && !IsStored(s, other)
    ensures Stores(s, Refreshing(id, m), StepRefresh(s, id, m), other)
  {
    hide Server.Valid, ServerRefresh, Put;
    forall r ensures IsStored(Put(s, id, r), other) ==>
      if other == id then r.Saved? || r.Persisted? else IsStored(s, other)
    {
      PutOthers(s, id, r, other);
    }
    PutKeepsLocal(s, id);
  }

  lemma PutKeepsLocal(s: State, id: Id)
    ensures forall r :: Put(s, id, r).local == s.local
  {
  }

  lemma ClientStores(s: State, a: Action, id: Id)
    requires Enabled(s, a) && !a.Refreshing? && IsStored(StepClient(s, a), id)
    ensures !a.WorkerDies? && IsStored(s, id)
  {
    hide Outstanding, CanMove;
  }

  lemma StoredStep(s: State, a: Action, t: State, id: Id)
    requires Next(s, a, t) && IsStored(t, id)
    ensures !a.WorkerDies? && (IsStored(s, id) || Stores(s, a, t, id))
  {
    StepParts(s, a, t);
    hide StepRefresh, StepClient, StepServer, Server.Valid, Next, Enabled, CanMove;
    if !a.Refreshing? {
      ClientStores(s, a, id);
    } else if !IsStored(s, id) {
      MoveStores(s, a.id, a.move, id);
    }
  }

  lemma {:induction false} StoredBefore(states: seq<State>, actions: seq<Action>, n: nat, id: Id)
    requires IsRun(states, actions) && n <= |actions| && states[0].refreshes == map[] && IsStored(states[n], id)
    ensures HasStored(states, actions, n, id)
  {
    hide Stores, Next;
    if n > 0 {
      StoredStep(states[n - 1], actions[n - 1], states[n], id);
      if IsStored(states[n - 1], id) {
        StoredBefore(states, actions, n - 1, id);
      }
    }
  }

  /** Before step n, in the same life of the worker, this refresh succeeded with an unlock waiting
    for it, its token having been stored. */
  ghost predicate HasSucceeded(states: seq<State>, actions: seq<Action>, n: nat, id: Id) {
    && |states| == |actions| + 1 && n <= |actions|
    && exists j :: 0 <= j < n && actions[j] == Refreshing(id, ScheduleAlarm) && states[j].unlocking > 0 &&
         HasStored(states, actions, j, id) && StaysAlive(actions, j, n)
  }

  lemma SucceedsAfterStoring(states: seq<State>, actions: seq<Action>, j: nat)
    requires IsRun(states, actions) && j < |actions| && states[0].refreshes == map[] && Grants(actions[j])
    ensures HasStored(states, actions, j, actions[j].id)
  {
    assert Next(states[j], actions[j], states[j + 1]);
    StoredBefore(states, actions, j, actions[j].id);
  }

  lemma {:induction false} GrantedAfterASuccess(states: seq<State>, actions: seq<Action>, n: nat) returns (id: Id)
    requires IsRun(states, actions) && n <= |actions| && states[0].refreshes == map[] && states[0].granted == 0
    requires states[n].granted > 0
    ensures HasSucceeded(states, actions, n, id)
  {
    hide HasStored;
    assert Next(states[n - 1], actions[n - 1], states[n]);
    StepMovesExactly(states[n - 1], actions[n - 1], states[n]);
    hide Next, RunnersMoved, Fails;
    if states[n - 1].granted > 0 {
      id := GrantedAfterASuccess(states, actions, n - 1);
    } else {
      id := actions[n - 1].id;
      SucceedsAfterStoring(states, actions, n - 1);
    }
  }

  /** An unlock opens the session only after the refresh it waited for has stored its token and
    then succeeded, all in one life of the worker. */
  lemma UnlockFollowsAStoredToken(states: seq<State>, actions: seq<Action>, n: nat) returns (id: Id)
    requires IsRun(states, actions) && n < |actions| && states[0].refreshes == map[] && states[0].granted == 0
    requires actions[n].UnlockCompletes?
    ensures HasSucceeded(states, actions, n, id)
  {
    assert Next(states[n], actions[n], states[n + 1]);
    id := GrantedAfterASuccess(states, actions, n);
  }

  // --- No refresh waits for ever ---------------------------------------------------------------

  /** What may come next, phase by phase. */
  predicate MayCome(r: Refresh, m: Move) {
    match r
    case Loading(_) => m == Loaded
    case Requesting(_) => m in {ServerRefreshes, RequestFails, GivesUp}
    case Answered(Tokens(_)) => m in {ReplyArrives, ReplyLost, SaveFails}
    case Answered(Unauthorized) => m in {ReplyArrives, ReplyLost}
    case Answered(OtherError) => m == ReplyArrives
    case Saved => m == UpdateSession
    case Persisted => m == ScheduleAlarm
    case Ending(_) => m == EndRefresh
  }

  /** The moves left, at most. */
  function MovesLeft(r: Refresh): nat {
    match r
    case Loading(_) => 7
    case Requesting(_) => 6
    case Answered(Tokens(_)) => 5
    case Answered(Unauthorized) => 5
    case Answered(OtherError) => 1
    case Saved => 2
    case Persisted => 1
    case Ending(Recording) => 3
    case Ending(SessionCleared) => 2
    case Ending(AccountCleared) => 1
  }

  /** A running refresh is never stuck, every kind of failure can hit it, and each move brings it
    nearer to its end. */
  lemma RefreshAdvances(s: State, id: Id, m: Move)
    requires s.server.Valid() && id in s.refreshes
    ensures CanMove(s.refreshes[id], m) <==> MayCome(s.refreshes[id], m)
    ensures exists n :: CanMove(s.refreshes[id], n)
    ensures CanMove(s.refreshes[id], m) ==>
      var t := StepRefresh(s, id, m);
      id in t.refreshes ==> MovesLeft(t.refreshes[id]) < MovesLeft(s.refreshes[id])
  {
    PhaseMoves(s.refreshes[id], m);
    if CanMove(s.refreshes[id], m) {
      MoveShortens(s, id, m);
    }
    hide *;
  }

  lemma MoveShortens(s: State, id: Id, m: Move)
    requires s.server.Valid() && id in s.refreshes && CanMove(s.refreshes[id], m)
    ensures var t := StepRefresh(s, id, m);
      id in t.refreshes ==> MovesLeft(t.refreshes[id]) < MovesLeft(s.refreshes[id])
  {
    PutOrSettled(s, id);
    hide Put, Settle, Server.Valid, ServerRefresh;
  }

  lemma PutOrSettled(s: State, id: Id)
    ensures forall r :: id in Put(s, id, r).refreshes && Put(s, id, r).refreshes[id] == r
    ensures forall ok :: id !in Settle(s, id, ok).refreshes
  {
  }

  lemma PhaseMoves(r: Refresh, m: Move)
    ensures CanMove(r, m) <==> MayCome(r, m)
    ensures exists n :: CanMove(r, n)
  {
    var n := if r.Loading? then Loaded else if r.Requesting? then RequestFails else if r.Answered? then ReplyArrives
             else if r.Saved? then UpdateSession else if r.Persisted? then ScheduleAlarm else EndRefresh;
    assert CanMove(r, n);
  }

  /** Requests nobody waits for and requests of a logout may reach the server at any time, and a lock
    or sign-out may go on. */
  lemma OthersMayAdvance(s: State, id: Id)
    ensures Enabled(s, OrphanArrives(id)) <==> id in s.orphans
    ensures Enabled(s, LogoutRefreshes(id)) <==> id in s.logouts
    ensures Enabled(s, EndStep(id)) <==> id in s.enders
    ensures id !in s.logouts ==> (Enabled(s, LogoutSends(id)) <==> s.local.token.Some? && s.local.material.Some?)
  {
  }
}
