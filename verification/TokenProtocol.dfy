/**
  The refresh token of the browser extension: one copy in durable storage, rotated by
  the server on every use, refreshed by whoever needs a fresh access token.

  Each action is the code between two awaits of one running call, or something the
  server, the network or the browser does. A storage area applies its operations in the
  order they are issued, so a write takes effect in the action that issues it.
  */
module TokenProtocol {
  import opened Prelude

  type Token = nat
  type User = string
  type Id = nat

  /** A presented token is retired, not deleted: it stays good until its grace ends. */
  datatype Status = Active | Retired

  datatype Server = Server(sessions: map<Token, Status>, owner: map<Token, User>, next: Token) {
    ghost predicate Valid() {
      && sessions.Keys <= owner.Keys
      && forall t :: t in owner ==> t < next
    }

    function Issue(user: User): Server {
      Server(sessions[next := Active], owner[next := user], next + 1)
    }
  }

  /** The login state in storage.local: the token alone is rewritten by a refresh, the key
    material only by a login. */
  datatype Local = Local(token: Option<Token>, material: Option<User>)

  /** A usable login needs both. */
  predicate IsComplete(l: Local) {
    l.token.Some? && l.material.Some?
  }

  datatype Reply = Tokens(token: Token) | Unauthorized | OtherError

  /** endLogin and lockVault: the lock is recorded, then the session is dropped, then,
    when signing out, the login state. */
  datatype EndPhase = Recording | SessionCleared | AccountCleared

  datatype Ender = Ender(phase: EndPhase, signOut: bool)

  /** A running doRefresh, by what it waits for. The read of the login state takes effect
    when it is issued, so what it found is known from then on. */
  datatype Refresh =
    | Loading(found: Option<Token>)
    | Requesting(token: Token)
    | Answered(reply: Reply)
    | Saved
    | Persisted
    | Ending(end: EndPhase)

  datatype State = State(
    server: Server,
    orphans: map<Id, Token>,   // requests under way that nobody waits for any more
    logouts: map<Id, Token>,   // requests of revokeServerSession, outside the single flight
    local: Local,              // storage.local
    stored: bool,              // an unlocked session in storage.session
    unlocked: bool,            // and in the memory of the worker
    inflight: bool,            // inflightRefresh is set
    refreshes: map<Id, Refresh>,
    enders: map<Id, Ender>,
    deriving: nat,             // unlock handlers that found a login and derive the key
    unlocking: nat,            // those waiting for the refresh
    granted: nat)              // those it has resumed, about to set the session: the code does
                               // so at once, here other steps may come in between

  /** What may happen next to a running refresh. */
  datatype Move =
    | Loaded
    | ServerRefreshes
    | RequestFails // before the server handles it
    | GivesUp      // the client sees a failure, and the server may still handle it
    | ReplyLost
    | ReplyArrives
    | SaveFails
    | UpdateSession
    | ScheduleAlarm
    | EndRefresh

  datatype Action =
    | CallRefresh(id: Id)
    | Refreshing(id: Id, move: Move)
    | BeginUnlock
    | CallUnlock(id: Id)
    | UnlockCompletes
    | CallEnd(id: Id, signOut: bool)
    | EndStep(id: Id)
    | Login(user: User)
    | WorkerDies(idle: bool)
    | OrphanArrives(id: Id)
    | LogoutSends(id: Id)
    | LogoutRefreshes(id: Id) // the token is rotated and the new one is not stored
    | GraceEnds(token: Token)
    | SessionRevoked(token: Token)

  predicate CanMove(r: Refresh, m: Move) {
    match m
    case Loaded => r.Loading?
    case ServerRefreshes => r.Requesting?
    case RequestFails => r.Requesting?
    case GivesUp => r.Requesting?
    case ReplyLost => r.Answered? && !r.reply.OtherError?
    case ReplyArrives => r.Answered?
    case SaveFails => r.Answered? && r.reply.Tokens?
    case UpdateSession => r.Saved?
    case ScheduleAlarm => r.Persisted?
    case EndRefresh => r.Ending?
  }

  predicate Enabled(s: State, a: Action) {
    match a
    case CallRefresh(id) => id !in s.refreshes && id !in s.orphans
    case Refreshing(id, m) => id in s.refreshes && CanMove(s.refreshes[id], m)
    case BeginUnlock => IsComplete(s.local)
    case CallUnlock(id) => id !in s.refreshes && id !in s.orphans && s.deriving > 0
    case UnlockCompletes => s.granted > 0
    case CallEnd(id, _) => id !in s.enders
    case EndStep(id) => id in s.enders
    case Login(_) => true
    case WorkerDies(_) => true
    case OrphanArrives(id) => id in s.orphans
    case LogoutSends(id) => id !in s.logouts && IsComplete(s.local)
    case LogoutRefreshes(id) => id in s.logouts
    case GraceEnds(t) => t in s.server.sessions && s.server.sessions[t].Retired?
    case SessionRevoked(t) => t in s.server.sessions
  }

  /** refreshTokens(): join the running refresh or start one. */
  function StartRefresh(s: State, id: Id): State {
    if s.inflight then s
    else
      var found := if IsComplete(s.local) then s.local.token else None;
      s.(inflight := true, refreshes := s.refreshes[id := Loading(found)])
  }

  /** The promise settles: callers resume, and the next call starts a new refresh. */
  function Settle(s: State, id: Id, ok: bool): State {
    s.(inflight := false, refreshes := s.refreshes - {id},
       granted := s.granted + if ok then s.unlocking else 0, unlocking := 0)
  }

  function Put(s: State, id: Id, r: Refresh): State {
    s.(refreshes := s.refreshes[id := r])
  }

  function ClearSession(s: State): State {
    s.(unlocked := false, stored := false)
  }

  function ClearAccount(s: State): State {
    s.(local := Local(None, None))
  }

  /** The server's side of a refresh: the reply and what becomes of the tokens. */
  function ServerRefresh(server: Server, token: Token): (Server, Reply)
    requires server.Valid()
  {
    if token in server.sessions then
      var issued := server.Issue(server.owner[token]);
      (issued.(sessions := issued.sessions[token := Retired]), Tokens(server.next))
    else (server, Unauthorized)
  }

  /** What an action does to the server. */
  function StepServer(s: State, a: Action): Server
    requires s.server.Valid() && Enabled(s, a)
  {
    match a
    case Refreshing(id, ServerRefreshes) => ServerRefresh(s.server, s.refreshes[id].token).0
    case OrphanArrives(id) => ServerRefresh(s.server, s.orphans[id]).0
    case LogoutRefreshes(id) => ServerRefresh(s.server, s.logouts[id]).0
    case Login(user) => s.server.Issue(user)
    case GraceEnds(t) => s.server.(sessions := s.server.sessions - {t})
    case SessionRevoked(t) => s.server.(sessions := s.server.sessions - {t})
    case _ => s.server
  }

  /** What a move does to the running refresh, and through it to the client. */
  function StepRefresh(s: State, id: Id, m: Move): State
    requires s.server.Valid() && id in s.refreshes && CanMove(s.refreshes[id], m)
  {
    var r := s.refreshes[id];
    match m
    case Loaded => Put(s, id, if r.found.Some? then Requesting(r.found.value) else Ending(Recording))
    case ServerRefreshes => Put(s, id, Answered(ServerRefresh(s.server, r.token).1))
    case RequestFails => Put(s, id, Answered(OtherError))
    case GivesUp => Put(s, id, Answered(OtherError)).(orphans := s.orphans[id := r.token])
    case ReplyLost => Put(s, id, Answered(OtherError))
    case ReplyArrives =>
      (match r.reply
       case Tokens(t) => Put(s, id, Saved).(local := s.local.(token := Some(t)))
       case Unauthorized => Put(s, id, Ending(Recording))
       case OtherError => Settle(s, id, false))
    case SaveFails => Settle(s, id, false)
    case UpdateSession => Put(s, id, Persisted).(stored := s.stored || s.unlocked)
    case ScheduleAlarm => Settle(s, id, true)
    case EndRefresh =>
      (match r.end
       case Recording => ClearSession(Put(s, id, Ending(SessionCleared)))
       case SessionCleared => ClearAccount(Put(s, id, Ending(AccountCleared)))
       case AccountCleared => Settle(s, id, false))
  }

  /** And to the rest of the client. */
  function StepClient(s: State, a: Action): State
    requires Enabled(s, a) && !a.Refreshing?
  {
    match a
    case CallRefresh(id) => StartRefresh(s, id)
    case BeginUnlock => s.(deriving := s.deriving + 1)
    case CallUnlock(id) => StartRefresh(s, id).(deriving := s.deriving - 1, unlocking := s.unlocking + 1)
    case UnlockCompletes => s.(unlocked := true, stored := true, granted := s.granted - 1)
    case CallEnd(id, signOut) => s.(enders := s.enders[id := Ender(Recording, signOut)])
    case EndStep(id) =>
      var e := s.enders[id];
      (match e.phase
       case Recording => ClearSession(s.(enders := s.enders[id := e.(phase := SessionCleared)]))
       case SessionCleared =>
         if e.signOut then ClearAccount(s.(enders := s.enders[id := e.(phase := AccountCleared)]))
         else s.(enders := s.enders - {id})
       case AccountCleared => s.(enders := s.enders - {id}))
    case Login(user) => s.(local := Local(Some(s.server.next), Some(user)))
    case WorkerDies(idle) =>
      // The next worker restores the stored session, or locks it when idle for too long.
      s.(orphans := s.orphans + Outstanding(s.refreshes), stored := s.stored && !idle, unlocked := s.stored && !idle,
         inflight := false, refreshes := map[], enders := map[], deriving := 0, unlocking := 0, granted := 0)
    case OrphanArrives(id) => s.(orphans := s.orphans - {id})
    case LogoutSends(id) => s.(logouts := s.logouts[id := s.local.token.value])
    case LogoutRefreshes(id) => s.(logouts := s.logouts - {id})
    case _ => s
  }

  function Step(s: State, a: Action): State
    requires s.server.Valid() && Enabled(s, a)
  {
    (if a.Refreshing? then StepRefresh(s, a.id, a.move) else StepClient(s, a)).(server := StepServer(s, a))
  }

  /** The requests under way. */
  function Outstanding(refreshes: map<Id, Refresh>): map<Id, Token> {
    map id | id in refreshes && refreshes[id].Requesting? :: refreshes[id].token
  }

  // --- Runs -----------------------------------------------------------------------

  ghost predicate Next(s: State, a: Action, t: State) {
    s.server.Valid() && Enabled(s, a) && t == Step(s, a)
  }

  ghost predicate IsRun(states: seq<State>, actions: seq<Action>) {
    && |states| == |actions| + 1
    && forall k :: 0 <= k < |actions| ==> Next(states[k], actions[k], states[k + 1])
  }

  /** A step, taken apart. */
  lemma StepParts(s: State, a: Action, t: State)
    requires Next(s, a, t)
    ensures s.server.Valid() && Enabled(s, a)
    ensures a.Refreshing? ==>
      && a.id in s.refreshes && CanMove(s.refreshes[a.id], a.move)
      && t == StepRefresh(s, a.id, a.move).(server := StepServer(s, a))
    ensures !a.Refreshing? ==> t == StepClient(s, a).(server := StepServer(s, a))
  {
    hide StepRefresh, StepClient, StepServer, Server.Valid;
  }

  lemma RunPrefix(states: seq<State>, actions: seq<Action>, n: nat)
    requires IsRun(states, actions) && n <= |actions|
    ensures IsRun(states[..n + 1], actions[..n])
  {
  }

  lemma ServerStaysValid(s: State, a: Action)
    requires s.server.Valid() && Enabled(s, a)
    ensures StepServer(s, a).Valid()
  {
  }

  /** Extend a run by one action. */
  lemma Act(states: seq<State>, actions: seq<Action>, a: Action) returns (more: seq<State>, done: seq<Action>)
    requires IsRun(states, actions) && Last(states).server.Valid() && Enabled(Last(states), a)
    ensures IsRun(more, done) && more[0] == states[0]
    ensures more != [] && Last(more) == Step(Last(states), a) && done == actions + [a]
  {
    more, done := states + [Step(Last(states), a)], actions + [a];
  }

  lemma RunOfOne(s: State)
    ensures IsRun([s], [])
  {
  }

  /** An id that is not taken. */
  lemma FreeId(ids: set<Id>) returns (free: Id)
    ensures forall id :: id in ids ==> id < free
    decreases |ids|
  {
    if ids == {} {
      free := 0;
    } else {
      var id :| id in ids;
      var above := FreeId(ids - {id});
      free := if id < above then above else id + 1;
      assert forall other :: other in ids ==> other == id || other in ids - {id};
    }
  }

  // --- One refresh at a time --------------------------------------------------------

  ghost predicate SingleFlight(s: State) {
    && (s.inflight <==> s.refreshes != map[])
    && forall i, j :: i in s.refreshes && j in s.refreshes ==> i == j
  }

  lemma PutSettleSingleFlight(s: State, id: Id, r: Refresh, ok: bool)
    requires SingleFlight(s) && id in s.refreshes
    ensures SingleFlight(Put(s, id, r)) && Put(s, id, r).refreshes == map[id := r]
    ensures SingleFlight(Settle(s, id, ok)) && Settle(s, id, ok).refreshes == map[]
  {
    assert s.refreshes.Keys == {id};
  }

  lemma MoveKeepsSingleFlight(s: State, id: Id, m: Move)
    requires s.server.Valid() && id in s.refreshes && CanMove(s.refreshes[id], m) && SingleFlight(s)
    ensures SingleFlight(StepRefresh(s, id, m))
  {
    hide Put, Settle, ServerRefresh, Server.Valid;
    forall r ensures SingleFlight(Put(s, id, r)) {
      PutSettleSingleFlight(s, id, r, true);
    }
    forall ok ensures SingleFlight(Settle(s, id, ok)) {
      PutSettleSingleFlight(s, id, Saved, ok);
    }
  }

  lemma ClientKeepsSingleFlight(s: State, a: Action)
    requires Enabled(s, a) && !a.Refreshing? && SingleFlight(s)
    ensures SingleFlight(StepClient(s, a))
  {
    hide Outstanding;
  }

  lemma StepKeepsSingleFlight(s: State, a: Action, t: State)
    requires Next(s, a, t) && SingleFlight(s)
    ensures SingleFlight(t)
  {
    StepParts(s, a, t);
    hide StepRefresh, StepClient, StepServer, Server.Valid, Enabled, CanMove, Next;
    if a.Refreshing? {
      MoveKeepsSingleFlight(s, a.id, a.move);
    } else {
      ClientKeepsSingleFlight(s, a);
    }
  }

  lemma OnlyRefresh(s: State, id: Id)
    requires SingleFlight(s) && id in s.refreshes
    ensures s.refreshes == map[id := s.refreshes[id]]
  {
  }

  /** Whatever calls, alarms, deaths and replies interleave: a worker runs one refresh at most. */
  lemma {:induction false} AtMostOneRefresh(states: seq<State>, actions: seq<Action>)
    requires IsRun(states, actions) && SingleFlight(states[0])
    ensures forall s :: s in states ==> SingleFlight(s)
  {
    if actions != [] {
      var n := |actions| - 1;
      RunPrefix(states, actions, n);
      AtMostOneRefresh(states[..n + 1], actions[..n]);
      assert states[..n + 1][n] == states[n];
      StepKeepsSingleFlight(states[n], actions[n], states[n + 1]);
      assert states == states[..n + 1] + [states[n + 1]];
    }
  }

  /** The refresh requests under way: that of the worker, and those nobody waits for. */
  ghost function UnderWay(s: State): set<Id> {
    Outstanding(s.refreshes).Keys + s.orphans.Keys
  }

  /** No request is both waited for and not. */
  predicate IdsApart(s: State) {
    forall id :: id in s.refreshes && id in s.orphans ==> s.refreshes[id] == Answered(OtherError)
  }

  /** The worker dies with a request under way, or gives one up. */
  predicate LeavesOrphan(s: State, a: Action) {
    (a.WorkerDies? && Outstanding(s.refreshes) != map[]) || (a.Refreshing? && a.move.GivesUp?)
  }

  ghost function Orphaned(states: seq<State>, actions: seq<Action>): nat
    requires |actions| <= |states|
  {
    if actions == [] then 0 else
      var n := |actions| - 1;
      Orphaned(states, actions[..n]) + if LeavesOrphan(states[n], actions[n]) then 1 else 0
  }

  function Arrived(actions: seq<Action>): nat {
    if actions == [] then 0 else
      var n := |actions| - 1;
      Arrived(actions[..n]) + if actions[n].OrphanArrives? then 1 else 0
  }

  lemma MoveKeepsIds(s: State, id: Id, m: Move)
    requires s.server.Valid() && id in s.refreshes && CanMove(s.refreshes[id], m) && !m.GivesUp?
    ensures KeepsIds(s, StepRefresh(s, id, m), id)
  {
    hide Server.Valid, ServerRefresh, Put, Settle;
    forall r ensures KeepsIds(s, Put(s, id, r), id) {
      PutSettleIds(s, id, r, true);
    }
    forall ok ensures KeepsIds(s, Settle(s, id, ok), id) {
      PutSettleIds(s, id, Saved, ok);
    }
  }

  /** Nothing but the refresh id changes, and if that failed it is over. */
  predicate KeepsIds(s: State, t: State, id: Id) {
    && t.orphans == s.orphans && t.logouts == s.logouts
    && forall other :: other in t.refreshes && other != id ==>
      other in s.refreshes && t.refreshes[other] == s.refreshes[other]
  }

  lemma MoveCountsOrphans(s: State, id: Id, m: Move)
    requires s.server.Valid() && id in s.refreshes && CanMove(s.refreshes[id], m) && IdsApart(s)
    ensures
      var t := StepRefresh(s, id, m);
      IdsApart(t) && |t.orphans| == |s.orphans| + if m.GivesUp? then 1 else 0
  {
    hide Server.Valid, ServerRefresh;
    if m.GivesUp? {
      assert id !in s.orphans;
    } else {
      MoveKeepsIds(s, id, m);
    }
  }

  lemma PutSettleIds(s: State, id: Id, r: Refresh, ok: bool)
    requires id in s.refreshes
    ensures KeepsIds(s, Put(s, id, r), id) && KeepsIds(s, Settle(s, id, ok), id)
  {
  }

  lemma ClientKeepsIds(s: State, a: Action)
    requires Enabled(s, a) && !a.Refreshing? && IdsApart(s) && !a.WorkerDies? && !a.OrphanArrives?
    ensures StepClient(s, a).orphans == s.orphans && IdsApart(StepClient(s, a))
  {
    var t := StepClient(s, a);
    assert t.orphans == s.orphans;
    assert t.refreshes == s.refreshes || (a.id !in s.orphans && t.refreshes == StartRefresh(s, a.id).refreshes);
    hide Outstanding, CanMove, StepClient, Enabled;
  }

  lemma DeathOrphans(s: State, idle: bool)
    requires SingleFlight(s) && IdsApart(s)
    ensures
      var t := StepClient(s, WorkerDies(idle));
      IdsApart(t) && |t.orphans| == |s.orphans| + if LeavesOrphan(s, WorkerDies(idle)) then 1 else 0
  {
    OrphansMore(s);
    hide Outstanding, SingleFlight;
  }

  lemma OrphansMore(s: State)
    requires SingleFlight(s) && IdsApart(s)
    ensures |s.orphans + Outstanding(s.refreshes)| == |s.orphans| + if Outstanding(s.refreshes) != map[] then 1 else 0
  {
    if s.refreshes == map[] {
      assert Outstanding(s.refreshes) == map[];
      assert s.orphans + map[] == s.orphans;
    } else {
      var id :| id in s.refreshes;
      OnlyRefresh(s, id);
      OneOrphanMore(s, id);
    }
  }

  lemma StepCountsOrphans(s: State, a: Action, t: State)
    requires Next(s, a, t) && SingleFlight(s) && IdsApart(s)
    ensures IdsApart(t)
    ensures |t.orphans| + (if a.OrphanArrives? then 1 else 0) == |s.orphans| + if LeavesOrphan(s, a) then 1 else 0
  {
    StepParts(s, a, t);
    hide StepRefresh, StepClient, StepServer, Server.Valid, CanMove, Next, SingleFlight, Outstanding;
    if a.Refreshing? {
      MoveCountsOrphans(s, a.id, a.move);
    } else if a.WorkerDies? {
      DeathOrphans(s, a.idle);
    } else if a.OrphanArrives? {
    } else {
      ClientKeepsIds(s, a);
    }
  }

  lemma OneOrphanMore(s: State, id: Id)
    requires id in s.refreshes && s.refreshes == map[id := s.refreshes[id]]
    requires s.refreshes[id].Requesting? ==> id !in s.orphans
    ensures |s.orphans + Outstanding(s.refreshes)| == |s.orphans| + if Outstanding(s.refreshes) != map[] then 1 else 0
    ensures Outstanding(s.refreshes) == if s.refreshes[id].Requesting? then map[id := s.refreshes[id].token] else map[]
  {
    OutstandingOfOne(id, s.refreshes[id]);
    hide Outstanding;
    var out := Outstanding(map[id := s.refreshes[id]]);
    if s.refreshes[id].Requesting? {
      assert s.orphans + out == s.orphans[id := s.refreshes[id].token];
    } else {
      assert s.orphans + map[] == s.orphans;
    }
  }

  lemma OutstandingOfOne(id: Id, r: Refresh)
    ensures Outstanding(map[id := r]) == if r.Requesting? then map[id := r.token] else map[]
  {
  }

  lemma {:induction false} OrphansAreCounted(states: seq<State>, actions: seq<Action>)
    requires IsRun(states, actions) && SingleFlight(states[0]) && IdsApart(states[0])
    ensures SingleFlight(Last(states)) && IdsApart(Last(states))
    ensures |Last(states).orphans| + Arrived(actions) == |states[0].orphans| + Orphaned(states, actions)
  {
    if actions != [] {
      var n := |actions| - 1;
      RunPrefix(states, actions, n);
      OrphansAreCounted(states[..n + 1], actions[..n]);
      OrphanedPrefix(states, actions[..n], n + 1);
      assert Last(states[..n + 1]) == states[n];
      StepCountsOrphans(states[n], actions[n], states[n + 1]);
      StepKeepsSingleFlight(states[n], actions[n], states[n + 1]);
    }
  }

  lemma {:induction false} OrphanedPrefix(states: seq<State>, actions: seq<Action>, m: nat)
    requires |actions| <= m <= |states|
    ensures Orphaned(states[..m], actions) == Orphaned(states, actions)
  {
    if actions != [] {
      OrphanedPrefix(states, actions[..|actions| - 1], m);
    }
  }

  /** The requests of sign-outs that were sent and have not reached the server. */
  function SentByLogouts(actions: seq<Action>): int {
    if actions == [] then 0 else
      var n := |actions| - 1;
      SentByLogouts(actions[..n]) +
        if actions[n].LogoutSends? then 1 else if actions[n].LogoutRefreshes? then -1 else 0
  }

  lemma ClientCountsLogouts(s: State, a: Action)
    requires Enabled(s, a) && !a.Refreshing?
    ensures |StepClient(s, a).logouts| == |s.logouts| + SentByLogouts([a])
  {
    assert [a][..0] == [];
    if a.LogoutSends? {
      assert StepClient(s, a).logouts == s.logouts[a.id := s.local.token.value];
    } else if a.LogoutRefreshes? {
      assert s.logouts == (s.logouts - {a.id})[a.id := s.logouts[a.id]];
    } else {
      ClientKeepsLogouts(s, a);
    }
    hide CanMove, Outstanding, Server.Valid, StepClient;
  }

  lemma ClientKeepsLogouts(s: State, a: Action)
    requires Enabled(s, a) && !a.Refreshing? && !a.LogoutSends? && !a.LogoutRefreshes?
    ensures StepClient(s, a).logouts == s.logouts
  {
    hide CanMove, Outstanding;
  }

  lemma StepCountsLogouts(s: State, a: Action, t: State)
    requires Next(s, a, t)
    ensures |t.logouts| == |s.logouts| + SentByLogouts([a])
  {
    StepParts(s, a, t);
    assert [a][..0] == [];
    hide StepRefresh, StepClient, StepServer, Server.Valid, CanMove, Next, Outstanding;
    if !a.Refreshing? {
      ClientCountsLogouts(s, a);
    } else if !a.move.GivesUp? {
      MoveKeepsIds(s, a.id, a.move);
    }
  }

  lemma {:induction false} LogoutsAreCounted(states: seq<State>, actions: seq<Action>)
    requires IsRun(states, actions)
    ensures |Last(states).logouts| == |states[0].logouts| + SentByLogouts(actions)
  {
    if actions != [] {
      var n := |actions| - 1;
      RunPrefix(states, actions, n);
      LogoutsAreCounted(states[..n + 1], actions[..n]);
      assert Last(states[..n + 1]) == states[n];
      StepCountsLogouts(states[n], actions[n], states[n + 1]);
      assert [actions[n]][..0] == [];
    }
  }

  /** The number of refresh requests under way: at most one of the worker, one for each that a
    worker gave up or died with and which the server has not seen yet, and those that
    sign-outs sent outside the single flight. */
  lemma RequestsUnderWayExactly(states: seq<State>, actions: seq<Action>)
    requires IsRun(states, actions) && SingleFlight(states[0])
    requires states[0].orphans == map[] && states[0].logouts == map[]
    ensures |Last(states).logouts| == SentByLogouts(actions)
    ensures
      var s := Last(states);
      && |UnderWay(s)| == |Outstanding(s.refreshes)| + Orphaned(states, actions) - Arrived(actions)
      && |Outstanding(s.refreshes)| <= 1
    ensures Orphaned(states, actions) == 0 ==> |UnderWay(Last(states))| <= 1
  {
    OrphansAreCounted(states, actions);
    LogoutsAreCounted(states, actions);
    var s := Last(states);
    if s.refreshes == map[] {
      assert Outstanding(s.refreshes) == map[];
      assert UnderWay(s) == s.orphans.Keys;
    } else {
      var id :| id in s.refreshes;
      OnlyRefresh(s, id);
      OneOrphanMore(s, id);
      assert UnderWay(s) == (s.orphans + Outstanding(s.refreshes)).Keys;
    }
  }

  /** So two requests with one token can be under way, after a worker died with the first. */
  lemma TwoRequestsAfterADeath(s: State) returns (states: seq<State>, actions: seq<Action>)
    requires s.server.Valid() && IsComplete(s.local) && !s.inflight && s.refreshes == map[] && s.orphans == map[]
    ensures IsRun(states, actions) && states[0] == s
    ensures actions == [CallRefresh(0), Refreshing(0, Loaded), WorkerDies(false), CallRefresh(1), Refreshing(1, Loaded)]
    ensures Last(states).orphans == map[0 := s.local.token.value]
    ensures Last(states).refreshes == map[1 := Requesting(s.local.token.value)]
  {
    hide IsRun;
    states, actions := [s], [];
    assert IsRun(states, actions) by { RunOfOne(s); }
    states, actions := SendRequest(states, actions, 0);
    OutstandingOfOne(0, Requesting(s.local.token.value));
    hide Outstanding;
    ghost var sent := Last(states);
    assert map[] + Outstanding(sent.refreshes) == Outstanding(sent.refreshes);
    states, actions := Act(states, actions, WorkerDies(false));
    states, actions := SendRequest(states, actions, 1);
  }

  lemma SendRequest(before: seq<State>, played: seq<Action>, id: Id) returns (states: seq<State>, actions: seq<Action>)
    requires IsRun(before, played)
    requires Last(before).server.Valid() && IsComplete(Last(before).local) && !Last(before).inflight
    requires Last(before).refreshes == map[] && id !in Last(before).orphans
    ensures IsRun(states, actions) && states[0] == before[0]
    ensures actions == played + [CallRefresh(id), Refreshing(id, Loaded)]
    ensures states != [] && Last(states) ==
      Last(before).(inflight := true, refreshes := map[id := Requesting(Last(before).local.token.value)])
  {
    hide IsRun, Outstanding;
    states, actions := Act(before, played, CallRefresh(id));
    states, actions := Act(states, actions, Refreshing(id, Loaded));
  }

  lemma ClientKeepsReply(s: State, a: Action, id: Id)
    requires Enabled(s, a) && !a.Refreshing? && !a.WorkerDies? && SingleFlight(s) && id in s.refreshes
    ensures StepClient(s, a).refreshes == s.refreshes
  {
    hide Outstanding;
  }

  /** A reply is lost on its way, or not stored, or the worker dies. */
  predicate DropsReply(a: Action) {
    a.WorkerDies? || (a.Refreshing? && (a.move.ReplyLost? || a.move.SaveFails?))
  }

  /** The reply waits for its worker until it is stored or dropped. */
  lemma ReplyWaits(s: State, a: Action, t: State, id: Id, token: Token)
    requires Next(s, a, t) && SingleFlight(s) && id in s.refreshes && s.refreshes[id] == Answered(Tokens(token))
    ensures
      || (a == Refreshing(id, ReplyArrives) && t.local.token == Some(token))
      || DropsReply(a)
      || (id in t.refreshes && t.refreshes[id] == Answered(Tokens(token)))
  {
    StepParts(s, a, t);
    OnlyRefresh(s, id);
    hide StepRefresh, StepClient, StepServer, Server.Valid, Enabled, Next, SingleFlight;
    if a.Refreshing? {
      assert a.id == id;
    } else if !a.WorkerDies? {
      ClientKeepsReply(s, a, id);
    }
  }

  /** The next request is sent only after the rotated token is stored: from a reply to the
    next request, that token was stored or its reply was dropped. */
  lemma {:induction false} NextRequestAfterStored(states: seq<State>, actions: seq<Action>, id: Id, token: Token)
    requires IsRun(states, actions) && SingleFlight(states[0])
    requires id in states[0].refreshes && states[0].refreshes[id] == Answered(Tokens(token))
    requires Outstanding(Last(states).refreshes) != map[]
    ensures exists k :: 0 <= k < |actions| && IsStoredOrDropped(states, actions, k, id, token)
  {
    hide SingleFlight;
    if forall k :: 0 <= k < |actions| ==> !IsStoredOrDropped(states, actions, k, id, token) {
      StillWaiting(states, actions, id, token);
      OnlyRefresh(Last(states), id);
      OutstandingOfOne(id, Last(states).refreshes[id]);
    }
  }

  ghost predicate IsStoredOrDropped(states: seq<State>, actions: seq<Action>, k: nat, id: Id, token: Token)
    requires k < |actions| < |states|
  {
    || (actions[k] == Refreshing(id, ReplyArrives) && states[k + 1].local.token == Some(token))
    || DropsReply(actions[k])
  }

  lemma {:induction false} StillWaiting(states: seq<State>, actions: seq<Action>, id: Id, token: Token)
    requires IsRun(states, actions) && SingleFlight(states[0])
    requires id in states[0].refreshes && states[0].refreshes[id] == Answered(Tokens(token))
    requires forall k :: 0 <= k < |actions| ==> !IsStoredOrDropped(states, actions, k, id, token)
    ensures SingleFlight(Last(states))
    ensures id in Last(states).refreshes && Last(states).refreshes[id] == Answered(Tokens(token))
  {
    hide SingleFlight;
    if actions != [] {
      var n := |actions| - 1;
      RunPrefix(states, actions, n);
      var front, done := states[..n + 1], actions[..n];
      forall k | 0 <= k < n ensures !IsStoredOrDropped(front, done, k, id, token) {
        assert !IsStoredOrDropped(states, actions, k, id, token);
      }
      StillWaiting(front, done, id, token);
      assert Last(front) == states[n];
      assert !IsStoredOrDropped(states, actions, n, id, token);
      ReplyWaits(states[n], actions[n], states[n + 1], id, token);
      StepKeepsSingleFlight(states[n], actions[n], states[n + 1]);
    }
  }

  // --- Sane states --------------------------------------------------------------------------

  /** The token a running refresh is about to use or to store. */
  function Carried(r: Refresh): Option<Token> {
    match r
    case Loading(found) => found
    case Requesting(t) => Some(t)
    case Answered(Tokens(t)) => Some(t)
    case _ => None
  }

  /** What a token was issued for never changes. */
  ghost predicate KeepsOwners(a: Server, b: Server) {
    b.Valid() && forall k :: k in a.owner ==> k in b.owner && b.owner[k] == a.owner[k]
  }

  lemma StepKeepsOwners(s: State, a: Action, t: State)
    requires Next(s, a, t)
    ensures KeepsOwners(s.server, t.server)
  {
    StepParts(s, a, t);
    assert forall token :: KeepsOwners(s.server, ServerRefresh(s.server, token).0);
    hide ServerRefresh, StepRefresh, StepClient;
  }

  predicate IsKnown(server: Server, t: Option<Token>) {
    t.Some? ==> t.value in server.owner
  }

  ghost predicate AreKnown(server: Server, c: State) {
    IsKnown(server, c.local.token) && forall id :: id in c.refreshes ==> IsKnown(server, Carried(c.refreshes[id]))
  }

  /** One refresh at a time, and every token in use or stored was issued by the server. */
  ghost predicate IsSane(s: State) {
    s.server.Valid() && SingleFlight(s) && AreKnown(s.server, s)
  }

  lemma MoveKeepsKnown(s: State, id: Id, m: Move)
    requires IsSane(s) && id in s.refreshes && CanMove(s.refreshes[id], m)
    requires !m.ServerRefreshes? && !m.EndRefresh?
    ensures AreKnown(s.server, StepRefresh(s, id, m))
  {
    OnlyRefresh(s, id);
    assert IsKnown(s.server, Carried(s.refreshes[id]));
    hide Server.Valid, ServerRefresh, SingleFlight;
  }

  lemma EndKeepsKnown(s: State, id: Id)
    requires IsSane(s) && id in s.refreshes && s.refreshes[id].Ending?
    ensures AreKnown(s.server, StepRefresh(s, id, EndRefresh))
  {
    OnlyRefresh(s, id);
    hide Server.Valid, ServerRefresh, SingleFlight;
  }

  lemma ClientKeepsKnown(s: State, a: Action)
    requires IsSane(s) && Enabled(s, a) && !a.Refreshing? && !a.Login?
    ensures AreKnown(s.server, StepClient(s, a))
  {
    hide Server.Valid, Outstanding, CanMove, SingleFlight;
  }

  lemma StepStaysSane(s: State, a: Action, t: State)
    requires Next(s, a, t) && IsSane(s)
    ensures IsSane(t)
  {
    StepKeepsSingleFlight(s, a, t);
    StepParts(s, a, t);
    ServerStaysValid(s, a);
    StepKeepsOwners(s, a, t);
    hide SingleFlight, Server.Valid, StepRefresh, StepClient, Next, Enabled, ServerRefresh, KeepsOwners, AreKnown;
    if a.Login? {
    } else if !a.Refreshing? {
      ClientKeepsKnown(s, a);
    } else if a.move.ServerRefreshes? {
    } else if a.move.EndRefresh? {
      EndKeepsKnown(s, a.id);
    } else {
      MoveKeepsKnown(s, a.id, a.move);
    }
  }

  /** From a sane state, as a fresh install is one, every run is sane. */
  lemma {:induction false} RunsStaySane(states: seq<State>, actions: seq<Action>)
    requires IsRun(states, actions) && IsSane(states[0])
    ensures forall s :: s in states ==> IsSane(s)
  {
    hide IsSane;
    if actions != [] {
      var n := |actions| - 1;
      RunPrefix(states, actions, n);
      RunsStaySane(states[..n + 1], actions[..n]);
      assert states[..n + 1][n] == states[n];
      StepStaysSane(states[n], actions[n], states[n + 1]);
      assert states == states[..n + 1] + [states[n + 1]];
    }
  }
}
