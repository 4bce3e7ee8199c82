/**
  How long the tags answered by LIST_ENTRY_TAGS are kept: what each step does to the caches and
  to what the server shows, and what a lock, a write or the end of the worker clears.
  */
module TagsLifetime {
  import opened Prelude
  import opened ListingStamp
  import opened TagsCache

  // --- What the server shows ---------------------------------------------------------------

  predicate IsShownAfter(sv: Server, a: Action)
    requires IsServerAction(a)
  {
    match a
    case Create(id, _, _, own) => id !in sv.trashed && (own || id in sv.own || id in sv.shared)
    case Trash(_) => false
    case Purge(_) => false
    case Restore(id) => id in sv.own || id in sv.shared
    case Share(id) => id !in sv.trashed
    case Unshare(id) => id !in sv.trashed && id in sv.own
    case _ => IsListed(sv, a.id)
  }

  function EntryAfter(sv: Server, a: Action): Entry
    requires IsServerAction(a) && (a.Create? || a.id in sv.entries)
  {
    match a
    case Write(id, tags) => Entry(Record(sv.clock + 1, tags), id in sv.keyed)
    case Create(id, updated, tags, _) => Entry(Record(updated, tags), id in sv.keyed)
    case GiveKey(id) => Entry(sv.entries[id], true)
    case TakeKey(id) => Entry(sv.entries[id], false)
    case _ => Entry(sv.entries[a.id], a.id in sv.keyed)
  }

  /** An action of any device shows, hides or changes its own entry, and no other. */
  lemma ServerShowsExactly(sv: Server, a: Action, id: Id)
    requires IsServerAction(a) && (a.Create? || a.TakeKey? || a.Unshare? || a.id in sv.entries)
    ensures var v, w := Live(sv), Live(StepServer(sv, a));
      if id != a.id then (id in w <==> id in v) && (id in v ==> w[id] == v[id])
      else if a.id in sv.entries || a.Create? then
        (id in w <==> IsShownAfter(sv, a)) && (id in w ==> w[id] == EntryAfter(sv, a))
      else id !in w
  {
  }

  // --- Locking --------------------------------------------------------------------------------

  /** While the vault is locked no tags are kept in the clear. */
  predicate KeepsNoneLocked(s: State) {
    !s.unlocked ==> s.tagsCache.None?
  }

  lemma LockedStep(s: State, a: Action)
    requires Enabled(s, a) && KeepsNoneLocked(s)
    ensures KeepsNoneLocked(Step(s, a))
  {
    hide Lists, Stamp, Versions, TagsOf, Live;
  }

  /** Also when a lock falls into a decryption that is under way. */
  lemma {:induction false} LockedRunsKeepNone(states: seq<State>, actions: seq<Action>)
    requires IsRun(states, actions) && KeepsNoneLocked(states[0])
    ensures forall s :: s in states ==> KeepsNoneLocked(s)
  {
    hide Step, Enabled;
    if actions != [] {
      var n := |actions| - 1;
      LockedRunsKeepNone(states[..n + 1], actions[..n]);
      assert states[..n + 1][n] == states[n];
      LockedStep(states[n], actions[n]);
      assert states == states[..n + 1] + [states[n + 1]];
    }
  }

  // --- Clearing -------------------------------------------------------------------------------

  function Now(s: State): Time
    requires s.history != []
  {
    |s.history| - 1
  }

  function TagsCacheAfter(s: State, a: Action): Option<Cached>
    requires a.Finish? ==> a.h in s.handlers && s.handlers[a.h].Decrypting? && s.handlers[a.h].read < |s.history|
  {
    if a.WorkerDies? || a.Lock? || a.ClearTags? then None
    else if a.Finish? && s.unlocked then
      var l, read := s.handlers[a.h].listing, s.handlers[a.h].read;
      Some(Cached(Stamp(l.rows), TagsOf(s.history[read]), l, read))
    else s.tagsCache
  }

  function EntriesCacheAfter(s: State, a: Action): Option<Listing>
    requires s.history != [] && (a.StoreListing? ==> a.h in s.refreshes)
  {
    if a.WorkerDies? || a.Lock? then None
    else if a.ReadList? then Some(Listing(a.rows, Now(s)))
    else if a.StoreListing? then Some(s.refreshes[a.h])
    else s.entriesCache
  }

  /** What each step leaves in the caches, and whether the vault is open. */
  lemma StepCachesExactly(s: State, a: Action)
    requires Enabled(s, a) && s.history != []
    ensures Step(s, a).tagsCache == TagsCacheAfter(s, a)
    ensures Step(s, a).entriesCache == EntriesCacheAfter(s, a)
    ensures Step(s, a).unlocked <==> a.Unlock? || (s.unlocked && !a.Lock?)
  {
    hide Lists, Stamp, Versions, TagsOf, Live, StepServer;
  }

  /** Nothing kept or under way was read before t, nor any answer from the n-th on. */
  predicate HasNewTags(s: State, t: Time, n: nat) {
    && t < |s.history| && n <= |s.answers|
    && (s.tagsCache.Some? ==> s.tagsCache.value.read >= t)
    && (forall h :: h in s.handlers && s.handlers[h].Decrypting? ==> s.handlers[h].read >= t)
    && forall k :: n <= k < |s.answers| ==> s.answers[k].read >= t
  }

  predicate IsListedSince(p: Phase, t: Time) {
    !p.AwaitList? ==> p.listing.time >= t
  }

  /** Nor was anything listed before t. */
  predicate HasNewListings(s: State, t: Time, n: nat) {
    && t < |s.history| && n <= |s.answers|
    && (s.entriesCache.Some? ==> s.entriesCache.value.time >= t)
    && (forall h :: h in s.refreshes ==> s.refreshes[h].time >= t)
    && (forall h :: h in s.handlers ==> IsListedSince(s.handlers[h], t))
    && forall k :: n <= k < |s.answers| ==> s.answers[k].listing.time >= t
  }

  lemma NewTagsStep(s: State, a: Action, t: Time, n: nat)
    requires Enabled(s, a) && HasNewTags(s, t, n)
    ensures HasNewTags(Step(s, a), t, n)
  {
    hide Lists, Stamp, Versions, TagsOf, Live, StepServer;
  }

  lemma NewListingsStep(s: State, a: Action, t: Time, n: nat)
    requires Enabled(s, a) && HasNewListings(s, t, n)
    ensures HasNewListings(Step(s, a), t, n)
  {
    hide Lists, Stamp, Versions, TagsOf, Live, StepServer;
  }

  /** The tags are dropped with no answer under way. */
  predicate ForgetsTags(s: State, a: Action) {
    a.WorkerDies? || ((a.Lock? || a.ClearTags?) && s.handlers == map[])
  }

  /** And the listing, with none under way. */
  predicate ForgetsAll(s: State, a: Action) {
    a.WorkerDies? || (a.Lock? && s.handlers == map[] && s.refreshes == map[])
  }

  lemma ForgettingStep(s: State, a: Action)
    requires Enabled(s, a) && s.history != []
    ensures ForgetsTags(s, a) ==> HasNewTags(Step(s, a), Now(s), |s.answers|)
    ensures ForgetsAll(s, a) ==> HasNewListings(Step(s, a), Now(s), |s.answers|)
  {
    hide Lists, Stamp, Versions, TagsOf, Live, StepServer;
  }

  lemma {:induction false} NewSince(states: seq<State>, actions: seq<Action>, k: nat, n: nat)
    requires IsRun(states, actions) && k < n <= |actions| && states[k].history != []
    ensures ForgetsTags(states[k], actions[k]) ==>
      HasNewTags(states[n], Now(states[k]), |states[k].answers|)
    ensures ForgetsAll(states[k], actions[k]) ==>
      HasNewListings(states[n], Now(states[k]), |states[k].answers|)
  {
    hide Step, Enabled, HasNewTags, HasNewListings, ForgetsTags, ForgetsAll;
    if k < n - 1 {
      NewSince(states, actions, k, n - 1);
      var s, t, m := states[n - 1], Now(states[k]), |states[k].answers|;
      if HasNewTags(s, t, m) {
        NewTagsStep(s, actions[n - 1], t, m);
      }
      if HasNewListings(s, t, m) {
        NewListingsStep(s, actions[n - 1], t, m);
      }
    } else {
      ForgettingStep(states[k], actions[k]);
    }
  }

  /** In every run, what is answered after a write here, a lock or a restart was read after it; after
    a lock or a restart it was listed after it too. An answer that is under way across a write
    or a lock is excepted, but none outlives the worker. */
  lemma AnswersAreReadAfterAClear(states: seq<State>, actions: seq<Action>, k: nat, j: nat)
    requires IsRun(states, actions) && k < |actions| && states[k].history != []
    requires |states[k].answers| <= j < |states[|actions|].answers|
    ensures var a := states[|actions|].answers[j];
      && (ForgetsTags(states[k], actions[k]) ==> a.read >= |states[k].history| - 1)
      && (ForgetsAll(states[k], actions[k]) ==> a.listing.time >= |states[k].history| - 1)
  {
    NewSince(states, actions, k, |actions|);
  }

  /** While the vault is locked nothing is answered, but for what was under way. */
  lemma {:induction false} LockedAnswersNothing(states: seq<State>, actions: seq<Action>)
    requires IsRun(states, actions) && !states[0].unlocked && states[0].handlers == map[]
    requires forall k :: 0 <= k < |actions| ==> !actions[k].Unlock?
    ensures var t := states[|actions|];
      !t.unlocked && t.handlers == map[] && t.answers == states[0].answers
  {
    if actions != [] {
      var n := |actions| - 1;
      LockedAnswersNothing(states[..n + 1], actions[..n]);
      assert Enabled(states[n], actions[n]) && states[n + 1] == Step(states[n], actions[n]);
      hide Lists, Stamp, Versions, TagsOf, Live, StepServer;
    }
  }
}
