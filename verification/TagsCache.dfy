/**
  The tags cache of the extension: decrypted tags of every entry, kept under the stamp of
  the listing they were asked for.

  Server and client steps interleave freely. Each client action is the code between two
  awaits; a server read is an action of its own, at some moment of the server's history.
  */
module TagsCache {
  import opened Prelude
  import opened ListingStamp

  type Time = nat
  type Handler = nat

  datatype Record = Record(updated: nat, tags: seq<string>)

  /** An entry of the full listing; readable if it comes with a key the device can use. */
  datatype Entry = Entry(record: Record, readable: bool)

  /** What the device can list. */
  type View = map<Id, Entry>

  function Versions(v: View): map<Id, nat> {
    map id | id in v :: v[id].record.updated
  }

  predicate IsTagged(e: Entry) {
    e.readable && e.record.tags != []
  }

  /** The answer for a view: the tags of each entry that can be read and has any. */
  function TagsOf(v: View): map<Id, seq<string>> {
    map id | id in v && IsTagged(v[id]) :: v[id].record.tags
  }

  /** The tables of the server, as far as they concern the user of this device: the entries
    that are the user's own or shared with the user, and those the user has a key for. An id
    is never used twice. */
  datatype Server = Server(entries: map<Id, Record>, trashed: set<Id>, own: set<Id>, shared: set<Id>,
                           keyed: set<Id>, used: set<Id>, clock: nat)

  predicate IsListed(sv: Server, id: Id) {
    id in sv.entries && id !in sv.trashed && (id in sv.own || id in sv.shared)
  }

  function Live(sv: Server): View {
    map id | id in sv.entries && IsListed(sv, id) :: Entry(sv.entries[id], id in sv.keyed)
  }

  /** A listing as it arrived, and the moment it was read. */
  datatype Listing = Listing(rows: seq<Row>, time: Time)

  /** The stamp and the tags; listing and read say where they come from. */
  datatype Cached = Cached(stamp: string, tags: map<Id, seq<string>>, listing: Listing, read: Time)

  /** A running LIST_ENTRY_TAGS, by what it waits for. */
  datatype Phase =
    | AwaitList
    | Listed(listing: Listing)
    | AwaitFull(listing: Listing)
    | Decrypting(listing: Listing, read: Time)

  datatype Answer = Answer(tags: map<Id, seq<string>>, listing: Listing, read: Time, fromCache: bool)

  datatype State = State(
    server: Server,
    history: seq<View>,             // every view the server has shown, the current one last
    unlocked: bool,
    entriesCache: Option<Listing>,
    tagsCache: Option<Cached>,
    refreshes: map<Handler, Listing>, // listings under way to setEntriesCache
    handlers: map<Handler, Phase>,
    answers: seq<Answer>)

  datatype Action =
    // any device
    | Write(id: Id, tags: seq<string>)
    | Create(id: Id, updated: nat, tags: seq<string>, own: bool)
    | Trash(id: Id)
    | Restore(id: Id)
    | Share(id: Id)
    | Unshare(id: Id)
    | GiveKey(id: Id) // a request of its own after a create, before a share and after a revoke
    | TakeKey(id: Id)
    | Purge(id: Id)
    // this one
    | Ask(h: Handler)
    | ReadList(h: Handler, rows: seq<Row>)
    | Check(h: Handler)
    | ReadFull(h: Handler)
    | Finish(h: Handler)
    | StartListing(h: Handler, rows: seq<Row>)
    | StoreListing(h: Handler)
    | ClearTags
    | Lock
    | Unlock
    | WorkerDies

  ghost predicate Enabled(s: State, a: Action)
  {
    match a
    case Write(id, _) => id in s.server.entries
    case Create(id, updated, _, _) => id !in s.server.used && updated <= s.server.clock && IsPlain(id)
    case Trash(id) => id in s.server.entries && id !in s.server.trashed
    case Restore(id) => id in s.server.entries && id in s.server.trashed
    case Share(id) => id in s.server.entries
    case Unshare(id) => id in s.server.shared
    case GiveKey(id) => id in s.server.entries
    case TakeKey(id) => id in s.server.keyed
    case Purge(id) => id in s.server.entries
    case Ask(h) => h !in s.handlers && s.unlocked
    case ReadList(h, rows) => h in s.handlers && s.handlers[h].AwaitList? && Lists(rows, Versions(Live(s.server)))
    case Check(h) => h in s.handlers && s.handlers[h].Listed?
    case ReadFull(h) => h in s.handlers && s.handlers[h].AwaitFull?
    case Finish(h) => h in s.handlers && s.handlers[h].Decrypting? && s.handlers[h].read < |s.history|
    case StartListing(h, rows) => h !in s.refreshes && Lists(rows, Versions(Live(s.server)))
    case StoreListing(h) => h in s.refreshes
    case _ => true
  }

  predicate IsServerAction(a: Action) {
    || a.Write? || a.Create? || a.Trash? || a.Restore? || a.Share? || a.Unshare? || a.GiveKey? || a.TakeKey?
    || a.Purge?
  }

  /** What a device does to the server. */
  function StepServer(sv: Server, a: Action): Server {
    match a
    case Write(id, tags) =>
      sv.(clock := sv.clock + 1, entries := sv.entries[id := Record(sv.clock + 1, tags)])
    case Create(id, updated, tags, own) =>
      sv.(used := sv.used + {id}, entries := sv.entries[id := Record(updated, tags)],
          own := if own then sv.own + {id} else sv.own)
    case Trash(id) => sv.(trashed := sv.trashed + {id})
    case Restore(id) => sv.(trashed := sv.trashed - {id})
    case Share(id) => sv.(shared := sv.shared + {id})
    case Unshare(id) => sv.(shared := sv.shared - {id})
    case GiveKey(id) => sv.(keyed := sv.keyed + {id})
    case TakeKey(id) => sv.(keyed := sv.keyed - {id})
    case Purge(id) => sv.(entries := sv.entries - {id})
    case _ => sv
  }

  ghost function Step(s: State, a: Action): (t: State)
    requires Enabled(s, a)
  {
    if IsServerAction(a) then
      var sv := StepServer(s.server, a);
      s.(server := sv, history := s.history + [Live(sv)])
    else StepClient(s, a)
  }

  ghost function StepClient(s: State, a: Action): (t: State)
    requires Enabled(s, a) && !IsServerAction(a)
    ensures t.server == s.server && t.history == s.history
  {
    var time := if s.history == [] then 0 else |s.history| - 1;
    match a
    case Ask(h) =>
      s.(handlers := s.handlers[h := if s.entriesCache.Some? then Listed(s.entriesCache.value) else AwaitList])
    case ReadList(h, rows) =>
      var l := Listing(rows, time);
      s.(handlers := s.handlers[h := Listed(l)], entriesCache := Some(l))
    case Check(h) =>
      var l := s.handlers[h].listing;
      if s.tagsCache.Some? && s.tagsCache.value.stamp == Stamp(l.rows) then
        s.(handlers := s.handlers - {h},
          answers := s.answers + [Answer(s.tagsCache.value.tags, l, s.tagsCache.value.read, true)])
      else s.(handlers := s.handlers[h := AwaitFull(l)])
    case ReadFull(h) => s.(handlers := s.handlers[h := Decrypting(s.handlers[h].listing, time)])
    case Finish(h) =>
      var l, read := s.handlers[h].listing, s.handlers[h].read;
      var tags := TagsOf(s.history[read]);
      // A lock while decrypting already cleared the cache.
      s.(handlers := s.handlers - {h}, answers := s.answers + [Answer(tags, l, read, false)],
         tagsCache := if s.unlocked then Some(Cached(Stamp(l.rows), tags, l, read)) else s.tagsCache)
    case StartListing(h, rows) => s.(refreshes := s.refreshes[h := Listing(rows, time)])
    case StoreListing(h) => s.(refreshes := s.refreshes - {h}, entriesCache := Some(s.refreshes[h]))
    case ClearTags => s.(tagsCache := None)
    case Lock => s.(unlocked := false, entriesCache := None, tagsCache := None)
    case Unlock => s.(unlocked := true)
    case WorkerDies => s.(entriesCache := None, tagsCache := None, refreshes := map[], handlers := map[])
    case _ => s
  }

  // --- The server's history -----------------------------------------------------------

  /** What a record may become: each data write strictly bumps updated. */
  predicate Later(earlier: Record, later: Record) {
    earlier.updated < later.updated || earlier == later
  }

  /** Each record only becomes later, however often it leaves and comes back. */
  ghost predicate HistoryOk(history: seq<View>) {
    && (forall i, j, id :: 0 <= i <= j < |history| && id in history[i] && id in history[j] ==>
      Later(history[i][id].record, history[j][id].record))
    && (forall i, id :: 0 <= i < |history| && id in history[i] ==> IsPlain(id))
  }

  /** A record shown before: what the server has of the entry now is no earlier. */
  predicate IsPast(r: Record, sv: Server, id: Id) {
    && id in sv.used && r.updated <= sv.clock && IsPlain(id)
    && (id in sv.entries ==> Later(r, sv.entries[id]))
  }

  ghost predicate BooksOk(sv: Server) {
    forall id :: id in sv.entries ==> IsPast(sv.entries[id], sv, id)
  }

  ghost predicate ServerOk(s: State) {
    && s.history != [] && s.history[|s.history| - 1] == Live(s.server)
    && HistoryOk(s.history) && BooksOk(s.server)
    && forall i, id :: 0 <= i < |s.history| && id in s.history[i] ==> IsPast(s.history[i][id].record, s.server, id)
  }

  lemma StepKeepsServer(s: State, a: Action)
    requires ServerOk(s) && Enabled(s, a)
    ensures ServerOk(Step(s, a))
  {
    if IsServerAction(a) {
      var sv := StepServer(s.server, a);
      hide HistoryOk, BooksOk, IsPast, StepServer, Live;
    }
  }

  // --- The client's copies ------------------------------------------------------------

  ghost predicate ListingOk(history: seq<View>, l: Listing) {
    l.time < |history| && Lists(l.rows, Versions(history[l.time]))
  }

  /** Cached tags were read at some moment from their listing on. */
  ghost predicate CachedOk(history: seq<View>, c: Cached) {
    && ListingOk(history, c.listing) && c.listing.time <= c.read < |history|
    && c.stamp == Stamp(c.listing.rows) && c.tags == TagsOf(history[c.read])
  }

  ghost predicate PhaseOk(history: seq<View>, p: Phase) {
    match p
    case AwaitList => true
    case Listed(l) => ListingOk(history, l)
    case AwaitFull(l) => ListingOk(history, l)
    case Decrypting(l, read) => ListingOk(history, l) && l.time <= read < |history|
  }

  /** An answer holds the tags of some moment, under a listing with the stamp of its own. */
  ghost predicate AnswerOk(history: seq<View>, a: Answer) {
    && ListingOk(history, a.listing) && a.read < |history| && a.tags == TagsOf(history[a.read])
    && (!a.fromCache ==> a.listing.time <= a.read)
    && exists listed: Listing ::
      ListingOk(history, listed) && listed.time <= a.read && Stamp(listed.rows) == Stamp(a.listing.rows)
  }

  ghost predicate ClientOk(s: State) {
    && (s.entriesCache.Some? ==> ListingOk(s.history, s.entriesCache.value))
    && (s.tagsCache.Some? ==> CachedOk(s.history, s.tagsCache.value))
    && (forall h :: h in s.refreshes ==> ListingOk(s.history, s.refreshes[h]))
    && (forall h :: h in s.handlers ==> PhaseOk(s.history, s.handlers[h]))
    && (forall k :: 0 <= k < |s.answers| ==> AnswerOk(s.history, s.answers[k]))
  }

  lemma HistoryGrows(h: seq<View>, v: View)
    ensures forall l :: ListingOk(h, l) ==> ListingOk(h + [v], l)
    ensures forall c :: CachedOk(h, c) ==> CachedOk(h + [v], c)
    ensures forall p :: PhaseOk(h, p) ==> PhaseOk(h + [v], p)
    ensures forall a :: AnswerOk(h, a) ==> AnswerOk(h + [v], a)
  {
    hide Lists, Stamp, TagsOf, Versions;
    forall a | AnswerOk(h, a) ensures AnswerOk(h + [v], a) {
      var listed: Listing :|
        ListingOk(h, listed) && listed.time <= a.read && Stamp(listed.rows) == Stamp(a.listing.rows);
      assert ListingOk(h + [v], listed);
    }
  }

  lemma StepKeepsClient(s: State, a: Action)
    requires s.history != [] && s.history[|s.history| - 1] == Live(s.server) && ClientOk(s) && Enabled(s, a)
    ensures ClientOk(Step(s, a))
  {
    if IsServerAction(a) {
      HistoryGrows(s.history, Live(StepServer(s.server, a)));
    } else {
      ClientStepKeepsClient(s, a);
    }
    hide ListingOk, CachedOk, PhaseOk, AnswerOk, StepServer, StepClient;
  }

  lemma ClientStepKeepsClient(s: State, a: Action)
    requires s.history != [] && ClientOk(s) && Enabled(s, a) && !IsServerAction(a)
    requires s.history[|s.history| - 1] == Live(s.server)
    ensures ClientOk(StepClient(s, a))
  {
    hide Stamp, TagsOf, Lists, Versions;
  }

  // --- What an answer from the cache is worth -------------------------------------------

  /** Every entry with tags to read in either view is in both and can be read in both. */
  ghost predicate SameTagged(a: View, b: View) {
    forall id :: (id in a && IsTagged(a[id])) || (id in b && IsTagged(b[id])) ==>
      id in a && id in b && a[id].readable == b[id].readable
  }

  lemma UntouchedBetween(history: seq<View>, first: Time, read: Time, asked: Time)
    requires HistoryOk(history) && first <= read <= asked < |history|
    requires Versions(history[first]) == Versions(history[asked])
    ensures forall id :: id in history[read] && id in history[asked] ==>
      history[read][id].record == history[asked][id].record
  {
    forall id | id in history[read] && id in history[asked]
      ensures history[read][id].record == history[asked][id].record
    {
      assert id in Versions(history[asked]) && id in Versions(history[first]);
      assert Versions(history[asked])[id] == Versions(history[first])[id];
    }
  }

  lemma SameTagsExactly(r: View, l: View)
    requires forall id :: id in r && id in l ==> r[id].record == l[id].record
    ensures TagsOf(r) == TagsOf(l) <==> SameTagged(r, l)
  {
    forall id | (id in r && IsTagged(r[id])) || (id in l && IsTagged(l[id]))
      ensures id in TagsOf(r) || id in TagsOf(l)
    {
    }
  }

  /** The tags read at one moment, asked for again under an equal stamp later, are right
    for the later listing exactly if no entry with tags to read came or went. */
  lemma LaterListingExactly(history: seq<View>, first: Time, read: Time, asked: Time)
    requires HistoryOk(history) && first <= read <= asked < |history|
    requires Versions(history[first]) == Versions(history[asked])
    ensures TagsOf(history[read]) == TagsOf(history[asked]) <==> SameTagged(history[read], history[asked])
  {
    UntouchedBetween(history, first, read, asked);
    SameTagsExactly(history[read], history[asked]);
  }

  /** Entry by entry: all tags of exactly those entries of the view that can be read and have any. */
  ghost predicate AreTagsOf(tags: map<Id, seq<string>>, v: View) {
    && (forall id :: id in tags <==> id in v && v[id].readable && v[id].record.tags != [])
    && (forall id :: id in tags ==> tags[id] == v[id].record.tags)
  }

  lemma TagsOfExactly(tags: map<Id, seq<string>>, v: View)
    ensures AreTagsOf(tags, v) <==> tags == TagsOf(v)
  {
  }

  /** The tags the server held at some moment no earlier than the listing. */
  ghost predicate IsFresh(history: seq<View>, a: Answer) {
    exists t: Time :: a.listing.time <= t < |history| && AreTagsOf(a.tags, history[t])
  }

  lemma FreshAt(history: seq<View>, a: Answer, t: Time)
    requires a.listing.time <= t < |history| && a.tags == TagsOf(history[t])
    ensures IsFresh(history, a)
  {
    TagsOfExactly(a.tags, history[t]);
  }

  /** A cached answer is the server's tags at the moment they were read. If that was before
    the listing it answers for, it is right for that listing exactly if no entry with tags to
    read came or went in between; records in both views are the same in any case. */
  lemma CachedAnswerExactly(s: State, a: Answer)
    requires ServerOk(s) && AnswerOk(s.history, a)
    ensures a.listing.time <= a.read ==> IsFresh(s.history, a)
    ensures a.read < a.listing.time ==> var then_, now := s.history[a.read], s.history[a.listing.time];
      && (a.tags == TagsOf(now) <==> SameTagged(then_, now))
      && (forall id :: id in then_ && id in now ==> then_[id].record == now[id].record)
  {
    if a.listing.time <= a.read {
      FreshAt(s.history, a, a.read);
    } else {
      var listed: Listing :|
        ListingOk(s.history, listed) && listed.time <= a.read && Stamp(listed.rows) == Stamp(a.listing.rows);
      StampExactly(listed.rows, Versions(s.history[listed.time]), a.listing.rows, Versions(s.history[a.listing.time]));
      LaterListingExactly(s.history, listed.time, a.read, a.listing.time);
      UntouchedBetween(s.history, listed.time, a.read, a.listing.time);
    }
    hide HistoryOk, BooksOk, IsPast, Lists, Stamp, SameTagged, TagsOf, Versions, Live;
  }

  // --- Runs -------------------------------------------------------------------------------

  ghost predicate IsRun(states: seq<State>, actions: seq<Action>) {
    && |states| == |actions| + 1
    && forall k :: 0 <= k < |actions| ==>
        Enabled(states[k], actions[k]) && states[k + 1] == Step(states[k], actions[k])
  }

  ghost predicate IsOk(s: State) {
    ServerOk(s) && ClientOk(s)
  }

  lemma {:induction false} RunsStayOk(states: seq<State>, actions: seq<Action>)
    requires IsRun(states, actions) && IsOk(states[0])
    ensures forall s :: s in states ==> IsOk(s)
  {
    hide ServerOk, ClientOk;
    if actions != [] {
      var n := |actions| - 1;
      RunsStayOk(states[..n + 1], actions[..n]);
      assert states[..n + 1][n] == states[n];
      OkStep(states[n], actions[n]);
      assert states == states[..n + 1] + [states[n + 1]];
    }
  }

  lemma OkStep(s: State, a: Action)
    requires IsOk(s) && Enabled(s, a)
    ensures IsOk(Step(s, a))
  {
    hide BooksOk, HistoryOk, ClientOk, IsPast;
    StepKeepsServer(s, a);
    StepKeepsClient(s, a);
  }

  /** In every run, in whatever order listings, decryptions, edits here and elsewhere, locks
    and worker deaths land, an answer is fresh unless a tagged entry came or went between
    the reading of the tags and the listing. */
  lemma AnswersAreFreshUnlessEntriesMove(states: seq<State>, actions: seq<Action>, s: State, a: Answer)
    requires IsRun(states, actions) && IsOk(states[0]) && s in states && a in s.answers
    requires a.read < a.listing.time < |s.history| ==> SameTagged(s.history[a.read], s.history[a.listing.time])
    ensures IsFresh(s.history, a)
  {
    hide ServerOk, SameTagged;
    RunsStayOk(states, actions);
    assert AnswerOk(s.history, a);
    CachedAnswerExactly(s, a);
    if a.read < a.listing.time {
      FreshAt(s.history, a, a.listing.time);
    }
  }

  // --- When every answer is fresh -----------------------------------------------------------

  /** What a device shows only ever grows, and what it can read stays readable. */
  ghost predicate Grown(a: View, b: View) {
    forall id :: id in a ==> id in b && (a[id].readable ==> b[id].readable)
  }

  ghost predicate OnlyGrows(s: State) {
    && (forall i, j :: 0 <= i <= j < |s.history| ==> Grown(s.history[i], s.history[j]))
    && s.history != [] && s.history[|s.history| - 1] == Live(s.server)
  }

  /** A listed entry goes to the trash, is deleted, is no longer shared or loses its key. */
  predicate Leaves(s: State, a: Action) {
    (a.Trash? || a.Purge? || a.Unshare? || a.TakeKey?) && IsListed(s.server, a.id)
  }

  /** Tags are kept, or about to be, that were read at this moment. */
  predicate IsKept(s: State, t: Time) {
    || (s.tagsCache.Some? && s.tagsCache.value.read == t)
    || exists h :: h in s.handlers && s.handlers[h].Decrypting? && s.handlers[h].read == t
  }

  /** The key of an entry comes when its tags have been read in vain. */
  ghost predicate IsLateKey(s: State, a: Action) {
    && a.GiveKey?
    && exists t: Time :: t < |s.history| && IsKept(s, t) && a.id in s.history[t] && !s.history[t][a.id].readable
  }

  /** Nothing that was read in vain can be read by now. */
  ghost predicate IsSettled(s: State) {
    forall t: Time, id :: t < |s.history| && IsKept(s, t) && id in s.history[t] && id in Live(s.server) ==>
      (Live(s.server)[id].readable ==> s.history[t][id].readable)
  }

  lemma ServerActionGrows(s: State, a: Action)
    requires Enabled(s, a) && IsServerAction(a) && !Leaves(s, a)
    requires BooksOk(s.server)
    ensures Grown(Live(s.server), Live(StepServer(s.server, a)))
  {
  }

  lemma GrowStep(s: State, a: Action)
    requires Enabled(s, a) && OnlyGrows(s) && BooksOk(s.server) && !Leaves(s, a)
    ensures OnlyGrows(Step(s, a))
  {
    hide StepClient, Lists, Versions, Live, StepServer, BooksOk, Leaves;
    if IsServerAction(a) {
      ServerActionGrows(s, a);
    }
  }

  lemma OnlyKeysMakeReadable(s: State, a: Action)
    requires Enabled(s, a) && IsServerAction(a) && BooksOk(s.server)
    ensures
      var now, next := Live(s.server), Live(StepServer(s.server, a));
      forall id :: id in now && id in next && next[id].readable && !now[id].readable ==> a == GiveKey(id)
  {
  }

  lemma ServerActionSettles(s: State, a: Action)
    requires Enabled(s, a) && IsServerAction(a) && ClientOk(s) && OnlyGrows(s) && IsSettled(s)
    requires !Leaves(s, a) && !IsLateKey(s, a)
    requires BooksOk(s.server)
    ensures IsSettled(Step(s, a))
  {
    var now, next := Live(s.server), Live(StepServer(s.server, a));
    OnlyKeysMakeReadable(s, a);
    hide Live, StepServer, BooksOk, Leaves, IsListed, Lists, Versions, Stamp, TagsOf;
    forall t: Time, id | t < |s.history| && IsKept(s, t) && id in s.history[t]
      ensures id in now
    {
      assert Grown(s.history[t], now);
    }
    hide Grown;
  }

  lemma ClientActionSettles(s: State, a: Action)
    requires Enabled(s, a) && !IsServerAction(a) && OnlyGrows(s) && IsSettled(s)
    ensures IsSettled(StepClient(s, a))
  {
    var t := StepClient(s, a);
    assert forall k: Time :: IsKept(t, k) ==> IsKept(s, k) || k == |s.history| - 1;
    hide StepClient, Live, Lists, Versions, Stamp, TagsOf;
  }

  ghost predicate AllFresh(s: State) {
    forall k :: 0 <= k < |s.answers| ==> IsFresh(s.history, s.answers[k])
  }

  lemma FreshStays(history: seq<View>, v: View, a: Answer)
    requires IsFresh(history, a)
    ensures IsFresh(history + [v], a)
  {
    var t: Time :| a.listing.time <= t < |history| && AreTagsOf(a.tags, history[t]);
    assert (history + [v])[t] == history[t];
  }

  /** Kept tags are right for every later listing with an equal fingerprint. */
  lemma KeptTagsAreFresh(s: State, a: Answer)
    requires IsOk(s) && OnlyGrows(s) && IsSettled(s) && AnswerOk(s.history, a) && IsKept(s, a.read)
    ensures IsFresh(s.history, a)
  {
    CachedAnswerExactly(s, a);
    hide HistoryOk, BooksOk, IsPast, ClientOk, Lists, TagsOf, Versions, Stamp, Live, IsKept, Grown;
    if a.read < a.listing.time {
      var listed: Listing :|
        ListingOk(s.history, listed) && listed.time <= a.read && Stamp(listed.rows) == Stamp(a.listing.rows);
      StampExactly(listed.rows, Versions(s.history[listed.time]), a.listing.rows, Versions(s.history[a.listing.time]));
      GrowingShowsTheSame(s, listed.time, a.read, a.listing.time);
      FreshAt(s.history, a, a.listing.time);
    }
  }

  /** Between two moments with the same versions, a growing list shows the same entries, and
    with the same keys if what was read is settled. */
  lemma GrowingShowsTheSame(s: State, i: Time, j: Time, k: Time)
    requires OnlyGrows(s) && IsSettled(s) && IsKept(s, j)
    requires i <= j <= k < |s.history| && Versions(s.history[i]) == Versions(s.history[k])
    ensures SameTagged(s.history[j], s.history[k])
  {
    var a, b, c, now := s.history[i], s.history[j], s.history[k], Live(s.server);
    assert a.Keys == Versions(a).Keys == Versions(c).Keys == c.Keys;
    assert Grown(a, b) && Grown(b, c) && Grown(c, now) by {
      assert s.history[|s.history| - 1] == now;
    }
    forall id | id in b || id in c ensures id in b && id in c && b[id].readable == c[id].readable {
      assert id in c && id in a && id in b && id in now;
    }
    hide Live, IsKept, Versions;
  }

  /** Everything the runs below keep. */
  ghost predicate IsWell(s: State) {
    IsOk(s) && OnlyGrows(s) && IsSettled(s) && AllFresh(s)
  }

  lemma FreshStep(s: State, a: Action)
    requires IsWell(s) && Enabled(s, a)
    ensures AllFresh(Step(s, a))
  {
    if IsServerAction(a) {
      var v := Live(StepServer(s.server, a));
      forall k | 0 <= k < |s.answers| ensures IsFresh(s.history + [v], s.answers[k]) {
        FreshStays(s.history, v, s.answers[k]);
      }
    } else {
      ClientFreshStep(s, a);
    }
    hide IsFresh, IsOk, OnlyGrows, IsSettled, StepServer, StepClient, Live;
  }

  lemma ClientFreshStep(s: State, a: Action)
    requires IsWell(s) && Enabled(s, a) && !IsServerAction(a)
    ensures AllFresh(StepClient(s, a))
  {
    hide OnlyGrows, IsSettled, ServerOk, Lists, Stamp, Live, Versions, TagsOf;
    if a.Check? && s.tagsCache.Some? && s.tagsCache.value.stamp == Stamp(s.handlers[a.h].listing.rows) {
      var c, l := s.tagsCache.value, s.handlers[a.h].listing;
      var answer := Answer(c.tags, l, c.read, true);
      assert CachedOk(s.history, c) && PhaseOk(s.history, s.handlers[a.h]);
      assert AnswerOk(s.history, answer) && IsKept(s, c.read);
      KeptTagsAreFresh(s, answer);
    } else if a.Finish? {
      assert PhaseOk(s.history, s.handlers[a.h]);
      var l, read := s.handlers[a.h].listing, s.handlers[a.h].read;
      FreshAt(s.history, Answer(TagsOf(s.history[read]), l, read, false), read);
    }
    hide IsFresh;
  }

  lemma WellStep(s: State, a: Action)
    requires IsWell(s) && Enabled(s, a) && !Leaves(s, a) && !IsLateKey(s, a)
    ensures IsWell(Step(s, a))
  {
    OkStep(s, a);
    GrowStep(s, a);
    FreshStep(s, a);
    hide HistoryOk, IsPast, OnlyGrows, AllFresh, ClientOk, BooksOk, Leaves, IsLateKey, IsSettled, Live, StepServer,
      StepClient;
    if IsServerAction(a) {
      ServerActionSettles(s, a);
    } else {
      ClientActionSettles(s, a);
    }
  }

  /** So an answer can only be stale after an entry left the listing or a key came late: in a
    run without that, whatever is written, created, restored or shared, every answer is fresh. */
  lemma {:induction false} AnswersAreFreshUnlessEntriesLeave(states: seq<State>, actions: seq<Action>)
    requires IsRun(states, actions) && IsOk(states[0])
    requires |states[0].history| == 1 && states[0].tagsCache.None?
    requires states[0].answers == [] && states[0].handlers == map[]
    requires forall k :: 0 <= k < |actions| ==> !Leaves(states[k], actions[k]) && !IsLateKey(states[k], actions[k])
    ensures forall s :: s in states ==> IsWell(s)
    ensures forall s, a :: s in states && a in s.answers ==> IsFresh(s.history, a)
  {
    hide IsOk, OnlyGrows, IsSettled, Leaves, IsLateKey, IsFresh, Enabled, Step;
    if actions == [] {
      StartIsWell(states[0]);
    } else {
      var n := |actions| - 1;
      AnswersAreFreshUnlessEntriesLeave(states[..n + 1], actions[..n]);
      assert states[..n + 1][n] == states[n];
      WellStep(states[n], actions[n]);
      assert states == states[..n + 1] + [states[n + 1]];
    }
    forall s | s in states ensures AllFresh(s) {
      assert IsWell(s);
    }
    hide IsWell, IsRun;
  }

  lemma StartIsWell(s: State)
    requires IsOk(s) && |s.history| == 1 && s.tagsCache.None? && s.answers == [] && s.handlers == map[]
    ensures IsWell(s)
  {
    hide ClientOk;
  }

  /** A caller could tell: if the full listing the tags were read from has the fingerprint of
    the listing asked for, they are right for it exactly if no key came or went. */
  lemma EqualStampsExactly(s: State, a: Answer, full: Listing)
    requires ServerOk(s) && AnswerOk(s.history, a)
    requires ListingOk(s.history, full) && full.time == a.read && Stamp(full.rows) == Stamp(a.listing.rows)
    ensures a.listing.time <= a.read ==> IsFresh(s.history, a)
    ensures a.read < a.listing.time ==>
      var r, l := s.history[a.read], s.history[a.listing.time];
      && r.Keys == l.Keys
      && (a.tags == TagsOf(l) <==> forall id :: id in l && l[id].record.tags != [] ==> r[id].readable == l[id].readable)
  {
    CachedAnswerExactly(s, a);
    assert ListingOk(s.history, a.listing) && a.read < |s.history|;
    hide ServerOk, AnswerOk, Lists, Stamp, Versions, TagsOf, SameTagged, Live, IsTagged, IsFresh;
    if a.read < a.listing.time {
      var r, l := s.history[a.read], s.history[a.listing.time];
      StampExactly(full.rows, Versions(r), a.listing.rows, Versions(l));
      SameVersionsSameKeys(r, l);
      SameKeysExactly(r, l);
    }
  }

  lemma SameVersionsSameKeys(r: View, l: View)
    requires Versions(r) == Versions(l)
    ensures r.Keys == l.Keys
  {
    assert r.Keys == Versions(r).Keys == Versions(l).Keys == l.Keys;
  }

  lemma SameKeysExactly(r: View, l: View)
    requires r.Keys == l.Keys && forall id :: id in r && id in l ==> r[id].record == l[id].record
    ensures SameTagged(r, l) <==>
      forall id :: id in l && l[id].record.tags != [] ==> r[id].readable == l[id].readable
  {
    if SameTagged(r, l) {
      forall id | id in l && l[id].record.tags != [] ensures r[id].readable == l[id].readable {
        assert id in r && r[id].record == l[id].record;
      }
    } else {
      var id :| ((id in r && IsTagged(r[id])) || (id in l && IsTagged(l[id]))) &&
        !(id in r && id in l && r[id].readable == l[id].readable);
      assert id in r && id in l && r[id].record == l[id].record;
    }
  }

  // --- Stale answers ------------------------------------------------------------------------

  lemma Act(states: seq<State>, actions: seq<Action>, a: Action) returns (more: seq<State>, done: seq<Action>)
    requires IsRun(states, actions) && Enabled(Last(states), a)
    ensures IsRun(more, done) && more[0] == states[0]
    ensures more != [] && Last(more) == Step(Last(states), a) && done == actions + [a]
  {
    more, done := states + [Step(Last(states), a)], actions + [a];
  }

  function Start(sv: Server): State {
    State(sv, [Live(sv)], true, None, None, map[], map[], [])
  }

  /** The device lists the entries and finds no tags kept for them. */
  lemma AskWithoutCache(sv: Server, rows: seq<Row>) returns (states: seq<State>, actions: seq<Action>)
    requires Lists(rows, Versions(Live(sv)))
    ensures IsRun(states, actions) && states[0] == Start(sv)
    ensures actions == [Ask(0), ReadList(0, rows), Check(0)]
    ensures Last(states) ==
      Start(sv).(entriesCache := Some(Listing(rows, 0)), handlers := map[0 := AwaitFull(Listing(rows, 0))])
  {
    states, actions := [Start(sv)], [];
    hide IsRun, Lists, Stamp, Versions, Live;
    assert IsRun(states, actions) by { RunOfOne(states[0]); }
    states, actions := Act(states, actions, Ask(0));
    states, actions := Act(states, actions, ReadList(0, rows));
    states, actions := Act(states, actions, Check(0));
  }

  /** The state of a device that kept no tags at all under this listing. */
  ghost predicate HasKeptNone(s: State, rows: seq<Row>) {
    && s.unlocked && s.refreshes == map[] && s.handlers == map[] && s.history != []
    && s.tagsCache == Some(Cached(Stamp(rows), map[], Listing(rows, 0), |s.history| - 1))
    && s.answers == [Answer(map[], Listing(rows, 0), |s.history| - 1, false)]
  }

  /** Tags read while there is nothing to read are kept under the fingerprint of the listing
    before: after the entry left, if away is given, or because its key is missing. */
  lemma FillWhileAway(sv: Server, rows: seq<Row>, away: Option<Action>)
    returns (states: seq<State>, actions: seq<Action>)
    requires Lists(rows, Versions(Live(sv)))
    requires away.Some? ==> Enabled(Start(sv), away.value) && IsServerAction(away.value)
    requires TagsOf(Live(if away.Some? then StepServer(sv, away.value) else sv)) == map[]
    ensures IsRun(states, actions) && states[0] == Start(sv)
    ensures actions == [Ask(0), ReadList(0, rows), Check(0)] + (if away.Some? then [away.value] else []) +
      [ReadFull(0), Finish(0)]
    ensures Last(states).server == (if away.Some? then StepServer(sv, away.value) else sv)
    ensures HasKeptNone(Last(states), rows)
  {
    hide IsRun, Lists, Stamp, Versions, Live, TagsOf, StepServer;
    states, actions := AskWithoutCache(sv, rows);
    if away.Some? {
      states, actions := Act(states, actions, away.value);
    }
    states, actions := Act(states, actions, ReadFull(0));
    states, actions := Act(states, actions, Finish(0));
  }

  /** The entry comes back, the listing is fetched again and its tags are asked for. */
  lemma AskAfterReturn(before: seq<State>, played: seq<Action>, rows: seq<Row>, back: Action)
    returns (states: seq<State>, actions: seq<Action>)
    requires IsRun(before, played) && HasKeptNone(Last(before), rows)
    requires Enabled(Last(before), back) && IsServerAction(back)
    requires Lists(rows, Versions(Live(StepServer(Last(before).server, back))))
    ensures IsRun(states, actions) && states != [] && states[0] == before[0]
    ensures actions == played + [back, StartListing(1, rows), StoreListing(1), Ask(2), Check(2)]
    ensures Last(states).history == Last(before).history + [Live(StepServer(Last(before).server, back))]
    ensures Last(states).answers == Last(before).answers +
      [Answer(map[], Listing(rows, |Last(before).history|), |Last(before).history| - 1, true)]
  {
    hide IsRun, Lists, Stamp, Versions, Live, StepServer;
    states, actions := Act(before, played, back);
    states, actions := Act(states, actions, StartListing(1, rows));
    states, actions := Act(states, actions, StoreListing(1));
    states, actions := Act(states, actions, Ask(2));
    states, actions := Act(states, actions, Check(2));
  }

  /** One entry of the user's, or one shared with the user, that the user has a key for or not. */
  function OneEntry(id: Id, tag: string, own: bool, keyed: bool): Server {
    Server(map[id := Record(1, [tag])], {}, if own then {id} else {}, if own then {} else {id},
           if keyed then {id} else {}, {id}, 1)
  }

  lemma OneEntryIsOk(id: Id, tag: string, own: bool, keyed: bool)
    requires IsPlain(id)
    ensures IsOk(Start(OneEntry(id, tag, own, keyed)))
    ensures Live(OneEntry(id, tag, own, keyed)) == map[id := Entry(Record(1, [tag]), keyed)]
    ensures Lists([Row(id, 1)], Versions(Live(OneEntry(id, tag, own, keyed))))
  {
    var sv, rows := OneEntry(id, tag, own, keyed), [Row(id, 1)];
    assert Live(sv) == map[id := Entry(Record(1, [tag]), keyed)];
    assert rows[0] in rows;
  }

  /** How an entry goes away and comes back, and that neither bumps its version. */
  lemma NoVersionBumped(id: Id, tag: string)
    ensures var sv := OneEntry(id, tag, true, true); var out := StepServer(sv, Trash(id));
      Live(out) == map[] && Live(StepServer(out, Restore(id))) == Live(sv)
    ensures var sv := OneEntry(id, tag, false, true); var out := StepServer(sv, Unshare(id));
      Live(out) == map[] && Live(StepServer(out, Share(id))) == Live(sv)
    ensures var sv := OneEntry(id, tag, true, false);
      TagsOf(Live(sv)) == map[] && StepServer(sv, GiveKey(id)) == OneEntry(id, tag, true, true)
  {
  }

  /** Once away is done, if there is such an action, no tags show; back shows what after does. */
  ghost predicate HidesForAWhile(sv: Server, away: Option<Action>, back: Action, after: Server) {
    var out := if away.Some? then StepServer(sv, away.value) else sv;
    && IsServerAction(back) && Enabled(Start(out), back)
    && (away.Some? ==> Enabled(Start(sv), away.value) && IsServerAction(away.value))
    && TagsOf(Live(out)) == map[] && Live(StepServer(out, back)) == Live(after)
  }

  lemma SameServerEnables(s: State, t: State, a: Action)
    requires s.server == t.server && IsServerAction(a) && Enabled(s, a)
    ensures Enabled(t, a)
  {
  }

  lemma StaleRun(id: Id, tag: string, own: bool, keyed: bool, away: Option<Action>, back: Action)
    returns (states: seq<State>, actions: seq<Action>, a: Answer)
    requires IsPlain(id) && HidesForAWhile(OneEntry(id, tag, own, keyed), away, back, OneEntry(id, tag, own, true))
    ensures IsRun(states, actions) && IsOk(states[0]) && states != [] && a in Last(states).answers
    ensures actions == [Ask(0), ReadList(0, [Row(id, 1)]), Check(0)] + (if away.Some? then [away.value] else []) +
      [ReadFull(0), Finish(0)] + [back, StartListing(1, [Row(id, 1)]), StoreListing(1), Ask(2), Check(2)]
    ensures !IsFresh(Last(states).history, a)
  {
    var sv, rows := OneEntry(id, tag, own, keyed), [Row(id, 1)];
    OneEntryIsOk(id, tag, own, keyed);
    OneEntryIsOk(id, tag, own, true);
    assert IsTagged(Entry(Record(1, [tag]), true));
    hide IsRun, IsOk, Lists, Stamp, Versions, TagsOf, Live, StepServer, StepClient, Step, Enabled, OneEntry, IsFresh;
    states, actions := FillWhileAway(sv, rows, away);
    SameServerEnables(Start(Last(states).server), Last(states), back);
    states, actions, a := StaleAfterReturn(states, actions, rows, back, Live(OneEntry(id, tag, own, true)), id);
  }

  lemma StaleAfterReturn(before: seq<State>, played: seq<Action>, rows: seq<Row>, back: Action, v: View, id: Id)
    returns (states: seq<State>, actions: seq<Action>, a: Answer)
    requires before != [] && IsRun(before, played) && HasKeptNone(Last(before), rows)
    requires Enabled(Last(before), back) && IsServerAction(back) && Lists(rows, Versions(v))
    requires v == Live(StepServer(Last(before).server, back)) && id in v && IsTagged(v[id])
    ensures IsRun(states, actions) && states != [] && states[0] == before[0] && a in Last(states).answers
    ensures actions == played + [back, StartListing(1, rows), StoreListing(1), Ask(2), Check(2)]
    ensures !IsFresh(Last(states).history, a)
  {
    hide IsRun, Lists, Stamp, Versions, TagsOf, Live, StepServer, Enabled, IsFresh;
    var history := Last(before).history;
    states, actions := AskAfterReturn(before, played, rows, back);
    a := Answer(map[], Listing(rows, |history|), |history| - 1, true);
    assert a == Last(states).answers[1];
    OnlyLastIsLater(Last(states).history, a, v, id);
  }

  /** Trashing does not bump updated, nor does restoring, so tags read in between answer for the
    listing after the entry is back: it seems to have none. */
  lemma TrashAndRestoreLeaveStaleTags(id: Id, tag: string)
    returns (states: seq<State>, actions: seq<Action>, a: Answer)
    requires IsPlain(id)
    ensures IsRun(states, actions) && IsOk(states[0]) && states != [] && a in Last(states).answers
    ensures actions == [Ask(0), ReadList(0, [Row(id, 1)]), Check(0), Trash(id), ReadFull(0), Finish(0), Restore(id),
      StartListing(1, [Row(id, 1)]), StoreListing(1), Ask(2), Check(2)]
    ensures !IsFresh(Last(states).history, a)
  {
    NoVersionBumped(id, tag);
    assert IsServerAction(Trash(id)) && Enabled(Start(OneEntry(id, tag, true, true)), Trash(id));
    hide IsFresh, IsOk, IsRun, Live, TagsOf;
    states, actions, a := StaleRun(id, tag, true, true, Some(Trash(id)), Restore(id));
  }

  /** Nor do revoking a share and sharing again. */
  lemma RevokeAndShareLeaveStaleTags(id: Id, tag: string)
    returns (states: seq<State>, actions: seq<Action>, a: Answer)
    requires IsPlain(id)
    ensures IsRun(states, actions) && IsOk(states[0]) && states != [] && a in Last(states).answers
    ensures actions == [Ask(0), ReadList(0, [Row(id, 1)]), Check(0), Unshare(id), ReadFull(0), Finish(0), Share(id),
      StartListing(1, [Row(id, 1)]), StoreListing(1), Ask(2), Check(2)]
    ensures !IsFresh(Last(states).history, a)
  {
    NoVersionBumped(id, tag);
    assert IsServerAction(Unshare(id)) && Enabled(Start(OneEntry(id, tag, false, true)), Unshare(id));
    hide IsFresh, IsOk, IsRun, Live, TagsOf;
    states, actions, a := StaleRun(id, tag, false, true, Some(Unshare(id)), Share(id));
  }

  /** And an entry that is listed before its key is stored, as one just created is, has no tags
    until its next edit. */
  lemma LateKeyLeavesStaleTags(id: Id, tag: string)
    returns (states: seq<State>, actions: seq<Action>, a: Answer)
    requires IsPlain(id)
    ensures IsRun(states, actions) && IsOk(states[0]) && states != [] && a in Last(states).answers
    ensures actions == [Ask(0), ReadList(0, [Row(id, 1)]), Check(0), ReadFull(0), Finish(0), GiveKey(id),
      StartListing(1, [Row(id, 1)]), StoreListing(1), Ask(2), Check(2)]
    ensures !IsFresh(Last(states).history, a)
  {
    NoVersionBumped(id, tag);
    hide IsFresh, IsOk, IsRun, Live, TagsOf;
    states, actions, a := StaleRun(id, tag, true, false, None, GiveKey(id));
  }

  lemma OnlyLastIsLater(history: seq<View>, a: Answer, v: View, id: Id)
    requires |history| == a.listing.time + 1 && history[a.listing.time] == v
    requires id in v && IsTagged(v[id]) && a.tags == map[]
    ensures !IsFresh(history, a)
  {
    assert IsTagged(v[id]);
  }

  lemma RunOfOne(s: State)
    ensures IsRun([s], [])
  {
  }
}
