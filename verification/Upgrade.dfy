/**
  The post-quantum key upgrade of an account: replace the ML-KEM half of the key pair
  and re-wrap every entry's data key, one request at a time. Any request may fail, be
  applied without its reply arriving, and the process may die between any two effects.
  */
module Upgrade {
  import opened Prelude
  import opened DataKey

  type Id = string

  /** The key half of a user record, as the server and the config file hold it. */
  datatype KeyRecord = KeyRecord(pubX: Bytes, pubKem: Bytes, encPrivX: Bytes, encPrivKem: Bytes)

  /** What survives the process. */
  datatype Stored = Stored(entryKeys: map<Id, Bytes>, serverKeys: KeyRecord, disk: KeyRecord)

  /** How one request ends. */
  datatype Reply = Rejected | Applied | AppliedReplyLost

  /** How one entry fares: the fetch fails or has no key for us, or the update is sent. */
  datatype Fate = FetchFailed | NoKey | Updated(reply: Reply)

  /** Everything the run does not decide itself. */
  datatype Env = Env(
    freshKem: Bytes, kemNonce: Bytes,
    keysReply: Reply,
    saves: bool, // whether the config file takes the new record
    listing: Option<seq<Id>>,
    fates: Id -> Fate,
    coins: Id -> Coins)

  datatype Outcome =
    | WrongPassword
    | KeysNotUpdated
    | NotListed
    | Died
    | Finished(rewrapped: nat, failed: seq<Id>)

  /** The data key an entry opens to with the keys on disk, as the next process would read it. */
  function ReadFromDisk(p: Primitives, masterKey: Bytes, disk: KeyRecord, wrapped: Bytes): Option<Bytes> {
    var privX, privKem := Decrypt(p, masterKey, disk.encPrivX), Decrypt(p, masterKey, disk.encPrivKem);
    if privX.None? || privKem.None? then None else DecryptDataKey(p, wrapped, privX.value, privKem.value)
  }

  predicate NeedsKeyUpgrade(disk: KeyRecord) {
    |disk.pubKem| != MLKEM_PUB_LEN
  }

  /** The record the upgrade writes: X25519 is kept. */
  function NewRecord(p: Primitives, masterKey: Bytes, record: KeyRecord, env: Env): Option<KeyRecord> {
    var sealed := p.seal(masterKey, env.kemNonce, env.freshKem);
    if sealed.None? then None else Some(record.(pubKem := p.kemPub(env.freshKem), encPrivKem := sealed.value))
  }

  /** An entry key re-wrapped from the old private keys to the new public ones. */
  function Rewrapped(p: Primitives, masterKey: Bytes, record: KeyRecord, env: Env, id: Id, wrapped: Bytes):
      Option<Bytes>
  {
    var dataKey := ReadFromDisk(p, masterKey, record, wrapped);
    if dataKey.None? then None
    else EncryptDataKey(p, dataKey.value, record.pubX, p.kemPub(env.freshKem), env.coins(id))
  }

  /** The entry's new key and the record with the private key it needs are in place: on the
    server, and in the config file if that could be saved. */
  ghost predicate IsRewrapped(p: Primitives, masterKey: Bytes, env: Env, before: Stored, after: Stored, id: Id) {
    && id in before.entryKeys && id in after.entryKeys
    && Rewrapped(p, masterKey, before.disk, env, id, before.entryKeys[id]) == Some(after.entryKeys[id])
    && NewRecord(p, masterKey, before.disk, env) == Some(after.serverKeys)
    && (env.saves ==> after.disk == after.serverKeys)
  }

  /** What a run may leave behind, dead or alive: the server takes the new record or not, as its
    reply says; the config only after a reply that says so, and both before any entry is
    re-wrapped. A config that cannot be saved stays as it was, and the run goes on. */
  ghost predicate Leaves(p: Primitives, masterKey: Bytes, env: Env, before: Stored, after: Stored) {
    && after.entryKeys.Keys == before.entryKeys.Keys
    && (after.disk == before.disk || (env.saves && NewRecord(p, masterKey, before.disk, env) == Some(after.disk)))
    && (after.serverKeys == before.serverKeys || NewRecord(p, masterKey, before.disk, env) == Some(after.serverKeys))
    && (after.serverKeys != before.serverKeys ==> !env.keysReply.Rejected?)
    && (after.disk != before.disk ==> env.keysReply.Applied? && after.serverKeys == after.disk)
    && forall id :: id in before.entryKeys && after.entryKeys[id] != before.entryKeys[id] ==>
        && env.keysReply.Applied? && env.fates(id) in {Updated(Applied), Updated(AppliedReplyLost)}
        && IsRewrapped(p, masterKey, env, before, after, id)
  }

  /** The state once the new record is on the server and its save has been tried. */
  function KeysReplaced(env: Env, before: Stored, renewed: KeyRecord): Stored {
    before.(disk := if env.saves then renewed else before.disk, serverKeys := renewed)
  }

  /** Both private keys open with the master key. */
  predicate Opens(p: Primitives, masterKey: Bytes, disk: KeyRecord) {
    Decrypt(p, masterKey, disk.encPrivX).Some? && Decrypt(p, masterKey, disk.encPrivKem).Some?
  }

  /** The new record can be made and the server confirms it. */
  predicate GetsKeys(p: Primitives, masterKey: Bytes, disk: KeyRecord, env: Env) {
    Opens(p, masterKey, disk) && NewRecord(p, masterKey, disk, env).Some? && env.keysReply.Applied?
  }

  ghost predicate KeysAreReplaced(p: Primitives, masterKey: Bytes, env: Env, before: Stored, after: Stored) {
    && NewRecord(p, masterKey, before.disk, env) == Some(after.serverKeys)
    && after.disk == if env.saves then after.serverKeys else before.disk
  }

  /** The record is in place before the first entry changes. */
  lemma LeavesAtOnce(p: Primitives, masterKey: Bytes, env: Env, before: Stored, renewed: KeyRecord)
    requires env.keysReply.Applied? && NewRecord(p, masterKey, before.disk, env) == Some(renewed)
    ensures Leaves(p, masterKey, env, before, KeysReplaced(env, before, renewed))
  {
  }

  /** One applied update keeps what the run promises and adds its entry. */
  lemma LeavesAfterUpdate(p: Primitives, masterKey: Bytes, env: Env, before: Stored, s: Stored, id: Id, wrapped: Bytes)
    requires Leaves(p, masterKey, env, before, s) && env.keysReply.Applied? && id in before.entryKeys
    requires NewRecord(p, masterKey, before.disk, env) == Some(s.serverKeys) && (env.saves ==> s.disk == s.serverKeys)
    requires env.fates(id) in {Updated(Applied), Updated(AppliedReplyLost)}
    requires Rewrapped(p, masterKey, before.disk, env, id, before.entryKeys[id]) == Some(wrapped)
    ensures var t := s.(entryKeys := s.entryKeys[id := wrapped]);
      && Leaves(p, masterKey, env, before, t) && IsRewrapped(p, masterKey, env, before, t, id)
      && forall other ::
        IsRewrapped(p, masterKey, env, before, s, other) ==> IsRewrapped(p, masterKey, env, before, t, other)
  {
  }

  lemma LeavesSameEntries(p: Primitives, masterKey: Bytes, env: Env, before: Stored, after: Stored)
    requires Leaves(p, masterKey, env, before, after)
    ensures after.entryKeys.Keys == before.entryKeys.Keys
  {
  }

  lemma NewRecordKeys(p: Primitives, masterKey: Bytes, record: KeyRecord, env: Env)
    requires NewRecord(p, masterKey, record, env).Some?
    ensures
      var renewed := NewRecord(p, masterKey, record, env).value;
      renewed.pubX == record.pubX && renewed.pubKem == p.kemPub(env.freshKem)
  {
  }

  /** Whether the loop comes to send the entry's new key. */
  predicate Sends(p: Primitives, masterKey: Bytes, env: Env, before: Stored, id: Id) {
    && id in before.entryKeys && env.fates(id).Updated?
    && Rewrapped(p, masterKey, before.disk, env, id, before.entryKeys[id]).Some?
  }

  function SentOf(p: Primitives, masterKey: Bytes, env: Env, before: Stored, ids: seq<Id>): nat {
    if ids == [] then 0 else
      var n := |ids| - 1;
      SentOf(p, masterKey, env, before, ids[..n]) + if Sends(p, masterKey, env, before, ids[n]) then 1 else 0
  }

  lemma SentNext(p: Primitives, masterKey: Bytes, env: Env, before: Stored, ids: seq<Id>, n: nat)
    requires n < |ids|
    ensures SentOf(p, masterKey, env, before, ids[..n + 1]) ==
      SentOf(p, masterKey, env, before, ids[..n]) + if Sends(p, masterKey, env, before, ids[n]) then 1 else 0
  {
    hide Sends;
    assert ids[..n + 1][..n] == ids[..n];
  }

  lemma {:induction false} SentMonotone(p: Primitives, masterKey: Bytes, env: Env, before: Stored, ids: seq<Id>, n: nat)
    requires n <= |ids|
    ensures SentOf(p, masterKey, env, before, ids[..n]) <= SentOf(p, masterKey, env, before, ids)
  {
    hide Sends;
    if n < |ids| {
      SentMonotone(p, masterKey, env, before, ids[..|ids| - 1], n);
      assert ids[..|ids| - 1][..n] == ids[..n];
    } else {
      assert ids[..n] == ids;
    }
  }

  /** Exactly the entries among ids whose new key was sent and not refused have it. */
  ghost predicate EntriesAre(p: Primitives, masterKey: Bytes, env: Env, before: Stored, after: Stored, ids: seq<Id>) {
    && after.entryKeys.Keys == before.entryKeys.Keys
    && forall id :: id in before.entryKeys ==>
        if id in ids && Sends(p, masterKey, env, before, id) && !env.fates(id).reply.Rejected? then
          Rewrapped(p, masterKey, before.disk, env, id, before.entryKeys[id]) == Some(after.entryKeys[id])
        else after.entryKeys[id] == before.entryKeys[id]
  }

  /** The process died when it came to send another key after this many. */
  ghost predicate DiedAfter(p: Primitives, masterKey: Bytes, env: Env, before: Stored, after: Stored, ids: seq<Id>,
      sent: nat)
  {
    exists n: nat ::
      n < |ids| && SentOf(p, masterKey, env, before, ids[..n]) == sent && Sends(p, masterKey, env, before, ids[n]) &&
      EntriesAre(p, masterKey, env, before, after, ids[..n])
  }

  lemma EntriesAreNext(p: Primitives, masterKey: Bytes, env: Env, before: Stored, s: Stored, t: Stored, ids: seq<Id>,
      n: nat)
    requires n < |ids| && EntriesAre(p, masterKey, env, before, s, ids[..n])
    requires t.entryKeys ==
      if Sends(p, masterKey, env, before, ids[n]) && !env.fates(ids[n]).reply.Rejected? then
        s.entryKeys[ids[n] := Rewrapped(p, masterKey, before.disk, env, ids[n], before.entryKeys[ids[n]]).value]
      else s.entryKeys
    ensures EntriesAre(p, masterKey, env, before, t, ids[..n + 1])
  {
    hide Rewrapped;
    assert ids[..n + 1] == ids[..n] + [ids[n]];
  }

  /** Whether the loop counts the entry as re-wrapped. */
  predicate Succeeds(p: Primitives, masterKey: Bytes, env: Env, before: Stored, id: Id) {
    && id in before.entryKeys && env.fates(id) == Updated(Applied)
    && Rewrapped(p, masterKey, before.disk, env, id, before.entryKeys[id]).Some?
  }

  function FailedOf(p: Primitives, masterKey: Bytes, env: Env, before: Stored, ids: seq<Id>): (r: seq<Id>) {
    if ids == [] then [] else
      var n := |ids| - 1;
      FailedOf(p, masterKey, env, before, ids[..n]) +
        if Succeeds(p, masterKey, env, before, ids[n]) then [] else [ids[n]]
  }

  lemma FailedOfNone(p: Primitives, masterKey: Bytes, env: Env, before: Stored)
    ensures FailedOf(p, masterKey, env, before, []) == []
  {
  }

  lemma FailedNext(p: Primitives, masterKey: Bytes, env: Env, before: Stored, ids: seq<Id>, n: nat)
    requires n < |ids|
    ensures FailedOf(p, masterKey, env, before, ids[..n + 1]) ==
      FailedOf(p, masterKey, env, before, ids[..n]) +
        if Succeeds(p, masterKey, env, before, ids[n]) then [] else [ids[n]]
  {
    hide Succeeds;
    assert ids[..n + 1][..n] == ids[..n];
  }

  lemma {:induction false} FailedExactly(p: Primitives, masterKey: Bytes, env: Env, before: Stored, ids: seq<Id>,
      id: Id)
    ensures id in FailedOf(p, masterKey, env, before, ids) <==> id in ids && !Succeeds(p, masterKey, env, before, id)
  {
    if ids != [] {
      var n := |ids| - 1;
      FailedExactly(p, masterKey, env, before, ids[..n], id);
      assert ids == ids[..n] + [ids[n]];
    }
  }

  /** One process over the stored state. cfg is its copy of the config file. */
  class Session {
    const p: Primitives
    var stored: Stored
    var cfg: KeyRecord
    var privX: Bytes
    var privKem: Bytes
    var alive: nat // effects left before the process dies

    constructor (p: Primitives, stored: Stored, lifetime: nat)
      ensures this.p == p && this.stored == stored && cfg == stored.disk && alive == lifetime
    {
      this.p, this.stored, this.cfg, this.alive := p, stored, stored.disk, lifetime;
      privX, privKem := [], [];
    }

    method Dies() returns (died: bool)
      modifies this`alive
      ensures died <==> old(alive) == 0
      ensures alive == if old(alive) == 0 then 0 else old(alive) - 1
    {
      died := alive == 0;
      alive := if alive == 0 then 0 else alive - 1;
    }

    /** The upgrade. The outcome is decided by the password, the replies and the effects the
      process lives for: one for the keys, one for the config, one for each entry sent. Only
      a run to the end reports numbers: each listed entry is counted once, as re-wrapped or as
      failed, and what is counted as re-wrapped is. */
    method UpgradeToHybrid(masterKey: Bytes, env: Env) returns (r: Outcome)
      requires cfg == stored.disk
      requires env.listing.Some? ==>
        forall i, j :: 0 <= i < j < |env.listing.value| ==> env.listing.value[i] != env.listing.value[j]
      modifies this
      ensures Leaves(p, masterKey, env, old(stored), stored)
      ensures r.WrongPassword? <==> !Opens(p, masterKey, old(stored).disk)
      ensures r.KeysNotUpdated? <==>
        && Opens(p, masterKey, old(stored).disk)
        && (NewRecord(p, masterKey, old(stored).disk, env).None? || (old(alive) > 0 && !env.keysReply.Applied?))
      ensures r.NotListed? <==>
        GetsKeys(p, masterKey, old(stored).disk, env) && old(alive) > 1 && env.listing.None?
      ensures r.Finished? <==>
        && GetsKeys(p, masterKey, old(stored).disk, env) && old(alive) > 1 && env.listing.Some?
        && old(alive) - 2 >= SentOf(p, masterKey, env, old(stored), env.listing.value)
      ensures r.WrongPassword? || (r.Died? && old(alive) == 0) ==> stored == old(stored)
      ensures r.KeysNotUpdated? || (r.Died? && old(alive) == 1) ==>
        var renewed := NewRecord(p, masterKey, old(stored).disk, env);
        stored == if renewed.None? || env.keysReply.Rejected? then old(stored)
                  else old(stored).(serverKeys := renewed.value)
      ensures r.NotListed? ==> stored == KeysReplaced(env, old(stored), cfg)
      ensures r.Died? && old(alive) > 1 ==>
        && env.listing.Some?
        && KeysAreReplaced(p, masterKey, env, old(stored), stored)
        && DiedAfter(p, masterKey, env, old(stored), stored, env.listing.value, old(alive) - 2)
      ensures r.Finished? ==>
        && env.listing.Some?
        && r.rewrapped + |r.failed| == |env.listing.value|
        && r.failed == FailedOf(p, masterKey, env, old(stored), env.listing.value)
        && KeysAreReplaced(p, masterKey, env, old(stored), stored)
        && EntriesAre(p, masterKey, env, old(stored), stored, env.listing.value)
        && (forall id :: id in env.listing.value && Succeeds(p, masterKey, env, old(stored), id) ==>
              IsRewrapped(p, masterKey, env, old(stored), stored, id))
      ensures r.NotListed? || r.Finished? ==>
        privKem == env.freshKem && NewRecord(p, masterKey, old(stored).disk, env) == Some(cfg)
    {
      hide Rewrapped, ReadFromDisk, DecryptDataKey, EncryptDataKey, SentOf, EntriesAre, DiedAfter;
      ghost var before := stored;
      // Load the private keys, which also checks the master password.
      var oldX, oldKem := Decrypt(p, masterKey, cfg.encPrivX), Decrypt(p, masterKey, cfg.encPrivKem);
      if oldX.None? || oldKem.None? {
        return WrongPassword;
      }
      privX, privKem := oldX.value, oldKem.value;

      var sealed := p.seal(masterKey, env.kemNonce, env.freshKem);
      if sealed.None? {
        return KeysNotUpdated;
      }
      var renewed := cfg.(pubKem := p.kemPub(env.freshKem), encPrivKem := sealed.value);

      var died := Dies();
      if died { return Died; }
      if !env.keysReply.Rejected? {
        stored := stored.(serverKeys := renewed);
      }
      if !env.keysReply.Applied? {
        return KeysNotUpdated;
      }

      died := Dies();
      if died { return Died; }
      cfg := renewed;
      if env.saves {
        stored := stored.(disk := cfg);
      }
      privKem := env.freshKem;

      if env.listing.None? {
        return NotListed;
      }
      r := RewrapAll(masterKey, env, env.listing.value, oldX.value, oldKem.value, before);
    }

    /** One entry of the loop: nothing if the process dies, otherwise whether it counts as
      re-wrapped. */
    method RewrapOne(masterKey: Bytes, env: Env, id: Id, oldX: Bytes, oldKem: Bytes, ghost before: Stored)
      returns (done: Option<bool>)
      requires env.keysReply.Applied?
      requires NewRecord(p, masterKey, before.disk, env) == Some(cfg) && stored.serverKeys == cfg
      requires stored.disk == if env.saves then cfg else before.disk
      requires Leaves(p, masterKey, env, before, stored)
      requires id in before.entryKeys ==> id in stored.entryKeys && stored.entryKeys[id] == before.entryKeys[id]
      requires Decrypt(p, masterKey, before.disk.encPrivX) == Some(oldX)
      requires Decrypt(p, masterKey, before.disk.encPrivKem) == Some(oldKem)
      modifies this
      ensures cfg == old(cfg) && stored.disk == old(stored).disk && stored.serverKeys == cfg
      ensures Leaves(p, masterKey, env, before, stored)
      ensures done.Some? ==> done.value == Succeeds(p, masterKey, env, before, id)
      ensures done.None? <==> Sends(p, masterKey, env, before, id) && old(alive) == 0
      ensures done.Some? ==> alive == old(alive) - if Sends(p, masterKey, env, before, id) then 1 else 0
      ensures stored.entryKeys ==
        if done.Some? && Sends(p, masterKey, env, before, id) && !env.fates(id).reply.Rejected? then
          old(stored).entryKeys[id := Rewrapped(p, masterKey, before.disk, env, id, before.entryKeys[id]).value]
        else old(stored).entryKeys
      ensures privKem == old(privKem)
      ensures forall other :: other in stored.entryKeys && other != id ==>
        other in old(stored).entryKeys && stored.entryKeys[other] == old(stored).entryKeys[other]
      ensures done == Some(true) ==> IsRewrapped(p, masterKey, env, before, stored, id)
      ensures forall other :: IsRewrapped(p, masterKey, env, before, old(stored), other) ==>
        IsRewrapped(p, masterKey, env, before, stored, other)
    {
      assert stored.entryKeys.Keys == before.entryKeys.Keys;
      hide EncryptDataKey, DecryptDataKey, Leaves, IsRewrapped, NewRecord;
      var fate := env.fates(id);
      if fate.FetchFailed? || fate.NoKey? || id !in stored.entryKeys {
        return Some(false);
      }
      var dataKey := DecryptDataKey(p, stored.entryKeys[id], oldX, oldKem);
      if dataKey.None? {
        return Some(false);
      }
      assert NewRecord(p, masterKey, before.disk, env).Some?;
      NewRecordKeys(p, masterKey, before.disk, env);
      var wrapped := EncryptDataKey(p, dataKey.value, cfg.pubX, cfg.pubKem, env.coins(id));
      if wrapped.None? {
        return Some(false);
      }
      assert wrapped == Rewrapped(p, masterKey, before.disk, env, id, before.entryKeys[id]);
      var died := Dies();
      if died { return None; }
      if !fate.reply.Rejected? {
        LeavesAfterUpdate(p, masterKey, env, before, stored, id, wrapped.value);
        stored := stored.(entryKeys := stored.entryKeys[id := wrapped.value]);
      }
      return Some(fate.reply.Applied?);
    }

    method RewrapAll(masterKey: Bytes, env: Env, ids: seq<Id>, oldX: Bytes, oldKem: Bytes, ghost before: Stored)
      returns (r: Outcome)
      requires forall i, j :: 0 <= i < j < |ids| ==> ids[i] != ids[j]
      requires env.keysReply.Applied?
      requires NewRecord(p, masterKey, before.disk, env) == Some(cfg) && stored == KeysReplaced(env, before, cfg)
      requires Decrypt(p, masterKey, before.disk.encPrivX) == Some(oldX)
      requires Decrypt(p, masterKey, before.disk.encPrivKem) == Some(oldKem)
      modifies this
      ensures Leaves(p, masterKey, env, before, stored) && KeysAreReplaced(p, masterKey, env, before, stored)
      ensures r.Finished? || r.Died?
      ensures r.Finished? <==> SentOf(p, masterKey, env, before, ids) <= old(alive)
      ensures privKem == old(privKem) && cfg == old(cfg)
      ensures r.Died? ==> DiedAfter(p, masterKey, env, before, stored, ids, old(alive))
      ensures r.Finished? ==> EntriesAre(p, masterKey, env, before, stored, ids)
      ensures r.Finished? ==>
        && cfg == old(cfg) == stored.serverKeys && stored.disk == old(stored).disk
        && r.rewrapped + |r.failed| == |ids|
        && r.failed == FailedOf(p, masterKey, env, before, ids)
        && (forall id :: id in ids && Succeeds(p, masterKey, env, before, id) ==>
              IsRewrapped(p, masterKey, env, before, stored, id))
    {
      LeavesAtOnce(p, masterKey, env, before, cfg);
      assert stored.serverKeys == cfg && stored.disk == (if env.saves then cfg else before.disk);
      assert stored.entryKeys == before.entryKeys;
      assert EntriesAre(p, masterKey, env, before, stored, []);
      assert SentOf(p, masterKey, env, before, []) == 0;
      hide Leaves, IsRewrapped, NewRecord, Decrypt, Succeeds, FailedOf, KeysReplaced, SentOf, EntriesAre, Sends,
        Rewrapped;
      assert ids[..0] == [];
      FailedOfNone(p, masterKey, env, before);
      var rewrapped: nat, failed: seq<Id> := 0, [];
      for i := 0 to |ids|
        invariant cfg == old(cfg) == stored.serverKeys && stored.disk == old(stored).disk
        invariant Leaves(p, masterKey, env, before, stored) && stored.entryKeys.Keys == before.entryKeys.Keys
        invariant privKem == old(privKem)
        invariant EntriesAre(p, masterKey, env, before, stored, ids[..i])
        invariant alive == old(alive) - SentOf(p, masterKey, env, before, ids[..i])
        invariant rewrapped + |failed| == i
        invariant failed == FailedOf(p, masterKey, env, before, ids[..i])
        invariant forall k :: i <= k < |ids| && ids[k] in before.entryKeys ==>
            stored.entryKeys[ids[k]] == before.entryKeys[ids[k]]
        invariant forall k :: 0 <= k < i && Succeeds(p, masterKey, env, before, ids[k]) ==>
            IsRewrapped(p, masterKey, env, before, stored, ids[k])
      {
        FailedNext(p, masterKey, env, before, ids, i);
        ghost var prior := stored;
        SentNext(p, masterKey, env, before, ids, i);
        SentMonotone(p, masterKey, env, before, ids, i + 1);
        var done := RewrapOne(masterKey, env, ids[i], oldX, oldKem, before);
        if done.None? { return Died; }
        EntriesAreNext(p, masterKey, env, before, prior, stored, ids, i);
        LeavesSameEntries(p, masterKey, env, before, stored);
        forall k | i < k < |ids| && ids[k] in before.entryKeys
          ensures stored.entryKeys[ids[k]] == before.entryKeys[ids[k]]
        {
          assert ids[k] != ids[i] && stored.entryKeys[ids[k]] == prior.entryKeys[ids[k]];
        }
        if !done.value {
          failed := failed + [ids[i]];
          continue;
        }
        rewrapped := rewrapped + 1;
      }
      assert ids[..|ids|] == ids;
      r := Finished(rewrapped, failed);
    }
  }

  // --- What the upgrade keeps -----------------------------------------------------

  /** The record belongs to the owner of privX and opens with the master key. */
  ghost predicate Owns(p: Primitives, masterKey: Bytes, record: KeyRecord, privX: Bytes) {
    && |masterKey| == 32
    && record.pubX == p.pubOf(privX) && Decrypt(p, masterKey, record.encPrivX) == Some(privX)
    && Decrypt(p, masterKey, record.encPrivKem).Some?
  }

  /** Every entry opens to its data key with what is on disk. */
  ghost predicate Readable(p: Primitives, masterKey: Bytes, s: Stored, dataKeys: map<Id, Bytes>) {
    && s.entryKeys.Keys == dataKeys.Keys
    && forall id :: id in dataKeys ==> ReadFromDisk(p, masterKey, s.disk, s.entryKeys[id]) == Some(dataKeys[id])
  }

  predicate AllLegacy(s: Stored) {
    forall id :: id in s.entryKeys ==> !IsHybrid(s.entryKeys[id])
  }

  ghost predicate GoodEnv(p: Primitives, env: Env) {
    && p.kemKey(env.freshKem) && |env.kemNonce| == NONCE_LEN
    && forall id :: |env.coins(id).nonce| == NONCE_LEN
  }

  lemma NewRecordOpens(p: Primitives, masterKey: Bytes, record: KeyRecord, privX: Bytes, env: Env)
    requires Lawful(p) && GoodEnv(p, env) && Owns(p, masterKey, record, privX)
    ensures var r := NewRecord(p, masterKey, record, env);
      && r.Some? && Owns(p, masterKey, r.value, privX) && !NeedsKeyUpgrade(r.value)
      && r.value == record.(pubKem := p.kemPub(env.freshKem), encPrivKem := r.value.encPrivKem)
      && Decrypt(p, masterKey, r.value.encPrivKem) == Some(env.freshKem)
  {
    assert Seals(p, masterKey, env.kemNonce, env.freshKem) && Encapsulates(p, env.freshKem, []);
  }

  /** A re-wrapped entry opens with the record the upgrade wrote. */
  lemma RewrappedOpens(p: Primitives, masterKey: Bytes, env: Env, before: Stored, after: Stored, privX: Bytes, id: Id)
    requires Lawful(p) && GoodEnv(p, env) && Owns(p, masterKey, before.disk, privX)
    requires IsRewrapped(p, masterKey, env, before, after, id)
    ensures ReadFromDisk(p, masterKey, after.serverKeys, after.entryKeys[id])
         == ReadFromDisk(p, masterKey, before.disk, before.entryKeys[id])
  {
    NewRecordOpens(p, masterKey, before.disk, privX, env);
    var dataKey := ReadFromDisk(p, masterKey, before.disk, before.entryKeys[id]).value;
    HybridRoundTrip(p, dataKey, privX, env.freshKem, env.coins(id));
  }

  /** An entry is counted as re-wrapped exactly if it can be opened and its update is confirmed. */
  lemma SucceedsExactly(p: Primitives, masterKey: Bytes, env: Env, before: Stored, privX: Bytes, id: Id)
    requires Lawful(p) && GoodEnv(p, env) && Owns(p, masterKey, before.disk, privX)
    ensures Succeeds(p, masterKey, env, before, id) <==>
      && id in before.entryKeys && env.fates(id) == Updated(Applied)
      && ReadFromDisk(p, masterKey, before.disk, before.entryKeys[id]).Some?
  {
    if id in before.entryKeys && ReadFromDisk(p, masterKey, before.disk, before.entryKeys[id]).Some? {
      var dataKey := ReadFromDisk(p, masterKey, before.disk, before.entryKeys[id]).value;
      HybridRoundTrip(p, dataKey, privX, env.freshKem, env.coins(id));
    }
    hide Lawful, DecryptDataKey, EncryptDataKey;
  }

  /** Another generated key, or none at all: the placeholder of an X25519-only account. */
  ghost predicate IsOtherKey(p: Primitives, kem: Bytes, freshKem: Bytes) {
    (p.kemKey(kem) && kem != freshKem) || forall ct :: p.decapsulate(kem, ct).None?
  }

  lemma OtherKeyOpensNothing(p: Primitives, dataKey: Bytes, privX: Bytes, kem: Bytes, freshKem: Bytes, c: Coins)
    requires Lawful(p) && Separates(p) && p.kemKey(freshKem) && |c.nonce| == NONCE_LEN && IsOtherKey(p, kem, freshKem)
    ensures var w := EncryptDataKey(p, dataKey, p.pubOf(privX), p.kemPub(freshKem), c);
      w.Some? && DecryptDataKey(p, w.value, privX, kem) == None
  {
    HybridRoundTrip(p, dataKey, privX, freshKem, c);
    if p.kemKey(kem) && kem != freshKem {
      ForeignKeyOpensNothing(p, dataKey, privX, freshKem, kem, c);
    }
    hide Lawful, Separates, EncryptDataKey;
  }

  /** With what is on disk a re-wrapped entry opens exactly if the config could be saved. */
  lemma RewrappedOpensExactly(p: Primitives, masterKey: Bytes, env: Env, before: Stored, after: Stored,
      privX: Bytes, kem: Bytes, id: Id)
    requires Lawful(p) && Separates(p) && GoodEnv(p, env) && Owns(p, masterKey, before.disk, privX)
    requires Decrypt(p, masterKey, before.disk.encPrivKem) == Some(kem) && IsOtherKey(p, kem, env.freshKem)
    requires Leaves(p, masterKey, env, before, after) && IsRewrapped(p, masterKey, env, before, after, id)
    ensures env.saves <==>
      ReadFromDisk(p, masterKey, after.disk, after.entryKeys[id])
        == ReadFromDisk(p, masterKey, before.disk, before.entryKeys[id])
  {
    var dataKey := ReadFromDisk(p, masterKey, before.disk, before.entryKeys[id]).value;
    RewrappedOpens(p, masterKey, env, before, after, privX, id);
    OtherKeyOpensNothing(p, dataKey, privX, kem, env.freshKem, env.coins(id));
    hide Lawful, Separates, EncryptDataKey, DecryptDataKey;
  }

  /** An entry key of the X25519-only format opens with every post-quantum key. */
  lemma LegacyOpensAnyway(p: Primitives, masterKey: Bytes, a: KeyRecord, b: KeyRecord, privX: Bytes, wrapped: Bytes)
    requires Owns(p, masterKey, a, privX) && Owns(p, masterKey, b, privX) && !IsHybrid(wrapped)
    ensures ReadFromDisk(p, masterKey, a, wrapped) == ReadFromDisk(p, masterKey, b, wrapped)
  {
  }

  /** From an X25519-only account, if the config can be saved, whatever else fails and wherever
    the process dies, every entry still opens to its data key with the keys on disk. */
  lemma LegacyAccountStaysReadable(p: Primitives, masterKey: Bytes, env: Env, before: Stored, after: Stored,
      privX: Bytes, dataKeys: map<Id, Bytes>)
    requires Lawful(p) && GoodEnv(p, env) && env.saves && Owns(p, masterKey, before.disk, privX)
    requires AllLegacy(before) && Readable(p, masterKey, before, dataKeys)
    requires Leaves(p, masterKey, env, before, after)
    ensures Owns(p, masterKey, after.disk, privX) && Readable(p, masterKey, after, dataKeys)
  {
    hide ReadFromDisk, Lawful, Rewrapped;
    NewRecordOpens(p, masterKey, before.disk, privX, env);
    forall id | id in dataKeys
      ensures ReadFromDisk(p, masterKey, after.disk, after.entryKeys[id]) == Some(dataKeys[id])
    {
      if after.entryKeys[id] != before.entryKeys[id] {
        RewrappedOpens(p, masterKey, env, before, after, privX, id);
      } else {
        LegacyOpensAnyway(p, masterKey, before.disk, after.disk, privX, before.entryKeys[id]);
      }
    }
  }

  /** The wrapping of a data key for the owner of privX and the ML-KEM key kem. */
  ghost predicate IsWrappedFor(p: Primitives, privX: Bytes, kem: Bytes, dataKey: Bytes, wrapped: Bytes) {
    exists c: Coins ::
      |c.nonce| == NONCE_LEN && EncryptDataKey(p, dataKey, p.pubOf(privX), p.kemPub(kem), c) == Some(wrapped)
  }

  /** In general the upgrade is not safe to run again. A re-wrapped entry opens afterwards
    exactly if the config could be saved; another one exactly if it is not hybrid or the
    config was not replaced: it belongs to the ML-KEM key the upgrade threw away. */
  lemma EntryStaysReadableExactly(p: Primitives, masterKey: Bytes, env: Env, before: Stored, after: Stored,
      privX: Bytes, kem: Bytes, dataKey: Bytes, id: Id)
    requires Lawful(p) && Separates(p) && GoodEnv(p, env) && Owns(p, masterKey, before.disk, privX)
    requires Leaves(p, masterKey, env, before, after) && id in before.entryKeys
    requires Decrypt(p, masterKey, before.disk.encPrivKem) == Some(kem) && IsOtherKey(p, kem, env.freshKem)
    requires IsHybrid(before.entryKeys[id]) ==>
      p.kemKey(kem) && kem != env.freshKem && IsWrappedFor(p, privX, kem, dataKey, before.entryKeys[id])
    requires ReadFromDisk(p, masterKey, before.disk, before.entryKeys[id]) == Some(dataKey)
    ensures ReadFromDisk(p, masterKey, after.disk, after.entryKeys[id]) == Some(dataKey) <==>
      if after.entryKeys[id] != before.entryKeys[id] then env.saves
      else !IsHybrid(before.entryKeys[id]) || after.disk == before.disk
  {
    hide Rewrapped, Separates, DecryptDataKey, EncryptDataKey, IsOtherKey, IsRewrapped;
    NewRecordOpens(p, masterKey, before.disk, privX, env);
    if after.entryKeys[id] != before.entryKeys[id] {
      RewrappedOpensExactly(p, masterKey, env, before, after, privX, kem, id);
    } else if !IsHybrid(before.entryKeys[id]) {
      LegacyOpensAnyway(p, masterKey, before.disk, after.disk, privX, before.entryKeys[id]);
    } else if after.disk != before.disk {
      HybridEntryIsLost(p, masterKey, env, before.disk, after.disk, privX, kem, dataKey, before.entryKeys[id]);
    }
  }

  /** The record the upgrade writes does not open an entry of the key it replaces. */
  lemma HybridEntryIsLost(p: Primitives, masterKey: Bytes, env: Env, record: KeyRecord, renewed: KeyRecord,
      privX: Bytes, kem: Bytes, dataKey: Bytes, wrapped: Bytes)
    requires Lawful(p) && Separates(p) && GoodEnv(p, env) && Owns(p, masterKey, record, privX)
    requires p.kemKey(kem) && kem != env.freshKem && IsWrappedFor(p, privX, kem, dataKey, wrapped)
    requires NewRecord(p, masterKey, record, env) == Some(renewed)
    ensures ReadFromDisk(p, masterKey, renewed, wrapped) == None
  {
    NewRecordOpens(p, masterKey, record, privX, env);
    var c: Coins :|
      |c.nonce| == NONCE_LEN && EncryptDataKey(p, dataKey, p.pubOf(privX), p.kemPub(kem), c) == Some(wrapped);
    ForeignKeyOpensNothing(p, dataKey, privX, kem, env.freshKem, c);
    hide Lawful, Separates, DecryptDataKey, EncryptDataKey;
  }

  /** No upgrade whose config can be saved, however its requests fare and wherever it dies,
    makes an entry unreadable. */
  ghost predicate IsSafeToUpgrade(p: Primitives, masterKey: Bytes, before: Stored, dataKeys: map<Id, Bytes>) {
    forall env, after ::
      GoodEnv(p, env) && env.saves && Leaves(p, masterKey, env, before, after) ==>
        Readable(p, masterKey, after, dataKeys)
  }

  /** The upgrade is safe exactly for an account without hybrid entries. spare stands for the
    generator's next key being another one than the account's. */
  lemma SafeToUpgradeExactly(p: Primitives, masterKey: Bytes, before: Stored, privX: Bytes, kem: Bytes,
      dataKeys: map<Id, Bytes>, spare: Env)
    requires Lawful(p) && Separates(p) && Owns(p, masterKey, before.disk, privX)
    requires Readable(p, masterKey, before, dataKeys) && GoodEnv(p, spare) && spare.saves
    requires forall id :: id in before.entryKeys && IsHybrid(before.entryKeys[id]) ==>
      p.kemKey(kem) && kem != spare.freshKem && IsWrappedFor(p, privX, kem, dataKeys[id], before.entryKeys[id])
    ensures IsSafeToUpgrade(p, masterKey, before, dataKeys) <==> AllLegacy(before)
  {
    hide Lawful, Separates, Leaves, ReadFromDisk, NewRecord, IsWrappedFor;
    if AllLegacy(before) {
      forall env, after | GoodEnv(p, env) && env.saves && Leaves(p, masterKey, env, before, after)
        ensures Readable(p, masterKey, after, dataKeys)
      {
        LegacyAccountStaysReadable(p, masterKey, env, before, after, privX, dataKeys);
      }
    } else {
      var env := spare.(keysReply := Applied);
      var id :| id in before.entryKeys && IsHybrid(before.entryKeys[id]);
      NewRecordOpens(p, masterKey, before.disk, privX, env);
      var renewed := NewRecord(p, masterKey, before.disk, env).value;
      LeavesAtOnce(p, masterKey, env, before, renewed);
      HybridEntryIsLost(p, masterKey, env, before.disk, renewed, privX, kem, dataKeys[id], before.entryKeys[id]);
      assert !Readable(p, masterKey, KeysReplaced(env, before, renewed), dataKeys);
    }
  }

  /** The config asks for the upgrade exactly if its public key is no generated one by its length. */
  lemma NeedsUpgradeExactly(p: Primitives, disk: KeyRecord, kem: Bytes)
    requires Lawful(p) && p.kemKey(kem)
    ensures NeedsKeyUpgrade(disk) <==> |disk.pubKem| != |p.kemPub(kem)|
  {
    assert Encapsulates(p, kem, []);
  }

  // --- Many runs --------------------------------------------------------------------

  /** One process that runs the upgrade, as the command does: only if the config still
    asks for it. */
  ghost predicate GuardedRun(p: Primitives, masterKey: Bytes, env: Env, before: Stored, after: Stored) {
    if NeedsKeyUpgrade(before.disk) then GoodEnv(p, env) && env.saves && Leaves(p, masterKey, env, before, after)
    else after == before
  }

  /** With the guard and a config that can be saved, any number of runs, each dying or failing
    anywhere, keep every entry readable: the config asks for an upgrade only while no entry is hybrid. */
  lemma {:induction false} GuardedRunsKeepEntries(p: Primitives, masterKey: Bytes, envs: seq<Env>, states: seq<Stored>,
      privX: Bytes, dataKeys: map<Id, Bytes>)
    requires Lawful(p) && |states| == |envs| + 1
    requires forall i :: 0 <= i < |envs| ==> GuardedRun(p, masterKey, envs[i], states[i], states[i + 1])
    requires Owns(p, masterKey, states[0].disk, privX) && NeedsKeyUpgrade(states[0].disk)
    requires AllLegacy(states[0]) && Readable(p, masterKey, states[0], dataKeys)
    ensures forall s :: s in states ==> Owns(p, masterKey, s.disk, privX) && Readable(p, masterKey, s, dataKeys)
    ensures NeedsKeyUpgrade(states[|envs|].disk) ==> AllLegacy(states[|envs|])
  {
    if envs != [] {
      var n := |envs| - 1;
      GuardedRunsKeepEntries(p, masterKey, envs[..n], states[..n + 1], privX, dataKeys);
      var before, after := states[n], states[n + 1];
      assert states[..n + 1][n] == before;
      if NeedsKeyUpgrade(before.disk) {
        LegacyAccountStaysReadable(p, masterKey, envs[n], before, after, privX, dataKeys);
        NewRecordOpens(p, masterKey, before.disk, privX, envs[n]);
      }
      assert states == states[..n + 1] + [after];
    }
  }

  /** Without the guard: an account already upgraded, one entry, and an update that is
    refused leave the entry unreadable. */
  lemma UnguardedRerunLosesAnEntry() returns (
      p: Primitives, masterKey: Bytes, env: Env, before: Stored, after: Stored, dataKeys: map<Id, Bytes>)
    ensures Lawful(p) && GoodEnv(p, env) && !NeedsKeyUpgrade(before.disk)
    ensures Readable(p, masterKey, before, dataKeys) && Leaves(p, masterKey, env, before, after)
    ensures !Readable(p, masterKey, after, dataKeys)
  {
    p, masterKey := Toy(), Zeros(32);
    ToyIsLawful();
    var kem, freshKem := [1] + Zeros(2399), [2] + Zeros(2399);
    assert p.kemKey(kem) && p.kemKey(freshKem) && kem[0] != freshKem[0];
    hide *;
    env, before, after, dataKeys := RerunLosesAnEntry(p, masterKey, Zeros(32), kem, freshKem);
  }

  lemma RerunLosesAnEntry(p: Primitives, masterKey: Bytes, privX: Bytes, kem: Bytes, freshKem: Bytes)
    returns (env: Env, before: Stored, after: Stored, dataKeys: map<Id, Bytes>)
    requires Lawful(p) && Separates(p) && |masterKey| == 32
    requires p.kemKey(kem) && p.kemKey(freshKem) && kem != freshKem
    ensures GoodEnv(p, env) && !NeedsKeyUpgrade(before.disk)
    ensures Readable(p, masterKey, before, dataKeys) && Leaves(p, masterKey, env, before, after)
    ensures !Readable(p, masterKey, after, dataKeys)
  {
    var c := Coins(Zeros(32), Zeros(32), Zeros(12));
    var dataKey: Bytes := Zeros(32);
    HybridRoundTrip(p, dataKey, privX, kem, c);
    var wrapped := EncryptDataKey(p, dataKey, p.pubOf(privX), p.kemPub(kem), c).value;
    assert Seals(p, masterKey, Zeros(12), privX) && Seals(p, masterKey, Zeros(12), kem) && Encapsulates(p, kem, []);
    var disk := KeyRecord(p.pubOf(privX), p.kemPub(kem),
      p.seal(masterKey, Zeros(12), privX).value, p.seal(masterKey, Zeros(12), kem).value);
    env := Env(freshKem, Zeros(12), Applied, true, Some(["e"]), _ => Updated(Rejected), _ => c);
    before, dataKeys := Stored(map["e" := wrapped], disk, disk), map["e" := dataKey];
    assert IsWrappedFor(p, privX, kem, dataKey, wrapped);
    hide Lawful, Separates, EncryptDataKey, DecryptDataKey;
    NewRecordOpens(p, masterKey, disk, privX, env);
    var renewed := NewRecord(p, masterKey, disk, env).value;
    after := KeysReplaced(env, before, renewed);
    LeavesAtOnce(p, masterKey, env, before, renewed);
    HybridEntryIsLost(p, masterKey, env, disk, renewed, privX, kem, dataKey, wrapped);
    assert after.disk == renewed && after.entryKeys["e"] == wrapped && "e" in dataKeys;
  }
}
