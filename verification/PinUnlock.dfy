/**
  PIN quick-unlock of the command line: the PIN block of the configuration in memory and on
  disk, and what a run of attempts, unlocks, deaths and restarts can do to it.
  */
module PinUnlock {
  const DEFAULT_MAX_TRIES := 5
  const DEFAULT_INTERVAL_DAYS := 14
  const MIN_DAYS := 1
  const MAX_DAYS := 60

  const SECOND := 1_000_000_000
  const DAY := 24 * 3600 * SECOND

  /** The wrapped master key opens with the PIN it was wrapped under, unless its text or salt
    no longer decodes. */
  datatype Wrapped = NoKey | Garbled | Key(pin: string)

  /** The PIN block of the configuration. lastMasterUnlock is in seconds. */
  datatype Pin = Pin(
    enabled: bool, wrapped: Wrapped, maxTries: int, failCount: int, intervalDays: int, lastMasterUnlock: int)

  const NO_PIN := Pin(false, NoKey, 0, 0, 0, 0)

  function ClampDays(days: int): (r: int)
    ensures MIN_DAYS <= r <= MAX_DAYS
    ensures MIN_DAYS <= days <= MAX_DAYS ==> r == days
  {
    if days < MIN_DAYS then MIN_DAYS else if days > MAX_DAYS then MAX_DAYS else days
  }

  function MaxTries(p: Pin): (n: int)
    ensures n > 0
    ensures p.maxTries > 0 ==> n == p.maxTries
    ensures p.maxTries <= 0 ==> n == 5
  {
    if p.maxTries > 0 then p.maxTries else DEFAULT_MAX_TRIES
  }

  function IntervalDays(p: Pin): (days: int)
    ensures 1 <= days <= 60
    ensures 1 <= p.intervalDays <= 60 ==> days == p.intervalDays
    ensures p.intervalDays > 60 ==> days == 60
    ensures p.intervalDays <= 0 ==> days == 14
  {
    if p.intervalDays > 0 then ClampDays(p.intervalDays) else DEFAULT_INTERVAL_DAYS
  }

  /** now is in nanoseconds. */
  predicate IsExpired(p: Pin, now: int) {
    p.lastMasterUnlock == 0 || now > p.lastMasterUnlock * SECOND + IntervalDays(p) * DAY
  }

  // --- One operation ------------------------------------------------------------------

  datatype State = State(mem: Pin, disk: Pin)

  /** A save that fails changes nothing. Without a PIN the block is left out. */
  function Saved(s: State, ok: bool): State {
    if ok then s.(disk := if s.mem.enabled then s.mem else NO_PIN) else s
  }

  /** The next start of the program reads the disk. */
  function Restarted(s: State): State {
    s.(mem := s.disk)
  }

  datatype Answer = NotEnabled | Expired | WrongPin | LockedOut | Broken | Opened | Died

  /** Where in an attempt the process dies. */
  datatype Death = Never | BeforeCount | AfterCount | BeforeLastSave

  /** The outcome of the two saves of an attempt, and its end. */
  datatype Luck = Luck(first: bool, last: bool, death: Death)

  datatype Tried = Tried(answer: Answer, state: State)

  function Attempted(s: State, pin: string, now: int, keysOpen: bool, luck: Luck): Tried {
    if !s.mem.enabled then Tried(NotEnabled, s)
    else if IsExpired(s.mem, now) then Tried(Expired, s)
    else if luck.death == BeforeCount then Tried(Died, Restarted(s))
    else
      var counted := Saved(s.(mem := s.mem.(failCount := s.mem.failCount + 1)), luck.first);
      if luck.death == AfterCount then Tried(Died, Restarted(counted))
      else if !counted.mem.wrapped.Key? then Tried(Broken, counted)
      else if counted.mem.wrapped.pin != pin then
        var answer := if counted.mem.failCount >= MaxTries(counted.mem) then LockedOut else WrongPin;
        if luck.death == BeforeLastSave then Tried(Died, Restarted(counted))
        else Tried(answer, Saved(if answer == LockedOut then counted.(mem := NO_PIN) else counted, luck.last))
      else if !keysOpen then Tried(Broken, counted)
      else if luck.death == BeforeLastSave then Tried(Died, Restarted(counted))
      else Tried(Opened, Saved(counted.(mem := counted.mem.(failCount := 0)), luck.last))
  }

  function Unlocked(s: State, now: int, ok: bool): State {
    if !s.mem.enabled then s
    else Saved(s.(mem := s.mem.(lastMasterUnlock := now / SECOND, failCount := 0)), ok)
  }

  function NewPin(pin: string, days: int, tries: int, now: int): Pin {
    Pin(true, Key(pin), if tries <= 0 then DEFAULT_MAX_TRIES else tries, 0, ClampDays(days), now / SECOND)
  }

  function Enabled(s: State, pin: string, days: int, tries: int, now: int, ok: bool): State {
    Saved(s.(mem := NewPin(pin, days, tries, now)), ok)
  }

  function Disabled(s: State, ok: bool): State {
    Saved(s.(mem := NO_PIN), ok)
  }

  /** The program and its configuration file. */
  class Vault {
    var cfg: Pin
    var file: Pin

    constructor ()
      ensures Value() == State(NO_PIN, NO_PIN)
    {
      cfg, file := NO_PIN, NO_PIN;
    }

    function Value(): State
      reads this
    {
      State(cfg, file)
    }

    method Save(ok: bool) returns (saved: bool)
      modifies this`file
      ensures saved == ok && Value() == Saved(old(Value()), ok)
    {
      if ok {
        file := NO_PIN;
        if cfg.enabled {
          file := cfg;
        }
      }
      return ok;
    }

    method Restart()
      modifies this`cfg
      ensures Value() == Restarted(old(Value()))
    {
      cfg := file;
    }

    method ClearPIN()
      modifies this`cfg
      ensures cfg == NO_PIN
    {
      cfg := cfg.(enabled := false, wrapped := NoKey, maxTries := 0, failCount := 0, intervalDays := 0,
        lastMasterUnlock := 0);
    }

    method DisablePIN(ok: bool) returns (saved: bool)
      modifies this
      ensures saved == ok && Value() == Disabled(old(Value()), ok)
    {
      ClearPIN();
      saved := Save(ok);
    }

    method OnMasterUnlock(now: int, ok: bool)
      modifies this
      ensures Value() == Unlocked(old(Value()), now, ok)
    {
      if !cfg.enabled {
        return;
      }
      cfg := cfg.(lastMasterUnlock := now / SECOND, failCount := 0);
      var _ := Save(ok);
    }

    /** With a wrong master password nothing changes. */
    method EnablePIN(authorised: bool, pin: string, days: int, tries: int, now: int, ok: bool) returns (done: bool)
      modifies this
      ensures done <==> authorised && ok
      ensures Value() == if authorised then Enabled(old(Value()), pin, days, tries, now, ok) else old(Value())
    {
      if !authorised {
        return false;
      }
      var maxTries := if tries <= 0 then DEFAULT_MAX_TRIES else tries;
      cfg := cfg.(enabled := true, wrapped := Key(pin), maxTries := maxTries, failCount := 0);
      cfg := cfg.(intervalDays := ClampDays(days), lastMasterUnlock := now / SECOND);
      done := Save(ok);
    }

    method UnlockWithPIN(pin: string, now: int, keysOpen: bool, luck: Luck) returns (answer: Answer)
      modifies this
      ensures Tried(answer, Value()) == Attempted(old(Value()), pin, now, keysOpen, luck)
    {
      if !cfg.enabled {
        return NotEnabled;
      }
      if IsExpired(cfg, now) {
        return Expired;
      }
      if luck.death == BeforeCount {
        Restart();
        return Died;
      }
      cfg := cfg.(failCount := cfg.failCount + 1);
      var _ := Save(luck.first);
      if luck.death == AfterCount {
        Restart();
        return Died;
      }
      if !cfg.wrapped.Key? {
        return Broken;
      }
      if cfg.wrapped.pin != pin {
        if luck.death == BeforeLastSave {
          Restart();
          return Died;
        }
        if cfg.failCount >= MaxTries(cfg) {
          var _ := DisablePIN(luck.last);
          return LockedOut;
        }
        var _ := Save(luck.last);
        return WrongPin;
      }
      if !keysOpen {
        return Broken;
      }
      if luck.death == BeforeLastSave {
        Restart();
        return Died;
      }
      cfg := cfg.(failCount := 0);
      var _ := Save(luck.last);
      return Opened;
    }
  }

  // --- Runs ------------------------------------------------------------------------------

  datatype Event =
    | Attempt(pin: string, now: int, keysOpen: bool, luck: Luck)
    | MasterUnlock(now: int, ok: bool)
    | Enable(pin: string, days: int, tries: int, now: int, ok: bool)
    | Disable(ok: bool)
    | SaveOther(ok: bool)
    | Restart

  /** wrongs counts the answers to wrong guesses since the count was last reset, lock-outs
    included; masters holds the times of the unlocks and set-ups with the master password. */
  datatype Run = Run(state: State, wrongs: nat, masters: set<int>)

  const FRESH := Run(State(NO_PIN, NO_PIN), 0, {})

  function AnswerTo(r: Run, e: Event): Answer
    requires e.Attempt?
  {
    Attempted(r.state, e.pin, e.now, e.keysOpen, e.luck).answer
  }

  predicate IsWrongAnswer(a: Answer) {
    a == WrongPin || a == LockedOut
  }

  function Step(r: Run, e: Event): Run {
    match e
    case Attempt(pin, now, keysOpen, luck) =>
      var t := Attempted(r.state, pin, now, keysOpen, luck);
      var wrongs := if t.answer == Opened then 0 else if IsWrongAnswer(t.answer) then r.wrongs + 1 else r.wrongs;
      Run(t.state, wrongs, r.masters)
    case MasterUnlock(now, ok) =>
      Run(Unlocked(r.state, now, ok), if r.state.mem.enabled then 0 else r.wrongs, r.masters + {now})
    case Enable(pin, days, tries, now, ok) => Run(Enabled(r.state, pin, days, tries, now, ok), 0, r.masters + {now})
    case Disable(ok) => r.(state := Disabled(r.state, ok))
    case SaveOther(ok) => r.(state := Saved(r.state, ok))
    case Restart => r.(state := Restarted(r.state))
  }

  function After(r: Run, events: seq<Event>): Run
    decreases |events|
  {
    if events == [] then r else Step(After(r, events[..|events| - 1]), events[|events| - 1])
  }

  /** One of the two saves of the attempt reaches the disk. */
  predicate Counts(e: Event) {
    e.Attempt? ==> e.luck.first || e.luck.last
  }

  predicate AllCount(events: seq<Event>) {
    forall k :: 0 <= k < |events| ==> Counts(events[k])
  }

  /** The wrong answers are within the count. */
  predicate IsCounted(p: Pin, wrongs: nat) {
    p.enabled ==> wrongs <= p.failCount
  }

  /** The wrong answers are below the limit. */
  predicate IsLimited(p: Pin, wrongs: nat) {
    p.enabled ==> wrongs < MaxTries(p)
  }

  predicate IsAnchored(p: Pin, masters: set<int>) {
    p.enabled && p.lastMasterUnlock != 0 ==> exists m :: m in masters && m / SECOND == p.lastMasterUnlock
  }

  predicate IsClean(p: Pin) {
    !p.enabled ==> p == NO_PIN
  }

  predicate BothCounted(r: Run) {
    IsCounted(r.state.mem, r.wrongs) && IsCounted(r.state.disk, r.wrongs)
  }

  predicate BothLimited(r: Run) {
    IsLimited(r.state.mem, r.wrongs) && IsLimited(r.state.disk, r.wrongs)
  }

  predicate BothAnchored(r: Run) {
    && IsAnchored(r.state.mem, r.masters) && IsAnchored(r.state.disk, r.masters)
    && IsClean(r.state.mem) && IsClean(r.state.disk)
  }

  lemma StepCounts(r: Run, e: Event)
    requires BothCounted(r) && Counts(e)
    ensures BothCounted(Step(r, e))
  {
  }

  /** A lock-out is answered with a wipe of the disk, or was not earned by wrong answers. */
  predicate Wipes(r: Run, e: Event) {
    e.Attempt? && AnswerTo(r, e) == LockedOut ==> e.luck.last || r.wrongs + 1 < MaxTries(r.state.mem)
  }

  lemma StepLimitsExactly(r: Run, e: Event)
    requires BothCounted(r) && BothLimited(r) && Counts(e)
    ensures BothLimited(Step(r, e)) <==> Wipes(r, e)
  {
  }

  /** In every run in which each attempt reaches the disk with one of its saves, the wrong
    answers since the last reset, lock-outs included, never exceed the count on disk. */
  lemma {:induction false} WrongAnswersAreCounted(events: seq<Event>)
    requires AllCount(events)
    ensures BothCounted(After(FRESH, events))
  {
    if events != [] {
      WrongAnswersAreCounted(events[..|events| - 1]);
      StepCounts(After(FRESH, events[..|events| - 1]), events[|events| - 1]);
    }
  }

  /** The limit holds in every state of the run. */
  ghost predicate AlwaysLimited(events: seq<Event>) {
    BothLimited(After(FRESH, events)) && (events != [] ==> AlwaysLimited(events[..|events| - 1]))
  }

  /** Every lock-out of the run wipes. */
  ghost predicate AllWipe(events: seq<Event>) {
    events != [] ==>
      && AllWipe(events[..|events| - 1])
      && Wipes(After(FRESH, events[..|events| - 1]), events[|events| - 1])
  }

  /** In such a run the wrong answers stay below the limit, in memory and on disk and as long
    as the PIN is there, exactly if the save of every lock-out they earned succeeds. */
  lemma {:induction false} WrongAnswersStayBelowTheLimitExactly(events: seq<Event>)
    requires AllCount(events)
    ensures AlwaysLimited(events) <==> AllWipe(events)
  {
    if events != [] {
      var front := events[..|events| - 1];
      WrongAnswersStayBelowTheLimitExactly(front);
      WrongAnswersAreCounted(front);
      if AlwaysLimited(front) {
        StepLimitsExactly(After(FRESH, front), events[|events| - 1]);
      }
    }
  }

  lemma {:induction false} RunsStayAnchored(events: seq<Event>)
    ensures BothAnchored(After(FRESH, events))
  {
    if events != [] {
      RunsStayAnchored(events[..|events| - 1]);
    }
  }

  /** The block is that of this set-up, but for its count and the start of its interval. */
  predicate IsSetUpBy(p: Pin, e: Event) {
    && e.Enable? && p.wrapped == Key(e.pin)
    && p.intervalDays == (if e.days < 1 then 1 else if e.days > 60 then 60 else e.days)
    && p.maxTries == if e.tries <= 0 then 5 else e.tries
  }

  ghost predicate IsFrom(p: Pin, events: seq<Event>) {
    p.enabled ==> exists e :: e in events && IsSetUpBy(p, e)
  }

  /** In every run the PIN in memory and on disk is that of a set-up, with its interval and tries. */
  lemma {:induction false} BlocksAreSetUp(events: seq<Event>)
    ensures IsFrom(After(FRESH, events).state.mem, events) && IsFrom(After(FRESH, events).state.disk, events)
  {
    if events != [] {
      var front, e := events[..|events| - 1], events[|events| - 1];
      BlocksAreSetUp(front);
      assert events == front + [e];
      var s, t := After(FRESH, front).state, After(FRESH, events).state;
      forall p | p in {t.mem, t.disk} ensures IsFrom(p, events) {
        if p.enabled {
          StepKeepsBlocks(After(FRESH, front), e, p);
        }
        if p.enabled && !IsSetUpBy(p, e) {
          var q :| q in {s.mem, s.disk} && q.enabled && SameBlock(p, q);
          var maker :| maker in front && IsSetUpBy(q, maker);
          assert maker in events && IsSetUpBy(p, maker);
        }
      }
    }
  }

  predicate SameBlock(p: Pin, q: Pin) {
    p.wrapped == q.wrapped && p.intervalDays == q.intervalDays && p.maxTries == q.maxTries
  }

  lemma StepKeepsBlocks(r: Run, e: Event, p: Pin)
    requires p in {Step(r, e).state.mem, Step(r, e).state.disk} && p.enabled
    ensures IsSetUpBy(p, e) || exists q :: q in {r.state.mem, r.state.disk} && q.enabled && SameBlock(p, q)
  {
    assert SameBlock(p, r.state.mem) || SameBlock(p, r.state.disk) || IsSetUpBy(p, e);
  }

  predicate IsMaster(e: Event) {
    e.MasterUnlock? || e.Enable?
  }

  lemma {:induction false} MastersAreEvents(events: seq<Event>, m: int)
    requires m in After(FRESH, events).masters
    ensures exists e :: e in events && IsMaster(e) && e.now == m
  {
    if events != [] {
      var front, last := events[..|events| - 1], events[|events| - 1];
      assert events == front + [last];
      if m in After(FRESH, front).masters {
        MastersAreEvents(front, m);
        var e :| e in front && IsMaster(e) && e.now == m;
        assert e in events;
      } else {
        assert last in events && IsMaster(last) && last.now == m;
      }
    }
  }

  /** In every run, whatever is saved or lost, a PIN opens the vault at most the interval it was
    set up with, between 1 and 60 days, after an unlock or a set-up with the master password;
    and only the PIN that was set does. */
  lemma PinUnlockIsRecent(events: seq<Event>, e: Event)
    requires e.Attempt? && AnswerTo(After(FRESH, events), e) == Opened
    ensures After(FRESH, events).state.mem.wrapped == Key(e.pin)
    ensures exists setUp, master ::
      && setUp in events && setUp.Enable? && setUp.pin == e.pin
      && master in events && IsMaster(master)
      && e.now <= master.now +
        (if setUp.days < 1 then 1 else if setUp.days > 60 then 60 else setUp.days) * 86_400_000_000_000
  {
    var r := After(FRESH, events);
    RunsStayAnchored(events);
    BlocksAreSetUp(events);
    var setUp :| setUp in events && IsSetUpBy(r.state.mem, setUp);
    var m :| m in r.masters && m / SECOND == r.state.mem.lastMasterUnlock;
    assert r.state.mem.lastMasterUnlock * SECOND <= m;
    MastersAreEvents(events, m);
    var master :| master in events && IsMaster(master) && master.now == m;
  }

  /** The PIN may be used: it is set, and its interval is not over. */
  predicate InTime(p: Pin, now: int) {
    && p.enabled && p.lastMasterUnlock != 0
    && now <= p.lastMasterUnlock * 1_000_000_000 + 86_400_000_000_000 *
      if p.intervalDays <= 0 then 14 else if p.intervalDays > 60 then 60 else p.intervalDays
  }

  /** What an attempt answers, for every block, time and luck. */
  lemma AnswersExactly(s: State, pin: string, now: int, keysOpen: bool, luck: Luck)
    ensures
      var p, answer := s.mem, Attempted(s, pin, now, keysOpen, luck).answer;
      var isRight, isWrong := p.wrapped == Key(pin), p.wrapped.Key? && p.wrapped.pin != pin;
      var isLast := p.failCount + 1 >= if p.maxTries > 0 then p.maxTries else 5;
      var diesLast := luck.death == BeforeLastSave && (isWrong || (isRight && keysOpen));
      && (answer == NotEnabled <==> !p.enabled)
      && (answer == Expired <==> p.enabled && !InTime(p, now))
      && (answer == Opened <==> InTime(p, now) && isRight && keysOpen && luck.death == Never)
      && (answer == WrongPin <==> InTime(p, now) && isWrong && !isLast && luck.death == Never)
      && (answer == LockedOut <==> InTime(p, now) && isWrong && isLast && luck.death == Never)
      && (answer == Died <==> InTime(p, now) && (luck.death in {BeforeCount, AfterCount} || diesLast))
  {
  }

  /** And what it leaves in memory when it answers. */
  lemma AttemptLeavesExactly(s: State, pin: string, now: int, keysOpen: bool, luck: Luck)
    ensures
      var p, t := s.mem, Attempted(s, pin, now, keysOpen, luck);
      && (t.answer in {NotEnabled, Expired} ==> t.state == s)
      && (t.answer == Opened ==> t.state.mem == p.(failCount := 0))
      && (t.answer in {WrongPin, Broken} ==> t.state.mem == p.(failCount := p.failCount + 1))
      && (t.answer == LockedOut ==> t.state.mem == NO_PIN)
      && (t.answer in {Opened, WrongPin, LockedOut} && luck.last ==> t.state.disk == t.state.mem)
      && (t.answer == Died ==> t.state.mem == t.state.disk)
  {
  }

  /** With the master password the whole interval is there again. */
  lemma MasterUnlockRestarts(s: State, at: int, ok: bool, pin: string, now: int)
    requires s.mem.enabled && s.mem.wrapped == Key(pin) && 1 <= s.mem.intervalDays <= 60 && at >= SECOND
    ensures
      Attempted(Unlocked(s, at, ok), pin, now, true, Luck(true, true, Never)).answer ==
        if now <= at - at % 1_000_000_000 + s.mem.intervalDays * 86_400_000_000_000 then Opened else Expired
  {
    assert at / SECOND * SECOND == at - at % SECOND && at / SECOND > 0;
  }

  /** From a set-up, with working saves: the wrong guess number tries is locked out and wipes the
    PIN, the ones before are answered wrong, and the right PIN opens until then. */
  lemma GuessesUpToTheLimit(setUp: Event, guess: string, now: int, n: nat)
    requires setUp.Enable? && setUp.ok && setUp.pin != guess && setUp.now >= SECOND && InTime(SetUpPin(setUp), now)
    requires n < if setUp.tries <= 0 then 5 else setUp.tries
    ensures
      var wrong := Attempt(guess, now, true, Luck(true, true, Never));
      var r, pin := After(Step(FRESH, setUp), Repeated([wrong], n)), SetUpPin(setUp).(failCount := n);
      && r.state == State(pin, pin) && r.wrongs == n
      && AnswerTo(r, wrong) == (if n + 1 < (if setUp.tries <= 0 then 5 else setUp.tries) then WrongPin else LockedOut)
      && (AnswerTo(r, wrong) == LockedOut ==> Step(r, wrong).state == State(NO_PIN, NO_PIN))
      && AnswerTo(r, Attempt(setUp.pin, now, true, Luck(true, true, Never))) == Opened
  {
    WrongGuessesCount(setUp, guess, now, n);
    var pin := SetUpPin(setUp).(failCount := n);
    OneGuess(pin, guess, now);
    assert InTime(pin, now);
    AnswersExactly(State(pin, pin), setUp.pin, now, true, Luck(true, true, Never));
    hide Attempted, InTime, Unlocked, Disabled, Saved, After;
  }

  lemma {:induction false} WrongGuessesCount(setUp: Event, guess: string, now: int, n: nat)
    requires setUp.Enable? && setUp.ok && setUp.pin != guess && setUp.now >= SECOND && InTime(SetUpPin(setUp), now)
    requires n < if setUp.tries <= 0 then 5 else setUp.tries
    ensures
      var wrong := Attempt(guess, now, true, Luck(true, true, Never));
      var r, pin := After(Step(FRESH, setUp), Repeated([wrong], n)), SetUpPin(setUp).(failCount := n);
      r.state == State(pin, pin) && r.wrongs == n
  {
    var wrong := Attempt(guess, now, true, Luck(true, true, Never));
    if n > 0 {
      WrongGuessesCount(setUp, guess, now, n - 1);
      AfterConcat(Step(FRESH, setUp), Repeated([wrong], n - 1), [wrong]);
      assert [wrong][..0] == [];
      OneGuess(SetUpPin(setUp).(failCount := n - 1), guess, now);
    }
    hide Attempted, InTime, Unlocked, Disabled;
  }

  lemma OneGuess(p: Pin, guess: string, now: int)
    requires InTime(p, now) && p.wrapped.Key? && p.wrapped.pin != guess && p.maxTries > 0
    ensures Attempted(State(p, p), guess, now, true, Luck(true, true, Never)) ==
      if p.failCount + 1 < p.maxTries then
        Tried(WrongPin, State(p.(failCount := p.failCount + 1), p.(failCount := p.failCount + 1)))
      else Tried(LockedOut, State(NO_PIN, NO_PIN))
  {
  }

  /** The block a set-up writes. */
  function SetUpPin(e: Event): Pin
    requires e.Enable?
  {
    Pin(true, Key(e.pin), if e.tries <= 0 then 5 else e.tries, 0,
        if e.days < 1 then 1 else if e.days > 60 then 60 else e.days, e.now / 1_000_000_000)
  }

  /** PIN unlocks never move the deadline. */
  lemma AttemptsKeepTheDeadline(s: State, pin: string, now: int, keysOpen: bool, luck: Luck)
    ensures
      var t := Attempted(s, pin, now, keysOpen, luck);
      && (t.answer != Died && t.answer != LockedOut ==>
            t.state.mem.lastMasterUnlock == s.mem.lastMasterUnlock && t.state.mem.intervalDays == s.mem.intervalDays)
      && (t.answer in {NotEnabled, Expired} ==> t.state == s)
  {
  }

  /** An attempt that answers "locked out" has wiped the key in memory, and on disk exactly if
    its last save succeeded. */
  lemma LockedOutWipesExactly(r: Run, e: Event)
    requires BothAnchored(r) && r.state.disk.enabled && e.Attempt? && AnswerTo(r, e) == LockedOut
    ensures Step(r, e).state.mem == NO_PIN
    ensures e.luck.last ==> Step(r, e).state.disk == NO_PIN
    ensures !e.luck.last ==> Step(r, e).state.disk.enabled
  {
  }

  /** After a wrong answer the count on disk, if the PIN is still there, covers the answers
    exactly if a save of the attempt reached the disk or the count was ahead. */
  lemma WrongAnswerIsCountedExactly(r: Run, e: Event)
    requires BothCounted(r) && r.state.disk.enabled && e.Attempt? && IsWrongAnswer(AnswerTo(r, e))
    ensures
      var s := Step(r, e);
      IsCounted(s.state.disk, s.wrongs) <==> Counts(e) || r.wrongs < r.state.disk.failCount
  {
  }

  // --- The count itself --------------------------------------------------------------------

  /** There is a try left. */
  predicate IsBelow(p: Pin) {
    p.enabled ==> p.failCount < MaxTries(p)
  }

  predicate BothBelow(s: State) {
    IsBelow(s.mem) && IsBelow(s.disk)
  }

  /** The attempt is made, and it is the last one the count allows. */
  predicate IsLastTry(s: State, now: int) {
    s.mem.enabled && !IsExpired(s.mem, now) && s.mem.failCount + 1 >= MaxTries(s.mem)
  }

  /** The wrapped key does not decode, or what it opens to does not open the private keys. */
  predicate Breaks(s: State, pin: string, keysOpen: bool) {
    !s.mem.wrapped.Key? || (s.mem.wrapped.pin == pin && !keysOpen)
  }

  /** A last try that is counted on disk also gets to its wipe or reset there, and does not
    break off before. */
  predicate Settles(s: State, e: Event) {
    e.Attempt? && IsLastTry(s, e.now) && e.luck.death != BeforeCount ==>
      if e.luck.death != AfterCount && Breaks(s, e.pin, e.keysOpen) then false
      else !e.luck.first || (e.luck.death == Never && e.luck.last)
  }

  /** A wrong last try wipes the PIN from the disk exactly if the process lives and its last
    save succeeds. */
  lemma LastTryWipesExactly(pin: Pin, guess: string, now: int, keysOpen: bool, luck: Luck)
    requires IsLastTry(State(pin, pin), now) && pin.wrapped.Key? && pin.wrapped.pin != guess
    ensures Attempted(State(pin, pin), guess, now, keysOpen, luck).state.disk == NO_PIN <==>
      luck.death == Never && luck.last
  {
  }

  lemma StepStaysBelowExactly(r: Run, e: Event)
    requires BothBelow(r.state)
    ensures BothBelow(Step(r, e).state) <==> Settles(r.state, e)
  {
  }

  ghost predicate AlwaysBelow(events: seq<Event>) {
    BothBelow(After(FRESH, events).state) && (events != [] ==> AlwaysBelow(events[..|events| - 1]))
  }

  ghost predicate AllSettle(events: seq<Event>) {
    events != [] ==>
      && AllSettle(events[..|events| - 1])
      && Settles(After(FRESH, events[..|events| - 1]).state, events[|events| - 1])
  }

  /** In every run, whatever dies or fails to save: a try is left in every state with a PIN,
    so the lock-out cannot be bypassed, exactly if every last try settles. */
  lemma {:induction false} CountStaysBelowTheLimitExactly(events: seq<Event>)
    ensures AlwaysBelow(events) <==> AllSettle(events)
  {
    if events != [] {
      var front := events[..|events| - 1];
      CountStaysBelowTheLimitExactly(front);
      if AlwaysBelow(front) {
        StepStaysBelowExactly(After(FRESH, front), events[|events| - 1]);
      }
    }
  }

  /** Without deaths, failing last saves and broken keys every last try settles. */
  predicate IsSmooth(e: Event) {
    e.Attempt? ==> e.luck.death == Never && e.luck.last && e.keysOpen
  }

  predicate HasSoundKey(s: State) {
    (s.mem.enabled ==> s.mem.wrapped.Key?) && (s.disk.enabled ==> s.disk.wrapped.Key?)
  }

  lemma {:induction false} SmoothRunsStayBelowTheLimit(events: seq<Event>)
    requires forall k :: 0 <= k < |events| ==> IsSmooth(events[k])
    ensures HasSoundKey(After(FRESH, events).state) && AllSettle(events) && AlwaysBelow(events)
  {
    if events != [] {
      SmoothRunsStayBelowTheLimit(events[..|events| - 1]);
    }
    CountStaysBelowTheLimitExactly(events);
  }

  // --- What the count does not stop ------------------------------------------------------------

  function Repeated(round: seq<Event>, n: nat): seq<Event> {
    if n == 0 then [] else Repeated(round, n - 1) + round
  }

  lemma {:induction false} AfterConcat(r: Run, a: seq<Event>, b: seq<Event>)
    ensures After(r, a + b) == After(After(r, a), b)
  {
    hide Step;
    if b == [] {
      assert a + b == a;
    } else {
      AfterConcat(r, a, b[..|b| - 1]);
      assert (a + b)[..|a + b| - 1] == a + b[..|b| - 1];
    }
  }

  const WRONG_UNSAVED := Attempt("0000", SECOND, true, Luck(false, false, Never))

  const SET_UP := Enable("1234", 14, 5, SECOND, true)

  /** With saves that fail and restarts, any number of wrong answers is given and the PIN stays. */
  lemma {:induction false} UnsavedAttemptsAreFree(n: nat)
    ensures
      var r := After(Step(FRESH, SET_UP), Repeated([WRONG_UNSAVED, Restart], n));
      r.state == Step(FRESH, SET_UP).state && r.wrongs == n
  {
    if n > 0 {
      var start := Step(FRESH, SET_UP);
      UnsavedAttemptsAreFree(n - 1);
      AfterConcat(start, Repeated([WRONG_UNSAVED, Restart], n - 1), [WRONG_UNSAVED, Restart]);
      TwoEvents(After(start, Repeated([WRONG_UNSAVED, Restart], n - 1)), WRONG_UNSAVED, Restart);
    }
  }

  lemma TwoEvents(r: Run, a: Event, b: Event)
    ensures After(r, [a, b]) == Step(Step(r, a), b)
  {
    hide Step;
    assert [a, b][..1] == [a] && [a][..0] == [];
    assert After(r, [a]) == Step(After(r, []), a);
  }

  const WRONG_UNWIPED := Attempt("0000", SECOND, true, Luck(true, false, Never))

  /** With lock-outs whose wipe is not saved, and restarts: each attempt is counted on disk,
    the fifth and all later ones are answered with a lock-out, and the PIN still opens. */
  lemma {:induction false} UnwipedLockOutsGoOn(n: nat)
    ensures
      var r := After(Step(FRESH, SET_UP), Repeated([WRONG_UNWIPED, Restart], n));
      var pin := NewPin("1234", 14, 5, SECOND).(failCount := n);
      && r.state == State(pin, pin) && r.wrongs == n
      && AnswerTo(r, WRONG_UNWIPED) == (if n < 4 then WrongPin else LockedOut)
      && AnswerTo(r, Attempt("1234", SECOND, true, Luck(true, true, Never))) == Opened
  {
    if n > 0 {
      var start := Step(FRESH, SET_UP);
      UnwipedLockOutsGoOn(n - 1);
      AfterConcat(start, Repeated([WRONG_UNWIPED, Restart], n - 1), [WRONG_UNWIPED, Restart]);
      TwoEvents(After(start, Repeated([WRONG_UNWIPED, Restart], n - 1)), WRONG_UNWIPED, Restart);
    }
  }

  // --- Without a PIN ---------------------------------------------------------------------

  predicate HasNoPin(r: Run) {
    r.state == State(NO_PIN, NO_PIN)
  }

  /** Disabling takes the PIN from memory, and from the disk if the save succeeds; if it does not,
    the next save of anything does. */
  lemma DisablingExactly(r: Run, ok: bool)
    ensures Step(r, Disable(ok)).state == State(NO_PIN, if ok then NO_PIN else r.state.disk)
    ensures HasNoPin(Step(Step(r, Disable(ok)), SaveOther(true)))
    ensures !ok ==> Step(Step(r, Disable(ok)), Restart).state == State(r.state.disk, r.state.disk)
  {
  }

  /** Once it is gone from both, no attempt is answered until it is set up again. */
  lemma {:induction false} DisabledStaysDisabled(r: Run, events: seq<Event>, e: Event)
    requires HasNoPin(r) && forall k :: 0 <= k < |events| ==> !events[k].Enable?
    requires e.Attempt?
    ensures HasNoPin(After(r, events)) && AnswerTo(After(r, events), e) == NotEnabled
  {
    if events != [] {
      var n := |events| - 1;
      DisabledStaysDisabled(r, events[..n], e);
    }
  }

  const WRONG_KILLED := Attempt("0000", SECOND, true, Luck(true, true, BeforeLastSave))

  /** A process killed after the count is saved gives no answer and wipes nothing: whatever the
    count, the PIN is still there and the right one still opens the vault. */
  lemma {:induction false} KilledAttemptsAreNotLockedOut(n: nat)
    ensures
      var r := After(Step(FRESH, SET_UP), Repeated([WRONG_KILLED], n));
      && r.state.disk.enabled && r.state.disk.failCount == n && r.state.mem == r.state.disk
      && AnswerTo(r, Attempt("1234", SECOND, true, Luck(true, true, Never))) == Opened
  {
    KilledState(n);
  }

  lemma {:induction false} KilledState(n: nat)
    ensures
      var pin := NewPin("1234", 14, 5, SECOND).(failCount := n);
      After(Step(FRESH, SET_UP), Repeated([WRONG_KILLED], n)).state == State(pin, pin)
  {
    if n > 0 {
      var start := Step(FRESH, SET_UP);
      KilledState(n - 1);
      AfterConcat(start, Repeated([WRONG_KILLED], n - 1), [WRONG_KILLED]);
      assert [WRONG_KILLED][..0] == [];
    }
  }
}
