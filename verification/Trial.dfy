/** The trial clock: one record kept in two stores, read against a clock that cannot be trusted. */
module Trial {
  import opened Common

  /** Nanoseconds since Go's zero time. */
  type Time = int

  const DAY: int := 24 * 3600 * 1_000_000_000

  const TRIAL_DAYS: int := 14

  const TERM: int := TRIAL_DAYS * DAY

  const MAX_FORWARD_STEP: int := 45 * DAY

  /** time.Duration is a 64-bit count; Sub saturates. */
  const MAX_DURATION: int := 0x7fff_ffff_ffff_ffff

  datatype Record = Record(start: Time, lastSeen: Time)

  datatype Standing = Standing(start: Time, days: int, expired: bool)

  /** What a store gives: None when it is missing or unreadable. */
  type Stored = Option<Record>

  function Sub(a: Time, b: Time): int
  {
    if a - b > MAX_DURATION then MAX_DURATION
    else if a - b < -MAX_DURATION - 1 then -MAX_DURATION - 1
    else a - b
  }

  /** Days left, rounded up. */
  function StandingAt(r: Record): Standing
  {
    var elapsed := if Sub(r.lastSeen, r.start) < 0 then 0 else Sub(r.lastSeen, r.start);
    var remaining := TERM - elapsed;
    if remaining <= 0 then Standing(r.start, 0, true)
    else Standing(r.start, (remaining + DAY - 1) / DAY, false)
  }

  /** A zero start counts as none. */
  function Earliest(sofar: Time, s: Stored): Time
  {
    if s.None? || s.value.start == 0 then sofar
    else if sofar == 0 || s.value.start < sofar then s.value.start
    else sofar
  }

  function StartOf(file: Stored, keychain: Stored, now: Time): Time
  {
    var start := Earliest(Earliest(0, file), keychain);
    if start == 0 then now else start
  }

  function HighMark(start: Time, file: Stored, keychain: Stored): Time
  {
    var h := if file.Some? then Max(start, file.value.lastSeen) else start;
    if keychain.Some? then Max(h, keychain.value.lastSeen) else h
  }

  function Reconciled(file: Stored, keychain: Stored, now: Time): Record
  {
    var start := StartOf(file, keychain, now);
    var high := HighMark(start, file, keychain);
    var capped := if now > high + MAX_FORWARD_STEP then high + MAX_FORWARD_STEP else now;
    Record(start, Max(high, capped))
  }

  class TrialTracker {
    var file: Stored
    var keychain: Stored

    constructor ()
      ensures file.None? && keychain.None?
    {
      file, keychain := None, None;
    }

    method EarliestStart(now: Time) returns (start: Time)
      ensures start == StartOf(file, keychain, now)
    {
      start := 0;
      var stores := [file, keychain];
      for i := 0 to |stores|
        invariant i == 0 ==> start == 0
        invariant i == 1 ==> start == Earliest(0, file)
        invariant i == 2 ==> start == Earliest(Earliest(0, file), keychain)
      {
        var s := stores[i];
        if s.None? || s.value.start == 0 {
          continue;
        }
        if start == 0 || s.value.start < start {
          start := s.value.start;
        }
      }
      if start == 0 {
        start := now;
      }
    }

    method MarkSeen(start: Time, now: Time) returns (lastSeen: Time)
      ensures var high := HighMark(start, file, keychain);
        lastSeen == Max(high, if now > high + MAX_FORWARD_STEP then high + MAX_FORWARD_STEP else now)
    {
      var storedHigh := start;
      if file.Some? && file.value.lastSeen > storedHigh {
        storedHigh := file.value.lastSeen;
      }
      if keychain.Some? && keychain.value.lastSeen > storedHigh {
        storedHigh := keychain.value.lastSeen;
      }
      var cappedNow := now;
      if now > storedHigh + MAX_FORWARD_STEP {
        cappedNow := storedHigh + MAX_FORWARD_STEP;
      }
      lastSeen := storedHigh;
      if cappedNow > lastSeen {
        lastSeen := cappedNow;
      }
      if lastSeen < start {
        lastSeen := start;
      }
    }

    /** resolve: writes are best effort, so either store may refuse. */
    method Resolve(now: Time, fileWritable: bool, keychainWritable: bool) returns (state: Standing)
      modifies this
      ensures var r := Reconciled(old(file), old(keychain), now);
        state == StandingAt(r) &&
        file == (if fileWritable then Some(r) else old(file)) &&
        keychain == (if keychainWritable then Some(r) else old(keychain))
    {
      var start := EarliestStart(now);
      var lastSeen := MarkSeen(start, now);
      var reconciled := Record(start, lastSeen);
      if fileWritable {
        file := Some(reconciled);
      }
      if keychainWritable {
        keychain := Some(reconciled);
      }
      var elapsed := Sub(lastSeen, start);
      if elapsed < 0 {
        elapsed := 0;
      }
      var remaining := TERM - elapsed;
      if remaining <= 0 {
        return Standing(start, 0, true);
      }
      state := Standing(start, (remaining + DAY - 1) / DAY, false);
    }
  }

  // ---- One resolve ----------------------------------------------------------

  /** What a resolve finds: the two stores, and the clock. */
  datatype Reading = Reading(file: Stored, keychain: Stored, now: Time)

  function After(x: Reading): Record
  {
    Reconciled(x.file, x.keychain, x.now)
  }

  /** At least one store still has the record; the other may be lost, stale or forged. */
  predicate Survives(r: Record, x: Reading)
  {
    x.file == Some(r) || x.keychain == Some(r)
  }

  predicate InTerm(s: Standing)
  {
    0 <= s.days <= TRIAL_DAYS && (s.expired <==> s.days == 0)
  }

  /** Days left is 14 less the elapsed time, rounded up, and 0 exactly when the term is over. */
  lemma DaysLeft(r: Record)
    ensures InTerm(StandingAt(r))
    ensures r.lastSeen >= r.start ==> (StandingAt(r).expired <==> r.lastSeen - r.start >= TERM)
  {
    var elapsed := if Sub(r.lastSeen, r.start) < 0 then 0 else Sub(r.lastSeen, r.start);
    var remaining := TERM - elapsed;
    assert 0 <= elapsed;
    if remaining > 0 {
      assert DAY <= remaining + DAY - 1 <= TERM + DAY - 1;
      DayBounds(remaining);
    }
  }

  lemma DayBounds(remaining: int)
    requires 0 < remaining <= TERM
    ensures 1 <= (remaining + DAY - 1) / DAY <= TRIAL_DAYS
  {
  }

  /** More time elapsed never shows more days. */
  lemma DaysShrink(a: Record, b: Record)
    requires b.lastSeen - b.start >= a.lastSeen - a.start
    ensures StandingAt(b).days <= StandingAt(a).days && (StandingAt(a).expired ==> StandingAt(b).expired)
  {
    DaysLeft(a);
    DaysLeft(b);
    var x := if Sub(a.lastSeen, a.start) < 0 then 0 else Sub(a.lastSeen, a.start);
    var y := if Sub(b.lastSeen, b.start) < 0 then 0 else Sub(b.lastSeen, b.start);
    assert x <= y;
    if TERM - y > 0 {
      DivisionGrows(TERM - y, TERM - x);
    }
  }

  lemma DivisionGrows(a: int, b: int)
    requires 0 < a <= b
    ensures (a + DAY - 1) / DAY <= (b + DAY - 1) / DAY
  {
  }

  /** The record is in order, and the clock alone moves it at most 45 days past the highest stored mark. */
  lemma ResolveIsBounded(x: Reading)
    ensures var r := After(x); r.start <= r.lastSeen <= HighMark(r.start, x.file, x.keychain) + MAX_FORWARD_STEP
  {
  }

  /** A start that counts. */
  predicate HasStart(s: Stored)
  {
    s.Some? && s.value.start != 0
  }

  /** The start recorded is the earliest one stored, or else now. */
  lemma StartIsEarliest(x: Reading)
    ensures !HasStart(x.file) && !HasStart(x.keychain) ==> After(x).start == x.now
    ensures HasStart(x.file) ==> 0 != After(x).start <= x.file.value.start
    ensures HasStart(x.keychain) ==> 0 != After(x).start <= x.keychain.value.start
    ensures HasStart(x.file) || HasStart(x.keychain) ==>
      (HasStart(x.file) && After(x).start == x.file.value.start) ||
      (HasStart(x.keychain) && After(x).start == x.keychain.value.start)
  {
  }

  /** The latest of the start and the stored marks. */
  predicate IsLatest(start: Time, x: Reading, h: Time)
  {
    start <= h && (x.file.Some? ==> x.file.value.lastSeen <= h) && (x.keychain.Some? ==> x.keychain.value.lastSeen <= h) &&
    (h == start || (x.file.Some? && h == x.file.value.lastSeen) || (x.keychain.Some? && h == x.keychain.value.lastSeen))
  }

  /** The mark recorded is the latest one, moved on to the clock's reading, by 45 days of 86400 seconds at most. */
  lemma MarkIsExact(x: Reading, h: Time)
    requires IsLatest(After(x).start, x, h)
    ensures After(x).lastSeen ==
      if x.now <= h then h
      else if x.now <= h + 45 * 86_400_000_000_000 then x.now else h + 45 * 86_400_000_000_000
  {
    assert h == HighMark(After(x).start, x.file, x.keychain);
  }

  /** The days shown are the least number of days after the mark that reach the end of the 14 days. */
  lemma DaysAreExact(r: Record)
    requires r.start <= r.lastSeen
    ensures var s := StandingAt(r);
      var end := r.start + 14 * 86_400_000_000_000;
      s.start == r.start && (s.expired <==> end <= r.lastSeen) &&
      if s.expired then s.days == 0
      else r.lastSeen + (s.days - 1) * 86_400_000_000_000 < end <= r.lastSeen + s.days * 86_400_000_000_000
  {
    var remaining := TERM - Sub(r.lastSeen, r.start);
    if remaining > 0 {
      RoundsUp(remaining);
    }
  }

  lemma RoundsUp(n: int)
    requires 0 < n
    ensures ((n + DAY - 1) / DAY - 1) * 86_400_000_000_000 < n <= (n + DAY - 1) / DAY * 86_400_000_000_000
  {
    assert DAY == 86_400_000_000_000;
  }

  predicate NoStart(s: Stored)
  {
    s.None? || s.value.start == 0
  }

  /** No start is stored, and the clock reads the zero time. */
  predicate AtZeroTime(x: Reading)
  {
    x.now == 0 && NoStart(x.file) && NoStart(x.keychain)
  }

  /** Exactly then the recorded start is the zero time. */
  lemma StartIsZeroIff(x: Reading)
    ensures After(x).start == 0 <==> AtZeroTime(x)
  {
  }

  /** b is a's trial at a later stage: its start no later, its mark no earlier, no more days, expired if a is. */
  predicate UsedUp(a: Record, b: Record)
  {
    b.start <= a.start && b.start != 0 && b.lastSeen >= a.lastSeen &&
    StandingAt(b).days <= StandingAt(a).days && (StandingAt(a).expired ==> StandingAt(b).expired)
  }

  /** From one resolve to the next nothing is gained, whatever happened to one store and to the clock. */
  lemma NothingIsGained(r: Record, x: Reading)
    requires Survives(r, x)
    ensures After(x).lastSeen >= r.lastSeen && (r.start != 0 ==> UsedUp(r, After(x)))
  {
    if r.start != 0 {
      DaysShrink(r, After(x));
    }
  }

  // ---- Runs -----------------------------------------------------------------

  /** Each resolve finds the record of the one before in at least one store. */
  ghost predicate Chained(xs: seq<Reading>)
  {
    forall i :: 0 < i < |xs| ==> Survives(After(xs[i - 1]), xs[i])
  }

  /**
   * Over every run, and between any two of its resolves: the start never moves later, the mark never
   * moves back, the days shown never grow and expired stays expired.
   */
  lemma {:induction false} RunsOnlyUseUp(xs: seq<Reading>, i: nat, j: nat)
    requires Chained(xs) && i <= j < |xs| && After(xs[i]).start != 0
    ensures UsedUp(After(xs[i]), After(xs[j]))
    decreases j - i
  {
    if i < j {
      RunsOnlyUseUp(xs, i, j - 1);
      NothingIsGained(After(xs[j - 1]), xs[j]);
    }
  }

  /** In every run that goes on from this resolve, the start is never later than here. */
  ghost predicate StartIsFinal(x: Reading)
  {
    forall xs :: xs != [] && xs[0] == x && Chained(xs) ==> After(xs[|xs| - 1]).start <= After(x).start
  }

  /** The start never moves later exactly when it was not the zero time: a zero start is taken for none. */
  lemma StartIsFinalIff(x: Reading)
    ensures StartIsFinal(x) <==> !AtZeroTime(x)
  {
    StartIsZeroIff(x);
    if AtZeroTime(x) {
      var xs := [x, Reading(Some(After(x)), Some(After(x)), 1)];
      assert Chained(xs) && After(xs[|xs| - 1]).start == 1;
    } else {
      forall xs | xs != [] && xs[0] == x && Chained(xs) ensures After(xs[|xs| - 1]).start <= After(x).start {
        RunsOnlyUseUp(xs, 0, |xs| - 1);
      }
    }
  }

  /** A trial recorded at the zero time, and any later reading: the whole trial begins anew. */
  lemma ZeroClockStartsAgain(later: Time)
    requires later > 0
    ensures var xs := [Reading(None, None, 0), Reading(Some(Record(0, 0)), Some(Record(0, 0)), later)];
      Chained(xs) && After(xs[0]) == Record(0, 0) && After(xs[1]) == Record(later, later) &&
      StandingAt(After(xs[1])).days == TRIAL_DAYS
  {
    var xs := [Reading(None, None, 0), Reading(Some(Record(0, 0)), Some(Record(0, 0)), later)];
    assert After(xs[0]) == Record(0, 0) && After(xs[1]) == Record(later, later);
    assert (TERM + DAY - 1) / DAY == TRIAL_DAYS;
  }

  // ---- What an honest run shows ---------------------------------------------

  /** Stores may be lost, one at a time, but hold nothing that was not written there. */
  ghost predicate OnlyLosses(xs: seq<Reading>)
  {
    (xs != [] ==> xs[0].file.None? && xs[0].keychain.None?) &&
    forall i :: 0 < i < |xs| ==> OnlyLost(After(xs[i - 1]), xs[i])
  }

  predicate OnlyLost(r: Record, x: Reading)
  {
    Survives(r, x) && (x.file.None? || x.file == Some(r)) && (x.keychain.None? || x.keychain == Some(r))
  }

  /** The highest clock reading so far. */
  function Highest(xs: seq<Reading>): Time
    requires xs != []
    decreases |xs|
  {
    var n := |xs| - 1;
    if n == 0 then xs[0].now else Max(Highest(xs[..n]), xs[n].now)
  }

  /** The mark is the highest reading, except that past the term the cap may hold it lower. */
  predicate Tracks(r: Record, start: Time, highest: Time)
  {
    r.start == start <= r.lastSeen <= highest && (r.lastSeen == highest || r.lastSeen - start >= TERM)
  }

  lemma StepTracks(r: Record, start: Time, highest: Time, x: Reading)
    requires start != 0 && Tracks(r, start, highest) && OnlyLost(r, x)
    ensures Tracks(After(x), start, Max(highest, x.now))
  {
  }

  lemma {:induction false} RunTracks(xs: seq<Reading>)
    requires xs != [] && OnlyLosses(xs) && xs[0].now != 0
    ensures Tracks(After(xs[|xs| - 1]), xs[0].now, Highest(xs))
    decreases |xs|
  {
    var n := |xs| - 1;
    if n > 0 {
      RunTracks(xs[..n]);
      StepTracks(After(xs[n - 1]), xs[0].now, Highest(xs[..n]), xs[n]);
    }
  }

  /**
   * With stores only ever lost, the standing is that of the first reading and the highest one: losing a
   * store, turning the clock back and the 45-day cap leave no trace in it.
   */
  lemma StandingIsByHighestReading(xs: seq<Reading>)
    requires xs != [] && OnlyLosses(xs) && xs[0].now != 0
    ensures StandingAt(After(xs[|xs| - 1])) == StandingAt(Record(xs[0].now, Highest(xs)))
  {
    RunTracks(xs);
    var r, ideal := After(xs[|xs| - 1]), Record(xs[0].now, Highest(xs));
    if r != ideal {
      DaysLeft(r);
      DaysLeft(ideal);
    }
  }
}
