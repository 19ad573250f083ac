/** Despawn times and spawn definitions: `gen_despawn_timestamp` of gamemechanicutil.py, and what
    `spawnpoints` of DbPogoProtoSubmit.py records about a spawnpoint. Times are UTC seconds. */
module SpawnTimes {
  import opened Wrappers
  import opened PythonText

  // ---------------------------------------------------------------- MM:SS strings

  function Digit(d: nat): char
    requires d < 10
  {
    '0' + d as char
  }

  function TwoDigits(n: nat): string
    requires n < 100
  {
    [Digit(n / 10), Digit(n % 10)]
  }

  /** strftime("%M:%S") of a time in whole seconds. */
  function FormatMinSec(t: int): string {
    TwoDigits(Minute(t)) + ":" + TwoDigits(Second(t))
  }

  function Minute(t: int): nat { t % 3600 / 60 }

  function Second(t: int): nat { t % 60 }

  /** Index of the first colon, |s| when there is none. */
  function Colon(s: string): (i: nat)
    ensures i <= |s|
    ensures i < |s| ==> s[i] == ':'
    ensures forall j :: 0 <= j < i ==> s[j] != ':'
  {
    if s == [] then 0 else if s[0] == ':' then 0 else 1 + Colon(s[1..])
  }

  datatype MinSec = MinSec(minute: nat, second: nat)

  /** split(":") and replace(minute=..., second=...); None where one of them raises. */
  function ParseMinSec(s: string): Option<MinSec> {
    var i := Colon(s);
    if i == |s| then None
    else
      var rest := s[i + 1..];
      match (ParseNat(s[..i]), ParseNat(rest[..Colon(rest)]))
      case (Some(m), Some(sec)) => if m < 60 && sec < 60 then Some(MinSec(m, sec)) else None
      case _ => None
  }

  lemma ParseTwoDigits(n: nat)
    requires n < 100
    ensures ParseNat(TwoDigits(n)) == Some(n)
  {
    var s := TwoDigits(n);
    assert s[..1] == [Digit(n / 10)];
    assert s[..1][..0] == [];
    assert ParseNat(s[..1]) == Some(n / 10);
  }

  /** Reading back what was formatted. */
  lemma MinSecRoundTrip(t: int)
    ensures ParseMinSec(FormatMinSec(t)) == Some(MinSec(Minute(t), Second(t)))
  {
    var m, s := TwoDigits(Minute(t)), TwoDigits(Second(t));
    var text := m + ":" + s;
    assert text[0] == m[0] && text[1] == m[1] && text[2] == ':';
    assert Colon(text) == 2 by {
      assert text[0] != ':' && text[1] != ':';
    }
    assert text[..2] == m && text[3..] == s;
    assert s[0] != ':' && s[1] != ':';
    assert s[..Colon(s)] == s;
    ParseTwoDigits(Minute(t));
    ParseTwoDigits(Second(t));
  }

  // ---------------------------------------------------------------- gen_despawn_timestamp

  /** The hour of the scan with minute and second replaced, one hour later when the minute of
      the scan is already past the one replaced. */
  function DespawnFor(known: MinSec, timestamp: real): int {
    var t := timestamp.Floor;
    var despawn := t - t % 3600 + 60 * known.minute + known.second;
    if Minute(t) > known.minute then despawn + 3600 else despawn
  }

  /** `gen_despawn_timestamp`; None where a malformed known time raises. */
  function GenDespawnTimestamp(known: Option<string>, timestamp: real, now: real, defaultMinutes: int): Option<int> {
    if known.None? || known.value == "" then
      Some((now + 60.0 * defaultMinutes as real).Floor / 60 * 60)
    else match ParseMinSec(known.value)
      case None => None
      case Some(minSec) => Some(DespawnFor(minSec, timestamp))
  }

  /** For every known time and scan: the despawn time has the known minute and second and lies
      less than a minute before the scan and less than an hour after it. */
  lemma DespawnInRange(known: MinSec, timestamp: real)
    requires known.minute < 60 && known.second < 60
    ensures var d := DespawnFor(known, timestamp);
            && Minute(d) == known.minute && Second(d) == known.second
            && timestamp - 60.0 < d as real < timestamp + 3600.0
  {
    var t := timestamp.Floor;
    var h := t - t % 3600;
    assert h % 3600 == 0;
    HourPlus(h / 3600, 60 * known.minute + known.second);
    HourPlus(h / 3600 + 1, 60 * known.minute + known.second);
  }

  lemma HourPlus(hours: int, r: nat)
    requires r < 3600
    ensures (3600 * hours + r) % 3600 == r && (3600 * hours + r) % 60 == r % 60
    ensures (3600 * hours + r) / 3600 == hours
  {
    assert 3600 * hours + r == 60 * (60 * hours) + r;
  }

  /** Without a known time: whole minutes, at most a minute before the default time left. */
  lemma UnknownDespawnInRange(known: Option<string>, timestamp: real, now: real, defaultMinutes: int)
    requires known.None? || known.value == ""
    ensures var r := GenDespawnTimestamp(known, timestamp, now, defaultMinutes);
            && r.Some? && r.value % 60 == 0
            && now + 60.0 * defaultMinutes as real - 61.0 < r.value as real <= now + 60.0 * defaultMinutes as real
  {}

  /** Decoding the formatted time of a despawn at `f`, at a scan `t` not after it, is exact if and
      only if both lie in the same hour, or `f` lies in the next one at an earlier minute. */
  lemma DespawnExactIff(f: int, timestamp: real)
    requires timestamp.Floor <= f
    ensures var t := timestamp.Floor;
            (DespawnFor(MinSec(Minute(f), Second(f)), timestamp) == f)
            <==> (f / 3600 == t / 3600 || (f / 3600 == t / 3600 + 1 && Minute(f) < Minute(t)))
  {
    var t := timestamp.Floor;
    assert 60 * Minute(f) + Second(f) == f % 3600 by {
      SecondsOfHour(f);
    }
    assert f == 3600 * (f / 3600) + f % 3600 && t == 3600 * (t / 3600) + t % 3600;
    if f / 3600 == t / 3600 {
      assert f % 3600 >= t % 3600;
    }
  }

  lemma SecondsOfHour(f: int)
    ensures f % 3600 == 60 * Minute(f) + Second(f)
  {
    var r := f % 3600;
    assert r == 60 * (r / 60) + r % 60;
    assert f == 60 * (60 * (f / 3600)) + r;
  }

  /** The despawn round trip: what is recorded for a despawn at `full` decodes to it, to the
      second, at any scan in the 59 minutes before it, in that hour or any number of hours on. */
  lemma DespawnRoundTrip(full: real, hours: int, timestamp: real, now: real, defaultMinutes: int)
    requires var again := full + 3600.0 * hours as real; again - 3540.0 <= timestamp <= again
    ensures GenDespawnTimestamp(Some(FormatMinSec(full.Floor)), timestamp, now, defaultMinutes)
         == Some(full.Floor + 3600 * hours)
  {
    var f := full.Floor + 3600 * hours;
    MinSecRoundTrip(full.Floor);
    SecondsOfHour(full.Floor);
    SecondsOfHour(f);
    assert f % 3600 == full.Floor % 3600 by {
      var g := full.Floor;
      assert g == 3600 * (g / 3600) + g % 3600;
      HourPlus(g / 3600 + hours, g % 3600);
      assert f == 3600 * (g / 3600 + hours) + g % 3600;
    }
    assert f == (full + 3600.0 * hours as real).Floor;
    var t := timestamp.Floor;
    assert f - 3540 <= t <= f;
    WithinAnHour(f, t);
    DespawnExactIff(f, timestamp);
  }

  lemma WithinAnHour(f: int, t: int)
    requires f - 3540 <= t <= f
    ensures f / 3600 == t / 3600 || (f / 3600 == t / 3600 + 1 && Minute(f) < Minute(t))
  {
    var a, b := f / 3600, t / 3600;
    assert f == 3600 * a + f % 3600 && t == 3600 * b + t % 3600;
    if a != b {
      assert a == b + 1;
      assert t % 3600 >= f % 3600 + 60;
      assert t % 3600 / 60 >= (f % 3600 + 60) / 60 == f % 3600 / 60 + 1;
    }
  }

  /** One second earlier the guarantee ends: 59 minutes and one second before a despawn on the
      full minute the decoded time is an hour early. */
  lemma RoundTripBoundTight(f: int)
    requires f % 60 == 0
    ensures DespawnFor(MinSec(Minute(f), Second(f)), (f - 3541) as real) == f - 3600
  {
    SecondsOfHour(f);
    assert f == 3600 * (f / 3600) + f % 3600;
    var t := f - 3541;
    assert t == 3600 * (f / 3600 - 1) + (f % 3600 + 59);
    assert f % 3600 % 60 == 0;
    HourPlus(f / 3600 - 1, f % 3600 + 59);
  }

  // ---------------------------------------------------------------- spawn definitions

  /** BitArray(uint=..., length=...), most significant bit first. */
  function Bits(value: nat, length: nat): (bits: seq<bool>)
    ensures |bits| == length
  {
    if length == 0 then [] else Bits(value / 2, length - 1) + [value % 2 == 1]
  }

  /** BitArray.uint. */
  function Value(bits: seq<bool>): nat {
    if bits == [] then 0 else 2 * Value(bits[..|bits| - 1]) + Bit(bits[|bits| - 1])
  }

  lemma {:induction false} BitsOfValue(bits: seq<bool>)
    ensures Bits(Value(bits), |bits|) == bits
  {
    if bits != [] {
      BitsOfValue(bits[..|bits| - 1]);
      assert Value(bits) / 2 == Value(bits[..|bits| - 1]);
    }
  }

  lemma ValueOfFour(bits: seq<bool>)
    requires |bits| >= 4
    ensures var n := |bits|;
            Value(bits) == 16 * Value(bits[..n - 4]) + 8 * Bit(bits[n - 4]) + 4 * Bit(bits[n - 3])
                           + 2 * Bit(bits[n - 2]) + Bit(bits[n - 1])
  {
    var n := |bits|;
    var a, b, c := bits[..n - 1], bits[..n - 2], bits[..n - 3];
    assert a[..n - 2] == b && b[..n - 3] == c && c[..n - 4] == bits[..n - 4];
    assert Value(a) == 2 * Value(b) + Bit(bits[n - 2]);
    assert Value(b) == 2 * Value(c) + Bit(bits[n - 3]);
    assert Value(c) == 2 * Value(bits[..n - 4]) + Bit(bits[n - 4]);
  }

  /** A byte is sixteen times its upper half plus its lower half. */
  lemma ValueOfByte(bits: seq<bool>)
    requires |bits| == 8
    ensures Value(bits) ==
              16 * (8 * Bit(bits[0]) + 4 * Bit(bits[1]) + 2 * Bit(bits[2]) + Bit(bits[3]))
              + 8 * Bit(bits[4]) + 4 * Bit(bits[5]) + 2 * Bit(bits[6]) + Bit(bits[7])
  {
    ValueOfFour(bits);
    ValueOfFour(bits[..4]);
    assert bits[..4][..0] == [];
  }

  type BitPos = p: nat | 4 <= p < 8 witness 4

  /** `_get_current_spawndef_pos`: the quarter of the hour, as a bit position. */
  function SpawndefPos(minute: nat): BitPos {
    if minute < 15 then 4 else if minute < 30 then 5 else if minute < 45 then 6 else 7
  }

  /** One quarter seen: its bit in the upper half is cleared, the one in the lower half set. */
  function QuarterSeen(bits: seq<bool>, pos: BitPos): (r: seq<bool>)
    requires |bits| == 8
    ensures |r| == 8
  {
    bits[pos - 4 := false][pos := true]
  }

  /** `_set_spawn_see_minutesgroup`. */
  method SetSpawnSeeMinutesgroup(spawndef: nat, pos: BitPos) returns (r: nat)
    ensures r == Value(QuarterSeen(Bits(spawndef, 8), pos))
  {
    hide Bits;
    hide Value;
    var bits := new bool[8];
    var initial := Bits(spawndef, 8);
    for i := 0 to 8
      invariant bits[..i] == initial[..i]
    {
      bits[i] := initial[i];
    }
    assert bits[..] == initial;
    if pos == 4 {
      bits[0] := false;
      bits[4] := true;
    }
    if pos == 5 {
      bits[1] := false;
      bits[5] := true;
    }
    if pos == 6 {
      bits[2] := false;
      bits[6] := true;
    }
    if pos == 7 {
      bits[3] := false;
      bits[7] := true;
    }
    assert bits[..] == QuarterSeen(initial, pos) by {
      assert forall i :: 0 <= i < 8 ==> bits[i] == QuarterSeen(initial, pos)[i];
    }
    return Value(bits[..]);
  }

  const DEFAULT_SPAWNDEF: nat := 240

  /** The definition after a sequence of observations, given by bit positions. */
  function Observed(spawndef: nat, seen: seq<BitPos>): nat {
    if seen == [] then spawndef
    else Value(QuarterSeen(Bits(Observed(spawndef, seen[..|seen| - 1]), 8), seen[|seen| - 1]))
  }

  /** The quarters seen, as a four-bit mask. */
  function Mask(seen: set<BitPos>): nat {
    8 * Bit(4 in seen) + 4 * Bit(5 in seen) + 2 * Bit(6 in seen) + Bit(7 in seen)
  }

  function ObservedBits(seen: set<BitPos>): seq<bool> {
    [4 !in seen, 5 !in seen, 6 !in seen, 7 !in seen, 4 in seen, 5 in seen, 6 in seen, 7 in seen]
  }

  lemma ObservedBitsAdd(seen: set<BitPos>, pos: BitPos)
    ensures QuarterSeen(ObservedBits(seen), pos) == ObservedBits(seen + {pos})
  {}

  lemma ObservedBitsValue(seen: set<BitPos>)
    ensures Value(ObservedBits(seen)) == 240 - 15 * Mask(seen)
    ensures Bits(Value(ObservedBits(seen)), 8) == ObservedBits(seen)
  {
    ValueOfByte(ObservedBits(seen));
    BitsOfValue(ObservedBits(seen));
  }

  function Seen(seen: seq<BitPos>): set<BitPos> { set p | p in seen }

  /** From the default on the definition only depends on which quarters were seen: it is 240 less
      15 times their mask. So observations may repeat and come in any order. */
  lemma {:induction false} SpawndefIsMask(seen: seq<BitPos>)
    ensures Observed(DEFAULT_SPAWNDEF, seen) == 240 - 15 * Mask(Seen(seen))
    ensures Bits(Observed(DEFAULT_SPAWNDEF, seen), 8) == ObservedBits(Seen(seen))
  {
    hide QuarterSeen;
    hide Bits;
    hide ObservedBits;
    hide Value;
    ObservedBitsValue(Seen(seen));
    if seen == [] {
      assert Seen([]) == {};
    } else {
      var init, last := seen[..|seen| - 1], seen[|seen| - 1];
      SpawndefIsMask(init);
      assert seen == init + [last];
      assert Seen(seen) == Seen(init) + {last};
      ObservedBitsAdd(Seen(init), last);
    }
  }

  lemma SpawndefOrderFree(one: seq<BitPos>, two: seq<BitPos>)
    requires Seen(one) == Seen(two)
    ensures Observed(DEFAULT_SPAWNDEF, one) == Observed(DEFAULT_SPAWNDEF, two)
  {
    SpawndefIsMask(one);
    SpawndefIsMask(two);
  }

  // ---------------------------------------------------------------- what a sighting records

  /** The columns of trs_spawn that `spawnpoints` maintains. */
  datatype Spawn = Spawn(spawndef: nat, earliestUnseen: int, eventId: int, calcEndMinSec: Option<string>)

  const UNSEEN: int := 99999999

  /** A wild mon in a cell: received time and milliseconds until it hides, and the clock's minute. */
  datatype Sighting = Sighting(received: real, tillHidden: int, minute: nat)

  predicate TimerKnown(x: Sighting) { 0 <= x.tillHidden <= 90000 }

  function FullDate(x: Sighting): real { x.received + x.tillHidden as real / 1000.0 }

  /** May the current event change the spawn definition of this spawnpoint? */
  predicate EventApplies(event: int, spawn: Spawn) { EventsAgree(event, spawn.eventId) }

  predicate EventsAgree(one: int, two: int) { one == two || (one != 1 && two != 1) }

  /** One sighting; `event` is the id of the current event, which exists. */
  function Record(spawn: Option<Spawn>, event: int, x: Sighting): Spawn {
    var pos := SpawndefPos(x.minute);
    var seen := Value(QuarterSeen(Bits(if spawn.Some? then spawn.value.spawndef else DEFAULT_SPAWNDEF, 8), pos));
    match spawn
    case None =>
      if TimerKnown(x) then Spawn(seen, x.tillHidden, event, Some(FormatMinSec(FullDate(x).Floor)))
      else Spawn(seen, UNSEEN, event, None)
    case Some(s) =>
      var def := if EventApplies(event, s) then seen else s.spawndef;
      if TimerKnown(x) then
        Spawn(def, if x.tillHidden < s.earliestUnseen then x.tillHidden else s.earliestUnseen, s.eventId,
              Some(FormatMinSec(FullDate(x).Floor)))
      else s.(spawndef := def)
  }

  /** A row of trs_spawn, written in place by `spawnpoints`. */
  class TrsSpawn {
    var spawndef: nat
    var earliestUnseen: int
    var eventId: int
    var calcEndMinSec: Option<string>

    ghost function View(): Spawn
      reads this
    {
      Spawn(spawndef, earliestUnseen, eventId, calcEndMinSec)
    }

    /** The first sighting creates the row. */
    constructor (event: int, x: Sighting)
      ensures View() == Record(None, event, x)
    {
      spawndef, earliestUnseen, eventId := DEFAULT_SPAWNDEF, UNSEEN, event;
      calcEndMinSec := None;
      new;
      spawndef := SetSpawnSeeMinutesgroup(spawndef, SpawndefPos(x.minute));
      if 0 <= x.tillHidden <= 90000 {
        earliestUnseen := x.tillHidden;
        calcEndMinSec := Some(FormatMinSec(FullDate(x).Floor));
      }
    }

    /** A later sighting updates it. */
    method Sight(event: int, x: Sighting)
      modifies this
      ensures View() == Record(Some(old(View())), event, x)
    {
      var newSpawndef := SetSpawnSeeMinutesgroup(spawndef, SpawndefPos(x.minute));
      if 0 <= x.tillHidden <= 90000 {
        earliestUnseen := if x.tillHidden < earliestUnseen then x.tillHidden else earliestUnseen;
        if event == eventId || (event != 1 && eventId != 1) {
          spawndef := newSpawndef;
        }
        calcEndMinSec := Some(FormatMinSec(FullDate(x).Floor));
      } else {
        if event == eventId || (event != 1 && eventId != 1) {
          spawndef := newSpawndef;
        }
      }
    }
  }

  /** A sighting, and the event that was on when it came. */
  datatype Scan = Scan(event: int, sighting: Sighting)

  /** All sightings of one spawnpoint, starting with none recorded. */
  function Recorded(xs: seq<Scan>): (r: Option<Spawn>)
    ensures r.Some? <==> xs != []
  {
    if xs == [] then None
    else Some(Record(Recorded(xs[..|xs| - 1]), xs[|xs| - 1].event, xs[|xs| - 1].sighting))
  }

  /** The quarters of the sightings whose event goes with that of the first one. */
  function Quarters(xs: seq<Scan>): set<BitPos> {
    set i | 0 <= i < |xs| && EventsAgree(xs[i].event, xs[0].event) :: SpawndefPos(xs[i].sighting.minute)
  }

  /** Over any sightings under changing events, the definition is the mask of the quarters of exactly
      those sightings whose event goes with the event the spawnpoint was found under: the same, or
      none of the two the default event. */
  lemma {:induction false} RecordedSpawndef(xs: seq<Scan>)
    requires xs != []
    ensures var spawn := Recorded(xs).value;
            && spawn.eventId == xs[0].event
            && spawn.spawndef == 240 - 15 * Mask(Quarters(xs))
            && Bits(spawn.spawndef, 8) == ObservedBits(Quarters(xs))
  {
    hide QuarterSeen;
    hide Bits;
    hide ObservedBits;
    hide Value;
    hide SpawndefPos;
    var init, last := xs[..|xs| - 1], xs[|xs| - 1];
    QuartersAdd(xs);
    ObservedBitsValue(if init == [] then {} else Quarters(init));
    if init != [] {
      RecordedSpawndef(init);
    }
    ObservedBitsAdd(if init == [] then {} else Quarters(init), SpawndefPos(last.sighting.minute));
    ObservedBitsValue(Quarters(xs));
    hide Mask;
  }

  lemma QuartersAdd(xs: seq<Scan>)
    requires xs != []
    ensures var init, last := xs[..|xs| - 1], xs[|xs| - 1];
            Quarters(xs) == (if init == [] then {} else Quarters(init))
                            + if EventsAgree(last.event, xs[0].event) then {SpawndefPos(last.sighting.minute)} else {}
  {
    var init, last := xs[..|xs| - 1], xs[|xs| - 1];
    hide SpawndefPos;
    forall i | 0 <= i < |xs| ensures xs[i] == if i < |init| then init[i] else last {}
    if EventsAgree(last.event, xs[0].event) {
      assert SpawndefPos(xs[|xs| - 1].sighting.minute) in Quarters(xs);
    }
    if init != [] {
      forall q | q in Quarters(init) ensures q in Quarters(xs) {
        var i :| && 0 <= i < |init| && EventsAgree(init[i].event, init[0].event)
                 && SpawndefPos(init[i].sighting.minute) == q;
        assert xs[i] == init[i];
      }
    }
  }

  /** Python's `n >> k`. */
  function Shifted(n: nat, k: nat): nat {
    if k == 0 then n else Shifted(n / 2, k - 1)
  }

  lemma {:induction false} BitsAt(value: nat, length: nat, i: nat)
    requires i < length
    ensures Bits(value, length)[i] <==> Shifted(value, length - 1 - i) % 2 == 1
  {
    if i < length - 1 {
      BitsAt(value / 2, length - 1, i);
    }
  }

  /** Read bit by bit: a quarter of the hour counts as seen exactly if some sighting came in its fifteen
      minutes under an event that goes with the first one, and as unseen exactly if none did. */
  lemma QuartersShown(xs: seq<Scan>, quarter: nat)
    requires xs != [] && quarter < 4 && forall x :: x in xs ==> x.sighting.minute < 60
    ensures var def := Recorded(xs).value.spawndef;
            var seen := exists x :: x in xs && EventsAgree(x.event, xs[0].event) && x.sighting.minute / 15 == quarter;
            && (Shifted(def, 3 - quarter) % 2 == 1 <==> seen)
            && (Shifted(def, 7 - quarter) % 2 == 1 <==> !seen)
  {
    hide QuarterSeen;
    hide Bits;
    hide Value;
    hide Mask;
    hide Record;
    RecordedSpawndef(xs);
    BitsAt(Recorded(xs).value.spawndef, 8, quarter);
    BitsAt(Recorded(xs).value.spawndef, 8, 4 + quarter);
    hide Shifted;
    var pos: BitPos := 4 + quarter;
    if pos in Quarters(xs) {
      var i :| 0 <= i < |xs| && EventsAgree(xs[i].event, xs[0].event) && SpawndefPos(xs[i].sighting.minute) == pos;
      assert xs[i] in xs;
    }
    if x :| x in xs && EventsAgree(x.event, xs[0].event) && x.sighting.minute / 15 == quarter {
      var i :| 0 <= i < |xs| && xs[i] == x;
      assert SpawndefPos(xs[i].sighting.minute) == pos;
    }
  }

  /** The earliest remaining time is the least one seen, and an end is recorded exactly when some
      sighting came with a timer, whatever the events. */
  lemma {:induction false} RecordedTimer(xs: seq<Scan>)
    requires xs != []
    ensures var spawn := Recorded(xs).value;
            && (forall x :: x in xs && TimerKnown(x.sighting) ==> spawn.earliestUnseen <= x.sighting.tillHidden)
            && (spawn.earliestUnseen == UNSEEN
                || exists x :: x in xs && TimerKnown(x.sighting) && spawn.earliestUnseen == x.sighting.tillHidden)
            && (spawn.calcEndMinSec.Some? <==> exists x :: x in xs && TimerKnown(x.sighting))
  {
    hide QuarterSeen;
    hide Bits;
    hide Value;
    hide SpawndefPos;
    hide FormatMinSec;
    var init, last := xs[..|xs| - 1], xs[|xs| - 1];
    assert xs == init + [last];
    assert forall x :: x in xs <==> x in init || x == last;
    if init != [] {
      RecordedTimer(init);
      var before, spawn := Recorded(init).value, Recorded(xs).value;
      if spawn.earliestUnseen != UNSEEN && before.earliestUnseen == spawn.earliestUnseen {
        var x :| x in init && TimerKnown(x.sighting) && before.earliestUnseen == x.sighting.tillHidden;
        assert x in xs;
      }
    }
  }

  /** What a sighting with a timer records is decoded to its despawn time, to the second. */
  lemma RecordDecodes(spawn: Option<Spawn>, event: int, x: Sighting, hours: int, timestamp: real, now: real,
                      defaultMinutes: int)
    requires TimerKnown(x)
    requires var again := x.received + x.tillHidden as real / 1000.0 + 3600.0 * hours as real;
             again - 3540.0 <= timestamp <= again
    ensures GenDespawnTimestamp(Record(spawn, event, x).calcEndMinSec, timestamp, now, defaultMinutes)
         == Some((x.received + x.tillHidden as real / 1000.0).Floor + 3600 * hours)
  {
    DespawnRoundTrip(FullDate(x), hours, timestamp, now, defaultMinutes);
  }
}
