/** The pokemon rows and cache keys behind the five sighting handlers of DbPogoProtoSubmit.py:
    wild, nearby, encounter, lure encounter and lure without IVs. */
module Sightings {
  import opened Wrappers

  datatype SeenType = wild | encounter | lure_encounter | lure_wild | nearby_stop | nearby_cell

  datatype Ivs = Ivs(attack: nat, defense: nat, stamina: nat)

  /** The columns of a pokemon row that decide what is known about it. */
  datatype Row = Row(seenType: SeenType, pokemonId: int, weather: int, ivs: Option<Ivs>)

  datatype Key =
    | MonKey(encounter: int, pokemonId: int)
    | NearKey(encounter: int, pokemonId: int)
    | IvKey(encounter: int, weather: int, pokemonId: int)
    | LureNoIvKey(encounter: int)

  /** Committed rows by encounter id, and the cache keys that exist. */
  datatype State = State(rows: map<int, Row>, cache: set<Key>)

  const DITTO: int := 132

  /** Encounter ids come as signed 64-bit numbers and are stored unsigned. */
  function Unsigned(id: int): int { if id < 0 then id + 0x1_0000_0000_0000_0000 else id }

  /** One sighting. `commits` is false for an IntegrityError, `caches` when the despawn still lies
      in the future, `isDitto` when the encounter gives a ditto away. */
  datatype Sighting =
    | Wild(id: int, pokemonId: int, weather: int, commits: bool, caches: bool)
    | Nearby(id: int, pokemonId: int, weather: int, inCell: bool, commits: bool)
    | Encounter(id: int, pokemonId: int, weather: int, ivs: Ivs, isDitto: bool, caches: bool)
    | LureEncounter(id: int, pokemonId: int, weather: int, ivs: Ivs, isDitto: bool)
    | LureNoIv(id: int, pokemonId: int, weather: int, commits: bool)
    | Expire(keys: set<Key>)

  /** The types that no other handler may overwrite. */
  predicate HasIvType(t: SeenType) { t == encounter || t == lure_encounter }

  function Store(s: State, id: int, row: Row, key: Key, caches: bool): State {
    State(s.rows[id := row], if caches then s.cache + {key} else s.cache)
  }

  function WildRow(row: Option<Row>, pokemonId: int, weather: int): Row {
    match row
    case None => Row(wild, pokemonId, weather, None)
    case Some(r) => r.(seenType := if HasIvType(r.seenType) then r.seenType else wild,
                       pokemonId := pokemonId, weather := weather)
  }

  function NearbyRow(row: Option<Row>, pokemonId: int, weather: int, inCell: bool): Row {
    match row
    case None => Row(if inCell then nearby_cell else nearby_stop, pokemonId, weather, None)
    case Some(r) => r.(pokemonId := pokemonId, weather := weather)
  }

  function Lookup(s: State, id: int): Option<Row> {
    if id in s.rows then Some(s.rows[id]) else None
  }

  /** A cache key says that a nearby sighting is nothing new. */
  predicate KnowsNearby(s: State, x: Sighting)
    requires x.Nearby?
  {
    var id := Unsigned(x.id);
    || MonKey(id, x.pokemonId) in s.cache || IvKey(id, x.weather, x.pokemonId) in s.cache
    || NearKey(id, x.pokemonId) in s.cache
  }

  /** What one sighting changes. */
  function Submit(s: State, x: Sighting): State {
    match x
    case Wild(raw, pokemonId, weather, commits, caches) =>
      var id := Unsigned(raw);
      var key := MonKey(id, pokemonId);
      if key in s.cache || !commits then s
      else Store(s, id, WildRow(Lookup(s, id), pokemonId, weather), key, caches)
    case Nearby(raw, pokemonId, weather, inCell, commits) =>
      var id := Unsigned(raw);
      var key := NearKey(id, pokemonId);
      if KnowsNearby(s, x) || !commits then s
      else Store(s, id, NearbyRow(Lookup(s, id), pokemonId, weather, inCell), key, true)
    case Encounter(raw, pokemonId, weather, ivs, isDitto, caches) =>
      var id := Unsigned(raw);
      var key := IvKey(id, weather, pokemonId);
      if raw == 0 || key in s.cache then s
      else Store(s, id, Row(encounter, if isDitto then DITTO else pokemonId, weather, Some(ivs)), key, caches)
    case LureEncounter(raw, pokemonId, weather, ivs, isDitto) =>
      var id := Unsigned(raw);
      var key := IvKey(id, weather, pokemonId);
      if key in s.cache then s
      else Store(s, id, Row(lure_encounter, if isDitto then DITTO else pokemonId, weather, Some(ivs)), key, true)
    case LureNoIv(raw, pokemonId, weather, commits) =>
      var id := Unsigned(raw);
      var key := LureNoIvKey(id);
      if pokemonId <= 0 || key in s.cache || !commits then s
      else
        var row := Lookup(s, id);
        Store(s, id, if row.Some? then row.value else Row(lure_wild, pokemonId, weather, None), key, true)
    case Expire(keys) => s.(cache := s.cache - keys)
  }

  function SubmitAll(s: State, xs: seq<Sighting>): State {
    if xs == [] then s else Submit(SubmitAll(s, xs[..|xs| - 1]), xs[|xs| - 1])
  }

  // ---------------------------------------------------------------- the handlers

  predicate AllWild(xs: seq<Sighting>) { forall x :: x in xs ==> x.Wild? }

  predicate AllNearby(xs: seq<Sighting>) { forall x :: x in xs ==> x.Nearby? }

  /** The encounters `mons_nearby` reports, of cells or of stops: what got past the cache when its turn
      came, whether or not it was committed. */
  function NearbyReported(s: State, xs: seq<Sighting>, inCell: bool): seq<int>
    requires AllNearby(xs)
  {
    if xs == [] then []
    else
      var init, x := xs[..|xs| - 1], xs[|xs| - 1];
      NearbyReported(s, init, inCell)
        + if x.inCell == inCell && !KnowsNearby(SubmitAll(s, init), x) then [Unsigned(x.id)] else []
  }

  /** The encounters `mon_lure_noiv` reports: those of every lured pokemon. */
  function LuresReported(xs: seq<Sighting>): seq<int>
    requires AllLureNoIv(xs)
  {
    if xs == [] then []
    else
      var x := xs[|xs| - 1];
      LuresReported(xs[..|xs| - 1]) + if x.pokemonId > 0 then [Unsigned(x.id)] else []
  }

  predicate AllLureNoIv(xs: seq<Sighting>) { forall x :: x in xs ==> x.LureNoIv? }

  /** The database and the cache as the handlers change them. The methods take the sightings that
      a map proto lists cell by cell. */
  class ProtoSubmit {
    var rows: map<int, Row>
    var cache: set<Key>

    constructor ()
      ensures View() == State(map[], {})
    {
      rows, cache := map[], {};
    }

    ghost function View(): State
      reads this
    {
      State(rows, cache)
    }

    method GetRow(id: int) returns (row: Option<Row>)
      ensures row == Lookup(View(), id)
    {
      return if id in rows then Some(rows[id]) else None;
    }

    /** `mons`. */
    method Mons(xs: seq<Sighting>) returns (encounterIds: seq<int>)
      requires AllWild(xs)
      modifies this
      ensures View() == SubmitAll(old(View()), xs)
      ensures |encounterIds| == |xs|
      ensures forall i :: 0 <= i < |xs| ==> encounterIds[i] == Unsigned(xs[i].id)
    {
      encounterIds := [];
      for i := 0 to |xs|
        invariant View() == SubmitAll(old(View()), xs[..i])
        invariant |encounterIds| == i
        invariant forall j :: 0 <= j < i ==> encounterIds[j] == Unsigned(xs[j].id)
      {
        var x := xs[i];
        assert xs[..i + 1][..i] == xs[..i];
        ghost var before := View();
        assert SubmitAll(old(View()), xs[..i + 1]) == Submit(before, x);
        var encounterId := x.id;
        if encounterId < 0 {
          encounterId := encounterId + 0x1_0000_0000_0000_0000;
        }
        encounterIds := encounterIds + [encounterId];
        var cacheKey := MonKey(encounterId, x.pokemonId);
        if cacheKey in cache {
          continue;
        }
        var mon := GetRow(encounterId);
        var row := if mon.Some? then mon.value else Row(wild, x.pokemonId, x.weather, None);
        if row.seenType != encounter && row.seenType != lure_encounter {
          row := row.(seenType := wild);
        }
        row := row.(pokemonId := x.pokemonId, weather := x.weather);
        if !x.commits {
          continue;
        }
        rows := rows[encounterId := row];
        if x.caches {
          cache := cache + {cacheKey};
        }
        assert View() == Submit(before, x);
      }
      assert xs[..|xs|] == xs;
    }

    /** `mons_nearby`. */
    method MonsNearby(xs: seq<Sighting>) returns (cellEncounters: seq<int>, stopEncounters: seq<int>)
      requires AllNearby(xs)
      modifies this
      ensures View() == SubmitAll(old(View()), xs)
      ensures cellEncounters == NearbyReported(old(View()), xs, true)
      ensures stopEncounters == NearbyReported(old(View()), xs, false)
    {
      cellEncounters, stopEncounters := [], [];
      for i := 0 to |xs|
        invariant View() == SubmitAll(old(View()), xs[..i])
        invariant cellEncounters == NearbyReported(old(View()), xs[..i], true)
        invariant stopEncounters == NearbyReported(old(View()), xs[..i], false)
      {
        var x := xs[i];
        assert xs[..i + 1][..i] == xs[..i];
        var encounterId := Unsigned(x.id);
        var cacheKey := NearKey(encounterId, x.pokemonId);
        if MonKey(encounterId, x.pokemonId) in cache || IvKey(encounterId, x.weather, x.pokemonId) in cache
           || cacheKey in cache {
          continue;
        }
        var seenType := nearby_stop;
        if x.inCell {
          seenType := nearby_cell;
          cellEncounters := cellEncounters + [encounterId];
        } else {
          stopEncounters := stopEncounters + [encounterId];
        }
        var mon := GetRow(encounterId);
        var row := if mon.Some? then mon.value else Row(seenType, x.pokemonId, x.weather, None);
        row := row.(pokemonId := x.pokemonId, weather := x.weather);
        if !x.commits {
          continue;
        }
        rows := rows[encounterId := row];
        cache := cache + {cacheKey};
      }
      assert xs[..|xs|] == xs;
    }

    /** `mon_iv`; the result says whether the proto was new. */
    method MonIv(x: Sighting) returns (isNew: bool)
      requires x.Encounter?
      modifies this
      ensures View() == Submit(old(View()), x)
      ensures isNew <==> x.id != 0 && IvKey(Unsigned(x.id), x.weather, x.pokemonId) !in old(cache)
    {
      if x.id == 0 {
        return false;
      }
      var encounterId := Unsigned(x.id);
      var cacheKey := IvKey(encounterId, x.weather, x.pokemonId);
      if cacheKey in cache {
        return false;
      }
      var monId := if x.isDitto then DITTO else x.pokemonId;
      rows := rows[encounterId := Row(encounter, monId, x.weather, Some(x.ivs))];
      if x.caches {
        cache := cache + {cacheKey};
      }
      return true;
    }

    /** `mon_lure_iv`. */
    method MonLureIv(x: Sighting) returns (isNew: bool)
      requires x.LureEncounter?
      modifies this
      ensures View() == Submit(old(View()), x)
      ensures isNew <==> IvKey(Unsigned(x.id), x.weather, x.pokemonId) !in old(cache)
    {
      var encounterId := Unsigned(x.id);
      var cacheKey := IvKey(encounterId, x.weather, x.pokemonId);
      if cacheKey in cache {
        return false;
      }
      var monId := if x.isDitto then DITTO else x.pokemonId;
      rows := rows[encounterId := Row(lure_encounter, monId, x.weather, Some(x.ivs))];
      cache := cache + {cacheKey};
      return true;
    }

    /** `mon_lure_noiv`. */
    method MonLureNoIv(xs: seq<Sighting>) returns (encounterIds: seq<int>)
      requires AllLureNoIv(xs)
      modifies this
      ensures View() == SubmitAll(old(View()), xs)
      ensures encounterIds == LuresReported(xs)
    {
      encounterIds := [];
      for i := 0 to |xs|
        invariant View() == SubmitAll(old(View()), xs[..i])
        invariant encounterIds == LuresReported(xs[..i])
      {
        var x := xs[i];
        assert xs[..i + 1][..i] == xs[..i];
        if x.pokemonId > 0 {
          var encounterId := Unsigned(x.id);
          encounterIds := encounterIds + [encounterId];
          var cacheKey := LureNoIvKey(encounterId);
          if cacheKey in cache {
            continue;
          }
          var mon := GetRow(encounterId);
          var row := if mon.Some? then mon.value else Row(lure_wild, x.pokemonId, x.weather, None);
          if x.commits {
            rows := rows[encounterId := row];
            cache := cache + {cacheKey};
          }
        }
      }
      assert xs[..|xs|] == xs;
    }
  }

  // ---------------------------------------------------------------- whole runs

  /** IVs are there exactly for rows in the IV types, and an IV key only for such a row. */
  ghost predicate Inv(s: State) {
    && (forall id :: id in s.rows ==> (s.rows[id].ivs.Some? <==> HasIvType(s.rows[id].seenType)))
    && (forall id, weather, pokemonId :: IvKey(id, weather, pokemonId) in s.cache ==>
          id in s.rows && HasIvType(s.rows[id].seenType))
  }

  lemma SubmitKeepsInv(s: State, x: Sighting)
    requires Inv(s)
    ensures Inv(Submit(s, x))
    ensures forall id :: id in s.rows ==> id in Submit(s, x).rows
    ensures forall id :: id in s.rows && HasIvType(s.rows[id].seenType) ==>
              HasIvType(Submit(s, x).rows[id].seenType)
  {}

  /** Over any sequence of sightings and expiries: rows stay, a row once encountered is never put
      back to a type without IVs, IVs are present exactly in the two IV types, and a hit on an IV
      key means that the row already carries IVs. */
  lemma {:induction false} SightingsKeepInv(s: State, xs: seq<Sighting>)
    requires Inv(s)
    ensures Inv(SubmitAll(s, xs))
    ensures forall id :: id in s.rows ==> id in SubmitAll(s, xs).rows
    ensures forall id :: id in s.rows && HasIvType(s.rows[id].seenType) ==>
              HasIvType(SubmitAll(s, xs).rows[id].seenType)
  {
    if xs != [] {
      SightingsKeepInv(s, xs[..|xs| - 1]);
      SubmitKeepsInv(SubmitAll(s, xs[..|xs| - 1]), xs[|xs| - 1]);
    }
  }

  // ---------------------------------------------------------------- whose IVs a row shows

  predicate IsIvSighting(x: Sighting) { x.Encounter? || x.LureEncounter? }

  function KeyOf(x: Sighting): Key
    requires IsIvSighting(x)
  {
    IvKey(Unsigned(x.id), x.weather, x.pokemonId)
  }

  /** Does the sighting get past the cache? */
  predicate Stores(s: State, x: Sighting) {
    IsIvSighting(x) && !(x.Encounter? && x.id == 0) && KeyOf(x) !in s.cache
  }

  /** The IV sighting of `id` that was stored last. */
  function LastStored(s: State, xs: seq<Sighting>, id: int): (r: Option<Sighting>)
    ensures r.Some? ==> IsIvSighting(r.value) && Unsigned(r.value.id) == id
  {
    if xs == [] then None
    else
      var init, x := xs[..|xs| - 1], xs[|xs| - 1];
      if Stores(SubmitAll(s, init), x) && Unsigned(x.id) == id then Some(x) else LastStored(s, init, id)
  }

  /** A row shows the IVs of the IV sighting stored last, whatever other handlers did since. */
  lemma {:induction false} IvsOfLastStored(s: State, xs: seq<Sighting>, id: int)
    requires id !in s.rows
    ensures var last, rows := LastStored(s, xs, id), SubmitAll(s, xs).rows;
            if last.Some? then id in rows && rows[id].ivs == Some(last.value.ivs)
            else id in rows ==> rows[id].ivs == None
  {
    if xs != [] {
      IvsOfLastStored(s, xs[..|xs| - 1], id);
    }
  }

  // ---------------------------------------------------------------- what a row shows

  /** Is the sighting stored: past the cache, complete, and committed? */
  predicate IsStored(s: State, x: Sighting) {
    match x
    case Wild(raw, pokemonId, _, commits, _) => commits && MonKey(Unsigned(raw), pokemonId) !in s.cache
    case Nearby(raw, pokemonId, weather, _, commits) =>
      && commits && MonKey(Unsigned(raw), pokemonId) !in s.cache && NearKey(Unsigned(raw), pokemonId) !in s.cache
      && IvKey(Unsigned(raw), weather, pokemonId) !in s.cache
    case Encounter(raw, pokemonId, weather, _, _, _) => raw != 0 && IvKey(Unsigned(raw), weather, pokemonId) !in s.cache
    case LureEncounter(raw, pokemonId, weather, _, _) => IvKey(Unsigned(raw), weather, pokemonId) !in s.cache
    case LureNoIv(raw, pokemonId, _, commits) => commits && pokemonId > 0 && LureNoIvKey(Unsigned(raw)) !in s.cache
    case Expire(_) => false
  }

  /** Is it a sighting of the encounter that is stored? */
  predicate StoredOf(s: State, x: Sighting, id: int) { !x.Expire? && Unsigned(x.id) == id && IsStored(s, x) }

  /** The stored sighting that made the row. */
  function FirstOf(s: State, xs: seq<Sighting>, id: int): Option<Sighting> {
    if xs == [] then None
    else
      var init, x := xs[..|xs| - 1], xs[|xs| - 1];
      var made := FirstOf(s, init, id);
      if made.None? && StoredOf(SubmitAll(s, init), x, id) then Some(x) else made
  }

  /** The stored sighting that wrote species and weather last; a lure without IVs writes them only when it
      makes the row. */
  function LastWriter(s: State, xs: seq<Sighting>, id: int): Option<Sighting> {
    if xs == [] then None
    else
      var init, x := xs[..|xs| - 1], xs[|xs| - 1];
      var before := LastWriter(s, init, id);
      if StoredOf(SubmitAll(s, init), x, id) && (x.LureNoIv? ==> before.None?) then Some(x) else before
  }

  /** Was a wild sighting of the encounter stored? */
  predicate WildStored(s: State, xs: seq<Sighting>, id: int) {
    xs != [] &&
    var init, x := xs[..|xs| - 1], xs[|xs| - 1];
    (x.Wild? && StoredOf(SubmitAll(s, init), x, id)) || WildStored(s, init, id)
  }

  /** The type a sighting gives a row it makes. */
  function OwnType(x: Sighting): (t: SeenType)
    ensures HasIvType(t) <==> IsIvSighting(x)
  {
    match x
    case Wild(_, _, _, _, _) => wild
    case Nearby(_, _, _, inCell, _) => if inCell then nearby_cell else nearby_stop
    case Encounter(_, _, _, _, _, _) => encounter
    case LureEncounter(_, _, _, _, _) => lure_encounter
    case _ => lure_wild
  }

  /** The species a row shows for a sighting: 132 when an encounter gives a ditto away. */
  function Species(x: Sighting): int
    requires !x.Expire?
  {
    if IsIvSighting(x) && x.isDitto then 132 else x.pokemonId
  }

  /** After any run there is a row of an encounter exactly if a sighting of it was stored. It shows species and
      weather of the one that wrote them last. Its type is that of the encounter stored last if there was
      one, else wild if a wild sighting was stored, else that of the sighting which made the row. */
  lemma {:induction false} RowShows(s: State, xs: seq<Sighting>, id: int)
    requires id !in s.rows
    ensures var after, made, writer := SubmitAll(s, xs), FirstOf(s, xs, id), LastWriter(s, xs, id);
            && (id in after.rows <==> made.Some?) && (made.Some? <==> writer.Some?)
            && (LastStored(s, xs, id).Some? || WildStored(s, xs, id) ==> made.Some?)
            && (made.Some? ==>
                  var row, stored := after.rows[id], LastStored(s, xs, id);
                  && !made.value.Expire? && !writer.value.Expire?
                  && (IsIvSighting(made.value) ==> stored.Some?)
                  && row.pokemonId == Species(writer.value) && row.weather == writer.value.weather
                  && row.seenType == (if stored.Some? then OwnType(stored.value)
                                      else if WildStored(s, xs, id) then wild
                                      else OwnType(made.value)))
  {
    if xs != [] {
      var init, x := xs[..|xs| - 1], xs[|xs| - 1];
      var before, after := SubmitAll(s, init), SubmitAll(s, xs);
      RowShows(s, init, id);
      StoresAgree(before, x);
      if !StoredOf(before, x, id) {
        assert Lookup(after, id) == Lookup(before, id);
      }
    }
  }

  lemma StoresAgree(s: State, x: Sighting)
    ensures Stores(s, x) <==> IsIvSighting(x) && IsStored(s, x)
  {}

  /** Does storing the sighting put this key into the cache? */
  predicate PutsKey(s: State, x: Sighting, key: Key) {
    && !x.Expire? && IsStored(s, x)
    && match x
       case Wild(raw, pokemonId, _, _, caches) => caches && key == MonKey(Unsigned(raw), pokemonId)
       case Nearby(raw, pokemonId, _, _, _) => key == NearKey(Unsigned(raw), pokemonId)
       case Encounter(raw, pokemonId, weather, _, _, caches) =>
         caches && key == IvKey(Unsigned(raw), weather, pokemonId)
       case LureEncounter(raw, pokemonId, weather, _, _) => key == IvKey(Unsigned(raw), weather, pokemonId)
       case _ => key == LureNoIvKey(Unsigned(x.id))
  }

  /** Step `i` put the key into the cache and it has not expired since. */
  predicate KeptSince(s: State, xs: seq<Sighting>, i: int, key: Key) {
    && 0 <= i < |xs| && PutsKey(SubmitAll(s, xs[..i]), xs[i], key)
    && forall j :: i < j < |xs| && xs[j].Expire? ==> key !in xs[j].keys
  }

  /** The cache has exactly the keys of what was stored and has not expired since. */
  lemma {:induction false} CacheMeaning(s: State, xs: seq<Sighting>, key: Key)
    requires key !in s.cache
    ensures key in SubmitAll(s, xs).cache <==> exists i :: KeptSince(s, xs, i, key)
  {
    if xs != [] {
      var n := |xs| - 1;
      var init, x := xs[..n], xs[n];
      CacheMeaning(s, init, key);
      CacheStep(SubmitAll(s, init), x, key);
      forall i | 0 <= i < n
        ensures KeptSince(s, xs, i, key) <==> KeptSince(s, init, i, key) && (x.Expire? ==> key !in x.keys)
      {
        assert init[..i] == xs[..i];
      }
      hide Submit;
      hide PutsKey;
      if PutsKey(SubmitAll(s, init), x, key) {
        assert KeptSince(s, xs, n, key);
      }
      if i :| KeptSince(s, xs, i, key) && i == n {
        assert PutsKey(SubmitAll(s, init), x, key);
      }
    }
  }

  lemma CacheStep(s: State, x: Sighting, key: Key)
    ensures key in Submit(s, x).cache <==> PutsKey(s, x, key) || (key in s.cache && (x.Expire? ==> key !in x.keys))
  {}

  /** The cache may hide a reroll: an encounter proto is shown by its row afterwards if and only
      if it got past the cache, or the proto stored last for that encounter has the same IVs. */
  lemma EncounterShownIff(s: State, xs: seq<Sighting>, x: Sighting)
    requires IsIvSighting(x) && !(x.Encounter? && x.id == 0) && Unsigned(x.id) !in s.rows
    requires Inv(s)
    ensures var before, after := SubmitAll(s, xs), SubmitAll(s, xs + [x]);
            var last := LastStored(s, xs, Unsigned(x.id));
            && Unsigned(x.id) in after.rows
            && (after.rows[Unsigned(x.id)].ivs == Some(x.ivs)
                <==> Stores(before, x) || (last.Some? && last.value.ivs == x.ivs))
  {
    assert (xs + [x])[..|xs|] == xs;
    SightingsKeepInv(s, xs);
    IvsOfLastStored(s, xs, Unsigned(x.id));
  }

  /** A run in which it does: the weather turns and turns back within the life of the cache key,
      and the row keeps showing the IVs of the other weather. */
  lemma WeatherTurnsBack(id: int, pokemonId: int, calm: int, windy: int, one: Ivs, two: Ivs)
    requires id > 0 && calm != windy && one != two
    ensures var first := Encounter(id, pokemonId, calm, one, false, true);
            var second := Encounter(id, pokemonId, windy, two, false, true);
            Lookup(SubmitAll(State(map[], {}), [first, second, first]), id)
              == Some(Row(encounter, pokemonId, windy, Some(two)))
  {
    var first := Encounter(id, pokemonId, calm, one, false, true);
    var second := Encounter(id, pokemonId, windy, two, false, true);
    var s0 := State(map[], {});
    var xs := [first, second, first];
    assert xs[..2] == [first, second] && xs[..2][..1] == [first] && [first][..0] == [];
    var s1 := Submit(s0, first);
    var s2 := Submit(s1, second);
    assert SubmitAll(s0, [first]) == s1;
    assert [first, second][..1] == [first];
    assert SubmitAll(s0, [first, second]) == s2;
    assert SubmitAll(s0, xs) == Submit(s2, first) == s2;
  }
}
