/** Assigning game accounts to devices: AccountHandler.py with the queries it uses from
    SettingsPogoauthHelper.py, and the cooldown of gamemechanicutil.py. */
module Accounts {
  import opened Sorting
  import opened SubrouteAllocation
  import opened Wrappers

  datatype BurnType = BAN | SUSPENDED | MAINTENANCE

  datatype LoginType = GOOGLE | PTC | OTHER_LOGIN

  datatype Purpose = IV_QUEST | LEVEL | QUEST | IV | MON_RAID

  datatype Burn = Burn(kind: BurnType, at: real)

  datatype Softban = Softban(at: real, location: Location)

  datatype Account = Account(
    id: int,
    username: string,
    loginType: LoginType,
    instance: int,
    device: Option<int>,
    burn: Option<Burn>,
    level: int,
    softban: Option<Softban>)

  /** Settings and library behaviour a request depends on. `matches` is the case-insensitive
      regular expression search of a username in a mail address. */
  datatype Config = Config(
    instance: int,
    restrictToInstance: bool,
    matches: (string, string) -> bool,
    dist: Metric)

  /** A request: the device, its Google mail, what for, where and when. */
  datatype Request = Request(
    device: int,
    googleMail: Option<string>,
    purpose: Purpose,
    location: Option<Location>,
    now: real)

  const MIN_LEVEL_RAID := 8
  const MIN_LEVEL_IV := 30
  const MAINTENANCE_COOLDOWN_HOURS := 24
  const QUEST_WALK_SPEED_CALCULATED := 16.67
  const DAY := 86400.0

  // ---------------------------------------------------------------- cooldowns

  /** The speed in m/s that `calculate_cooldown` assumes for a distance in metres. */
  function CooldownSpeed(distance: real, speed: real): real {
    if distance >= 1335000.0 then 180.43
    else if distance >= 1100000.0 then 176.2820513
    else if distance >= 1020000.0 then 168.3168317
    else if distance >= 1007000.0 then 171.2585034
    else if distance >= 948000.0 then 166.3157895
    else if distance >= 900000.0 then 164.8351648
    else if distance >= 897000.0 then 166.1111111
    else if distance >= 839000.0 then 158.9015152
    else if distance >= 802000.0 then 159.1269841
    else if distance >= 751000.0 then 152.6422764
    else if distance >= 700000.0 then 151.5151515
    else if distance >= 650000.0 then 146.3963964
    else if distance >= 600000.0 then 142.8571429
    else if distance >= 550000.0 then 138.8888889
    else if distance >= 500000.0 then 134.4086022
    else if distance >= 450000.0 then 129.3103448
    else if distance >= 400000.0 then 123.4567901
    else if distance >= 350000.0 then 116.6666667
    else if distance >= 328000.0 then 113.8888889
    else if distance >= 300000.0 then 108.6956522
    else if distance >= 250000.0 then 101.6260163
    else if distance >= 201000.0 then 90.54054054
    else if distance >= 175000.0 then 85.78431373
    else if distance >= 150000.0 then 78.125
    else if distance >= 125000.0 then 71.83908046
    else if distance >= 100000.0 then 64.1025641
    else if distance >= 90000.0 then 60.0
    else if distance >= 80000.0 then 55.55555556
    else if distance >= 70000.0 then 50.72463768
    else if distance >= 60000.0 then 47.61904762
    else if distance >= 45000.0 then 39.47368421
    else if distance >= 40000.0 then 35.0877193
    else if distance >= 35000.0 then 32.40740741
    else if distance >= 30000.0 then 29.41176471
    else if distance >= 25000.0 then 27.77777778
    else if distance >= 20000.0 then 27.77777778
    else if distance >= 15000.0 then 27.77777778
    else if distance >= 10000.0 then 23.80952381
    else if distance >= 8000.0 then 26.66666667
    else if distance >= 5000.0 then 22.34137623
    else if distance >= 4000.0 then 22.22222222
    else speed
  }

  const MAX_COOLDOWN := 7200.0

  function CalculateCooldown(distance: real, speed: real): real
    requires speed > 0.0
  {
    var delay := distance / CooldownSpeed(distance, speed);
    if delay > MAX_COOLDOWN then MAX_COOLDOWN else delay
  }

  /** The cooldowns players go by: so many minutes after a move of so many kilometres. */
  datatype Tabled = Tabled(km: real, minutes: real)

  const COOLDOWNS: seq<Tabled> := [
    Tabled(4.0, 3.0), Tabled(5.0, 3.73), Tabled(8.0, 5.0), Tabled(10.0, 7.0), Tabled(15.0, 9.0),
    Tabled(20.0, 12.0), Tabled(25.0, 15.0), Tabled(30.0, 17.0), Tabled(35.0, 18.0), Tabled(40.0, 19.0),
    Tabled(45.0, 19.0), Tabled(60.0, 21.0), Tabled(70.0, 23.0), Tabled(80.0, 24.0), Tabled(90.0, 25.0),
    Tabled(100.0, 26.0), Tabled(125.0, 29.0), Tabled(150.0, 32.0), Tabled(175.0, 34.0), Tabled(201.0, 37.0),
    Tabled(250.0, 41.0), Tabled(300.0, 46.0), Tabled(328.0, 48.0), Tabled(350.0, 50.0), Tabled(400.0, 54.0),
    Tabled(450.0, 58.0), Tabled(500.0, 62.0), Tabled(550.0, 66.0), Tabled(600.0, 70.0), Tabled(650.0, 74.0),
    Tabled(700.0, 77.0), Tabled(751.0, 82.0), Tabled(802.0, 84.0), Tabled(839.0, 88.0), Tabled(897.0, 90.0),
    Tabled(900.0, 91.0), Tabled(948.0, 95.0), Tabled(1007.0, 98.0), Tabled(1020.0, 101.0), Tabled(1100.0, 104.0)
  ]

  /** The assumed speed is the one that covers the last tabled distance reached in the minutes of the table,
      to a billionth; beyond all of them the cooldown is capped, below them the given speed counts. */
  lemma SpeedAsTabled(distance: real, speed: real, i: nat)
    requires i < |COOLDOWNS| && COOLDOWNS[i].km * 1000.0 <= distance < 1335000.0
    requires i + 1 < |COOLDOWNS| ==> distance < COOLDOWNS[i + 1].km * 1000.0
    ensures var metres := COOLDOWNS[i].km * 1000.0;
            var covered := COOLDOWNS[i].minutes * 60.0 * CooldownSpeed(distance, speed);
            -0.000000001 * metres <= covered - metres <= 0.000000001 * metres
  {}

  lemma SpeedBeyondTable(distance: real, speed: real)
    requires speed > 0.0
    ensures distance < 4000.0 ==> CooldownSpeed(distance, speed) == speed
    ensures distance >= 1335000.0 ==> CalculateCooldown(distance, speed) == MAX_COOLDOWN
  {}

  /** The cooldown at walking speed lies between 0 and two hours, and reaches two hours exactly
      from 7200 seconds at the speed of the 1100 km step on. */
  lemma CooldownBounds(distance: real)
    requires distance >= 0.0
    ensures var cd := CalculateCooldown(distance, QUEST_WALK_SPEED_CALCULATED);
            && 0.0 <= cd <= MAX_COOLDOWN
            && (cd == MAX_COOLDOWN <==> distance >= 176.2820513 * MAX_COOLDOWN)
  {}

  /** Where the assumed speed is the same a longer distance never waits less, and it waits longer
      as long as the shorter one is below the cap. */
  lemma CooldownMonotoneWithinStep(near: real, far: real, speed: real)
    requires 0.0 <= near < far && speed > 0.0 && CooldownSpeed(near, speed) == CooldownSpeed(far, speed)
    ensures var one, two := CalculateCooldown(near, speed), CalculateCooldown(far, speed);
            one <= two && (one < MAX_COOLDOWN ==> one < two)
  {
    hide CooldownSpeed;
    SpeedPositive(near, speed);
    QuotientOrder(near, far, CooldownSpeed(near, speed));
  }

  lemma SpeedPositive(distance: real, speed: real)
    requires speed > 0.0
    ensures CooldownSpeed(distance, speed) > 0.0
  {}

  lemma QuotientOrder(x: real, y: real, v: real)
    requires x < y && v > 0.0
    ensures x / v < y / v
  {}

  /** `below` is the speed on the stretch from `start` up to the threshold. */
  ghost predicate SpeedUpTo(start: real, threshold: real, speed: real, below: real) {
    forall d :: start <= d < threshold ==> CooldownSpeed(d, speed) == below
  }

  /** At the end of a stretch of one speed: exactly the distances beyond the share of the old in the
      new speed wait longer than the threshold itself, unless that is capped. */
  lemma LongerThanThreshold(start: real, threshold: real, d: real, speed: real, below: real)
    requires 0.0 <= start <= d < threshold && speed > 0.0 && SpeedUpTo(start, threshold, speed, below)
    ensures var above := CooldownSpeed(threshold, speed);
            WaitsLonger(d, threshold, speed)
            <==> threshold < MAX_COOLDOWN * above && d * above > threshold * below
  {
    hide CooldownSpeed;
    var above := CooldownSpeed(threshold, speed);
    assert CooldownSpeed(d, speed) == below;
    SpeedPositive(d, speed);
    SpeedPositive(threshold, speed);
    QuotientBound(threshold, above, MAX_COOLDOWN);
    CrossMultiplied(d, below, threshold, above);
  }

  lemma QuotientBound(x: real, v: real, bound: real)
    requires v > 0.0
    ensures x / v < bound <==> x < bound * v
  {
    var q := x / v;
    assert q * v == x;
    if q < bound {
      assert (bound - q) * v > 0.0;
    } else {
      assert (q - bound) * v >= 0.0;
    }
  }

  lemma CrossMultiplied(x: real, v: real, y: real, w: real)
    requires v > 0.0 && w > 0.0
    ensures x / v > y / w <==> x * w > y * v
  {
    var p, q := x / v, y / w;
    assert p * v == x && q * w == y;
    assert x * w - y * v == (p - q) * (v * w);
    assert v * w > 0.0;
    if p > q {
      assert (p - q) * (v * w) > 0.0;
    } else {
      assert (q - p) * (v * w) >= 0.0;
    }
  }

  /** The cooldown drops at a threshold, some shorter distance waiting longer, if and only if the
      assumed speed rises there and the threshold is not capped. */
  lemma CooldownDropsIff(start: real, threshold: real, speed: real, below: real)
    requires 0.0 <= start < threshold && speed > 0.0 && SpeedUpTo(start, threshold, speed, below)
    ensures Drops(start, threshold, speed)
       <==> CooldownSpeed(threshold, speed) > below && threshold < MAX_COOLDOWN * CooldownSpeed(threshold, speed)
  {
    hide CooldownSpeed;
    var above := CooldownSpeed(threshold, speed);
    assert CooldownSpeed(start, speed) == below;
    SpeedPositive(start, speed);
    SpeedPositive(threshold, speed);
    if above > below && threshold < MAX_COOLDOWN * above {
      var d := Beyond(start, threshold, below, above);
      LongerThanThreshold(start, threshold, d, speed, below);
      assert Drops(start, threshold, speed);
    } else {
      forall d | start <= d < threshold ensures !WaitsLonger(d, threshold, speed) {
        LongerThanThreshold(start, threshold, d, speed, below);
        if above <= below {
          NoShareBeyond(d, threshold, below, above);
        }
      }
    }
  }

  /** So it does at 948 km, among others. */
  lemma CooldownNotMonotone()
    ensures Drops(900000.0, 948000.0, QUEST_WALK_SPEED_CALCULATED)
  {
    assert SpeedUpTo(900000.0, 948000.0, QUEST_WALK_SPEED_CALCULATED, 164.8351648);
    CooldownDropsIff(900000.0, 948000.0, QUEST_WALK_SPEED_CALCULATED, 164.8351648);
  }

  predicate WaitsLonger(d: real, threshold: real, speed: real)
    requires speed > 0.0
  {
    CalculateCooldown(d, speed) > CalculateCooldown(threshold, speed)
  }

  ghost predicate Drops(start: real, threshold: real, speed: real)
    requires speed > 0.0
  {
    exists d :: start <= d < threshold && WaitsLonger(d, threshold, speed)
  }

  lemma NoShareBeyond(d: real, threshold: real, below: real, above: real)
    requires 0.0 <= d < threshold && 0.0 < above <= below
    ensures d * above <= threshold * below
  {
    NonNegativeProduct(threshold - d, above);
    NonNegativeProduct(threshold, below - above);
    assert (threshold - d) * above == threshold * above - d * above;
    assert threshold * (below - above) == threshold * below - threshold * above;
  }

  lemma NonNegativeProduct(x: real, y: real)
    requires x >= 0.0 && y >= 0.0
    ensures x * y >= 0.0
  {}

  /** A distance just below the threshold. */
  lemma Beyond(start: real, threshold: real, below: real, above: real) returns (d: real)
    requires 0.0 <= start < threshold && 0.0 < below < above
    ensures start <= d < threshold && d * above > threshold * below
  {
    var share := threshold * below / above;
    assert share * above == threshold * below;
    assert (threshold - share) * above == threshold * (above - below) > 0.0;
    assert share < threshold;
    var from := if start > share then start else share;
    d := (from + threshold) / 2.0;
    assert (d - share) * above > 0.0;
  }

  // ---------------------------------------------------------------- judging one account

  /** `_is_burnt`. */
  predicate IsBurnt(a: Account, now: real) {
    match a.burn
    case None => false
    case Some(Burn(BAN, _)) => true
    case Some(Burn(SUSPENDED, at)) => at + 7.0 * DAY > now
    case Some(Burn(MAINTENANCE, at)) => at + MAINTENANCE_COOLDOWN_HOURS as real * 3600.0 > now
  }

  /** `_is_usable_for_purpose`. */
  predicate IsUsableForPurpose(c: Config, a: Account, r: Request) {
    match r.purpose
    case MON_RAID => a.level >= MIN_LEVEL_RAID
    case IV => a.level >= MIN_LEVEL_IV
    case _ =>
      if r.purpose != LEVEL && a.level < MIN_LEVEL_IV then false
      else if r.purpose == LEVEL && a.level >= MIN_LEVEL_IV then false
      else if a.softban.None? then true
      else if r.location.None? then false
      else
        r.now > a.softban.value.at
          + CalculateCooldown(c.dist(a.softban.value.location, r.location.value), QUEST_WALK_SPEED_CALCULATED)
  }

  /** The level of the account suits the purpose. */
  predicate LevelFits(a: Account, purpose: Purpose) {
    match purpose
    case MON_RAID => a.level >= MIN_LEVEL_RAID
    case LEVEL => a.level < MIN_LEVEL_IV
    case _ => a.level >= MIN_LEVEL_IV
  }

  /** Whether the place where the account is to act matters for the purpose. */
  predicate NeedsLocation(purpose: Purpose) { purpose != MON_RAID && purpose != IV }

  /** Two hours after a softban only the level decides, provided that the request says where. */
  lemma SoftbanClears(c: Config, a: Account, r: Request)
    requires a.softban.Some?
    requires r.location.Some? ==> c.dist(a.softban.value.location, r.location.value) >= 0.0
    requires r.now > a.softban.value.at + MAX_COOLDOWN
    ensures IsUsableForPurpose(c, a, r)
       <==> LevelFits(a, r.purpose) && (NeedsLocation(r.purpose) ==> r.location.Some?)
  {
    if r.location.Some? {
      CooldownBounds(c.dist(a.softban.value.location, r.location.value));
    }
  }

  /** Without a place an account that was ever softbanned is never usable for quests and levelling,
      however long ago that was; one that never was is judged by its level alone. */
  lemma NoLocationNeverClears(c: Config, a: Account, r: Request)
    requires r.location.None? && NeedsLocation(r.purpose)
    ensures IsUsableForPurpose(c, a, r) <==> LevelFits(a, r.purpose) && a.softban.None?
  {}

  // ---------------------------------------------------------------- choosing an account

  predicate Available(c: Config, a: Account, device: int) {
    (!c.restrictToInstance || a.instance == c.instance) && (a.device == None || a.device == Some(device))
  }

  predicate Eligible(c: Config, a: Account, r: Request) {
    Available(c, a, r.device) && !IsBurnt(a, r.now) && IsUsableForPurpose(c, a, r)
  }

  predicate IsGoogleOfDevice(c: Config, a: Account, r: Request) {
    a.loginType != PTC && r.googleMail.Some? && r.googleMail.value != "" && c.matches(a.username, r.googleMail.value)
  }

  /** `_is_ptc_or_ggl_of_device`. */
  predicate IsPtcOrGoogleOfDevice(c: Config, a: Account, r: Request) {
    match a.loginType
    case PTC => true
    case GOOGLE => IsGoogleOfDevice(c, a, r)
    case OTHER_LOGIN => false
  }

  function LastBurn(a: Account): real {
    if a.burn.None? then 0.0 else a.burn.value.at
  }

  function Filter(xs: seq<Account>, p: Account -> bool): seq<Account> {
    if xs == [] then [] else (if p(xs[0]) then [xs[0]] else []) + Filter(xs[1..], p)
  }

  lemma {:induction false} FilterMember(xs: seq<Account>, p: Account -> bool, a: Account)
    ensures a in Filter(xs, p) <==> a in xs && p(a)
  {
    if xs != [] {
      assert xs == [xs[0]] + xs[1..];
      FilterMember(xs[1..], p, a);
    }
  }

  lemma {:induction false} FilterSorted(xs: seq<Account>, p: Account -> bool)
    requires Sorted(xs, LastBurn)
    ensures Sorted(Filter(xs, p), LastBurn)
  {
    if xs != [] {
      FilterSorted(xs[1..], p);
      var rest := Filter(xs[1..], p);
      forall j | 0 <= j < |rest| ensures LastBurn(xs[0]) <= LastBurn(rest[j]) {
        FilterMember(xs[1..], p, rest[j]);
        var i :| 0 <= i < |xs[1..]| && xs[1..][i] == rest[j];
        assert xs[i + 1] == rest[j];
      }
    }
  }

  /** The eligible accounts, the one burnt longest ago first. */
  function Candidates(c: Config, accounts: seq<Account>, r: Request): seq<Account> {
    SortBy(Filter(accounts, a => Eligible(c, a, r)), LastBurn)
  }

  /** The account a request gets: the first candidate that is a Google login of the device, else
      the first that the device may use at all. */
  function Choose(c: Config, accounts: seq<Account>, r: Request): Option<Account> {
    var candidates := Candidates(c, accounts, r);
    var google := Filter(candidates, a => IsGoogleOfDevice(c, a, r));
    var others := Filter(candidates, a => IsPtcOrGoogleOfDevice(c, a, r));
    if google != [] then Some(google[0]) else if others != [] then Some(others[0]) else None
  }

  /** What a granted account satisfies, why none is granted, and that the least recently burnt
      one is taken within the preferred group. */
  lemma ChooseMeaning(c: Config, accounts: seq<Account>, r: Request)
    ensures var got := Choose(c, accounts, r);
            && (got.Some? ==>
                  && got.value in accounts && Eligible(c, got.value, r)
                  && (IsGoogleOfDevice(c, got.value, r) || IsPtcOrGoogleOfDevice(c, got.value, r))
                  && (forall a :: a in accounts && Eligible(c, a, r) && IsGoogleOfDevice(c, a, r) ==>
                        IsGoogleOfDevice(c, got.value, r) && LastBurn(got.value) <= LastBurn(a))
                  && (!IsGoogleOfDevice(c, got.value, r) ==>
                        forall a :: a in accounts && Eligible(c, a, r) && IsPtcOrGoogleOfDevice(c, a, r) ==>
                          LastBurn(got.value) <= LastBurn(a)))
            && (got.None? <==> forall a :: a in accounts && Eligible(c, a, r) ==>
                  !IsGoogleOfDevice(c, a, r) && !IsPtcOrGoogleOfDevice(c, a, r))
  {
    hide IsGoogleOfDevice;
    hide IsPtcOrGoogleOfDevice;
    hide Eligible;
    var candidates := Candidates(c, accounts, r);
    var isGoogle := (a: Account) => IsGoogleOfDevice(c, a, r);
    var isOther := (a: Account) => IsPtcOrGoogleOfDevice(c, a, r);
    var google, others := Filter(candidates, isGoogle), Filter(candidates, isOther);
    var eligible := Filter(accounts, a => Eligible(c, a, r));
    SortBySorted(eligible, LastBurn);
    FilterSorted(candidates, isGoogle);
    FilterSorted(candidates, isOther);
    forall a
      ensures a in google <==> a in accounts && Eligible(c, a, r) && isGoogle(a)
      ensures a in others <==> a in accounts && Eligible(c, a, r) && isOther(a)
    {
      FilterMember(accounts, a => Eligible(c, a, r), a);
      SortByMember(eligible, LastBurn, a);
      FilterMember(candidates, isGoogle, a);
      FilterMember(candidates, isOther, a);
    }
    HeadIsLeast(google);
    HeadIsLeast(others);
  }

  lemma HeadIsLeast(xs: seq<Account>)
    requires Sorted(xs, LastBurn)
    ensures xs != [] ==> xs[0] in xs && forall a :: a in xs ==> LastBurn(xs[0]) <= LastBurn(a)
  {}

  // ---------------------------------------------------------------- bindings

  predicate UniqueIds(accounts: seq<Account>) {
    forall i, j :: 0 <= i < j < |accounts| ==> accounts[i].id != accounts[j].id
  }

  /** At most one account is bound to each device. */
  predicate AtMostOneEach(accounts: seq<Account>) {
    forall i, j :: 0 <= i < j < |accounts| && accounts[i].device.Some? ==> accounts[i].device != accounts[j].device
  }

  predicate Inv(accounts: seq<Account>) { UniqueIds(accounts) && AtMostOneEach(accounts) }

  /** `get_assigned_to_device`: the first account bound to the device, |accounts| if none is. */
  function AssignedTo(accounts: seq<Account>, device: int): (k: nat)
    ensures k <= |accounts|
    ensures k < |accounts| ==> accounts[k].device == Some(device)
    ensures forall i :: 0 <= i < k ==> accounts[i].device != Some(device)
  {
    if accounts == [] then 0
    else if accounts[0].device == Some(device) then 0
    else 1 + AssignedTo(accounts[1..], device)
  }

  function Unbind(accounts: seq<Account>, device: int): seq<Account> {
    var k := AssignedTo(accounts, device);
    if k < |accounts| then accounts[k := accounts[k].(device := None)] else accounts
  }

  /** Index of an account by its id, |accounts| if there is none. */
  function IndexOfId(accounts: seq<Account>, id: int): (k: nat)
    ensures k <= |accounts|
    ensures k < |accounts| ==> accounts[k].id == id
    ensures forall i :: 0 <= i < k ==> accounts[i].id != id
  {
    if accounts == [] then 0 else if accounts[0].id == id then 0 else 1 + IndexOfId(accounts[1..], id)
  }

  function Bind(accounts: seq<Account>, id: int, device: int): seq<Account> {
    var k := IndexOfId(accounts, id);
    if k < |accounts| then accounts[k := accounts[k].(device := Some(device))] else accounts
  }

  /** `get_account`, for a device that exists. */
  function Grant(c: Config, accounts: seq<Account>, r: Request): (seq<Account>, Option<Account>) {
    match Choose(c, accounts, r)
    case None => (accounts, None)
    case Some(a) => (Bind(Unbind(accounts, r.device), a.id, r.device), Some(a.(device := Some(r.device))))
  }

  /** `mark_burnt`: looks the account up once more, by instance, before writing. */
  function Mark(c: Config, accounts: seq<Account>, device: int, burn: Option<BurnType>, now: real): seq<Account> {
    var k := AssignedTo(accounts, device);
    if k < |accounts| && (!c.restrictToInstance || accounts[k].instance == c.instance) then
      accounts[k := accounts[k].(burn := if burn.Some? then Some(Burn(burn.value, now)) else None)]
    else accounts
  }

  // ---------------------------------------------------------------- the handler

  class AccountHandler {
    const c: Config
    var accounts: seq<Account>
    var devices: map<int, Option<string>>

    constructor (c: Config, accounts: seq<Account>, devices: map<int, Option<string>>)
      ensures this.c == c && this.accounts == accounts && this.devices == devices
    {
      this.c, this.accounts, this.devices := c, accounts, devices;
    }

    /** `get_account`. */
    method GetAccount(device: int, purpose: Purpose, location: Option<Location>, now: real)
      returns (login: Option<Account>)
      modifies this`accounts
      ensures device !in devices ==> login == None && accounts == old(accounts)
      ensures device in devices ==>
                (accounts, login) == Grant(c, old(accounts), Request(device, devices[device], purpose, location, now))
    {
      hide IsPtcOrGoogleOfDevice;
      hide Eligible;
      if device !in devices {
        return None;
      }
      var r := Request(device, devices[device], purpose, location, now);
      var filtered := Filter(accounts, a => Eligible(c, a, r));
      filtered := SortBy(filtered, LastBurn);
      var isGoogle := (a: Account) => IsGoogleOfDevice(c, a, r);
      var isOther := (a: Account) => IsPtcOrGoogleOfDevice(c, a, r);
      login := None;
      for i := 0 to |filtered|
        invariant Filter(filtered, isGoogle) == Filter(filtered[i..], isGoogle)
        invariant login == None
      {
        assert filtered[i..][0] == filtered[i] && filtered[i..][1..] == filtered[i + 1..];
        if filtered[i].loginType == PTC {
          continue;
        } else if r.googleMail.Some? && r.googleMail.value != ""
                  && c.matches(filtered[i].username, r.googleMail.value) {
          login := Some(filtered[i]);
          break;
        }
      }
      if login.None? {
        var usable := Filter(filtered, isOther);
        if usable == [] {
          return None;
        }
        login := Some(usable[0]);
      }
      assert login == Choose(c, accounts, r);
      var current := AssignedTo(accounts, device);
      if current < |accounts| {
        accounts := accounts[current := accounts[current].(device := None)];
      }
      var k := IndexOfId(accounts, login.value.id);
      if k < |accounts| {
        accounts := accounts[k := accounts[k].(device := Some(device))];
      }
      return Some(login.value.(device := Some(device)));
    }

    /** `notify_logout`. */
    method NotifyLogout(device: int)
      modifies this`accounts
      ensures accounts == Unbind(old(accounts), device)
    {
      var k := AssignedTo(accounts, device);
      if k < |accounts| {
        accounts := accounts[k := accounts[k].(device := None)];
      }
    }

    /** `mark_burnt`. */
    method MarkBurnt(device: int, burn: Option<BurnType>, now: real)
      modifies this`accounts
      ensures accounts == Mark(c, old(accounts), device, burn, now)
    {
      var k := AssignedTo(accounts, device);
      if k == |accounts| {
        return;
      }
      if c.restrictToInstance && accounts[k].instance != c.instance {
        return;
      }
      if burn.None? {
        accounts := accounts[k := accounts[k].(burn := None)];
      } else {
        accounts := accounts[k := accounts[k].(burn := Some(Burn(burn.value, now)))];
      }
    }
  }

  // ---------------------------------------------------------------- one request

  /** The bindings changed by giving account `id` to `device`: it was free or the device's own,
      what else the device held is freed, and nothing else changes. */
  predicate Rebound(before: seq<Account>, after: seq<Account>, id: int, device: int) {
    && |after| == |before|
    && (forall i :: 0 <= i < |before| ==> after[i] == before[i].(device := after[i].device))
    && (forall i :: 0 <= i < |before| && before[i].id == id ==>
          (before[i].device == None || before[i].device == Some(device)) && after[i].device == Some(device))
    && (forall i :: 0 <= i < |before| && before[i].id != id ==>
          after[i].device == if before[i].device == Some(device) then None else before[i].device)
  }

  lemma RebindSafe(accounts: seq<Account>, i: nat, device: int)
    requires Inv(accounts) && i < |accounts|
    requires accounts[i].device == None || accounts[i].device == Some(device)
    ensures var after := Bind(Unbind(accounts, device), accounts[i].id, device);
            && Inv(after) && Rebound(accounts, after, accounts[i].id, device)
            && after[i] == accounts[i].(device := Some(device))
  {
    var free := Unbind(accounts, device);
    UnbindSafe(accounts, device);
    assert free[i].id == accounts[i].id;
    BindSafe(free, i, device);
  }

  /** A request keeps one account per device, gives out an account that nobody else held, frees
      what the device held before, and touches no other binding. */
  lemma GrantSafe(c: Config, accounts: seq<Account>, r: Request)
    requires Inv(accounts)
    ensures var (after, got) := Grant(c, accounts, r);
            && Inv(after)
            && (got.None? ==> after == accounts)
            && (got.Some? ==> got.value in after && got.value.device == Some(r.device)
                              && Rebound(accounts, after, got.value.id, r.device))
  {
    ChooseMeaning(c, accounts, r);
    var got := Choose(c, accounts, r);
    if got.Some? {
      var i :| 0 <= i < |accounts| && accounts[i] == got.value;
      RebindSafe(accounts, i, r.device);
    }
  }

  // ---------------------------------------------------------------- which account a request gets

  /** When a burn mark stops keeping an account back. */
  predicate Cleared(mark: Option<Burn>, now: real) {
    match mark
    case None => true
    case Some(Burn(BAN, _)) => false
    case Some(Burn(SUSPENDED, at)) => now >= at + 604800.0
    case Some(Burn(MAINTENANCE, at)) => now >= at + 86400.0
  }

  /** A softban does not keep the account from acting where the request says. */
  predicate CooledDown(c: Config, a: Account, r: Request) {
    a.softban.Some? ==>
      && r.location.Some?
      && r.now > a.softban.value.at
           + CalculateCooldown(c.dist(a.softban.value.location, r.location.value), QUEST_WALK_SPEED_CALCULATED)
  }

  /** Everything a request asks of an account. */
  predicate MayHave(c: Config, a: Account, r: Request) {
    && (c.restrictToInstance ==> a.instance == c.instance)
    && (a.device == None || a.device == Some(r.device))
    && Cleared(a.burn, r.now)
    && LevelFits(a, r.purpose)
    && (NeedsLocation(r.purpose) ==> CooledDown(c, a, r))
    && (a.loginType == PTC
        || (r.googleMail.Some? && r.googleMail.value != "" && c.matches(a.username, r.googleMail.value)))
  }

  /** A request gets an account exactly if there is one it may have: unbound or its own, not burnt, of
      fitting level, cooled down where that matters, and a PTC login or a Google login of the device. A
      Google login comes first, and among equals the one burnt longest ago. */
  lemma GrantMeaning(c: Config, accounts: seq<Account>, r: Request)
    ensures var got := Grant(c, accounts, r).1;
            && (got.None? <==> forall a :: a in accounts ==> !MayHave(c, a, r))
            && (got.Some? ==>
                  exists a :: && a in accounts && MayHave(c, a, r) && got.value == a.(device := Some(r.device))
                              && forall b :: b in accounts && MayHave(c, b, r) ==> !Preferred(b, a))
  {
    ChooseMeaning(c, accounts, r);
    forall a
      ensures MayHave(c, a, r) <==>
                Eligible(c, a, r) && (IsGoogleOfDevice(c, a, r) || IsPtcOrGoogleOfDevice(c, a, r))
      ensures MayHave(c, a, r) ==> (IsGoogleOfDevice(c, a, r) <==> a.loginType != PTC)
    {
      EligibleMeaning(c, a, r);
    }
    hide MayHave;
    hide Eligible;
    hide IsGoogleOfDevice;
    hide IsPtcOrGoogleOfDevice;
    hide Choose;
  }

  /** Of two accounts a request may have, is `b` the better choice? */
  predicate Preferred(b: Account, a: Account) {
    if (b.loginType == PTC) == (a.loginType == PTC) then BurntEarlier(b.burn, a.burn) else a.loginType == PTC
  }

  /** Never burnt counts as burnt at the beginning of time, 1970. */
  predicate BurntEarlier(one: Option<Burn>, two: Option<Burn>) {
    match (one, two)
    case (Some(x), Some(y)) => x.at < y.at
    case (None, Some(y)) => 0.0 < y.at
    case (Some(x), None) => x.at < 0.0
    case (None, None) => false
  }

  lemma EligibleMeaning(c: Config, a: Account, r: Request)
    ensures MayHave(c, a, r) <==>
              Eligible(c, a, r) && (IsGoogleOfDevice(c, a, r) || IsPtcOrGoogleOfDevice(c, a, r))
    ensures MayHave(c, a, r) ==> (IsGoogleOfDevice(c, a, r) <==> a.loginType != PTC)
  {
    hide CalculateCooldown;
  }

  /** Binding an account to a device that nobody is bound to. */
  lemma BindSafe(accounts: seq<Account>, i: nat, device: int)
    requires Inv(accounts) && i < |accounts|
    requires forall j :: 0 <= j < |accounts| ==> accounts[j].device != Some(device)
    ensures Bind(accounts, accounts[i].id, device) == accounts[i := accounts[i].(device := Some(device))]
    ensures Inv(Bind(accounts, accounts[i].id, device))
  {
    assert IndexOfId(accounts, accounts[i].id) == i;
  }

  /** Unbinding the first account of a device unbinds the only one. */
  lemma UnbindSafe(accounts: seq<Account>, device: int)
    requires Inv(accounts)
    ensures var after := Unbind(accounts, device);
            && Inv(after) && |after| == |accounts|
            && (forall i :: 0 <= i < |accounts| ==>
                  after[i] == if accounts[i].device == Some(device) then accounts[i].(device := None) else accounts[i])
  {}

  // ---------------------------------------------------------------- whole runs

  datatype Action =
    | Get(r: Request)
    | Logout(device: int)
    | Burnt(device: int, kind: Option<BurnType>, now: real)
    | SetSoftban(device: int, softban: Softban)
    | SetLevel(device: int, level: int)

  function Step(c: Config, accounts: seq<Account>, a: Action): seq<Account> {
    match a
    case Get(r) => Grant(c, accounts, r).0
    case Logout(device) => Unbind(accounts, device)
    case Burnt(device, kind, now) => Mark(c, accounts, device, kind, now)
    case SetSoftban(device, softban) =>
      var k := AssignedTo(accounts, device);
      if k < |accounts| then accounts[k := accounts[k].(softban := Some(softban))] else accounts
    case SetLevel(device, level) =>
      var k := AssignedTo(accounts, device);
      if k < |accounts| then accounts[k := accounts[k].(level := level)] else accounts
  }

  function Run(c: Config, accounts: seq<Account>, run: seq<Action>): seq<Account> {
    if run == [] then accounts else Step(c, Run(c, accounts, run[..|run| - 1]), run[|run| - 1])
  }

  /** Does this action mark the account with this id? */
  predicate Marks(c: Config, accounts: seq<Account>, a: Action, id: int) {
    a.Burnt? &&
    var k := AssignedTo(accounts, a.device);
    k < |accounts| && accounts[k].id == id && (!c.restrictToInstance || accounts[k].instance == c.instance)
  }

  /** The burn an account carries by the marks made in a run, starting from `initial`. */
  function LastMark(c: Config, accounts: seq<Account>, run: seq<Action>, id: int, initial: Option<Burn>): Option<Burn> {
    if run == [] then initial
    else
      var init, a := run[..|run| - 1], run[|run| - 1];
      if Marks(c, Run(c, accounts, init), a, id) then
        (if a.kind.Some? then Some(Burn(a.kind.value, a.now)) else None)
      else LastMark(c, accounts, init, id, initial)
  }

  lemma StepSafe(c: Config, accounts: seq<Account>, a: Action, i: nat)
    requires Inv(accounts) && i < |accounts|
    ensures var after := Step(c, accounts, a);
            && Inv(after) && |after| == |accounts| && after[i].id == accounts[i].id
            && after[i].burn == if Marks(c, accounts, a, accounts[i].id)
                                then (if a.kind.Some? then Some(Burn(a.kind.value, a.now)) else None)
                                else accounts[i].burn
  {
    match a
    case Get(r) => GrantSafe(c, accounts, r);
    case Logout(device) => UnbindSafe(accounts, device);
    case _ =>
  }

  /** Over whole runs: at most one account is bound to each device, and nothing but marks changes
      what an account is known to be burnt by. */
  lemma {:induction false} RunSafe(c: Config, accounts: seq<Account>, run: seq<Action>, i: nat)
    requires Inv(accounts) && i < |accounts|
    ensures var after := Run(c, accounts, run);
            && Inv(after) && |after| == |accounts| && after[i].id == accounts[i].id
            && after[i].burn == LastMark(c, accounts, run, accounts[i].id, accounts[i].burn)
  {
    if run != [] {
      RunSafe(c, accounts, run[..|run| - 1], i);
      StepSafe(c, Run(c, accounts, run[..|run| - 1]), run[|run| - 1], i);
    }
  }

  /** The device an account is bound to by the requests and logouts of a run, starting from `initial`: the
      account a request gets goes to its device, and whatever else was bound there is free. */
  function LastBinding(c: Config, accounts: seq<Account>, run: seq<Action>, id: int, initial: Option<int>)
    : Option<int>
  {
    if run == [] then initial
    else
      var init, a := run[..|run| - 1], run[|run| - 1];
      var before := LastBinding(c, accounts, init, id, initial);
      match a
      case Get(r) =>
        var got := Grant(c, Run(c, accounts, init), r).1;
        if got.None? then before
        else if got.value.id == id then Some(r.device)
        else if before == Some(r.device) then None
        else before
      case Logout(device) => if before == Some(device) then None else before
      case _ => before
  }

  /** What never changes. */
  predicate SamePerson(a: Account, b: Account) {
    a.id == b.id && a.username == b.username && a.loginType == b.loginType && a.instance == b.instance
  }

  lemma StepBinds(c: Config, accounts: seq<Account>, a: Action, i: nat)
    requires Inv(accounts) && i < |accounts|
    ensures var after := Step(c, accounts, a);
            && |after| == |accounts| && SamePerson(after[i], accounts[i])
            && after[i].device == LastBinding(c, accounts, [a], accounts[i].id, accounts[i].device)
  {
    assert [a][..0] == [];
    match a
    case Get(r) => GrantSafe(c, accounts, r);
    case Logout(device) => UnbindSafe(accounts, device);
    case _ =>
  }

  /** Over whole runs an account is bound as the last request or logout that concerned it left it; marks, softbans
      and levels do not touch bindings. */
  lemma {:induction false} RunBinds(c: Config, accounts: seq<Account>, run: seq<Action>, i: nat)
    requires Inv(accounts) && i < |accounts|
    ensures var after := Run(c, accounts, run);
            && |after| == |accounts| && SamePerson(after[i], accounts[i])
            && after[i].device == LastBinding(c, accounts, run, accounts[i].id, accounts[i].device)
  {
    if run != [] {
      var init, a := run[..|run| - 1], run[|run| - 1];
      RunBinds(c, accounts, init, i);
      RunSafe(c, accounts, init, i);
      var before := Run(c, accounts, init);
      StepBinds(c, before, a, i);
      assert [a][..0] == [];
      hide Step;
      hide Grant;
    }
  }

  /** After any run, a request only gets an account whose last mark has cleared: never after a
      ban, seven days after a suspension, a day after maintenance. It held no other device's
      account, and every device still has at most one. */
  lemma NoBurntAccountGranted(c: Config, accounts: seq<Account>, run: seq<Action>, r: Request)
    requires Inv(accounts)
    ensures var now := Run(c, accounts, run);
            var (after, got) := Grant(c, now, r);
            && Inv(after)
            && (got.Some? ==>
                  exists i :: 0 <= i < |accounts| == |now| && accounts[i].id == got.value.id
                    && Cleared(LastMark(c, accounts, run, accounts[i].id, accounts[i].burn), r.now)
                    && (now[i].device == None || now[i].device == Some(r.device)))
  {
    var now := Run(c, accounts, run);
    if accounts != [] {
      RunSafe(c, accounts, run, 0);
      GrantSafe(c, now, r);
      ChooseMeaning(c, now, r);
      var got := Choose(c, now, r);
      if got.Some? {
        var i :| 0 <= i < |now| && now[i] == got.value;
        RunSafe(c, accounts, run, i);
        assert !IsBurnt(now[i], r.now);
      }
    } else {
      EmptyRun(c, run);
      GrantSafe(c, now, r);
    }
  }

  lemma {:induction false} EmptyRun(c: Config, run: seq<Action>)
    ensures Run(c, [], run) == []
  {
    if run != [] {
      EmptyRun(c, run[..|run| - 1]);
      var a := run[|run| - 1];
      if a.Get? {
        ChooseMeaning(c, [], a.r);
      }
    }
  }
}
