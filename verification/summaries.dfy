/**
 * The aggregator half of utils/physics.py: a player's zone percentages, a
 * player's card and the team leaderboard, all read back out of the frame
 * through the key scheme. Values are the unrounded reals; `None` stands for
 * the NaN pandas reports for an all-missing maximum.
 */
module Summaries {
  import opened Outcomes
  import opened Series
  import opened Frames
  import opened Text
  import opened Keys
  import opened Zones
  import opened Physics

  /** Speed in km/h above which a frame counts towards sprinting. */
  const SprintThreshold: real := 25.2
  /** Frames above the threshold that make up one sprint (one second at 25 Hz). */
  const FramesPerSprint: nat := 25
  /** Metres per kilometre. */
  const MetresPerKm: real := 1000.0

  /**
   * `get_distance_percentages` (lines 34-49): the speed key is read first,
   * then the distance key, and a missing one raises `KeyError`; otherwise
   * the zone percentages of the two stored series.
   */
  function DistancePercentages(f: Frame, id: string, team: string): (r: Result<ZoneShares>)
    requires f.WellFormed()
    ensures r.Ok? <==> SpeedKey(team, id) in NameSet(f) && DistKey(team, id) in NameSet(f)
    ensures SpeedKey(team, id) !in NameSet(f) ==> r == Err(MissingColumn(SpeedKey(team, id)))
    ensures SpeedKey(team, id) in NameSet(f) && DistKey(team, id) !in NameSet(f) ==>
      r == Err(MissingColumn(DistKey(team, id)))
    ensures r.Ok? ==>
      var speed, dist := Lookup(f, SpeedKey(team, id)).value, Lookup(f, DistKey(team, id)).value;
      |speed| == |dist| && r.value == Percentages(speed, dist)
  {
    match (Lookup(f, SpeedKey(team, id)), Lookup(f, DistKey(team, id)))
    case (None, _) => Err(MissingColumn(SpeedKey(team, id)))
    case (Some(_), None) => Err(MissingColumn(DistKey(team, id)))
    case (Some(speed), Some(dist)) =>
      Ok(Percentages(speed, dist))
  }

  /** `fast // 25` (line 58): the number of whole sprints in `fast` frames above the threshold. */
  function SprintsOf(fast: nat): (n: nat)
    ensures n * FramesPerSprint <= fast < (n + 1) * FramesPerSprint
  {
    fast / FramesPerSprint
  }

  /** Fewer than 25 fast frames make no sprint, and more fast frames never make fewer sprints. */
  lemma SprintsMonotone(a: nat, b: nat)
    ensures a < FramesPerSprint ==> SprintsOf(a) == 0
    ensures a <= b ==> SprintsOf(a) <= SprintsOf(b)
  {
    var na, nb := SprintsOf(a), SprintsOf(b);
    if a <= b {
      assert na * FramesPerSprint < (nb + 1) * FramesPerSprint;
    }
  }

  datatype Card = Card(totalKm: real, topSpeed: Option<real>, sprints: nat)

  /**
   * `get_player_card_stats` (lines 51-59): the distance key is read first (it
   * feeds the first entry), then the speed key. The card holds the summed
   * distance in km, the largest speed (none when every speed is missing) and
   * the whole sprints among the frames faster than 25.2 km/h.
   */
  function PlayerCardStats(f: Frame, id: string, team: string): (r: Result<Card>)
    requires f.WellFormed()
    ensures r.Ok? <==> SpeedKey(team, id) in NameSet(f) && DistKey(team, id) in NameSet(f)
    ensures DistKey(team, id) !in NameSet(f) ==> r == Err(MissingColumn(DistKey(team, id)))
    ensures DistKey(team, id) in NameSet(f) && SpeedKey(team, id) !in NameSet(f) ==>
      r == Err(MissingColumn(SpeedKey(team, id)))
    ensures r.Ok? ==>
      var speed, dist := Lookup(f, SpeedKey(team, id)).value, Lookup(f, DistKey(team, id)).value;
      && r.value.totalKm * MetresPerKm == Sum(dist)
      && (r.value.topSpeed.None? <==> forall i :: 0 <= i < |speed| ==> speed[i].None?)
      && (r.value.topSpeed.Some? ==> forall i :: 0 <= i < |speed| && speed[i].Some? ==> speed[i].value <= r.value.topSpeed.value)
      && (r.value.topSpeed.Some? ==> exists i :: 0 <= i < |speed| && speed[i] == r.value.topSpeed)
      && r.value.sprints * FramesPerSprint <= CountAbove(speed, SprintThreshold) < (r.value.sprints + 1) * FramesPerSprint
  {
    match (Lookup(f, DistKey(team, id)), Lookup(f, SpeedKey(team, id)))
    case (None, _) => Err(MissingColumn(DistKey(team, id)))
    case (Some(_), None) => Err(MissingColumn(SpeedKey(team, id)))
    case (Some(dist), Some(speed)) =>
      Ok(Card(Sum(dist) / MetresPerKm, Max(speed), SprintsOf(CountAbove(speed, SprintThreshold))))
  }

  /**
   * Positions, from `from` on, of the columns the leaderboard treats as
   * speed series (line 65): exactly those positions, in column order.
   */
  function SpeedPositions(cols: seq<Column>, team: string, from: nat): (idx: seq<nat>)
    requires from <= |cols|
    ensures forall k :: 0 <= k < |idx| ==> from <= idx[k] < |cols| && IsSpeedColumn(cols[idx[k]].name, team)
    ensures forall k, l :: 0 <= k < l < |idx| ==> idx[k] < idx[l]
    ensures forall i :: from <= i < |cols| && IsSpeedColumn(cols[i].name, team) ==> i in idx
  {
    Positions(cols, name => IsSpeedColumn(name, team), from)
  }

  /** A speed column's name contains `_`, so `split('_')[1]` exists. */
  lemma SpeedColumnHasUnderscore(name: string, team: string)
    requires IsSpeedColumn(name, team)
    ensures '_' in name
  {
    assert name[|team|] == (team + "_")[|team|];
  }

  datatype Row = Row(fullId: string, totalKm: real, topSpeed: Option<real>)

  /** The distance key the leaderboard pairs with speed column `name` (line 69). */
  function DistKeyFor(team: string, name: string): string
    requires IsSpeedColumn(name, team)
  {
    SpeedColumnHasUnderscore(name, team);
    LeaderboardDistKey(team, name)
  }

  /** The id the leaderboard reads out of speed column `name` (line 68). */
  function IdFor(team: string, name: string): string
    requires IsSpeedColumn(name, team)
  {
    SpeedColumnHasUnderscore(name, team);
    RecoveredId(name)
  }

  /**
   * The leaderboard row of speed column `c` (lines 68-75): `{team}_{id}`,
   * the summed distance in km and the top speed, or the `KeyError` of the
   * distance lookup.
   */
  function RowOf(f: Frame, team: string, c: Column): (r: Result<Row>)
    requires IsSpeedColumn(c.name, team)
    ensures r.Ok? <==> DistKeyFor(team, c.name) in NameSet(f)
    ensures r.Err? ==> r.error == MissingColumn(DistKeyFor(team, c.name))
    ensures r.Ok? ==> r.value.fullId == team + "_" + IdFor(team, c.name)
    ensures r.Ok? ==> r.value.totalKm * MetresPerKm == Sum(Lookup(f, DistKeyFor(team, c.name)).value)
    ensures r.Ok? ==> r.value.topSpeed == Max(c.values)
  {
    var key := DistKeyFor(team, c.name);
    match Lookup(f, key)
    case None => Err(MissingColumn(key))
    case Some(dist) => Ok(Row(team + "_" + IdFor(team, c.name), Sum(dist) / MetresPerKm, Max(c.values)))
  }

  /**
   * A loop that appends one result per step and stops at the first
   * exception: every value in order, or the first error.
   */
  function Collect<T>(rs: seq<Result<T>>): (r: Result<seq<T>>)
    ensures r.Ok? <==> forall k :: 0 <= k < |rs| ==> rs[k].Ok?
    ensures r.Ok? ==> |r.value| == |rs| && forall k :: 0 <= k < |rs| ==> rs[k] == Ok(r.value[k])
  {
    if |rs| == 0 then Ok([])
    else
      var tail := rs[1..];
      assert forall k :: 1 <= k < |rs| ==> rs[k] == tail[k - 1];
      match rs[0]
      case Err(e) => Err(e)
      case Ok(v) =>
        match Collect(tail)
        case Err(e) => Err(e)
        case Ok(vs) =>
          var all := [v] + vs;
          assert forall k :: 1 <= k < |rs| ==> all[k] == vs[k - 1];
          Ok(all)
  }

  /** The error of such a loop is that of the first step that fails. */
  lemma {:induction false} CollectFirstError<T>(rs: seq<Result<T>>)
    ensures Collect(rs).Err? ==> exists k :: (0 <= k < |rs| && rs[k].Err?
      && (forall j :: 0 <= j < k ==> rs[j].Ok?)
      && Collect(rs).error == rs[k].error)
  {
    if |rs| > 0 && rs[0].Ok? {
      var tail := rs[1..];
      assert forall k :: 1 <= k < |rs| ==> rs[k] == tail[k - 1];
      CollectFirstError(tail);
      if Collect(tail).Err? {
        var k :| 0 <= k < |tail| && tail[k].Err?
          && (forall j :: 0 <= j < k ==> tail[j].Ok?)
          && Collect(tail).error == tail[k].error;
        assert rs[k + 1].Err?;
      }
    }
  }

  /** The row results of the speed columns at positions `idx`, in that order. */
  function RowResults(f: Frame, team: string, idx: seq<nat>): (rs: seq<Result<Row>>)
    requires forall k :: 0 <= k < |idx| ==> idx[k] < |f.columns| && IsSpeedColumn(f.columns[idx[k]].name, team)
    ensures |rs| == |idx| && forall k :: 0 <= k < |idx| ==> rs[k] == RowOf(f, team, f.columns[idx[k]])
  {
    seq(|idx|, k requires 0 <= k < |idx| => RowOf(f, team, f.columns[idx[k]]))
  }

  /**
   * `get_team_physicals_surgical` (lines 61-77): one row per column that
   * starts with `{team}_` and ends with `_speed`, in column order, or the
   * `KeyError` of the first such column whose distance column is missing.
   */
  function TeamPhysicals(f: Frame, team: string): (r: Result<seq<Row>>)
    ensures var idx := SpeedPositions(f.columns, team, 0);
      r.Ok? ==> |r.value| == |idx| && forall k :: 0 <= k < |idx| ==>
        RowOf(f, team, f.columns[idx[k]]) == Ok(r.value[k])
    ensures r.Ok? <==> forall i :: 0 <= i < |f.columns| && IsSpeedColumn(f.columns[i].name, team) ==>
      DistKeyFor(team, f.columns[i].name) in NameSet(f)
    ensures var idx := SpeedPositions(f.columns, team, 0);
      r.Err? ==> exists k :: (0 <= k < |idx|
        && DistKeyFor(team, f.columns[idx[k]].name) !in NameSet(f)
        && (forall j :: 0 <= j < k ==> DistKeyFor(team, f.columns[idx[j]].name) in NameSet(f))
        && r.error == MissingColumn(DistKeyFor(team, f.columns[idx[k]].name)))
  {
    var idx := SpeedPositions(f.columns, team, 0);
    CollectFirstError(RowResults(f, team, idx));
    Collect(RowResults(f, team, idx))
  }

  /**
   * The zone percentages of a player the extractor published are defined,
   * nonnegative and add up to at most 100.
   */
  lemma PreparedPercentagesBounded(f: Frame, team: string, num: Numerics, id: string)
    requires f.WellFormed() && num.Valid()
    requires PreparePlayerData(f, team, num).Ok?
    requires id in PlayerIds(f, team)
    ensures var g := PreparePlayerData(f, team, num).value;
      && DistancePercentages(g, id, team).Ok?
      && (forall z :: DistancePercentages(g, id, team).value.Of(z) >= 0.0)
      && DistancePercentages(g, id, team).value.Total() <= 100.0
  {
    var g := PreparePlayerData(f, team, num).value;
    assert HoldsDistance(g, DistKey(team, id), f.rows) && HoldsSpeed(g, SpeedKey(team, id), f.rows);
    var speed, dist := Lookup(g, SpeedKey(team, id)).value, Lookup(g, DistKey(team, id)).value;
    PercentagesBounded(speed, dist);
  }

  /** Card `r` summarises track `d`: its summed distance, in km, and its fastest frame. */
  ghost predicate SummarisesTrack(r: Result<Card>, d: Derived) {
    && r.Ok?
    && r.value.totalKm * MetresPerKm == Sum(Present(d.dist))
    && (r.value.topSpeed.Some? ==>
          && (exists i :: 0 <= i < |d.speed| && d.speed[i] == r.value.topSpeed.value)
          && (forall i :: 0 <= i < |d.speed| ==> d.speed[i] <= r.value.topSpeed.value))
  }

  /**
   * The card of a player the extractor published is defined, with a
   * nonnegative distance, and with a top speed whenever the match has a
   * frame; it sums the distance and takes the top speed of the track derived
   * from the last x-column that reads the player's id.
   */
  lemma PreparedCard(f: Frame, team: string, num: Numerics, id: string)
    requires f.WellFormed() && num.Valid()
    requires PreparePlayerData(f, team, num).Ok?
    requires id in PlayerIds(f, team)
    ensures var g := PreparePlayerData(f, team, num).value;
      && PlayerCardStats(g, id, team).Ok?
      && PlayerCardStats(g, id, team).value.totalKm >= 0.0
      && (f.rows > 0 <==> PlayerCardStats(g, id, team).value.topSpeed.Some?)
    ensures var cs := PlayerChannels(f, team);
      var k := LastTrack(cs, id);
      && cs[k].x in NameSet(f) && PartnerY(cs[k].x) in NameSet(f)
      && SummarisesTrack(PlayerCardStats(PreparePlayerData(f, team, num).value, id, team), TrackOf(f, cs[k].x, num))
  {
    var g := PreparePlayerData(f, team, num).value;
    assert HoldsDistance(g, DistKey(team, id), f.rows) && HoldsSpeed(g, SpeedKey(team, id), f.rows);
    CardOfValidSeries(g, team, id, f.rows);
    var cs := PlayerChannels(f, team);
    var k := LastTrack(cs, id);
    assert HoldsTrack(f, g, team, cs[k], num);
    CardOfHeldTrack(g, team, id, TrackOf(f, cs[k].x, num));
  }

  /** The card of a player whose keys hold the two series of track `d`. */
  lemma CardOfHeldTrack(g: Frame, team: string, id: string, d: Derived)
    requires g.WellFormed()
    requires Lookup(g, DistKey(team, id)) == Some(Present(d.dist))
    requires Lookup(g, SpeedKey(team, id)) == Some(Present(d.speed))
    ensures SummarisesTrack(PlayerCardStats(g, id, team), d)
  {
    var r := PlayerCardStats(g, id, team);
    var speed := Present(d.speed);
    if r.value.topSpeed.Some? {
      var i :| 0 <= i < |speed| && speed[i] == r.value.topSpeed;
      assert d.speed[i] == r.value.topSpeed.value;
      forall j | 0 <= j < |d.speed| ensures d.speed[j] <= r.value.topSpeed.value {
        assert speed[j].Some?;
      }
    }
  }

  /** The card of a player whose two keys hold valid series. */
  lemma CardOfValidSeries(g: Frame, team: string, id: string, rows: nat)
    requires g.WellFormed()
    requires HoldsDistance(g, DistKey(team, id), rows) && HoldsSpeed(g, SpeedKey(team, id), rows)
    ensures PlayerCardStats(g, id, team).Ok?
    ensures PlayerCardStats(g, id, team).value.totalKm >= 0.0
    ensures rows > 0 <==> PlayerCardStats(g, id, team).value.topSpeed.Some?
  {
    var speed := Lookup(g, SpeedKey(team, id)).value;
    if rows > 0 {
      assert speed[0].Some?;
    }
  }

  /** A speed column's name ends in `d`, so it is never a distance key. */
  lemma SpeedColumnIsNotDistKey(name: string, team: string, team': string, id: string)
    requires IsSpeedColumn(name, team)
    ensures name != DistKey(team', id)
  {
    assert name[|name| - 1] == "_speed"[5];
  }

  /**
   * A speed column of the prepared frame that the input frame did not have is
   * the speed key of a published id.
   */
  lemma NewSpeedColumn(f: Frame, g: Frame, team: string, ids: set<string>, name: string)
    requires AddsKeys(f, g, team, ids)
    requires name in NameSet(g) && name !in NameSet(f) && IsSpeedColumn(name, team)
    ensures name in SpeedKeys(team, ids)
  {
    forall id | id in ids ensures name != DistKey(team, id) {
      SpeedColumnIsNotDistKey(name, team, team, id);
    }
  }

  /** Every speed column of a frame that gained the keys of `ids` is the speed key of one of them. */
  lemma SpeedColumnsArePublished(f: Frame, g: Frame, team: string, ids: set<string>)
    requires AddsKeys(f, g, team, ids)
    requires forall n :: n in NameSet(f) ==> !IsSpeedColumn(n, team)
    ensures forall i :: 0 <= i < |g.columns| && IsSpeedColumn(g.columns[i].name, team) ==>
      g.columns[i].name in SpeedKeys(team, ids)
  {
    forall i | 0 <= i < |g.columns| && IsSpeedColumn(g.columns[i].name, team)
      ensures g.columns[i].name in SpeedKeys(team, ids)
    {
      assert g.columns[i].name in NameSet(g);
      NewSpeedColumn(f, g, team, ids, g.columns[i].name);
    }
  }

  /** The speed key of an id free of `_` is read back as that id and paired with its distance key. */
  lemma PublishedSpeedColumn(team: string, ids: set<string>, name: string)
    requires '_' !in team && forall id :: id in ids ==> '_' !in id
    requires name in SpeedKeys(team, ids)
    ensures IsSpeedColumn(name, team)
    ensures IdFor(team, name) in ids && name == SpeedKey(team, IdFor(team, name))
    ensures DistKeyFor(team, name) == DistKey(team, IdFor(team, name))
  {
    var id :| id in ids && name == SpeedKey(team, id);
    SpeedKeyRoundTrip(team, id);
  }

  /** The preconditions shared by the leaderboard lemmas below. */
  ghost predicate Published(f: Frame, g: Frame, team: string, ids: set<string>) {
    && AddsKeys(f, g, team, ids)
    && '_' !in team && (forall id :: id in ids ==> '_' !in id)
    && (forall n :: n in NameSet(f) ==> !IsSpeedColumn(n, team))
  }

  /** Every speed column of such a frame finds its distance column, so the leaderboard succeeds. */
  lemma LeaderboardSucceeds(f: Frame, g: Frame, team: string, ids: set<string>)
    requires Published(f, g, team, ids)
    ensures TeamPhysicals(g, team).Ok?
  {
    SpeedColumnsArePublished(f, g, team, ids);
    forall i | 0 <= i < |g.columns| && IsSpeedColumn(g.columns[i].name, team)
      ensures DistKeyFor(team, g.columns[i].name) in NameSet(g)
    {
      PublishedSpeedColumn(team, ids, g.columns[i].name);
      assert DistKey(team, IdFor(team, g.columns[i].name)) in DistKeys(team, ids);
    }
  }

  /** Every row of such a frame's leaderboard is named after a published id. */
  lemma LeaderboardRowsArePublished(f: Frame, g: Frame, team: string, ids: set<string>, k: nat)
    requires Published(f, g, team, ids)
    requires TeamPhysicals(g, team).Ok? && k < |TeamPhysicals(g, team).value|
    ensures exists id :: id in ids && TeamPhysicals(g, team).value[k].fullId == team + "_" + id
  {
    SpeedColumnsArePublished(f, g, team, ids);
    var idx := SpeedPositions(g.columns, team, 0);
    PublishedSpeedColumn(team, ids, g.columns[idx[k]].name);
  }

  /** Every speed column has a leaderboard row, named after the id read out of it. */
  lemma ColumnHasRow(g: Frame, team: string, i: nat)
    requires TeamPhysicals(g, team).Ok?
    requires i < |g.columns| && IsSpeedColumn(g.columns[i].name, team)
    ensures exists k :: (0 <= k < |TeamPhysicals(g, team).value|
      && TeamPhysicals(g, team).value[k].fullId == team + "_" + IdFor(team, g.columns[i].name))
  {
    var idx := SpeedPositions(g.columns, team, 0);
    assert i in idx;
    var k :| 0 <= k < |idx| && idx[k] == i;
    assert TeamPhysicals(g, team).value[k].fullId == team + "_" + IdFor(team, g.columns[i].name);
  }

  /** Every published id has a row of such a frame's leaderboard. */
  lemma PublishedIdsHaveRows(f: Frame, g: Frame, team: string, ids: set<string>, id: string)
    requires Published(f, g, team, ids)
    requires TeamPhysicals(g, team).Ok? && id in ids
    ensures exists k :: 0 <= k < |TeamPhysicals(g, team).value| && TeamPhysicals(g, team).value[k].fullId == team + "_" + id
  {
    var key := SpeedKey(team, id);
    assert key in SpeedKeys(team, ids);
    assert key in NameSet(g);
    var i :| 0 <= i < |g.columns| && g.columns[i].name == key;
    PublishedSpeedColumn(team, ids, key);
    ColumnHasRow(g, team, i);
  }

  /** The names of a leaderboard's rows. */
  function FullIds(rows: seq<Row>): set<string> {
    set k | 0 <= k < |rows| :: rows[k].fullId
  }

  /** The row names the key scheme promises for `ids`. */
  function ExpectedIds(team: string, ids: set<string>): set<string> {
    set id | id in ids :: team + "_" + id
  }

  lemma RowNamesArePublished(f: Frame, g: Frame, team: string, ids: set<string>)
    requires Published(f, g, team, ids) && TeamPhysicals(g, team).Ok?
    ensures FullIds(TeamPhysicals(g, team).value) <= ExpectedIds(team, ids)
  {
    var rows := TeamPhysicals(g, team).value;
    forall full | full in FullIds(rows) ensures full in ExpectedIds(team, ids) {
      var k :| 0 <= k < |rows| && rows[k].fullId == full;
      LeaderboardRowsArePublished(f, g, team, ids, k);
    }
  }

  lemma PublishedNamesHaveRows(f: Frame, g: Frame, team: string, ids: set<string>)
    requires Published(f, g, team, ids) && TeamPhysicals(g, team).Ok?
    ensures ExpectedIds(team, ids) <= FullIds(TeamPhysicals(g, team).value)
  {
    forall full | full in ExpectedIds(team, ids) ensures full in FullIds(TeamPhysicals(g, team).value) {
      var id :| id in ids && full == team + "_" + id;
      PublishedIdsHaveRows(f, g, team, ids, id);
    }
  }

  /**
   * The leaderboard of a frame that gained the keys of `ids`, when the team
   * label and the ids are free of `_` and the frame had no speed columns
   * before: it succeeds, and its rows are named exactly `{team}_{id}` for the
   * ids in `ids`.
   */
  lemma LeaderboardOfPublished(f: Frame, g: Frame, team: string, ids: set<string>)
    requires Published(f, g, team, ids)
    ensures TeamPhysicals(g, team).Ok?
    ensures FullIds(TeamPhysicals(g, team).value) == ExpectedIds(team, ids)
  {
    LeaderboardSucceeds(f, g, team, ids);
    RowNamesArePublished(f, g, team, ids);
    PublishedNamesHaveRows(f, g, team, ids);
  }

  /**
   * The leaderboard of a frame prepared for `team` succeeds, and its rows are
   * named exactly `{team}_{id}` for the published ids, as long as neither the team label nor
   * any published id contains `_` and the input frame held no speed columns
   * of its own.
   */
  lemma LeaderboardAfterPrepare(f: Frame, team: string, num: Numerics)
    requires f.WellFormed() && num.Valid()
    requires PreparePlayerData(f, team, num).Ok?
    requires '_' !in team
    requires forall id :: id in PlayerIds(f, team) ==> '_' !in id
    requires forall n :: n in NameSet(f) ==> !IsSpeedColumn(n, team)
    ensures var g := PreparePlayerData(f, team, num).value;
      var ids := PlayerIds(f, team);
      && TeamPhysicals(g, team).Ok?
      && FullIds(TeamPhysicals(g, team).value) == ExpectedIds(team, ids)
  {
    var g := PreparePlayerData(f, team, num).value;
    var ids := PlayerIds(f, team);
    assert AddsKeys(f, g, team, ids);
    LeaderboardOfPublished(f, g, team, ids);
  }
}
