/**
 * The kinematics extractor of utils/physics.py (`prepare_player_data`):
 * deriving per-player distance and speed series from position columns and
 * publishing them under the player's keys.
 */
module Physics {
  import opened Outcomes
  import opened Series
  import opened Frames
  import opened Keys
  import opened Zones

  /**
   * The numeric routines the extractor calls but the model does not define:
   * the square root, pandas' 95th percentile, the centred rolling median
   * (window 31, missing where the window does not fit) and the
   * Savitzky-Golay filter (window 21, order 3).
   */
  datatype Numerics = Numerics(
    sqrt: real -> real,
    quantile95: seq<real> -> real,
    rollingMedian: seq<real> -> seq<Sample>,
    savgol: seq<real> -> seq<real>)
  {
    /** What the model assumes of them: a nonnegative root, a nonnegative percentile of nonnegative data, length-preserving filters. */
    ghost predicate Valid() {
      && SqrtLike(sqrt)
      && (forall s: seq<real> :: (forall i :: 0 <= i < |s| ==> s[i] >= 0.0) ==> quantile95(s) >= 0.0)
      && (forall s: seq<real> :: |rollingMedian(s)| == |s|)
      && (forall s: seq<real> :: |savgol(s)| == |s|)
    }
  }

  /** Headroom above the 95th percentile before a speed counts as a glitch. */
  const ClipFactor: real := 1.5

  /** The clipping bound for a raw speed series: 1.5 times its 95th percentile. */
  function ClipBound(raw: seq<real>, num: Numerics): real {
    ClipFactor * num.quantile95(raw)
  }

  /**
   * Raw speed clipped against its bound (lines 20-22): nothing above the
   * bound, everything at or below it unchanged, and nonnegative for a
   * nonnegative distance series.
   */
  function CleanSpeed(dist: seq<real>, num: Numerics): (v: seq<real>)
    requires num.Valid()
    ensures |v| == |dist|
    ensures forall i :: 0 <= i < |v| ==> v[i] <= ClipBound(RawSpeed(dist), num)
    ensures forall i :: 0 <= i < |v| && RawSpeed(dist)[i] <= ClipBound(RawSpeed(dist), num) ==>
      v[i] == RawSpeed(dist)[i]
    ensures (forall i :: 0 <= i < |dist| ==> dist[i] >= 0.0) ==> forall i :: 0 <= i < |v| ==> v[i] >= 0.0
  {
    var raw := RawSpeed(dist);
    var bound := ClipBound(raw, num);
    assert (forall i :: 0 <= i < |dist| ==> dist[i] >= 0.0) ==>
      forall i :: 0 <= i < |raw| ==> Clip(raw, bound)[i] >= 0.0 by {
      if forall i :: 0 <= i < |dist| ==> dist[i] >= 0.0 {
        assert forall i :: 0 <= i < |raw| ==> raw[i] >= 0.0;
        assert num.quantile95(raw) >= 0.0;
        ClipNonnegative(raw, bound);
      }
    }
    Clip(raw, bound)
  }

  /** Rolling median with missing edges filled by 0, then Savitzky-Golay (lines 25-26). */
  function SmoothSpeed(clean: seq<real>, num: Numerics): (v: seq<real>)
    requires num.Valid()
    ensures |v| == |clean|
  {
    num.savgol(FillMissing(num.rollingMedian(clean), 0.0))
  }

  /** A published distance series: one present, nonnegative entry per frame, the first 0. */
  predicate DistanceColumn(s: seq<Sample>, rows: nat) {
    && |s| == rows
    && (forall i :: 0 <= i < |s| ==> s[i].Some? && s[i].value >= 0.0)
    && (rows > 0 ==> s[0] == Some(0.0))
  }

  /** A published speed series: one present entry per frame. */
  predicate SpeedColumn(s: seq<Sample>, rows: nat) {
    |s| == rows && forall i :: 0 <= i < |s| ==> s[i].Some?
  }

  datatype Derived = Derived(dist: seq<real>, speed: seq<real>)

  /** Distance and final speed of one track (lines 17-26). */
  function Derive(xs: seq<Sample>, ys: seq<Sample>, num: Numerics): (d: Derived)
    requires |xs| == |ys| && num.Valid()
    ensures |d.dist| == |xs| && |d.speed| == |xs|
    ensures DistanceColumn(Present(d.dist), |xs|)
    ensures SpeedColumn(Present(d.speed), |xs|)
  {
    var dist := StepDistance(xs, ys, num.sqrt);
    Derived(dist, SmoothSpeed(CleanSpeed(dist, num), num))
  }

  /** Positions of the columns the extractor processes (line 7), in column order. */
  function XPositions(cols: seq<Column>, team: string): (idx: seq<nat>)
    ensures forall k :: 0 <= k < |idx| ==> idx[k] < |cols| && IsXColumn(cols[idx[k]].name, team)
    ensures forall k, l :: 0 <= k < l < |idx| ==> idx[k] < idx[l]
    ensures forall i :: 0 <= i < |cols| && IsXColumn(cols[i].name, team) ==> i in idx
  {
    Positions(cols, name => IsXColumn(name, team), 0)
  }

  /**
   * `x_cols` (line 7): the names of the processed columns in column order,
   * the order in which the loop visits them.
   */
  function XColumns(cols: seq<Column>, team: string): (xs: seq<string>)
    ensures var idx := XPositions(cols, team);
      |xs| == |idx| && forall k :: 0 <= k < |xs| ==> xs[k] == cols[idx[k]].name
    ensures forall k :: 0 <= k < |xs| ==> IsXColumn(xs[k], team)
    ensures forall i :: 0 <= i < |cols| && IsXColumn(cols[i].name, team) ==> cols[i].name in xs
  {
    var idx := XPositions(cols, team);
    var xs := seq(|idx|, k requires 0 <= k < |idx| => cols[idx[k]].name);
    assert forall i :: 0 <= i < |cols| && IsXColumn(cols[i].name, team) ==> cols[i].name in xs by {
      forall i | 0 <= i < |cols| && IsXColumn(cols[i].name, team) ensures cols[i].name in xs {
        var k :| 0 <= k < |idx| && idx[k] == i;
        assert xs[k] == cols[i].name;
      }
    }
    xs
  }

  /**
   * What one iteration reads from x-column `x` before it touches the frame
   * (lines 12-14): the player id and whether that id names a ball channel.
   */
  datatype Channel = Channel(x: string, id: string, ball: bool)

  function ChannelOf(x: string, team: string): Channel {
    var id := ExtractId(x, team);
    Channel(x, id, IsBall(id))
  }

  /** The channels of x-columns `xs`, in the same order. */
  function Channels(xs: seq<string>, team: string): (cs: seq<Channel>)
    ensures |cs| == |xs| && forall k :: 0 <= k < |xs| ==> cs[k] == ChannelOf(xs[k], team)
  {
    seq(|xs|, k requires 0 <= k < |xs| => ChannelOf(xs[k], team))
  }

  /** The channels the loop of `prepare_player_data` visits, in visiting order. */
  function PlayerChannels(f: Frame, team: string): seq<Channel> {
    Channels(XColumns(f.columns, team), team)
  }

  /** A name ending in an x-axis letter, as every processed column does. */
  predicate AxisX(x: string) {
    |x| >= 1 && (x[|x| - 1] == 'x' || x[|x| - 1] == 'X')
  }

  /** Every channel reads a position column of `f`. */
  predicate Readable(f: Frame, cs: seq<Channel>) {
    forall k :: 0 <= k < |cs| ==> AxisX(cs[k].x) && cs[k].x in NameSet(f)
  }

  /** The ids published for channels `cs`: all but the ball channels'. */
  function PublishedIds(cs: seq<Channel>): set<string> {
    if |cs| == 0 then {}
    else (if cs[0].ball then {} else {cs[0].id}) + PublishedIds(cs[1..])
  }

  /** The ids `prepare_player_data` publishes for `team` from `f`. */
  function PlayerIds(f: Frame, team: string): set<string> {
    PublishedIds(PlayerChannels(f, team))
  }

  function DistKeys(team: string, ids: set<string>): set<string> {
    set id | id in ids :: DistKey(team, id)
  }

  function SpeedKeys(team: string, ids: set<string>): set<string> {
    set id | id in ids :: SpeedKey(team, id)
  }

  /** Every non-ball channel has its y partner in `f`. */
  predicate PartnersPresent(f: Frame, cs: seq<Channel>) {
    forall k :: 0 <= k < |cs| && !cs[k].ball ==> Lookup(f, PartnerY(cs[k].x)).Some?
  }

  /** Distance and speed derived from x-column `x` of `f` and its y partner (lines 17-26). */
  function TrackOf(f: Frame, x: string, num: Numerics): Derived
    requires f.WellFormed() && num.Valid()
    requires x in NameSet(f) && PartnerY(x) in NameSet(f)
  {
    Derive(Lookup(f, x).value, Lookup(f, PartnerY(x)).value, num)
  }

  /** Publishing both series of player `id` (lines 29-30). */
  function Publish(f: Frame, team: string, id: string, d: Derived): (g: Frame)
    requires f.WellFormed() && |d.dist| == f.rows && |d.speed| == f.rows
    ensures g.WellFormed() && g.rows == f.rows
    ensures NameSet(g) == NameSet(f) + {DistKey(team, id), SpeedKey(team, id)}
    ensures Lookup(g, DistKey(team, id)) == Some(Present(d.dist))
    ensures Lookup(g, SpeedKey(team, id)) == Some(Present(d.speed))
    ensures forall n :: n != DistKey(team, id) && n != SpeedKey(team, id) ==> Lookup(g, n) == Lookup(f, n)
  {
    Put(Put(f, DistKey(team, id), Present(d.dist)), SpeedKey(team, id), Present(d.speed))
  }

  /**
   * One iteration of the loop for channel `c` (lines 10-30): a ball channel
   * leaves the frame alone; otherwise a missing y partner raises `KeyError`,
   * and a present one publishes the player's two series.
   */
  function PrepareStep(f: Frame, team: string, c: Channel, num: Numerics): (r: Result<Frame>)
    requires f.WellFormed() && num.Valid()
    requires AxisX(c.x) && c.x in NameSet(f)
    ensures c.ball ==> r == Ok(f)
    ensures !c.ball && Lookup(f, PartnerY(c.x)).None? ==> r == Err(MissingColumn(PartnerY(c.x)))
    ensures !c.ball && Lookup(f, PartnerY(c.x)).Some? ==> r == Ok(Publish(f, team, c.id, TrackOf(f, c.x, num)))
    ensures r.Ok? ==> r.value.WellFormed() && r.value.rows == f.rows && NameSet(f) <= NameSet(r.value)
  {
    if c.ball then Ok(f)
    else
      var y := PartnerY(c.x);
      match Lookup(f, y)
      case None => Err(MissingColumn(y))
      case Some(ys) => Ok(Publish(f, team, c.id, Derive(Lookup(f, c.x).value, ys, num)))
  }

  /** The channels after the first stay readable in a frame that kept every name. */
  lemma ReadableTail(f: Frame, g: Frame, cs: seq<Channel>)
    requires |cs| > 0 && Readable(f, cs) && NameSet(f) <= NameSet(g)
    ensures Readable(g, cs[1..])
  {
    assert forall k :: 0 <= k < |cs| - 1 ==> cs[1..][k] == cs[k + 1];
  }

  /**
   * The loop of `prepare_player_data` over channels `cs`, each iteration
   * working on the frame the earlier ones left; the first error ends it.
   */
  function PrepareColumns(f: Frame, team: string, cs: seq<Channel>, num: Numerics): (r: Result<Frame>)
    requires f.WellFormed() && num.Valid() && Readable(f, cs)
    ensures r.Ok? ==> r.value.WellFormed() && r.value.rows == f.rows
    decreases |cs|
  {
    if |cs| == 0 then Ok(f)
    else
      match PrepareStep(f, team, cs[0], num)
      case Err(e) => Err(e)
      case Ok(g) =>
        ReadableTail(f, g, cs);
        PrepareColumns(g, team, cs[1..], num)
  }

  /** A published key is never the name of a position column. */
  lemma KeysAreNotAxes(team: string, id: string, x: string)
    requires AxisX(x)
    ensures DistKey(team, id) != x && SpeedKey(team, id) != x
    ensures DistKey(team, id) != PartnerY(x) && SpeedKey(team, id) != PartnerY(x)
  {
    var y := PartnerY(x);
    var dk, sk := DistKey(team, id), SpeedKey(team, id);
    assert dk[|dk| - 1] != x[|x| - 1] && sk[|sk| - 1] != x[|x| - 1];
    assert dk[|dk| - 1] != y[|y| - 1] && sk[|sk| - 1] != y[|y| - 1];
  }

  /** Distance keys and speed keys never coincide. */
  lemma DistKeyIsNotSpeedKey(team: string, a: string, team': string, b: string)
    ensures DistKey(team, a) != SpeedKey(team', b)
  {
    var dk, sk := DistKey(team, a), SpeedKey(team', b);
    assert dk[|dk| - 1] != sk[|sk| - 1];
  }

  /** `PartnersPresent` of a nonempty list: the head's condition and the tail's. */
  lemma PartnersPresentCons(f: Frame, cs: seq<Channel>)
    requires |cs| > 0
    ensures PartnersPresent(f, cs) <==>
      && (!cs[0].ball ==> Lookup(f, PartnerY(cs[0].x)).Some?)
      && PartnersPresent(f, cs[1..])
  {
    var tail := cs[1..];
    assert forall k :: 1 <= k < |cs| ==> cs[k] == tail[k - 1];
  }

  /** Publishing a player's keys does not change which y partners are present. */
  lemma PartnersAfterPublish(f: Frame, g: Frame, team: string, id: string, cs: seq<Channel>)
    requires forall k :: 0 <= k < |cs| ==> AxisX(cs[k].x)
    requires forall n :: n != DistKey(team, id) && n != SpeedKey(team, id) ==> Lookup(g, n) == Lookup(f, n)
    ensures PartnersPresent(g, cs) <==> PartnersPresent(f, cs)
    ensures forall k :: 0 <= k < |cs| ==> Lookup(g, PartnerY(cs[k].x)) == Lookup(f, PartnerY(cs[k].x))
  {
    forall k | 0 <= k < |cs| ensures Lookup(g, PartnerY(cs[k].x)) == Lookup(f, PartnerY(cs[k].x)) {
      KeysAreNotAxes(team, id, cs[k].x);
    }
  }

  /** The loop over `cs` from `g` raises exactly when a partner is missing. */
  ghost predicate RaisesIffMissing(g: Frame, team: string, cs: seq<Channel>, num: Numerics)
    requires g.WellFormed() && num.Valid() && Readable(g, cs)
  {
    PrepareColumns(g, team, cs, num).Ok? <==> PartnersPresent(g, cs)
  }

  /** `cs[k]` is the first non-ball channel of `cs` whose y partner is missing from `g`. */
  ghost predicate FirstMissing(g: Frame, cs: seq<Channel>, k: int) {
    && 0 <= k < |cs| && !cs[k].ball && Lookup(g, PartnerY(cs[k].x)).None?
    && forall j :: 0 <= j < k && !cs[j].ball ==> Lookup(g, PartnerY(cs[j].x)).Some?
  }

  /** An error `r` names the missing y partner of the first channel of `cs` that lacks one in `g`. */
  ghost predicate NamesPartner(r: Result<Frame>, g: Frame, cs: seq<Channel>) {
    r.Err? ==> exists k :: FirstMissing(g, cs, k) && r.error == MissingColumn(PartnerY(cs[k].x))
  }

  /** How the loop over `cs` from `g` ends. */
  ghost predicate OutcomeHolds(g: Frame, team: string, cs: seq<Channel>, num: Numerics)
    requires g.WellFormed() && num.Valid() && Readable(g, cs)
  {
    RaisesIffMissing(g, team, cs, num) && NamesPartner(PrepareColumns(g, team, cs, num), g, cs)
  }

  /**
   * A successful iteration for `c` changes at most the two keys of its id,
   * and, unless `c` is a ball channel, had the y partner and published the
   * track read from `c`'s own columns.
   */
  lemma StepFrame(f: Frame, g: Frame, team: string, c: Channel, num: Numerics)
    requires f.WellFormed() && num.Valid()
    requires AxisX(c.x) && c.x in NameSet(f)
    requires PrepareStep(f, team, c, num) == Ok(g)
    ensures forall n :: n != DistKey(team, c.id) && n != SpeedKey(team, c.id) ==> Lookup(g, n) == Lookup(f, n)
    ensures !c.ball ==> Lookup(f, PartnerY(c.x)).Some? && HoldsTrack(f, g, team, c, num)
  {
  }

  /**
   * After a successful first iteration the loop continues from the frame it
   * left, every y partner looks up as before, and the first channel, unless
   * a ball channel, had its partner.
   */
  lemma StepContinues(f: Frame, g: Frame, team: string, cs: seq<Channel>, num: Numerics)
    requires f.WellFormed() && num.Valid() && |cs| > 0 && Readable(f, cs)
    requires PrepareStep(f, team, cs[0], num) == Ok(g)
    requires g.WellFormed() && Readable(g, cs[1..])
    ensures PrepareColumns(f, team, cs, num) == PrepareColumns(g, team, cs[1..], num)
    ensures forall k :: 0 <= k < |cs| ==> Lookup(g, PartnerY(cs[k].x)) == Lookup(f, PartnerY(cs[k].x))
    ensures PartnersPresent(g, cs[1..]) <==> PartnersPresent(f, cs[1..])
    ensures !cs[0].ball ==> Lookup(f, PartnerY(cs[0].x)).Some?
  {
    StepFrame(f, g, team, cs[0], num);
    PartnersAfterPublish(f, g, team, cs[0].id, cs);
    PartnersAfterPublish(f, g, team, cs[0].id, cs[1..]);
  }

  lemma ConsRaises(f: Frame, g: Frame, team: string, cs: seq<Channel>, num: Numerics)
    requires f.WellFormed() && num.Valid() && |cs| > 0 && Readable(f, cs)
    requires g.WellFormed() && Readable(g, cs[1..])
    requires PrepareColumns(f, team, cs, num) == PrepareColumns(g, team, cs[1..], num)
    requires PartnersPresent(g, cs[1..]) <==> PartnersPresent(f, cs[1..])
    requires !cs[0].ball ==> Lookup(f, PartnerY(cs[0].x)).Some?
    requires RaisesIffMissing(g, team, cs[1..], num)
    ensures RaisesIffMissing(f, team, cs, num)
  {
    PartnersPresentCons(f, cs);
  }

  /** The first failing channel among the rest is the first failing one among all of `cs`. */
  lemma FirstMissingCons(f: Frame, g: Frame, cs: seq<Channel>, k: int)
    requires |cs| > 0
    requires forall k :: 0 <= k < |cs| ==> Lookup(g, PartnerY(cs[k].x)) == Lookup(f, PartnerY(cs[k].x))
    requires !cs[0].ball ==> Lookup(f, PartnerY(cs[0].x)).Some?
    requires FirstMissing(g, cs[1..], k)
    ensures FirstMissing(f, cs, k + 1)
  {
    var tail := cs[1..];
    assert cs[k + 1] == tail[k];
    forall j | 1 <= j < k + 1 && !cs[j].ball ensures Lookup(f, PartnerY(cs[j].x)).Some? {
      assert cs[j] == tail[j - 1];
    }
  }

  /** An error naming the first failing channel among the rest names the first failing one of `cs`. */
  lemma NamesPartnerCons(r: Result<Frame>, f: Frame, g: Frame, cs: seq<Channel>)
    requires |cs| > 0
    requires forall k :: 0 <= k < |cs| ==> Lookup(g, PartnerY(cs[k].x)) == Lookup(f, PartnerY(cs[k].x))
    requires !cs[0].ball ==> Lookup(f, PartnerY(cs[0].x)).Some?
    requires NamesPartner(r, g, cs[1..])
    ensures NamesPartner(r, f, cs)
  {
    if r.Err? {
      var k :| FirstMissing(g, cs[1..], k) && r.error == MissingColumn(PartnerY(cs[1..][k].x));
      FirstMissingCons(f, g, cs, k);
      assert cs[k + 1] == cs[1..][k];
    }
  }

  /** The outcome over `cs` follows from the first iteration and the outcome over the rest. */
  lemma ConsOutcome(f: Frame, g: Frame, team: string, cs: seq<Channel>, num: Numerics)
    requires f.WellFormed() && num.Valid() && |cs| > 0 && Readable(f, cs)
    requires PrepareStep(f, team, cs[0], num) == Ok(g)
    requires g.WellFormed() && Readable(g, cs[1..])
    requires OutcomeHolds(g, team, cs[1..], num)
    ensures OutcomeHolds(f, team, cs, num)
  {
    StepContinues(f, g, team, cs, num);
    ConsRaises(f, g, team, cs, num);
    NamesPartnerCons(PrepareColumns(f, team, cs, num), f, g, cs);
  }

  /** The first iteration raising settles the outcome of the whole loop. */
  lemma FirstStepFails(f: Frame, team: string, cs: seq<Channel>, num: Numerics)
    requires f.WellFormed() && num.Valid() && |cs| > 0 && Readable(f, cs)
    requires PrepareStep(f, team, cs[0], num).Err?
    ensures OutcomeHolds(f, team, cs, num)
  {
    PartnersPresentCons(f, cs);
    assert FirstMissing(f, cs, 0);
  }

  /**
   * The loop raises exactly when some non-ball channel lacks its y partner,
   * and the error names the partner of the first such channel.
   */
  lemma {:induction false} PrepareColumnsOutcome(f: Frame, team: string, cs: seq<Channel>, num: Numerics)
    requires f.WellFormed() && num.Valid() && Readable(f, cs)
    ensures OutcomeHolds(f, team, cs, num)
    decreases |cs|
  {
    if |cs| > 0 {
      var step := PrepareStep(f, team, cs[0], num);
      if step.Ok? {
        var g := step.value;
        ReadableTail(f, g, cs);
        PrepareColumnsOutcome(g, team, cs[1..], num);
        ConsOutcome(f, g, team, cs, num);
      } else {
        FirstStepFails(f, team, cs, num);
      }
    }
  }

  /** The key sets of `{id} + ids` are those of `ids` plus the keys of `id`. */
  lemma KeysOfInsert(team: string, id: string, ids: set<string>)
    ensures DistKeys(team, {id} + ids) == {DistKey(team, id)} + DistKeys(team, ids)
    ensures SpeedKeys(team, {id} + ids) == {SpeedKey(team, id)} + SpeedKeys(team, ids)
    ensures DistKey(team, id) !in SpeedKeys(team, ids) && SpeedKey(team, id) !in DistKeys(team, ids)
  {
    forall j ensures SpeedKey(team, j) != DistKey(team, id) && DistKey(team, j) != SpeedKey(team, id) {
      DistKeyIsNotSpeedKey(team, id, team, j);
      DistKeyIsNotSpeedKey(team, j, team, id);
    }
  }
  /** The loop adds exactly the keys of `ids` to the frame's names. */
  ghost predicate AddsKeys(f: Frame, g: Frame, team: string, ids: set<string>) {
    NameSet(g) == NameSet(f) + DistKeys(team, ids) + SpeedKeys(team, ids)
  }

  /** Every name other than the keys of `ids` looks up what it did before. */
  ghost predicate KeepsOthers(f: Frame, g: Frame, team: string, ids: set<string>) {
    forall n :: n !in DistKeys(team, ids) && n !in SpeedKeys(team, ids) ==> Lookup(g, n) == Lookup(f, n)
  }

  ghost predicate HoldsDistance(g: Frame, k: string, rows: nat) {
    Lookup(g, k).Some? && DistanceColumn(Lookup(g, k).value, rows)
  }

  ghost predicate HoldsSpeed(g: Frame, k: string, rows: nat) {
    Lookup(g, k).Some? && SpeedColumn(Lookup(g, k).value, rows)
  }

  /** Every key of `ids` holds a valid series of `rows` frames. */
  ghost predicate HoldsSeries(g: Frame, team: string, ids: set<string>, rows: nat) {
    && (forall id :: id in ids ==> HoldsDistance(g, DistKey(team, id), rows))
    && (forall id :: id in ids ==> HoldsSpeed(g, SpeedKey(team, id), rows))
  }

  /** What a successful loop leaves behind, relative to the frame it started from. */
  ghost predicate LoopEffect(f: Frame, g: Frame, team: string, ids: set<string>) {
    AddsKeys(f, g, team, ids) && KeepsOthers(f, g, team, ids) && HoldsSeries(g, team, ids, f.rows)
  }

  /** Distinct ids have distinct keys. */
  lemma KeysInjective(team: string, a: string, b: string)
    ensures DistKey(team, a) == DistKey(team, b) ==> a == b
    ensures SpeedKey(team, a) == SpeedKey(team, b) ==> a == b
  {
    var da, db := DistKey(team, a), DistKey(team, b);
    var sa, sb := SpeedKey(team, a), SpeedKey(team, b);
    assert da[|team| + 1..|da| - 5] == a && db[|team| + 1..|db| - 5] == b;
    assert sa[|team| + 1..|sa| - 6] == a && sb[|team| + 1..|sb| - 6] == b;
  }

  /** An id outside `ids` has keys outside the key sets of `ids`. */
  lemma KeysOfOther(team: string, id: string, ids: set<string>)
    requires id !in ids
    ensures DistKey(team, id) !in DistKeys(team, ids) && SpeedKey(team, id) !in SpeedKeys(team, ids)
  {
    forall j | j in ids ensures DistKey(team, j) != DistKey(team, id) && SpeedKey(team, j) != SpeedKey(team, id) {
      KeysInjective(team, j, id);
    }
  }

  lemma AddsKeysCompose(f: Frame, g: Frame, h: Frame, team: string, id: string, rest: set<string>)
    requires NameSet(g) == NameSet(f) + {DistKey(team, id), SpeedKey(team, id)}
    requires AddsKeys(g, h, team, rest)
    ensures AddsKeys(f, h, team, {id} + rest)
  {
    KeysOfInsert(team, id, rest);
  }

  lemma KeepsOthersCompose(f: Frame, g: Frame, h: Frame, team: string, id: string, rest: set<string>)
    requires forall n :: n != DistKey(team, id) && n != SpeedKey(team, id) ==> Lookup(g, n) == Lookup(f, n)
    requires KeepsOthers(g, h, team, rest)
    ensures KeepsOthers(f, h, team, {id} + rest)
  {
    KeysOfInsert(team, id, rest);
  }

  lemma HoldsSeriesCompose(g: Frame, h: Frame, team: string, id: string, rest: set<string>, rows: nat)
    requires HoldsDistance(g, DistKey(team, id), rows) && HoldsSpeed(g, SpeedKey(team, id), rows)
    requires KeepsOthers(g, h, team, rest)
    requires HoldsSeries(h, team, rest, rows)
    ensures HoldsSeries(h, team, {id} + rest, rows)
  {
    if id !in rest {
      KeysOfInsert(team, id, rest);
      KeysOfOther(team, id, rest);
      assert Lookup(h, DistKey(team, id)) == Lookup(g, DistKey(team, id));
      assert Lookup(h, SpeedKey(team, id)) == Lookup(g, SpeedKey(team, id));
      assert HoldsDistance(h, DistKey(team, id), rows) && HoldsSpeed(h, SpeedKey(team, id), rows);
    }
  }

  /** Publishing player `id` and then running the rest of the loop composes into one loop effect. */
  lemma PublishThenLoop(f: Frame, g: Frame, h: Frame, team: string, id: string, d: Derived, rest: set<string>)
    requires f.WellFormed() && |d.dist| == f.rows && |d.speed| == f.rows
    requires DistanceColumn(Present(d.dist), f.rows) && SpeedColumn(Present(d.speed), f.rows)
    requires g == Publish(f, team, id, d) && g.rows == f.rows
    requires LoopEffect(g, h, team, rest)
    ensures LoopEffect(f, h, team, {id} + rest)
  {
    AddsKeysCompose(f, g, h, team, id, rest);
    KeepsOthersCompose(f, g, h, team, id, rest);
    HoldsSeriesCompose(g, h, team, id, rest, f.rows);
  }

  /** One successful iteration followed by the rest of the loop composes into one loop effect. */
  lemma StepThenLoop(f: Frame, g: Frame, h: Frame, team: string, c: Channel, rest: set<string>, num: Numerics)
    requires f.WellFormed() && num.Valid()
    requires AxisX(c.x) && c.x in NameSet(f)
    requires PrepareStep(f, team, c, num) == Ok(g)
    requires LoopEffect(g, h, team, rest)
    ensures LoopEffect(f, h, team, (if c.ball then {} else {c.id}) + rest)
  {
    if !c.ball {
      PublishThenLoop(f, g, h, team, c.id, TrackOf(f, c.x, num), rest);
    } else {
      assert {} + rest == rest;
    }
  }

  /** The loop over `cs` may run from `g`, and its effect holds when it succeeds. */
  ghost predicate TailReady(g: Frame, team: string, cs: seq<Channel>, num: Numerics) {
    && g.WellFormed() && num.Valid() && Readable(g, cs)
    && (PrepareColumns(g, team, cs, num).Ok? ==>
          LoopEffect(g, PrepareColumns(g, team, cs, num).value, team, PublishedIds(cs)))
  }

  /** The loop effect over `cs` follows from the first iteration and the effect over the rest. */
  lemma ConsEffect(f: Frame, team: string, cs: seq<Channel>, num: Numerics)
    requires f.WellFormed() && num.Valid() && |cs| > 0 && Readable(f, cs)
    requires var step := PrepareStep(f, team, cs[0], num);
      step.Ok? ==> TailReady(step.value, team, cs[1..], num)
    ensures PrepareColumns(f, team, cs, num).Ok? ==>
      LoopEffect(f, PrepareColumns(f, team, cs, num).value, team, PublishedIds(cs))
  {
    var step := PrepareStep(f, team, cs[0], num);
    if step.Ok? {
      var g := step.value;
      var r := PrepareColumns(g, team, cs[1..], num);
      assert PrepareColumns(f, team, cs, num) == r;
      if r.Ok? {
        StepThenLoop(f, g, r.value, team, cs[0], PublishedIds(cs[1..]), num);
      }
    }
  }

  /**
   * After a successful loop the frame holds its old columns plus exactly the
   * distance and speed keys of the published ids; every other name looks up
   * what it did before; each published key holds a valid distance or speed series.
   */
  lemma {:induction false} PrepareColumnsEffect(f: Frame, team: string, cs: seq<Channel>, num: Numerics)
    requires f.WellFormed() && num.Valid() && Readable(f, cs)
    ensures PrepareColumns(f, team, cs, num).Ok? ==>
      LoopEffect(f, PrepareColumns(f, team, cs, num).value, team, PublishedIds(cs))
    decreases |cs|
  {
    if |cs| == 0 {
      assert DistKeys(team, {}) == {} && SpeedKeys(team, {}) == {};
    } else {
      var step := PrepareStep(f, team, cs[0], num);
      if step.Ok? {
        ReadableTail(f, step.value, cs);
        PrepareColumnsEffect(step.value, team, cs[1..], num);
      }
      ConsEffect(f, team, cs, num);
    }
  }

  /** The keys of `c`'s id in `g` hold the series derived from `c`'s own x and y columns in `f`. */
  ghost predicate HoldsTrack(f: Frame, g: Frame, team: string, c: Channel, num: Numerics) {
    && f.WellFormed() && num.Valid()
    && c.x in NameSet(f) && PartnerY(c.x) in NameSet(f)
    && Lookup(g, DistKey(team, c.id)) == Some(Present(TrackOf(f, c.x, num).dist))
    && Lookup(g, SpeedKey(team, c.id)) == Some(Present(TrackOf(f, c.x, num).speed))
  }

  /** No non-ball channel after `cs[k]` reads the same id, so no later iteration overwrites its keys. */
  ghost predicate LastOfId(cs: seq<Channel>, k: int) {
    0 <= k < |cs| && forall j :: k < j < |cs| && !cs[j].ball ==> cs[j].id != cs[k].id
  }

  /** Each non-ball channel of `cs` that is the last to read its id has its own track published in `g`. */
  ghost predicate TracksHeld(f: Frame, g: Frame, team: string, cs: seq<Channel>, num: Numerics) {
    forall k :: 0 <= k < |cs| && !cs[k].ball && LastOfId(cs, k) ==> HoldsTrack(f, g, team, cs[k], num)
  }

  /** An id no non-ball channel of `cs` reads is not published. */
  lemma {:induction false} NotPublished(cs: seq<Channel>, id: string)
    requires forall j :: 0 <= j < |cs| && !cs[j].ball ==> cs[j].id != id
    ensures id !in PublishedIds(cs)
    decreases |cs|
  {
    if |cs| > 0 {
      assert forall j :: 0 <= j < |cs| - 1 ==> cs[1..][j] == cs[j + 1];
      NotPublished(cs[1..], id);
    }
  }

  /** The id of every non-ball channel of `cs` is published. */
  lemma {:induction false} PublishedMember(cs: seq<Channel>, j: nat)
    requires j < |cs| && !cs[j].ball
    ensures cs[j].id in PublishedIds(cs)
    decreases j
  {
    if j > 0 {
      assert cs[1..][j - 1] == cs[j];
      PublishedMember(cs[1..], j - 1);
    }
  }

  /** The last non-ball channel of `cs` that reads a published id `id`. */
  function LastTrack(cs: seq<Channel>, id: string): (k: nat)
    requires id in PublishedIds(cs)
    ensures k < |cs| && cs[k].id == id && !cs[k].ball && LastOfId(cs, k)
    decreases |cs|
  {
    var tail := cs[1..];
    if id in PublishedIds(tail) then
      var k := LastTrack(tail, id);
      assert cs[k + 1] == tail[k];
      assert LastOfId(cs, k + 1) by {
        assert forall j :: k + 1 < j < |cs| ==> cs[j] == tail[j - 1];
      }
      k + 1
    else
      assert LastOfId(cs, 0) by {
        forall j | 0 < j < |cs| && !cs[j].ball ensures cs[j].id != id {
          assert tail[j - 1] == cs[j];
          PublishedMember(tail, j - 1);
        }
      }
      0
  }

  /** The last channel reading its id keeps, after the rest of the loop, the track its own iteration published. */
  lemma HeadTrack(f: Frame, g: Frame, h: Frame, team: string, cs: seq<Channel>, num: Numerics)
    requires |cs| > 0 && LastOfId(cs, 0)
    requires HoldsTrack(f, g, team, cs[0], num)
    requires KeepsOthers(g, h, team, PublishedIds(cs[1..]))
    ensures HoldsTrack(f, h, team, cs[0], num)
  {
    var tail, id := cs[1..], cs[0].id;
    forall j | 0 <= j < |tail| && !tail[j].ball ensures tail[j].id != id {
      assert tail[j] == cs[j + 1];
    }
    NotPublished(tail, id);
    KeysOfOther(team, id, PublishedIds(tail));
    assert Lookup(h, DistKey(team, id)) == Lookup(g, DistKey(team, id));
    assert Lookup(h, SpeedKey(team, id)) == Lookup(g, SpeedKey(team, id));
  }

  /** A track published from `g` was read from `f` when `f` and `g` differ only in keys of `id0`. */
  lemma TrackFromEarlier(f: Frame, g: Frame, h: Frame, team: string, c: Channel, id0: string, num: Numerics)
    requires f.WellFormed() && AxisX(c.x)
    requires forall n :: n != DistKey(team, id0) && n != SpeedKey(team, id0) ==> Lookup(g, n) == Lookup(f, n)
    requires HoldsTrack(g, h, team, c, num)
    ensures HoldsTrack(f, h, team, c, num)
  {
    KeysAreNotAxes(team, id0, c.x);
    assert Lookup(g, c.x) == Lookup(f, c.x) && Lookup(g, PartnerY(c.x)) == Lookup(f, PartnerY(c.x));
  }

  /** The published tracks over `cs` follow from the first iteration and those over the rest. */
  lemma ConsTracks(f: Frame, g: Frame, h: Frame, team: string, cs: seq<Channel>, num: Numerics)
    requires f.WellFormed() && |cs| > 0 && forall k :: 0 <= k < |cs| ==> AxisX(cs[k].x)
    requires forall n :: n != DistKey(team, cs[0].id) && n != SpeedKey(team, cs[0].id) ==> Lookup(g, n) == Lookup(f, n)
    requires !cs[0].ball ==> HoldsTrack(f, g, team, cs[0], num)
    requires KeepsOthers(g, h, team, PublishedIds(cs[1..]))
    requires TracksHeld(g, h, team, cs[1..], num)
    ensures TracksHeld(f, h, team, cs, num)
  {
    forall k | 0 <= k < |cs| && !cs[k].ball && LastOfId(cs, k) ensures HoldsTrack(f, h, team, cs[k], num) {
      if k == 0 {
        HeadTrack(f, g, h, team, cs, num);
      } else {
        TailTrack(f, g, h, team, cs, k, num);
      }
    }
  }

  /** A later channel's track, held after the rest of the loop, was read from the frame before the first iteration. */
  lemma TailTrack(f: Frame, g: Frame, h: Frame, team: string, cs: seq<Channel>, k: nat, num: Numerics)
    requires f.WellFormed() && 0 < k < |cs| && AxisX(cs[k].x) && !cs[k].ball && LastOfId(cs, k)
    requires forall n :: n != DistKey(team, cs[0].id) && n != SpeedKey(team, cs[0].id) ==> Lookup(g, n) == Lookup(f, n)
    requires TracksHeld(g, h, team, cs[1..], num)
    ensures HoldsTrack(f, h, team, cs[k], num)
  {
    var tail := cs[1..];
    assert tail[k - 1] == cs[k];
    assert LastOfId(tail, k - 1) by {
      assert forall j :: k - 1 < j < |tail| ==> tail[j] == cs[j + 1];
    }
    assert HoldsTrack(g, h, team, tail[k - 1], num);
    TrackFromEarlier(f, g, h, team, cs[k], cs[0].id, num);
  }

  /** The loop over `cs` may run from `g`, and its published tracks and untouched names hold when it succeeds. */
  ghost predicate TracksReady(g: Frame, team: string, cs: seq<Channel>, num: Numerics) {
    && g.WellFormed() && num.Valid() && Readable(g, cs)
    && (PrepareColumns(g, team, cs, num).Ok? ==>
          var h := PrepareColumns(g, team, cs, num).value;
          TracksHeld(g, h, team, cs, num) && KeepsOthers(g, h, team, PublishedIds(cs)))
  }

  /** The published tracks over `cs` follow from the first iteration and the tracks over the rest. */
  lemma ConsTracksStep(f: Frame, team: string, cs: seq<Channel>, num: Numerics)
    requires f.WellFormed() && num.Valid() && |cs| > 0 && Readable(f, cs)
    requires var step := PrepareStep(f, team, cs[0], num);
      step.Ok? ==> TracksReady(step.value, team, cs[1..], num)
    ensures PrepareColumns(f, team, cs, num).Ok? ==>
      TracksHeld(f, PrepareColumns(f, team, cs, num).value, team, cs, num)
  {
    var step := PrepareStep(f, team, cs[0], num);
    if step.Ok? {
      var g := step.value;
      var r := PrepareColumns(g, team, cs[1..], num);
      assert PrepareColumns(f, team, cs, num) == r;
      if r.Ok? {
        StepFrame(f, g, team, cs[0], num);
        ConsTracks(f, g, r.value, team, cs, num);
      }
    }
  }

  /**
   * After a successful loop, the keys of each non-ball channel's id hold the
   * distance and speed derived from that channel's own x and y series,
   * unless a later channel reads the same id and overwrites them.
   */
  lemma {:induction false} PrepareColumnsTracks(f: Frame, team: string, cs: seq<Channel>, num: Numerics)
    requires f.WellFormed() && num.Valid() && Readable(f, cs)
    ensures PrepareColumns(f, team, cs, num).Ok? ==> TracksHeld(f, PrepareColumns(f, team, cs, num).value, team, cs, num)
    decreases |cs|
  {
    if |cs| > 0 {
      var step := PrepareStep(f, team, cs[0], num);
      if step.Ok? {
        var g := step.value;
        ReadableTail(f, g, cs);
        PrepareColumnsTracks(g, team, cs[1..], num);
        PrepareColumnsEffect(g, team, cs[1..], num);
      }
      ConsTracksStep(f, team, cs, num);
    }
  }

  /** The frame's channels all read position columns of the frame, with ids and ball flags as lines 12-14 compute them. */
  lemma PlayerChannelsShape(f: Frame, team: string)
    ensures var xs, cs := XColumns(f.columns, team), PlayerChannels(f, team);
      && |cs| == |xs| && Readable(f, cs)
      && forall k :: 0 <= k < |cs| ==>
           cs[k].x == xs[k] && cs[k].id == ExtractId(xs[k], team) && cs[k].ball == IsBall(cs[k].id)
  {
    var xs, cs := XColumns(f.columns, team), PlayerChannels(f, team);
    forall k | 0 <= k < |cs| ensures AxisX(cs[k].x) && cs[k].x in NameSet(f) {
      XColumnShape(xs[k], team);
    }
  }

  /**
   * `prepare_player_data` (lines 5-32): on success the frame gains exactly
   * `{team}_{id}_dist` and `{team}_{id}_speed` for every processed, non-ball
   * x-column, each holding the distance and speed derived from that
   * column's own x and y series (from the last column reading the id);
   * nothing else changes; it fails, naming the first missing y partner,
   * exactly when a non-ball x-column lacks its y partner.
   */
  function PreparePlayerData(f: Frame, team: string, num: Numerics): (r: Result<Frame>)
    requires f.WellFormed() && num.Valid()
    ensures r.Ok? <==> PartnersPresent(f, PlayerChannels(f, team))
    ensures NamesPartner(r, f, PlayerChannels(f, team))
    ensures r.Ok? ==> r.value.WellFormed() && r.value.rows == f.rows
    ensures r.Ok? ==> LoopEffect(f, r.value, team, PlayerIds(f, team))
    ensures r.Ok? ==> TracksHeld(f, r.value, team, PlayerChannels(f, team), num)
  {
    var cs := PlayerChannels(f, team);
    PlayerChannelsShape(f, team);
    PrepareColumnsOutcome(f, team, cs, num);
    PrepareColumnsEffect(f, team, cs, num);
    PrepareColumnsTracks(f, team, cs, num);
    PrepareColumns(f, team, cs, num)
  }
}
