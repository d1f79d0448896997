# Football physics: a Dafny model of `utils/physics.py`

This project models the physics module of a football tracking-data
dashboard. The module has two halves.

The **kinematics extractor** is `prepare_player_data`. It works through a
team's position columns (`{team}_{id}_x` / `_X` with their `y` partners) in
order and reads a player id out of each column name. The model calls what
one iteration reads from a column (its name, the id, and whether the id
names the ball) a *channel*. Ball channels are skipped. For every other player it derives two series and publishes them as
new columns `{team}_{id}_dist` and `{team}_{id}_speed`:

- the per-frame step distance;
- the speed in km/h, clipped at 1.5 times its 95th percentile and then smoothed.

The **aggregator** reads those columns back through the same key scheme:

- `get_distance_percentages` gives the share of distance covered in five speed zones;
- `get_player_card_stats` gives total distance, top speed and sprint count;
- `get_team_physicals_surgical` builds the team leaderboard. It re-parses ids from the speed-column names with `split('_')[1]`.

Modules, in dependency order:

| file | module | what it holds |
|---|---|---|
| outcomes.dfy | `Outcomes` | `Option`, `Result` and the `KeyError` of a missing column |
| text.dfy | `Text` | the Python string operations the key scheme uses: `lower`, `in`, `replace`, `strip`, `split`/`join` |
| series.dfy | `Series` | per-frame series as `seq<Option<real>>` (`None` is NaN) with pandas `diff`, `fillna`, `clip`, `sum`, `max` and counting |
| frames.dfy | `Frames` | a data frame as a row count plus named columns in order, with `df[name]` and `df[name] = s` |
| keys.dfy | `Keys` | the column-key scheme and its round trips, with counterexamples where it breaks |
| zones.dfy | `Zones` | the five speed zones and the zone percentages |
| physics.dfy | `Physics` | the extractor: derivation of one track, one loop iteration, the loop, `prepare_player_data` |
| summaries.dfy | `Summaries` | the three aggregators and what they return for a prepared frame |

Some numeric routines are not defined by the model. They are fields of the
`Physics.Numerics` parameter:

- the square root;
- pandas' 95th percentile;
- the centred rolling median;
- the Savitzky–Golay filter.

The model assumes only what `Numerics.Valid` states: the root is nonnegative
and maps 0 to 0, the percentile of nonnegative data is nonnegative, and both
filters preserve length. Values are exact reals, not floats.

## Model

| member | source | states |
|---|---|---|
| Keys.XColumnShape | utils/physics.py:7 | a column is processed exactly when its name ends in `_x` or `_X` and its lower-cased form contains the lower-cased team label |
| Keys.PartnerY | utils/physics.py:10 | the y partner keeps every character of the x name but the last, and ends in `y` or `Y` |
| Keys.PartnerYSwapsAxis | utils/physics.py:10 | `{stem}_X` pairs with `{stem}_Y` and `{stem}_x` with `{stem}_y` |
| Keys.PlayerXColumn | utils/physics.py:7-10 | `{team}_{id}_x` and `{team}_{id}_X` are processed for `team` and pair with the matching `_y`/`_Y` column |
| Text.ReplaceAbsent | utils/physics.py:12 | `replace` of a pattern that does not occur leaves the string unchanged |
| Text.ReplaceKeepsPrefix | utils/physics.py:12 | `replace` does not touch a prefix that lacks the pattern's first character |
| Text.Strip | utils/physics.py:12 | `strip` removes exactly the leading and trailing whitespace: the result is a slice whose removed ends are all whitespace and whose own ends are not |
| Keys.ExtractId | utils/physics.py:12 | the id read from a column name is no longer than the name and neither starts nor ends with whitespace |
| Keys.BallInAnyCase | utils/physics.py:14 | an id containing `ball` in any mix of cases, anywhere, is a ball channel |
| Keys.BallNeedsB | utils/physics.py:14 | an id without a `b` or `B` is never a ball channel |
| Keys.DistKey | utils/physics.py:29 | the distance key ends in the last letter of `_dist` |
| Keys.SpeedKey | utils/physics.py:30 | the speed key ends in the last letter of `_speed` |
| Physics.DistKeyIsNotSpeedKey | utils/physics.py:29-30 | no distance key is ever a speed key, whatever the team labels and ids |
| Physics.KeysInjective | utils/physics.py:29-30 | for one team, distinct ids get distinct distance keys and distinct speed keys |
| Physics.KeysAreNotAxes | utils/physics.py:29-30 | a published key is never a position column or its y partner, so publishing never overwrites a track |
| Keys.ExtractIdRoundTrip | utils/physics.py:12 | the id read out of `{team}_{id}_x` (or `_X`) is `id` again when the team label has no `_` and the id is plain (no `_`, no leading axis letter, no surrounding whitespace) |
| Text.Split | utils/physics.py:68 | `split` yields at least one piece, no piece contains the separator, and joining the pieces gives back the string |
| Text.SplitJoin | utils/physics.py:68 | `split` undoes `join` when no piece contains the separator |
| Keys.RecoveredId | utils/physics.py:68 | `split('_')[1]` is the maximal `_`-free run right after the first `_` of the name |
| Keys.SpeedKeyRoundTrip | utils/physics.py:29-30 | the published speed key is a speed column of the team, `split('_')[1]` recovers the id from it, and the paired distance key is the published one, when neither team nor id contains `_` |
| Keys.UnderscoreInTeamShiftsId | utils/physics.py:68 | with a team label `{t1}_{t2}` (both parts `_`-free) the leaderboard reads every player's id as `t2` |
| Keys.UnderscoreInIdTruncatesId | utils/physics.py:68 | for a `_`-free team label, an id `{a}_{b}` with `a` free of `_` is read back as `a` alone |
| Frames.Lookup | utils/physics.py:35-36 | `df[name]` finds a series exactly when the frame has a column of that name, and it is as long as the frame |
| Frames.Put | utils/physics.py:29-30 | after `df[name] = s` the name holds `s`, every other name is unchanged, the name set grows by `name` alone, and the frame stays well formed |
| Series.StepDistance | utils/physics.py:17 | one entry per frame; 0 at the first frame and wherever an endpoint coordinate is missing; otherwise the Euclidean length of the step; never negative |
| Series.StationaryStepDistance | utils/physics.py:17 | a track that never moves, even with gaps, has distance 0 in every frame |
| Series.RawSpeed | utils/physics.py:20 | speed is 90 times the step distance (÷0.04 s, ×3.6) and is nonnegative exactly when the distance is |
| Series.Clip | utils/physics.py:22 | after `clip(upper=b)` nothing exceeds `b`, values at or below `b` are unchanged and values above become `b` |
| Series.ClipIdempotent | utils/physics.py:22 | clipping again at the same bound changes nothing |
| Physics.CleanSpeed | utils/physics.py:20-22 | the cleaned speed stays at or below 1.5 × q95, leaves values at or below that bound unchanged, and is nonnegative for a nonnegative distance series |
| Physics.SmoothSpeed | utils/physics.py:25-26 | the smoothed speed has one entry per entry of the cleaned speed |
| Physics.Derive | utils/physics.py:17-26 | the derived distance series is present, nonnegative and starts at 0; the speed series is present; both are as long as the track |
| Frames.Positions | utils/physics.py:7 | the positions of the columns whose names pass a test, from some position on: increasing, and exactly the passing ones |
| Physics.XPositions | utils/physics.py:7 | the positions of the processed columns are increasing, all pass the x-column test, and include every column that passes |
| Physics.XColumns | utils/physics.py:7 | the processed names are the names at those positions, in column order: every one passes the x-column test and every passing column is among them |
| Physics.PlayerChannelsShape | utils/physics.py:7-14 | the loop visits one channel per processed column, in column order; each reads a position column of the frame, its id is the one line 12 reads from the name, and it is a ball channel exactly when line 14 says so |
| Physics.Publish | utils/physics.py:29-30 | publishing adds exactly the two keys of the id, holding the two series, and changes nothing else |
| Physics.PrepareStep | utils/physics.py:10-30 | one iteration: a ball channel leaves the frame alone, a missing y partner raises `KeyError` naming it, otherwise the two series derived from the channel's own x and y columns are published under its id; the frame keeps every name |
| Physics.PrepareColumns | utils/physics.py:9-30 | a loop that finishes leaves a well-formed frame with the same number of frames |
| Physics.PrepareColumnsOutcome | utils/physics.py:9-30 | the loop fails exactly when some non-ball channel lacks its y partner; the error names the y partner of the first such channel, every earlier non-ball channel having its partner |
| Physics.PrepareColumnsEffect | utils/physics.py:9-30 | after a successful loop the frame holds its old names plus exactly the dist and speed keys of the non-ball ids; every other name looks up as before; every published key holds a valid series |
| Physics.PublishedMember | utils/physics.py:12-30 | the id of every non-ball channel is published |
| Physics.NotPublished | utils/physics.py:12-30 | an id that no non-ball channel reads is not published |
| Physics.LastTrack | utils/physics.py:12-30 | every published id is read by a non-ball channel, and by a last one that no later non-ball channel with the same id follows |
| Physics.PrepareColumnsTracks | utils/physics.py:9-30 | after a successful loop, the dist and speed keys of each non-ball channel that is the last to read its id hold exactly the distance and speed derived from that channel's own x and y series in the input frame |
| Physics.PreparePlayerData | utils/physics.py:5-32 | `prepare_player_data`: fails exactly when a non-ball x-column lacks its y partner, naming the partner of the first such column; on success the frame is well formed with the same rows, has the loop effect above, and each published id's keys hold the track derived from the last x-column reading that id |
| Series.Sum | utils/physics.py:37 | a NaN-skipping sum of nonnegative samples is nonnegative |
| Series.SumZeroIff | utils/physics.py:37-39 | a sum of nonnegative samples is 0 exactly when every sample is 0 or missing |
| Zones.ZoneOf | utils/physics.py:42-46 | a speed lies in some zone exactly when it is present and in [0, 100); that zone's interval holds it, and no other zone's does |
| Zones.ZoneDistancesPartition | utils/physics.py:42-47 | the five zone distances add up to the distance covered at classified speeds |
| Zones.ClassifiedDistanceBound | utils/physics.py:42-47 | the classified distance is at most the total, with equality exactly when every frame with nonzero distance has a speed in [0, 100) |
| Zones.Share | utils/physics.py:47 | a zone share times the total distance is 100 times the zone distance |
| Zones.Percentages | utils/physics.py:37-47 | all five zones are 0 when the total distance is 0; otherwise each zone holds the share of its own zone distance in the total |
| Zones.PercentagesBounded | utils/physics.py:42-47 | zone percentages are nonnegative and add to at most 100, with exactly 100 (for a positive total) when every frame with nonzero distance has a speed in [0, 100) |
| Zones.NoDistanceNoShares | utils/physics.py:37-40 | a player who covered no distance shows 0 in every zone |
| Summaries.DistancePercentages | utils/physics.py:34-49 | the speed key is read before the distance key and a missing one raises `KeyError` naming it; otherwise the result is the zone percentages of the two stored series |
| Summaries.SprintsOf | utils/physics.py:58 | the sprint count is the whole number of 25-frame blocks among the fast frames |
| Summaries.SprintsMonotone | utils/physics.py:58 | fewer than 25 fast frames give no sprint, and more fast frames never give fewer sprints |
| Series.Max | utils/physics.py:57 | top speed is a present sample at least as large as every present sample, and absent exactly when every sample is missing |
| Series.CountAbove | utils/physics.py:58 | the number of frames strictly faster than the threshold is 0 exactly when none is faster, and the series length exactly when all are |
| Series.CountAboveIsFastFrames | utils/physics.py:58 | the count equals the number of frames whose speed is present and strictly above the threshold |
| Summaries.PlayerCardStats | utils/physics.py:51-59 | the distance key is read before the speed key and a missing one raises `KeyError` naming it; otherwise total distance in km times 1000 is the summed distance, top speed is the largest present speed, and sprints are the whole 25-frame blocks above 25.2 km/h |
| Summaries.SpeedPositions | utils/physics.py:65 | the leaderboard visits exactly the columns that start with `{team}_` and end with `_speed`, in column order |
| Summaries.RowOf | utils/physics.py:68-75 | a row is `{team}_{id}` with `id` from `split('_')[1]`, the paired distance summed and divided by 1000, and the column's top speed; a missing distance column raises `KeyError` naming it |
| Summaries.Collect | utils/physics.py:67-75 | the row loop succeeds exactly when every visited column yields a row, and then returns those rows in visiting order |
| Summaries.CollectFirstError | utils/physics.py:67-75 | a failing row loop reports the error of the first column that fails, every earlier one having succeeded |
| Summaries.TeamPhysicals | utils/physics.py:61-77 | `get_team_physicals_surgical` yields one row per speed column of the team, in column order; it fails exactly when such a column lacks its distance column, and then names the distance key of the first one that does |
| Summaries.PreparedPercentagesBounded | utils/physics.py:34-47 | for a player the extractor published, the zone percentages are defined, nonnegative and add up to at most 100 |
| Summaries.PreparedCard | utils/physics.py:51-58 | for a player the extractor published, the card is defined, its distance is nonnegative, it has a top speed exactly when the match has a frame, its distance in km times 1000 is the summed step distance of the player's own track, and its top speed is the fastest frame of that track |
| Summaries.CardOfHeldTrack | utils/physics.py:51-57 | a card over keys holding a track's two series sums that track's distance and takes its fastest frame as top speed |
| Summaries.CardOfValidSeries | utils/physics.py:51-58 | a card over a valid distance series and a valid speed series is defined, its distance is nonnegative, and it has a top speed exactly when the match has a frame |
| Summaries.LeaderboardOfPublished | utils/physics.py:61-77 | after the keys of a set of `_`-free ids are added for a `_`-free team label to a frame with no speed columns, the leaderboard succeeds with rows named exactly `{team}_{id}` for those ids |
| Summaries.LeaderboardAfterPrepare | utils/physics.py:61-77 | the leaderboard of a frame produced by `prepare_player_data` succeeds, and the set of its row names is exactly `{team}_{id}` over the published ids, under the same `_`-free conditions |

## Left out

- The rolling median and the Savitzky–Golay filter (lines 25-26) are opaque, length-preserving parameters. So the final speed series is known only to be present, as long as the track, and of no sign.
- Physics.SmoothSpeed: states only that the smoothed series is as long as its input, because the filters are parameters.
- The sign of the final speed is unstated. A Savitzky–Golay filter can undershoot below 0 next to a sharp drop, so the source does not keep speed nonnegative after smoothing. Nonnegativity is proved up to clipping (`Physics.CleanSpeed`).
- `savgol_filter` with window 21 raises for a track shorter than 21 frames. The source has no fallback to the unsmoothed series for that case. The model treats the filter as total and does not model that exception.
- The 95th percentile (line 21) is a parameter. The model assumes only that it is nonnegative for nonnegative data. The square root (line 17) is a parameter that is nonnegative and maps 0 to 0.
- Floating point is not modelled: values are exact reals, so `dist / 0.04 * 3.6` is exactly `90 × dist`. Rounding with `np.round(…, 2)` and the f-string units (lines 47, 56-57, 73-74) are left out. The model returns unrounded numbers, and `None` where a formatted `nan` would appear.
- `str.lower` is modelled on ASCII letters only; other characters pass unchanged. `strip` uses the `str.isspace` character set.
- In-place mutation is not modelled. When the extraction loop raises, the source has already written the earlier players' columns into the caller's frame. The model returns only the error.
- A duplicated column label makes pandas return a frame rather than a series. The model's lookup takes the first column of that name.
- The default argument `team_label='Home'` (lines 5, 34, 51, 61) is not modelled: every operation takes the team label explicitly.
- The leaderboard's `pd.DataFrame(summary_data)` is modelled as the sequence of rows.
- The sort of the leaderboard and the id listing by `int` live in the Streamlit app, which is not part of this model; neither is `get_player_heatmap`, whose body is not available.
- Keys.ExtractIdRoundTrip: holds only for plain ids. For an id starting with `x` the `_x` pass also removes the separator, so the `{team}_` pass no longer matches and the id comes back as `{team}{rest}` (`Home_x7_x` gives `Home7`). An id with surrounding whitespace is stripped.
- Keys.DistKey: its contract states only the last letter, which keeps distance keys apart from speed keys and position columns; that the id is recoverable from the key is stated by `Physics.KeysInjective`.
- Keys.SpeedKey: likewise states only the last letter; `Physics.KeysInjective` and `Keys.SpeedKeyRoundTrip` state that the id is recoverable from it.
- Summaries.LeaderboardAfterPrepare: states the set of row names, not the number of rows, so it does not by itself rule out two rows with the same name.
- Summaries.LeaderboardAfterPrepare: assumes the input frame held no speed columns of the team. A frame that already has them, for example one prepared twice, contributes their rows as well.
