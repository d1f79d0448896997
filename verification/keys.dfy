/**
 * The column-key scheme: per-player series live under `{team}_{id}_{field}`.
 * Position columns (`_x`/`_X` and their `y` partners) are parsed into a
 * player id, derived series are published under `_dist`/`_speed`, and the
 * leaderboard recovers the id again with `split('_')[1]`.
 */
module Keys {
  import opened Text

  /**
   * A column the extractor processes (utils/physics.py line 7): its
   * lower-cased name ends in `_x` and contains the lower-cased team label.
   */
  predicate IsXColumn(name: string, team: string) {
    EndsWith(LowerStr(name), "_x") && Contains(LowerStr(name), LowerStr(team))
  }

  /** A processed column name ends in `_x` or `_X`, whatever the case of the rest. */
  lemma XColumnShape(name: string, team: string)
    ensures IsXColumn(name, team) <==>
      && |name| >= 2
      && name[|name| - 2] == '_'
      && (name[|name| - 1] == 'x' || name[|name| - 1] == 'X')
      && Contains(LowerStr(name), LowerStr(team))
  {
    var low := LowerStr(name);
    if |name| >= 2 {
      assert low[|low| - 2..] == [low[|low| - 2], low[|low| - 1]];
    }
  }

  /**
   * The y-column paired with x-column `x` (line 10): the last character is
   * replaced by `Y` when the name ends in `_X`, by `y` otherwise.
   */
  function PartnerY(x: string): (y: string)
    ensures |x| >= 1 ==> |y| == |x| && y[..|y| - 1] == x[..|x| - 1]
    ensures |y| >= 1 && (y[|y| - 1] == 'y' || y[|y| - 1] == 'Y')
  {
    (if |x| == 0 then "" else x[..|x| - 1]) + (if EndsWith(x, "_X") then "Y" else "y")
  }

  /** `{stem}_X` pairs with `{stem}_Y` and `{stem}_x` with `{stem}_y`. */
  lemma PartnerYSwapsAxis(stem: string)
    ensures PartnerY(stem + "_X") == stem + "_Y"
    ensures PartnerY(stem + "_x") == stem + "_y"
  {
    assert (stem + "_X")[|stem + "_X"| - 2..] == "_X";
    assert (stem + "_x")[|stem + "_x"| - 2..] == "_x";
    assert (stem + "_X")[..|stem| + 1] == stem + "_";
    assert (stem + "_x")[..|stem| + 1] == stem + "_";
  }

  /**
   * The player id of x-column `x` (line 12): every `_X`, then every `_x`,
   * then every `{team}_` removed, and surrounding whitespace stripped. The
   * removals only shorten the name, and the id neither starts nor ends
   * with whitespace.
   */
  function ExtractId(x: string, team: string): (id: string)
    ensures |id| <= |x|
    ensures |id| > 0 ==> !IsSpace(id[0]) && !IsSpace(id[|id| - 1])
  {
    var s1 := Replace(x, "_X", "");
    var s2 := Replace(s1, "_x", "");
    ReplaceShrinks(x, "_X");
    ReplaceShrinks(s1, "_x");
    ReplaceShrinks(s2, team + "_");
    Strip(Replace(s2, team + "_", ""))
  }

  /** A ball-tracking channel (line 14): the id contains `ball` in any case. */
  predicate IsBall(id: string) {
    Contains(LowerStr(id), "ball")
  }

  /** `ball` written in any mix of cases marks a ball channel wherever it sits in the id. */
  lemma BallInAnyCase(pre: string, b: string, post: string)
    requires |b| == 4 && LowerStr(b) == "ball"
    ensures IsBall(pre + b + post)
  {
    var id := pre + b + post;
    var low := LowerStr(id);
    forall k | 0 <= k < 4 ensures low[|pre| + k] == "ball"[k] {
      assert id[|pre| + k] == b[k];
    }
    assert low[|pre|..|pre| + 4] == "ball";
    ContainsAt(low, "ball", |pre|);
  }

  /** An id without a `b` in either case is never a ball channel. */
  lemma BallNeedsB(id: string)
    requires forall i :: 0 <= i < |id| ==> id[i] != 'b' && id[i] != 'B'
    ensures !IsBall(id)
  {
    var low := LowerStr(id);
    forall i | 0 <= i < |low| ensures low[i] != 'b' {
      assert low[i] == Lower(id[i]);
    }
    MissingCharNotContained(low, "ball", 'b');
  }

  /** Key of the published distance series (line 29). */
  function DistKey(team: string, id: string): (k: string)
    ensures |k| > 0 && k[|k| - 1] == 't'
  {
    team + "_" + id + "_dist"
  }

  /** Key of the published speed series (line 30). */
  function SpeedKey(team: string, id: string): (k: string)
    ensures |k| > 0 && k[|k| - 1] == 'd'
  {
    team + "_" + id + "_speed"
  }

  /** A column the leaderboard treats as a player's speed series (line 65). */
  predicate IsSpeedColumn(name: string, team: string) {
    StartsWith(name, team + "_") && EndsWith(name, "_speed")
  }

  /** The first piece of a split is the longest prefix free of the separator. */
  lemma FirstPiece(t: string)
    ensures var p := Split(t, '_')[0];
      && |p| <= |t| && t[..|p|] == p
      && (|p| == |t| || t[|p|] == '_')
  {
  }

  /**
   * `name.split('_')[1]` (line 68): the longest run free of `_` that follows
   * the first underscore.
   */
  function RecoveredId(name: string): (id: string)
    requires '_' in name
    ensures var i := IndexOf(name, '_');
      && i + 1 + |id| <= |name|
      && name[i + 1..i + 1 + |id|] == id
      && '_' !in id
      && (i + 1 + |id| == |name| || name[i + 1 + |id|] == '_')
  {
    var i := IndexOf(name, '_');
    assert Split(name, '_') == [name[..i]] + Split(name[i + 1..], '_');
    FirstPiece(name[i + 1..]);
    Split(name, '_')[1]
  }

  /** The distance column the leaderboard pairs with speed column `name` (line 69). */
  function LeaderboardDistKey(team: string, name: string): string
    requires '_' in name
  {
    team + "_" + RecoveredId(name) + "_dist"
  }

  /**
   * A player id the key scheme carries unchanged: nonempty, free of `_`,
   * not starting with an axis letter and not padded with whitespace.
   */
  predicate PlainId(id: string) {
    && |id| > 0
    && '_' !in id
    && id[0] != 'x' && id[0] != 'X'
    && !IsSpace(id[0]) && !IsSpace(id[|id| - 1])
  }

  /** Removing an axis suffix pattern leaves `{team}_{id}` alone and acts on the suffix only. */
  lemma DropAxisSuffix(team: string, id: string, sfx: string, pat: string)
    requires pat == "_X" || pat == "_x"
    requires '_' !in team && PlainId(id)
    ensures Replace(team + "_" + id + sfx, pat, "") == team + "_" + id + Replace(sfx, pat, "")
  {
    var rest := "_" + id + sfx;
    assert team + "_" + id + sfx == team + rest;
    ReplaceKeepsPrefix(team, rest, pat, "");
    assert !StartsWith(rest, pat) by { assert rest[1] == id[0]; }
    assert rest[1..] == id + sfx;
    ReplaceKeepsPrefix(id, sfx, pat, "");
  }

  /** `{team}_{id}_x` and `{team}_{id}_X` are processed and pair with the matching y-column. */
  lemma PlayerXColumn(team: string, id: string, upper: bool)
    ensures var x := team + "_" + id + (if upper then "_X" else "_x");
      && IsXColumn(x, team)
      && PartnerY(x) == team + "_" + id + (if upper then "_Y" else "_y")
  {
    var x := team + "_" + id + (if upper then "_X" else "_x");
    assert LowerStr(x)[..|team|] == LowerStr(team);
    assert StartsWith(LowerStr(x), LowerStr(team));
    XColumnShape(x, team);
    PartnerYSwapsAxis(team + "_" + id);
  }

  /** The two axis passes of `ExtractId` reduce `{team}_{id}_x` (or `_X`) to `{team}_{id}`. */
  lemma AxisPasses(team: string, id: string, upper: bool)
    requires '_' !in team && PlainId(id)
    ensures var x := team + "_" + id + (if upper then "_X" else "_x");
      Replace(Replace(x, "_X", ""), "_x", "") == team + "_" + id
  {
    var sfx := if upper then "_X" else "_x";
    DropAxisSuffix(team, id, sfx, "_X");
    var sfx1 := Replace(sfx, "_X", "");
    assert sfx1 == (if upper then "" else "_x") by {
      assert "_X"[2..] == [];
      assert "_x"[1..] == "x";
      assert "x"[1..] == [];
    }
    DropAxisSuffix(team, id, sfx1, "_x");
    assert Replace(sfx1, "_x", "") == [] by {
      assert "_x"[2..] == [];
    }
    assert team + "_" + id + [] == team + "_" + id;
  }

  /** The team pass of `ExtractId` reduces `{team}_{id}` to `{id}` when `id` has no `_`. */
  lemma TeamPass(team: string, id: string)
    requires '_' !in id
    ensures Replace(team + "_" + id, team + "_", "") == id
  {
    var s := team + "_" + id;
    assert StartsWith(s, team + "_");
    assert s[|team + "_"|..] == id;
    MissingCharNotContained(id, team + "_", '_');
    ReplaceAbsent(id, team + "_", "");
  }

  /**
   * The id survives the trip through a position column: `{team}_{id}_x`
   * (or `_X`) yields `id` back when the team label has no `_` and the id is plain.
   */
  lemma ExtractIdRoundTrip(team: string, id: string, upper: bool)
    requires '_' !in team && PlainId(id)
    ensures ExtractId(team + "_" + id + (if upper then "_X" else "_x"), team) == id
  {
    AxisPasses(team, id, upper);
    TeamPass(team, id);
    StripTrimmed(id);
  }

  /**
   * The leaderboard's parse undoes the speed key: `SpeedKey(team, id)` is a
   * speed column of `team`, `split('_')[1]` returns `id`, and the paired
   * distance column is `DistKey(team, id)`, when neither part contains `_`.
   */
  lemma SpeedKeyRoundTrip(team: string, id: string)
    requires '_' !in team && '_' !in id
    ensures IsSpeedColumn(SpeedKey(team, id), team)
    ensures RecoveredId(SpeedKey(team, id)) == id
    ensures LeaderboardDistKey(team, SpeedKey(team, id)) == DistKey(team, id)
  {
    SpeedKeyShape(team, id);
    SplitJoin([team, id, "speed"], '_');
  }

  /** A speed key starts with `{team}_`, ends in `_speed` and joins its three parts with `_`. */
  lemma SpeedKeyShape(team: string, id: string)
    ensures IsSpeedColumn(SpeedKey(team, id), team)
    ensures SpeedKey(team, id) == Join([team, id, "speed"], '_')
  {
    var k := SpeedKey(team, id);
    assert k[..|team + "_"|] == team + "_";
    assert k[|k| - 6..] == "_speed";
    assert [team, id, "speed"][1..] == [id, "speed"];
    assert [id, "speed"][1..] == ["speed"];
    assert Join([id, "speed"], '_') == id + "_speed";
    assert Join([team, id, "speed"], '_') == team + "_" + (id + "_speed");
  }

  /** `split('_')[1]` of `{p0}_{p1}_{rest}` is `p1` when neither `p0` nor `p1` contains `_`. */
  lemma SecondPiece(p0: string, p1: string, rest: string)
    requires '_' !in p0 && '_' !in p1
    ensures '_' in p0 + "_" + p1 + "_" + rest
    ensures RecoveredId(p0 + "_" + p1 + "_" + rest) == p1
  {
    var name := p0 + "_" + p1 + "_" + rest;
    assert name == p0 + ['_'] + (p1 + ['_'] + rest);
    assert name[|p0|] == '_';
    SplitAfterFirst(p0, p1 + ['_'] + rest, '_');
    SplitAfterFirst(p1, rest, '_');
  }

  /**
   * With `_` in the team label the round trip fails: the leaderboard reads
   * the part of the label after its first `_` as the id (`Home_A` gives `A`).
   */
  lemma UnderscoreInTeamShiftsId(t1: string, t2: string, id: string)
    requires '_' !in t1 && '_' !in t2
    ensures RecoveredId(SpeedKey(t1 + "_" + t2, id)) == t2
  {
    assert SpeedKey(t1 + "_" + t2, id) == t1 + "_" + t2 + "_" + (id + "_speed");
    SecondPiece(t1, t2, id + "_speed");
  }

  /**
   * With `_` in the id the round trip fails: the leaderboard reads only the
   * part before the id's first `_` (`7_b` gives `7`).
   */
  lemma UnderscoreInIdTruncatesId(team: string, a: string, b: string)
    requires '_' !in team && '_' !in a
    ensures RecoveredId(SpeedKey(team, a + "_" + b)) == a
  {
    assert SpeedKey(team, a + "_" + b) == team + "_" + a + "_" + (b + "_speed");
    SecondPiece(team, a, b + "_speed");
  }
}
