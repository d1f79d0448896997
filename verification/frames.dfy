/**
 * A team's data frame: named per-frame series of one common length, in
 * column order. Indexing by name and assigning a column are the only
 * frame operations the physics code uses.
 */
module Frames {
  import opened Outcomes
  import opened Series

  datatype Column = Column(name: string, values: seq<Sample>)

  datatype Frame = Frame(rows: nat, columns: seq<Column>) {
    /** Every column is as long as the frame's index. */
    predicate WellFormed() {
      forall i :: 0 <= i < |columns| ==> |columns[i].values| == rows
    }
  }

  function NameSet(f: Frame): set<string> {
    set i | 0 <= i < |f.columns| :: f.columns[i].name
  }

  /**
   * Positions, from `from` on, of the columns whose name passes `keep`:
   * exactly those positions, in column order, as a list comprehension over
   * `df.columns` visits them.
   */
  function Positions(cols: seq<Column>, keep: string -> bool, from: nat): (idx: seq<nat>)
    requires from <= |cols|
    ensures |idx| <= |cols| - from
    ensures forall k :: 0 <= k < |idx| ==> from <= idx[k] < |cols| && keep(cols[idx[k]].name)
    ensures forall k, l :: 0 <= k < l < |idx| ==> idx[k] < idx[l]
    ensures forall i :: from <= i < |cols| && keep(cols[i].name) ==> i in idx
    decreases |cols| - from
  {
    if from == |cols| then []
    else
      var rest := Positions(cols, keep, from + 1);
      if keep(cols[from].name) then [from] + rest else rest
  }

  /** The first column of `cols` called `name`, if any. */
  function Find(cols: seq<Column>, name: string): (r: Option<seq<Sample>>)
    ensures r.None? <==> forall i :: 0 <= i < |cols| ==> cols[i].name != name
    ensures r.Some? ==> exists i :: 0 <= i < |cols| && cols[i] == Column(name, r.value)
  {
    if |cols| == 0 then None
    else if cols[0].name == name then Some(cols[0].values)
    else
      var r := Find(cols[1..], name);
      assert forall i :: 1 <= i < |cols| ==> cols[i] == cols[1..][i - 1];
      r
  }

  /**
   * `df[name]`: the series stored under `name`, or `None` where pandas raises
   * `KeyError`. Found series are as long as the frame.
   */
  function Lookup(f: Frame, name: string): (r: Option<seq<Sample>>)
    ensures r.Some? <==> name in NameSet(f)
    ensures f.WellFormed() && r.Some? ==> |r.value| == f.rows
  {
    var r := Find(f.columns, name);
    assert r.None? ==> name !in NameSet(f);
    assert name in NameSet(f) ==> r.Some?;
    r
  }

  /** Replaces the first column called `name`, or appends one when there is none. */
  function Assign(cols: seq<Column>, name: string, values: seq<Sample>): (r: seq<Column>)
    ensures Find(r, name) == Some(values)
    ensures forall n :: n != name ==> Find(r, n) == Find(cols, n)
    ensures forall i :: 0 <= i < |r| ==> r[i] == Column(name, values) || r[i] in cols
    ensures forall c :: c in cols && c.name != name ==> c in r
    ensures |r| == |cols| || |r| == |cols| + 1
  {
    if |cols| == 0 then [Column(name, values)]
    else if cols[0].name == name then [Column(name, values)] + cols[1..]
    else
      var rest := Assign(cols[1..], name, values);
      assert forall c :: c in cols && c != cols[0] ==> c in cols[1..];
      [cols[0]] + rest
  }

  /**
   * `df[name] = values`: afterwards `name` holds `values`, every other name
   * looks up what it did before, and the frame stays well formed.
   */
  function Put(f: Frame, name: string, values: seq<Sample>): (r: Frame)
    ensures r.rows == f.rows
    ensures Lookup(r, name) == Some(values)
    ensures forall n :: n != name ==> Lookup(r, n) == Lookup(f, n)
    ensures NameSet(r) == NameSet(f) + {name}
    ensures f.WellFormed() && |values| == f.rows ==> r.WellFormed()
  {
    var r := Frame(f.rows, Assign(f.columns, name, values));
    assert forall n :: n in NameSet(r) <==> Lookup(r, n).Some?;
    r
  }
}
