/**
  Time-versioned label histories of the friendlytagger processor.

  A `LabelSet` holds, for one code (a country code, an ASN, ...), the labels
  the code has carried and the timestamps from which each applies, as two
  parallel sequences. This module builds the histories of one mapping table
  from its rows and resolves the label in force at a given timestamp.
*/
module LabelSets {
  import opened Wrappers

  /**
    One row of a mapping table: the columns `code`, `label` and `apply_from`.
    The label column is the field `name`, because `label` is a Dafny keyword.
  */
  datatype Row = Row(code: string, name: string, applyFrom: int)

  /** `labels[i]` applies to the code from timestamp `startTimes[i]` on. */
  datatype LabelSet = LabelSet(startTimes: seq<int>, labels: seq<string>)

  /** Every label has its start time at the same index. */
  predicate Parallel(ls: LabelSet)
  {
    |ls.startTimes| == |ls.labels|
  }

  predicate NonDecreasing(s: seq<int>)
  {
    forall i, j :: 0 <= i < j < |s| ==> s[i] <= s[j]
  }

  /** Rows in the order the `ORDER BY apply_from` query delivers them. */
  predicate SortedRows(rows: seq<Row>)
  {
    forall i, j :: 0 <= i < j < |rows| ==> rows[i].applyFrom <= rows[j].applyFrom
  }

  /** A history as a build from ordered rows leaves it. */
  predicate WellFormed(ls: LabelSet)
  {
    Parallel(ls) && |ls.startTimes| > 0 && NonDecreasing(ls.startTimes)
  }

  // ---------------------------------------------------------------------
  // Resolve: the label in force at a timestamp
  // ---------------------------------------------------------------------

  /** `i` is the highest index whose start time is at or before `t`. */
  ghost predicate IsLatest(starts: seq<int>, t: int, i: int)
  {
    0 <= i < |starts| && starts[i] <= t &&
    forall j :: i < j < |starts| ==> starts[j] > t
  }

  /** The index the backward scan stops at, if any. */
  function LatestIndex(starts: seq<int>, t: int): (r: Option<nat>)
    ensures r.Some? ==> IsLatest(starts, t, r.value)
    ensures r.None? ==> forall j :: 0 <= j < |starts| ==> starts[j] > t
    decreases |starts|
  {
    if |starts| == 0 then None
    else if starts[|starts| - 1] <= t then Some(|starts| - 1)
    else LatestIndex(starts[..|starts| - 1], t)
  }

  /**
    The label of `ls` in force at `t`: the label at the largest index whose
    start time is at or before `t`, so that among equal start times the
    entry appended later wins; nothing when every start time is after `t`.
  */
  function Resolve(ls: LabelSet, t: int): (r: Option<string>)
    requires Parallel(ls)
    ensures r.Some? <==> exists i :: 0 <= i < |ls.startTimes| && ls.startTimes[i] <= t
    ensures forall i :: IsLatest(ls.startTimes, t, i) ==> r == Some(ls.labels[i])
  {
    match LatestIndex(ls.startTimes, t)
    case Some(i) => Some(ls.labels[i])
    case None => None
  }

  /** Resolution in one table: a code the table does not know resolves to nothing. */
  function Lookup(mappings: map<string, LabelSet>, code: string, t: int): Option<string>
    requires forall c :: c in mappings ==> Parallel(mappings[c])
  {
    if code in mappings then Resolve(mappings[code], t) else None
  }

  /**
    The backward scan: start at the most recent entry and stop at the first
    one whose start time is at or before `t`.
  */
  method FindLabel(ls: LabelSet, t: int) returns (found: Option<string>)
    requires Parallel(ls)
    ensures found == Resolve(ls, t)
  {
    found := None;
    var i := |ls.startTimes| - 1;
    while i >= 0
      invariant -1 <= i < |ls.startTimes|
      invariant forall j :: i < j < |ls.startTimes| ==> ls.startTimes[j] > t
    {
      if ls.startTimes[i] <= t {
        found := Some(ls.labels[i]);
        assert IsLatest(ls.startTimes, t, i);
        break;
      }
      i := i - 1;
    }
  }

  /**
    When the start times are in order, the entry found is the closest
    preceding one: no entry that applies at `t` starts later.
  */
  lemma ClosestPreceding(starts: seq<int>, t: int, i: nat)
    requires NonDecreasing(starts)
    requires LatestIndex(starts, t) == Some(i)
    ensures forall j :: 0 <= j < |starts| && starts[j] <= t ==> starts[j] <= starts[i]
  {
  }

  /** The ASN 681 history: renamed at 1592346088. */
  const Asn681 := LabelSet([0, 1592346088], ["University of Waikato, NZ", "Quigley College, NZ"])

  lemma Asn681Resolves(t: int)
    ensures 0 <= t < 1592346088 ==> Resolve(Asn681, t) == Some("University of Waikato, NZ")
    ensures 1592346088 <= t ==> Resolve(Asn681, t) == Some("Quigley College, NZ")
    ensures t < 0 ==> Resolve(Asn681, t) == None
  {
    assert Asn681.startTimes[..1] == [0];
  }

  /** Equal start times: the entry built later wins. */
  lemma DuplicateStartTimes()
    ensures Resolve(LabelSet([100, 100, 200], ["A", "B", "C"]), 150) == Some("B")
    ensures Resolve(LabelSet([100, 100, 200], ["A", "B", "C"]), 250) == Some("C")
    ensures Resolve(LabelSet([100, 100, 200], ["A", "B", "C"]), 50) == None
  {
    assert IsLatest([100, 100, 200], 150, 1);
    assert IsLatest([100, 100, 200], 250, 2);
  }

  // ---------------------------------------------------------------------
  // Build: grouping the rows of one table by code
  // ---------------------------------------------------------------------

  /** The rows that carry `code`, in input order. */
  function Select(rows: seq<Row>, code: string): seq<Row>
    decreases |rows|
  {
    if |rows| == 0 then []
    else Select(rows[..|rows| - 1], code) + (if rows[|rows| - 1].code == code then [rows[|rows| - 1]] else [])
  }

  /** The codes that occur in the rows. */
  function Codes(rows: seq<Row>): set<string>
  {
    set r | r in rows :: r.code
  }

  /** The history made of some rows, one entry per row, in row order. */
  function ToLabelSet(rows: seq<Row>): LabelSet
  {
    LabelSet(seq(|rows|, i requires 0 <= i < |rows| => rows[i].applyFrom),
             seq(|rows|, i requires 0 <= i < |rows| => rows[i].name))
  }

  /** The table a build leaves: each code mapped to the history of its rows. */
  function Grouped(rows: seq<Row>): map<string, LabelSet>
  {
    map c | c in Codes(rows) :: ToLabelSet(Select(rows, c))
  }

  /** The row loop of the build, appending each row to its code's history. */
  method GroupRows(rows: seq<Row>) returns (labelmap: map<string, LabelSet>)
    ensures labelmap == Grouped(rows)
  {
    labelmap := map[];
    var n := 0;
    while n < |rows|
      invariant n <= |rows|
      invariant labelmap == Grouped(rows[..n])
    {
      var row := rows[n];
      GroupedSnoc(rows[..n], row);
      if row.code in labelmap {
        var lmap := labelmap[row.code];
        lmap := lmap.(startTimes := lmap.startTimes + [row.applyFrom], labels := lmap.labels + [row.name]);
        labelmap := labelmap[row.code := lmap];
      } else {
        var lset := LabelSet([row.applyFrom], [row.name]);
        labelmap := labelmap[row.code := lset];
      }
      assert rows[..n + 1] == rows[..n] + [row];
      n := n + 1;
    }
    assert rows[..n] == rows;
  }

  /** `Select` picks exactly the rows carrying the code. */
  lemma {:induction false} SelectMembers(rows: seq<Row>, code: string)
    ensures forall x :: x in Select(rows, code) <==> x in rows && x.code == code
    decreases |rows|
  {
    if |rows| > 0 {
      var p := rows[..|rows| - 1];
      SelectMembers(p, code);
      assert rows == p + [rows[|rows| - 1]];
    }
  }

  /** Selecting from a concatenation keeps the input order. */
  lemma {:induction false} SelectAppend(a: seq<Row>, b: seq<Row>, code: string)
    ensures Select(a + b, code) == Select(a, code) + Select(b, code)
    decreases |b|
  {
    if |b| == 0 {
      assert a + b == a;
    } else {
      var b' := b[..|b| - 1];
      SelectAppend(a, b', code);
      assert (a + b)[..|a + b| - 1] == a + b';
    }
  }

  /** A code that no row carries selects nothing. */
  lemma SelectAbsent(rows: seq<Row>, code: string)
    requires code !in Codes(rows)
    ensures Select(rows, code) == []
  {
    SelectMembers(rows, code);
    if Select(rows, code) != [] {
      assert Select(rows, code)[0] in Select(rows, code);
    }
  }

  lemma SelectSnoc(rows: seq<Row>, r: Row, code: string)
    ensures Select(rows + [r], code) == Select(rows, code) + (if r.code == code then [r] else [])
  {
    assert (rows + [r])[..|rows|] == rows;
  }

  lemma ToLabelSetSnoc(s: seq<Row>, r: Row)
    ensures ToLabelSet(s + [r]) == LabelSet(ToLabelSet(s).startTimes + [r.applyFrom], ToLabelSet(s).labels + [r.name])
  {
  }

  /** Appending one row extends its code's history and leaves the others alone. */
  lemma GroupedSnoc(rows: seq<Row>, r: Row)
    ensures var m := Grouped(rows);
      Grouped(rows + [r]) ==
        if r.code in m then m[r.code := LabelSet(m[r.code].startTimes + [r.applyFrom], m[r.code].labels + [r.name])]
        else m[r.code := LabelSet([r.applyFrom], [r.name])]
  {
    var m := Grouped(rows);
    var rows' := rows + [r];
    var expected :=
      if r.code in m then m[r.code := LabelSet(m[r.code].startTimes + [r.applyFrom], m[r.code].labels + [r.name])]
      else m[r.code := LabelSet([r.applyFrom], [r.name])];
    assert Codes(rows') == Codes(rows) + {r.code};
    assert Grouped(rows').Keys == expected.Keys;
    forall c | c in expected
      ensures Grouped(rows')[c] == expected[c]
    {
      SelectSnoc(rows, r, c);
      if c == r.code {
        ToLabelSetSnoc(Select(rows, c), r);
        if c !in m {
          SelectAbsent(rows, c);
        }
      }
    }
  }

  /** A build never makes an empty history and keeps every history parallel. */
  lemma GroupedWellShaped(rows: seq<Row>)
    ensures Grouped(rows).Keys == Codes(rows)
    ensures forall c :: c in Grouped(rows) ==>
      Parallel(Grouped(rows)[c]) && |Grouped(rows)[c].startTimes| > 0
  {
    forall c | c in Codes(rows)
      ensures |Select(rows, c)| > 0
    {
      SelectMembers(rows, c);
      var x :| x in rows && x.code == c;
      assert x in Select(rows, c);
    }
  }

  /** An empty table builds an empty map. */
  lemma GroupedEmpty()
    ensures Grouped([]) == map[]
  {
  }

  /** Rows delivered in start-time order give histories in start-time order. */
  lemma {:induction false} SelectSorted(rows: seq<Row>, code: string)
    requires SortedRows(rows)
    ensures SortedRows(Select(rows, code))
    decreases |rows|
  {
    if |rows| > 0 {
      var p := rows[..|rows| - 1];
      var last := rows[|rows| - 1];
      SelectSorted(p, code);
      SelectMembers(p, code);
      forall x | x in Select(p, code)
        ensures x.applyFrom <= last.applyFrom
      {
        var j :| 0 <= j < |p| && p[j] == x;
      }
    }
  }

  lemma GroupedSorted(rows: seq<Row>)
    requires SortedRows(rows)
    ensures forall c :: c in Grouped(rows) ==> WellFormed(Grouped(rows)[c])
  {
    GroupedWellShaped(rows);
    forall c | c in Grouped(rows)
      ensures NonDecreasing(Grouped(rows)[c].startTimes)
    {
      SelectSorted(rows, c);
    }
  }

  // ---------------------------------------------------------------------
  // Build followed by Resolve, against the rows themselves
  // ---------------------------------------------------------------------

  /** The label of the last row, in input order, that carries `code` and applies at `t`. */
  function LastLabel(rows: seq<Row>, code: string, t: int): Option<string>
    decreases |rows|
  {
    if |rows| == 0 then None
    else if rows[|rows| - 1].code == code && rows[|rows| - 1].applyFrom <= t then Some(rows[|rows| - 1].name)
    else LastLabel(rows[..|rows| - 1], code, t)
  }

  lemma {:induction false} ResolveSelected(rows: seq<Row>, code: string, t: int)
    ensures Resolve(ToLabelSet(Select(rows, code)), t) == LastLabel(rows, code, t)
    decreases |rows|
  {
    if |rows| > 0 {
      var p := rows[..|rows| - 1];
      var r := rows[|rows| - 1];
      assert rows == p + [r];
      ResolveSelected(p, code, t);
      SelectSnoc(p, r, code);
      if r.code == code {
        var s := Select(p, code);
        ToLabelSetSnoc(s, r);
        var ls, ls' := ToLabelSet(s), ToLabelSet(s + [r]);
        assert Select(rows, code) == s + [r];
        if r.applyFrom <= t {
          assert IsLatest(ls'.startTimes, t, |s|);
          assert LastLabel(rows, code, t) == Some(r.name);
        } else {
          assert LastLabel(rows, code, t) == LastLabel(p, code, t);
          match LatestIndex(ls.startTimes, t)
          case Some(i) =>
            assert IsLatest(ls'.startTimes, t, i);
            assert ls'.labels[i] == ls.labels[i];
          case None =>
            assert forall j :: 0 <= j < |ls'.startTimes| ==> ls'.startTimes[j] > t;
        }
      } else {
        assert Select(rows, code) == Select(p, code);
        assert LastLabel(rows, code, t) == LastLabel(p, code, t);
      }
    }
  }

  /**
    Build then Resolve: the label a built table gives a code at `t` is the
    label of the last row carrying that code whose start time is at or
    before `t`; a code with no such row resolves to nothing.
  */
  lemma BuildThenLookup(rows: seq<Row>, code: string, t: int)
    ensures Lookup(Grouped(rows), code, t) == LastLabel(rows, code, t)
  {
    ResolveSelected(rows, code, t);
    if code !in Codes(rows) {
      SelectAbsent(rows, code);
    }
  }

  /** Duplicate start times in a table: the row delivered later wins. */
  lemma DuplicateRowsExample()
    ensures var rows := [Row("X", "A", 100), Row("X", "B", 100), Row("X", "C", 200)];
      Lookup(Grouped(rows), "X", 150) == Some("B") &&
      Lookup(Grouped(rows), "X", 250) == Some("C") &&
      Lookup(Grouped(rows), "X", 50) == None &&
      Lookup(Grouped(rows), "Y", 250) == None
  {
    var rows := [Row("X", "A", 100), Row("X", "B", 100), Row("X", "C", 200)];
    BuildThenLookup(rows, "X", 150);
    BuildThenLookup(rows, "X", 250);
    BuildThenLookup(rows, "X", 50);
    BuildThenLookup(rows, "Y", 250);
    assert rows[..2] == [Row("X", "A", 100), Row("X", "B", 100)];
    assert rows[..2][..1] == [Row("X", "A", 100)];
    assert rows[..2][..1][..0] == [];
    assert LastLabel(rows[..2][..1], "X", 50) == None;
    assert LastLabel(rows[..2], "X", 50) == None;
  }
}
