/** The ledgers the planner keeps are always the aggregates of the table: every
    commit, whether of one lot or of a whole group, moves each ledger by exactly
    what the placed rows now contribute. */
module Consistency {
  import opened Options
  import opened Capacity
  import opened Ledger
  import opened Rows
  import opened Placement
  import opened Groups

  /** The ledgers are those of `rows`. The exit ledger also keeps what was seeded
      from rows of the original table `input` that carried a SALIDA_SAL but no
      ENTRADA_SAL: placing such a row later never takes that load back off. */
  ghost predicate Consistent(loads: Loads, rows: seq<Row>, input: seq<Row>) {
    && EntryConsistent(loads.entry, rows)
    && ExitConsistent(loads.exit, rows, input)
    && StabConsistent(loads.stab, rows)
  }

  ghost predicate EntryConsistent(entry: map<int, int>, rows: seq<Row>) {
    forall x :: Get(entry, x) == LoadAt(rows, EntryLoad, x)
  }

  ghost predicate ExitConsistent(exit: map<int, int>, rows: seq<Row>, input: seq<Row>) {
    forall x :: Get(exit, x) == LoadAt(rows, PlacedExit, x) + LoadAt(input, StaleExit, x)
  }

  ghost predicate StabConsistent(stab: map<int, int>, rows: seq<Row>) {
    forall x :: Get(stab, x) == LoadAt(rows, StabLoad, x)
  }

  /** Two rows the ledgers cannot tell apart. */
  predicate SameLedgerFields(a: Row, b: Row) {
    a.entry == b.entry && a.exit == b.exit && a.units == b.units && a.reception == b.reception
  }

  lemma {:induction false} LoadAtAgrees(a: seq<Row>, b: seq<Row>, k: LedgerKind, x: int)
    requires |a| == |b|
    requires forall i :: 0 <= i < |a| ==> SameLedgerFields(a[i], b[i])
    ensures LoadAt(a, k, x) == LoadAt(b, k, x)
    decreases |a|
  {
    if |a| > 0 {
      LoadAtAgrees(a[..|a| - 1], b[..|b| - 1], k, x);
    }
  }

  /** Changing only fields the ledgers do not read keeps them consistent. */
  lemma RelabelKeepsConsistent(loads: Loads, rows: seq<Row>, out: seq<Row>, input: seq<Row>)
    requires Consistent(loads, rows, input)
    requires |out| == |rows|
    requires forall i :: 0 <= i < |rows| ==> SameLedgerFields(rows[i], out[i])
    ensures Consistent(loads, out, input)
  {
    forall x
      ensures LoadAt(out, EntryLoad, x) == LoadAt(rows, EntryLoad, x)
      ensures LoadAt(out, PlacedExit, x) == LoadAt(rows, PlacedExit, x)
      ensures LoadAt(out, StabLoad, x) == LoadAt(rows, StabLoad, x)
    {
      LoadAtAgrees(out, rows, EntryLoad, x);
      LoadAtAgrees(out, rows, PlacedExit, x);
      LoadAtAgrees(out, rows, StabLoad, x);
    }
  }

  /** Placing pending row `i` on `e` with exit `s` and committing it keeps the
      ledgers those of the table. */
  lemma CommitLotKeepsConsistent(loads: Loads, rows: seq<Row>, input: seq<Row>, i: nat, e: int, s: int)
    requires Consistent(loads, rows, input)
    requires i < |rows| && rows[i].entry.None?
    ensures Consistent(Committed(loads, rows[i], e, s), rows[i := Placed(rows[i], e, s)], input)
  {
    var r := rows[i];
    var next := Committed(loads, r, e, s);
    CommitEntryConsistent(loads, rows, i, e, s);
    CommitExitConsistent(loads, rows, input, i, e, s);
    CommitStabConsistent(loads, rows, i, e, s);
  }

  lemma CommitEntryConsistent(loads: Loads, rows: seq<Row>, i: nat, e: int, s: int)
    requires EntryConsistent(loads.entry, rows)
    requires i < |rows| && rows[i].entry.None?
    ensures EntryConsistent(Committed(loads, rows[i], e, s).entry, rows[i := Placed(rows[i], e, s)])
  {
    var r := rows[i];
    forall x
      ensures Get(Committed(loads, r, e, s).entry, x) == LoadAt(rows[i := Placed(r, e, s)], EntryLoad, x)
    {
      CommittedPointwise(loads, r, e, s, x);
      LoadAtUpdate(rows, i, Placed(r, e, s), EntryLoad, x);
    }
  }

  lemma CommitExitConsistent(loads: Loads, rows: seq<Row>, input: seq<Row>, i: nat, e: int, s: int)
    requires ExitConsistent(loads.exit, rows, input)
    requires i < |rows| && rows[i].entry.None?
    ensures ExitConsistent(Committed(loads, rows[i], e, s).exit, rows[i := Placed(rows[i], e, s)], input)
  {
    var r := rows[i];
    forall x
      ensures Get(Committed(loads, r, e, s).exit, x) == LoadAt(rows[i := Placed(r, e, s)], PlacedExit, x) + LoadAt(input, StaleExit, x)
    {
      CommittedPointwise(loads, r, e, s, x);
      LoadAtUpdate(rows, i, Placed(r, e, s), PlacedExit, x);
    }
  }

  lemma CommitStabConsistent(loads: Loads, rows: seq<Row>, i: nat, e: int, s: int)
    requires StabConsistent(loads.stab, rows)
    requires i < |rows| && rows[i].entry.None?
    ensures StabConsistent(Committed(loads, rows[i], e, s).stab, rows[i := Placed(rows[i], e, s)])
  {
    var r := rows[i];
    forall x
      ensures Get(Committed(loads, r, e, s).stab, x) == LoadAt(rows[i := Placed(r, e, s)], StabLoad, x)
    {
      CommittedPointwise(loads, r, e, s, x);
      LoadAtUpdate(rows, i, Placed(r, e, s), StabLoad, x);
    }
  }

  /** The members of a group as the commit leaves them: all on `d`, member `k`
      with exit `exits[k]`. */
  function PlacedGroup(pending: seq<Row>, d: int, exits: seq<int>): (p: seq<Row>)
    requires |exits| == |pending|
    ensures |p| == |pending|
    ensures forall k :: 0 <= k < |pending| ==> p[k] == Placed(pending[k], d, exits[k])
  {
    seq(|pending|, k requires 0 <= k < |pending| => Placed(pending[k], d, exits[k]))
  }

  lemma PlacedGroupPrefix(pending: seq<Row>, d: int, exits: seq<int>)
    requires |exits| == |pending| > 0
    ensures PlacedGroup(pending, d, exits)[..|pending| - 1]
         == PlacedGroup(pending[..|pending| - 1], d, exits[..|pending| - 1])
  {
  }

  /** The placed group adds its total units on `d` to the entry ledger. */
  lemma {:induction false} GroupEntryLoad(pending: seq<Row>, d: int, exits: seq<int>, x: int)
    requires |exits| == |pending|
    ensures LoadAt(PlacedGroup(pending, d, exits), EntryLoad, x) == if x == d then GroupUnits(pending) else 0
    decreases |pending|
  {
    if |pending| > 0 {
      var n := |pending| - 1;
      PlacedGroupPrefix(pending, d, exits);
      GroupEntryLoad(pending[..n], d, exits[..n], x);
    }
  }

  /** With the exits the simulation computed, the placed group adds to the exit
      ledger exactly what the simulation set aside in `add_salida`. */
  lemma {:induction false} GroupExitLoad(cfg: Settings, exit: map<int, int>, pending: seq<Row>, d: int, x: int)
    ensures LoadAt(PlacedGroup(pending, d, SimExits(cfg, exit, pending, d).1), PlacedExit, x)
         == Get(SimExits(cfg, exit, pending, d).0, x)
    decreases |pending|
  {
    if |pending| > 0 {
      var n := |pending| - 1;
      var sim := SimExits(cfg, exit, pending, d);
      var prev := SimExits(cfg, exit, pending[..n], d);
      SimExitsLast(cfg, exit, pending, d);
      PlacedGroupLast(pending, d, sim.1);
      assert sim.1[..n] == prev.1;
      GroupExitLoad(cfg, exit, pending[..n], d, x);
      ExitLoadStep(PlacedGroup(pending[..n], d, prev.1), pending[n], d, sim.1[n], prev.0, x);
    }
  }

  /** The placed group is the placed group of all members but the last, then the last one. */
  lemma PlacedGroupLast(pending: seq<Row>, d: int, exits: seq<int>)
    requires |exits| == |pending| > 0
    ensures var n := |pending| - 1;
            PlacedGroup(pending, d, exits)
              == PlacedGroup(pending[..n], d, exits[..n]) + [Placed(pending[n], d, exits[n])]
  {
    var n := |pending| - 1;
    assert PlacedGroup(pending, d, exits)[..n] == PlacedGroup(pending[..n], d, exits[..n]);
  }

  /** One more placed lot adds its units on its exit day. */
  lemma ExitLoadStep(placed: seq<Row>, r: Row, d: int, e: int, add: map<int, int>, x: int)
    requires LoadAt(placed, PlacedExit, x) == Get(add, x)
    ensures LoadAt(placed + [Placed(r, d, e)], PlacedExit, x) == Get(AddAt(add, e, r.units), x)
  {
    assert (placed + [Placed(r, d, e)])[..|placed|] == placed;
  }

  /** The placed group occupies the stabilisation chamber exactly as the
      simulation `sim_stock` did. */
  lemma {:induction false} GroupStabLoad(stab: map<int, int>, pending: seq<Row>, d: int, exits: seq<int>, x: int)
    requires |exits| == |pending|
    ensures Get(stab, x) + LoadAt(PlacedGroup(pending, d, exits), StabLoad, x) == Get(SimStab(stab, pending, d), x)
    decreases |pending|
  {
    if |pending| > 0 {
      var n := |pending| - 1;
      PlacedGroupPrefix(pending, d, exits);
      GroupStabLoad(stab, pending[..n], d, exits[..n], x);
    }
  }

  /** When only the rows at `ms` change, and they contributed nothing before,
      a total is the old total plus what the changed rows contribute now. */
  lemma {:induction false} LoadAtSplit(rows: seq<Row>, out: seq<Row>, ms: seq<nat>, k: LedgerKind, x: int)
    requires |out| == |rows| && ValidIndices(ms, |rows|) && Increasing(ms)
    requires forall i :: 0 <= i < |rows| && i !in ms ==> out[i] == rows[i]
    requires forall j :: 0 <= j < |ms| ==> Contribution(k, rows[ms[j]], x) == 0
    ensures LoadAt(out, k, x) == LoadAt(rows, k, x) + LoadAt(Pick(out, ms), k, x)
    decreases |ms|
  {
    if |ms| == 0 {
      NothingChanged(rows, out, ms);
    } else {
      var m := |ms| - 1;
      var j := ms[m];
      RestoreLast(rows, out, ms, k, x);
      LoadAtSplit(rows, out[j := rows[j]], ms[..m], k, x);
      ChangeOneRow(rows, out, j, k, x);
      PickLast(out, ms, k, x);
    }
  }

  lemma NothingChanged(rows: seq<Row>, out: seq<Row>, ms: seq<nat>)
    requires |out| == |rows| && |ms| == 0
    requires forall i :: 0 <= i < |rows| && i !in ms ==> out[i] == rows[i]
    ensures out == rows
  {
    forall i | 0 <= i < |rows|
      ensures out[i] == rows[i]
    {
      assert i !in ms;
    }
  }

  /** Putting back the last changed row leaves the others changed as before. */
  lemma RestoreLast(rows: seq<Row>, out: seq<Row>, ms: seq<nat>, k: LedgerKind, x: int)
    requires |out| == |rows| && ValidIndices(ms, |rows|) && Increasing(ms) && |ms| > 0
    requires forall i :: 0 <= i < |rows| && i !in ms ==> out[i] == rows[i]
    requires forall j :: 0 <= j < |ms| ==> Contribution(k, rows[ms[j]], x) == 0
    ensures var m := |ms| - 1;
            var mid := out[ms[m] := rows[ms[m]]];
            && ValidIndices(ms[..m], |rows|) && Increasing(ms[..m])
            && (forall i :: 0 <= i < |rows| && i !in ms[..m] ==> mid[i] == rows[i])
            && (forall t :: 0 <= t < m ==> Contribution(k, rows[ms[..m][t]], x) == 0)
            && Contribution(k, rows[ms[m]], x) == 0
            && Pick(mid, ms[..m]) == Pick(out, ms[..m])
  {
    var m := |ms| - 1;
    var j := ms[m];
    var front := ms[..m];
    var mid := out[j := rows[j]];
    assert ms == front + [j];
    forall i | 0 <= i < |rows| && i !in front
      ensures mid[i] == rows[i]
    {
      if i != j {
        assert i !in ms;
      }
    }
    forall t | 0 <= t < m
      ensures mid[front[t]] == out[front[t]]
    {
      assert ms[t] < ms[m];
    }
  }

  /** Changing the row at `j` changes a total by that row's difference. */
  lemma ChangeOneRow(rows: seq<Row>, out: seq<Row>, j: nat, k: LedgerKind, x: int)
    requires |out| == |rows| && j < |rows|
    ensures LoadAt(out, k, x) == LoadAt(out[j := rows[j]], k, x) - Contribution(k, rows[j], x) + Contribution(k, out[j], x)
  {
    var mid := out[j := rows[j]];
    assert mid[j := out[j]] == out;
    LoadAtUpdate(mid, j, out[j], k, x);
  }

  /** The picked rows end with the row of the last index. */
  lemma PickLast(out: seq<Row>, ms: seq<nat>, k: LedgerKind, x: int)
    requires ValidIndices(ms, |out|) && |ms| > 0
    ensures ValidIndices(ms[..|ms| - 1], |out|)
    ensures LoadAt(Pick(out, ms), k, x)
         == LoadAt(Pick(out, ms[..|ms| - 1]), k, x) + Contribution(k, out[ms[|ms| - 1]], x)
  {
    var m := |ms| - 1;
    var picked := Pick(out, ms);
    assert ValidIndices(ms[..m], |out|) by {
      assert forall t :: 0 <= t < m ==> ms[..m][t] == ms[t];
    }
    assert picked[..m] == Pick(out, ms[..m]);
  }

  /** What the members of a committed group contribute to ledger `k` beyond
      what the other rows already do. */
  lemma GroupShare(rows: seq<Row>, ms: seq<nat>, out: seq<Row>, placed: seq<Row>, k: LedgerKind, x: int)
    requires ValidIndices(ms, |rows|) && Increasing(ms)
    requires forall j :: 0 <= j < |ms| ==> rows[ms[j]].entry.None?
    requires k != StaleExit
    requires |out| == |rows|
    requires forall i :: 0 <= i < |rows| && i !in ms ==> out[i] == rows[i]
    requires Pick(out, ms) == placed
    ensures LoadAt(out, k, x) == LoadAt(rows, k, x) + LoadAt(placed, k, x)
  {
    forall j | 0 <= j < |ms|
      ensures Contribution(k, rows[ms[j]], x) == 0
    {
    }
    LoadAtSplit(rows, out, ms, k, x);
  }

  /** The members of a committed group, read back from the table, are the placed group. */
  lemma CommittedPick(cfg: Settings, loads: Loads, rows: seq<Row>, ms: seq<nat>, d: int, out: seq<Row>)
    requires ValidIndices(ms, |rows|)
    requires RowsPlaced(cfg, loads, rows, ms, d, out)
    ensures Pick(out, ms) == PlacedGroup(Pick(rows, ms), d, SimExits(cfg, loads.exit, Pick(rows, ms), d).1)
  {
  }

  /** A committed group leaves the ledgers those of the table. */
  lemma GroupCommitKeepsConsistent(cfg: Settings, loads: Loads, rows: seq<Row>, input: seq<Row>, ms: seq<nat>, d: int,
                                   next: Loads, out: seq<Row>)
    requires Consistent(loads, rows, input)
    requires ValidIndices(ms, |rows|) && Increasing(ms)
    requires forall j :: 0 <= j < |ms| ==> rows[ms[j]].entry.None?
    requires GroupCommitted(cfg, loads, rows, ms, d, next, out)
    ensures Consistent(next, out, input)
  {
    var exits := SimExits(cfg, loads.exit, Pick(rows, ms), d).1;
    CommittedPick(cfg, loads, rows, ms, d, out);
    GroupEntryConsistent(loads, rows, ms, d, exits, next, out);
    GroupExitConsistent(cfg, loads, rows, input, ms, d, exits, next, out);
    GroupStabConsistent(loads, rows, ms, d, exits, next, out);
  }

  lemma GroupEntryConsistent(loads: Loads, rows: seq<Row>, ms: seq<nat>, d: int, exits: seq<int>, next: Loads, out: seq<Row>)
    requires ValidIndices(ms, |rows|) && Increasing(ms) && |exits| == |ms|
    requires forall j :: 0 <= j < |ms| ==> rows[ms[j]].entry.None?
    requires |out| == |rows| && forall i :: 0 <= i < |rows| && i !in ms ==> out[i] == rows[i]
    requires Pick(out, ms) == PlacedGroup(Pick(rows, ms), d, exits)
    requires EntryConsistent(loads.entry, rows)
    requires EntryMoved(loads, Pick(rows, ms), d, next)
    ensures EntryConsistent(next.entry, out)
  {
    var pending := Pick(rows, ms);
    forall x
      ensures Get(next.entry, x) == LoadAt(out, EntryLoad, x)
    {
      GroupShare(rows, ms, out, PlacedGroup(pending, d, exits), EntryLoad, x);
      GroupEntryLoad(pending, d, exits, x);
    }
  }

  lemma GroupExitConsistent(cfg: Settings, loads: Loads, rows: seq<Row>, input: seq<Row>, ms: seq<nat>, d: int,
                            exits: seq<int>, next: Loads, out: seq<Row>)
    requires ValidIndices(ms, |rows|) && Increasing(ms)
    requires exits == SimExits(cfg, loads.exit, Pick(rows, ms), d).1
    requires forall j :: 0 <= j < |ms| ==> rows[ms[j]].entry.None?
    requires |out| == |rows| && forall i :: 0 <= i < |rows| && i !in ms ==> out[i] == rows[i]
    requires Pick(out, ms) == PlacedGroup(Pick(rows, ms), d, exits)
    requires ExitConsistent(loads.exit, rows, input)
    requires ExitMoved(cfg, loads, Pick(rows, ms), d, next)
    ensures ExitConsistent(next.exit, out, input)
  {
    var pending := Pick(rows, ms);
    forall x
      ensures Get(next.exit, x) == LoadAt(out, PlacedExit, x) + LoadAt(input, StaleExit, x)
    {
      GroupShare(rows, ms, out, PlacedGroup(pending, d, exits), PlacedExit, x);
      GroupExitLoad(cfg, loads.exit, pending, d, x);
    }
  }

  lemma GroupStabConsistent(loads: Loads, rows: seq<Row>, ms: seq<nat>, d: int, exits: seq<int>, next: Loads, out: seq<Row>)
    requires ValidIndices(ms, |rows|) && Increasing(ms) && |exits| == |ms|
    requires forall j :: 0 <= j < |ms| ==> rows[ms[j]].entry.None?
    requires |out| == |rows| && forall i :: 0 <= i < |rows| && i !in ms ==> out[i] == rows[i]
    requires Pick(out, ms) == PlacedGroup(Pick(rows, ms), d, exits)
    requires StabConsistent(loads.stab, rows)
    requires StabMoved(loads, Pick(rows, ms), d, next)
    ensures StabConsistent(next.stab, out)
  {
    var pending := Pick(rows, ms);
    forall x
      ensures Get(next.stab, x) == LoadAt(out, StabLoad, x)
    {
      GroupShare(rows, ms, out, PlacedGroup(pending, d, exits), StabLoad, x);
      GroupStabLoad(loads.stab, pending, d, exits, x);
    }
  }
}
