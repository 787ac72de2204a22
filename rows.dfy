/** The rows of the planning table (one per lot) and the ledgers they imply. */
module Rows {
  import opened Options
  import opened Classify
  import opened Ledger

  /** `LOTE_NO_ENCAJA`: not yet decided (NA), "No" (placed), "Sí" (could not be placed). */
  datatype Fit = Undecided | Fits | DoesNotFit

  /** One lot. Dates are day numbers; a placed lot has `entry` set. */
  datatype Row = Row(
    lot: int,                   // LOTE (the row index where the table has no LOTE column)
    product: string,            // PRODUCTO
    reception: int,             // DIA
    units: int,                 // UNDS
    optimalDwell: int,          // DIAS_SAL_OPTIMOS
    kindText: string,           // TIPO NITRIF
    nitrif: Cell,               // NITRIF
    entry: Option<int>,         // ENTRADA_SAL
    exit: Option<int>,          // SALIDA_SAL
    dwellDays: Option<int>,     // DIAS_SAL
    storageDays: Option<int>,   // DIAS_ALMACENADOS
    deviation: Option<int>,     // DIFERENCIA_DIAS_SAL
    fits: Fit                   // LOTE_NO_ENCAJA
  )

  /** The four aggregates the ledgers are made of. The exit ledger is seeded from
      every row carrying SALIDA_SAL, placed or not; `StaleExit` is the part of it
      owed to rows that carry an exit but no entry. */
  datatype LedgerKind = EntryLoad | PlacedExit | StaleExit | StabLoad

  /** What row `r` adds to ledger `k` on day `d`. A placed lot occupies the
      stabilisation chamber on the days DIA .. ENTRADA_SAL - 1. */
  function Contribution(k: LedgerKind, r: Row, d: int): int {
    match k
    case EntryLoad => if r.entry == Some(d) then r.units else 0
    case PlacedExit => if r.entry.Some? && r.exit == Some(d) then r.units else 0
    case StaleExit => if r.entry.None? && r.exit == Some(d) then r.units else 0
    case StabLoad => if r.entry.Some? && r.reception <= d < r.entry.value then r.units else 0
  }

  /** The total of ledger `k` on day `d` over `rows`. */
  function LoadAt(rows: seq<Row>, k: LedgerKind, d: int): int
    decreases |rows|
  {
    if |rows| == 0 then 0
    else LoadAt(rows[..|rows| - 1], k, d) + Contribution(k, rows[|rows| - 1], d)
  }

  /** Replacing one row changes each total by exactly that row's difference. */
  lemma {:induction false} LoadAtUpdate(rows: seq<Row>, i: nat, r: Row, k: LedgerKind, d: int)
    requires i < |rows|
    ensures LoadAt(rows[i := r], k, d) == LoadAt(rows, k, d) - Contribution(k, rows[i], d) + Contribution(k, r, d)
    decreases |rows|
  {
    var n := |rows|;
    if i < n - 1 {
      assert rows[i := r][..n - 1] == rows[..n - 1][i := r];
      LoadAtUpdate(rows[..n - 1], i, r, k, d);
    } else {
      assert rows[i := r][..n - 1] == rows[..n - 1];
    }
  }

  /** Rows that contribute nothing to ledger `k` leave its totals alone. */
  lemma {:induction false} LoadAtAppend(rows: seq<Row>, more: seq<Row>, k: LedgerKind, d: int)
    ensures LoadAt(rows + more, k, d) == LoadAt(rows, k, d) + LoadAt(more, k, d)
    decreases |more|
  {
    if |more| == 0 {
      assert rows + more == rows;
    } else {
      var m := |more|;
      assert (rows + more)[..|rows + more| - 1] == rows + more[..m - 1];
      LoadAtAppend(rows, more[..m - 1], k, d);
    }
  }

  /** One more row adds its own contribution, on every day. */
  lemma LoadAtStep(rows: seq<Row>, i: nat, k: LedgerKind)
    requires i < |rows|
    ensures forall d :: LoadAt(rows[..i + 1], k, d) == LoadAt(rows[..i], k, d) + Contribution(k, rows[i], d)
  {
    assert rows[..i + 1][..i] == rows[..i];
  }

  /** `carga_entrada` as seeded: UNDS summed by ENTRADA_SAL over the rows holding one. */
  method SeedEntryLedger(rows: seq<Row>) returns (entry: map<int, int>)
    ensures forall d :: Get(entry, d) == LoadAt(rows, EntryLoad, d)
  {
    entry := map[];
    var i := 0;
    while i < |rows|
      invariant 0 <= i <= |rows|
      invariant forall d :: Get(entry, d) == LoadAt(rows[..i], EntryLoad, d)
    {
      LoadAtStep(rows, i, EntryLoad);
      if rows[i].entry.Some? {
        entry := AddAt(entry, rows[i].entry.value, rows[i].units);
      }
      i := i + 1;
    }
    assert rows[..i] == rows;
  }

  /** `carga_salida` as seeded: UNDS summed by SALIDA_SAL over the rows holding one,
      whether or not they hold an ENTRADA_SAL. */
  method SeedExitLedger(rows: seq<Row>) returns (exit: map<int, int>)
    ensures forall d :: Get(exit, d) == LoadAt(rows, PlacedExit, d) + LoadAt(rows, StaleExit, d)
  {
    exit := map[];
    var i := 0;
    while i < |rows|
      invariant 0 <= i <= |rows|
      invariant forall d :: Get(exit, d) == LoadAt(rows[..i], PlacedExit, d) + LoadAt(rows[..i], StaleExit, d)
    {
      LoadAtStep(rows, i, PlacedExit);
      LoadAtStep(rows, i, StaleExit);
      if rows[i].exit.Some? {
        exit := AddAt(exit, rows[i].exit.value, rows[i].units);
      }
      i := i + 1;
    }
    assert rows[..i] == rows;
  }

  /** `estab_stock` as seeded: each row holding an ENTRADA_SAL later than its DIA
      occupies the chamber on DIA .. ENTRADA_SAL - 1. */
  method SeedStabLedger(rows: seq<Row>) returns (stab: map<int, int>)
    ensures forall d :: Get(stab, d) == LoadAt(rows, StabLoad, d)
  {
    stab := map[];
    var i := 0;
    while i < |rows|
      invariant 0 <= i <= |rows|
      invariant forall d :: Get(stab, d) == LoadAt(rows[..i], StabLoad, d)
    {
      LoadAtStep(rows, i, StabLoad);
      var r := rows[i];
      if r.entry.Some? && r.entry.value > r.reception {
        stab := SumInRange(stab, r.reception, r.entry.value - 1, r.units);
      }
      i := i + 1;
    }
    assert rows[..i] == rows;
  }
}
