/** The daily stabilisation-chamber report (`calcular_estabilizacion_diaria`):
    for every day some lot occupies the chamber, the units in it, split by
    product family, against that day's capacity. A lot with positive units and
    an ENTRADA_SAL occupies the chamber on DIA .. ENTRADA_SAL - 1. */
module Report {
  import opened Options
  import opened Ledger
  import opened Rows
  import opened Sorting
  import opened Capacity

  /** The product family, read from the first letter of PRODUCTO: "P" is
      paleta, otherwise "J" is jamón. */
  datatype Family = Paleta | Jamon | OtherFamily

  function FamilyOf(product: string): (f: Family)
    ensures f == Paleta <==> |product| > 0 && product[0] == 'P'
    ensures f == Jamon <==> |product| > 0 && product[0] == 'J'
  {
    if |product| > 0 && product[0] == 'P' then Paleta
    else if |product| > 0 && product[0] == 'J' then Jamon
    else OtherFamily
  }

  const AllFamilies: set<Family> := {Paleta, Jamon, OtherFamily}

  /** Row `r` is in the chamber on day `d`: it has positive units, an entry,
      and `d` lies in DIA .. ENTRADA_SAL - 1. */
  predicate Occupies(r: Row, d: int) {
    r.units > 0 && r.entry.Some? && r.reception <= d <= r.entry.value - 1
  }

  /** The units in the chamber on day `d` over the rows of the families `fams`. */
  function Occupancy(rows: seq<Row>, fams: set<Family>, d: int): int
    decreases |rows|
  {
    if |rows| == 0 then 0
    else
      var r := rows[|rows| - 1];
      Occupancy(rows[..|rows| - 1], fams, d)
      + (if Occupies(r, d) && FamilyOf(r.product) in fams then r.units else 0)
  }

  /** Some row is in the chamber on day `d`. */
  ghost predicate Occupied(rows: seq<Row>, d: int) {
    exists i :: 0 <= i < |rows| && Occupies(rows[i], d)
  }

  /** A day has a positive total exactly when some row occupies it, and no
      family's occupancy is ever negative. */
  lemma {:induction false} OccupancyPositive(rows: seq<Row>, fams: set<Family>, d: int)
    ensures Occupancy(rows, fams, d) >= 0
    ensures Occupancy(rows, AllFamilies, d) > 0 <==> Occupied(rows, d)
    decreases |rows|
  {
    if |rows| > 0 {
      var n := |rows|;
      var init := rows[..n - 1];
      OccupancyPositive(init, fams, d);
      OccupancyPositive(init, AllFamilies, d);
      if Occupied(init, d) {
        var i :| 0 <= i < |init| && Occupies(init[i], d);
        assert rows[i] == init[i];
      }
      if Occupied(rows, d) && !Occupies(rows[n - 1], d) {
        var i :| 0 <= i < |rows| && Occupies(rows[i], d);
        assert init[i] == rows[i];
      }
    }
  }

  /** The families split the total: paleta, jamón and the rest add up to it. */
  lemma {:induction false} FamiliesPartition(rows: seq<Row>, d: int)
    ensures Occupancy(rows, AllFamilies, d)
         == Occupancy(rows, {Paleta}, d) + Occupancy(rows, {Jamon}, d) + Occupancy(rows, {OtherFamily}, d)
    decreases |rows|
  {
    if |rows| > 0 {
      FamiliesPartition(rows[..|rows| - 1], d);
    }
  }

  /** The report agrees with the engine's stabilisation ledger: when no row has
      negative units, every day's total is the chamber load the planner tracks. */
  lemma {:induction false} OccupancyIsStabLoad(rows: seq<Row>, d: int)
    requires forall i :: 0 <= i < |rows| ==> rows[i].units >= 0
    ensures Occupancy(rows, AllFamilies, d) == LoadAt(rows, StabLoad, d)
    decreases |rows|
  {
    if |rows| > 0 {
      OccupancyIsStabLoad(rows[..|rows| - 1], d);
    }
  }

  lemma OccupancyStep(rows: seq<Row>, i: nat, fams: set<Family>, d: int)
    requires i < |rows|
    ensures Occupancy(rows[..i + 1], fams, d)
         == Occupancy(rows[..i], fams, d) + (if Occupies(rows[i], d) && FamilyOf(rows[i].product) in fams then rows[i].units else 0)
  {
    assert rows[..i + 1][..i] == rows[..i];
  }

  /** The three counters and the dates of `carga_total` in the order they were first added. */
  datatype Counters = Counters(total: map<int, int>, paleta: map<int, int>, jamon: map<int, int>, days: seq<int>)

  /** The days listed are exactly the keys of the total, each once. */
  ghost predicate KeysListed(c: Counters) {
    && Distinct(c.days)
    && (forall x :: x in c.total <==> x in c.days)
  }

  /** The inner loop: add `r`'s units to each day DIA .. ENTRADA_SAL - 1 of the
      total, and of the paleta or the jamón counter as its product says. */
  method OccupyRange(c: Counters, r: Row) returns (c': Counters)
    requires r.units > 0 && r.entry.Some? && r.reception <= r.entry.value - 1
    requires KeysListed(c)
    ensures KeysListed(c')
    ensures forall x :: x in c'.total <==> x in c.total || Occupies(r, x)
    ensures forall x :: Get(c'.total, x) == Get(c.total, x) + (if Occupies(r, x) then r.units else 0)
    ensures forall x :: Get(c'.paleta, x) == Get(c.paleta, x) + (if Occupies(r, x) && FamilyOf(r.product) == Paleta then r.units else 0)
    ensures forall x :: Get(c'.jamon, x) == Get(c.jamon, x) + (if Occupies(r, x) && FamilyOf(r.product) == Jamon then r.units else 0)
  {
    var lo := r.reception;
    var hi := r.entry.value - 1;
    var fam := FamilyOf(r.product);
    var total, paleta, jamon, days := c.total, c.paleta, c.jamon, c.days;
    var d := lo;
    while d <= hi
      invariant lo <= d <= hi + 1
      invariant KeysListed(Counters(total, paleta, jamon, days))
      invariant forall x :: x in total <==> x in c.total || lo <= x < d
      invariant forall x :: Get(total, x) == Get(c.total, x) + (if lo <= x < d then r.units else 0)
      invariant forall x :: Get(paleta, x) == Get(c.paleta, x) + (if lo <= x < d && fam == Paleta then r.units else 0)
      invariant forall x :: Get(jamon, x) == Get(c.jamon, x) + (if lo <= x < d && fam == Jamon then r.units else 0)
    {
      if d !in total {
        days := days + [d];
      }
      total := AddAt(total, d, r.units);
      if fam == Paleta {
        paleta := AddAt(paleta, d, r.units);
      } else if fam == Jamon {
        jamon := AddAt(jamon, d, r.units);
      }
      d := d + 1;
    }
    c' := Counters(total, paleta, jamon, days);
  }

  /** What the counters hold after the rows `rows`. */
  ghost predicate Counts(rows: seq<Row>, c: Counters) {
    && KeysListed(c)
    && (forall x :: x in c.total <==> Occupancy(rows, AllFamilies, x) > 0)
    && (forall x :: Get(c.total, x) == Occupancy(rows, AllFamilies, x))
    && (forall x :: Get(c.paleta, x) == Occupancy(rows, {Paleta}, x))
    && (forall x :: Get(c.jamon, x) == Occupancy(rows, {Jamon}, x))
  }

  lemma CountsStep(rows: seq<Row>, i: nat, c: Counters, c': Counters)
    requires i < |rows|
    requires Counts(rows[..i], c)
    requires KeysListed(c')
    requires forall x :: x in c'.total <==> x in c.total || Occupies(rows[i], x)
    requires forall x :: Get(c'.total, x) == Get(c.total, x) + (if Occupies(rows[i], x) then rows[i].units else 0)
    requires forall x :: Get(c'.paleta, x) == Get(c.paleta, x) + (if Occupies(rows[i], x) && FamilyOf(rows[i].product) == Paleta then rows[i].units else 0)
    requires forall x :: Get(c'.jamon, x) == Get(c.jamon, x) + (if Occupies(rows[i], x) && FamilyOf(rows[i].product) == Jamon then rows[i].units else 0)
    ensures Counts(rows[..i + 1], c')
  {
    forall x
      ensures x in c'.total <==> Occupancy(rows[..i + 1], AllFamilies, x) > 0
      ensures Get(c'.total, x) == Occupancy(rows[..i + 1], AllFamilies, x)
      ensures Get(c'.paleta, x) == Occupancy(rows[..i + 1], {Paleta}, x)
      ensures Get(c'.jamon, x) == Occupancy(rows[..i + 1], {Jamon}, x)
    {
      OccupancyStep(rows, i, AllFamilies, x);
      OccupancyStep(rows, i, {Paleta}, x);
      OccupancyStep(rows, i, {Jamon}, x);
      OccupancyPositive(rows[..i], AllFamilies, x);
    }
  }

  /** The accumulation loop over the rows: rows without an entry, without
      positive units or entering on their reception day are skipped. */
  method DailyOccupancy(rows: seq<Row>) returns (c: Counters)
    ensures Counts(rows, c)
  {
    c := Counters(map[], map[], map[], []);
    var i := 0;
    while i < |rows|
      invariant 0 <= i <= |rows|
      invariant Counts(rows[..i], c)
    {
      var r := rows[i];
      if r.units > 0 && r.entry.Some? && r.entry.value - 1 >= r.reception {
        var c' := OccupyRange(c, r);
        CountsStep(rows, i, c, c');
        c := c';
      } else {
        assert forall x :: !Occupies(r, x);
        CountsStep(rows, i, c, c);
      }
      i := i + 1;
    }
    assert rows[..i] == rows;
  }

  /** The capacity the report shows: the date's override (the overrides table
      keeps only non-empty cells), else the global capacity. */
  function ReportCap(cap: int, overrides: map<int, int>, d: int): (c: int)
    ensures d in overrides ==> c == overrides[d]
    ensures d !in overrides ==> c == cap
  {
    if d in overrides then overrides[d] else cap
  }

  /** The report and the planner read the same capacity when the planner's
      overrides are the report's, each one present. */
  lemma ReportCapIsStabCap(cfg: Settings, overrides: map<int, int>, d: int)
    requires cfg.stabOverrides.Keys == overrides.Keys
    requires forall x :: x in overrides ==> cfg.stabOverrides[x] == Some(overrides[x])
    ensures ReportCap(cfg.stabCap, overrides, d) == StabCap(cfg, d)
  {
  }

  /** `EXCESO`: by how much the units exceed the capacity, never negative. */
  function Excess(units: int, capacity: int): (e: int)
    ensures e >= 0
    ensures e == 0 <==> units <= capacity
    ensures e > 0 ==> units == capacity + e
  {
    if units > capacity then units - capacity else 0
  }

  /** One line of the report (the floating-point UTIL_% column is not modelled). */
  datatype ReportRow = ReportRow(date: int, units: int, paleta: int, jamon: int, capacity: int, excess: int)

  /** The line of the report for day `d`. */
  predicate DescribesDay(rows: seq<Row>, cap: int, overrides: map<int, int>, line: ReportRow) {
    && line.units == Occupancy(rows, AllFamilies, line.date)
    && line.paleta == Occupancy(rows, {Paleta}, line.date)
    && line.jamon == Occupancy(rows, {Jamon}, line.date)
    && line.capacity == ReportCap(cap, overrides, line.date)
    && line.excess == Excess(line.units, line.capacity)
  }

  predicate IntLe(a: int, b: int) {
    a <= b
  }

  /** `sort_index`: the listed days in ascending order. */
  function Ascending(days: seq<int>): (dates: seq<int>)
    requires Distinct(days)
    ensures forall x :: x in dates <==> x in days
    ensures forall k, j :: 0 <= k < j < |dates| ==> dates[k] < dates[j]
  {
    var le := (a: int, b: int) => IntLe(a, b);
    assert IsTotalPreorder(le);
    var dates := SortBy(days, le);
    SortBySorted(days, le);
    DistinctPermutation(days, dates);
    assert forall x :: x in dates <==> x in multiset(days);
    assert forall k, j :: 0 <= k < j < |dates| ==> dates[k] <= dates[j] && dates[k] != dates[j];
    dates
  }

  /** The line of day `d`, read off the counters. */
  function Line(c: Counters, cap: int, overrides: map<int, int>, d: int): ReportRow {
    var units := Get(c.total, d);
    var capacity := ReportCap(cap, overrides, d);
    ReportRow(d, units, Get(c.paleta, d), Get(c.jamon, d), capacity, Excess(units, capacity))
  }

  /** The report: one line per day in the chamber, in ascending date order, with
      no day twice; it is empty exactly when no row occupies any day. */
  method StabilisationReport(rows: seq<Row>, cap: int, overrides: map<int, int>) returns (report: seq<ReportRow>)
    ensures forall k, j :: 0 <= k < j < |report| ==> report[k].date < report[j].date
    ensures forall k :: 0 <= k < |report| ==> DescribesDay(rows, cap, overrides, report[k])
    ensures forall k :: 0 <= k < |report| ==> Occupancy(rows, AllFamilies, report[k].date) > 0
    ensures forall x :: Occupancy(rows, AllFamilies, x) > 0 ==> exists k :: 0 <= k < |report| && report[k].date == x
  {
    var c := DailyOccupancy(rows);
    if |c.days| == 0 {
      assert forall x :: x !in c.total;
      return [];
    }
    var dates := Ascending(c.days);
    report := seq(|dates|, k requires 0 <= k < |dates| => Line(c, cap, overrides, dates[k]));
    assert forall k :: 0 <= k < |report| ==> report[k].date == dates[k] && dates[k] in c.total;
    forall x | Occupancy(rows, AllFamilies, x) > 0
      ensures exists k :: 0 <= k < |report| && report[k].date == x
    {
      assert x in dates;
      var k :| 0 <= k < |dates| && dates[k] == x;
      assert report[k].date == x;
    }
  }
}
