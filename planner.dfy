/** `planificar_filas_na`: the planning pass over the table. It seeds the three
    ledgers from the rows already planned, applies the common-entry group rules,
    seeds the per-date profile, places every pending row greedily in
    (DIA, PRODUCTO) order, collects suggestions for the rows that fit nowhere,
    and finally fills in the dwell deviation. */
module Planning {
  import opened Options
  import opened Capacity
  import opened Ledger
  import opened Classify
  import opened Rows
  import opened Profiles
  import opened Sorting
  import opened Placement
  import opened Groups
  import opened Suggestions
  import opened Consistency

  /** The single-code group rules, applied in this order. */
  const FirstGroup: set<string> := {"JBSPRCLC-MEX"}
  const SecondGroup: set<string> := {"JCIVRROD-MEX"}
  const ThirdGroup: set<string> := {"JBCPRCLC-MEX"}
  /** The joint rule, and its two halves tried alone when it fails. */
  const PairGroup: set<string> := {"JCIVRPORCISAN", "PCIVRPORCISAN"}
  const PairFirst: set<string> := {"JCIVRPORCISAN"}
  const PairSecond: set<string> := {"PCIVRPORCISAN"}

  /** Two versions of one lot: the planner never edits what the lot is. */
  predicate SameLot(a: Row, b: Row) {
    && a.lot == b.lot && a.product == b.product && a.reception == b.reception && a.units == b.units
    && a.optimalDwell == b.optimalDwell && a.kindText == b.kindText && a.nitrif == b.nitrif
  }

  /** Rows that were planned in the input are respected: apart from the
      deviation column, which is recomputed for every row, they stay as given. */
  ghost predicate Respects(input: seq<Row>, rows: seq<Row>) {
    && |rows| == |input|
    && (forall i :: 0 <= i < |rows| ==> SameLot(input[i], rows[i]))
    && (forall i :: 0 <= i < |rows| && input[i].entry.Some? ==> rows[i] == input[i].(deviation := rows[i].deviation))
  }

  /** A suggestion about lot `r`. */
  predicate SuggestionOf(sg: Suggestion, r: Row) {
    sg.lot == r.lot && sg.product == r.product && sg.units == r.units && sg.reception == r.reception
  }

  /** The group rules change a row only by placing it: a pending row whose
      PRODUCTO is one of `codes` gets a date and LOTE_NO_ENCAJA = "No". */
  ghost predicate GroupPlacedOnly(before: seq<Row>, after: seq<Row>, codes: set<string>) {
    && |after| == |before|
    && (forall i :: 0 <= i < |before| && after[i] != before[i] ==>
          && before[i].entry.None? && before[i].product in codes
          && after[i].entry.Some? && after[i].fits == Fits && SameLot(before[i], after[i]))
  }

  /** A load on one day within the larger of the two tiers' capacities. */
  predicate WithinATier(load: int, cap1: int, cap2: int) {
    load <= cap1 || load <= cap2
  }

  /** Every ledger day that the placement pass moved is within capacity: entry
      and exit days within the capacity of one of the tiers, stabilisation days
      within the chamber's. */
  ghost predicate MovedDaysWithinCapacity(cfg: Settings, before: Loads, now: Loads) {
    && (forall x :: Get(now.entry, x) == Get(before.entry, x)
          || WithinATier(Get(now.entry, x), EntryCap(cfg, x, Tier1), EntryCap(cfg, x, Tier2)))
    && (forall x :: Get(now.exit, x) == Get(before.exit, x)
          || WithinATier(Get(now.exit, x), ExitCap(cfg, x, Tier1), ExitCap(cfg, x, Tier2)))
    && (forall x :: Get(now.stab, x) == Get(before.stab, x) || Get(now.stab, x) <= StabCap(cfg, x))
  }

  lemma MovedDaysCompose(cfg: Settings, a: Loads, b: Loads, c: Loads)
    requires MovedDaysWithinCapacity(cfg, a, b)
    requires MovedDaysWithinCapacity(cfg, b, c)
    ensures MovedDaysWithinCapacity(cfg, a, c)
  {
  }

  /** A greedy commit at a feasible date moves only days it keeps within the
      capacities of the tier it was chosen at. */
  lemma CommitMovesWithinCapacity(cfg: Settings, loads: Loads, r: Row, tier: Tier, d: int)
    requires Feasible(cfg, loads, r, tier, d)
    ensures MovedDaysWithinCapacity(cfg, loads, Committed(loads, r, d, LotExit(cfg, loads, r, d)))
  {
    var s := LotExit(cfg, loads, r, d);
    var next := Committed(loads, r, d, s);
    CommitRespectsCapacity(cfg, loads, r, tier, d);
    forall x
      ensures Get(next.entry, x) == Get(loads.entry, x)
              || WithinATier(Get(next.entry, x), EntryCap(cfg, x, Tier1), EntryCap(cfg, x, Tier2))
      ensures Get(next.exit, x) == Get(loads.exit, x)
              || WithinATier(Get(next.exit, x), ExitCap(cfg, x, Tier1), ExitCap(cfg, x, Tier2))
      ensures Get(next.stab, x) == Get(loads.stab, x) || Get(next.stab, x) <= StabCap(cfg, x)
    {
      CommittedPointwise(loads, r, d, s, x);
    }
  }

  /** A pending row's place in the greedy order: its index and its sort key. */
  datatype PendingKey = PendingKey(index: nat, reception: int, product: string)

  /** `sort_values(["DIA", "PRODUCTO"])`: by reception day, then by product name. */
  predicate PendingLe(a: PendingKey, b: PendingKey) {
    a.reception < b.reception || (a.reception == b.reception && StringLe(a.product, b.product))
  }

  lemma PendingOrderIsKeyOrder()
    ensures IsTotalPreorder(PendingLe)
  {
    forall a: PendingKey, b: PendingKey
      ensures PendingLe(a, b) || PendingLe(b, a)
    {
      StringLeTotal(a.product, b.product);
    }
    forall a: PendingKey, b: PendingKey, c: PendingKey | PendingLe(a, b) && PendingLe(b, c)
      ensures PendingLe(a, c)
    {
      if a.reception == b.reception == c.reception {
        StringLeTransitive(a.product, b.product, c.product);
      }
    }
  }

  function KeyOf(rows: seq<Row>, i: nat): PendingKey
    requires i < |rows|
  {
    PendingKey(i, rows[i].reception, rows[i].product)
  }

  /** `df_corr["ENTRADA_SAL"].isna()`: the indices of the rows without an entry, in table order. */
  function PendingIndices(rows: seq<Row>): (ix: seq<nat>)
    ensures ValidIndices(ix, |rows|) && Increasing(ix)
    ensures forall k :: 0 <= k < |ix| ==> rows[ix[k]].entry.None?
    ensures forall i :: 0 <= i < |rows| && rows[i].entry.None? ==> i in ix
    decreases |rows|
  {
    if |rows| == 0 then []
    else
      var n := |rows| - 1;
      var prev := PendingIndices(rows[..n]);
      assert forall k :: 0 <= k < |prev| ==> rows[..n][prev[k]] == rows[prev[k]];
      assert forall i :: 0 <= i < n ==> rows[..n][i] == rows[i];
      if rows[n].entry.None? then prev + [n] else prev
  }

  /** The keys of the pending rows, in table order. */
  function PendingKeys(rows: seq<Row>): (ks: seq<PendingKey>)
    ensures |ks| == |PendingIndices(rows)|
    ensures forall k :: 0 <= k < |ks| ==> ks[k] == KeyOf(rows, PendingIndices(rows)[k])
  {
    var ix := PendingIndices(rows);
    seq(|ix|, k requires 0 <= k < |ix| => KeyOf(rows, ix[k]))
  }

  lemma PendingKeysFacts(rows: seq<Row>)
    ensures Distinct(PendingKeys(rows))
    ensures forall x :: x in PendingKeys(rows) ==> x.index < |rows| && x == KeyOf(rows, x.index) && rows[x.index].entry.None?
    ensures forall i :: 0 <= i < |rows| && rows[i].entry.None? ==> KeyOf(rows, i) in PendingKeys(rows)
  {
    var ix := PendingIndices(rows);
    var ks := PendingKeys(rows);
    forall i | 0 <= i < |rows| && rows[i].entry.None?
      ensures KeyOf(rows, i) in ks
    {
      var k :| 0 <= k < |ix| && ix[k] == i;
      assert ks[k] == KeyOf(rows, i);
    }
    forall k, j | 0 <= k < j < |ks|
      ensures ks[k] != ks[j]
    {
      assert ks[k].index == ix[k] < ix[j] == ks[j].index;
    }
  }

  /** The indices carried by a sequence of keys. */
  function IndicesOf(ks: seq<PendingKey>): (ix: seq<nat>)
    ensures |ix| == |ks| && forall j :: 0 <= j < |ks| ==> ix[j] == ks[j].index
  {
    seq(|ks|, j requires 0 <= j < |ks| => ks[j].index)
  }

  /** The greedy order: the pending rows' indices, stably sorted by (DIA, PRODUCTO). */
  function PendingOrder(rows: seq<Row>): seq<nat> {
    IndicesOf(SortBy(PendingKeys(rows), PendingLe))
  }

  /** The greedy order visits every pending row exactly once, and no other row. */
  lemma PendingOrderVisitsEachPendingRowOnce(rows: seq<Row>)
    ensures var order := PendingOrder(rows);
            && (forall j :: 0 <= j < |order| ==> order[j] < |rows| && rows[order[j]].entry.None?)
            && (forall i :: 0 <= i < |rows| && rows[i].entry.None? ==> i in order)
            && Distinct(order)
  {
    var ks := PendingKeys(rows);
    var sorted := SortBy(ks, PendingLe);
    var order := PendingOrder(rows);
    PendingKeysFacts(rows);
    DistinctPermutation(ks, sorted);
    forall j | 0 <= j < |order|
      ensures order[j] < |rows| && rows[order[j]].entry.None?
    {
      assert sorted[j] in multiset(ks);
    }
    forall i | 0 <= i < |rows| && rows[i].entry.None?
      ensures i in order
    {
      assert KeyOf(rows, i) in multiset(sorted);
      var j :| 0 <= j < |sorted| && sorted[j] == KeyOf(rows, i);
      assert order[j] == i;
    }
    forall j, k | 0 <= j < k < |order|
      ensures order[j] != order[k]
    {
      assert sorted[j] in multiset(ks) && sorted[k] in multiset(ks);
    }
  }

  /** The greedy order is a stable sort by (DIA, PRODUCTO) of the pending rows in
      table order: ordered by the key, and rows with equal keys in table order. */
  lemma PendingOrderIsStableSort(rows: seq<Row>)
    ensures var sorted := SortBy(PendingKeys(rows), PendingLe);
            && multiset(sorted) == multiset(PendingKeys(rows))
            && SortedBy(sorted, PendingLe)
            && (forall x :: TiesOf(sorted, PendingLe, x) == TiesOf(PendingKeys(rows), PendingLe, x))
            && PendingOrder(rows) == IndicesOf(sorted)
  {
    PendingOrderIsKeyOrder();
    SortBySorted(PendingKeys(rows), PendingLe);
    forall x
      ensures TiesOf(SortBy(PendingKeys(rows), PendingLe), PendingLe, x) == TiesOf(PendingKeys(rows), PendingLe, x)
    {
      SortByStable(PendingKeys(rows), PendingLe, x);
    }
  }

  /** `DIFERENCIA_DIAS_SAL = DIAS_SAL - DIAS_SAL_OPTIMOS`, empty where DIAS_SAL is. */
  function WithDeviation(r: Row): (p: Row)
    ensures SameLot(r, p) && SameLedgerFields(r, p) && p.fits == r.fits
    ensures p.deviation.Some? <==> r.dwellDays.Some?
    ensures r.dwellDays.Some? ==> p.deviation.Some? && r.optimalDwell + p.deviation.value == r.dwellDays.value
    ensures p == r.(deviation := p.deviation)
  {
    r.(deviation := if r.dwellDays.Some? then Some(r.dwellDays.value - r.optimalDwell) else None)
  }

  /** The deviation column filled in on every row. */
  function WithDeviations(rows: seq<Row>): (out: seq<Row>)
    ensures |out| == |rows| && forall i :: 0 <= i < |rows| ==> out[i] == WithDeviation(rows[i])
  {
    seq(|rows|, i requires 0 <= i < |rows| => WithDeviation(rows[i]))
  }

  /** Every failed row is still pending and marked LOTE_NO_ENCAJA = "Sí". */
  ghost predicate FailedMarked(failed: set<nat>, rows: seq<Row>) {
    forall i :: i in failed ==> i < |rows| && rows[i].entry.None? && rows[i].fits == DoesNotFit
  }

  /** `sg` is about one of the failed rows. */
  ghost predicate AboutAFailedRow(sg: Suggestion, failed: set<nat>, rows: seq<Row>) {
    exists i :: i in failed && i < |rows| && SuggestionOf(sg, rows[i])
  }

  /** Every suggestion is about a failed row. */
  ghost predicate AboutFailed(sgs: seq<Suggestion>, failed: set<nat>, rows: seq<Row>) {
    forall k :: 0 <= k < |sgs| ==> AboutAFailedRow(sgs[k], failed, rows)
  }

  /** What a planning pass keeps true of its state: the ledgers are those of the
      table, the planned input rows are kept, every failed row is marked and
      still pending, and every suggestion is about a failed row. */
  ghost predicate Invariant(input: seq<Row>, loads: Loads, rows: seq<Row>, failed: set<nat>, sgs: seq<Suggestion>) {
    && Consistent(loads, rows, input)
    && Respects(input, rows)
    && FailedMarked(failed, rows)
    && AboutFailed(sgs, failed, rows)
  }

  /** Changes that leave the failed rows as the invariant sees them. */
  lemma FailedRowsKept(failed: set<nat>, sgs: seq<Suggestion>, rows: seq<Row>, out: seq<Row>)
    requires FailedMarked(failed, rows) && AboutFailed(sgs, failed, rows)
    requires |out| == |rows|
    requires forall i :: i in failed && i < |rows| ==>
               SameLot(rows[i], out[i]) && out[i].entry == rows[i].entry && out[i].fits == rows[i].fits
    ensures FailedMarked(failed, out) && AboutFailed(sgs, failed, out)
  {
    forall k | 0 <= k < |sgs|
      ensures AboutAFailedRow(sgs[k], failed, out)
    {
      assert AboutAFailedRow(sgs[k], failed, rows);
      var i :| i in failed && i < |rows| && SuggestionOf(sgs[k], rows[i]);
      assert SuggestionOf(sgs[k], out[i]);
    }
  }

  /** Changes that only touch pending rows, and never what the lot is, keep the
      planned input rows. */
  lemma RespectsKept(input: seq<Row>, rows: seq<Row>, out: seq<Row>)
    requires Respects(input, rows)
    requires |out| == |rows|
    requires forall i :: 0 <= i < |rows| ==> SameLot(rows[i], out[i])
    requires forall i :: 0 <= i < |rows| && rows[i].entry.Some? ==> out[i] == rows[i].(deviation := out[i].deviation)
    ensures Respects(input, out)
  {
  }

  /** A group rule run without marking changes a row only by placing it. */
  lemma GroupOutcomePlacesOnly(cfg: Settings, loads: Loads, rows: seq<Row>, codes: set<string>,
                               choice: Option<GroupChoice>, next: Loads, out: seq<Row>)
    requires GroupOutcome(cfg, loads, rows, codes, false, choice, next, out)
    ensures GroupPlacedOnly(rows, out, codes)
    ensures choice.None? ==> out == rows && next == loads
  {
    if choice.Some? {
      var ms := Members(rows, codes);
      forall i | 0 <= i < |rows| && out[i] != rows[i]
        ensures rows[i].entry.None? && rows[i].product in codes
        ensures out[i].entry.Some? && out[i].fits == Fits && SameLot(rows[i], out[i])
      {
        var k :| 0 <= k < |ms| && ms[k] == i;
        assert out[i] == Placed(rows[i], choice.value.entry, SimExits(cfg, loads.exit, Pick(rows, ms), choice.value.entry).1[k]);
      }
    }
  }

  /** Every pending row of the group now enters on `d`. */
  ghost predicate AllOnOneDay(before: seq<Row>, after: seq<Row>, codes: set<string>, d: int) {
    |after| == |before| && forall i :: 0 <= i < |before| && IsPendingMember(before[i], codes) ==> after[i].entry == Some(d)
  }

  lemma PlacedOnlyCompose(a: seq<Row>, b: seq<Row>, c: seq<Row>, first: set<string>, second: set<string>)
    requires GroupPlacedOnly(a, b, first) && GroupPlacedOnly(b, c, second)
    ensures GroupPlacedOnly(a, c, first + second)
  {
    forall i | 0 <= i < |a| && c[i] != a[i]
      ensures a[i].entry.None? && a[i].product in first + second
      ensures c[i].entry.Some? && c[i].fits == Fits && SameLot(a[i], c[i])
    {
      if b[i] != a[i] {
        assert b[i].entry.Some?;
        assert c[i] == b[i];
      }
    }
  }

  /** A committed group keeps the ledgers those of the table. */
  lemma GroupKeepsLedgers(cfg: Settings, input: seq<Row>, loads: Loads, rows: seq<Row>, codes: set<string>,
                          d: int, next: Loads, out: seq<Row>)
    requires Consistent(loads, rows, input)
    requires GroupCommitted(cfg, loads, rows, Members(rows, codes), d, next, out)
    ensures Consistent(next, out, input)
  {
    GroupCommitKeepsConsistent(cfg, loads, rows, input, Members(rows, codes), d, next, out);
  }

  lemma OutcomeCommitted(cfg: Settings, loads: Loads, rows: seq<Row>, codes: set<string>,
                         choice: Option<GroupChoice>, next: Loads, out: seq<Row>)
    requires GroupOutcome(cfg, loads, rows, codes, false, choice, next, out)
    requires choice.Some?
    ensures GroupCommitted(cfg, loads, rows, Members(rows, codes), choice.value.entry, next, out)
  {
  }

  /** A successful group rule puts every pending member on the chosen day. */
  lemma GroupOnOneDay(cfg: Settings, loads: Loads, rows: seq<Row>, codes: set<string>,
                      choice: Option<GroupChoice>, next: Loads, out: seq<Row>)
    requires GroupOutcome(cfg, loads, rows, codes, false, choice, next, out)
    ensures choice.Some? ==> AllOnOneDay(rows, out, codes, choice.value.entry)
  {
    if choice.Some? {
      var ms := Members(rows, codes);
      forall i | 0 <= i < |rows| && IsPendingMember(rows[i], codes)
        ensures out[i].entry == Some(choice.value.entry)
      {
        var k :| 0 <= k < |ms| && ms[k] == i;
        assert out[i] == Placed(rows[i], choice.value.entry, SimExits(cfg, loads.exit, Pick(rows, ms), choice.value.entry).1[k]);
      }
    }
  }

  /** A group rule keeps the ledgers those of the table. */
  lemma GroupOutcomeKeepsLedgers(cfg: Settings, input: seq<Row>, loads: Loads, rows: seq<Row>, codes: set<string>,
                                 choice: Option<GroupChoice>, next: Loads, out: seq<Row>)
    requires Consistent(loads, rows, input)
    requires GroupOutcome(cfg, loads, rows, codes, false, choice, next, out)
    ensures Consistent(next, out, input)
  {
    if choice.Some? {
      OutcomeCommitted(cfg, loads, rows, codes, choice, next, out);
      GroupKeepsLedgers(cfg, input, loads, rows, codes, choice.value.entry, next, out);
    }
  }

  /** Before any row failed, the invariant is consistent ledgers and kept input rows. */
  lemma GroupPhaseInvariant(input: seq<Row>, rows: seq<Row>, codes: set<string>, next: Loads, out: seq<Row>)
    requires Respects(input, rows)
    requires GroupPlacedOnly(rows, out, codes)
    requires Consistent(next, out, input)
    ensures Invariant(input, next, out, {}, [])
  {
    RespectsKept(input, rows, out);
  }

  /** A group rule keeps the invariant of the group phase, before any row failed. */
  lemma GroupKeepsInvariant(cfg: Settings, input: seq<Row>, loads: Loads, rows: seq<Row>, codes: set<string>,
                            choice: Option<GroupChoice>, next: Loads, out: seq<Row>)
    requires Invariant(input, loads, rows, {}, [])
    requires GroupOutcome(cfg, loads, rows, codes, false, choice, next, out)
    ensures Invariant(input, next, out, {}, [])
    ensures GroupPlacedOnly(rows, out, codes)
    ensures choice.Some? ==> AllOnOneDay(rows, out, codes, choice.value.entry)
    ensures choice.None? ==> out == rows && next == loads
  {
    GroupOutcomePlacesOnly(cfg, loads, rows, codes, choice, next, out);
    GroupOutcomeKeepsLedgers(cfg, input, loads, rows, codes, choice, next, out);
    GroupOnOneDay(cfg, loads, rows, codes, choice, next, out);
    GroupPhaseInvariant(input, rows, codes, next, out);
  }

  /** Committing a pending row keeps the invariant. */
  lemma CommitKeepsInvariant(input: seq<Row>, loads: Loads, rows: seq<Row>, failed: set<nat>, sgs: seq<Suggestion>,
                             i: nat, e: int, s: int)
    requires Invariant(input, loads, rows, failed, sgs)
    requires i < |rows| && rows[i].entry.None? && i !in failed
    ensures Invariant(input, Committed(loads, rows[i], e, s), rows[i := Placed(rows[i], e, s)], failed, sgs)
  {
    var out := rows[i := Placed(rows[i], e, s)];
    CommitLotKeepsConsistent(loads, rows, input, i, e, s);
    FailedRowsKept(failed, sgs, rows, out);
    RespectsKept(input, rows, out);
  }

  /** Marking a pending row as not fitting, with suggestions about it, keeps the invariant. */
  lemma FailureKeepsInvariant(input: seq<Row>, loads: Loads, rows: seq<Row>, failed: set<nat>, sgs: seq<Suggestion>,
                              i: nat, more: seq<Suggestion>)
    requires Invariant(input, loads, rows, failed, sgs)
    requires i < |rows| && rows[i].entry.None?
    requires forall k :: 0 <= k < |more| ==> SuggestionOf(more[k], rows[i])
    ensures Invariant(input, loads, rows[i := rows[i].(fits := DoesNotFit)], failed + {i}, sgs + more)
  {
    var out := rows[i := rows[i].(fits := DoesNotFit)];
    RelabelKeepsConsistent(loads, rows, out, input);
    RespectsKept(input, rows, out);
    forall k | 0 <= k < |sgs + more|
      ensures AboutAFailedRow((sgs + more)[k], failed + {i}, out)
    {
      if k < |sgs| {
        assert AboutAFailedRow(sgs[k], failed, rows);
        var j :| j in failed && j < |rows| && SuggestionOf(sgs[k], rows[j]);
        assert SuggestionOf((sgs + more)[k], out[j]);
      } else {
        assert SuggestionOf((sgs + more)[k], out[i]);
      }
    }
  }

  /** The deviation column keeps the invariant. */
  lemma DeviationKeepsInvariant(input: seq<Row>, loads: Loads, rows: seq<Row>, failed: set<nat>, sgs: seq<Suggestion>)
    requires Invariant(input, loads, rows, failed, sgs)
    ensures Invariant(input, loads, WithDeviations(rows), failed, sgs)
  {
    var out := WithDeviations(rows);
    RelabelKeepsConsistent(loads, rows, out, input);
    RespectsKept(input, rows, out);
    FailedRowsKept(failed, sgs, rows, out);
  }

  /** The kept suggestions of a lot are about that lot. */
  lemma BestAreAboutTheLot(cfg: Settings, loads: Loads, r: Row, sgs: seq<Suggestion>)
    requires forall k :: 0 <= k < |sgs| ==> SuggestsFor(cfg, loads, r, sgs[k])
    ensures forall k :: 0 <= k < |BestForLot(sgs)| ==> SuggestionOf(BestForLot(sgs)[k], r)
  {
    var best := BestForLot(sgs);
    BestForLotKeepsTheBest(sgs);
    forall k | 0 <= k < |best|
      ensures SuggestionOf(best[k], r)
    {
      assert best[k] in multiset(sgs);
      var j :| 0 <= j < |sgs| && sgs[j] == best[k];
    }
  }

  /** LOTE_NO_ENCAJA plays no part in the per-date profile. */
  lemma MarkingKeepsDescription(profiles: map<int, Profile>, rows: seq<Row>, i: nat)
    requires Describes(profiles, rows)
    requires i < |rows|
    ensures Describes(profiles, rows[i := rows[i].(fits := DoesNotFit)])
  {
    var m := rows[i].(fits := DoesNotFit);
    MarksUpdate(rows, i, m);
    MarksUpdate(rows, i, rows[i]);
    assert rows[i := rows[i]] == rows;
    assert MarkOf(m) == MarkOf(rows[i]);
  }

  /** `_aplicar_entrada_comun_para_grupo(codigos, marcar_si_falla=False)`: one
      group rule on the table and the ledgers, with what it keeps. */
  method GroupRule(cfg: Settings, ghost input: seq<Row>, loads: Loads, rows: seq<Row>, codes: set<string>)
    returns (choice: Option<GroupChoice>, next: Loads, out: seq<Row>)
    requires Invariant(input, loads, rows, {}, [])
    ensures GroupOutcome(cfg, loads, rows, codes, false, choice, next, out)
    ensures Invariant(input, next, out, {}, [])
    ensures GroupPlacedOnly(rows, out, codes)
    ensures choice.Some? ==> AllOnOneDay(rows, out, codes, choice.value.entry)
    ensures choice.None? ==> out == rows && next == loads
  {
    choice, next, out := ApplyGroup(cfg, loads, rows, codes, false);
    GroupKeepsInvariant(cfg, input, loads, rows, codes, choice, next, out);
  }

  /** The state the group rules work on: the ledgers and the table. */
  datatype GroupState = GroupState(loads: Loads, rows: seq<Row>)

  /** The group rules in the order they are applied. The last two, the halves
      of the pair, are applied only when the pair itself found no date. */
  const GroupRules: seq<set<string>> := [FirstGroup, SecondGroup, ThirdGroup, PairGroup, PairFirst, PairSecond]

  /** The group phase as it ran: rule `k` of `GroupRules` took `trace[k]` to
      `trace[k + 1]` with outcome `choices[k]`; the pair's halves ran exactly
      when the pair found no date, and then from the state the pair left
      untouched. */
  ghost predicate GroupPhase(cfg: Settings, trace: seq<GroupState>, choices: seq<Option<GroupChoice>>) {
    && RulesApplied(cfg, trace, choices)
    && 4 <= |choices| && |choices| == (if choices[3].Some? then 4 else 6)
  }

  /** The first `|choices|` rules of `GroupRules` as applied from `trace[0]`:
      rule `k` took `trace[k]` to `trace[k + 1]` with outcome `choices[k]`. */
  ghost predicate RulesApplied(cfg: Settings, trace: seq<GroupState>, choices: seq<Option<GroupChoice>>) {
    && |choices| <= |GroupRules| && |trace| == |choices| + 1
    && forall k {:trigger RuleOutcome(cfg, trace[k], GroupRules[k], choices[k], trace[k + 1])} :: 0 <= k < |choices| ==>
         RuleOutcome(cfg, trace[k], GroupRules[k], choices[k], trace[k + 1])
  }

  /** The group rule for `codes` took state `a` to state `b` with outcome `c`. */
  ghost predicate RuleOutcome(cfg: Settings, a: GroupState, codes: set<string>, c: Option<GroupChoice>, b: GroupState) {
    GroupOutcome(cfg, a.loads, a.rows, codes, false, c, b.loads, b.rows)
  }

  lemma RuleAppended(cfg: Settings, trace: seq<GroupState>, choices: seq<Option<GroupChoice>>,
                     codes: set<string>, c: Option<GroupChoice>, t: GroupState)
    requires RulesApplied(cfg, trace, choices) && |choices| < |GroupRules| && codes == GroupRules[|choices|]
    requires RuleOutcome(cfg, trace[|choices|], codes, c, t)
    ensures RulesApplied(cfg, trace + [t], choices + [c])
  {
    var trace', choices' := trace + [t], choices + [c];
    var n := |choices|;
    forall k | 0 <= k < |choices'|
      ensures RuleOutcome(cfg, trace'[k], GroupRules[k], choices'[k], trace'[k + 1])
    {
      RuleKept(cfg, trace, choices, codes, c, t, k);
    }
  }

  lemma RuleKept(cfg: Settings, trace: seq<GroupState>, choices: seq<Option<GroupChoice>>,
                 codes: set<string>, c: Option<GroupChoice>, t: GroupState, k: nat)
    requires RulesApplied(cfg, trace, choices) && |choices| < |GroupRules| && codes == GroupRules[|choices|]
    requires RuleOutcome(cfg, trace[|choices|], codes, c, t)
    requires k <= |choices|
    ensures RuleOutcome(cfg, (trace + [t])[k], GroupRules[k], (choices + [c])[k], (trace + [t])[k + 1])
  {
    if k < |choices| {
      assert (trace + [t])[k] == trace[k] && (trace + [t])[k + 1] == trace[k + 1] && (choices + [c])[k] == choices[k];
      assert RuleOutcome(cfg, trace[k], GroupRules[k], choices[k], trace[k + 1]);
    } else {
      assert (trace + [t])[k] == trace[k] && (trace + [t])[k + 1] == t && (choices + [c])[k] == c;
    }
  }

  /** The next rule of `GroupRules`, applied and recorded on the trace. */
  method NextRule(cfg: Settings, ghost input: seq<Row>, loads: Loads, rows: seq<Row>, codes: set<string>,
                  ghost trace: seq<GroupState>, ghost choices: seq<Option<GroupChoice>>)
    returns (choice: Option<GroupChoice>, next: Loads, out: seq<Row>,
             ghost trace': seq<GroupState>, ghost choices': seq<Option<GroupChoice>>)
    requires RulesApplied(cfg, trace, choices) && |choices| < |GroupRules|
    requires trace[|choices|] == GroupState(loads, rows) && codes == GroupRules[|choices|]
    requires Invariant(input, loads, rows, {}, [])
    ensures |trace'| == |trace| + 1 && |trace'| == |choices'| + 1
    ensures trace'[0] == trace[0] && trace'[|trace|] == GroupState(next, out)
    ensures |choices'| == |choices| + 1 && choices'[|choices|] == choice
    ensures forall k :: 0 <= k < |choices| ==> choices'[k] == choices[k]
    ensures RulesApplied(cfg, trace', choices')
    ensures Invariant(input, next, out, {}, [])
    ensures GroupPlacedOnly(rows, out, codes)
    ensures choice.None? ==> out == rows && next == loads
  {
    choice, next, out := GroupRule(cfg, input, loads, rows, codes);
    assert RuleOutcome(cfg, trace[|choices|], codes, choice, GroupState(next, out));
    RuleAppended(cfg, trace, choices, codes, choice, GroupState(next, out));
    trace', choices' := trace + [GroupState(next, out)], choices + [choice];
  }

  /** The three single-code rules, in order. */
  method SingleGroups(cfg: Settings, ghost input: seq<Row>, loads: Loads, rows: seq<Row>)
    returns (next: Loads, out: seq<Row>, ghost trace: seq<GroupState>, ghost choices: seq<Option<GroupChoice>>)
    requires Invariant(input, loads, rows, {}, [])
    ensures RulesApplied(cfg, trace, choices) && |choices| == 3 && |trace| == 4
    ensures trace[0] == GroupState(loads, rows) && trace[3] == GroupState(next, out)
    ensures Invariant(input, next, out, {}, [])
    ensures GroupPlacedOnly(rows, out, FirstGroup + SecondGroup + ThirdGroup)
  {
    trace, choices := [GroupState(loads, rows)], [];
    var c1, l1, r1, c2, l2, r2, c3;
    c1, l1, r1, trace, choices := NextRule(cfg, input, loads, rows, FirstGroup, trace, choices);
    c2, l2, r2, trace, choices := NextRule(cfg, input, l1, r1, SecondGroup, trace, choices);
    c3, next, out, trace, choices := NextRule(cfg, input, l2, r2, ThirdGroup, trace, choices);
    PlacedOnlyCompose(rows, r1, r2, FirstGroup, SecondGroup);
    PlacedOnlyCompose(rows, r2, out, FirstGroup + SecondGroup, ThirdGroup);
  }

  /** The group rules: the three single codes, then the pair together, and
      when the pair fails each half alone. */
  method RunGroups(cfg: Settings, ghost input: seq<Row>, loads: Loads, rows: seq<Row>)
    returns (next: Loads, out: seq<Row>, ghost trace: seq<GroupState>, ghost choices: seq<Option<GroupChoice>>)
    requires Invariant(input, loads, rows, {}, [])
    ensures GroupPhase(cfg, trace, choices)
    ensures trace[0] == GroupState(loads, rows) && trace[|trace| - 1] == GroupState(next, out)
    ensures Invariant(input, next, out, {}, [])
    ensures GroupPlacedOnly(rows, out, FirstGroup + SecondGroup + ThirdGroup + PairGroup)
  {
    var l3, r3;
    l3, r3, trace, choices := SingleGroups(cfg, input, loads, rows);
    var together;
    together, next, out, trace, choices := NextRule(cfg, input, l3, r3, PairGroup, trace, choices);
    if together.None? {
      var c5, l5, r5, c6;
      c5, l5, r5, trace, choices := NextRule(cfg, input, l3, r3, PairFirst, trace, choices);
      c6, next, out, trace, choices := NextRule(cfg, input, l5, r5, PairSecond, trace, choices);
      PlacedOnlyCompose(r3, r5, out, PairFirst, PairSecond);
      assert PairFirst + PairSecond == PairGroup;
    }
    PlacedOnlyCompose(rows, r3, out, FirstGroup + SecondGroup + ThirdGroup, PairGroup);
  }

  /** The commit of pending row `i` on the date and exit of `choice`: the
      ledgers, the table and the profile after it. */
  method CommitRow(cfg: Settings, ghost input: seq<Row>, loads: Loads, rows: seq<Row>, profiles: map<int, Profile>,
                   ghost failed: set<nat>, ghost sgs: seq<Suggestion>, i: nat, choice: Choice)
    returns (next: Loads, out: seq<Row>, recorded: map<int, Profile>)
    requires Invariant(input, loads, rows, failed, sgs) && Describes(profiles, rows)
    requires i < |rows| && rows[i].entry.None? && i !in failed
    requires Feasible(cfg, loads, rows[i], choice.tier, choice.pick.entry)
    requires choice.pick.exit == LotExit(cfg, loads, rows[i], choice.pick.entry)
    ensures Invariant(input, next, out, failed, sgs) && Describes(recorded, out)
    ensures MovedDaysWithinCapacity(cfg, loads, next)
    ensures var r := rows[i];
            var c := choice.pick;
            && out == rows[i := Placed(r, c.entry, c.exit)]
            && next == Committed(loads, r, c.entry, c.exit)
            && recorded == RecordLot(profiles, c.entry, NormKind(r.kindText), NormNitrif(r.nitrif))
  {
    var r := rows[i];
    var c := choice.pick;
    var p := Placed(r, c.entry, c.exit);
    CommitKeepsInvariant(input, loads, rows, failed, sgs, i, c.entry, c.exit);
    RecordKeepsDescription(profiles, rows, i, p, c.entry);
    CommitMovesWithinCapacity(cfg, loads, r, choice.tier, c.entry);
    next := CommitLot(loads, r, c.entry, c.exit);
    out := rows[i := p];
    recorded := RecordLot(profiles, c.entry, NormKind(r.kindText), NormNitrif(r.nitrif));
  }

  /** Pending row `i` fits nowhere: LOTE_NO_ENCAJA = "Sí", and the suggestions of
      the lot, of which the best twenty join the suggestion list. */
  method FailRow(cfg: Settings, ghost input: seq<Row>, loads: Loads, rows: seq<Row>, profiles: map<int, Profile>,
                 ghost failed: set<nat>, sgs: seq<Suggestion>, i: nat)
    returns (lotSuggestions: seq<Suggestion>, out: seq<Row>, kept: seq<Suggestion>)
    requires Invariant(input, loads, rows, failed, sgs) && Describes(profiles, rows)
    requires i < |rows| && rows[i].entry.None?
    ensures Invariant(input, loads, out, failed + {i}, kept) && Describes(profiles, out)
    ensures var r := rows[i];
            && out == rows[i := r.(fits := DoesNotFit)]
            && LotSuggestions(cfg, loads, r, lotSuggestions)
            && kept == sgs + BestForLot(lotSuggestions)
  {
    lotSuggestions := SuggestionsForLot(cfg, loads, rows[i]);
    var best := BestForLot(lotSuggestions);
    BestAreAboutTheLot(cfg, loads, rows[i], lotSuggestions);
    FailureKeepsInvariant(input, loads, rows, failed, sgs, i, best);
    MarkingKeepsDescription(profiles, rows, i);
    out := rows[i := rows[i].(fits := DoesNotFit)];
    kept := sgs + best;
  }

  /** The greedy step for pending row `i`: commit it on its best date, or mark
      it as not fitting and keep its twenty best suggestions. */
  method PlaceRow(cfg: Settings, ghost input: seq<Row>, loads: Loads, rows: seq<Row>, profiles: map<int, Profile>,
                  ghost failed: set<nat>, sgs: seq<Suggestion>, i: nat)
    returns (choice: Option<Choice>, lotSuggestions: seq<Suggestion>,
             next: Loads, out: seq<Row>, recorded: map<int, Profile>, kept: seq<Suggestion>)
    requires Invariant(input, loads, rows, failed, sgs) && Describes(profiles, rows)
    requires i < |rows| && rows[i].entry.None? && i !in failed
    ensures Invariant(input, next, out, if choice.Some? then failed else failed + {i}, kept)
    ensures Describes(recorded, out)
    ensures MovedDaysWithinCapacity(cfg, loads, next)
    ensures choice.Some? ==>
              var r := rows[i];
              var c := choice.value.pick;
              && IsBestChoice(cfg, loads, profiles, r, choice.value)
              && out == rows[i := Placed(r, c.entry, c.exit)]
              && next == Committed(loads, r, c.entry, c.exit)
              && recorded == RecordLot(profiles, c.entry, NormKind(r.kindText), NormNitrif(r.nitrif))
              && kept == sgs
    ensures choice.Some? ==> lotSuggestions == []
    ensures choice.None? ==>
              var r := rows[i];
              && NoRoom(cfg, loads, r)
              && out == rows[i := r.(fits := DoesNotFit)]
              && next == loads && recorded == profiles
              && LotSuggestions(cfg, loads, r, lotSuggestions)
              && kept == sgs + BestForLot(lotSuggestions)
  {
    choice := ChooseEntry(cfg, loads, profiles, rows[i]);
    if choice.Some? {
      next, out, recorded := CommitRow(cfg, input, loads, rows, profiles, failed, sgs, i, choice.value);
      lotSuggestions := [];
      kept := sgs;
    } else {
      lotSuggestions, out, kept := FailRow(cfg, input, loads, rows, profiles, failed, sgs, i);
      next := loads;
      recorded := profiles;
    }
  }

  /** What the suggestion loop of a lot guarantees: one suggestion for each
      date of the window at each tier, in date order and tier 1 first. */
  ghost predicate LotSuggestions(cfg: Settings, loads: Loads, r: Row, sgs: seq<Suggestion>) {
    && (forall k :: 0 <= k < |sgs| ==> SuggestsFor(cfg, loads, r, sgs[k]))
    && (forall d, t :: InWindow(cfg, r, d) ==> Covers(sgs, d, t))
    && InProposalOrder(sgs)
  }

  /** The state of the greedy pass: the ledgers, the table, `entrada_profile`
      and `sugerencias_rows`. */
  datatype PassState = PassState(loads: Loads, rows: seq<Row>, profiles: map<int, Profile>, sgs: seq<Suggestion>)

  /** What one visit decided: the chosen date, or none and the lot's suggestions. */
  datatype VisitOutcome = VisitOutcome(choice: Option<Choice>, lotSuggestions: seq<Suggestion>)

  /** One visit of the greedy loop, for row `i`: either the row is committed on
      a best choice against the ledgers and profile of its turn, or no date of
      its window fits at either tier and it is marked "Sí" and its twenty best
      suggestions are appended. */
  ghost predicate Step(cfg: Settings, a: PassState, i: nat, v: VisitOutcome, b: PassState) {
    && i < |a.rows|
    && var r := a.rows[i];
       && (v.choice.Some? ==>
             var c := v.choice.value.pick;
             && IsBestChoice(cfg, a.loads, a.profiles, r, v.choice.value)
             && v.lotSuggestions == []
             && b == PassState(Committed(a.loads, r, c.entry, c.exit), a.rows[i := Placed(r, c.entry, c.exit)],
                               RecordLot(a.profiles, c.entry, NormKind(r.kindText), NormNitrif(r.nitrif)), a.sgs))
       && (v.choice.None? ==>
             && NoRoom(cfg, a.loads, r)
             && LotSuggestions(cfg, a.loads, r, v.lotSuggestions)
             && b == PassState(a.loads, a.rows[i := r.(fits := DoesNotFit)], a.profiles, a.sgs + BestForLot(v.lotSuggestions)))
  }

  /** One visit of the greedy loop, as the loop sees it. */
  method Visit(cfg: Settings, ghost input: seq<Row>, s: PassState, ghost failed: set<nat>, i: nat)
    returns (t: PassState, ghost v: VisitOutcome, ghost failedAfter: set<nat>)
    requires Invariant(input, s.loads, s.rows, failed, s.sgs) && Describes(s.profiles, s.rows)
    requires i < |s.rows| && s.rows[i].entry.None? && i !in failed
    ensures Step(cfg, s, i, v, t)
    ensures Invariant(input, t.loads, t.rows, failedAfter, t.sgs) && Describes(t.profiles, t.rows)
    ensures MovedDaysWithinCapacity(cfg, s.loads, t.loads)
    ensures failedAfter == if v.choice.Some? then failed else failed + {i}
  {
    var choice, lotSuggestions, next, out, recorded, kept := PlaceRow(cfg, input, s.loads, s.rows, s.profiles, failed, s.sgs, i);
    t := PassState(next, out, recorded, kept);
    v := VisitOutcome(choice, lotSuggestions);
    PlaceRowIsStep(cfg, s.loads, s.rows, s.profiles, s.sgs, i, choice, lotSuggestions, next, out, recorded, kept);
    failedAfter := if choice.Some? then failed else failed + {i};
  }

  /** The two outcomes of `PlaceRow`, seen as one visit. */
  lemma PlaceRowIsStep(cfg: Settings, loads: Loads, rows: seq<Row>, profiles: map<int, Profile>, sgs: seq<Suggestion>, i: nat,
                       choice: Option<Choice>, lotSuggestions: seq<Suggestion>,
                       next: Loads, out: seq<Row>, recorded: map<int, Profile>, kept: seq<Suggestion>)
    requires i < |rows|
    requires choice.Some? ==>
               var r := rows[i];
               var c := choice.value.pick;
               && IsBestChoice(cfg, loads, profiles, r, choice.value)
               && out == rows[i := Placed(r, c.entry, c.exit)]
               && next == Committed(loads, r, c.entry, c.exit)
               && recorded == RecordLot(profiles, c.entry, NormKind(r.kindText), NormNitrif(r.nitrif))
               && kept == sgs
    requires choice.Some? ==> lotSuggestions == []
    requires choice.None? ==>
               var r := rows[i];
               && NoRoom(cfg, loads, r)
               && out == rows[i := r.(fits := DoesNotFit)]
               && next == loads && recorded == profiles
               && LotSuggestions(cfg, loads, r, lotSuggestions)
               && kept == sgs + BestForLot(lotSuggestions)
    ensures Step(cfg, PassState(loads, rows, profiles, sgs), i, VisitOutcome(choice, lotSuggestions),
                 PassState(next, out, recorded, kept))
  {
  }

  /** The first `|visits|` visits of the greedy loop over `order`, from
      `states[0]`: visit `k` took `states[k]` to `states[k + 1]`. */
  ghost predicate Steps(cfg: Settings, order: seq<nat>, states: seq<PassState>, visits: seq<VisitOutcome>) {
    && |visits| <= |order| && |states| == |visits| + 1
    && forall k :: 0 <= k < |visits| ==> Step(cfg, states[k], order[k], visits[k], states[k + 1])
  }

  lemma StepsExtend(cfg: Settings, order: seq<nat>, states: seq<PassState>, visits: seq<VisitOutcome>,
                    v: VisitOutcome, t: PassState)
    requires Steps(cfg, order, states, visits) && |visits| < |order|
    requires Step(cfg, states[|visits|], order[|visits|], v, t)
    ensures Steps(cfg, order, states + [t], visits + [v])
  {
    var states', visits' := states + [t], visits + [v];
    forall k | 0 <= k < |visits'|
      ensures Step(cfg, states'[k], order[k], visits'[k], states'[k + 1])
    {
      if k < |visits| {
        assert states'[k] == states[k] && states'[k + 1] == states[k + 1] && visits'[k] == visits[k];
      }
    }
  }

  /** A visit changes the table only at the visited row. */
  lemma StepShape(cfg: Settings, a: PassState, i: nat, v: VisitOutcome, b: PassState)
    requires Step(cfg, a, i, v, b)
    ensures |b.rows| == |a.rows| && b.rows == a.rows[i := b.rows[i]]
    ensures v.choice.Some? ==> b.rows[i].entry.Some? && b.rows[i].fits == Fits
  {
  }

  /** Visit `k` changed the table at most at row `order[k]`. */
  ghost predicate Shapes(order: seq<nat>, states: seq<PassState>, n: nat)
    requires n < |states| && n <= |order|
  {
    forall k :: 0 <= k < n ==>
      && order[k] < |states[k].rows| && |states[k + 1].rows| == |states[k].rows|
      && states[k + 1].rows == states[k].rows[order[k] := states[k + 1].rows[order[k]]]
  }

  lemma StepsShapes(cfg: Settings, order: seq<nat>, states: seq<PassState>, visits: seq<VisitOutcome>)
    requires Steps(cfg, order, states, visits)
    ensures Shapes(order, states, |visits|)
  {
    forall k | 0 <= k < |visits|
      ensures && order[k] < |states[k].rows| && |states[k + 1].rows| == |states[k].rows|
              && states[k + 1].rows == states[k].rows[order[k] := states[k + 1].rows[order[k]]]
    {
      StepShape(cfg, states[k], order[k], visits[k], states[k + 1]);
    }
  }

  /** A row no visit between `lo` and `hi` is about stays as it was. */
  lemma {:induction false} RowUntouched(order: seq<nat>, states: seq<PassState>, n: nat, lo: nat, hi: nat, i: nat)
    requires n < |states| && n <= |order| && Shapes(order, states, n) && lo <= hi <= n
    requires i < |states[lo].rows|
    requires forall j :: lo <= j < hi ==> order[j] != i
    ensures |states[hi].rows| == |states[lo].rows| && states[hi].rows[i] == states[lo].rows[i]
    decreases hi - lo
  {
    if lo < hi {
      assert order[lo] < |states[lo].rows| && |states[lo + 1].rows| == |states[lo].rows|;
      assert states[lo + 1].rows == states[lo].rows[order[lo] := states[lo + 1].rows[order[lo]]];
      RowUntouched(order, states, n, lo + 1, hi, i);
    }
  }

  /** What the whole greedy pass did to each pending row: visit `k` saw row
      `order[k]` as it came into the pass, against the ledgers and profile of
      its turn; a row with a best choice ends placed on it, and a row with no
      room at either tier ends marked "Sí". */
  ghost predicate VisitedAsDecided(cfg: Settings, order: seq<nat>, rows: seq<Row>, states: seq<PassState>,
                                   visits: seq<VisitOutcome>, out: seq<Row>)
    requires |visits| == |order| && |states| == |order| + 1
  {
    forall k :: 0 <= k < |order| ==>
      var i := order[k];
      var s := states[k];
      var c := visits[k].choice;
      && i < |rows| && i < |out|
      && (c.Some? ==>
            && IsBestChoice(cfg, s.loads, s.profiles, rows[i], c.value)
            && out[i] == Placed(rows[i], c.value.pick.entry, c.value.pick.exit))
      && (c.None? ==> NoRoom(cfg, s.loads, rows[i]) && out[i] == rows[i].(fits := DoesNotFit))
  }

  /** The table keeps its length through the visits from `lo` to `hi`. */
  lemma {:induction false} LengthKept(order: seq<nat>, states: seq<PassState>, n: nat, lo: nat, hi: nat)
    requires n < |states| && n <= |order| && Shapes(order, states, n) && lo <= hi <= n
    ensures |states[hi].rows| == |states[lo].rows|
    decreases hi - lo
  {
    if lo < hi {
      assert |states[lo + 1].rows| == |states[lo].rows|;
      LengthKept(order, states, n, lo + 1, hi);
    }
  }

  /** Visit `k` of the pass, seen from the row it is about. */
  lemma VisitDecided(cfg: Settings, order: seq<nat>, rows: seq<Row>, states: seq<PassState>, visits: seq<VisitOutcome>, k: nat)
    requires Steps(cfg, order, states, visits) && |visits| == |order| && Distinct(order)
    requires Shapes(order, states, |order|)
    requires states[0].rows == rows && k < |order|
    ensures var i := order[k];
            var s := states[k];
            var c := visits[k].choice;
            var out := states[|order|].rows;
            && i < |rows| && i < |out|
            && (c.Some? ==>
                  && IsBestChoice(cfg, s.loads, s.profiles, rows[i], c.value)
                  && out[i] == Placed(rows[i], c.value.pick.entry, c.value.pick.exit))
            && (c.None? ==> NoRoom(cfg, s.loads, rows[i]) && out[i] == rows[i].(fits := DoesNotFit))
  {
    var n := |order|;
    var i := order[k];
    assert Step(cfg, states[k], i, visits[k], states[k + 1]);
    LengthKept(order, states, n, 0, k);
    RowUntouched(order, states, n, 0, k, i);
    StepShape(cfg, states[k], i, visits[k], states[k + 1]);
    RowUntouched(order, states, n, k + 1, n, i);
  }

  lemma PassOutcomes(cfg: Settings, order: seq<nat>, rows: seq<Row>, states: seq<PassState>, visits: seq<VisitOutcome>)
    requires Steps(cfg, order, states, visits) && |visits| == |order| && Distinct(order)
    requires states[0].rows == rows
    ensures |states[|order|].rows| == |rows|
    ensures VisitedAsDecided(cfg, order, rows, states, visits, states[|order|].rows)
  {
    var n := |order|;
    StepsShapes(cfg, order, states, visits);
    LengthKept(order, states, n, 0, n);
    forall k | 0 <= k < n
      ensures var i := order[k];
              var s := states[k];
              var c := visits[k].choice;
              var out := states[n].rows;
              && i < |rows| && i < |out|
              && (c.Some? ==>
                    && IsBestChoice(cfg, s.loads, s.profiles, rows[i], c.value)
                    && out[i] == Placed(rows[i], c.value.pick.entry, c.value.pick.exit))
              && (c.None? ==> NoRoom(cfg, s.loads, rows[i]) && out[i] == rows[i].(fits := DoesNotFit))
    {
      VisitDecided(cfg, order, rows, states, visits, k);
    }
  }

  /** The greedy pass after `k` visits of `order`, started from `loads`,
      `rows` and `profiles` and now in state `s`. */
  ghost predicate Progress(cfg: Settings, input: seq<Row>, loads: Loads, rows: seq<Row>, profiles: map<int, Profile>,
                           order: seq<nat>, k: nat, s: PassState, failed: set<nat>,
                           states: seq<PassState>, visits: seq<VisitOutcome>)
    requires k <= |order|
  {
    && |visits| == k && Steps(cfg, order, states, visits)
    && states[0] == PassState(loads, rows, profiles, []) && states[k] == s
    && Invariant(input, s.loads, s.rows, failed, s.sgs) && Describes(s.profiles, s.rows)
    && Visited(order, k, rows, s.rows, failed)
    && MovedDaysWithinCapacity(cfg, loads, s.loads)
  }

  /** The body of the greedy loop: visit `order[k]` and record the visit. */
  method Advance(cfg: Settings, ghost input: seq<Row>, ghost loads: Loads, ghost rows: seq<Row>, ghost profiles: map<int, Profile>,
                 order: seq<nat>, k: nat, s: PassState, ghost failed: set<nat>,
                 ghost states: seq<PassState>, ghost visits: seq<VisitOutcome>)
    returns (t: PassState, ghost failed': set<nat>, ghost states': seq<PassState>, ghost visits': seq<VisitOutcome>)
    requires k < |order| && Distinct(order)
    requires forall j :: 0 <= j < |order| ==> order[j] < |rows| && rows[order[j]].entry.None?
    requires Progress(cfg, input, loads, rows, profiles, order, k, s, failed, states, visits)
    ensures Progress(cfg, input, loads, rows, profiles, order, k + 1, t, failed', states', visits')
  {
    var i := order[k];
    ghost var v;
    t, v, failed' := Visit(cfg, input, s, failed, i);
    StepShape(cfg, s, i, v, t);
    VisitStep(order, k, rows, s.rows, t.rows, failed, failed');
    MovedDaysCompose(cfg, loads, s.loads, t.loads);
    StepsExtend(cfg, order, states, visits, v, t);
    states', visits' := states + [t], visits + [v];
  }

  /** The greedy loop over the pending rows in (DIA, PRODUCTO) order. */
  method PlaceAll(cfg: Settings, ghost input: seq<Row>, loads: Loads, rows: seq<Row>, profiles: map<int, Profile>)
    returns (next: Loads, out: seq<Row>, sgs: seq<Suggestion>, ghost failed: set<nat>,
             ghost states: seq<PassState>, ghost visits: seq<VisitOutcome>)
    requires Invariant(input, loads, rows, {}, []) && Describes(profiles, rows)
    ensures Invariant(input, next, out, failed, sgs)
    ensures Steps(cfg, PendingOrder(rows), states, visits) && |visits| == |PendingOrder(rows)|
    ensures states[0] == PassState(loads, rows, profiles, [])
    ensures var last := states[|visits|]; last.loads == next && last.rows == out && last.sgs == sgs
    ensures VisitedAsDecided(cfg, PendingOrder(rows), rows, states, visits, out)
    ensures |out| == |rows|
    ensures forall i :: 0 <= i < |rows| && rows[i].entry.Some? ==> out[i] == rows[i]
    ensures forall i :: 0 <= i < |rows| && rows[i].entry.None? ==>
              (out[i].entry.Some? && out[i].fits == Fits) || i in failed
    ensures MovedDaysWithinCapacity(cfg, loads, next)
  {
    var order := PendingOrder(rows);
    PendingOrderVisitsEachPendingRowOnce(rows);
    var s := PassState(loads, rows, profiles, []);
    failed := {};
    states, visits := [s], [];
    var k := 0;
    assert order[..0] == [];
    while k < |order|
      invariant 0 <= k <= |order|
      invariant Progress(cfg, input, loads, rows, profiles, order, k, s, failed, states, visits)
    {
      s, failed, states, visits := Advance(cfg, input, loads, rows, profiles, order, k, s, failed, states, visits);
      k := k + 1;
    }
    next, out, sgs := s.loads, s.rows, s.sgs;
    AllVisited(order, rows, out, failed);
    PassOutcomes(cfg, order, rows, states, visits);
  }

  /** The loop's bookkeeping after `k` visits: the rows still to visit are as
      they were and have not failed, every row outside the visited ones is as it
      was, and each visited row is placed or failed. */
  ghost predicate Visited(order: seq<nat>, k: nat, start: seq<Row>, now: seq<Row>, failed: set<nat>)
    requires k <= |order|
  {
    && |now| == |start|
    && (forall j :: k <= j < |order| ==> order[j] < |start| && now[order[j]] == start[order[j]] && order[j] !in failed)
    && (forall i :: 0 <= i < |now| && i !in order[..k] ==> now[i] == start[i])
    && (forall j :: 0 <= j < k ==> order[j] < |now| && ((now[order[j]].entry.Some? && now[order[j]].fits == Fits) || order[j] in failed))
  }

  /** One greedy step keeps the loop's bookkeeping: the visited row is placed or
      failed, and nothing else moves. */
  lemma VisitStep(order: seq<nat>, k: nat, start: seq<Row>, before: seq<Row>, after: seq<Row>,
                  failedBefore: set<nat>, failedAfter: set<nat>)
    requires k < |order| && Distinct(order)
    requires Visited(order, k, start, before, failedBefore)
    requires |after| == |before| && after == before[order[k] := after[order[k]]]
    requires || (after[order[k]].entry.Some? && after[order[k]].fits == Fits && failedAfter == failedBefore)
             || failedAfter == failedBefore + {order[k]}
    ensures Visited(order, k + 1, start, after, failedAfter)
  {
    assert order[..k + 1] == order[..k] + [order[k]];
    assert forall j :: 0 <= j < |order| && j != k ==> order[j] != order[k];
  }

  /** After the last visit every pending row is placed or failed, and every
      other row is as it was. */
  lemma AllVisited(order: seq<nat>, rows: seq<Row>, out: seq<Row>, failed: set<nat>)
    requires Visited(order, |order|, rows, out, failed)
    requires forall j :: 0 <= j < |order| ==> order[j] < |rows| && rows[order[j]].entry.None?
    requires forall i :: 0 <= i < |rows| && rows[i].entry.None? ==> i in order
    ensures |out| == |rows|
    ensures forall i :: 0 <= i < |rows| && rows[i].entry.Some? ==> out[i] == rows[i]
    ensures forall i :: 0 <= i < |rows| && rows[i].entry.None? ==>
              (out[i].entry.Some? && out[i].fits == Fits) || i in failed
  {
    assert order[..|order|] == order;
    forall i | 0 <= i < |rows| && rows[i].entry.None?
      ensures (out[i].entry.Some? && out[i].fits == Fits) || i in failed
    {
      var j :| 0 <= j < |order| && order[j] == i;
    }
  }

  /** `planificar_filas_na`: the planned table and the sorted suggestions table.
      The ghost results record the run: `groupTrace` the group phase from the
      seeded ledgers, `greedy` and `visits` the greedy pass from the state the
      group phase left. */
  method Plan(cfg: Settings, input: seq<Row>)
    returns (out: seq<Row>, table: seq<Suggestion>,
             ghost groupTrace: seq<GroupState>, ghost groupChoices: seq<Option<GroupChoice>>,
             ghost greedy: seq<PassState>, ghost visits: seq<VisitOutcome>)
    ensures |out| == |input|
    ensures forall i :: 0 <= i < |out| ==> SameLot(input[i], out[i])
    ensures forall i :: 0 <= i < |out| && input[i].entry.Some? ==> out[i] == WithDeviation(input[i])
    ensures forall i :: 0 <= i < |out| && input[i].entry.None? ==>
              || (out[i].entry.Some? && out[i].fits == Fits)
              || (out[i].entry.None? && out[i].fits == DoesNotFit)
    ensures forall i :: 0 <= i < |out| ==> (out[i].deviation.Some? <==> out[i].dwellDays.Some?)
    ensures SortedBy(table, TableOrder)
    ensures forall sg :: sg in table ==>
              exists i :: 0 <= i < |out| && out[i].entry.None? && out[i].fits == DoesNotFit && SuggestionOf(sg, out[i])
    // The run itself: seeding, the group phase, and the greedy pass from where it left off.
    ensures GroupPhase(cfg, groupTrace, groupChoices)
    ensures groupTrace[0].rows == input && Consistent(groupTrace[0].loads, input, input)
    ensures var grouped := groupTrace[|groupTrace| - 1];
            var order := PendingOrder(grouped.rows);
            && Steps(cfg, order, greedy, visits) && |visits| == |order|
            && greedy[0].loads == grouped.loads && greedy[0].rows == grouped.rows && greedy[0].sgs == []
            && Describes(greedy[0].profiles, grouped.rows)
            && VisitedAsDecided(cfg, order, grouped.rows, greedy, visits, greedy[|order|].rows)
            && out == WithDeviations(greedy[|order|].rows)
            && table == SuggestionTable(greedy[|order|].sgs)
  {
    var entry := SeedEntryLedger(input);
    var exit := SeedExitLedger(input);
    var stab := SeedStabLedger(input);
    var loads := Loads(entry, exit, stab);
    var grouped;
    loads, grouped, groupTrace, groupChoices := RunGroups(cfg, input, loads, input);
    var profiles := SeedProfile(grouped);
    var placed, sgs;
    ghost var failed;
    loads, placed, sgs, failed, greedy, visits := PlaceAll(cfg, input, loads, grouped, profiles);
    DeviationKeepsInvariant(input, loads, placed, failed, sgs);
    out := WithDeviations(placed);
    table := SuggestionTable(sgs);
    SuggestionTableIsSorted(sgs);
    PlannedRows(input, grouped, placed, failed, FirstGroup + SecondGroup + ThirdGroup + PairGroup);
    SuggestionsAboutFailedRows(input, loads, out, failed, sgs, table);
  }

  /** What the three phases leave in the table. */
  lemma PlannedRows(input: seq<Row>, grouped: seq<Row>, placed: seq<Row>, failed: set<nat>, codes: set<string>)
    requires GroupPlacedOnly(input, grouped, codes)
    requires |placed| == |grouped|
    requires forall i :: 0 <= i < |placed| && grouped[i].entry.Some? ==> placed[i] == grouped[i]
    requires forall i :: 0 <= i < |placed| && grouped[i].entry.None? ==>
               (placed[i].entry.Some? && placed[i].fits == Fits) || i in failed
    requires FailedMarked(failed, placed) && Respects(input, placed)
    ensures var out := WithDeviations(placed);
            && (forall i :: 0 <= i < |out| && input[i].entry.Some? ==> out[i] == WithDeviation(input[i]))
            && (forall i :: 0 <= i < |out| && input[i].entry.None? ==>
                  || (out[i].entry.Some? && out[i].fits == Fits)
                  || (out[i].entry.None? && out[i].fits == DoesNotFit))
  {
    var out := WithDeviations(placed);
    forall i | 0 <= i < |out| && input[i].entry.Some?
      ensures out[i] == WithDeviation(input[i])
    {
      assert placed[i] == input[i].(deviation := placed[i].deviation);
    }
    forall i | 0 <= i < |out| && input[i].entry.None?
      ensures || (out[i].entry.Some? && out[i].fits == Fits)
              || (out[i].entry.None? && out[i].fits == DoesNotFit)
    {
      if grouped[i] != input[i] {
        assert placed[i] == grouped[i];
      }
    }
  }

  /** Every line of the suggestions table is about a row left unplaced. */
  lemma SuggestionsAboutFailedRows(input: seq<Row>, loads: Loads, out: seq<Row>, failed: set<nat>,
                                   sgs: seq<Suggestion>, table: seq<Suggestion>)
    requires Invariant(input, loads, out, failed, sgs)
    requires multiset(table) == multiset(sgs)
    ensures forall sg :: sg in table ==>
              exists i :: 0 <= i < |out| && out[i].entry.None? && out[i].fits == DoesNotFit && SuggestionOf(sg, out[i])
  {
    forall sg | sg in table
      ensures exists i :: 0 <= i < |out| && out[i].entry.None? && out[i].fits == DoesNotFit && SuggestionOf(sg, out[i])
    {
      assert sg in multiset(sgs);
      var k :| 0 <= k < |sgs| && sgs[k] == sg;
      assert AboutAFailedRow(sgs[k], failed, out);
      var i :| i in failed && i < |out| && SuggestionOf(sgs[k], out[i]);
    }
  }
}
