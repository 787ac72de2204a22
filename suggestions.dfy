/** Suggestions for a lot that fits nowhere: for every business day of its
    window and both attempt tiers, how far each capacity falls short, the advice
    to raise it, and the ordering of the resulting table. */
module Suggestions {
  import opened Options
  import opened Calendar
  import opened Capacity
  import opened Ledger
  import opened Rows
  import opened Placement
  import opened Sorting

  /** One line of the recommendation text. */
  datatype Advice =
    | RaiseEntry(day: int, amount: int, tier: Tier)  // "Subir ENTRADA el <day> en +<amount> unds (INTENTO <tier>)."
    | RaiseExit(day: int, amount: int, tier: Tier)   // "Subir SALIDA el <day> en +<amount> unds (INTENTO <tier>)."
    | RaiseStab(days: seq<(int, int)>)           // "Subir ESTABILIZACIÓN en: <day>(+<amount>), ..."

  /** One row of the suggestions table; `stabDays` are the stabilisation days
      the recommendation lists. */
  datatype Suggestion = Suggestion(
    lot: int, product: string, units: int, reception: int,
    entry: int, exit: int, tier: Tier,
    entryDeficit: int, stabDeficit: int, exitDeficit: int,
    maxDeficit: int, totalDeficit: int,
    stabDays: seq<(int, int)>)

  function Max0(x: int): int {
    if x > 0 then x else 0
  }

  function Max3(a: int, b: int, c: int): (m: int)
    ensures m >= a && m >= b && m >= c
    ensures m == a || m == b || m == c
  {
    if a >= b && a >= c then a else if b >= c then b else c
  }

  /** `[:3]`. */
  function FirstThree(defs: seq<(int, int)>): (f: seq<(int, int)>)
    ensures |f| == if |defs| < 3 then |defs| else 3
  {
    if |defs| < 3 then defs else defs[..3]
  }

  /** What the suggestion for entering `r` on `d` at tier `tier` holds. */
  ghost predicate IsSuggestion(cfg: Settings, loads: Loads, r: Row, d: int, tier: Tier, sg: Suggestion) {
    var s := LotExit(cfg, loads, r, d);
    var defs := DeficitList(cfg, loads.stab, r.reception, d - 1, r.units);
    && sg.lot == r.lot && sg.product == r.product && sg.units == r.units && sg.reception == r.reception
    && sg.entry == d && sg.exit == s && sg.tier == tier
    && sg.entryDeficit == Max0(Get(loads.entry, d) + r.units - EntryCap(cfg, d, tier))
    && sg.exitDeficit == Max0(Get(loads.exit, s) + r.units - ExitCap(cfg, s, tier))
    && sg.stabDeficit == MaxAmount(defs)
    && sg.maxDeficit == Max3(sg.entryDeficit, sg.stabDeficit, sg.exitDeficit)
    && sg.totalDeficit == sg.entryDeficit + sg.stabDeficit + sg.exitDeficit
    && sg.stabDays == FirstThree(defs)
  }

  /** The stabilisation deficit is the worst shortfall over `lo..hi`, or 0
      when every day fits. */
  lemma StabDeficitIsWorstDay(cfg: Settings, stab: map<int, int>, lo: int, hi: int, u: int)
    ensures var m := MaxAmount(DeficitList(cfg, stab, lo, hi, u));
            && m >= 0
            && (forall x :: lo <= x <= hi ==> Shortfall(cfg, stab, u, x) <= m)
            && (m > 0 ==> exists x :: lo <= x <= hi && Shortfall(cfg, stab, u, x) == m)
            && (m == 0 <==> StabRangeFits(cfg, stab, lo, hi, u))
  {
    var defs := DeficitList(cfg, stab, lo, hi, u);
    var m := MaxAmount(defs);
    DeficitListSound(cfg, stab, lo, hi, u);
    DeficitListEmpty(cfg, stab, lo, hi, u);
    if defs != [] {
      assert IsDeficit(cfg, stab, lo, hi, u, defs[0]);
      var k :| 0 <= k < |defs| && defs[k].1 == m;
      assert IsDeficit(cfg, stab, lo, hi, u, defs[k]);
    }
    forall x | lo <= x <= hi
      ensures Shortfall(cfg, stab, u, x) <= m
    {
      if Shortfall(cfg, stab, u, x) > 0 {
        DeficitListComplete(cfg, stab, lo, hi, u, x);
        var k :| 0 <= k < |defs| && defs[k] == (x, Shortfall(cfg, stab, u, x));
      }
    }
  }

  /** An element of an ascending list that comes before the last element of a
      prefix is in that prefix. */
  lemma PrefixOfAscending(defs: seq<(int, int)>, m: nat, p: (int, int))
    requires forall k, j :: 0 <= k < j < |defs| ==> defs[k].0 < defs[j].0
    requires 0 < m <= |defs| && p in defs && p.0 < defs[m - 1].0
    ensures p in defs[..m]
  {
    var j :| 0 <= j < |defs| && defs[j] == p;
    assert defs[..m][j] == p;
  }

  /** The days the advice lists: deficient days of `lo..hi` with their
      shortfalls, ascending, at most three, none skipped before the last one
      listed, all of them when there are fewer than three; none exactly when
      the range fits. */
  lemma StabDaysAreFirstDeficits(cfg: Settings, stab: map<int, int>, lo: int, hi: int, u: int)
    ensures var days := FirstThree(DeficitList(cfg, stab, lo, hi, u));
            && |days| <= 3
            && (forall k :: 0 <= k < |days| ==> IsDeficit(cfg, stab, lo, hi, u, days[k]))
            && (forall k, j :: 0 <= k < j < |days| ==> days[k].0 < days[j].0)
            && (forall x :: lo <= x <= hi && Shortfall(cfg, stab, u, x) > 0 && (|days| < 3 || x < days[|days| - 1].0)
                            ==> (x, Shortfall(cfg, stab, u, x)) in days)
            && (|days| == 0 <==> StabRangeFits(cfg, stab, lo, hi, u))
  {
    var defs := DeficitList(cfg, stab, lo, hi, u);
    DeficitListSound(cfg, stab, lo, hi, u);
    DeficitListEmpty(cfg, stab, lo, hi, u);
    var days := FirstThree(defs);
    assert forall k :: 0 <= k < |days| ==> days[k] == defs[k];
    forall x | lo <= x <= hi && Shortfall(cfg, stab, u, x) > 0 && (|days| < 3 || x < days[|days| - 1].0)
      ensures (x, Shortfall(cfg, stab, u, x)) in days
    {
      DeficitListComplete(cfg, stab, lo, hi, u, x);
      if |days| == 3 {
        PrefixOfAscending(defs, 3, (x, Shortfall(cfg, stab, u, x)));
      }
    }
  }

  /** One row of `sugerencias_rows_lote`. */
  method MakeSuggestion(cfg: Settings, loads: Loads, r: Row, d: int, tier: Tier) returns (sg: Suggestion)
    ensures IsSuggestion(cfg, loads, r, d, tier, sg)
  {
    var entryDeficit := Max0(Get(loads.entry, d) + r.units - EntryCap(cfg, d, tier));
    var defs := StabDeficits(cfg, loads.stab, r.reception, d - 1, r.units);
    var stabDeficit := MaxAmount(defs);
    var s := LotExit(cfg, loads, r, d);
    var exitDeficit := Max0(Get(loads.exit, s) + r.units - ExitCap(cfg, s, tier));
    sg := Suggestion(r.lot, r.product, r.units, r.reception, d, s, tier,
                     entryDeficit, stabDeficit, exitDeficit,
                     Max3(entryDeficit, stabDeficit, exitDeficit), entryDeficit + stabDeficit + exitDeficit,
                     FirstThree(defs));
  }

  /** A suggestion shows no deficit exactly when its date is feasible at its tier. */
  lemma NoDeficitIffFeasible(cfg: Settings, loads: Loads, r: Row, d: int, tier: Tier, sg: Suggestion)
    requires IsSuggestion(cfg, loads, r, d, tier, sg)
    ensures sg.maxDeficit == 0 <==> Feasible(cfg, loads, r, tier, d)
    ensures sg.maxDeficit >= 0 && sg.totalDeficit >= sg.maxDeficit
  {
    StabDeficitIsWorstDay(cfg, loads.stab, r.reception, d - 1, r.units);
  }

  /** The recommendation lines, in the order the text lists them. */
  function Recommendations(sg: Suggestion): (adv: seq<Advice>)
    ensures |adv| <= 3
  {
    (if sg.entryDeficit > 0 then [RaiseEntry(sg.entry, sg.entryDeficit, sg.tier)] else [])
    + (if sg.exitDeficit > 0 then [RaiseExit(sg.exit, sg.exitDeficit, sg.tier)] else [])
    + (if sg.stabDeficit > 0 && |sg.stabDays| > 0 then [RaiseStab(sg.stabDays)] else [])
  }

  /** "Sin ajustes necesarios" exactly when the date was feasible; otherwise each
      line names a capacity that falls short and by how much. */
  lemma NoAdviceIffFeasible(cfg: Settings, loads: Loads, r: Row, d: int, tier: Tier, sg: Suggestion)
    requires IsSuggestion(cfg, loads, r, d, tier, sg)
    ensures Recommendations(sg) == [] <==> Feasible(cfg, loads, r, tier, d)
    ensures forall a :: a in Recommendations(sg) && a.RaiseEntry? ==>
              a.amount == Get(loads.entry, d) + r.units - EntryCap(cfg, d, tier) && a.amount > 0
    ensures forall a :: a in Recommendations(sg) && a.RaiseExit? ==>
              a.amount == Get(loads.exit, sg.exit) + r.units - ExitCap(cfg, sg.exit, tier) && a.amount > 0
  {
    NoDeficitIffFeasible(cfg, loads, r, d, tier, sg);
    StabDaysAreFirstDeficits(cfg, loads.stab, r.reception, d - 1, r.units);
    if Recommendations(sg) == [] {
      assert sg.entryDeficit <= 0 && sg.exitDeficit <= 0 && sg.stabDeficit <= 0;
    }
  }

  /** A suggestion for lot `r` on a date of its window. */
  ghost predicate SuggestsFor(cfg: Settings, loads: Loads, r: Row, sg: Suggestion) {
    InWindow(cfg, r, sg.entry) && IsSuggestion(cfg, loads, r, sg.entry, sg.tier, sg)
  }

  /** Some suggestion of `sgs` proposes entering on `d` at tier `t`. */
  predicate Covers(sgs: seq<Suggestion>, d: int, t: Tier) {
    exists i :: 0 <= i < |sgs| && sgs[i].entry == d && sgs[i].tier == t
  }

  /** Suggestions come in date order, and on one date tier 1 comes before tier 2. */
  predicate InProposalOrder(sgs: seq<Suggestion>) {
    && (forall i, j :: 0 <= i < j < |sgs| ==> sgs[i].entry <= sgs[j].entry)
    && (forall i, j :: 0 <= i < j < |sgs| && sgs[i].entry == sgs[j].entry ==> sgs[i].tier == Tier1 && sgs[j].tier == Tier2)
  }

  lemma ProposalOrderStep(sgs: seq<Suggestion>, first: Suggestion, second: Suggestion, d: int)
    requires InProposalOrder(sgs)
    requires forall i :: 0 <= i < |sgs| ==> sgs[i].entry < d
    requires first.entry == d && second.entry == d && first.tier == Tier1 && second.tier == Tier2
    ensures InProposalOrder(sgs + [first, second])
  {
  }

  /** Every date of the window before `d` is proposed at both tiers. */
  predicate CoveredBefore(cfg: Settings, r: Row, sgs: seq<Suggestion>, d: int) {
    forall x, t :: r.reception <= x < d && InWindow(cfg, r, x) ==> Covers(sgs, x, t)
  }

  lemma CoverStep(cfg: Settings, r: Row, sgs: seq<Suggestion>, first: Suggestion, second: Suggestion, d: int, next: int)
    requires CoveredBefore(cfg, r, sgs, d)
    requires first.entry == d && second.entry == d && first.tier == Tier1 && second.tier == Tier2
    requires d < next && forall x :: d < x < next ==> !IsBusinessDay(cfg.holidays, x)
    ensures CoveredBefore(cfg, r, sgs + [first, second], next)
  {
    var after := sgs + [first, second];
    forall x, t | r.reception <= x < next && InWindow(cfg, r, x)
      ensures Covers(after, x, t)
    {
      if x < d {
        assert Covers(sgs, x, t);
        var i :| 0 <= i < |sgs| && sgs[i].entry == x && sgs[i].tier == t;
        assert after[i] == sgs[i];
      } else if t == Tier1 {
        assert after[|sgs|].entry == x;
      } else {
        assert after[|sgs| + 1].entry == x;
      }
    }
  }

  /** The suggestion loop of one lot: each business day of the window, tier 1 then tier 2. */
  method SuggestionsForLot(cfg: Settings, loads: Loads, r: Row) returns (sgs: seq<Suggestion>)
    ensures forall i :: 0 <= i < |sgs| ==> SuggestsFor(cfg, loads, r, sgs[i])
    ensures forall d, t :: InWindow(cfg, r, d) ==> Covers(sgs, d, t)
    ensures InProposalOrder(sgs)
  {
    var h := cfg.holidays;
    var limit := MaxStorage(cfg, r.product);
    var d := r.reception;
    if !IsBusinessDay(h, d) {
      d := FindNextBusinessDay(h, d);
    }
    sgs := [];
    while d - r.reception <= limit
      invariant r.reception <= d && IsBusinessDay(h, d)
      invariant forall i :: 0 <= i < |sgs| ==> SuggestsFor(cfg, loads, r, sgs[i]) && sgs[i].entry < d
      invariant CoveredBefore(cfg, r, sgs, d)
      invariant InProposalOrder(sgs)
      decreases r.reception + limit - d
    {
      var first := MakeSuggestion(cfg, loads, r, d, Tier1);
      var second := MakeSuggestion(cfg, loads, r, d, Tier2);
      var next := FindNextBusinessDay(h, d);
      ProposalOrderStep(sgs, first, second, d);
      CoverStep(cfg, r, sgs, first, second, d, next);
      sgs := sgs + [first, second];
      d := next;
    }
  }

  /** `key=(MAX_DEFICIT, TOTAL_DEFICIT, ENTRADA_PROPUESTA)`. */
  predicate LotOrder(a: Suggestion, b: Suggestion) {
    || a.maxDeficit < b.maxDeficit
    || (a.maxDeficit == b.maxDeficit && a.totalDeficit < b.totalDeficit)
    || (a.maxDeficit == b.maxDeficit && a.totalDeficit == b.totalDeficit && a.entry <= b.entry)
  }

  /** `by=[MAX_DEFICIT, TOTAL_DEFICIT, ENTRADA_PROPUESTA, SALIDA_PROPUESTA, LOTE]`. */
  predicate TableOrder(a: Suggestion, b: Suggestion) {
    || a.maxDeficit < b.maxDeficit
    || (a.maxDeficit == b.maxDeficit && a.totalDeficit < b.totalDeficit)
    || (a.maxDeficit == b.maxDeficit && a.totalDeficit == b.totalDeficit && a.entry < b.entry)
    || (a.maxDeficit == b.maxDeficit && a.totalDeficit == b.totalDeficit && a.entry == b.entry && a.exit < b.exit)
    || (a.maxDeficit == b.maxDeficit && a.totalDeficit == b.totalDeficit && a.entry == b.entry && a.exit == b.exit
        && a.lot <= b.lot)
  }

  lemma OrdersAreKeyOrders()
    ensures IsTotalPreorder(LotOrder)
    ensures IsTotalPreorder(TableOrder)
  {
  }

  /** The number of suggestions kept per lot. */
  const KeptPerLot := 20

  /** `sugerencias_rows_lote.sort(key=...)` then `[:20]`. */
  function BestForLot(sgs: seq<Suggestion>): seq<Suggestion> {
    var sorted := SortBy(sgs, LotOrder);
    sorted[..if |sorted| < KeptPerLot then |sorted| else KeptPerLot]
  }

  /** What is kept: at most twenty suggestions of the lot, in key order, none of
      them worse than any suggestion dropped, and ties in the order they were
      generated (for one date, tier 1 before tier 2). */
  lemma BestForLotKeepsTheBest(sgs: seq<Suggestion>)
    ensures var best := BestForLot(sgs);
            && |best| == (if |sgs| < KeptPerLot then |sgs| else KeptPerLot)
            && multiset(best) <= multiset(sgs)
            && SortedBy(best, LotOrder)
            && (forall a, b :: a in best && b in multiset(sgs) - multiset(best) ==> LotOrder(a, b))
    ensures forall x :: TiesOf(SortBy(sgs, LotOrder), LotOrder, x) == TiesOf(sgs, LotOrder, x)
  {
    OrdersAreKeyOrders();
    var sorted := SortBy(sgs, LotOrder);
    SortBySorted(sgs, LotOrder);
    var m := if |sorted| < KeptPerLot then |sorted| else KeptPerLot;
    assert sorted == sorted[..m] + sorted[m..];
    assert multiset(sorted) == multiset(sorted[..m]) + multiset(sorted[m..]);
    PrefixIsSmallest(sorted, LotOrder, m);
    forall a, b | a in sorted[..m] && b in multiset(sgs) - multiset(sorted[..m])
      ensures LotOrder(a, b)
    {
      assert b in multiset(sorted[m..]);
    }
    assert SortedBy(sorted[..m], LotOrder) by {
      forall i, j | 0 <= i < j < m
        ensures LotOrder(sorted[..m][i], sorted[..m][j])
      {
        assert sorted[..m][i] == sorted[i] && sorted[..m][j] == sorted[j];
      }
    }
    forall x
      ensures TiesOf(SortBy(sgs, LotOrder), LotOrder, x) == TiesOf(sgs, LotOrder, x)
    {
      SortByStable(sgs, LotOrder, x);
    }
  }

  /** `df_sugerencias.sort_values(by=[...])`. */
  function SuggestionTable(all: seq<Suggestion>): seq<Suggestion> {
    SortBy(all, TableOrder)
  }

  /** The final table holds the same suggestions, in table key order. */
  lemma SuggestionTableIsSorted(all: seq<Suggestion>)
    ensures multiset(SuggestionTable(all)) == multiset(all)
    ensures SortedBy(SuggestionTable(all), TableOrder)
  {
    OrdersAreKeyOrders();
    SortBySorted(all, TableOrder);
  }

  /** A lot that fits nowhere gets suggestions that each show a deficit. */
  lemma NoRoomMeansDeficits(cfg: Settings, loads: Loads, r: Row, sgs: seq<Suggestion>)
    requires forall d, t :: InWindow(cfg, r, d) ==> !Feasible(cfg, loads, r, t, d)
    requires forall i :: 0 <= i < |sgs| ==> SuggestsFor(cfg, loads, r, sgs[i])
    ensures forall i :: 0 <= i < |sgs| ==> sgs[i].maxDeficit > 0 && Recommendations(sgs[i]) != []
  {
    forall i | 0 <= i < |sgs|
      ensures sgs[i].maxDeficit > 0 && Recommendations(sgs[i]) != []
    {
      NoDeficitIffFeasible(cfg, loads, r, sgs[i].entry, sgs[i].tier, sgs[i]);
      NoAdviceIffFeasible(cfg, loads, r, sgs[i].entry, sgs[i].tier, sgs[i]);
    }
  }
}
