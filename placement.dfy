/** Greedy placement of one pending lot: the candidate entry dates of its window,
    the capacity filters at one attempt tier, the score `(cost_tipo, cost_nitr,
    entrada)` and the choice of the lowest score in the first tier that has any
    candidate; then the commit to the three ledgers. */
module Placement {
  import opened Options
  import opened Calendar
  import opened Capacity
  import opened Ledger
  import opened ExitRule
  import opened Classify
  import opened Rows
  import opened Profiles
  import opened Sorting

  /** The three ledgers as they stand when a lot is considered:
      `carga_entrada`, `carga_salida`, `estab_stock`. */
  datatype Loads = Loads(entry: map<int, int>, exit: map<int, int>, stab: map<int, int>)

  /** The score tuple, compared lexicographically. */
  datatype Score = Score(kindCost: int, nitrifCost: int, entry: int)

  predicate ScoreLe(a: Score, b: Score) {
    || a.kindCost < b.kindCost
    || (a.kindCost == b.kindCost && a.nitrifCost < b.nitrifCost)
    || (a.kindCost == b.kindCost && a.nitrifCost == b.nitrifCost && a.entry <= b.entry)
  }

  /** A feasible entry date with its score and the exit date it implies. */
  datatype Candidate = Candidate(score: Score, entry: int, exit: int)

  predicate CandidateLe(a: Candidate, b: Candidate) {
    ScoreLe(a.score, b.score)
  }

  /** The outcome for a lot that fits: the tier that admitted it and the candidate taken. */
  datatype Choice = Choice(tier: Tier, pick: Candidate)

  /** The exit date of lot `r` entering on `d`, against the exit ledger alone. */
  function LotExit(cfg: Settings, loads: Loads, r: Row, d: int): int {
    ExitDate(cfg, d, r.optimalDwell, loads.exit, map[])
  }

  /** The candidate dates of lot `r`: business days from its reception day up to
      the reception day plus its maximum storage days. */
  predicate InWindow(cfg: Settings, r: Row, d: int) {
    IsBusinessDay(cfg.holidays, d) && r.reception <= d && d - r.reception <= MaxStorage(cfg, r.product)
  }

  /** The three capacity filters at tier `tier`: the entry day takes the lot, every
      stabilisation day DIA .. d - 1 takes it, and its exit day takes it. */
  predicate Feasible(cfg: Settings, loads: Loads, r: Row, tier: Tier, d: int) {
    var s := LotExit(cfg, loads, r, d);
    && Get(loads.entry, d) + r.units <= EntryCap(cfg, d, tier)
    && StabRangeFits(cfg, loads.stab, r.reception, d - 1, r.units)
    && Get(loads.exit, s) + r.units <= ExitCap(cfg, s, tier)
  }

  /** The score of entering lot `r` on `d`, given the profile of `d`. */
  function ScoreAt(profiles: map<int, Profile>, r: Row, d: int): Score {
    var p := ProfileOf(profiles, d);
    Score(KindCost(p, NormKind(r.kindText)), NitrifCost(p, NormNitrif(r.nitrif)), d)
  }

  /** The candidate that entering `r` on `d` yields. */
  function CandidateAt(cfg: Settings, loads: Loads, profiles: map<int, Profile>, r: Row, d: int): Candidate {
    Candidate(ScoreAt(profiles, r, d), d, LotExit(cfg, loads, r, d))
  }

  /** Some candidate in `cands` enters on `d`. */
  predicate Offers(cands: seq<Candidate>, d: int) {
    exists i :: 0 <= i < |cands| && cands[i].entry == d
  }

  /** The three checks as the loop body runs them, in order, each only when the
      previous one passed. */
  method CheckFeasible(cfg: Settings, loads: Loads, r: Row, tier: Tier, d: int) returns (ok: bool)
    ensures ok <==> Feasible(cfg, loads, r, tier, d)
  {
    ok := false;
    if Get(loads.entry, d) + r.units <= EntryCap(cfg, d, tier) {
      var stabOk := CheckStabRange(cfg, loads.stab, r.reception, d - 1, r.units);
      if stabOk {
        var s := LotExit(cfg, loads, r, d);
        ok := Get(loads.exit, s) + r.units <= ExitCap(cfg, s, tier);
      }
    }
  }

  /** What the window loop has collected before date `d`: every feasible date
      of the window before `d`, each once, in date order. */
  ghost predicate CollectedBefore(cfg: Settings, loads: Loads, profiles: map<int, Profile>, r: Row, tier: Tier,
                                  cands: seq<Candidate>, d: int) {
    && (forall x :: r.reception <= x < d ==> (InWindow(cfg, r, x) && Feasible(cfg, loads, r, tier, x) ==> Offers(cands, x)))
    && (forall i :: 0 <= i < |cands| ==>
          && InWindow(cfg, r, cands[i].entry) && Feasible(cfg, loads, r, tier, cands[i].entry)
          && cands[i] == CandidateAt(cfg, loads, profiles, r, cands[i].entry)
          && cands[i].entry < d)
    && (forall i, j :: 0 <= i < j < |cands| ==> cands[i].entry < cands[j].entry)
  }

  /** The `while (entrada - dia_recepcion).days <= dias_max_almacen` loop at one
      tier: every feasible date of the window, each once, in date order. */
  method CollectCandidates(cfg: Settings, loads: Loads, profiles: map<int, Profile>, r: Row, tier: Tier)
    returns (cands: seq<Candidate>)
    ensures forall i :: 0 <= i < |cands| ==>
              && InWindow(cfg, r, cands[i].entry) && Feasible(cfg, loads, r, tier, cands[i].entry)
              && cands[i] == CandidateAt(cfg, loads, profiles, r, cands[i].entry)
    ensures forall d :: InWindow(cfg, r, d) && Feasible(cfg, loads, r, tier, d) ==> Offers(cands, d)
    ensures forall i, j :: 0 <= i < j < |cands| ==> cands[i].entry < cands[j].entry
  {
    var h := cfg.holidays;
    var limit := MaxStorage(cfg, r.product);
    var d := r.reception;
    if !IsBusinessDay(h, d) {
      d := FindNextBusinessDay(h, d);
    }
    cands := [];
    while d - r.reception <= limit
      invariant r.reception <= d && IsBusinessDay(h, d)
      invariant CollectedBefore(cfg, loads, profiles, r, tier, cands, d)
      decreases r.reception + limit - d
    {
      cands, d := VisitDate(cfg, loads, profiles, r, tier, cands, d);
    }
  }

  /** One pass of the window loop: date `d` is offered when feasible, and the
      loop moves on to the next business day. */
  method VisitDate(cfg: Settings, loads: Loads, profiles: map<int, Profile>, r: Row, tier: Tier,
                   cands: seq<Candidate>, d: int)
    returns (more: seq<Candidate>, next: int)
    requires r.reception <= d && IsBusinessDay(cfg.holidays, d) && d - r.reception <= MaxStorage(cfg, r.product)
    requires CollectedBefore(cfg, loads, profiles, r, tier, cands, d)
    ensures d < next && IsBusinessDay(cfg.holidays, next)
    ensures CollectedBefore(cfg, loads, profiles, r, tier, more, next)
  {
    var ok := CheckFeasible(cfg, loads, r, tier, d);
    more := cands;
    if ok {
      more := cands + [CandidateAt(cfg, loads, profiles, r, d)];
    }
    next := FindNextBusinessDay(cfg.holidays, d);
    forall x | r.reception <= x < next && InWindow(cfg, r, x) && Feasible(cfg, loads, r, tier, x)
      ensures Offers(more, x)
    {
      if x < d {
        var i :| 0 <= i < |cands| && cands[i].entry == x;
        assert more[i] == cands[i];
      } else {
        assert x == d && ok;
        assert more[|cands|].entry == d;
      }
    }
  }

  lemma ScoreOrderIsTotalPreorder()
    ensures IsTotalPreorder(CandidateLe)
  {
  }

  /** Candidates of one collection have distinct entry dates, so distinct scores:
      the lowest score is unique. */
  lemma LowestIsUnique(cands: seq<Candidate>, i: nat, j: nat)
    requires forall a, b :: 0 <= a < b < |cands| ==> cands[a].entry < cands[b].entry
    requires forall a :: 0 <= a < |cands| ==> cands[a].score.entry == cands[a].entry
    requires i < |cands| && j < |cands|
    requires CandidateLe(cands[i], cands[j]) && CandidateLe(cands[j], cands[i])
    ensures i == j
  {
  }

  /** `candidatos.sort(key=score)` then `candidatos[0]`: the candidate with the
      lowest score. */
  function Lowest(cands: seq<Candidate>): (c: Candidate)
    requires |cands| > 0
    ensures c in cands
    ensures forall i :: 0 <= i < |cands| ==> ScoreLe(c.score, cands[i].score)
  {
    var sorted := SortBy(cands, CandidateLe);
    ScoreOrderIsTotalPreorder();
    SortBySorted(cands, CandidateLe);
    assert multiset(sorted) == multiset(cands);
    assert sorted[0] in multiset(cands);
    forall i | 0 <= i < |cands|
      ensures ScoreLe(sorted[0].score, cands[i].score)
    {
      assert cands[i] in multiset(sorted);
      var j :| 0 <= j < |sorted| && sorted[j] == cands[i];
      if j > 0 {
        assert CandidateLe(sorted[0], sorted[j]);
      }
    }
    sorted[0]
  }

  /** `choice` is what the greedy step may pick for lot `r`: a date of its window
      feasible at the chosen tier, scored as the date's profile says, scoring no
      higher than any other date feasible at that tier, and tier 2 only when no
      date is feasible at tier 1. */
  ghost predicate IsBestChoice(cfg: Settings, loads: Loads, profiles: map<int, Profile>, r: Row, choice: Choice) {
    var c := choice.pick;
    var t := choice.tier;
    && InWindow(cfg, r, c.entry) && Feasible(cfg, loads, r, t, c.entry)
    && c == CandidateAt(cfg, loads, profiles, r, c.entry)
    && (forall d :: InWindow(cfg, r, d) && Feasible(cfg, loads, r, t, d) ==> ScoreLe(c.score, ScoreAt(profiles, r, d)))
    && (t == Tier2 ==> forall d :: InWindow(cfg, r, d) ==> !Feasible(cfg, loads, r, Tier1, d))
  }

  /** No date of the window of `r` is feasible at either tier. */
  ghost predicate NoRoom(cfg: Settings, loads: Loads, r: Row) {
    forall d, t :: InWindow(cfg, r, d) ==> !Feasible(cfg, loads, r, t, d)
  }

  /** The tiered choice: the lowest-scored candidate of attempt 1, or failing any,
      of attempt 2; none when neither attempt has a candidate. */
  method ChooseEntry(cfg: Settings, loads: Loads, profiles: map<int, Profile>, r: Row) returns (choice: Option<Choice>)
    ensures choice.Some? ==> IsBestChoice(cfg, loads, profiles, r, choice.value)
    ensures choice.None? <==> NoRoom(cfg, loads, r)
  {
    var first := CollectCandidates(cfg, loads, profiles, r, Tier1);
    if |first| > 0 {
      choice := Some(Choice(Tier1, Lowest(first)));
      LowestBeatsEveryFeasibleDate(cfg, loads, profiles, r, Tier1, first);
      return;
    }
    var second := CollectCandidates(cfg, loads, profiles, r, Tier2);
    if |second| > 0 {
      choice := Some(Choice(Tier2, Lowest(second)));
      LowestBeatsEveryFeasibleDate(cfg, loads, profiles, r, Tier2, second);
      return;
    }
    choice := None;
    forall d, t | InWindow(cfg, r, d)
      ensures !Feasible(cfg, loads, r, t, d)
    {
    }
  }

  /** The lowest candidate of a complete collection scores no higher than any feasible date. */
  lemma LowestBeatsEveryFeasibleDate(cfg: Settings, loads: Loads, profiles: map<int, Profile>, r: Row, tier: Tier, cands: seq<Candidate>)
    requires |cands| > 0
    requires forall i :: 0 <= i < |cands| ==> cands[i] == CandidateAt(cfg, loads, profiles, r, cands[i].entry)
    requires forall d :: InWindow(cfg, r, d) && Feasible(cfg, loads, r, tier, d) ==> Offers(cands, d)
    ensures forall d :: InWindow(cfg, r, d) && Feasible(cfg, loads, r, tier, d) ==> ScoreLe(Lowest(cands).score, ScoreAt(profiles, r, d))
  {
    forall d | InWindow(cfg, r, d) && Feasible(cfg, loads, r, tier, d)
      ensures ScoreLe(Lowest(cands).score, ScoreAt(profiles, r, d))
    {
      var i :| 0 <= i < |cands| && cands[i].entry == d;
      assert cands[i].score == ScoreAt(profiles, r, d);
    }
  }

  /** The placed row: ENTRADA_SAL, SALIDA_SAL, DIAS_SAL, DIAS_ALMACENADOS and
      LOTE_NO_ENCAJA = "No". */
  function Placed(r: Row, entry: int, exit: int): (p: Row)
    ensures p.entry == Some(entry) && p.exit == Some(exit)
    ensures p.dwellDays == Some(exit - entry) && p.storageDays == Some(entry - r.reception)
    ensures p.fits == Fits
    ensures p.lot == r.lot && p.product == r.product && p.reception == r.reception && p.units == r.units
    ensures p.optimalDwell == r.optimalDwell && p.kindText == r.kindText && p.nitrif == r.nitrif
    ensures p.deviation == r.deviation
  {
    r.(entry := Some(entry), exit := Some(exit), dwellDays := Some(exit - entry),
       storageDays := Some(entry - r.reception), fits := Fits)
  }

  /** The ledgers after committing lot `r` on `entry` with exit `exit`. */
  ghost function Committed(loads: Loads, r: Row, entry: int, exit: int): Loads {
    Loads(AddAt(loads.entry, entry, r.units), AddAt(loads.exit, exit, r.units),
          if entry > r.reception then AddRange(loads.stab, r.reception, entry - 1, r.units) else loads.stab)
  }

  /** The commit of a lot: UNDS on the entry day, UNDS on the exit day, UNDS on
      each day DIA .. entry - 1 when entry > DIA. */
  method CommitLot(loads: Loads, r: Row, entry: int, exit: int) returns (next: Loads)
    ensures next == Committed(loads, r, entry, exit)
  {
    var stab := loads.stab;
    if entry > r.reception {
      stab := SumInRange(stab, r.reception, entry - 1, r.units);
    }
    next := Loads(AddAt(loads.entry, entry, r.units), AddAt(loads.exit, exit, r.units), stab);
  }

  /** What a commit changes, day by day: only the entry day, the exit day and the
      stabilisation days of the lot move, each by UNDS. */
  lemma CommittedPointwise(loads: Loads, r: Row, entry: int, exit: int, x: int)
    ensures Get(Committed(loads, r, entry, exit).entry, x) == Get(loads.entry, x) + (if x == entry then r.units else 0)
    ensures Get(Committed(loads, r, entry, exit).exit, x) == Get(loads.exit, x) + (if x == exit then r.units else 0)
    ensures Get(Committed(loads, r, entry, exit).stab, x) == Get(loads.stab, x) + (if r.reception <= x < entry then r.units else 0)
  {
  }

  /** A lot committed on a date feasible at tier `tier` leaves the ledgers within
      the capacities of that tier on each day it touches. */
  lemma CommitRespectsCapacity(cfg: Settings, loads: Loads, r: Row, tier: Tier, d: int)
    requires Feasible(cfg, loads, r, tier, d)
    ensures var next := Committed(loads, r, d, LotExit(cfg, loads, r, d));
            var s := LotExit(cfg, loads, r, d);
            && Get(next.entry, d) <= EntryCap(cfg, d, tier)
            && Get(next.exit, s) <= ExitCap(cfg, s, tier)
            && forall x :: r.reception <= x < d ==> Get(next.stab, x) <= StabCap(cfg, x)
  {
    var s := LotExit(cfg, loads, r, d);
    forall x | r.reception <= x < d
      ensures Get(Committed(loads, r, d, s).stab, x) <= StabCap(cfg, x)
    {
      CommittedPointwise(loads, r, d, s, x);
    }
  }
}
