/** Common-entry groups: all pending lots of a set of product codes enter on the
    same day, chosen from the window every member admits, or none of them is
    placed by the rule. */
module Groups {
  import opened Options
  import opened Calendar
  import opened Capacity
  import opened Ledger
  import opened ExitRule
  import opened Rows
  import opened Placement

  /** A row the rule applies to: its PRODUCTO is one of the codes and it has no ENTRADA_SAL. */
  predicate IsPendingMember(r: Row, codes: set<string>) {
    r.product in codes && r.entry.None?
  }

  /** A row of the group that is already placed: it fixes the preferred date. */
  predicate IsPlacedMember(r: Row, codes: set<string>) {
    r.product in codes && r.entry.Some?
  }

  predicate ValidIndices(ms: seq<nat>, n: nat) {
    forall k :: 0 <= k < |ms| ==> ms[k] < n
  }

  predicate Increasing(ms: seq<nat>) {
    forall k, j :: 0 <= k < j < |ms| ==> ms[k] < ms[j]
  }

  /** `mask_group`: the indices of the pending members, in table order. */
  function Members(rows: seq<Row>, codes: set<string>): (ms: seq<nat>)
    ensures ValidIndices(ms, |rows|) && Increasing(ms)
    ensures forall k :: 0 <= k < |ms| ==> IsPendingMember(rows[ms[k]], codes)
    ensures forall i :: 0 <= i < |rows| && IsPendingMember(rows[i], codes) ==> i in ms
    decreases |rows|
  {
    if |rows| == 0 then []
    else
      var n := |rows| - 1;
      var prev := Members(rows[..n], codes);
      assert forall k :: 0 <= k < |prev| ==> rows[..n][prev[k]] == rows[prev[k]];
      assert forall i :: 0 <= i < n ==> rows[..n][i] == rows[i];
      if IsPendingMember(rows[n], codes) then prev + [n] else prev
  }

  /** `pending`: the member rows themselves, in table order. */
  function Pick(rows: seq<Row>, ms: seq<nat>): (p: seq<Row>)
    requires ValidIndices(ms, |rows|)
    ensures |p| == |ms|
    ensures forall k :: 0 <= k < |ms| ==> p[k] == rows[ms[k]]
  {
    seq(|ms|, k requires 0 <= k < |ms| => rows[ms[k]])
  }

  /** `fecha_preferente`: the earliest ENTRADA_SAL among the group's placed rows. */
  function PreferredEntry(rows: seq<Row>, codes: set<string>): (p: Option<int>)
    ensures p.None? <==> forall i :: 0 <= i < |rows| ==> !IsPlacedMember(rows[i], codes)
    ensures p.Some? ==> exists i :: 0 <= i < |rows| && IsPlacedMember(rows[i], codes) && rows[i].entry == p
    ensures p.Some? ==> forall i :: 0 <= i < |rows| && IsPlacedMember(rows[i], codes) ==> p.value <= rows[i].entry.value
    decreases |rows|
  {
    if |rows| == 0 then None
    else
      var n := |rows| - 1;
      var prev := PreferredEntry(rows[..n], codes);
      assert forall i :: 0 <= i < n ==> rows[..n][i] == rows[i];
      if !IsPlacedMember(rows[n], codes) then prev
      else if prev.Some? && prev.value <= rows[n].entry.value then prev
      else rows[n].entry
  }

  /** `entrada_ini_i` of one member. */
  function StartOf(cfg: Settings, r: Row): int {
    EarliestEntry(cfg.holidays, r.reception)
  }

  /** `limite_i` of one member. */
  function LimitOf(cfg: Settings, r: Row): int {
    r.reception + MaxStorage(cfg, r.product)
  }

  /** `inicio_comun = max(inicios)`. */
  function CommonStart(cfg: Settings, pending: seq<Row>): (s: int)
    requires |pending| > 0
    ensures forall k :: 0 <= k < |pending| ==> StartOf(cfg, pending[k]) <= s
    ensures exists k :: 0 <= k < |pending| && StartOf(cfg, pending[k]) == s
    decreases |pending|
  {
    var n := |pending| - 1;
    if n == 0 then StartOf(cfg, pending[0])
    else
      var prev := CommonStart(cfg, pending[..n]);
      assert forall k :: 0 <= k < n ==> pending[..n][k] == pending[k];
      if prev < StartOf(cfg, pending[n]) then StartOf(cfg, pending[n]) else prev
  }

  /** `limite_comun = min(limites)`. */
  function CommonLimit(cfg: Settings, pending: seq<Row>): (l: int)
    requires |pending| > 0
    ensures forall k :: 0 <= k < |pending| ==> l <= LimitOf(cfg, pending[k])
    ensures exists k :: 0 <= k < |pending| && LimitOf(cfg, pending[k]) == l
    decreases |pending|
  {
    var n := |pending| - 1;
    if n == 0 then LimitOf(cfg, pending[0])
    else
      var prev := CommonLimit(cfg, pending[..n]);
      assert forall k :: 0 <= k < n ==> pending[..n][k] == pending[k];
      if LimitOf(cfg, pending[n]) < prev then LimitOf(cfg, pending[n]) else prev
  }

  /** A business day lies in the common window exactly when it lies in the
      window of every member. */
  lemma CommonWindowIsIntersection(cfg: Settings, pending: seq<Row>, d: int)
    requires |pending| > 0
    ensures (IsBusinessDay(cfg.holidays, d) && CommonStart(cfg, pending) <= d <= CommonLimit(cfg, pending))
            <==> (forall k :: 0 <= k < |pending| ==> InWindow(cfg, pending[k], d))
  {
    if forall k :: 0 <= k < |pending| ==> InWindow(cfg, pending[k], d) {
      var a :| 0 <= a < |pending| && StartOf(cfg, pending[a]) == CommonStart(cfg, pending);
      assert InWindow(cfg, pending[a], d);
      var b :| 0 <= b < |pending| && LimitOf(cfg, pending[b]) == CommonLimit(cfg, pending);
      assert InWindow(cfg, pending[b], d);
    }
  }

  /** `int(pending["UNDS"].sum())`. */
  function GroupUnits(pending: seq<Row>): int
    decreases |pending|
  {
    if |pending| == 0 then 0 else GroupUnits(pending[..|pending| - 1]) + pending[|pending| - 1].units
  }

  /** `sim_stock` after the members of `pending` have been added in order, each
      on DIA .. d - 1 when d is after its DIA. */
  ghost function SimStab(stab: map<int, int>, pending: seq<Row>, d: int): map<int, int>
    decreases |pending|
  {
    if |pending| == 0 then stab
    else
      var prev := SimStab(stab, pending[..|pending| - 1], d);
      var r := pending[|pending| - 1];
      if d > r.reception then AddRange(prev, r.reception, d - 1, r.units) else prev
  }

  /** Each member's stabilisation days take it on top of the members before it. */
  ghost predicate StabSimFits(cfg: Settings, stab: map<int, int>, pending: seq<Row>, d: int)
    decreases |pending|
  {
    if |pending| == 0 then true
    else
      var prefix := pending[..|pending| - 1];
      var r := pending[|pending| - 1];
      && StabSimFits(cfg, stab, prefix, d)
      && (d > r.reception ==> StabRangeFits(cfg, SimStab(stab, prefix, d), r.reception, d - 1, r.units))
  }

  /** `add_salida` and the exit date of each member: each exit is fixed by the
      rule reading the exit ledger plus what the members before it set aside. */
  function SimExits(cfg: Settings, exit: map<int, int>, pending: seq<Row>, d: int): (res: (map<int, int>, seq<int>))
    ensures |res.1| == |pending|
    ensures forall s :: s in res.0 <==> s in res.1
    decreases |pending|
  {
    if |pending| == 0 then (map[], [])
    else
      var prev := SimExits(cfg, exit, pending[..|pending| - 1], d);
      var r := pending[|pending| - 1];
      var s := ExitDate(cfg, d, r.optimalDwell, exit, prev.0);
      (AddAt(prev.0, s, r.units), prev.1 + [s])
  }

  /** The pass over one more member sets its units aside on the exit date it gives it. */
  lemma SimExitsLast(cfg: Settings, exit: map<int, int>, pending: seq<Row>, d: int)
    requires |pending| > 0
    ensures var n := |pending| - 1;
            var sim := SimExits(cfg, exit, pending, d);
            var prev := SimExits(cfg, exit, pending[..n], d);
            && sim.1 == prev.1 + [sim.1[n]]
            && sim.0 == AddAt(prev.0, sim.1[n], pending[n].units)
  {
  }

  /** Every exit date of the pass takes what the pass sets aside on it. */
  predicate ExitsFit(cfg: Settings, exit: map<int, int>, add: map<int, int>, tier: Tier) {
    forall s :: s in add ==> Get(exit, s) + add[s] <= ExitCap(cfg, s, tier)
  }

  /** `_es_factible_entrada_comun(d, attempt)`. */
  ghost predicate GroupFits(cfg: Settings, loads: Loads, pending: seq<Row>, d: int, tier: Tier) {
    && Get(loads.entry, d) + GroupUnits(pending) <= EntryCap(cfg, d, tier)
    && StabSimFits(cfg, loads.stab, pending, d)
    && ExitsFit(cfg, loads.exit, SimExits(cfg, loads.exit, pending, d).0, tier)
  }

  lemma StabSimFitsPrefix(cfg: Settings, stab: map<int, int>, pending: seq<Row>, d: int, k: nat)
    requires k <= |pending|
    requires StabSimFits(cfg, stab, pending, d)
    ensures StabSimFits(cfg, stab, pending[..k], d)
    decreases |pending| - k
  {
    if k < |pending| {
      assert pending[..|pending| - 1][..k] == pending[..k];
      StabSimFitsPrefix(cfg, stab, pending[..|pending| - 1], d, k);
    } else {
      assert pending[..k] == pending;
    }
  }

  /** One member's stabilisation step as the source runs it: day by day, stop at
      the first day that would overflow, otherwise add the units to that day. */
  method StepStab(cfg: Settings, sim: map<int, int>, lo: int, hi: int, u: int) returns (ok: bool, next: map<int, int>)
    ensures ok <==> StabRangeFits(cfg, sim, lo, hi, u)
    ensures ok ==> forall x :: Get(next, x) == Get(sim, x) + (if lo <= x <= hi then u else 0)
  {
    next := sim;
    var k := lo;
    while k <= hi
      invariant lo <= hi ==> lo <= k <= hi + 1
      invariant hi < lo ==> k == lo
      invariant forall x :: lo <= x < k ==> Get(sim, x) + u <= StabCap(cfg, x)
      invariant forall x :: Get(next, x) == Get(sim, x) + (if lo <= x < k then u else 0)
    {
      if Get(next, k) + u > StabCap(cfg, k) {
        return false, next;
      }
      next := next[k := Get(next, k) + u];
      k := k + 1;
    }
    ok := true;
  }

  /** The stabilisation part of the test: members in order, each against the
      simulation of those before it. */
  method SimulateStab(cfg: Settings, stab: map<int, int>, pending: seq<Row>, d: int) returns (ok: bool)
    ensures ok <==> StabSimFits(cfg, stab, pending, d)
  {
    var sim := stab;
    var k := 0;
    while k < |pending|
      invariant 0 <= k <= |pending|
      invariant StabSimFits(cfg, stab, pending[..k], d)
      invariant forall x :: Get(sim, x) == Get(SimStab(stab, pending[..k], d), x)
    {
      var fits;
      fits, sim := StabMember(cfg, stab, pending, d, k, sim);
      if !fits {
        return false;
      }
      k := k + 1;
    }
    assert pending[..|pending|] == pending;
    ok := true;
  }

  /** Member `k` of the simulation: its stabilisation days against the
      simulation of the members before it. */
  method StabMember(cfg: Settings, stab: map<int, int>, pending: seq<Row>, d: int, k: nat, sim: map<int, int>)
    returns (fits: bool, next: map<int, int>)
    requires k < |pending|
    requires StabSimFits(cfg, stab, pending[..k], d)
    requires forall x :: Get(sim, x) == Get(SimStab(stab, pending[..k], d), x)
    ensures fits ==> StabSimFits(cfg, stab, pending[..k + 1], d)
    ensures fits ==> forall x :: Get(next, x) == Get(SimStab(stab, pending[..k + 1], d), x)
    ensures !fits ==> !StabSimFits(cfg, stab, pending, d)
  {
    var r := pending[k];
    ghost var prev := SimStab(stab, pending[..k], d);
    SimStabStep(cfg, stab, pending, d, k);
    if d > r.reception {
      fits, next := StepStab(cfg, sim, r.reception, d - 1, r.units);
      StabRangeFitsAlike(cfg, sim, prev, r.reception, d - 1, r.units);
      if !fits {
        StabSimFailed(cfg, stab, pending, d, k);
        return;
      }
      SimTracks(sim, next, prev, r.reception, d - 1, r.units);
    } else {
      fits, next := true, sim;
    }
  }

  /** The stabilisation test reads a ledger only through its values. */
  lemma StabRangeFitsAlike(cfg: Settings, a: map<int, int>, b: map<int, int>, lo: int, hi: int, u: int)
    requires forall x :: Get(a, x) == Get(b, x)
    ensures StabRangeFits(cfg, a, lo, hi, u) <==> StabRangeFits(cfg, b, lo, hi, u)
  {
  }

  /** A member whose stabilisation days do not take it fails the whole group. */
  lemma StabSimFailed(cfg: Settings, stab: map<int, int>, pending: seq<Row>, d: int, k: nat)
    requires k < |pending| && d > pending[k].reception
    requires !StabRangeFits(cfg, SimStab(stab, pending[..k], d), pending[k].reception, d - 1, pending[k].units)
    ensures !StabSimFits(cfg, stab, pending, d)
  {
    SimStabStep(cfg, stab, pending, d, k);
    if StabSimFits(cfg, stab, pending, d) {
      StabSimFitsPrefix(cfg, stab, pending, d, k + 1);
    }
  }

  /** The day-by-day step adds what `AddRange` adds. */
  lemma SimTracks(before: map<int, int>, after: map<int, int>, prev: map<int, int>, lo: int, hi: int, u: int)
    requires forall x :: Get(before, x) == Get(prev, x)
    requires forall x :: Get(after, x) == Get(before, x) + (if lo <= x <= hi then u else 0)
    ensures forall x :: Get(after, x) == Get(AddRange(prev, lo, hi, u), x)
  {
  }

  /** The `add_salida` loop. */
  method SimulateExits(cfg: Settings, exit: map<int, int>, pending: seq<Row>, d: int) returns (add: map<int, int>, dates: seq<int>)
    ensures (add, dates) == SimExits(cfg, exit, pending, d)
  {
    add := map[];
    dates := [];
    var k := 0;
    while k < |pending|
      invariant 0 <= k <= |pending|
      invariant (add, dates) == SimExits(cfg, exit, pending[..k], d)
    {
      var r := pending[k];
      SimExitsStep(cfg, exit, pending, d, k);
      var s := ExitDate(cfg, d, r.optimalDwell, exit, add);
      add := AddAt(add, s, r.units);
      dates := dates + [s];
      k := k + 1;
    }
    assert pending[..|pending|] == pending;
  }

  /** `for sfecha, suma_unds in add_salida.items()`: the keys of `add_salida`
      are exactly the members' exit dates, visited here through those dates. */
  method CheckExits(cfg: Settings, exit: map<int, int>, add: map<int, int>, dates: seq<int>, tier: Tier) returns (ok: bool)
    requires forall s :: s in add <==> s in dates
    ensures ok <==> ExitsFit(cfg, exit, add, tier)
  {
    var k := 0;
    while k < |dates|
      invariant 0 <= k <= |dates|
      invariant forall j :: 0 <= j < k ==> Get(exit, dates[j]) + add[dates[j]] <= ExitCap(cfg, dates[j], tier)
    {
      if Get(exit, dates[k]) + add[dates[k]] > ExitCap(cfg, dates[k], tier) {
        return false;
      }
      k := k + 1;
    }
    ok := true;
  }

  /** The whole feasibility test: the day's entry total, the stabilisation
      simulation member by member, then every exit date of the pass. */
  method GroupFeasible(cfg: Settings, loads: Loads, pending: seq<Row>, d: int, tier: Tier) returns (ok: bool)
    ensures ok <==> GroupFits(cfg, loads, pending, d, tier)
  {
    if Get(loads.entry, d) + GroupUnits(pending) > EntryCap(cfg, d, tier) {
      return false;
    }
    ok := SimulateStab(cfg, loads.stab, pending, d);
    if !ok {
      return;
    }
    var add, dates := SimulateExits(cfg, loads.exit, pending, d);
    ok := CheckExits(cfg, loads.exit, add, dates, tier);
  }

  /** The candidate list is the preferred date (when it lies in the common range)
      followed by the business days of the range in ascending order. */
  predicate PreferredIn(pref: Option<int>, start: int, limit: int) {
    pref.Some? && start <= pref.value <= limit
  }

  method GroupCandidates(holidays: set<int>, pref: Option<int>, start: int, limit: int) returns (cands: seq<int>)
    ensures PreferredIn(pref, start, limit) ==> |cands| > 0 && cands[0] == pref.value
    ensures forall x :: x in cands <==> (PreferredIn(pref, start, limit) && x == pref.value)
                                        || (IsBusinessDay(holidays, x) && start <= x <= limit)
    ensures forall i, j :: 0 <= i < j < |cands| ==> cands[i] != cands[j]
    ensures forall i, j :: (if PreferredIn(pref, start, limit) then 1 else 0) <= i < j < |cands| ==> cands[i] < cands[j]
  {
    var first := if PreferredIn(pref, start, limit) then 1 else 0;
    cands := if PreferredIn(pref, start, limit) then [pref.value] else [];
    var d := start;
    if !IsBusinessDay(holidays, d) {
      d := FindNextBusinessDay(holidays, d);
    }
    while d <= limit
      invariant start <= d && IsBusinessDay(holidays, d)
      invariant first <= |cands|
      invariant PreferredIn(pref, start, limit) ==> cands[0] == pref.value
      invariant forall x :: x in cands <==> (PreferredIn(pref, start, limit) && x == pref.value)
                                            || (IsBusinessDay(holidays, x) && start <= x < d)
      invariant forall i, j :: 0 <= i < j < |cands| ==> cands[i] != cands[j]
      invariant forall i :: first <= i < |cands| ==> cands[i] < d
      invariant forall x :: start <= x < d && IsBusinessDay(holidays, x) ==> x <= limit
      invariant forall i, j :: first <= i < j < |cands| ==> cands[i] < cands[j]
      decreases limit - d
    {
      if d !in cands {
        cands := cands + [d];
      }
      d := FindNextBusinessDay(holidays, d);
    }
  }

  /** A date the rule may try: the preferred date when it lies in the common
      range, or a business day of the range. */
  predicate IsGroupCandidate(holidays: set<int>, pref: Option<int>, start: int, limit: int, x: int) {
    (PreferredIn(pref, start, limit) && x == pref.value) || (IsBusinessDay(holidays, x) && start <= x <= limit)
  }

  /** The outcome for a group that fits: the attempt tier and the common entry date. */
  datatype GroupChoice = GroupChoice(tier: Tier, entry: int)

  /** `for d in candidatos: if _es_factible_entrada_comun(d, attempt): break`. */
  method FirstFeasible(cfg: Settings, loads: Loads, pending: seq<Row>, cands: seq<int>, tier: Tier) returns (k: Option<nat>)
    ensures k.Some? ==> k.value < |cands| && GroupFits(cfg, loads, pending, cands[k.value], tier)
    ensures k.Some? ==> forall j :: 0 <= j < k.value ==> !GroupFits(cfg, loads, pending, cands[j], tier)
    ensures k.None? ==> forall j :: 0 <= j < |cands| ==> !GroupFits(cfg, loads, pending, cands[j], tier)
  {
    var j := 0;
    while j < |cands|
      invariant 0 <= j <= |cands|
      invariant forall i :: 0 <= i < j ==> !GroupFits(cfg, loads, pending, cands[i], tier)
    {
      var ok := GroupFeasible(cfg, loads, pending, cands[j], tier);
      if ok {
        return Some(j);
      }
      j := j + 1;
    }
    return None;
  }

  /** The first fitting candidate in the list's order is the preferred date when
      that one fits, and otherwise the earliest fitting business day of the range. */
  lemma FirstFittingCandidate(cfg: Settings, loads: Loads, pending: seq<Row>, pref: Option<int>, start: int, limit: int,
                              cands: seq<int>, tier: Tier, k: nat)
    requires PreferredIn(pref, start, limit) ==> |cands| > 0 && cands[0] == pref.value
    requires forall x :: x in cands <==> IsGroupCandidate(cfg.holidays, pref, start, limit, x)
    requires forall i, j :: (if PreferredIn(pref, start, limit) then 1 else 0) <= i < j < |cands| ==> cands[i] < cands[j]
    requires k < |cands| && GroupFits(cfg, loads, pending, cands[k], tier)
    requires forall j :: 0 <= j < k ==> !GroupFits(cfg, loads, pending, cands[j], tier)
    ensures IsGroupCandidate(cfg.holidays, pref, start, limit, cands[k])
    ensures PreferredIn(pref, start, limit) && GroupFits(cfg, loads, pending, pref.value, tier) ==> cands[k] == pref.value
    ensures !(PreferredIn(pref, start, limit) && GroupFits(cfg, loads, pending, pref.value, tier)) ==>
              forall x :: IsBusinessDay(cfg.holidays, x) && start <= x <= limit && GroupFits(cfg, loads, pending, x, tier) ==> cands[k] <= x
  {
    assert cands[k] in cands;
    var prefFits := PreferredIn(pref, start, limit) && GroupFits(cfg, loads, pending, pref.value, tier);
    if prefFits {
      assert k == 0;
    } else {
      forall x | IsBusinessDay(cfg.holidays, x) && start <= x <= limit && GroupFits(cfg, loads, pending, x, tier)
        ensures cands[k] <= x
      {
        assert x in cands;
        var j :| 0 <= j < |cands| && cands[j] == x;
        assert k <= j;
      }
    }
  }

  /** What the tiered choice promises: a candidate that fits at its tier, the
      preferred date when it fits, otherwise the earliest fitting date, and
      tier 2 only when no candidate fits at tier 1. */
  ghost predicate IsGroupChoice(cfg: Settings, loads: Loads, pending: seq<Row>, pref: Option<int>, start: int, limit: int,
                                c: GroupChoice) {
    var h := cfg.holidays;
    && IsGroupCandidate(h, pref, start, limit, c.entry)
    && GroupFits(cfg, loads, pending, c.entry, c.tier)
    && (PreferredIn(pref, start, limit) && GroupFits(cfg, loads, pending, pref.value, c.tier) ==> c.entry == pref.value)
    && (!(PreferredIn(pref, start, limit) && GroupFits(cfg, loads, pending, pref.value, c.tier)) ==>
          forall x :: IsBusinessDay(h, x) && start <= x <= limit && GroupFits(cfg, loads, pending, x, c.tier) ==> c.entry <= x)
    && (c.tier == Tier2 ==> forall x :: IsGroupCandidate(h, pref, start, limit, x) ==> !GroupFits(cfg, loads, pending, x, Tier1))
  }

  /** `for attempt in [1, 2]`: build the candidate list, take its first fitting date. */
  method ChooseGroupEntry(cfg: Settings, loads: Loads, pending: seq<Row>, pref: Option<int>, start: int, limit: int)
    returns (choice: Option<GroupChoice>)
    ensures choice.Some? ==> IsGroupChoice(cfg, loads, pending, pref, start, limit, choice.value)
    ensures choice.None? <==> forall x, t :: IsGroupCandidate(cfg.holidays, pref, start, limit, x) ==> !GroupFits(cfg, loads, pending, x, t)
  {
    var first := GroupCandidates(cfg.holidays, pref, start, limit);
    var k1 := FirstFeasible(cfg, loads, pending, first, Tier1);
    if k1.Some? {
      FirstFittingCandidate(cfg, loads, pending, pref, start, limit, first, Tier1, k1.value);
      return Some(GroupChoice(Tier1, first[k1.value]));
    }
    assert forall x :: IsGroupCandidate(cfg.holidays, pref, start, limit, x) ==> !GroupFits(cfg, loads, pending, x, Tier1) by {
      forall x | IsGroupCandidate(cfg.holidays, pref, start, limit, x)
        ensures !GroupFits(cfg, loads, pending, x, Tier1)
      {
        assert x in first;
      }
    }
    var second := GroupCandidates(cfg.holidays, pref, start, limit);
    var k2 := FirstFeasible(cfg, loads, pending, second, Tier2);
    if k2.Some? {
      FirstFittingCandidate(cfg, loads, pending, pref, start, limit, second, Tier2, k2.value);
      return Some(GroupChoice(Tier2, second[k2.value]));
    }
    forall x, t | IsGroupCandidate(cfg.holidays, pref, start, limit, x)
      ensures !GroupFits(cfg, loads, pending, x, t)
    {
      assert x in second;
    }
    return None;
  }

  lemma SimExitsPrefix(cfg: Settings, exit: map<int, int>, pending: seq<Row>, d: int, k: nat)
    requires k <= |pending|
    ensures SimExits(cfg, exit, pending[..k], d).1 == SimExits(cfg, exit, pending, d).1[..k]
    decreases |pending| - k
  {
    if k < |pending| {
      assert pending[..|pending| - 1][..k] == pending[..k];
      SimExitsPrefix(cfg, exit, pending[..|pending| - 1], d, k);
    } else {
      assert pending[..k] == pending;
    }
  }

  /** The rows after committing the group on `d`: each member placed on `d`
      with the exit the simulation gave it, every other row as it was. */
  ghost predicate RowsPlaced(cfg: Settings, loads: Loads, rows: seq<Row>, ms: seq<nat>, d: int, out: seq<Row>)
    requires ValidIndices(ms, |rows|)
  {
    var sim := SimExits(cfg, loads.exit, Pick(rows, ms), d);
    && |out| == |rows|
    && (forall k :: 0 <= k < |ms| ==> out[ms[k]] == Placed(rows[ms[k]], d, sim.1[k]))
    && (forall i :: 0 <= i < |rows| && i !in ms ==> out[i] == rows[i])
  }

  /** The entry ledger moved by the group's units on `d`. */
  ghost predicate EntryMoved(loads: Loads, pending: seq<Row>, d: int, next: Loads) {
    forall x :: Get(next.entry, x) == Get(loads.entry, x) + (if x == d then GroupUnits(pending) else 0)
  }

  /** The exit ledger moved by what the simulation set aside. */
  ghost predicate ExitMoved(cfg: Settings, loads: Loads, pending: seq<Row>, d: int, next: Loads) {
    forall x :: Get(next.exit, x) == Get(loads.exit, x) + Get(SimExits(cfg, loads.exit, pending, d).0, x)
  }

  /** The stabilisation ledger is the one the simulation built. */
  ghost predicate StabMoved(loads: Loads, pending: seq<Row>, d: int, next: Loads) {
    forall x :: Get(next.stab, x) == Get(SimStab(loads.stab, pending, d), x)
  }

  /** The state after committing the group on `d`: the rows placed, and each
      ledger moved by exactly the group's share. */
  ghost predicate GroupCommitted(cfg: Settings, loads: Loads, rows: seq<Row>, ms: seq<nat>, d: int, next: Loads, out: seq<Row>)
    requires ValidIndices(ms, |rows|)
  {
    && RowsPlaced(cfg, loads, rows, ms, d, out)
    && EntryMoved(loads, Pick(rows, ms), d, next)
    && ExitMoved(cfg, loads, Pick(rows, ms), d, next)
    && StabMoved(loads, Pick(rows, ms), d, next)
  }

  /** The ledgers after the first `k` members have been committed on `d`. */
  ghost predicate EntryAfter(loads: Loads, pending: seq<Row>, d: int, k: nat, next: Loads)
    requires k <= |pending|
  {
    EntryMoved(loads, pending[..k], d, next)
  }

  ghost predicate ExitAfter(cfg: Settings, loads: Loads, pending: seq<Row>, d: int, k: nat, next: Loads)
    requires k <= |pending|
  {
    ExitMoved(cfg, loads, pending[..k], d, next)
  }

  ghost predicate StabAfter(loads: Loads, pending: seq<Row>, d: int, k: nat, next: Loads)
    requires k <= |pending|
  {
    StabMoved(loads, pending[..k], d, next)
  }

  /** Member `k`, committed against the ledger as it stands after the members
      before it, gets the exit the simulation gave it. */
  lemma CommitExitAgrees(cfg: Settings, loads: Loads, pending: seq<Row>, d: int, k: nat, before: Loads)
    requires k < |pending|
    requires forall x :: Get(before.exit, x) == Get(loads.exit, x) + Get(SimExits(cfg, loads.exit, pending[..k], d).0, x)
    ensures LotExit(cfg, before, pending[k], d) == SimExits(cfg, loads.exit, pending, d).1[k]
  {
    var prev := SimExits(cfg, loads.exit, pending[..k], d);
    ExitAgainstPending(cfg, d, pending[k].optimalDwell, before.exit, loads.exit, prev.0);
    SimExitAt(cfg, loads.exit, pending, d, k);
  }

  /** An exit computed against a ledger that already holds what was set aside
      is the exit computed against the ledger plus what was set aside. */
  lemma ExitAgainstPending(cfg: Settings, entry: int, dwell: int, committed: map<int, int>, exit: map<int, int>,
                           add: map<int, int>)
    requires forall x :: Get(committed, x) == Get(exit, x) + Get(add, x)
    ensures ExitDate(cfg, entry, dwell, committed, map[]) == ExitDate(cfg, entry, dwell, exit, add)
  {
    forall x
      ensures CombinedLoad(committed, map[], x) == CombinedLoad(exit, add, x)
    {
    }
    ExitDateReadsCombinedLoad(cfg, entry, dwell, committed, map[], exit, add);
  }

  /** Member `k`'s exit in the pass, against what the members before it set aside. */
  lemma SimExitAt(cfg: Settings, exit: map<int, int>, pending: seq<Row>, d: int, k: nat)
    requires k < |pending|
    ensures SimExits(cfg, exit, pending, d).1[k]
         == ExitDate(cfg, d, pending[k].optimalDwell, exit, SimExits(cfg, exit, pending[..k], d).0)
  {
    var prev := SimExits(cfg, exit, pending[..k], d);
    var all := SimExits(cfg, exit, pending, d).1;
    SimExitsStep(cfg, exit, pending, d, k);
    SimExitsPrefix(cfg, exit, pending, d, k + 1);
    assert all[k] == all[..k + 1][k];
  }

  /** The simulation over one more member sets its units aside on the exit date
      the rule gives it against what the members before it set aside. */
  lemma SimExitsStep(cfg: Settings, exit: map<int, int>, pending: seq<Row>, d: int, k: nat)
    requires k < |pending|
    ensures var prev := SimExits(cfg, exit, pending[..k], d);
            var e := ExitDate(cfg, d, pending[k].optimalDwell, exit, prev.0);
            SimExits(cfg, exit, pending[..k + 1], d) == (AddAt(prev.0, e, pending[k].units), prev.1 + [e])
  {
    assert pending[..k + 1][..k] == pending[..k];
    assert pending[..k + 1][k] == pending[k];
  }

  /** The stabilisation simulation over one more member. */
  lemma SimStabStep(cfg: Settings, stab: map<int, int>, pending: seq<Row>, d: int, k: nat)
    requires k < |pending|
    ensures var prev := SimStab(stab, pending[..k], d);
            var r := pending[k];
            && SimStab(stab, pending[..k + 1], d) == (if d > r.reception then AddRange(prev, r.reception, d - 1, r.units) else prev)
            && (StabSimFits(cfg, stab, pending[..k + 1], d) <==>
                  StabSimFits(cfg, stab, pending[..k], d)
                  && (d > r.reception ==> StabRangeFits(cfg, prev, r.reception, d - 1, r.units)))
  {
    assert pending[..k + 1][..k] == pending[..k];
    assert pending[..k + 1][k] == pending[k];
  }

  /** Committing member `k` on `d` with exit `s` extends the group's share of
      each ledger by that member. */
  lemma EntryStep(loads: Loads, pending: seq<Row>, d: int, k: nat, before: Loads, s: int)
    requires k < |pending|
    requires EntryAfter(loads, pending, d, k, before)
    ensures EntryAfter(loads, pending, d, k + 1, Committed(before, pending[k], d, s))
  {
    var r := pending[k];
    assert pending[..k + 1][..k] == pending[..k];
    var next := Committed(before, r, d, s);
    assert GroupUnits(pending[..k + 1]) == GroupUnits(pending[..k]) + r.units;
    forall x
      ensures Get(next.entry, x) == Get(loads.entry, x) + (if x == d then GroupUnits(pending[..k + 1]) else 0)
    {
      CommittedPointwise(before, r, d, s, x);
    }
  }

  lemma ExitStep(cfg: Settings, loads: Loads, pending: seq<Row>, d: int, k: nat, before: Loads, s: int)
    requires k < |pending|
    requires ExitAfter(cfg, loads, pending, d, k, before)
    requires s == SimExits(cfg, loads.exit, pending[..k + 1], d).1[k]
    ensures ExitAfter(cfg, loads, pending, d, k + 1, Committed(before, pending[k], d, s))
  {
    var r := pending[k];
    assert pending[..k + 1][..k] == pending[..k];
    var next := Committed(before, r, d, s);
    var add := SimExits(cfg, loads.exit, pending[..k], d).0;
    assert SimExits(cfg, loads.exit, pending[..k + 1], d).0 == AddAt(add, s, r.units);
    forall x
      ensures Get(next.exit, x) == Get(loads.exit, x) + Get(SimExits(cfg, loads.exit, pending[..k + 1], d).0, x)
    {
      CommittedPointwise(before, r, d, s, x);
    }
  }

  lemma StabStep(loads: Loads, pending: seq<Row>, d: int, k: nat, before: Loads, s: int)
    requires k < |pending|
    requires StabAfter(loads, pending, d, k, before)
    ensures StabAfter(loads, pending, d, k + 1, Committed(before, pending[k], d, s))
  {
    var r := pending[k];
    assert pending[..k + 1][..k] == pending[..k];
    var next := Committed(before, r, d, s);
    var prevSim := SimStab(loads.stab, pending[..k], d);
    assert SimStab(loads.stab, pending[..k + 1], d) == if d > r.reception then AddRange(prevSim, r.reception, d - 1, r.units) else prevSim;
    forall x
      ensures Get(next.stab, x) == Get(SimStab(loads.stab, pending[..k + 1], d), x)
    {
      CommittedPointwise(before, r, d, s, x);
    }
  }

  /** The first `k` members are placed on `d`, each with its exit. */
  ghost predicate PlacedUpTo(rows: seq<Row>, out: seq<Row>, ms: seq<nat>, k: nat, d: int, exits: seq<int>)
    requires k <= |ms| && k <= |exits| && |out| == |rows| && ValidIndices(ms, |rows|)
  {
    forall j :: 0 <= j < k ==> out[ms[j]] == Placed(rows[ms[j]], d, exits[j])
  }

  lemma PlacedStep(rows: seq<Row>, out: seq<Row>, ms: seq<nat>, k: nat, d: int, exits: seq<int>)
    requires k < |ms| && k < |exits| && |out| == |rows| && ValidIndices(ms, |rows|) && Increasing(ms)
    requires PlacedUpTo(rows, out, ms, k, d, exits)
    ensures PlacedUpTo(rows, out[ms[k] := Placed(rows[ms[k]], d, exits[k])], ms, k + 1, d, exits)
  {
  }

  /** Rows outside the first `k` members are as they were. */
  ghost predicate UntouchedBeyond(rows: seq<Row>, out: seq<Row>, ms: seq<nat>, k: nat)
    requires k <= |ms| && |out| == |rows|
  {
    forall i :: 0 <= i < |rows| && i !in ms[..k] ==> out[i] == rows[i]
  }

  lemma UntouchedStep(rows: seq<Row>, out: seq<Row>, ms: seq<nat>, k: nat, r: Row)
    requires k < |ms| && |out| == |rows| && ms[k] < |rows|
    requires UntouchedBeyond(rows, out, ms, k)
    ensures UntouchedBeyond(rows, out[ms[k] := r], ms, k + 1)
  {
    assert ms[..k + 1] == ms[..k] + [ms[k]];
  }

  /** The commit loop after its first `k` members. */
  ghost predicate CommitProgress(cfg: Settings, loads: Loads, rows: seq<Row>, ms: seq<nat>, d: int, k: nat,
                                 next: Loads, out: seq<Row>)
    requires ValidIndices(ms, |rows|) && k <= |ms|
  {
    var pending := Pick(rows, ms);
    && |out| == |rows|
    && PlacedUpTo(rows, out, ms, k, d, SimExits(cfg, loads.exit, pending, d).1)
    && UntouchedBeyond(rows, out, ms, k)
    && EntryAfter(loads, pending, d, k, next)
    && ExitAfter(cfg, loads, pending, d, k, next)
    && StabAfter(loads, pending, d, k, next)
  }

  lemma CommitStart(cfg: Settings, loads: Loads, rows: seq<Row>, ms: seq<nat>, d: int)
    requires ValidIndices(ms, |rows|)
    ensures CommitProgress(cfg, loads, rows, ms, d, 0, loads, rows)
  {
    var pending := Pick(rows, ms);
    assert pending[..0] == [];
    assert GroupUnits(pending[..0]) == 0;
    assert SimExits(cfg, loads.exit, pending[..0], d).0 == map[];
    assert SimStab(loads.stab, pending[..0], d) == loads.stab;
  }

  /** Member `k` committed on `d` with the exit the ledger now gives it. */
  lemma CommitStep(cfg: Settings, loads: Loads, rows: seq<Row>, ms: seq<nat>, d: int, k: nat, next: Loads, out: seq<Row>)
    requires ValidIndices(ms, |rows|) && Increasing(ms) && k < |ms|
    requires CommitProgress(cfg, loads, rows, ms, d, k, next, out)
    ensures var r := Pick(rows, ms)[k];
            var s := LotExit(cfg, next, r, d);
            CommitProgress(cfg, loads, rows, ms, d, k + 1, Committed(next, r, d, s), out[ms[k] := Placed(r, d, s)])
  {
    var pending := Pick(rows, ms);
    var sim := SimExits(cfg, loads.exit, pending, d);
    var r := pending[k];
    var s := LotExit(cfg, next, r, d);
    CommitExitAgrees(cfg, loads, pending, d, k, next);
    SimExitsPrefix(cfg, loads.exit, pending, d, k + 1);
    EntryStep(loads, pending, d, k, next, s);
    ExitStep(cfg, loads, pending, d, k, next, s);
    StabStep(loads, pending, d, k, next, s);
    UntouchedStep(rows, out, ms, k, Placed(r, d, s));
    PlacedStep(rows, out, ms, k, d, sim.1);
  }

  lemma CommitDone(cfg: Settings, loads: Loads, rows: seq<Row>, ms: seq<nat>, d: int, next: Loads, out: seq<Row>)
    requires ValidIndices(ms, |rows|)
    requires CommitProgress(cfg, loads, rows, ms, d, |ms|, next, out)
    ensures GroupCommitted(cfg, loads, rows, ms, d, next, out)
  {
    var pending := Pick(rows, ms);
    assert pending[..|ms|] == pending;
    assert ms[..|ms|] == ms;
  }

  /** The commit loop: each member on `d`, its exit recomputed against the exit
      ledger as it now stands, the three ledgers updated as for a single lot. */
  method CommitGroup(cfg: Settings, loads: Loads, rows: seq<Row>, ms: seq<nat>, d: int) returns (next: Loads, out: seq<Row>)
    requires ValidIndices(ms, |rows|) && Increasing(ms)
    ensures GroupCommitted(cfg, loads, rows, ms, d, next, out)
  {
    var pending := Pick(rows, ms);
    next := loads;
    out := rows;
    CommitStart(cfg, loads, rows, ms, d);
    var k := 0;
    while k < |ms|
      invariant 0 <= k <= |ms|
      invariant CommitProgress(cfg, loads, rows, ms, d, k, next, out)
    {
      var r := pending[k];
      var s := LotExit(cfg, next, r, d);
      CommitStep(cfg, loads, rows, ms, d, k, next, out);
      next := CommitLot(next, r, d, s);
      out := out[ms[k] := Placed(r, d, s)];
      k := k + 1;
    }
    CommitDone(cfg, loads, rows, ms, d, next, out);
  }

  /** A day some member occupies in the stabilisation chamber when the group enters on `d`. */
  predicate Touched(pending: seq<Row>, d: int, x: int) {
    exists k :: 0 <= k < |pending| && pending[k].reception <= x < d
  }

  /** The sequential simulation keeps every day the group touches within its
      stabilisation capacity, and leaves every other day as it was. */
  lemma {:induction false} SimStabWithinCapacity(cfg: Settings, stab: map<int, int>, pending: seq<Row>, d: int, x: int)
    requires StabSimFits(cfg, stab, pending, d)
    ensures Touched(pending, d, x) ==> Get(SimStab(stab, pending, d), x) <= StabCap(cfg, x)
    ensures !Touched(pending, d, x) ==> Get(SimStab(stab, pending, d), x) == Get(stab, x)
    decreases |pending|
  {
    if |pending| > 0 {
      var n := |pending| - 1;
      var prefix := pending[..n];
      var r := pending[n];
      SimStabStep(cfg, stab, pending, d, n);
      assert pending[..n + 1] == pending;
      SimStabWithinCapacity(cfg, stab, prefix, d, x);
      TouchedLast(pending, d, x);
    }
  }

  /** A day is touched by the group when it is touched by all members but the
      last, or by the last one. */
  lemma TouchedLast(pending: seq<Row>, d: int, x: int)
    requires |pending| > 0
    ensures var n := |pending| - 1;
            Touched(pending, d, x) <==> Touched(pending[..n], d, x) || pending[n].reception <= x < d
  {
    var n := |pending| - 1;
    var prefix := pending[..n];
    if Touched(pending, d, x) && !(pending[n].reception <= x < d) {
      var k :| 0 <= k < |pending| && pending[k].reception <= x < d;
      assert prefix[k] == pending[k];
    }
    if Touched(prefix, d, x) {
      var k :| 0 <= k < |prefix| && prefix[k].reception <= x < d;
      assert pending[k] == prefix[k];
    }
  }

  /** A group committed on a date that fits at tier `tier` leaves the entry day,
      every exit day and every stabilisation day it touches within capacity. */
  lemma GroupCommitRespectsCapacity(cfg: Settings, loads: Loads, rows: seq<Row>, ms: seq<nat>, d: int, tier: Tier,
                                    next: Loads, out: seq<Row>)
    requires ValidIndices(ms, |rows|)
    requires GroupFits(cfg, loads, Pick(rows, ms), d, tier)
    requires GroupCommitted(cfg, loads, rows, ms, d, next, out)
    ensures Get(next.entry, d) <= EntryCap(cfg, d, tier)
    ensures forall k :: 0 <= k < |ms| ==> Get(next.exit, out[ms[k]].exit.value) <= ExitCap(cfg, out[ms[k]].exit.value, tier)
    ensures forall x :: Touched(Pick(rows, ms), d, x) ==> Get(next.stab, x) <= StabCap(cfg, x)
  {
    var pending := Pick(rows, ms);
    var sim := SimExits(cfg, loads.exit, pending, d);
    forall k | 0 <= k < |ms|
      ensures Get(next.exit, out[ms[k]].exit.value) <= ExitCap(cfg, out[ms[k]].exit.value, tier)
    {
      assert sim.1[k] in sim.1;
    }
    forall x | Touched(pending, d, x)
      ensures Get(next.stab, x) <= StabCap(cfg, x)
    {
      SimStabWithinCapacity(cfg, loads.stab, pending, d, x);
    }
  }

  /** `LOTE_NO_ENCAJA = "Sí"` on every member. */
  function MarkFailed(rows: seq<Row>, ms: seq<nat>): (out: seq<Row>)
    ensures |out| == |rows|
    ensures forall i :: 0 <= i < |rows| ==> out[i] == if i in ms then rows[i].(fits := DoesNotFit) else rows[i]
  {
    seq(|rows|, i requires 0 <= i < |rows| => if i in ms then rows[i].(fits := DoesNotFit) else rows[i])
  }

  lemma EmptyRangeHasNoCandidate(holidays: set<int>, pref: Option<int>, start: int, limit: int)
    requires start > limit
    ensures forall x :: !IsGroupCandidate(holidays, pref, start, limit, x)
  {
  }

  /** What one application of a group rule leaves: on success every pending
      member on the chosen common date and the ledgers moved by the group's
      share; on failure the ledgers as they were, the members marked when asked,
      and no candidate date of the common window fitting at either tier. */
  ghost predicate GroupOutcome(cfg: Settings, loads: Loads, rows: seq<Row>, codes: set<string>, markOnFail: bool,
                               choice: Option<GroupChoice>, next: Loads, out: seq<Row>) {
    var ms := Members(rows, codes);
    var pending := Pick(rows, ms);
    && (choice.Some? ==>
          && |ms| > 0
          && IsGroupChoice(cfg, loads, pending, PreferredEntry(rows, codes),
                           CommonStart(cfg, pending), CommonLimit(cfg, pending), choice.value)
          && GroupCommitted(cfg, loads, rows, ms, choice.value.entry, next, out))
    && (choice.None? ==>
          && next == loads
          && out == (if markOnFail then MarkFailed(rows, ms) else rows)
          && (|ms| > 0 ==>
                forall x, t :: IsGroupCandidate(cfg.holidays, PreferredEntry(rows, codes),
                                               CommonStart(cfg, pending), CommonLimit(cfg, pending), x)
                               ==> !GroupFits(cfg, loads, pending, x, t)))
  }

  /** `_aplicar_entrada_comun_para_grupo(codigos, marcar_si_falla)`: all pending
      members on one common date, or none of them and the ledgers untouched. */
  method ApplyGroup(cfg: Settings, loads: Loads, rows: seq<Row>, codes: set<string>, markOnFail: bool)
    returns (choice: Option<GroupChoice>, next: Loads, out: seq<Row>)
    ensures GroupOutcome(cfg, loads, rows, codes, markOnFail, choice, next, out)
  {
    var ms := Members(rows, codes);
    next := loads;
    out := rows;
    if |ms| == 0 {
      assert MarkFailed(rows, ms) == rows;
      return None, next, out;
    }
    var pending := Pick(rows, ms);
    var pref := PreferredEntry(rows, codes);
    var start := CommonStart(cfg, pending);
    var limit := CommonLimit(cfg, pending);
    if start > limit {
      EmptyRangeHasNoCandidate(cfg.holidays, pref, start, limit);
      if markOnFail {
        out := MarkFailed(rows, ms);
      }
      return None, next, out;
    }
    choice := ChooseGroupEntry(cfg, loads, pending, pref, start, limit);
    if choice.Some? {
      next, out := CommitGroup(cfg, loads, rows, ms, choice.value.entry);
    } else if markOnFail {
      out := MarkFailed(rows, ms);
    }
  }
}
