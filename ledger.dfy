/** Per-date ledgers (`carga_entrada`, `carga_salida`, `estab_stock`): maps from
    a date to the units committed on it. A date missing from the map holds 0. */
module Ledger {
  import opened Capacity

  /** `dic.get(d, 0)`. */
  function Get(m: map<int, int>, d: int): int {
    if d in m then m[d] else 0
  }

  /** `dic[d] = dic.get(d, 0) + u`: only date `d` changes, by `u`. */
  function AddAt(m: map<int, int>, d: int, u: int): (r: map<int, int>)
    ensures Get(r, d) == Get(m, d) + u
    ensures forall x :: x != d ==> Get(r, x) == Get(m, x)
    ensures r.Keys == m.Keys + {d}
  {
    m[d := Get(m, d) + u]
  }

  ghost predicate Within(lo: int, x: int, hi: int) {
    lo <= x <= hi
  }

  /** The days `lo..hi`, both included (empty when hi < lo). */
  ghost function Span(lo: int, hi: int): set<int> {
    set x | lo <= x <= hi && Within(lo, x, hi)
  }

  /** The ledger after adding `u` to every day of `lo..hi`; nothing else changes. */
  ghost function AddRange(m: map<int, int>, lo: int, hi: int, u: int): (r: map<int, int>)
    ensures forall x :: Get(r, x) == Get(m, x) + (if lo <= x <= hi then u else 0)
    ensures r.Keys == m.Keys + Span(lo, hi)
  {
    map x | x in m.Keys + Span(lo, hi) :: Get(m, x) + (if lo <= x <= hi then u else 0)
  }

  /** An empty range is a no-op. */
  lemma AddEmptyRange(m: map<int, int>, lo: int, hi: int, u: int)
    requires hi < lo
    ensures AddRange(m, lo, hi, u) == m
  {
    assert Span(lo, hi) == {};
    forall x | x in m
      ensures AddRange(m, lo, hi, u)[x] == m[x]
    {
      assert Get(AddRange(m, lo, hi, u), x) == Get(m, x);
    }
  }

  /** `_sumar_en_rango`: add `u` to each day from `lo` to `hi`, one day at a time. */
  method SumInRange(m: map<int, int>, lo: int, hi: int, u: int) returns (r: map<int, int>)
    ensures r == AddRange(m, lo, hi, u)
  {
    r := m;
    var d := lo;
    while d <= hi
      invariant lo <= hi ==> lo <= d <= hi + 1
      invariant hi < lo ==> d == lo
      invariant forall x :: Get(r, x) == Get(m, x) + (if lo <= x < d then u else 0)
      invariant r.Keys == m.Keys + Span(lo, d - 1)
    {
      r := r[d := Get(r, d) + u];
      assert Span(lo, d) == Span(lo, d - 1) + {d};
      d := d + 1;
    }
    assert Span(lo, d - 1) == Span(lo, hi);
    ghost var want := AddRange(m, lo, hi, u);
    assert r.Keys == want.Keys;
    forall x | x in r
      ensures r[x] == want[x]
    {
      assert Get(r, x) == Get(want, x);
    }
  }

  /** Every day of `lo..hi` can take `u` more units of stabilisation. */
  predicate StabRangeFits(cfg: Settings, stab: map<int, int>, lo: int, hi: int, u: int) {
    forall x :: lo <= x <= hi ==> Get(stab, x) + u <= StabCap(cfg, x)
  }

  /** `cabe_en_estab_rango`: true on an empty range, otherwise false at the first
      day whose load plus `u` exceeds that day's capacity. */
  method CheckStabRange(cfg: Settings, stab: map<int, int>, lo: int, hi: int, u: int) returns (ok: bool)
    ensures ok <==> StabRangeFits(cfg, stab, lo, hi, u)
  {
    if hi < lo {
      return true;
    }
    var d := lo;
    while d <= hi
      invariant lo <= d <= hi + 1
      invariant forall x :: lo <= x < d ==> Get(stab, x) + u <= StabCap(cfg, x)
    {
      if Get(stab, d) + u > StabCap(cfg, d) {
        return false;
      }
      d := d + 1;
    }
    return true;
  }

  /** How far day `x` would exceed its stabilisation capacity with `u` more units. */
  function Shortfall(cfg: Settings, stab: map<int, int>, u: int, x: int): int {
    Get(stab, x) + u - StabCap(cfg, x)
  }

  /** The days of `lo..hi` whose load plus `u` exceeds the capacity, in
      ascending order, each with its shortfall. */
  ghost function DeficitList(cfg: Settings, stab: map<int, int>, lo: int, hi: int, u: int): seq<(int, int)>
    decreases hi - lo
  {
    if hi < lo then []
    else DeficitList(cfg, stab, lo, hi - 1, u)
         + (if Shortfall(cfg, stab, u, hi) > 0 then [(hi, Shortfall(cfg, stab, u, hi))] else [])
  }

  /** An entry of the list: a deficient day of `lo..hi` with its shortfall. */
  predicate IsDeficit(cfg: Settings, stab: map<int, int>, lo: int, hi: int, u: int, p: (int, int)) {
    lo <= p.0 <= hi && p.1 == Shortfall(cfg, stab, u, p.0) && p.1 > 0
  }

  /** Every entry of the list is a deficient day of the range with its
      shortfall, and the days ascend. */
  lemma {:induction false} DeficitListSound(cfg: Settings, stab: map<int, int>, lo: int, hi: int, u: int)
    ensures forall k :: 0 <= k < |DeficitList(cfg, stab, lo, hi, u)| ==>
              IsDeficit(cfg, stab, lo, hi, u, DeficitList(cfg, stab, lo, hi, u)[k])
    ensures forall k, j :: 0 <= k < j < |DeficitList(cfg, stab, lo, hi, u)| ==>
              DeficitList(cfg, stab, lo, hi, u)[k].0 < DeficitList(cfg, stab, lo, hi, u)[j].0
    decreases hi - lo
  {
    if hi >= lo {
      DeficitListSound(cfg, stab, lo, hi - 1, u);
      var prev := DeficitList(cfg, stab, lo, hi - 1, u);
      var defs := DeficitList(cfg, stab, lo, hi, u);
      assert forall k :: 0 <= k < |prev| ==> defs[k] == prev[k];
      assert forall k :: 0 <= k < |prev| ==> IsDeficit(cfg, stab, lo, hi - 1, u, prev[k]);
    }
  }

  /** Every deficient day of the range is in the list. */
  lemma {:induction false} DeficitListComplete(cfg: Settings, stab: map<int, int>, lo: int, hi: int, u: int, x: int)
    requires lo <= x <= hi && Shortfall(cfg, stab, u, x) > 0
    ensures (x, Shortfall(cfg, stab, u, x)) in DeficitList(cfg, stab, lo, hi, u)
    decreases hi - lo
  {
    if x < hi {
      DeficitListComplete(cfg, stab, lo, hi - 1, u, x);
    }
  }

  /** The list is empty exactly when the whole range takes the units. */
  lemma DeficitListEmpty(cfg: Settings, stab: map<int, int>, lo: int, hi: int, u: int)
    ensures DeficitList(cfg, stab, lo, hi, u) == [] <==> StabRangeFits(cfg, stab, lo, hi, u)
  {
    var defs := DeficitList(cfg, stab, lo, hi, u);
    if defs == [] {
      forall x | lo <= x <= hi
        ensures Get(stab, x) + u <= StabCap(cfg, x)
      {
        if Shortfall(cfg, stab, u, x) > 0 {
          DeficitListComplete(cfg, stab, lo, hi, u, x);
        }
      }
    } else {
      DeficitListSound(cfg, stab, lo, hi, u);
      assert IsDeficit(cfg, stab, lo, hi, u, defs[0]);
    }
  }

  /** `deficits_estab`: walks the range once, recording each deficient day. */
  method StabDeficits(cfg: Settings, stab: map<int, int>, lo: int, hi: int, u: int) returns (defs: seq<(int, int)>)
    ensures defs == DeficitList(cfg, stab, lo, hi, u)
  {
    defs := [];
    if hi < lo {
      return;
    }
    var d := lo;
    while d <= hi
      invariant lo <= d <= hi + 1
      invariant defs == DeficitList(cfg, stab, lo, d - 1, u)
    {
      var short := Get(stab, d) + u - StabCap(cfg, d);
      if short > 0 {
        defs := defs + [(d, short)];
      }
      d := d + 1;
    }
  }

  /** `max(def_est.values()) if def_est else 0`: the largest shortfall, 0 when none. */
  function MaxAmount(defs: seq<(int, int)>): (m: int)
    ensures defs == [] ==> m == 0
    ensures forall k :: 0 <= k < |defs| ==> defs[k].1 <= m
    ensures defs != [] ==> exists k :: 0 <= k < |defs| && defs[k].1 == m
  {
    if |defs| == 0 then 0
    else if |defs| == 1 then defs[0].1
    else
      var rest := MaxAmount(defs[1..]);
      assert forall k :: 1 <= k < |defs| ==> defs[k] == defs[1..][k - 1];
      if defs[0].1 < rest then rest else defs[0].1
  }
}
