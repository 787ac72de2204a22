/** Planning parameters and the capacity policy: two-tier daily entry and exit
    capacities, each overridable per date and per tier, and a stabilisation
    chamber capacity overridable per date. */
module Capacity {
  import opened Options

  /** The attempt tier: capacities of the first attempt are tried before those of the second. */
  datatype Tier = Tier1 | Tier2

  /** A per-date override row of the entry or exit capacity table (CAP1, CAP2; None where the cell is empty). */
  datatype TierOverride = TierOverride(cap1: Option<int>, cap2: Option<int>)

  /** The engine's parameters. Dates are day numbers (see module Calendar). */
  datatype Settings = Settings(
    entryCap1: int,                         // cap_ent_1
    entryCap2: int,                         // cap_ent_2
    exitCap1: int,                          // cap_sal_1
    exitCap2: int,                          // cap_sal_2
    maxStorageGlobal: int,                  // dias_max_almacen_global
    maxStorageByProduct: map<string, int>,  // dias_max_por_producto
    stabCap: int,                           // estab_cap
    stabOverrides: map<int, Option<int>>,   // estab_cap_overrides
    entryOverrides: map<int, TierOverride>, // cap_overrides_ent
    exitOverrides: map<int, TierOverride>,  // cap_overrides_sal
    holidays: set<int>,                     // dias_festivos
    adjustWeekends: bool,                   // ajuste_finde
    adjustHolidays: bool                    // ajuste_festivos
  )

  /** The capacity of one tier on date `d`: the override when one is present and
      non-null for that tier, otherwise the global value of the tier. */
  function TierCap(overrides: map<int, TierOverride>, global1: int, global2: int, d: int, tier: Tier): (c: int)
    ensures tier == Tier1 && d in overrides && overrides[d].cap1.Some? ==> c == overrides[d].cap1.value
    ensures tier == Tier2 && d in overrides && overrides[d].cap2.Some? ==> c == overrides[d].cap2.value
    ensures tier == Tier1 && (d !in overrides || overrides[d].cap1.None?) ==> c == global1
    ensures tier == Tier2 && (d !in overrides || overrides[d].cap2.None?) ==> c == global2
  {
    if d in overrides && tier == Tier1 && overrides[d].cap1.Some? then overrides[d].cap1.value
    else if d in overrides && tier == Tier2 && overrides[d].cap2.Some? then overrides[d].cap2.value
    else if tier == Tier1 then global1
    else global2
  }

  /** `get_cap_ent`. */
  function EntryCap(cfg: Settings, d: int, tier: Tier): int {
    TierCap(cfg.entryOverrides, cfg.entryCap1, cfg.entryCap2, d, tier)
  }

  /** `get_cap_sal`. */
  function ExitCap(cfg: Settings, d: int, tier: Tier): int {
    TierCap(cfg.exitOverrides, cfg.exitCap1, cfg.exitCap2, d, tier)
  }

  /** `get_estab_cap`: the date's override when present and non-null, else the global capacity. */
  function StabCap(cfg: Settings, d: int): (c: int)
    ensures d in cfg.stabOverrides && cfg.stabOverrides[d].Some? ==> c == cfg.stabOverrides[d].value
    ensures d !in cfg.stabOverrides || cfg.stabOverrides[d].None? ==> c == cfg.stabCap
  {
    if d in cfg.stabOverrides && cfg.stabOverrides[d].Some? then cfg.stabOverrides[d].value else cfg.stabCap
  }

  /** `dias_max_por_producto.get(prod, dias_max_almacen_global)`. */
  function MaxStorage(cfg: Settings, product: string): (n: int)
    ensures product in cfg.maxStorageByProduct ==> n == cfg.maxStorageByProduct[product]
    ensures product !in cfg.maxStorageByProduct ==> n == cfg.maxStorageGlobal
  {
    if product in cfg.maxStorageByProduct then cfg.maxStorageByProduct[product] else cfg.maxStorageGlobal
  }

  /** An override is local: adding or replacing the override of one date leaves
      every other date's capacity, at both tiers, as it was. */
  lemma OverrideIsLocal(overrides: map<int, TierOverride>, g1: int, g2: int, x: int, o: TierOverride, d: int, tier: Tier)
    requires d != x
    ensures TierCap(overrides[x := o], g1, g2, d, tier) == TierCap(overrides, g1, g2, d, tier)
  {
  }

  /** An override row with both cells empty is the same as no override at all. */
  lemma EmptyOverrideIsNoOverride(overrides: map<int, TierOverride>, g1: int, g2: int, d: int, tier: Tier)
    ensures TierCap(overrides[d := TierOverride(None, None)], g1, g2, d, tier) == TierCap(overrides - {d}, g1, g2, d, tier)
  {
  }
}
