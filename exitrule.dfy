/** The exit-date rule: entry plus the optimal dwell days, then the weekend
    shift, then the holiday shift, which on Tuesday to Thursday looks at the exit
    ledger to pick the less loaded neighbouring business day. */
module ExitRule {
  import opened Calendar
  import opened Capacity
  import opened Ledger

  /** With `ajuste_finde`: a Saturday moves to the previous business day, a
      Sunday to the next; any other day stays. */
  function WeekendShift(cfg: Settings, s: int): (r: int)
    ensures cfg.adjustWeekends ==> Weekday(r) < 5
    ensures Weekday(s) < 5 || !cfg.adjustWeekends ==> r == s
  {
    if cfg.adjustWeekends && Weekday(s) == 5 then PrevBusinessDay(cfg.holidays, s)
    else if cfg.adjustWeekends && Weekday(s) == 6 then NextBusinessDay(cfg.holidays, s)
    else s
  }

  /** The exit load the rule compares on day `x`: what the exit ledger holds plus
      what the same pass has already set aside (`add_salida`). */
  function CombinedLoad(load: map<int, int>, pending: map<int, int>, x: int): int {
    Get(load, x) + Get(pending, x)
  }

  /** With `ajuste_festivos` and `s` a holiday: Monday moves to the next business
      day, Friday to the previous one, Tuesday to Thursday to the neighbouring
      business day with the lower combined load (the previous one on a tie); a
      holiday on a weekend day stays. */
  function HolidayShift(cfg: Settings, s: int, load: map<int, int>, pending: map<int, int>): int {
    if cfg.adjustHolidays && s in cfg.holidays then
      if Weekday(s) == 0 then NextBusinessDay(cfg.holidays, s)
      else if 1 <= Weekday(s) <= 3 then
        var before := PrevBusinessDay(cfg.holidays, s);
        var after := NextBusinessDay(cfg.holidays, s);
        if CombinedLoad(load, pending, before) <= CombinedLoad(load, pending, after) then before else after
      else if Weekday(s) == 4 then PrevBusinessDay(cfg.holidays, s)
      else s
    else s
  }

  /** The exit date of a lot entering on `entry` with `dwell` optimal days. */
  function ExitDate(cfg: Settings, entry: int, dwell: int, load: map<int, int>, pending: map<int, int>): (s: int)
    ensures cfg.adjustWeekends && cfg.adjustHolidays ==> IsBusinessDay(cfg.holidays, s)
    ensures IsBusinessDay(cfg.holidays, entry + dwell) ==> s == entry + dwell
    ensures IsBusinessDay(cfg.holidays, entry) && 0 <= dwell ==> entry <= s
  {
    HolidayShift(cfg, WeekendShift(cfg, entry + dwell), load, pending)
  }

  /** The Tuesday-to-Thursday holiday case: the exit is one of the two
      neighbouring business days, the one whose combined load is not higher, and
      the earlier one when both loads are equal. */
  lemma MidweekHolidayGoesToLighterNeighbour(cfg: Settings, entry: int, dwell: int, load: map<int, int>, pending: map<int, int>)
    requires cfg.adjustHolidays
    requires WeekendShift(cfg, entry + dwell) in cfg.holidays
    requires 1 <= Weekday(WeekendShift(cfg, entry + dwell)) <= 3
    ensures var s1 := WeekendShift(cfg, entry + dwell);
            var before := PrevBusinessDay(cfg.holidays, s1);
            var after := NextBusinessDay(cfg.holidays, s1);
            var s := ExitDate(cfg, entry, dwell, load, pending);
            && (s == before || s == after)
            && (s == before ==> CombinedLoad(load, pending, before) <= CombinedLoad(load, pending, after))
            && (s == after ==> CombinedLoad(load, pending, after) < CombinedLoad(load, pending, before))
            && (CombinedLoad(load, pending, before) == CombinedLoad(load, pending, after) ==> s == before)
  {
  }

  /** A holiday on a Monday moves forwards, one on a Friday backwards. */
  lemma EdgeOfWeekHolidays(cfg: Settings, entry: int, dwell: int, load: map<int, int>, pending: map<int, int>)
    requires cfg.adjustHolidays
    requires WeekendShift(cfg, entry + dwell) in cfg.holidays
    ensures var s1 := WeekendShift(cfg, entry + dwell);
            var s := ExitDate(cfg, entry, dwell, load, pending);
            && (Weekday(s1) == 0 ==> s == NextBusinessDay(cfg.holidays, s1))
            && (Weekday(s1) == 4 ==> s == PrevBusinessDay(cfg.holidays, s1))
  {
  }

  /** The rule reads the two ledgers only through their sum. */
  lemma ExitDateReadsCombinedLoad(cfg: Settings, entry: int, dwell: int,
                                  load1: map<int, int>, pending1: map<int, int>,
                                  load2: map<int, int>, pending2: map<int, int>)
    requires forall x :: CombinedLoad(load1, pending1, x) == CombinedLoad(load2, pending2, x)
    ensures ExitDate(cfg, entry, dwell, load1, pending1) == ExitDate(cfg, entry, dwell, load2, pending2)
  {
  }

  /** Setting `u` units aside on day `d` in the pass, or committing them to the
      ledger, makes no difference to any later exit date. */
  lemma PendingOrCommittedAlike(cfg: Settings, entry: int, dwell: int,
                                load: map<int, int>, pending: map<int, int>, d: int, u: int)
    ensures ExitDate(cfg, entry, dwell, load, AddAt(pending, d, u))
         == ExitDate(cfg, entry, dwell, AddAt(load, d, u), pending)
  {
    forall x
      ensures CombinedLoad(load, AddAt(pending, d, u), x) == CombinedLoad(AddAt(load, d, u), pending, x)
    {
    }
    ExitDateReadsCombinedLoad(cfg, entry, dwell, load, AddAt(pending, d, u), AddAt(load, d, u), pending);
  }

  /** With both adjustments off the exit is entry plus the dwell days. */
  lemma NoAdjustment(cfg: Settings, entry: int, dwell: int, load: map<int, int>, pending: map<int, int>)
    requires !cfg.adjustWeekends && !cfg.adjustHolidays
    ensures ExitDate(cfg, entry, dwell, load, pending) == entry + dwell
  {
  }
}
