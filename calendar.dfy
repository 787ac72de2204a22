/** Business-day calendar: a day is a business day when it is Monday to Friday
    and not a holiday; the next and previous business days step one day at a time.

    A date is its proleptic Gregorian ordinal, as Python's `date.toordinal()`
    numbers it: day 1 is Monday, 1 January of year 1. */
module Calendar {

  /** Python's `weekday()`: Monday is 0, Saturday 5, Sunday 6. */
  function Weekday(d: int): (w: int)
    ensures 0 <= w < 7
  {
    (d + 6) % 7
  }

  lemma WeekdayStep(d: int)
    ensures Weekday(d + 1) == (Weekday(d) + 1) % 7
  {
  }

  /** `es_habil`: Monday to Friday and not in the holiday set. */
  predicate IsBusinessDay(holidays: set<int>, d: int) {
    Weekday(d) < 5 && d !in holidays
  }

  /** The holidays on or after `g` (the measure of the forward search). */
  ghost function HolidaysFrom(holidays: set<int>, g: int): set<int> {
    set x | x in holidays && g <= x
  }

  /** The holidays on or before `g` (the measure of the backward search). */
  ghost function HolidaysUpTo(holidays: set<int>, g: int): set<int> {
    set x | x in holidays && x <= g
  }

  lemma FewerHolidaysAhead(holidays: set<int>, g: int)
    ensures HolidaysFrom(holidays, g + 1) <= HolidaysFrom(holidays, g)
    ensures g in holidays ==> |HolidaysFrom(holidays, g + 1)| < |HolidaysFrom(holidays, g)|
    ensures g !in holidays ==> HolidaysFrom(holidays, g + 1) == HolidaysFrom(holidays, g)
  {
    if g in holidays {
      assert HolidaysFrom(holidays, g) == HolidaysFrom(holidays, g + 1) + {g};
    }
  }

  lemma FewerHolidaysBehind(holidays: set<int>, g: int)
    ensures HolidaysUpTo(holidays, g - 1) <= HolidaysUpTo(holidays, g)
    ensures g in holidays ==> |HolidaysUpTo(holidays, g - 1)| < |HolidaysUpTo(holidays, g)|
    ensures g !in holidays ==> HolidaysUpTo(holidays, g - 1) == HolidaysUpTo(holidays, g)
  {
    if g in holidays {
      assert HolidaysUpTo(holidays, g) == HolidaysUpTo(holidays, g - 1) + {g};
    }
  }

  /** Days from a weekend day, going forwards, to the next Monday. */
  function DaysToMonday(d: int): nat {
    if Weekday(d) == 5 then 2 else if Weekday(d) == 6 then 1 else 0
  }

  /** Days from a weekend day, going backwards, to the previous Friday. */
  function DaysToFriday(d: int): nat {
    if Weekday(d) == 6 then 2 else if Weekday(d) == 5 then 1 else 0
  }

  /** The first business day on or after `g`. */
  function FirstBusinessFrom(holidays: set<int>, g: int): (r: int)
    ensures g <= r && IsBusinessDay(holidays, r)
    ensures forall x :: g <= x < r ==> !IsBusinessDay(holidays, x)
    decreases |HolidaysFrom(holidays, g)|, DaysToMonday(g)
  {
    if IsBusinessDay(holidays, g) then g
    else
      WeekdayStep(g);
      FewerHolidaysAhead(holidays, g);
      FirstBusinessFrom(holidays, g + 1)
  }

  /** The last business day on or before `g`. */
  function LastBusinessUpTo(holidays: set<int>, g: int): (r: int)
    ensures r <= g && IsBusinessDay(holidays, r)
    ensures forall x :: r < x <= g ==> !IsBusinessDay(holidays, x)
    decreases |HolidaysUpTo(holidays, g)|, DaysToFriday(g)
  {
    if IsBusinessDay(holidays, g) then g
    else
      WeekdayStep(g - 1);
      FewerHolidaysBehind(holidays, g);
      LastBusinessUpTo(holidays, g - 1)
  }

  /** `siguiente_habil`: the business day after `f` with no business day in between. */
  function NextBusinessDay(holidays: set<int>, f: int): (r: int)
    ensures f < r && IsBusinessDay(holidays, r)
    ensures forall x :: f < x < r ==> !IsBusinessDay(holidays, x)
  {
    FirstBusinessFrom(holidays, f + 1)
  }

  /** `anterior_habil`: the business day before `f` with no business day in between. */
  function PrevBusinessDay(holidays: set<int>, f: int): (r: int)
    ensures r < f && IsBusinessDay(holidays, r)
    ensures forall x :: r < x < f ==> !IsBusinessDay(holidays, x)
  {
    LastBusinessUpTo(holidays, f - 1)
  }

  /** The earliest entry date for a lot received on `d`: `d` itself when it is a
      business day, otherwise the next business day. */
  function EarliestEntry(holidays: set<int>, d: int): (r: int)
    ensures d <= r && IsBusinessDay(holidays, r)
    ensures forall x :: d <= x < r ==> !IsBusinessDay(holidays, x)
  {
    if IsBusinessDay(holidays, d) then d else NextBusinessDay(holidays, d)
  }

  /** `siguiente_habil` as the source writes it: a loop stepping one day at a time. */
  method FindNextBusinessDay(holidays: set<int>, f: int) returns (r: int)
    ensures f < r && IsBusinessDay(holidays, r)
    ensures forall x :: f < x < r ==> !IsBusinessDay(holidays, x)
  {
    ghost var target := NextBusinessDay(holidays, f);
    r := f + 1;
    while !IsBusinessDay(holidays, r)
      invariant f < r <= target
      invariant forall x :: f < x < r ==> !IsBusinessDay(holidays, x)
      decreases target - r
    {
      r := r + 1;
    }
  }

  /** `anterior_habil` as the source writes it. */
  method FindPrevBusinessDay(holidays: set<int>, f: int) returns (r: int)
    ensures r < f && IsBusinessDay(holidays, r)
    ensures forall x :: r < x < f ==> !IsBusinessDay(holidays, x)
  {
    ghost var target := PrevBusinessDay(holidays, f);
    r := f - 1;
    while !IsBusinessDay(holidays, r)
      invariant target <= r < f
      invariant forall x :: r < x < f ==> !IsBusinessDay(holidays, x)
      decreases r - target
    {
      r := r - 1;
    }
  }

  /** The two characterisations pin the day down: the next business day is unique. */
  lemma NextBusinessDayUnique(holidays: set<int>, f: int, r: int)
    requires f < r && IsBusinessDay(holidays, r)
    requires forall x :: f < x < r ==> !IsBusinessDay(holidays, x)
    ensures r == NextBusinessDay(holidays, f)
  {
  }

  /** Stepping forwards then backwards over business days returns to a business day. */
  lemma PrevOfNext(holidays: set<int>, f: int)
    requires IsBusinessDay(holidays, f)
    ensures PrevBusinessDay(holidays, NextBusinessDay(holidays, f)) == f
  {
  }
}
