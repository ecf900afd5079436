/** Business-day arithmetic over a finite, injectable set of holidays. A date is its proleptic ordinal. */
module SettlementCalendar {
  import opened Wrappers

  type Date = int

  /** Monday is 0; day 1 of the calendar was a Monday. */
  function Weekday(d: Date): int {
    (d + 6) % 7
  }

  predicate IsMarketBusinessDay(holidays: set<Date>, d: Date) {
    Weekday(d) < 5 && d !in holidays
  }

  /** The business days are the days outside the holidays that are neither Saturday nor Sunday: day 730120,
      1 January 2000, was a Saturday, and days of the week repeat after seven days. */
  lemma BusinessDaysAreWeekdays(holidays: set<Date>, d: Date, saturday: Date)
    requires (saturday - 730120) % 7 == 0 && saturday <= d < saturday + 7
    ensures IsMarketBusinessDay(holidays, d) <==> d !in holidays && d != saturday && d != saturday + 1
  {
  }

  /** How many business days lie in the half-open interval (start, end]. */
  function BusinessDays(holidays: set<Date>, start: Date, end: Date): nat
    decreases end - start
  {
    if end <= start then 0
    else BusinessDays(holidays, start, end - 1) + if IsMarketBusinessDay(holidays, end) then 1 else 0
  }

  /** `end` is where walking `days` business days on from `start` leads. */
  ghost predicate IsNthBusinessDay(holidays: set<Date>, start: Date, days: nat, end: Date) {
    && start <= end && BusinessDays(holidays, start, end) == days
    && (if days == 0 then end == start else IsMarketBusinessDay(holidays, end))
  }

  lemma {:induction false} LatestHoliday(holidays: set<Date>) returns (bound: Date)
    ensures forall d :: d in holidays ==> d <= bound
    decreases |holidays|
  {
    bound := 0;
    if h :| h in holidays {
      var rest := LatestHoliday(holidays - {h});
      bound := if h > rest then h else rest;
      assert forall d :: d in holidays ==> d == h || d in holidays - {h};
    }
  }

  /** However many holidays are listed, a business day always lies ahead. */
  lemma BusinessDayAhead(holidays: set<Date>, d: Date) returns (ahead: Date)
    ensures ahead > d && IsMarketBusinessDay(holidays, ahead)
  {
    var bound := LatestHoliday(holidays);
    var free := (if d > bound then d else bound) + 1;
    ahead := if Weekday(free) < 5 then free else free + 7 - Weekday(free);
  }

  /** The walk of the program; None is its ValueError. It ends for every finite holiday set. */
  method AddMarketBusinessDays(holidays: set<Date>, start: Date, days: int) returns (r: Option<Date>)
    ensures r.None? <==> days < 0
    ensures r.Some? ==> IsNthBusinessDay(holidays, start, days, r.value)
  {
    if days < 0 {
      return None;
    }
    var current, remaining := start, days;
    ghost var ahead := BusinessDayAhead(holidays, start);
    while remaining != 0
      invariant 0 <= remaining && start <= current && BusinessDays(holidays, start, current) + remaining == days
      invariant if remaining == days then current == start || !IsMarketBusinessDay(holidays, current) || days == 0
                else remaining == 0 ==> IsMarketBusinessDay(holidays, current)
      invariant days == 0 ==> current == start
      invariant current < ahead && IsMarketBusinessDay(holidays, ahead)
      decreases remaining, ahead - current
    {
      current := current + 1;
      if IsMarketBusinessDay(holidays, current) {
        remaining := remaining - 1;
        ahead := BusinessDayAhead(holidays, current);
      }
    }
    return Some(current);
  }

  lemma {:induction false} CountSplits(holidays: set<Date>, a: Date, b: Date, c: Date)
    requires a <= b <= c
    ensures BusinessDays(holidays, a, c) == BusinessDays(holidays, a, b) + BusinessDays(holidays, b, c)
    decreases c - b
  {
    if b < c {
      CountSplits(holidays, a, b, c - 1);
    }
  }

  /** The end of the walk is the first date by which enough business days have passed; see NthIsUnique. */
  lemma NthIsFirst(holidays: set<Date>, start: Date, days: nat, end: Date, d: Date)
    requires IsNthBusinessDay(holidays, start, days, end) && start <= d
    ensures BusinessDays(holidays, start, d) >= days <==> d >= end
  {
    if d >= end {
      CountSplits(holidays, start, end, d);
    } else {
      CountSplits(holidays, start, d, end - 1);
    }
  }

  lemma NthIsUnique(holidays: set<Date>, start: Date, days: nat, end: Date, other: Date)
    requires IsNthBusinessDay(holidays, start, days, end) && IsNthBusinessDay(holidays, start, days, other)
    ensures end == other
  {
    NthIsFirst(holidays, start, days, end, other);
    NthIsFirst(holidays, start, days, other, end);
  }

  /** Walking on from where a first walk ended is walking the sum. */
  lemma WalksAdd(holidays: set<Date>, start: Date, m: nat, mid: Date, n: nat, end: Date)
    requires IsNthBusinessDay(holidays, start, m, mid) && IsNthBusinessDay(holidays, mid, n, end)
    ensures IsNthBusinessDay(holidays, start, m + n, end)
  {
    CountSplits(holidays, start, mid, end);
  }

  /** T+1: the settlement date is the first business day after the trade date. */
  lemma SettlesOnNextBusinessDay(holidays: set<Date>, trade: Date, settlement: Date)
    requires IsNthBusinessDay(holidays, trade, 1, settlement)
    ensures settlement > trade && IsMarketBusinessDay(holidays, settlement)
    ensures forall d :: trade < d < settlement ==> !IsMarketBusinessDay(holidays, d)
  {
    forall d | trade < d < settlement ensures !IsMarketBusinessDay(holidays, d) {
      CountSplits(holidays, trade, d, settlement - 1);
      CountSplits(holidays, trade, d - 1, d);
    }
  }
}
