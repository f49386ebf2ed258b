/**
 * `generateRandomStatsData`: thirty daily records ending today, oldest first.
 * The loop counts `i` down from 29 to 0, sets the day with
 * `setDate(today.getDate() - i)` and appends the record of that day.
 * Today's date and the random draws are parameters.
 */
module Generator {
  import opened Wrappers
  import opened Calendar
  import opened DateLabel
  import opened Stats

  const WindowLength: nat := 30

  /** The date of record `k` of the window: `WindowLength - 1 - k` days before today. */
  function WindowDate(today: Date, k: nat): (d: Date)
    requires ValidDate(today) && k < WindowLength
    ensures ValidDate(d)
  {
    StepBack(today, WindowLength - 1 - k)
  }

  predicate ValidDraws(draws: seq<DayDraws>) {
    forall k :: 0 <= k < |draws| ==> draws[k].Valid()
  }

  /** `const date = new Date(); date.setDate(today.getDate() - i)`, with the
      second clock reading taken to fall on the same day as `today`. */
  method DayOfWindow(today: Date, i: nat) returns (date: Date)
    requires ValidDate(today)
    ensures date == StepBack(today, i)
    ensures DayNumber(date) == DayNumber(today) - i
  {
    date := SetDate(today, today.day - i);
    SetDateStepsBack(today, i);
  }

  /** The first `n` records of the window, oldest first. */
  function Records(today: Date, draws: seq<DayDraws>, n: nat): (rs: seq<DailyStats>)
    requires ValidDate(today) && n <= |draws| == WindowLength && ValidDraws(draws)
    ensures |rs| == n
  {
    if n == 0 then [] else Records(today, draws, n - 1) + [DayRecord(WindowDate(today, n - 1), draws[n - 1])]
  }

  /** Record `k` of every prefix is the record of the `k`-th window day. */
  lemma {:induction false} RecordsAt(today: Date, draws: seq<DayDraws>, n: nat)
    requires ValidDate(today) && n <= |draws| == WindowLength && ValidDraws(draws)
    ensures forall k :: 0 <= k < n ==> Records(today, draws, n)[k] == DayRecord(WindowDate(today, k), draws[k])
  {
    if n > 0 {
      RecordsAt(today, draws, n - 1);
      var prev, rs := Records(today, draws, n - 1), Records(today, draws, n);
      assert rs == prev + [DayRecord(WindowDate(today, n - 1), draws[n - 1])];
      forall k | 0 <= k < n
        ensures rs[k] == DayRecord(WindowDate(today, k), draws[k])
      {
        if k < n - 1 {
          assert rs[k] == prev[k];
        }
      }
    }
  }

  method GenerateRandomStatsData(today: Date, draws: seq<DayDraws>) returns (data: seq<DailyStats>)
    requires ValidDate(today)
    requires |draws| == WindowLength && ValidDraws(draws)
    ensures |data| == WindowLength &&
      forall k :: 0 <= k < WindowLength ==> data[k] == DayRecord(WindowDate(today, k), draws[k])
  {
    data := [];
    var i: int := WindowLength - 1;
    while i >= 0
      invariant -1 <= i < WindowLength
      invariant data == Records(today, draws, WindowLength - 1 - i)
    {
      var date := DayOfWindow(today, i);
      assert date == WindowDate(today, WindowLength - 1 - i);
      data := data + [DayRecord(date, draws[WindowLength - 1 - i])];
      i := i - 1;
    }
    RecordsAt(today, draws, WindowLength);
  }

  /** The window is thirty consecutive calendar days ending today: each date is
      the day after its predecessor, its day number one higher and its day of
      the week one further, modulo 7. */
  lemma WindowConsecutive(today: Date)
    requires ValidDate(today)
    ensures WindowDate(today, WindowLength - 1) == today
    ensures forall k :: 0 <= k < WindowLength ==>
      DayNumber(WindowDate(today, k)) == DayNumber(today) - (WindowLength - 1 - k)
    ensures forall k :: 0 <= k < WindowLength - 1 ==>
      && NextDay(WindowDate(today, k)) == WindowDate(today, k + 1)
      && Weekday(WindowDate(today, k + 1)) == (Weekday(WindowDate(today, k)) + 1) % 7
  {
    forall k | 0 <= k < WindowLength - 1
      ensures NextDay(WindowDate(today, k)) == WindowDate(today, k + 1)
      ensures Weekday(WindowDate(today, k + 1)) == (Weekday(WindowDate(today, k)) + 1) % 7
    {
      var d, e := WindowDate(today, k), WindowDate(today, k + 1);
      assert d == PrevDay(e);
      PrevNextInverse(e);
      WeekdayStep(d);
    }
  }

  /** Any output of the generator: thirty records whose labels name valid days
      of their dates, in which every count is at least 50, and whose counts lie
      in the range of their day's class. */
  lemma GeneratedRecords(today: Date, draws: seq<DayDraws>, data: seq<DailyStats>)
    requires ValidDate(today)
    requires |draws| == WindowLength && ValidDraws(draws)
    requires |data| == WindowLength
    requires forall k :: 0 <= k < |data| ==> data[k] == DayRecord(WindowDate(today, k), draws[k])
    ensures forall k :: 0 <= k < |data| ==>
      && ParseLabel(data[k].date) == Some(MonthDay(WindowDate(today, k).month + 1, WindowDate(today, k).day))
      && var md := ParseLabel(data[k].date).value;
      && 1 <= md.month <= 12 && 1 <= md.day <= DaysInMonth(WindowDate(today, k).year, md.month - 1)
    ensures forall k, svc :: 0 <= k < |data| ==> 50 <= Count(data[k], svc)
    ensures forall k, svc :: 0 <= k < |data| ==>
      var c := Classify(Weekday(WindowDate(today, k)), draws[k].special);
      InRange(Count(data[k], svc), Lo(c, svc), Hi(c, svc))
  {
    forall k | 0 <= k < |data|
      ensures ParseLabel(data[k].date) == Some(MonthDay(WindowDate(today, k).month + 1, WindowDate(today, k).day))
      ensures forall svc :: 50 <= Count(data[k], svc)
    {
      var d := WindowDate(today, k);
      LabelRoundTrip(d);
      CountsFloor(d, draws[k]);
    }
  }

  /** Record `k` falls on today's day of the week moved back `29 - k` days, and
      whatever its special-day draw it is classed as a weekend exactly when
      that is Saturday or Sunday. */
  lemma WindowWeekdays(today: Date, k: nat)
    requires ValidDate(today) && k < WindowLength
    ensures Weekday(WindowDate(today, k)) == (Weekday(today) - (WindowLength - 1 - k)) % 7
    ensures forall u :: Classify(Weekday(WindowDate(today, k)), u) == Weekend <==>
      (Weekday(today) - (WindowLength - 1 - k)) % 7 in {0, 6}
  {
    StepBackWeekday(today, WindowLength - 1 - k);
  }

  /** The thirty labels of a window are pairwise distinct, so no chart position
      is labelled twice. */
  lemma WindowLabelsDistinct(today: Date, j: nat, k: nat)
    requires ValidDate(today) && j < k < WindowLength
    ensures Label(WindowDate(today, j)) != Label(WindowDate(today, k))
  {
    var a, b := WindowDate(today, j), WindowDate(today, k);
    LabelIdentifiesMonthDay(a, b);
    if a.month == b.month && a.day == b.day {
      if a.year < b.year {
        SameMonthDayFarApart(a, b);
      } else if b.year < a.year {
        SameMonthDayFarApart(b, a);
      }
    }
  }
}
