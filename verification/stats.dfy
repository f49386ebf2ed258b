/**
 * One day of synthetic visit statistics: the `WebsiteStats` record, the
 * classification of a day as weekend, special (elevated-traffic) weekday or
 * ordinary weekday, and the per-class, per-service ranges the seven visit
 * counts are drawn from.
 *
 * Every `Math.random()` call is an explicit input `u` with `0 <= u < 1`;
 * `Math.floor(Math.random() * scale) + offset` becomes `Draw(u, Range(scale, offset))`.
 */
module Stats {
  import opened Wrappers
  import opened Calendar
  import opened DateLabel

  /** `WebsiteStats`: the day label and the visit count of each service. */
  datatype DailyStats = DailyStats(
    date: string,
    homepage: nat,
    search: nat,
    grandmaTraining: nat,
    monopoly: nat,
    toolbox: nat,
    homeworkSystem: nat,
    fruitGame: nat)

  datatype Service = Homepage | Search | GrandmaTraining | Monopoly | Toolbox | HomeworkSystem | FruitGame

  function Count(s: DailyStats, svc: Service): nat {
    match svc
    case Homepage => s.homepage
    case Search => s.search
    case GrandmaTraining => s.grandmaTraining
    case Monopoly => s.monopoly
    case Toolbox => s.toolbox
    case HomeworkSystem => s.homeworkSystem
    case FruitGame => s.fruitGame
  }

  datatype DayClass = Ordinary | Special | Weekend

  /** The random inputs of one day: the special-day draw and one draw per
      service, each a value of `Math.random()`. */
  datatype DayDraws = DayDraws(
    special: real,
    homepage: real,
    search: real,
    grandmaTraining: real,
    monopoly: real,
    toolbox: real,
    homeworkSystem: real,
    fruitGame: real)
  {
    predicate Valid() {
      && IsUnit(special)
      && IsUnit(homepage) && IsUnit(search)
      && IsUnit(grandmaTraining) && IsUnit(monopoly)
      && IsUnit(toolbox) && IsUnit(homeworkSystem)
      && IsUnit(fruitGame)
    }
  }

  /** The draw a service's count is taken from. */
  function DrawFor(u: DayDraws, svc: Service): real {
    match svc
    case Homepage => u.homepage
    case Search => u.search
    case GrandmaTraining => u.grandmaTraining
    case Monopoly => u.monopoly
    case Toolbox => u.toolbox
    case HomeworkSystem => u.homeworkSystem
    case FruitGame => u.fruitGame
  }

  /** The range of `Math.random()`. */
  predicate IsUnit(u: real) {
    0.0 <= u < 1.0
  }

  /** `Math.floor(Math.random() * scale) + offset`. */
  datatype Range = Range(scale: nat, offset: nat)

  /** `v` lies between `lo` and `hi`, both included. */
  predicate InRange(v: int, lo: int, hi: int) {
    lo <= v <= hi
  }

  /** Scaling a value of `Math.random()` by a positive factor stays below the factor. */
  lemma ScaleBelow(u: real, s: real)
    requires IsUnit(u) && s > 0.0
    ensures 0.0 <= u * s < s
  {
  }

  /** `Math.floor(u * scale) + offset`. */
  function Draw(u: real, g: Range): (v: nat)
    requires IsUnit(u) && g.scale > 0
    ensures InRange(v, g.offset, g.offset + g.scale - 1)
  {
    var x := u * g.scale as real;
    ScaleBelow(u, g.scale as real);
    assert 0 <= x.Floor < g.scale;
    x.Floor + g.offset
  }

  /** The bounds of `Draw` are tight: every value between them is drawn by some `u`. */
  lemma DrawCoversRange(g: Range, v: int)
    requires g.scale > 0 && InRange(v, g.offset, g.offset + g.scale - 1)
    ensures exists u :: IsUnit(u) && Draw(u, g) == v
  {
    var k := v - g.offset;
    var u := k as real / g.scale as real;
    assert u * g.scale as real == k as real;
    assert IsUnit(u);
    assert Draw(u, g) == v;
  }

  /** The draw ranges of the generator, one per day class and service. */
  function ServiceRange(c: DayClass, svc: Service): (g: Range)
    ensures g.scale > 0
    ensures 50 <= g.offset && g.offset + g.scale - 1 <= 3000
  {
    match c
    case Weekend =>
      (match svc
       case Homepage | Search => Range(1501, 1500)
       case GrandmaTraining | Monopoly => Range(501, 300)
       case Toolbox | HomeworkSystem => Range(401, 250)
       case FruitGame => Range(401, 300))
    case Special =>
      (match svc
       case Homepage | Search => Range(1001, 1000)
       case GrandmaTraining | Monopoly => Range(301, 200)
       case Toolbox | HomeworkSystem => Range(301, 150)
       case FruitGame => Range(401, 300))
    case Ordinary =>
      (match svc
       case Homepage | Search => Range(1801, 200)
       case GrandmaTraining | Monopoly => Range(451, 50)
       case Toolbox | HomeworkSystem => Range(401, 50)
       case FruitGame => Range(301, 50))
  }

  function Lo(c: DayClass, svc: Service): nat {
    ServiceRange(c, svc).offset
  }

  function Hi(c: DayClass, svc: Service): nat {
    ServiceRange(c, svc).offset + ServiceRange(c, svc).scale - 1
  }

  /** Saturday (6) and Sunday (0). */
  predicate IsWeekend(weekday: int) {
    weekday == 0 || weekday == 6
  }

  /** The threshold the special-day draw is compared against. */
  const SpecialDayThreshold: real := 0.1

  /** `!isWeekend && Math.random() < 0.1`: the draw is only consulted on weekdays. */
  predicate IsSpecialDay(isWeekend: bool, u: real): (b: bool)
    ensures b ==> !isWeekend
    ensures !isWeekend ==> (b <==> u < SpecialDayThreshold)
  {
    !isWeekend && u < SpecialDayThreshold
  }

  /** The range selection of the generator: weekend or special days take the
      higher ranges, weekends the highest. */
  function ClassOf(isWeekend: bool, isSpecialDay: bool): (c: DayClass)
    ensures c == Weekend <==> isWeekend
    ensures c == Special <==> !isWeekend && isSpecialDay
    ensures c == Ordinary <==> !isWeekend && !isSpecialDay
  {
    if isWeekend || isSpecialDay then (if isWeekend then Weekend else Special)
    else Ordinary
  }

  /** The class of a day with the given day of the week and special-day draw. */
  function Classify(weekday: int, u: real): (c: DayClass)
    ensures c == Weekend <==> IsWeekend(weekday)
    ensures c == Special <==> !IsWeekend(weekday) && u < SpecialDayThreshold
    ensures c == Ordinary <==> !IsWeekend(weekday) && u >= SpecialDayThreshold
  {
    var weekend := IsWeekend(weekday);
    ClassOf(weekend, IsSpecialDay(weekend, u))
  }

  /** A weekend day is never special, whatever its draw. */
  lemma WeekendNeverSpecial(weekday: int, u: real)
    requires IsWeekend(weekday)
    ensures !IsSpecialDay(IsWeekend(weekday), u)
    ensures Classify(weekday, u) == Weekend
  {
  }

  /** The class of a calendar day: its `getDay()` together with its special-day draw. */
  function DayClassOf(date: Date, u: DayDraws): DayClass
    requires ValidDate(date)
  {
    Classify(Weekday(date), u.special)
  }

  /** The count of service `svc` on a day of class `c`: its own draw, scaled
      and offset by the range the class selects for it. */
  function CountOf(c: DayClass, u: DayDraws, svc: Service): (v: nat)
    requires u.Valid()
    ensures InRange(v, Lo(c, svc), Hi(c, svc))
  {
    Draw(DrawFor(u, svc), ServiceRange(c, svc))
  }

  /** The record of one day: its label and the seven counts, each drawn from
      the range its class selects. */
  function DayRecord(date: Date, u: DayDraws): (s: DailyStats)
    requires ValidDate(date) && u.Valid()
    ensures ParseLabel(s.date) == Some(MonthDay(date.month + 1, date.day))
    ensures forall svc :: InRange(Count(s, svc), Lo(DayClassOf(date, u), svc), Hi(DayClassOf(date, u), svc))
  {
    LabelRoundTrip(date);
    var c := DayClassOf(date, u);
    var s := DailyStats(
      Label(date),
      CountOf(c, u, Homepage),
      CountOf(c, u, Search),
      CountOf(c, u, GrandmaTraining),
      CountOf(c, u, Monopoly),
      CountOf(c, u, Toolbox),
      CountOf(c, u, HomeworkSystem),
      CountOf(c, u, FruitGame));
    assert forall svc :: Count(s, svc) == CountOf(c, u, svc);
    s
  }

  /** Weekends: homepage and search 1500-3000, grandma training and monopoly
      300-800, toolbox and homework system 250-650, fruit game 300-700. */
  lemma WeekendCounts(date: Date, u: DayDraws)
    requires ValidDate(date) && u.Valid() && IsWeekend(Weekday(date))
    ensures var s := DayRecord(date, u);
      && InRange(s.homepage, 1500, 3000) && InRange(s.search, 1500, 3000)
      && InRange(s.grandmaTraining, 300, 800) && InRange(s.monopoly, 300, 800)
      && InRange(s.toolbox, 250, 650) && InRange(s.homeworkSystem, 250, 650)
      && InRange(s.fruitGame, 300, 700)
  {
    var s := DayRecord(date, u);
    assert forall svc :: InRange(Count(s, svc), Lo(Weekend, svc), Hi(Weekend, svc));
  }

  /** Special weekdays: homepage and search 1000-2000, grandma training and
      monopoly 200-500, toolbox and homework system 150-450, fruit game 300-700. */
  lemma SpecialCounts(date: Date, u: DayDraws)
    requires ValidDate(date) && u.Valid()
    requires !IsWeekend(Weekday(date)) && u.special < SpecialDayThreshold
    ensures var s := DayRecord(date, u);
      && InRange(s.homepage, 1000, 2000) && InRange(s.search, 1000, 2000)
      && InRange(s.grandmaTraining, 200, 500) && InRange(s.monopoly, 200, 500)
      && InRange(s.toolbox, 150, 450) && InRange(s.homeworkSystem, 150, 450)
      && InRange(s.fruitGame, 300, 700)
  {
    var s := DayRecord(date, u);
    assert forall svc :: InRange(Count(s, svc), Lo(Special, svc), Hi(Special, svc));
  }

  /** Ordinary weekdays: homepage and search 200-2000, grandma training and
      monopoly 50-500, toolbox and homework system 50-450, fruit game 50-350. */
  lemma OrdinaryCounts(date: Date, u: DayDraws)
    requires ValidDate(date) && u.Valid()
    requires !IsWeekend(Weekday(date)) && u.special >= SpecialDayThreshold
    ensures var s := DayRecord(date, u);
      && InRange(s.homepage, 200, 2000) && InRange(s.search, 200, 2000)
      && InRange(s.grandmaTraining, 50, 500) && InRange(s.monopoly, 50, 500)
      && InRange(s.toolbox, 50, 450) && InRange(s.homeworkSystem, 50, 450)
      && InRange(s.fruitGame, 50, 350)
  {
    var s := DayRecord(date, u);
    assert forall svc :: InRange(Count(s, svc), Lo(Ordinary, svc), Hi(Ordinary, svc));
  }

  /** Higher-traffic classes never lower either bound of any service:
      ordinary <= special <= weekend, for the lower and the upper bound alike. */
  lemma ClassesOrdered(svc: Service)
    ensures Lo(Ordinary, svc) <= Lo(Special, svc) <= Lo(Weekend, svc)
    ensures Hi(Ordinary, svc) <= Hi(Special, svc) <= Hi(Weekend, svc)
  {
  }

  /** Every count of every day is between 50 and 3000, so no series shows a zero day. */
  lemma CountsFloor(date: Date, u: DayDraws)
    requires ValidDate(date) && u.Valid()
    ensures forall svc :: InRange(Count(DayRecord(date, u), svc), 50, 3000)
  {
    var s := DayRecord(date, u);
    var c := DayClassOf(date, u);
    forall svc
      ensures InRange(Count(s, svc), 50, 3000)
    {
      assert InRange(Count(s, svc), Lo(c, svc), Hi(c, svc));
    }
  }
}
