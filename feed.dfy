/**
 * A feed entry as the feed parser hands it over, the time structs it carries, and
 * extract_entry_time, which turns one of them into a datetime.
 */
module Feed {
  import opened Wrappers

  /** `time.struct_time` as the parser fills `updated_parsed` / `published_parsed`: nine fields. */
  datatype TimeStruct = TimeStruct(
    year: int, month: int, day: int, hour: int, minute: int, second: int,
    weekday: int, yearDay: int, isDst: int)

  /** A naive `datetime.datetime` to the second (the struct carries no sub-second part). */
  datatype DateTime = DateTime(year: int, month: int, day: int, hour: int, minute: int, second: int)

  /**
   * One parsed entry. None stands for a key the entry does not have (for the two time
   * fields, also for a key holding None).
   */
  datatype Entry = Entry(
    id: Option<string>,
    link: Option<string>,
    title: Option<string>,
    summary: Option<string>,
    updatedParsed: Option<TimeStruct>,
    publishedParsed: Option<TimeStruct>)

  /** datetime.MINYEAR and datetime.MAXYEAR. */
  const MinYear := 1
  const MaxYear := 9999

  predicate IsLeapYear(y: int)
  {
    y % 4 == 0 && (y % 100 != 0 || y % 400 == 0)
  }

  function DaysInMonth(year: int, month: int): int
    requires 1 <= month <= 12
  {
    if month == 2 then (if IsLeapYear(year) then 29 else 28)
    else if month == 4 || month == 6 || month == 9 || month == 11 then 30
    else 31
  }

  /** The range checks of the datetime constructor; it raises ValueError when one fails. */
  predicate IsValid(d: DateTime)
  {
    MinYear <= d.year <= MaxYear
    && 1 <= d.month <= 12
    && 1 <= d.day <= DaysInMonth(d.year, d.month)
    && 0 <= d.hour <= 23 && 0 <= d.minute <= 59 && 0 <= d.second <= 59
  }

  /** `time_struct[:6]`: year, month, day, hour, minute, second. */
  function FirstSix(t: TimeStruct): DateTime
  {
    DateTime(t.year, t.month, t.day, t.hour, t.minute, t.second)
  }

  /** What extract_entry_time produces: no time, a datetime, or the constructor's ValueError. */
  datatype TimeLookup = Missing | Found(time: DateTime) | OutOfRange

  /** `datetime(*time_struct[:6])`. */
  function ToDateTime(t: TimeStruct): (r: TimeLookup)
    ensures !r.Missing?
    ensures r.Found? <==> IsValid(FirstSix(t))
    ensures r.Found? ==> r.time == FirstSix(t)
  {
    var d := FirstSix(t);
    if IsValid(d) then Found(d) else OutOfRange
  }

  /**
   * extract_entry_time: `updated_parsed or published_parsed`, then the first six fields.
   * A struct_time is a non-empty tuple, so it is truthy exactly when it is present.
   */
  function ExtractEntryTime(e: Entry): (r: TimeLookup)
    ensures r.Missing? <==> e.updatedParsed.None? && e.publishedParsed.None?
    ensures e.updatedParsed.Some? ==> r == ToDateTime(e.updatedParsed.value)
    ensures e.updatedParsed.None? && e.publishedParsed.Some? ==> r == ToDateTime(e.publishedParsed.value)
    ensures r.Found? ==> IsValid(r.time)
  {
    match (if e.updatedParsed.Some? then e.updatedParsed else e.publishedParsed)
    case None => Missing
    case Some(t) => ToDateTime(t)
  }

  /** While an entry has an updated time, its published time plays no part. */
  lemma PublishedIgnoredWhenUpdated(e: Entry, published: Option<TimeStruct>)
    requires e.updatedParsed.Some?
    ensures ExtractEntryTime(e.(publishedParsed := published)) == ExtractEntryTime(e)
  {
  }

  /** `a <= b` between naive datetimes: earlier fields decide, later ones break ties. */
  predicate NotAfter(a: DateTime, b: DateTime)
  {
    if a.year != b.year then a.year < b.year
    else if a.month != b.month then a.month < b.month
    else if a.day != b.day then a.day < b.day
    else if a.hour != b.hour then a.hour < b.hour
    else if a.minute != b.minute then a.minute < b.minute
    else a.second <= b.second
  }

  /** NotAfter is a total order on datetimes. */
  lemma NotAfterTotalOrder(a: DateTime, b: DateTime, c: DateTime)
    ensures NotAfter(a, a)
    ensures NotAfter(a, b) || NotAfter(b, a)
    ensures NotAfter(a, b) && NotAfter(b, a) ==> a == b
    ensures NotAfter(a, b) && NotAfter(b, c) ==> NotAfter(a, c)
  {
  }
}
