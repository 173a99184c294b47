/**
  The record shapes shared by the pipeline (src/types.ts), and the shape of the
  request values Express hands to the handlers.
*/
module Types {
  import opened Base

  /**
    A calendar date as passed to `new Date(year, month, day)`: `month` is zero-based.
    Two lessons fall on the same day exactly when their triples are equal, and
    one day precedes another in lexicographic order; both hold for valid calendar
    dates, which is what the timetable service delivers.
  */
  datatype Date = Date(year: int, month: int, day: int)

  /** One lesson; times of day are HHMM integers (845 is 08:45). */
  datatype Lesson = Lesson(
    startTime: int,
    endTime: int,
    subject: string,
    teacher: seq<string>,
    room: string,
    schoolClass: seq<string>,   // the `class` field of the source record
    date: Date,
    lstext: string,
    status: string)

  /** A rendered calendar document and the time (ms) it was stored. */
  datatype CacheEntry = CacheEntry(timestamp: int, ics: string)

  /**
    The configured access token. The record type declares a string; the access
    check also accepts an array, so both shapes are kept.
  */
  datatype AccessToken = NoToken | Token(value: string) | TokenList(values: seq<string>)

  datatype User = User(
    school: string,
    username: string,
    password: string,
    baseurl: string,
    friendlyName: string,
    language: Option<string>,
    cancelledDisplay: Option<string>,
    accessToken: AccessToken)

  /** A route parameter, query value or header: absent, a string, or a repeated value. */
  datatype Param = Absent | Str(s: string) | Arr(items: seq<string>)

  /** JavaScript truthiness of such a value: `undefined` and `""` are false, arrays are true. */
  predicate Truthy(p: Param)
  {
    match p
    case Absent => false
    case Str(s) => s != ""
    case Arr(_) => true
  }

  /** The value of a query string or header map at `name` (`undefined` when missing). */
  function Lookup(m: map<string, Param>, name: string): Param
  {
    if name in m then m[name] else Absent
  }
}
