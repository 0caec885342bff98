// utls/RequestTimeInfo.js: the request-timing middleware. The wall clock is
// read by the caller and passed in as a `Clock`; what the middleware writes
// to the console is returned as text.

module RequestTime {
  import opened Wrappers
  import opened Text
  import Paging

  /** The `{ hour, minutes, sec, miliSec, utcMiliSec }` record read from a `Date`. */
  datatype Clock = Clock(hour: nat, minutes: nat, sec: nat, miliSec: nat, utcMiliSec: nat)

  /** The ranges a `Date` gives those five fields. */
  predicate ValidClock(c: Clock) {
    c.hour < 24 && c.minutes < 60 && c.sec < 60 && c.miliSec < 1000 && c.utcMiliSec < 1000
  }

  function Abs(x: int): nat {
    if x < 0 then -x else x
  }

  /**
   * `diffToSecondsMillis`: the distance between two millisecond readings,
   * as whole seconds and the milliseconds left over.
   */
  function DiffToSecondsMillis(start: int, end: int): (r: (nat, nat))
    ensures r.0 * 1000 + r.1 == Abs(end - start)
    ensures r.1 < 1000
  {
    var diff := Abs(end - start);
    (diff / 1000, diff % 1000)
  }

  /** The order of the two readings does not matter. */
  lemma DiffSymmetric(start: int, end: int)
    ensures DiffToSecondsMillis(start, end) == DiffToSecondsMillis(end, start)
  {
  }

  /** The split into seconds and milliseconds is the only one with fewer than 1000 milliseconds. */
  lemma DiffUnique(start: int, end: int, seconds: nat, millis: nat)
    requires seconds * 1000 + millis == Abs(end - start) && millis < 1000
    ensures DiffToSecondsMillis(start, end) == (seconds, millis)
  {
    var r := DiffToSecondsMillis(start, end);
    Paging.MulMonotone(r.0 + 1, seconds, 1000);
    Paging.MulMonotone(seconds + 1, r.0, 1000);
  }

  /**
   * The middleware feeds two millisecond-of-second readings, so the
   * reported seconds are always 0 and the milliseconds are their distance,
   * however long the request really took.
   */
  lemma ConsumedSecondsAlwaysZero(start: Clock, end: Clock)
    requires ValidClock(start) && ValidClock(end)
    ensures DiffToSecondsMillis(start.utcMiliSec, end.utcMiliSec) == (0, Abs(end.utcMiliSec - start.utcMiliSec))
  {
    DiffUnique(start.utcMiliSec, end.utcMiliSec, 0, Abs(end.utcMiliSec - start.utcMiliSec));
  }

  // ---------------------------------------------------------------------
  // The logged time of day

  /** Hours after noon are shown modulo 12; midnight through noon are shown as they are. */
  function DisplayHour(hour: nat): (h: nat)
    ensures hour <= 12 ==> h == hour
    ensures 12 < hour < 24 ==> h + 12 == hour
    ensures hour < 24 ==> h <= 12
  {
    if hour > 12 then hour % 12 else hour
  }

  /** Minutes below ten get a leading zero; the result is always two digits. */
  function MinuteText(m: nat): (s: string)
    ensures m < 60 ==> |s| == 2
    ensures IsDigits(s) && ParseNat(s) == m
  {
    ParseNatToString(m);
    if m < 10 then "0" + NatToString(m) else NatToString(m)
  }

  /** `hour:minutes:sec.miliSec` as the middleware logs it; seconds and milliseconds are not padded. */
  function TimeText(c: Clock): string {
    NatToString(DisplayHour(c.hour)) + ":" + MinuteText(c.minutes) + ":" + NatToString(c.sec) + "." + NatToString(c.miliSec)
  }

  /** `printTime` logs the same text with a suffix. */
  function PrintTimeText(c: Clock): (s: string)
    ensures |TimeText(c)| <= |s| && s[..|TimeText(c)|] == TimeText(c)
  {
    TimeText(c) + " --- time"
  }

  /** The four numbers read back from a logged time. */
  datatype Shown = Shown(hour: int, minutes: int, sec: int, miliSec: int)

  /** Reads a logged time: three `:`-separated parts, the last split at `.`. */
  function ParseTime(s: string): Option<Shown> {
    var parts := Split(s, ':');
    if |parts| != 3 then None
    else
      var tail := Split(parts[2], '.');
      if |tail| != 2 then None
      else Some(Shown(ParseNat(parts[0]), ParseNat(parts[1]), ParseNat(tail[0]), ParseNat(tail[1])))
  }

  /** The logged text determines the shown hour, the minutes, the seconds and the milliseconds. */
  lemma ParseTimeText(c: Clock)
    ensures ParseTime(TimeText(c)) == Some(Shown(DisplayHour(c.hour), c.minutes, c.sec, c.miliSec))
  {
    var h := NatToString(DisplayHour(c.hour));
    var m := MinuteText(c.minutes);
    var s := NatToString(c.sec);
    var ms := NatToString(c.miliSec);
    ParseNatToString(DisplayHour(c.hour));
    ParseNatToString(c.sec);
    ParseNatToString(c.miliSec);
    DigitsHaveNo(h, ':');
    DigitsHaveNo(m, ':');
    DigitsHaveNo(s, ':');
    DigitsHaveNo(s, '.');
    DigitsHaveNo(ms, ':');
    DigitsHaveNo(ms, '.');
    var last := s + "." + ms;
    assert ':' !in last;
    assert TimeText(c) == h + [':'] + m + [':'] + last;
    SplitThree(h, ':', m, last);
    SplitTwo(s, '.', ms);
  }

  // ---------------------------------------------------------------------
  // The middleware

  /** The part of a request the middleware touches. */
  class Request {
    const path: string
    const verb: string  // the HTTP method
    var requestTime: Option<Clock>

    constructor (path: string, verb: string)
      ensures this.path == path && this.verb == verb && requestTime == None
    {
      this.path := path;
      this.verb := verb;
      requestTime := None;
    }
  }

  const FaviconPath: string := "/favicon.ico"

  /** The object the middleware logs: `{ path, method, time }`. */
  datatype RequestLog = RequestLog(path: string, verb: string, time: string)

  /**
   * `pathMiddleWare`: a request for the favicon passes through untouched
   * and unlogged; any other gets the clock reading stored on it and its
   * path, method and time logged.
   */
  method PathMiddleWare(req: Request, now: Clock) returns (logged: Option<RequestLog>)
    modifies req
    ensures req.path == FaviconPath ==> logged == None && req.requestTime == old(req.requestTime)
    ensures req.path != FaviconPath ==>
      logged == Some(RequestLog(req.path, req.verb, TimeText(now))) && req.requestTime == Some(now)
  {
    var time := TimeText(now);
    if req.path == FaviconPath {
      return None;
    }
    req.requestTime := Some(now);
    logged := Some(RequestLog(req.path, req.verb, time));
  }

  /**
   * `printConsumedTime`: the distance between the stored reading and now.
   * Without a stored reading the source throws; that is `None` here.
   */
  method PrintConsumedTime(req: Request, now: Clock) returns (r: Option<(nat, nat)>)
    ensures r.None? <==> req.requestTime.None?
    ensures r.Some? ==> r.value == DiffToSecondsMillis(req.requestTime.value.utcMiliSec, now.utcMiliSec)
  {
    if req.requestTime.None? {
      return None;
    }
    var start := req.requestTime.value.utcMiliSec;
    r := Some(DiffToSecondsMillis(start, now.utcMiliSec));
  }
}
