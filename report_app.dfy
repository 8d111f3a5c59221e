/** The report viewer pi/src/surveil_report_app.py: load the stored reports and label each one with
    how long ago it was taken and when. */
module ReportApp {
  import opened Wrappers
  import opened Text

  const MINUTE: real := 60.0
  const HOUR: real := 3600.0
  const DAY: real := 86400.0

  const RELATIVE_KEY: string := "timestamp_relative"
  const ABSOLUTE_KEY: string := "timestamp_absolute"

  /** The relative label of a report taken `delta` seconds ago: whole seconds under a minute, whole
      minutes under an hour, whole hours under a day, and whole days beyond. */
  function RelativeTime(delta: real): string {
    if delta < MINUTE then IntToString(Trunc(delta)) + "s ago"
    else if delta < HOUR then IntToString((delta / MINUTE).Floor) + "m ago"
    else if delta < DAY then IntToString((delta / HOUR).Floor) + "hr ago"
    else IntToString((delta / DAY).Floor) + "d ago"
  }

  /** `n` whole units of `unit` seconds fit in `delta` and `n + 1` do not. */
  predicate WholeUnits(delta: real, unit: real, n: int)
    requires unit > 0.0
  {
    n as real * unit <= delta < (n as real + 1.0) * unit
  }

  lemma FloorIsWholeUnits(delta: real, unit: real)
    requires unit > 0.0
    ensures WholeUnits(delta, unit, (delta / unit).Floor)
  {
    var n := (delta / unit).Floor;
    assert n as real <= delta / unit < n as real + 1.0;
    assert n as real * unit <= (delta / unit) * unit;
    assert (delta / unit) * unit < (n as real + 1.0) * unit;
  }

  /** What a relative label says: read back, it is a number and a unit; the number counts the whole
      units elapsed (whole seconds toward zero under a minute), and the unit is the largest one that
      the elapsed time fills. */
  lemma RelativeTimeMeaning(delta: real)
    ensures var r := SplitInt(RelativeTime(delta));
            && r.Some?
            && (delta < MINUTE ==> r.value.1 == "s ago" && r.value.0 == Trunc(delta))
            && (MINUTE <= delta < HOUR ==>
                  r.value.1 == "m ago" && WholeUnits(delta, MINUTE, r.value.0) && 1 <= r.value.0 < 60)
            && (HOUR <= delta < DAY ==>
                  r.value.1 == "hr ago" && WholeUnits(delta, HOUR, r.value.0) && 1 <= r.value.0 < 24)
            && (DAY <= delta ==> r.value.1 == "d ago" && WholeUnits(delta, DAY, r.value.0) && 1 <= r.value.0)
  {
    if delta < MINUTE {
      SplitIntToString(Trunc(delta), "s ago");
    } else if delta < HOUR {
      SplitIntToString((delta / MINUTE).Floor, "m ago");
      FloorIsWholeUnits(delta, MINUTE);
    } else if delta < DAY {
      SplitIntToString((delta / HOUR).Floor, "hr ago");
      FloorIsWholeUnits(delta, HOUR);
    } else {
      SplitIntToString((delta / DAY).Floor, "d ago");
      FloorIsWholeUnits(delta, DAY);
    }
  }

  /** One stored report: its POSIX `timestamp` and its other keys, each value as text. */
  datatype StoredReport = StoredReport(timestamp: real, fields: map<string, string>)

  /** A report as the page shows it: the two timestamp keys set; `format` stands for the
      '%a %m/%d, %-I:%M%p' rendering in Los Angeles time. */
  function Annotated(r: StoredReport, now: real, format: real -> string): (a: StoredReport)
    ensures a.timestamp == r.timestamp
  {
    r.(fields := r.fields[RELATIVE_KEY := RelativeTime(now - r.timestamp)][ABSOLUTE_KEY := format(r.timestamp)])
  }

  /** Annotating keeps the timestamp and every other key with its value, and adds exactly the two
      timestamp keys. */
  lemma AnnotatedKeepsOthers(r: StoredReport, now: real, format: real -> string)
    ensures var a := Annotated(r, now, format);
            && a.timestamp == r.timestamp
            && a.fields.Keys == r.fields.Keys + {RELATIVE_KEY, ABSOLUTE_KEY}
            && a.fields[RELATIVE_KEY] == RelativeTime(now - r.timestamp)
            && a.fields[ABSOLUTE_KEY] == format(r.timestamp)
            && forall k :: k in r.fields && k != RELATIVE_KEY && k != ABSOLUTE_KEY ==> a.fields[k] == r.fields[k]
  {
    assert RELATIVE_KEY != ABSOLUTE_KEY;
  }

  /** load_reports: a missing report file gives the empty list; otherwise every stored report, in
      order, annotated as of `now`. */
  method LoadReports(present: bool, stored: seq<StoredReport>, now: real, format: real -> string)
    returns (reports: seq<StoredReport>)
    ensures !present ==> reports == []
    ensures present ==> |reports| == |stored|
    ensures present ==> forall i :: 0 <= i < |stored| ==> reports[i] == Annotated(stored[i], now, format)
  {
    if !present {
      return [];
    }
    reports := stored;
    var i := 0;
    while i < |reports|
      invariant |reports| == |stored| && 0 <= i <= |reports|
      invariant forall k :: 0 <= k < i ==> reports[k] == Annotated(stored[k], now, format)
      invariant forall k :: i <= k < |reports| ==> reports[k] == stored[k]
    {
      var report := reports[i];
      var relative := RelativeTime(now - report.timestamp);
      var absolute := format(report.timestamp);
      report := report.(fields := report.fields[RELATIVE_KEY := relative]);
      report := report.(fields := report.fields[ABSOLUTE_KEY := absolute]);
      assert report == Annotated(stored[i], now, format);
      reports := reports[i := report];
      i := i + 1;
    }
  }
}
