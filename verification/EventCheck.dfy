/** The check an edited entry has to pass. */
module EventCheck {
  import opened CalDate
  import opened Events

  const MIN_YEAR := 1700
  const MAX_YEAR := 2299

  /** An entry's date; year 0 stands for every year and counts as a common one. */
  predicate GoodDate(d: Date) {
    (d.year == 0 || MIN_YEAR <= d.year <= MAX_YEAR) && Valid(d)
  }

  /** A time of day; a negative hour stands for the whole day. */
  predicate GoodTime(hour: int, min: int) {
    hour < 0 || (hour <= 23 && 0 <= min <= 59)
  }

  predicate Good(e: Event) {
    && GoodDate(Start(e)) && GoodTime(e.hour, e.min)
    && (e.kind == PERIOD ==> GoodDate(End(e)) && GoodTime(e.ehour, e.emin))
  }

  /** y is the number from lo to hi that is nearest to x. */
  predicate Nearest(y: int, x: int, lo: int, hi: int) {
    lo <= y <= hi && (x < lo ==> y == lo) && (x > hi ==> y == hi) && (lo <= x <= hi ==> y == x)
  }

  predicate CorrectedDate(d: Date, r: Date) {
    && (if d.year == 0 then r.year == 0 else Nearest(r.year, d.year, MIN_YEAR, MAX_YEAR))
    && Nearest(r.month, d.month, 1, 12)
    && Nearest(r.day, d.day, 1, MonthDays(LeapYear(r.year), r.month))
  }

  predicate CorrectedTime(hour: int, min: int, rhour: int, rmin: int) {
    if hour < 0 then rhour == hour && rmin == min
    else Nearest(rhour, hour, 0, 23) && Nearest(rmin, min, 0, 59)
  }

  method CheckDate(d: Date) returns (r: Date)
    ensures CorrectedDate(d, r)
  {
    r := d;
    if r.month < 1 { r := r.(month := 1); }
    if r.month > 12 { r := r.(month := 12); }
    var leap := false;
    if r.year != 0 {
      if r.year < MIN_YEAR { r := r.(year := MIN_YEAR); }
      if r.year > MAX_YEAR { r := r.(year := MAX_YEAR); }
      leap := LeapYear(r.year);
    }
    if r.day < 1 { r := r.(day := 1); }
    if r.day > MonthDays(leap, r.month) { r := r.(day := MonthDays(leap, r.month)); }
  }

  method CheckTime(hour: int, min: int) returns (rhour: int, rmin: int)
    ensures CorrectedTime(hour, min, rhour, rmin)
  {
    rhour, rmin := hour, min;
    if hour >= 0 {
      if hour > 23 { rhour := 23; }
      if min < 0 { rmin := 0; }
      if min > 59 { rmin := 59; }
    }
  }

  /** CheckEvent: the entry is corrected to the nearest good one, and the answer says whether it
      was good already; nothing else of it changes. */
  method CheckEvent(e: Event) returns (ok: bool, r: Event)
    ensures Good(r) && (ok <==> Good(e)) && (ok <==> r == e)
    ensures CorrectedDate(Start(e), Start(r)) && CorrectedTime(e.hour, e.min, r.hour, r.min)
    ensures e.kind == PERIOD ==> CorrectedDate(End(e), End(r)) && CorrectedTime(e.ehour, e.emin, r.ehour, r.emin)
    ensures e.kind != PERIOD ==> End(r) == End(e) && r.ehour == e.ehour && r.emin == e.emin
    ensures r.kind == e.kind && r.days == e.days && r.edays == e.edays && r.info == e.info
  {
    var start := CheckDate(Start(e));
    var hour, min := CheckTime(e.hour, e.min);
    r := e.(year := start.year, month := start.month, day := start.day, hour := hour, min := min);
    if e.kind == PERIOD {
      var end := CheckDate(End(e));
      var ehour, emin := CheckTime(e.ehour, e.emin);
      r := r.(eyear := end.year, emonth := end.month, eday := end.day, ehour := ehour, emin := emin);
    }
    ok := r == e;
  }
}
