/** Reading an entry's date field with sscanf. */
module Scanning {
  import opened Decimal
  import opened Events

  datatype Field = DAY | MONTH | YEAR | HOUR | MIN | EDAY | EMONTH | EYEAR | EHOUR | EMIN

  function Set(e: Event, f: Field, n: int): Event {
    match f
    case DAY => e.(day := n)
    case MONTH => e.(month := n)
    case YEAR => e.(year := n)
    case HOUR => e.(hour := n)
    case MIN => e.(min := n)
    case EDAY => e.(eday := n)
    case EMONTH => e.(emonth := n)
    case EYEAR => e.(eyear := n)
    case EHOUR => e.(ehour := n)
    case EMIN => e.(emin := n)
  }

  /** A format: white space, a character to match, or a number of at most so many characters. */
  datatype Format = End | Space(next: Format) | Text(c: char, next: Format) | Number(width: nat, field: Field, next: Format)

  /** How many digits a string begins with, looking at so many characters at most. */
  function DigitRun(s: string, width: nat): (k: nat)
    ensures k <= |s| && k <= width && AllDigits(s[..k])
    ensures k < |s| && k < width ==> !IsDigit(s[k])
  {
    if s != "" && width > 0 && IsDigit(s[0]) then
      var k := 1 + DigitRun(s[1..], width - 1);
      assert s[1..][..k - 1] == s[1..k];
      k
    else 0
  }

  /** %u accepts a sign. */
  function SignLength(s: string, width: nat): (k: nat)
    ensures k <= |s| && k <= width
  {
    if s != "" && width > 0 && (s[0] == '+' || s[0] == '-') then 1 else 0
  }

  /** sscanf: the fields the string provides are set, up to the first that does not match. */
  function Scan(format: Format, s: string, e: Event): Event
    decreases format
  {
    match format
    case End => e
    case Space(next) => Scan(next, SkipSpace(s), e)
    case Text(c, next) => if s != "" && s[0] == c then Scan(next, s[1..], e) else e
    case Number(width, field, next) =>
      var t := SkipSpace(s);
      var sign := SignLength(t, width);
      var k := DigitRun(t[sign..], width - sign);
      if k == 0 then e
      else
        var n: int := Value(t[sign..][..k]);
        Scan(next, t[sign..][k..], Set(e, field, if sign == 1 && t[0] == '-' then -n else n))
  }

  lemma {:induction false} DigitRunOf(s: string, t: string)
    requires AllDigits(s)
    ensures DigitRun(s + t, |s|) == |s|
  {
    if s != "" {
      DigitRunOf(s[1..], t);
      assert (s + t)[1..] == s[1..] + t;
    }
  }

  /** A number printed with a width is read back with that width, whatever follows. */
  lemma ScanNumber(width: nat, field: Field, next: Format, n: nat, t: string, e: Event)
    requires width > 0 && n < Power10(width)
    ensures Scan(Number(width, field, next), Padded(n, width) + t, e) == Scan(next, t, Set(e, field, n))
  {
    var p := Padded(n, width);
    PaddedRead(n, width);
    PaddedWidth(n, width);
    DigitRunOf(p, t);
    assert IsDigit((p + t)[0]);
    assert (p + t)[0..] == p + t;
    assert (p + t)[..|p|] == p && (p + t)[|p|..] == t;
  }

  lemma ScanText(c: char, next: Format, t: string, e: Event)
    ensures Scan(Text(c, next), [c] + t, e) == Scan(next, t, e)
  {
    assert ([c] + t)[1..] == t;
  }

  lemma ScanSpace(next: Format, t: string, e: Event)
    requires t != "" && !IsSpace(t[0])
    ensures Scan(Space(next), " " + t, e) == Scan(next, t, e)
  {
    assert (" " + t)[1..] == t;
    assert IsSpace((" " + t)[0]) && SkipSpace(t) == t;
  }
}
