/**
 * The one time format the scraper reads: `datetime.strptime(text, "%H:%M:%S")`,
 * and the conversion of the parsed time of day into a whole number of seconds.
 */
module ClockTime {
  import opened Wrappers
  import opened Text

  /** The hour, minute and second of the `datetime` that `strptime` returns. */
  datatype Time = Time(hour: nat, minute: nat, second: nat)

  /** The ranges `datetime` admits for a time of day. */
  predicate Valid(t: Time) {
    t.hour <= 23 && t.minute <= 59 && t.second <= 59
  }

  /** One `%H`, `%M` or `%S` field: one or two ASCII digits whose value is at most `max`. */
  predicate IsField(p: string, max: nat) {
    1 <= |p| <= 2 && AllDigits(p) && DecimalValue(p) <= max
  }

  function ParseField(p: string, max: nat): Option<nat> {
    if IsField(p, max) then Some(DecimalValue(p)) else None
  }

  /**
   * `datetime.strptime(text, "%H:%M:%S")`. `None` stands for the `ValueError`
   * Python raises: a text that is not three colon-separated fields of one or two
   * digits, or whose fields are out of range (the `%S` pattern also admits 60 and
   * 61, which the `datetime` constructor then rejects, so the outcome is the same).
   */
  function Parse(text: string): (r: Option<Time>)
    ensures r.Some? ==> Valid(r.value)
  {
    var f := Split(text, ':');
    if |f| != 3 then None
    else
      match (ParseField(f[0], 23), ParseField(f[1], 59), ParseField(f[2], 59))
      case (Some(h), Some(m), Some(s)) => Some(Time(h, m, s))
      case _ => None
  }

  /** `text` is `h:m:s` with three well-formed fields that spell out `t`. */
  predicate Spells(text: string, h: string, m: string, s: string, t: Time) {
    text == h + ":" + m + ":" + s
    && IsField(h, 23) && IsField(m, 59) && IsField(s, 59)
    && t == Time(DecimalValue(h), DecimalValue(m), DecimalValue(s))
  }

  lemma JoinThree(h: string, m: string, s: string)
    ensures Join([h, m, s], ':') == h + ":" + m + ":" + s
  {
    assert [h, m, s][1..] == [m, s];
    assert [m, s][1..] == [s];
    assert Join([m, s], ':') == m + [':'] + s;
    assert Join([h, m, s], ':') == h + [':'] + (m + [':'] + s);
  }

  /** Parse accepts exactly the texts made of three in-range fields, and reads their values. */
  lemma {:induction false} ParseAccepts(text: string, t: Time)
    ensures Parse(text) == Some(t) <==> exists h, m, s :: Spells(text, h, m, s, t)
  {
    if Parse(text) == Some(t) {
      var f := Split(text, ':');
      JoinSplit(text, ':');
      assert f == [f[0], f[1], f[2]];
      JoinThree(f[0], f[1], f[2]);
      assert Spells(text, f[0], f[1], f[2], t);
    }
    if h, m, s :| Spells(text, h, m, s, t) {
      JoinThree(h, m, s);
      SplitJoin([h, m, s], ':');
    }
  }

  /** The scraper's conversion: `(hour * 60 + minute) * 60 + second`; a valid time is less than a day. */
  function Seconds(t: Time): (n: nat)
    ensures Valid(t) ==> n < 86400
  {
    (t.hour * 60 + t.minute) * 60 + t.second
  }

  /** The time of day a number of seconds after midnight stands for. */
  function FromSeconds(n: nat): Time {
    Time(n / 3600, n / 60 % 60, n % 60)
  }

  /** Seconds loses nothing on valid times. */
  lemma SecondsInjective(t: Time)
    requires Valid(t)
    ensures FromSeconds(Seconds(t)) == t
  {
    var n := Seconds(t);
    var q := t.hour * 60 + t.minute;
    assert n == q * 60 + t.second;
    assert n / 60 == q && n % 60 == t.second;
    assert q / 60 == t.hour && q % 60 == t.minute;
    assert n / 3600 == (n / 60) / 60;
  }

  /** Every number of seconds within a day is the Seconds of exactly one valid time. */
  lemma SecondsOnto(n: nat)
    requires n < 86400
    ensures Valid(FromSeconds(n)) && Seconds(FromSeconds(n)) == n
  {
    var q := n / 60;
    assert n == q * 60 + n % 60;
    assert q == (q / 60) * 60 + q % 60;
    assert n / 3600 == q / 60;
  }

  function Pad2(n: nat): (r: string)
    requires n < 100
  {
    [DigitChar(n / 10), DigitChar(n % 10)]
  }

  /**
   * The canonical `HH:MM:SS` spelling of a valid time, two digits per field.
   * The scraper never writes times; this exists so that FormatRoundTrip can
   * state that Parse reads every valid time back.
   */
  function Format(t: Time): string
    requires Valid(t)
  {
    Join([Pad2(t.hour), Pad2(t.minute), Pad2(t.second)], ':')
  }

  lemma Pad2Value(n: nat, max: nat)
    requires n <= max && n < 100
    ensures ParseField(Pad2(n), max) == Some(n)
  {
    var p := Pad2(n);
    assert p[..1][..0] == [];
    assert DecimalValue(p[..1]) == DigitValue(p[0]);
    assert DecimalValue(p) == DecimalValue(p[..1]) * 10 + DigitValue(p[1]);
  }

  /** Parse reads back every time Format writes. */
  lemma {:induction false} FormatRoundTrip(t: Time)
    requires Valid(t)
    ensures Parse(Format(t)) == Some(t)
  {
    var parts := [Pad2(t.hour), Pad2(t.minute), Pad2(t.second)];
    SplitJoin(parts, ':');
    Pad2Value(t.hour, 23);
    Pad2Value(t.minute, 59);
    Pad2Value(t.second, 59);
  }
}
