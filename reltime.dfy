// Relative times (pkg/series/time.go, ParseTime): "now", or an optional sign
// followed by components such as 1y2M3d1h30m15s. Seconds, minutes and hours
// move the time as they are read; days, months and years are summed and
// applied once, through the calendar, at the end.
module RelTime {
  import opened Wrappers
  import Text

  /** An instant, as a count of nanoseconds. */
  type Time = int

  const Second: int := 1_000_000_000
  const Minute: int := 60 * Second
  const Hour: int := 60 * Minute

  /** The largest value of Go's int and int64. */
  const MaxInt: int := 0x7FFF_FFFF_FFFF_FFFF

  /** Two's-complement 64-bit wrap-around, as Go's int64 arithmetic does. */
  function Wrap64(x: int): (r: int)
    ensures -MaxInt - 1 <= r <= MaxInt
    ensures -MaxInt - 1 <= x <= MaxInt ==> r == x
  {
    (x + MaxInt + 1) % (2 * (MaxInt + 1)) - (MaxInt + 1)
  }

  /** What ParseTime takes from outside: the current time (already rounded
      to the second), the RFC 3339 parser (None when the text is not such
      a date), and time.Time.AddDate with its calendar normalisation. */
  datatype Clock = Clock(now: Time, parseRFC3339: string -> Option<Time>, addDate: (Time, int, int, int) -> Time)

  /** The accumulated offset: nanoseconds already added to the time, and
      the years, months and days still to be added. */
  datatype Offset = Offset(nanos: int, years: int, months: int, days: int)

  const Zero: Offset := Offset(0, 0, 0, 0)

  function Plus(a: Offset, b: Offset): Offset
  {
    Offset(a.nanos + b.nanos, a.years + b.years, a.months + b.months, a.days + b.days)
  }

  function Negate(a: Offset): Offset
  {
    Offset(-a.nanos, -a.years, -a.months, -a.days)
  }

  /** How the loop adds a component: exactly, or with the int64 wrap-around
      of the source's arithmetic. */
  datatype Arith = Exact | Wrapped

  function Fit(x: int, arith: Arith): int
  {
    if arith == Wrapped then Wrap64(x) else x
  }

  /** The length of the run of ASCII digits at the start of s. */
  function DigitRun(s: string): (k: nat)
    ensures k <= |s| && Text.AllDigits(s[..k])
    ensures k < |s| ==> !Text.IsDecimalDigit(s[k])
  {
    if s == [] || !Text.IsDecimalDigit(s[0]) then 0
    else
      var k := 1 + DigitRun(s[1..]);
      assert s[..k] == [s[0]] + s[1..][..k - 1];
      k
  }

  /** strconv.Atoi of a run of digits: the empty run and values past the
      int range fail. */
  function Atoi(s: string): (r: Option<int>)
    requires Text.AllDigits(s)
    ensures r.Some? <==> s != [] && Text.DecimalValue(s) <= MaxInt
    ensures r.Some? ==> r.value == Text.DecimalValue(s)
  {
    if s == [] || Text.DecimalValue(s) > MaxInt then None else Some(Text.DecimalValue(s))
  }

  predicate IsClockUnit(u: char) { u == 's' || u == 'm' || u == 'h' }

  predicate IsUnit(u: char) { IsClockUnit(u) || u == 'd' || u == 'M' || u == 'y' }

  /** The length of a second, a minute or an hour. */
  function UnitLength(u: char): int
    requires IsClockUnit(u)
  {
    if u == 's' then Second else if u == 'm' then Minute else Hour
  }

  /** One component, v of unit u, added to acc as the switch of the loop
      does. */
  function Step(acc: Offset, v: int, u: char, arith: Arith): Offset
    requires IsUnit(u)
  {
    if IsClockUnit(u) then acc.(nanos := acc.nanos + Fit(v * UnitLength(u), arith))
    else if u == 'd' then acc.(days := Fit(acc.days + v, arith))
    else if u == 'M' then acc.(months := Fit(acc.months + v, arith))
    else acc.(years := Fit(acc.years + v, arith))
  }

  /** The components of text, read from the left into acc: each is a run
      of digits that Atoi accepts, then one unit letter. */
  function Components(text: string, neg: bool, acc: Offset, arith: Arith): Option<Offset>
    decreases |text|
  {
    if text == [] then Some(acc)
    else
      var k := DigitRun(text);
      if k == |text| then None
      else
        var v := Atoi(text[..k]);
        if v.None? || !IsUnit(text[k]) then None
        else Components(text[k + 1..], neg, Step(acc, if neg then -v.value else v.value, text[k], arith), arith)
  }

  /** The clock's RFC 3339 parser does not take text as a date. */
  predicate NotDate(clock: Clock, text: string)
  {
    clock.parseRFC3339(text).None?
  }

  function Invalid(text: string): string
  {
    "invalid time: " + text
  }

  /** The offset applied to now: the nanoseconds at once, then the calendar
      part, only when one of its fields is not zero. */
  function Apply(clock: Clock, o: Offset): Time
  {
    var t := clock.now + o.nanos;
    if o.days != 0 || o.months != 0 || o.years != 0 then clock.addDate(t, o.years, o.months, o.days) else t
  }

  function Evaluate(text: string, clock: Clock, arith: Arith): Result<Time>
  {
    if clock.parseRFC3339(text).Some? then Ok(clock.parseRFC3339(text).value)
    else if text == "" then Err(Invalid(text))
    else if text == "now" then Ok(clock.now)
    else
      var neg := text[0] == '-';
      var body := if text[0] == '-' || text[0] == '+' then text[1..] else text;
      if body == "" then Err(Invalid(text))
      else
        match Components(body, neg, Zero, arith)
        case None => Err(Invalid(text))
        case Some(o) => Ok(Apply(clock, o))
  }

  /** ParseTime as written: each duration product and each calendar sum
      wraps around at 64 bits. */
  function ParseTimeAsWritten(text: string, clock: Clock): Result<Time>
  {
    Evaluate(text, clock, Wrapped)
  }

  /** ParseTime as intended: the offset the text denotes, exactly. */
  function TimeOfText(text: string, clock: Clock): Result<Time>
  {
    Evaluate(text, clock, Exact)
  }

  /** ParseTime: the loop over the components, with the inner loop that
      collects the digits. */
  method ParseTime(text: string, clock: Clock) returns (r: Result<Time>)
    ensures r == TimeOfText(text, clock)
  {
    var parsed := clock.parseRFC3339(text);
    if parsed.Some? {
      return Ok(parsed.value);
    }
    var t := clock.now;
    var orig := text;
    if text == "" {
      return Err(Invalid(orig));
    } else if text == "now" {
      return Ok(t);
    }
    var neg := false;
    var rest := text;
    var c := rest[0];
    if c == '-' || c == '+' {
      neg := c == '-';
      rest := rest[1..];
    }
    if rest == "" {
      return Err(Invalid(orig));
    }
    EvaluateBody(text, clock, neg, rest);
    var ok, y, m, d;
    ok, t, y, m, d := ReadComponents(rest, neg, t);
    if !ok {
      return Err(Invalid(orig));
    }
    if d != 0 || m != 0 || y != 0 {
      t := clock.addDate(t, y, m, d);
    }
    return Ok(t);
  }

  /** The loop of ParseTime over the components of body, starting from the
      time now: false when a component is malformed, otherwise the moved
      time and the calendar counts. */
  method ReadComponents(body: string, neg: bool, now: Time) returns (ok: bool, t: Time, y: int, m: int, d: int)
    ensures ok == Components(body, neg, Zero, Exact).Some?
    ensures ok ==> Components(body, neg, Zero, Exact) == Some(Offset(t - now, y, m, d))
  {
    t, y, m, d := now, 0, 0, 0;
    var rest := body;
    while rest != ""
      invariant Components(body, neg, Zero, Exact) == Components(rest, neg, Offset(t - now, y, m, d), Exact)
      decreases |rest|
    {
      var n := ScanDigits(rest);
      var buf := rest[..n];
      if n == |rest| {
        ComponentsFail(rest, neg, Offset(t - now, y, m, d), n);
        return false, t, y, m, d;
      }
      var v := Atoi(buf);
      if v.None? {
        ComponentsFail(rest, neg, Offset(t - now, y, m, d), n);
        return false, t, y, m, d;
      }
      var value := v.value;
      if neg {
        value := -value;
      }
      var u := rest[n];
      if !IsUnit(u) {
        ComponentsFail(rest, neg, Offset(t - now, y, m, d), n);
        return false, t, y, m, d;
      }
      ComponentsUnfold(rest, neg, Offset(t - now, y, m, d), n, value);
      t, y, m, d := AddComponent(now, t, y, m, d, value, u);
      rest := rest[n + 1..];
    }
    return true, t, y, m, d;
  }

  /** The switch of ParseTime's loop: a clock unit moves the time at once,
      a calendar unit adds to its own count. */
  method AddComponent(now: Time, t: Time, y: int, m: int, d: int, value: int, u: char)
    returns (t': Time, y': int, m': int, d': int)
    requires IsUnit(u)
    ensures Offset(t' - now, y', m', d') == Step(Offset(t - now, y, m, d), value, u, Exact)
  {
    t', y', m', d' := t, y, m, d;
    if u == 's' {
      t' := t + value * Second;
    } else if u == 'm' {
      t' := t + value * Minute;
    } else if u == 'h' {
      t' := t + value * Hour;
    } else if u == 'd' {
      d' := d + value;
    } else if u == 'M' {
      m' := m + value;
    } else {
      y' := y + value;
    }
  }

  /** The inner loop of ParseTime: the digits before the next unit. */
  method ScanDigits(s: string) returns (n: nat)
    ensures n == DigitRun(s)
  {
    n := 0;
    while n < |s| && Text.IsDecimalDigit(s[n])
      invariant 0 <= n <= |s|
      invariant forall i :: 0 <= i < n ==> Text.IsDecimalDigit(s[i])
    {
      n := n + 1;
    }
    RunIsDigitRun(s, n);
  }

  lemma EvaluateBody(text: string, clock: Clock, neg: bool, body: string)
    requires clock.parseRFC3339(text).None? && text != "" && text != "now"
    requires neg == (text[0] == '-') && body == if text[0] == '-' || text[0] == '+' then text[1..] else text
    requires body != ""
    ensures TimeOfText(text, clock) == match Components(body, neg, Zero, Exact)
      case None => Err(Invalid(text))
      case Some(o) => Ok(Apply(clock, o))
  {
  }

  lemma ComponentsFail(text: string, neg: bool, acc: Offset, n: nat)
    requires n == DigitRun(text) && text != []
    requires n == |text| || Atoi(text[..n]).None? || !IsUnit(text[n])
    ensures Components(text, neg, acc, Exact).None?
  {
  }

  lemma ComponentsUnfold(text: string, neg: bool, acc: Offset, n: nat, v: int)
    requires n == DigitRun(text) && n < |text|
    requires Atoi(text[..n]).Some? && IsUnit(text[n])
    requires v == if neg then -Atoi(text[..n]).value else Atoi(text[..n]).value
    ensures Components(text, neg, acc, Exact) == Components(text[n + 1..], neg, Step(acc, v, text[n], Exact), Exact)
  {
  }

  lemma RunIsDigitRun(s: string, n: nat)
    requires n <= |s| && (forall i :: 0 <= i < n ==> Text.IsDecimalDigit(s[i]))
    requires n < |s| ==> !Text.IsDecimalDigit(s[n])
    ensures DigitRun(s) == n
  {
    if n > 0 {
      RunIsDigitRun(s[1..], n - 1);
    }
  }

  // Properties of the relative-time syntax.

  function ShiftBy(o: Option<Offset>, acc: Offset): Option<Offset>
  {
    if o.None? then None else Some(Plus(acc, o.value))
  }

  function NegateAll(o: Option<Offset>): Option<Offset>
  {
    if o.None? then None else Some(Negate(o.value))
  }

  /** The components read into acc give acc plus what they give alone: the
      loop's running totals only add up. */
  lemma {:induction false} ComponentsFromAcc(text: string, neg: bool, acc: Offset)
    ensures Components(text, neg, acc, Exact) == ShiftBy(Components(text, neg, Zero, Exact), acc)
    decreases |text|
  {
    if text != [] {
      var k := DigitRun(text);
      if k < |text| && Atoi(text[..k]).Some? && IsUnit(text[k]) {
        var v := if neg then -Atoi(text[..k]).value else Atoi(text[..k]).value;
        var rest := text[k + 1..];
        var one := Step(Zero, v, text[k], Exact);
        ComponentsUnfold(text, neg, acc, k, v);
        ComponentsUnfold(text, neg, Zero, k, v);
        ComponentsFromAcc(rest, neg, Step(acc, v, text[k], Exact));
        ComponentsFromAcc(rest, neg, one);
        assert Step(acc, v, text[k], Exact) == Plus(acc, one);
        var r := Components(rest, neg, Zero, Exact);
        if r.Some? {
          assert Plus(Plus(acc, one), r.value) == Plus(acc, Plus(one, r.value));
        }
      } else {
        ComponentsFail(text, neg, acc, k);
        ComponentsFail(text, neg, Zero, k);
      }
    }
  }

  /** A leading minus negates every component, the calendar ones included. */
  lemma {:induction false} MinusNegates(text: string, acc: Offset)
    ensures Components(text, true, Negate(acc), Exact) == NegateAll(Components(text, false, acc, Exact))
    decreases |text|
  {
    if text != [] {
      var k := DigitRun(text);
      if k < |text| && Atoi(text[..k]).Some? && IsUnit(text[k]) {
        var v := Atoi(text[..k]).value;
        assert Step(Negate(acc), -v, text[k], Exact) == Negate(Step(acc, v, text[k], Exact));
        MinusNegates(text[k + 1..], Step(acc, v, text[k], Exact));
      }
    }
  }

  /** One complete component, digits then a unit. */
  lemma OneComponent(digits: string, u: char, neg: bool, acc: Offset)
    requires digits != [] && Text.AllDigits(digits) && Text.DecimalValue(digits) <= MaxInt && IsUnit(u)
    ensures Components(digits + [u], neg, acc, Exact)
      == Some(Step(acc, if neg then -(Text.DecimalValue(digits) as int) else Text.DecimalValue(digits), u, Exact))
  {
    var text := digits + [u];
    RunIsDigitRun(text, |digits|);
    assert text[..|digits|] == digits;
    assert text[|digits| + 1..] == [];
  }

  /** Components read one after another: the totals of a complete prefix
      carry on into the rest, so repeated units accumulate. */
  lemma {:induction false} ComponentsConcat(a: string, b: string, neg: bool, acc: Offset)
    requires Components(a, neg, acc, Exact).Some?
    ensures Components(a + b, neg, acc, Exact) == Components(b, neg, Components(a, neg, acc, Exact).value, Exact)
    decreases |a|
  {
    if a == [] {
      assert a + b == b;
    } else {
      var k := DigitRun(a);
      assert k < |a| && Atoi(a[..k]).Some? && IsUnit(a[k]);
      var v := if neg then -Atoi(a[..k]).value else Atoi(a[..k]).value;
      ComponentsUnfold(a, neg, acc, k, v);
      SameHead(a, b, neg, acc, k, v);
      ComponentsConcat(a[k + 1..], b, neg, Step(acc, v, a[k], Exact));
    }
  }

  lemma SameHead(a: string, b: string, neg: bool, acc: Offset, k: nat, v: int)
    requires k == DigitRun(a) && k < |a| && Atoi(a[..k]).Some? && IsUnit(a[k])
    requires v == if neg then -Atoi(a[..k]).value else Atoi(a[..k]).value
    ensures Components(a + b, neg, acc, Exact) == Components(a[k + 1..] + b, neg, Step(acc, v, a[k], Exact), Exact)
  {
    var ab := a + b;
    assert ab[..k] == a[..k];
    assert ab[k] == a[k];
    assert forall i :: 0 <= i < k ==> Text.IsDecimalDigit(ab[i]) by {
      assert Text.AllDigits(a[..k]);
    }
    RunIsDigitRun(ab, k);
    assert ab[k + 1..] == a[k + 1..] + b;
    ComponentsUnfold(ab, neg, acc, k, v);
  }

  /** The empty text and a bare sign are not relative times. */
  lemma Malformed(clock: Clock)
    requires NotDate(clock, "") && NotDate(clock, "-") && NotDate(clock, "+")
    ensures TimeOfText("", clock) == Err("invalid time: ")
    ensures TimeOfText("-", clock) == Err("invalid time: -")
    ensures TimeOfText("+", clock) == Err("invalid time: +")
  {
    assert "-" != "now" && "+" != "now";
    assert "-"[1..] == [] && "+"[1..] == [];
  }

  /** Digits without a unit, a unit without digits, and an unknown unit. */
  lemma MalformedDigits(clock: Clock, digits: string, c: char)
    requires digits != [] && Text.AllDigits(digits)
    requires !Text.IsDecimalDigit(c) && c != '-' && c != '+'
    requires NotDate(clock, digits) && NotDate(clock, [c] + digits) && NotDate(clock, digits + [c])
    ensures TimeOfText(digits, clock) == Err(Invalid(digits))
    ensures [c] + digits != "now" ==> TimeOfText([c] + digits, clock) == Err(Invalid([c] + digits))
    ensures !IsUnit(c) && Text.DecimalValue(digits) <= MaxInt ==> TimeOfText(digits + [c], clock) == Err(Invalid(digits + [c]))
  {
    RunIsDigitRun(digits, |digits|);
    assert digits[..|digits|] == digits;
    var w := [c] + digits;
    RunIsDigitRun(w, 0);
    var x := digits + [c];
    RunIsDigitRun(x, |digits|);
  }

  /** A signed text: '+' reads as no sign, '-' as the negated offset. */
  lemma Signed(clock: Clock, body: string)
    requires body != [] && body[0] != '-' && body[0] != '+' && body != "now"
    requires NotDate(clock, body) && NotDate(clock, "-" + body) && NotDate(clock, "+" + body)
    ensures Components(body, false, Zero, Exact).None? ==> TimeOfText(body, clock).Err? && TimeOfText("-" + body, clock).Err? && TimeOfText("+" + body, clock).Err?
    ensures Components(body, false, Zero, Exact).Some? ==>
      var o := Components(body, false, Zero, Exact).value;
      TimeOfText(body, clock) == Ok(Apply(clock, o)) && TimeOfText("+" + body, clock) == Ok(Apply(clock, o))
      && TimeOfText("-" + body, clock) == Ok(Apply(clock, Negate(o)))
  {
    MinusNegates(body, Zero);
    assert Negate(Zero) == Zero;
    assert ("-" + body)[1..] == body;
    assert ("+" + body)[1..] == body;
  }

  /** "-" then N of a clock unit is N such units before now, for every N
      that Atoi accepts. */
  lemma Ago(clock: Clock, digits: string, u: char)
    requires digits != [] && Text.AllDigits(digits) && Text.DecimalValue(digits) <= MaxInt
    requires IsClockUnit(u)
    requires NotDate(clock, "-" + digits + [u])
    ensures TimeOfText("-" + digits + [u], clock) == Ok(clock.now - Text.DecimalValue(digits) * UnitLength(u))
  {
    var body := digits + [u];
    assert "-" + digits + [u] == "-" + body;
    OneComponent(digits, u, true, Zero);
    ClockAgo(clock, body, Text.DecimalValue(digits), u);
  }

  /** A negated text of one clock component. */
  lemma ClockAgo(clock: Clock, body: string, n: int, u: char)
    requires body != [] && IsClockUnit(u) && NotDate(clock, "-" + body)
    requires Components(body, true, Zero, Exact) == Some(Step(Zero, -n, u, Exact))
    ensures TimeOfText("-" + body, clock) == Ok(clock.now - n * UnitLength(u))
  {
    MinusText(clock, body, Exact);
    ClockStep(n, u);
    NanosOnly(clock, -(n * UnitLength(u)));
  }

  lemma ClockStep(n: int, u: char)
    requires IsClockUnit(u)
    ensures Step(Zero, -n, u, Exact) == Offset(-(n * UnitLength(u)), 0, 0, 0)
  {
    assert (-n) * UnitLength(u) == -(n * UnitLength(u));
  }

  lemma NanosOnly(clock: Clock, x: int)
    ensures Apply(clock, Offset(x, 0, 0, 0)) == clock.now + x
  {
  }

  /** A text that starts with '-' is read as its body, negated. */
  lemma MinusText(clock: Clock, body: string, arith: Arith)
    requires body != []
    requires NotDate(clock, "-" + body)
    ensures var c := Components(body, true, Zero, arith);
      Evaluate("-" + body, clock, arith) == if c.None? then Err(Invalid("-" + body)) else Ok(Apply(clock, c.value))
  {
    var text := "-" + body;
    assert text[0] == '-';
    assert text != "now" by { assert "now"[0] == 'n'; }
    assert text[1..] == body;
  }

  /** The int64 product of the source: three million hours before now is
      read as about 242 years after it. */
  lemma HoursWrapAround(clock: Clock)
    requires NotDate(clock, "-3000000h")
    ensures ParseTimeAsWritten("-3000000h", clock) == Ok(clock.now + 7_646_744_073_709_551_616)
    ensures TimeOfText("-3000000h", clock) == Ok(clock.now - 10_800_000_000_000_000_000)
  {
    var digits := "3000000";
    ThreeMillion();
    assert "-3000000h" == "-" + digits + ['h'];
    Ago(clock, digits, 'h');
    HoursAsWritten(clock);
  }

  lemma HoursAsWritten(clock: Clock)
    requires NotDate(clock, "-3000000h")
    ensures ParseTimeAsWritten("-3000000h", clock) == Ok(clock.now + 7_646_744_073_709_551_616)
  {
    var body := "3000000h";
    assert "-3000000h" == "-" + body;
    MinusText(clock, body, Wrapped);
    WrappedHours();
    NanosOnly(clock, 7_646_744_073_709_551_616);
  }

  lemma ThreeMillion()
    ensures Text.DecimalValue("3000000") == 3000000
  {
    assert Text.DecimalValue("3") == 3;
    assert Text.DecimalValue("30") == 30 by { assert "30"[..1] == "3"; }
    assert Text.DecimalValue("300") == 300 by { assert "300"[..2] == "30"; }
    assert Text.DecimalValue("3000") == 3000 by { assert "3000"[..3] == "300"; }
    assert Text.DecimalValue("30000") == 30000 by { assert "30000"[..4] == "3000"; }
    assert Text.DecimalValue("300000") == 300000 by { assert "300000"[..5] == "30000"; }
    assert Text.DecimalValue("3000000") == 3000000 by { assert "3000000"[..6] == "300000"; }
  }

  /** The wrapped product of three million hours, as one component. */
  lemma WrappedHours()
    ensures Components("3000000h", true, Zero, Wrapped) == Some(Offset(7_646_744_073_709_551_616, 0, 0, 0))
  {
    var body := "3000000h";
    RunIsDigitRun(body, 7);
    assert body[..7] == "3000000";
    ThreeMillion();
    assert body[8..] == [];
    var wrapped := Step(Zero, -3000000, 'h', Wrapped);
    assert wrapped == Offset(7_646_744_073_709_551_616, 0, 0, 0);
    assert Components(body, true, Zero, Wrapped) == Components([], true, wrapped, Wrapped);
  }
}
