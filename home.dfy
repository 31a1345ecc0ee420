/**
 * The landing page's own logic: the countdown decomposition of a distance in
 * milliseconds, the two-digit display of each unit, and the page state (the form
 * record, the `submitted` flag, the countdown) changed through its handlers.
 */
module Home {

  const MsPerSecond: int := 1000
  const MsPerMinute: int := 1000 * 60
  const MsPerHour: int := 1000 * 60 * 60
  const MsPerDay: int := 1000 * 60 * 60 * 24

  // ------------------------------------------------------------ countdown

  datatype Countdown = Countdown(days: int, hours: int, minutes: int, seconds: int)

  const Zero := Countdown(0, 0, 0, 0)

  /** Each unit is within its clock range. */
  predicate InRange(c: Countdown) {
    c.days >= 0 && 0 <= c.hours < 24 && 0 <= c.minutes < 60 && 0 <= c.seconds < 60
  }

  /** The milliseconds a countdown stands for. */
  function Millis(c: Countdown): int {
    c.days * MsPerDay + c.hours * MsPerHour + c.minutes * MsPerMinute + c.seconds * MsPerSecond
  }

  /** Euclidean division is determined by any quotient and remainder that fit. */
  lemma DivModUnique(n: int, d: int, q: int, r: int)
    requires d > 0 && n == q * d + r && 0 <= r < d
    ensures n / d == q && n % d == r
  {
    var q', r' := n / d, n % d;
    if q' < q {
      assert (q - q') * d == r' - r by {
        assert q' * d + r' == q * d + r;
      }
      PositiveMultiple(q - q', d);
    } else if q < q' {
      assert (q' - q) * d == r - r' by {
        assert q' * d + r' == q * d + r;
      }
      PositiveMultiple(q' - q, d);
    }
  }

  /** A positive multiple of `d` is at least `d`. */
  lemma PositiveMultiple(k: int, d: int)
    requires d > 0 && k >= 1
    ensures k * d >= d
  {
  }

  /**
   * `updateCountdown` for `distance = targetDate - now`: whole days, then the
   * hours, minutes and seconds left over; all zero once the target has passed.
   */
  function CountdownOf(distance: int): (c: Countdown)
    ensures distance < 0 ==> c == Zero
    ensures InRange(c)
    ensures distance >= 0 ==> Millis(c) <= distance < Millis(c) + MsPerSecond
  {
    if distance < 0 then Zero
    else
      var days := distance / MsPerDay;
      var hours := (distance % MsPerDay) / MsPerHour;
      var minutes := (distance % MsPerHour) / MsPerMinute;
      var seconds := (distance % MsPerMinute) / MsPerSecond;
      CountdownDecomposes(distance);
      Countdown(days, hours, minutes, seconds)
  }

  /** The nested remainders of the decomposition add back up to the distance. */
  lemma CountdownDecomposes(d: int)
    requires d >= 0
    ensures var days, hours := d / MsPerDay, (d % MsPerDay) / MsPerHour;
      var minutes, seconds := (d % MsPerHour) / MsPerMinute, (d % MsPerMinute) / MsPerSecond;
      && 0 <= hours < 24 && 0 <= minutes < 60 && 0 <= seconds < 60 && days >= 0
      && days * MsPerDay + hours * MsPerHour + minutes * MsPerMinute + seconds * MsPerSecond <= d
      && d < days * MsPerDay + hours * MsPerHour + minutes * MsPerMinute + seconds * MsPerSecond + MsPerSecond
  {
    var days, restDay := d / MsPerDay, d % MsPerDay;
    var hours, restHour := restDay / MsPerHour, restDay % MsPerHour;
    assert d == (days * 24 + hours) * MsPerHour + restHour;
    DivModUnique(d, MsPerHour, days * 24 + hours, restHour);
    var minutes, restMinute := restHour / MsPerMinute, restHour % MsPerMinute;
    assert d == (days * 1440 + hours * 60 + minutes) * MsPerMinute + restMinute;
    DivModUnique(d, MsPerMinute, days * 1440 + hours * 60 + minutes, restMinute);
    var seconds := restMinute / MsPerSecond;
    assert restMinute == seconds * MsPerSecond + restMinute % MsPerSecond;
  }

  /**
   * The decomposition inverts `Millis`: a countdown in range, plus less than one
   * second, decomposes back into itself.
   */
  lemma CountdownOfMillis(c: Countdown, extra: int)
    requires InRange(c) && 0 <= extra < MsPerSecond
    ensures CountdownOf(Millis(c) + extra) == c
  {
  }

  // ------------------------------------------------------------ two-digit display

  function DigitChar(d: nat): (ch: char)
    requires d < 10
    ensures '0' <= ch <= '9'
  {
    ('0' as int + d) as char
  }

  /** The numeric value of a decimal digit character. */
  function DigitValue(ch: char): nat {
    if '0' <= ch <= '9' then (ch as int - '0' as int) else 0
  }

  /** The number a string of decimal digits reads as. */
  function ParseDecimal(s: string): nat {
    if s == [] then 0 else ParseDecimal(s[..|s| - 1]) * 10 + DigitValue(s[|s| - 1])
  }

  /** `String(n)` for a non-negative integer: its decimal digits, without leading zeros. */
  function DecimalString(n: nat): (s: string)
    ensures |s| >= 1 && (|s| == 1 <==> n < 10)
    ensures forall i :: 0 <= i < |s| ==> '0' <= s[i] <= '9'
    ensures s[0] == '0' <==> n == 0
    ensures ParseDecimal(s) == n
  {
    if n < 10 then
      [DigitChar(n)]
    else
      var s := DecimalString(n / 10) + [DigitChar(n % 10)];
      assert s[..|s| - 1] == DecimalString(n / 10);
      s
  }

  function Repeat(ch: char, k: nat): (r: string)
    ensures |r| == k && forall i :: 0 <= i < k ==> r[i] == ch
  {
    if k == 0 then [] else [ch] + Repeat(ch, k - 1)
  }

  /** `s.padStart(width, fill)` with a one-character fill. */
  function PadStart(s: string, width: nat, fill: char): (r: string)
    ensures |r| == if |s| >= width then |s| else width
    ensures r[|r| - |s|..] == s
    ensures forall i :: 0 <= i < |r| - |s| ==> r[i] == fill
  {
    if |s| >= width then s else Repeat(fill, width - |s|) + s
  }

  /** Leading zeros do not change the number a digit string reads as. */
  lemma {:induction false} LeadingZerosParse(k: nat, s: string)
    ensures ParseDecimal(Repeat('0', k) + s) == ParseDecimal(s)
    decreases |s|
  {
    if s == [] {
      assert Repeat('0', k) + s == Repeat('0', k);
      ZerosParseToZero(k);
    } else {
      var t := Repeat('0', k) + s;
      assert t[..|t| - 1] == Repeat('0', k) + s[..|s| - 1];
      assert t[|t| - 1] == s[|s| - 1];
      LeadingZerosParse(k, s[..|s| - 1]);
    }
  }

  lemma {:induction false} ZerosParseToZero(k: nat)
    ensures ParseDecimal(Repeat('0', k)) == 0
  {
    if k > 0 {
      var z := Repeat('0', k);
      assert z[..k - 1] == Repeat('0', k - 1);
      ZerosParseToZero(k - 1);
    }
  }

  /**
   * `String(n).padStart(2, '0')`, as each countdown unit is shown: at least two
   * digits, a leading '0' exactly for the values below ten, and it reads back as `n`.
   */
  function TwoDigits(n: nat): (r: string)
    ensures |r| >= 2
    ensures forall i :: 0 <= i < |r| ==> '0' <= r[i] <= '9'
    ensures r[0] == '0' <==> n < 10
    ensures ParseDecimal(r) == n
  {
    var s := DecimalString(n);
    if |s| < 2 then
      LeadingZerosParse(1, s);
      assert PadStart(s, 2, '0') == Repeat('0', 1) + s;
      PadStart(s, 2, '0')
    else
      PadStart(s, 2, '0')
  }

  // ------------------------------------------------------------ the form and the page state

  /** The form record, one string per input. */
  datatype FormData = FormData(fullName: string, email: string, phone: string, instagram: string)

  /** The `name` attribute of each of the four inputs. */
  datatype FormField = FullName | Email | Phone | Instagram

  function FieldValue(f: FormData, k: FormField): string {
    match k
    case FullName => f.fullName
    case Email => f.email
    case Phone => f.phone
    case Instagram => f.instagram
  }

  /** `{ ...formData, [name]: value }` */
  function WithField(f: FormData, k: FormField, value: string): (r: FormData)
    ensures FieldValue(r, k) == value
    ensures forall k' :: k' != k ==> FieldValue(r, k') == FieldValue(f, k')
  {
    match k
    case FullName => f.(fullName := value)
    case Email => f.(email := value)
    case Phone => f.(phone := value)
    case Instagram => f.(instagram := value)
  }

  /** Edits of two different inputs do not interfere, whatever their order. */
  lemma EditsOfDistinctFieldsCommute(f: FormData, k1: FormField, v1: string, k2: FormField, v2: string)
    requires k1 != k2
    ensures WithField(WithField(f, k1, v1), k2, v2) == WithField(WithField(f, k2, v2), k1, v1)
  {
  }

  /** The state the landing page keeps between renders. */
  class LandingPage {
    var formData: FormData
    var submitted: bool
    var countdown: Countdown

    constructor ()
      ensures formData == FormData("", "", "", "") && !submitted && countdown == Zero
    {
      formData := FormData("", "", "", "");
      submitted := false;
      countdown := Zero;
    }

    /** The form and the countdown are rendered only before a successful submission. */
    predicate ShowsForm()
      reads this
    {
      !submitted
    }

    predicate ShowsCountdown()
      reads this
    {
      !submitted
    }

    /** `handleChange`: the edited input's field takes the new value; nothing else changes. */
    method HandleChange(field: FormField, value: string)
      modifies this
      ensures formData == WithField(old(formData), field, value)
      ensures submitted == old(submitted) && countdown == old(countdown)
    {
      formData := WithField(formData, field, value);
    }

    /** `handleSubmit`: the payload sent to `leads.create` is the current form record. */
    method HandleSubmit() returns (payload: FormData)
      ensures payload == formData
    {
      payload := formData;
    }

    /** The mutation settles: `submitted` becomes true on success, and is never reset. */
    method OnMutationSettled(success: bool)
      modifies this
      ensures submitted == (old(submitted) || success)
      ensures formData == old(formData) && countdown == old(countdown)
    {
      if success {
        submitted := true;
      }
    }

    /** One tick of the countdown timer. */
    method UpdateCountdown(now: int, target: int)
      modifies this
      ensures countdown == CountdownOf(target - now)
      ensures formData == old(formData) && submitted == old(submitted)
    {
      countdown := CountdownOf(target - now);
    }
  }
}
