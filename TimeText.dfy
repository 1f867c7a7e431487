/** The texts `convert_time_to_format` reads, writes and compares:
    Python's string ordering, `datetime.isoformat()` for naive date-times,
    `datetime.strptime(text, "%Y-%m-%dT%H:%M:%S.%f")`, and
    `datetime.fromisoformat` on the texts `isoformat()` produces. */
module TimeText {
  import opened Wrappers
  import opened Calendar

  // ---------------------------------------------------------------------
  // Decimal digits

  predicate IsDigit(c: char) { '0' <= c <= '9' }

  predicate AllDigits(s: string) {
    forall i :: 0 <= i < |s| ==> IsDigit(s[i])
  }

  function DigitChar(n: int): (c: char)
    requires 0 <= n < 10
    ensures IsDigit(c) && c as int - '0' as int == n
  {
    ('0' as int + n) as char
  }

  function Pow10(w: nat): (p: nat)
    ensures p >= 1
  {
    if w == 0 then 1 else 10 * Pow10(w - 1)
  }

  /** `n` written with exactly `w` digits, zero-padded on the left
      (`%0wd`); digits above the `w`th are dropped. */
  function Digits(n: nat, w: nat): (s: string)
    ensures |s| == w && AllDigits(s)
  {
    if w == 0 then "" else Digits(n / 10, w - 1) + [DigitChar(n % 10)]
  }

  /** Python's `int()` of an ASCII digit string. */
  function DecimalValue(s: string): nat
    requires AllDigits(s)
  {
    if s == [] then 0
    else DecimalValue(s[..|s| - 1]) * 10 + (s[|s| - 1] as int - '0' as int)
  }

  lemma {:induction false} DecimalValueOfDigits(n: nat, w: nat)
    requires n < Pow10(w)
    ensures DecimalValue(Digits(n, w)) == n
  {
    if w > 0 {
      DecimalValueOfDigits(n / 10, w - 1);
      var s := Digits(n, w);
      assert s[..|s| - 1] == Digits(n / 10, w - 1);
    }
  }

  // ---------------------------------------------------------------------
  // Python's `<=` on `str`: code point by code point, a proper prefix first

  predicate TextLe(a: string, b: string)
    ensures |a| <= |b| && a == b[..|a|] ==> TextLe(a, b)
  {
    if a == [] then true
    else if b == [] then false
    else if a[0] != b[0] then a[0] < b[0]
    else TextLe(a[1..], b[1..])
  }

  /** Two texts each at most the other are the same text. */
  lemma {:induction false} TextLeAntisymmetric(a: string, b: string)
    requires TextLe(a, b) && TextLe(b, a)
    ensures a == b
  {
    if a != [] && b != [] {
      TextLeAntisymmetric(a[1..], b[1..]);
      assert a == [a[0]] + a[1..] && b == [b[0]] + b[1..];
    }
  }

  /** After a prefix of equal length, either the prefixes differ and decide,
      or they are equal and the rest decides. */
  lemma {:induction false} PrefixDecides(x1: string, r1: string, x2: string, r2: string)
    requires |x1| == |x2|
    ensures TextLe(x1 + r1, x2 + r2) == if x1 == x2 then TextLe(r1, r2) else TextLe(x1, x2)
  {
    if x1 != [] {
      assert (x1 + r1)[0] == x1[0] && (x2 + r2)[0] == x2[0];
      assert x1 + r1 != [] && x2 + r2 != [] && x2 != [];
      if x1[0] == x2[0] {
        assert (x1 + r1)[1..] == x1[1..] + r1;
        assert (x2 + r2)[1..] == x2[1..] + r2;
        PrefixDecides(x1[1..], r1, x2[1..], r2);
        assert x1 == x2 <==> x1[1..] == x2[1..] by {
          assert x1 == [x1[0]] + x1[1..] && x2 == [x2[0]] + x2[1..];
        }
      }
    } else {
      assert x1 + r1 == r1 && x2 + r2 == r2;
    }
  }

  /** Zero-padded numbers of one width compare as the numbers do. */
  lemma {:induction false} DigitsOrder(a: nat, b: nat, w: nat)
    requires a < Pow10(w) && b < Pow10(w)
    ensures Digits(a, w) == Digits(b, w) <==> a == b
    ensures TextLe(Digits(a, w), Digits(b, w)) <==> a <= b
  {
    if w > 0 {
      DigitsOrder(a / 10, b / 10, w - 1);
      var ca, cb := DigitChar(a % 10), DigitChar(b % 10);
      PrefixDecides(Digits(a / 10, w - 1), [ca], Digits(b / 10, w - 1), [cb]);
      assert TextLe([ca], [cb]) <==> ca <= cb by {
        assert [ca][1..] == [];
      }
      if a / 10 == b / 10 {
        assert Digits(a, w) == Digits(b, w) <==> ca == cb by {
          var p := Digits(a / 10, w - 1);
          if Digits(a, w) == Digits(b, w) {
            assert (p + [ca])[|p|] == (p + [cb])[|p|];
          }
        }
      } else {
        assert Digits(a, w) != Digits(b, w) by {
          var pa, pb := Digits(a / 10, w - 1), Digits(b / 10, w - 1);
          assert Digits(a, w)[..w - 1] == pa && Digits(b, w)[..w - 1] == pb;
        }
      }
    }
  }

  // ---------------------------------------------------------------------
  // `datetime.isoformat()` of a naive date-time

  /** The fraction `isoformat()` writes: nothing when the microseconds are
      zero, otherwise a dot and six digits. */
  function Fraction(us: nat): string {
    if us == 0 then "" else "." + Digits(us, 6)
  }

  /** A separator followed by a two-digit field (`%02d`) and the rest. */
  function Field(sep: char, n: nat, rest: string): string {
    [sep] + Digits(n, 2) + rest
  }

  /** `YYYY-MM-DDTHH:MM:SS[.ffffff]`, the year written with four digits. */
  function IsoFormat(d: DateTime): (s: string)
    requires Valid(d)
    ensures |s| == if d.microsecond == 0 then 19 else 26
  {
    Digits(d.year, 4)
    + Field('-', d.month, Field('-', d.day, Field('T', d.hour,
        Field(':', d.minute, Field(':', d.second, Fraction(d.microsecond))))))
  }

  lemma FractionOrder(a: nat, b: nat)
    requires a < 1000000 && b < 1000000
    ensures TextLe(Fraction(a), Fraction(b)) <==> a <= b
    ensures Fraction(a) == Fraction(b) <==> a == b
  {
    if a != 0 && b != 0 {
      PrefixDecides(".", Digits(a, 6), ".", Digits(b, 6));
      DigitsOrder(a, b, 6);
    }
  }

  /** One fixed-width field followed by the rest of the text. */
  lemma FieldThen(a: nat, b: nat, w: nat, r1: string, r2: string)
    requires a < Pow10(w) && b < Pow10(w)
    ensures TextLe(Digits(a, w) + r1, Digits(b, w) + r2) == if a == b then TextLe(r1, r2) else a < b
  {
    PrefixDecides(Digits(a, w), r1, Digits(b, w), r2);
    DigitsOrder(a, b, w);
  }

  lemma FieldOrder(sep: char, a: nat, b: nat, r1: string, r2: string)
    requires a < 100 && b < 100
    ensures TextLe(Field(sep, a, r1), Field(sep, b, r2)) == if a == b then TextLe(r1, r2) else a < b
  {
    assert Pow10(2) == 100;
    PrefixDecides([sep], Digits(a, 2) + r1, [sep], Digits(b, 2) + r2);
    assert Field(sep, a, r1) == [sep] + (Digits(a, 2) + r1);
    assert Field(sep, b, r2) == [sep] + (Digits(b, 2) + r2);
    FieldThen(a, b, 2, r1, r2);
  }

  /** The `isoformat()` texts of two date-times compare, as strings, the
      way the date-times do field by field. */
  lemma IsoFormatOrder(a: DateTime, b: DateTime)
    requires Valid(a) && Valid(b)
    ensures TextLe(IsoFormat(a), IsoFormat(b)) <==> (a == b || Precedes(a, b))
  {
    assert Pow10(4) == 10000 by { assert Pow10(2) == 100; }
    var fa, fb := Fraction(a.microsecond), Fraction(b.microsecond);
    var sa, sb := Field(':', a.second, fa), Field(':', b.second, fb);
    var ia, ib := Field(':', a.minute, sa), Field(':', b.minute, sb);
    var ha, hb := Field('T', a.hour, ia), Field('T', b.hour, ib);
    var da, db := Field('-', a.day, ha), Field('-', b.day, hb);
    var ma, mb := Field('-', a.month, da), Field('-', b.month, db);
    FieldThen(a.year, b.year, 4, ma, mb);
    FieldOrder('-', a.month, b.month, da, db);
    FieldOrder('-', a.day, b.day, ha, hb);
    FieldOrder('T', a.hour, b.hour, ia, ib);
    FieldOrder(':', a.minute, b.minute, sa, sb);
    FieldOrder(':', a.second, b.second, fa, fb);
    FractionOrder(a.microsecond, b.microsecond);
  }

  /** What line 69 of server.py relies on: for 4-digit years the string
      comparison of `isoformat()` texts is the comparison of instants. */
  lemma IsoFormatComparesInstants(a: DateTime, b: DateTime)
    requires Valid(a) && Valid(b)
    ensures TextLe(IsoFormat(a), IsoFormat(b)) <==> Instant(a) <= Instant(b)
  {
    IsoFormatOrder(a, b);
    InstantOrder(a, b);
  }

  // ---------------------------------------------------------------------
  // `datetime.strptime(text, "%Y-%m-%dT%H:%M:%S.%f")`
  //
  // The field syntax is that of the regular expressions CPython's
  // `_strptime` builds for each directive; the pattern is matched
  // case-insensitively from the start, and text left over after `%f` is
  // an error.

  /** Splits `s` at its first character in `seps`. */
  function Cut(s: string, seps: set<char>): (r: Option<(string, string)>)
    ensures r.Some? ==> |r.value.0| + 1 + |r.value.1| == |s|
    ensures r.Some? ==> forall i :: 0 <= i < |r.value.0| ==> r.value.0[i] !in seps
  {
    if s == [] then None
    else if s[0] in seps then Some(([], s[1..]))
    else match Cut(s[1..], seps)
      case None => None
      case Some(p) => Some(([s[0]] + p.0, p.1))
  }

  lemma {:induction false} CutAtSeparator(f: string, c: char, rest: string, seps: set<char>)
    requires c in seps
    requires forall i :: 0 <= i < |f| ==> f[i] !in seps
    ensures Cut(f + [c] + rest, seps) == Some((f, rest))
  {
    var s := f + [c] + rest;
    if f == [] {
      assert s == [c] + rest;
    } else {
      assert s[0] == f[0] && s[1..] == f[1..] + [c] + rest;
      CutAtSeparator(f[1..], c, rest, seps);
      assert [f[0]] + f[1..] == f;
    }
  }

  /** `%Y`: four digits. */
  predicate YearText(f: string) {
    |f| == 4 && AllDigits(f)
  }

  /** `%m`: `1[0-2]|0[1-9]|[1-9]`. */
  predicate MonthText(f: string) {
    || (|f| == 2 && f[0] == '1' && '0' <= f[1] <= '2')
    || (|f| == 2 && f[0] == '0' && '1' <= f[1] <= '9')
    || (|f| == 1 && '1' <= f[0] <= '9')
  }

  /** `%d`: `3[01]|[12]\d|0[1-9]|[1-9]| [1-9]`, a blank allowed before a
      single digit. */
  predicate DayText(f: string) {
    || (|f| == 2 && f[0] == '3' && '0' <= f[1] <= '1')
    || (|f| == 2 && '1' <= f[0] <= '2' && IsDigit(f[1]))
    || (|f| == 2 && (f[0] == '0' || f[0] == ' ') && '1' <= f[1] <= '9')
    || (|f| == 1 && '1' <= f[0] <= '9')
  }

  /** `%H`: `2[0-3]|[0-1]\d|\d`. */
  predicate HourText(f: string) {
    || (|f| == 2 && f[0] == '2' && '0' <= f[1] <= '3')
    || (|f| == 2 && '0' <= f[0] <= '1' && IsDigit(f[1]))
    || (|f| == 1 && IsDigit(f[0]))
  }

  /** `%M`: `[0-5]\d|\d`. */
  predicate MinuteText(f: string) {
    || (|f| == 2 && '0' <= f[0] <= '5' && IsDigit(f[1]))
    || (|f| == 1 && IsDigit(f[0]))
  }

  /** `%S`: `6[0-1]|[0-5]\d|\d`; 60 and 61 get past the pattern and are
      then refused by the `datetime` constructor. */
  predicate SecondText(f: string) {
    (|f| == 2 && f[0] == '6' && '0' <= f[1] <= '1') || MinuteText(f)
  }

  /** `%f`: one to six digits, the leading digits of the microseconds. */
  predicate FractionText(f: string) {
    1 <= |f| <= 6 && AllDigits(f)
  }

  /** `int()` of a field, which skips the blank `%d` admits. */
  function FieldValue(f: string): nat
    requires AllDigits(f) || (|f| == 2 && f[0] == ' ' && IsDigit(f[1]))
  {
    if AllDigits(f) then DecimalValue(f) else DecimalValue(f[1..])
  }

  /** `None` stands for the `ValueError` strptime raises: the text does not
      match the pattern, or the fields do not make a valid `datetime`. */
  function ParseStrptime(s: string): (r: Option<DateTime>)
    ensures r.Some? ==> Valid(r.value)
  {
    if |s| < 5 || s[4] != '-' then None
    else
      var month :- Cut(s[5..], {'-'});
      var day :- Cut(month.1, {'T', 't'});
      var hour :- Cut(day.1, {':'});
      var minute :- Cut(hour.1, {':'});
      var second :- Cut(minute.1, {'.'});
      var fraction := second.1;
      if !(YearText(s[..4]) && MonthText(month.0) && DayText(day.0) && HourText(hour.0)
           && MinuteText(minute.0) && SecondText(second.0) && FractionText(fraction))
      then None
      else
        var d := DateTime(
          DecimalValue(s[..4]), FieldValue(month.0), FieldValue(day.0),
          FieldValue(hour.0), FieldValue(minute.0), FieldValue(second.0),
          DecimalValue(fraction) * Pow10(6 - |fraction|));
        if Valid(d) then Some(d) else None
  }

  /** A two-digit field followed by its separator and the rest of the text. */
  function Before(n: nat, sep: char, rest: string): string {
    Digits(n, 2) + [sep] + rest
  }

  /** The text the pattern describes with every field at full width, as
      `strftime` with the same pattern writes it. */
  function StrftimeText(d: DateTime): string
    requires Valid(d)
  {
    Digits(d.year, 4) + ['-'] + Before(d.month, '-', Before(d.day, 'T', Before(d.hour, ':',
      Before(d.minute, ':', Before(d.second, '.', Digits(d.microsecond, 6))))))
  }

  lemma TwoDigits(n: nat)
    requires n < 100
    ensures Digits(n, 2) == [DigitChar(n / 10), DigitChar(n % 10)]
  {
    assert Digits(n / 10, 1) == [DigitChar(n / 10)];
  }

  /** A two-digit field is cut off at the separator after it. */
  lemma CutBefore(n: nat, sep: char, rest: string, seps: set<char>)
    requires sep in seps && forall c :: c in seps ==> !IsDigit(c)
    ensures Cut(Before(n, sep, rest), seps) == Some((Digits(n, 2), rest))
  {
    CutAtSeparator(Digits(n, 2), sep, rest, seps);
  }

  lemma TwoDigitValue(n: nat)
    requires n < 100
    ensures AllDigits(Digits(n, 2)) && FieldValue(Digits(n, 2)) == n
  {
    assert Pow10(2) == 100;
    DecimalValueOfDigits(n, 2);
  }

  lemma MonthField(m: nat)
    requires 1 <= m <= 12
    ensures MonthText(Digits(m, 2)) && FieldValue(Digits(m, 2)) == m
  {
    TwoDigits(m);
    TwoDigitValue(m);
  }

  lemma DayField(n: nat)
    requires 1 <= n <= 31
    ensures DayText(Digits(n, 2)) && FieldValue(Digits(n, 2)) == n
  {
    TwoDigits(n);
    TwoDigitValue(n);
  }

  lemma HourField(n: nat)
    requires n < 24
    ensures HourText(Digits(n, 2)) && FieldValue(Digits(n, 2)) == n
  {
    TwoDigits(n);
    TwoDigitValue(n);
  }

  lemma MinuteField(n: nat)
    requires n < 60
    ensures MinuteText(Digits(n, 2)) && SecondText(Digits(n, 2)) && FieldValue(Digits(n, 2)) == n
  {
    TwoDigits(n);
    TwoDigitValue(n);
  }

  /** Each full-width field matches its directive and reads back as the
      number written. */
  lemma FullWidthFields(d: DateTime)
    requires Valid(d)
    ensures YearText(Digits(d.year, 4)) && DecimalValue(Digits(d.year, 4)) == d.year
    ensures MonthText(Digits(d.month, 2)) && FieldValue(Digits(d.month, 2)) == d.month
    ensures DayText(Digits(d.day, 2)) && FieldValue(Digits(d.day, 2)) == d.day
    ensures HourText(Digits(d.hour, 2)) && FieldValue(Digits(d.hour, 2)) == d.hour
    ensures MinuteText(Digits(d.minute, 2)) && FieldValue(Digits(d.minute, 2)) == d.minute
    ensures SecondText(Digits(d.second, 2)) && FieldValue(Digits(d.second, 2)) == d.second
    ensures FractionText(Digits(d.microsecond, 6))
    ensures DecimalValue(Digits(d.microsecond, 6)) == d.microsecond
  {
    assert Pow10(4) == 10000 by { assert Pow10(2) == 100; }
    assert Pow10(6) == 1000000 by { assert Pow10(4) == 10000; }
    assert d.day <= 31;
    MonthField(d.month);
    DayField(d.day);
    HourField(d.hour);
    MinuteField(d.minute);
    MinuteField(d.second);
    DecimalValueOfDigits(d.year, 4);
    DecimalValueOfDigits(d.microsecond, 6);
  }

  /** Cutting a full-width text at its separators yields its fields. */
  lemma FullWidthCuts(d: DateTime)
    requires Valid(d)
    ensures var s := StrftimeText(d);
      var t4 := Before(d.second, '.', Digits(d.microsecond, 6));
      var t3 := Before(d.minute, ':', t4);
      var t2 := Before(d.hour, ':', t3);
      var t1 := Before(d.day, 'T', t2);
      var t0 := Before(d.month, '-', t1);
      && |s| >= 5 && s[4] == '-' && s[..4] == Digits(d.year, 4) && s[5..] == t0
      && Cut(t0, {'-'}) == Some((Digits(d.month, 2), t1))
      && Cut(t1, {'T', 't'}) == Some((Digits(d.day, 2), t2))
      && Cut(t2, {':'}) == Some((Digits(d.hour, 2), t3))
      && Cut(t3, {':'}) == Some((Digits(d.minute, 2), t4))
      && Cut(t4, {'.'}) == Some((Digits(d.second, 2), Digits(d.microsecond, 6)))
  {
    var t4 := Before(d.second, '.', Digits(d.microsecond, 6));
    var t3 := Before(d.minute, ':', t4);
    var t2 := Before(d.hour, ':', t3);
    var t1 := Before(d.day, 'T', t2);
    var t0 := Before(d.month, '-', t1);
    var s := StrftimeText(d);
    assert s == Digits(d.year, 4) + ['-'] + t0;
    assert s[5..] == t0;
    CutBefore(d.month, '-', t1, {'-'});
    CutBefore(d.day, 'T', t2, {'T', 't'});
    CutBefore(d.hour, ':', t3, {':'});
    CutBefore(d.minute, ':', t4, {':'});
    CutBefore(d.second, '.', Digits(d.microsecond, 6), {'.'});
  }

  /** strptime reads back every date-time written at full width. */
  lemma StrptimeReadsStrftime(d: DateTime)
    requires Valid(d)
    ensures ParseStrptime(StrftimeText(d)) == Some(d)
  {
    FullWidthCuts(d);
    FullWidthFields(d);
  }

  // ---------------------------------------------------------------------
  // `datetime.fromisoformat`, on the texts `isoformat()` writes

  /** `int()` of a text that must be all digits. */
  function Number(t: string): (r: Option<nat>)
  {
    if AllDigits(t) then Some(DecimalValue(t)) else None
  }

  lemma NumberOfDigits(n: nat, w: nat)
    requires n < Pow10(w)
    ensures Number(Digits(n, w)) == Some(n)
  {
    DecimalValueOfDigits(n, w);
  }

  /** `fromisoformat` on the two shapes `isoformat()` writes for a naive
      date-time, `YYYY-MM-DDTHH:MM:SS` and `YYYY-MM-DDTHH:MM:SS.ffffff`;
      `None` stands for its `ValueError`. */
  function ParseIsoFormat(s: string): (r: Option<DateTime>)
    ensures r.Some? ==> Valid(r.value)
  {
    if |s| < 19 || s[4] != '-' || s[7] != '-' || s[10] != 'T' || s[13] != ':' || s[16] != ':'
    then None
    else
      var year :- Number(s[..4]);
      var month :- Number(s[5..7]);
      var day :- Number(s[8..10]);
      var hour :- Number(s[11..13]);
      var minute :- Number(s[14..16]);
      var second :- Number(s[17..19]);
      var microsecond :-
        if |s| == 19 then Some(0)
        else if |s| == 26 && s[19] == '.' then Number(s[20..])
        else None;
      var d := DateTime(year, month, day, hour, minute, second, microsecond);
      if Valid(d) then Some(d) else None
  }

  lemma FieldSlices(sep: char, n: nat, rest: string)
    ensures var f := Field(sep, n, rest);
      |f| == 3 + |rest| && f[0] == sep && f[1..3] == Digits(n, 2) && f[3..] == rest
  {
  }

  /** A field found at offset `k` of a text. */
  lemma FieldAt(s: string, k: nat, sep: char, n: nat, rest: string)
    requires k <= |s| && s[k..] == Field(sep, n, rest)
    ensures |s| == k + 3 + |rest|
    ensures s[k] == sep && s[k + 1..k + 3] == Digits(n, 2) && s[k + 3..] == rest
  {
    var f := Field(sep, n, rest);
    FieldSlices(sep, n, rest);
    assert s[k] == f[0];
    assert s[k + 1..k + 3] == f[1..3];
    assert s[k + 3..] == f[3..];
  }

  /** Where each field stands in an `isoformat()` text. */
  lemma IsoFormatSlices(d: DateTime)
    requires Valid(d)
    ensures var s := IsoFormat(d);
      && |s| >= 19 && s[..4] == Digits(d.year, 4) && s[4] == '-'
      && s[5..7] == Digits(d.month, 2) && s[7] == '-' && s[8..10] == Digits(d.day, 2)
      && s[10] == 'T' && s[11..13] == Digits(d.hour, 2) && s[13] == ':'
      && s[14..16] == Digits(d.minute, 2) && s[16] == ':' && s[17..19] == Digits(d.second, 2)
      && s[19..] == Fraction(d.microsecond)
  {
    var s := IsoFormat(d);
    var fr := Fraction(d.microsecond);
    var r5 := Field(':', d.second, fr);
    var r4 := Field(':', d.minute, r5);
    var r3 := Field('T', d.hour, r4);
    var r2 := Field('-', d.day, r3);
    var r1 := Field('-', d.month, r2);
    assert s == Digits(d.year, 4) + r1;
    assert s[..4] == Digits(d.year, 4) && s[4..] == r1;
    FieldAt(s, 4, '-', d.month, r2);
    FieldAt(s, 7, '-', d.day, r3);
    FieldAt(s, 10, 'T', d.hour, r4);
    FieldAt(s, 13, ':', d.minute, r5);
    FieldAt(s, 16, ':', d.second, fr);
  }

  /** Each field of an `isoformat()` text reads back as its number. */
  lemma IsoFormatNumbers(d: DateTime)
    requires Valid(d)
    ensures var s := IsoFormat(d);
      && |s| >= 19 && s[4] == '-' && s[7] == '-' && s[10] == 'T' && s[13] == ':' && s[16] == ':'
      && Number(s[..4]) == Some(d.year) && Number(s[5..7]) == Some(d.month)
      && Number(s[8..10]) == Some(d.day) && Number(s[11..13]) == Some(d.hour)
      && Number(s[14..16]) == Some(d.minute) && Number(s[17..19]) == Some(d.second)
      && (d.microsecond == 0 ==> |s| == 19)
      && (d.microsecond != 0 ==> |s| == 26 && s[19] == '.' && Number(s[20..]) == Some(d.microsecond))
  {
    IsoFormatSlices(d);
    var s := IsoFormat(d);
    assert Pow10(2) == 100;
    assert Pow10(4) == 10000;
    assert s[0..4] == s[..4];
    SliceNumber(s, 0, d.year, 4);
    SliceNumber(s, 5, d.month, 2);
    SliceNumber(s, 8, d.day, 2);
    SliceNumber(s, 11, d.hour, 2);
    SliceNumber(s, 14, d.minute, 2);
    SliceNumber(s, 17, d.second, 2);
    if d.microsecond != 0 {
      FractionNumber(s[19..], d.microsecond);
      assert s[20..] == s[19..][1..];
    }
  }

  /** A slice holding `Digits(n, w)` reads back as `n`. */
  lemma SliceNumber(s: string, i: nat, n: nat, w: nat)
    requires i + w <= |s| && s[i..i + w] == Digits(n, w) && n < Pow10(w)
    ensures Number(s[i..i + w]) == Some(n)
  {
    NumberOfDigits(n, w);
  }

  /** A non-zero fraction reads back as its microseconds. */
  lemma FractionNumber(f: string, us: nat)
    requires 0 < us < 1000000 && f == Fraction(us)
    ensures |f| == 7 && f[0] == '.' && Number(f[1..]) == Some(us)
  {
    assert f[1..] == Digits(us, 6);
    assert Pow10(6) == 1000000 by { assert Pow10(4) == 10000; }
    NumberOfDigits(us, 6);
  }

  /** `fromisoformat` reads back what `isoformat()` writes. */
  lemma IsoFormatRoundTrip(d: DateTime)
    requires Valid(d)
    ensures ParseIsoFormat(IsoFormat(d)) == Some(d)
  {
    IsoFormatNumbers(d);
  }
}
