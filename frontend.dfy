/** The two pure helpers of the browser client: `formatTime`, which turns
    the stored "HH:MM" text into a 12-hour clock reading, and `hasRole`,
    which tests the signed-in role against one role or a list of roles.
    JavaScript's `split(':')`, `parseInt`, truncating `%` and the
    falsiness of 0 and NaN are written out. */
module Frontend {
  import opened Common

  // ------------------------------------------------------------ split(':')

  /** `s.split(':')`: the pieces between colons, at least one. */
  function Split(s: string): (parts: seq<string>)
    ensures |parts| >= 1
    ensures forall i :: 0 <= i < |parts| ==> ':' !in parts[i]
  {
    if s == [] then [""]
    else if s[0] == ':' then [""] + Split(s[1..])
    else
      var rest := Split(s[1..]);
      [[s[0]] + rest[0]] + rest[1..]
  }

  /** `parts.join(':')`. */
  function Join(parts: seq<string>): string
    requires |parts| >= 1
  {
    if |parts| == 1 then parts[0] else parts[0] + ":" + Join(parts[1..])
  }

  /** Splitting loses nothing: joining the pieces gives the text back. */
  lemma {:induction false} JoinSplit(s: string)
    ensures Join(Split(s)) == s
  {
    if s != [] {
      JoinSplit(s[1..]);
      var rest := Split(s[1..]);
      if s[0] != ':' && |rest| > 1 {
        assert [s[0]] + rest[0] + ":" + Join(rest[1..]) == [s[0]] + (rest[0] + ":" + Join(rest[1..]));
      }
      assert s == [s[0]] + s[1..];
    }
  }

  /** A colon-free head is the first piece, and the rest splits on. */
  lemma {:induction false} SplitAfterHead(h: string, rest: string)
    requires ':' !in h
    ensures Split(h + ":" + rest) == [h] + Split(rest)
  {
    if h == [] {
      assert h + ":" + rest == [':'] + rest;
      assert (h + ":" + rest)[1..] == rest;
    } else {
      SplitAfterHead(h[1..], rest);
      assert (h + ":" + rest)[1..] == h[1..] + ":" + rest;
      assert [h[0]] + h[1..] == h;
    }
  }

  /** Colon-free text is a single piece. */
  lemma {:induction false} SplitColonFree(s: string)
    requires ':' !in s
    ensures Split(s) == [s]
  {
    if s != [] {
      SplitColonFree(s[1..]);
      assert [s[0]] + s[1..] == s;
    }
  }

  // ------------------------------------------------------------ parseInt

  /** The characters `parseInt` skips at the start: ECMAScript's white
      space (tab, vertical tab, form feed, the Zs space separators and the
      byte order mark) and line terminators. */
  predicate IsJsSpace(c: char) {
    var n := c as int;
    n == 0x09 || n == 0x0A || n == 0x0B || n == 0x0C || n == 0x0D || n == 0x20 ||
    n == 0xA0 || n == 0x1680 || (0x2000 <= n <= 0x200A) || n == 0x2028 || n == 0x2029 ||
    n == 0x202F || n == 0x205F || n == 0x3000 || n == 0xFEFF
  }

  function TrimStart(s: string): (t: string)
    ensures |t| <= |s| && t == s[|s| - |t|..]
    ensures t == [] || !IsJsSpace(t[0])
    ensures forall i :: 0 <= i < |s| - |t| ==> IsJsSpace(s[i])
  {
    if s != [] && IsJsSpace(s[0]) then TrimStart(s[1..]) else s
  }

  /** The value of `c` as a digit of base 36: decimal digits, then the
      letters in either case; 36 for any other character. */
  function DigitOf(c: char): (d: nat)
    ensures d <= 36
  {
    if '0' <= c <= '9' then c as int - '0' as int
    else if 'a' <= c <= 'z' then c as int - 'a' as int + 10
    else if 'A' <= c <= 'Z' then c as int - 'A' as int + 10
    else 36
  }

  /** `c` is a digit in base `radix` (2..36). */
  predicate IsDigit(c: char, radix: nat) {
    DigitOf(c) < radix
  }

  /** The length of the longest prefix of `s` made of digits. */
  function DigitRun(s: string, radix: nat): (k: nat)
    ensures k <= |s|
    ensures forall i :: 0 <= i < k ==> IsDigit(s[i], radix)
    ensures k < |s| ==> !IsDigit(s[k], radix)
  {
    if s == [] || !IsDigit(s[0], radix) then 0 else 1 + DigitRun(s[1..], radix)
  }

  /** The number the digits spell, most significant first. */
  function Value(s: string, radix: nat): nat {
    if s == [] then 0 else Value(s[..|s| - 1], radix) * radix + DigitOf(s[|s| - 1])
  }

  /** The digits after the sign: a "0x" or "0X" prefix selects base 16,
      then the longest run of digits is read; None when there is none. */
  function Unsigned(u: string): (n: Option<nat>)
  {
    var hex := |u| >= 2 && u[0] == '0' && (u[1] == 'x' || u[1] == 'X');
    var radix := if hex then 16 else 10;
    var v := if hex then u[2..] else u;
    var k := DigitRun(v, radix);
    if k == 0 then None else Some(Value(v[..k], radix))
  }

  /** `parseInt(s)` with no radix: leading white space, a sign, then the
      unsigned part; None stands for NaN, the reply when no digit follows. */
  function ParseInt(s: string): Option<int>
  {
    var t := TrimStart(s);
    if |t| > 0 && t[0] == '-' then
      var m := Unsigned(t[1..]);
      if m.None? then None else Some(-(m.value as int))
    else if |t| > 0 && t[0] == '+' then Widen(Unsigned(t[1..]))
    else Widen(Unsigned(t))
  }

  function Widen(m: Option<nat>): Option<int> {
    if m.None? then None else Some(m.value)
  }

  lemma {:induction false} ValueOfDecimal(n: nat)
    ensures forall i :: 0 <= i < |NatToString(n)| ==> IsDigit(NatToString(n)[i], 10)
    ensures Value(NatToString(n), 10) == n
  {
    var s := NatToString(n);
    if n >= 10 {
      ValueOfDecimal(n / 10);
      assert s[..|s| - 1] == NatToString(n / 10);
    }
  }

  /** A rendered natural number reads back whole: it has no "0x" prefix
      and every character is a decimal digit. */
  lemma UnsignedDecimal(n: nat)
    ensures Unsigned(NatToString(n)) == Some(n)
  {
    ValueOfDecimal(n);
    UnsignedOfDigits(NatToString(n), n);
  }

  lemma UnsignedOfDigits(s: string, v: nat)
    requires forall i :: 0 <= i < |s| ==> IsDigit(s[i], 10)
    requires s != [] && (|s| >= 2 ==> s[0] != '0')
    requires Value(s, 10) == v
    ensures Unsigned(s) == Some(v)
  {
    DigitRunAll(s, 10);
    assert s[..|s|] == s;
  }

  /** Reading back a rendered integer gives the integer. */
  lemma ParseIntToString(i: int)
    ensures ParseInt(IntToString(i)) == Some(i)
  {
    if i < 0 {
      ParseNegative(-i);
    } else {
      ParseNatural(i);
    }
  }

  lemma ParseNatural(n: nat)
    ensures ParseInt(NatToString(n)) == Some(n)
  {
    UnsignedDecimal(n);
    ParseDigits(NatToString(n), n);
  }

  lemma ParseNegative(n: nat)
    ensures ParseInt("-" + NatToString(n)) == Some(-(n as int))
  {
    var s := NatToString(n);
    UnsignedDecimal(n);
    assert ("-" + s)[1..] == s;
    ParseMinusDigits("-" + s, n);
  }

  lemma ParseDigits(s: string, n: nat)
    requires s != [] && '0' <= s[0] <= '9' && Unsigned(s) == Some(n)
    ensures ParseInt(s) == Some(n)
  {
    NoLeadingSpace(s);
  }

  lemma ParseMinusDigits(t: string, n: nat)
    requires t != [] && t[0] == '-' && Unsigned(t[1..]) == Some(n)
    ensures ParseInt(t) == Some(-(n as int))
  {
    NoLeadingSpace(t);
  }

  lemma NoLeadingSpace(s: string)
    requires s != [] && ('0' <= s[0] <= '9' || s[0] == '-')
    ensures TrimStart(s) == s
  {
    assert !IsJsSpace(s[0]);
  }

  lemma {:induction false} DigitRunAll(s: string, radix: nat)
    requires forall i :: 0 <= i < |s| ==> IsDigit(s[i], radix)
    ensures DigitRun(s, radix) == |s|
  {
    if s != [] {
      DigitRunAll(s[1..], radix);
    }
  }

  // ------------------------------------------------------------ formatTime

  /** JavaScript's `a % b` for b > 0: the remainder takes the sign of a. */
  function TruncRem(a: int, b: nat): (r: int)
    requires b > 0
    ensures -(b as int) < r < b
    ensures a >= 0 ==> r == a % b
    ensures a < 0 ==> r == -((-a) % b)
  {
    if a >= 0 then a % b else -((-a) % b)
  }

  /** `hour >= 12 ? 'PM' : 'AM'`; NaN compares false. */
  function Suffix(hour: Option<int>): string {
    if hour.Some? && hour.value >= 12 then "PM" else "AM"
  }

  /** `hour % 12 || 12`, rendered: a zero or NaN remainder is falsy, so
      gives 12. */
  function DisplayHour(hour: Option<int>): string {
    if hour.None? then "12"
    else
      var r := TruncRem(hour.value, 12);
      if r == 0 then "12" else IntToString(r)
  }

  /** `formatTime(time)`; None stands for null or undefined. */
  function FormatTime(time: Option<string>): (r: string)
    ensures r == "" <==> time.None? || time.value == ""
  {
    if time.None? || time.value == "" then ""
    else
      var parts := Split(time.value);
      var hour := ParseInt(parts[0]);
      var minutes := if |parts| >= 2 then parts[1] else "undefined";
      DisplayHour(hour) + ":" + minutes + " " + Suffix(hour)
  }

  /** The minutes text is copied through untouched, whatever it holds. */
  lemma MinutesVerbatim(hours: string, minutes: string)
    requires ':' !in hours && ':' !in minutes
    ensures FormatTime(Some(hours + ":" + minutes)) ==
            DisplayHour(ParseInt(hours)) + ":" + minutes + " " + Suffix(ParseInt(hours))
  {
    SplitAfterHead(hours, minutes);
    SplitColonFree(minutes);
    assert Split(hours + ":" + minutes) == [hours, minutes];
    assert hours + ":" + minutes != "";
  }

  /** A time without any colon shows the minutes as "undefined". */
  lemma NoColonMinutesUndefined(hours: string)
    requires hours != "" && ':' !in hours
    ensures FormatTime(Some(hours)) ==
            DisplayHour(ParseInt(hours)) + ":" + "undefined" + " " + Suffix(ParseInt(hours))
  {
    SplitColonFree(hours);
  }

  /** On a 24-hour clock hour, the reading is the 12-hour clock: 0 and 12
      show as 12, and PM exactly from 12 on. */
  lemma TwelveHourClock(h: int)
    requires 0 <= h < 24
    ensures DisplayHour(Some(h)) == IntToString(if h % 12 == 0 then 12 else h % 12)
    ensures Suffix(Some(h)) == (if h >= 12 then "PM" else "AM")
  {
  }

  /** Rendering tells integers apart, since it reads back. */
  lemma IntToStringInjective(x: int, y: int)
    requires IntToString(x) == IntToString(y)
    ensures x == y
  {
    ParseIntToString(x);
    ParseIntToString(y);
  }

  /** The 12-hour reading with its suffix tells every hour of the day
      apart. */
  lemma TwelveHourInjective(a: int, b: int)
    requires 0 <= a < 24 && 0 <= b < 24
    requires DisplayHour(Some(a)) == DisplayHour(Some(b)) && Suffix(Some(a)) == Suffix(Some(b))
    ensures a == b
  {
    TwelveHourClock(a);
    TwelveHourClock(b);
    var da := if a % 12 == 0 then 12 else a % 12;
    var db := if b % 12 == 0 then 12 else b % 12;
    IntToStringInjective(da, db);
  }

  /** A negative hour keeps its sign in the display, since JavaScript's
      remainder does: "-1:00" reads "-1:00 AM". */
  lemma NegativeHourShown(h: int)
    requires -12 < h < 0
    ensures DisplayHour(Some(h)) == IntToString(h)
    ensures Suffix(Some(h)) == "AM"
  {
  }

  /** Two decimal digits read as their value. */
  lemma ReadsDecimal(s: string, n: nat)
    requires |s| == 2 && '0' <= s[0] <= '9' && '0' <= s[1] <= '9'
    requires n == (s[0] as int - '0' as int) * 10 + (s[1] as int - '0' as int)
    ensures ParseInt(s) == Some(n)
  {
    assert IsDigit(s[0], 10) && IsDigit(s[1], 10);
    DigitRunAll(s, 10);
    assert s[..2] == s;
    assert s[..1][..0] == [];
    assert s[..2][..1] == s[..1];
    assert Value(s[..1], 10) == s[0] as int - '0' as int;
    assert Value(s, 10) == n;
    assert Unsigned(s) == Some(n);
    ParseDigits(s, n);
  }

  /** The two-character hour field of a time with minutes after the colon. */
  lemma ReadingAt(h: string, m: string, hour: nat)
    requires |h| == 2 && '0' <= h[0] <= '9' && '0' <= h[1] <= '9' && ':' !in m
    requires ParseInt(h) == Some(hour)
    ensures FormatTime(Some(h + ":" + m)) == DisplayHour(Some(hour)) + ":" + m + " " + Suffix(Some(hour))
  {
    TwoDigitsNoColon(h);
    MinutesVerbatim(h, m);
  }

  lemma TwoDigitsNoColon(h: string)
    requires |h| == 2 && '0' <= h[0] <= '9' && '0' <= h[1] <= '9'
    ensures ':' !in h
  {
    assert h == [h[0], h[1]];
  }

  /** Hour "00" reads 12 AM: midnight shows as 12 ("00:15" is 12:15 AM). */
  lemma MidnightExample(h: string, m: string)
    requires |h| == 2 && h[0] == '0' && h[1] == '0' && ':' !in m
    ensures FormatTime(Some(h + ":" + m)) == "12" + ":" + m + " " + "AM"
  {
    ReadsDecimal(h, 0);
    ReadingAt(h, m, 0);
  }

  /** Hour "12" reads 12 PM: noon is already afternoon ("12:30" is
      12:30 PM). */
  lemma NoonExample(h: string, m: string)
    requires |h| == 2 && h[0] == '1' && h[1] == '2' && ':' !in m
    ensures FormatTime(Some(h + ":" + m)) == "12" + ":" + m + " " + "PM"
  {
    ReadsDecimal(h, 12);
    ReadingAt(h, m, 12);
  }

  /** Hour "13" reads 1 PM ("13:05" is 1:05 PM). */
  lemma AfternoonExample(h: string, m: string)
    requires |h| == 2 && h[0] == '1' && h[1] == '3' && ':' !in m
    ensures FormatTime(Some(h + ":" + m)) == "1" + ":" + m + " " + "PM"
  {
    ReadsDecimal(h, 13);
    ReadingAt(h, m, 13);
    assert DisplayHour(Some(13)) == "1";
  }

  /** Hours that are not a number read as 12 AM. */
  lemma NotANumberHour(hours: string, minutes: string)
    requires ':' !in hours && ':' !in minutes
    requires ParseInt(hours).None?
    ensures FormatTime(Some(hours + ":" + minutes)) == "12" + ":" + minutes + " " + "AM"
  {
    MinutesVerbatim(hours, minutes);
  }

  // ------------------------------------------------------------ hasRole

  /** The argument of `hasRole`: one role or a list of roles. */
  datatype Required = One(role: string) | AnyOf(roles: seq<string>)

  /** `hasRole(required)` for the signed-in role (None when nobody is). */
  function HasRole(required: Required, current: Option<string>): (b: bool)
    ensures b ==> current.Some?
  {
    match required
    case One(r) => current == Some(r)
    case AnyOf(rs) => current.Some? && current.value in rs
  }

  /** A single role is the one-element list, and a list accepts a role
      exactly when one of its members would on its own. */
  lemma HasRoleLists(rs: seq<string>, r: string, current: Option<string>)
    ensures HasRole(One(r), current) == HasRole(AnyOf([r]), current)
    ensures HasRole(AnyOf(rs), current) <==> exists i :: 0 <= i < |rs| && HasRole(One(rs[i]), current)
  {
    if HasRole(AnyOf(rs), current) {
      var i :| 0 <= i < |rs| && rs[i] == current.value;
      assert HasRole(One(rs[i]), current);
    }
  }

  /** Nobody signed in has no role, and an empty list admits no one. */
  lemma HasRoleRefuses(required: Required, current: Option<string>)
    ensures current.None? ==> !HasRole(required, current)
    ensures !HasRole(AnyOf([]), current)
  {
  }
}
