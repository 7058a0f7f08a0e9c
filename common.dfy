/** Vocabulary shared by every controller: optional request fields, handler
    outcomes with their HTTP status codes, the closed role set, and the
    integer date arithmetic (milliseconds since the epoch, UTC). */
module Common {

  datatype Option<+T> = None | Some(value: T)

  /** The value a request sent for a field, or the stored one when it sent
      none: how an update merges its body into a record. */
  function Pick<T>(sent: Option<T>, stored: T): (v: T)
    ensures sent.Some? ==> v == sent.value
    ensures sent.None? ==> v == stored
  {
    if sent.Some? then sent.value else stored
  }

  /** Record identifiers; the store hands them out in increasing order. */
  type Id = nat

  /** The outcome of a request handler: a success status with a body, or an
      error status with the message the handler writes. */
  datatype Result<+T> = Ok(status: nat, value: T) | Fail(status: nat, message: string)

  const OK: nat := 200
  const CREATED: nat := 201
  const BAD_REQUEST: nat := 400
  const UNAUTHORIZED: nat := 401
  const FORBIDDEN: nat := 403
  const NOT_FOUND: nat := 404
  const SERVER_ERROR: nat := 500

  /** The four roles a user can hold. */
  datatype Role = Patient | Doctor | Pharmacist | Admin

  /** The string a role is stored and compared as. */
  function RoleName(r: Role): (s: string)
    ensures s in ["Patient", "Doctor", "Pharmacist", "Admin"]
  {
    match r
    case Patient => "Patient"
    case Doctor => "Doctor"
    case Pharmacist => "Pharmacist"
    case Admin => "Admin"
  }

  /** The role a string names, if any. */
  function ParseRole(s: string): (r: Option<Role>)
    ensures r.Some? <==> s in ["Patient", "Doctor", "Pharmacist", "Admin"]
    ensures r.Some? ==> RoleName(r.value) == s
  {
    if s == "Patient" then Some(Patient)
    else if s == "Doctor" then Some(Doctor)
    else if s == "Pharmacist" then Some(Pharmacist)
    else if s == "Admin" then Some(Admin)
    else None
  }

  lemma ParseRoleName(r: Role)
    ensures ParseRole(RoleName(r)) == Some(r)
  {
  }

  /** The authenticated user a request arrives with. */
  datatype Caller = Caller(id: Id, role: Role)

  /** A request string field is given when it is present and not empty:
      JavaScript treats both `undefined` and "" as false. */
  predicate Given(field: Option<string>) {
    field.Some? && field.value != ""
  }

  /** One day in milliseconds. */
  const DayMs: int := 86_400_000

  /** The start of the day containing instant `t`. */
  function Midnight(t: int): (m: int)
    ensures m % DayMs == 0
    ensures m <= t < m + DayMs
  {
    t - t % DayMs
  }

  /** `Math.ceil(ms / 86400000)`: the number of whole or partial days in `ms`. */
  function CeilDays(ms: int): (d: int)
    ensures (d - 1) * DayMs < ms <= d * DayMs
  {
    -((-ms) / DayMs)
  }

  /** `Math.round(taken / total * 100)` over exact rationals, with 0 for an
      empty total: the nearest integer to 100 * taken / total, halves up. */
  function Percentage(taken: nat, total: nat): (p: nat)
    ensures total == 0 ==> p == 0
    ensures total > 0 ==> 200 * taken - total < 2 * total * p <= 200 * taken + total
  {
    if total > 0 then
      var p := (200 * taken + total) / (2 * total);
      DivBounds(200 * taken + total, 2 * total);
      p
    else 0
  }

  lemma DivBounds(a: nat, b: nat)
    requires b > 0
    ensures b * (a / b) <= a < b * (a / b) + b
  {
  }

  /** The percentage of a part lies between 0 and 100. */
  lemma PercentageAtMostHundred(taken: nat, total: nat)
    requires taken <= total
    ensures Percentage(taken, total) <= 100
  {
    if total > 0 {
      var p := Percentage(taken, total);
      assert 2 * total * p <= 200 * taken + total;
      assert 200 * taken + total <= 200 * total + total;
      if p > 100 {
        assert 2 * total * p >= 2 * total * 101 by {
          MulMonotone(2 * total, 101, p);
        }
        assert false;
      }
    }
  }

  /** None taken is 0 percent; all of a non-empty total taken is 100. */
  lemma PercentageExtremes(total: nat)
    ensures Percentage(0, total) == 0
    ensures total > 0 ==> Percentage(total, total) == 100
  {
    if total > 0 {
      var p := Percentage(total, total);
      if p >= 101 {
        MulMonotone(2 * total, 101, p);
        assert false;
      }
      if p <= 99 {
        MulMonotone(2 * total, p, 99);
        assert false;
      }
      var z := Percentage(0, total);
      if z >= 1 {
        MulMonotone(2 * total, 1, z);
        assert false;
      }
    }
  }

  lemma MulMonotone(a: nat, x: nat, y: nat)
    requires x <= y
    ensures a * x <= a * y
  {
  }

  /** Lower-cases ASCII letters and keeps every other character. */
  function ToLower(s: string): (t: string)
    ensures |t| == |s|
    ensures forall i :: 0 <= i < |s| ==> t[i] == LowerChar(s[i])
  {
    if s == [] then [] else [LowerChar(s[0])] + ToLower(s[1..])
  }

  function LowerChar(c: char): (d: char)
    ensures 'A' <= c <= 'Z' ==> d as int == c as int + 32
    ensures !('A' <= c <= 'Z') ==> d == c
  {
    if 'A' <= c <= 'Z' then (c as int + 32) as char else c
  }

  lemma ToLowerIdempotent(s: string)
    ensures ToLower(ToLower(s)) == ToLower(s)
  {
  }

  /** Decimal digits of a natural number, most significant first. */
  function NatToString(n: nat): (s: string)
    ensures |s| >= 1
    ensures forall i :: 0 <= i < |s| ==> '0' <= s[i] <= '9'
    ensures n < 10 ==> |s| == 1
    ensures n >= 10 ==> s[0] != '0'
  {
    if n < 10 then [Digit(n)] else NatToString(n / 10) + [Digit(n % 10)]
  }

  function Digit(d: nat): (c: char)
    requires d < 10
    ensures '0' <= c <= '9' && c as int - '0' as int == d
  {
    ('0' as int + d) as char
  }

  /** JavaScript's rendering of an integer in a template string. */
  function IntToString(i: int): (s: string)
    ensures i < 0 <==> (|s| > 0 && s[0] == '-')
  {
    if i < 0 then "-" + NatToString(-i) else NatToString(i)
  }
}
