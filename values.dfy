/**
 * Scalar values held by configuration keys, their declared types, Python
 * truthiness, and the two type coercions `str(x)` and `int(x)` that ffurf
 * applies to every value written into a key.
 */
module Values {

  datatype Option<+T> = None | Some(value: T)

  datatype Result<+T, +E> = Ok(value: T) | Err(error: E)

  /** The coercion callable stored as a key's `type`: `str` or `int`. */
  datatype KeyType = TStr | TInt

  /** A Python scalar a key can hold: a `str` or an `int`. */
  datatype Value = VStr(s: string) | VInt(i: int)

  predicate HasType(t: KeyType, v: Value)
  {
    match t
    case TStr => v.VStr?
    case TInt => v.VInt?
  }

  /** Python truthiness of an optional scalar: `None`, `""` and `0` are falsy. */
  function Truthy(v: Option<Value>): (b: bool)
    ensures b <==> v.Some? && v.value != VStr("") && v.value != VInt(0)
  {
    match v
    case None => false
    case Some(VStr(s)) => s != ""
    case Some(VInt(i)) => i != 0
  }

  // ---------------------------------------------------------------------
  // Decimal text: str(int) and int(str)
  // ---------------------------------------------------------------------

  predicate IsDigit(c: char)
  {
    '0' <= c <= '9'
  }

  predicate AllDigits(s: string)
  {
    forall i :: 0 <= i < |s| ==> IsDigit(s[i])
  }

  function DigitChar(d: nat): (c: char)
    requires d < 10
    ensures IsDigit(c) && c as int - '0' as int == d
  {
    ('0' as int + d) as char
  }

  /** The decimal digits of `n`, most significant first, without leading zeros. */
  function Digits(n: nat): (r: string)
    ensures |r| > 0 && AllDigits(r)
    ensures r[0] == '0' <==> n == 0
    ensures r[0] == '0' ==> r == "0"
    decreases n
  {
    if n < 10 then [DigitChar(n)] else Digits(n / 10) + [DigitChar(n % 10)]
  }

  /** The number a run of decimal digits denotes. */
  function DigitsValue(s: string): nat
    requires AllDigits(s)
  {
    if s == [] then 0
    else DigitsValue(s[..|s| - 1]) * 10 + (s[|s| - 1] as int - '0' as int)
  }

  /** A run of digits without leading zeros: `"0"` or digits starting with `1`..`9`. */
  predicate IsCanonicalDigits(m: string)
  {
    |m| > 0 && AllDigits(m) && (m[0] == '0' ==> m == "0")
  }

  /**
   * Python `str(i)` for an int: a minus sign exactly when `i` is negative,
   * then the digits of |i| without leading zeros.
   */
  function Decimal(i: int): (r: string)
    ensures |r| > 0 && (r[0] == '-' <==> i < 0)
    ensures IsCanonicalDigits(if i < 0 then r[1..] else r)
  {
    if i < 0 then "-" + Digits(-i) else Digits(i)
  }

  predicate IsSign(c: char)
  {
    c == '-' || c == '+'
  }

  /** An integer literal: an optional sign, then one or more ASCII digits. */
  predicate IsIntLiteral(s: string)
  {
    |s| > 0 && (if IsSign(s[0]) then |s| > 1 && AllDigits(s[1..]) else AllDigits(s))
  }

  /** The digits of an integer literal, after its sign. */
  function Unsigned(s: string): (m: string)
    requires IsIntLiteral(s)
    ensures |m| > 0 && AllDigits(m)
  {
    if IsSign(s[0]) then s[1..] else s
  }

  /** Digits with their leading zeros removed, keeping one digit. */
  function StripZeros(m: string): (r: string)
    requires |m| > 0 && AllDigits(m)
    ensures IsCanonicalDigits(r)
  {
    if |m| > 1 && m[0] == '0' then StripZeros(m[1..]) else m
  }

  /** The text Python's `str` gives back for the int an integer literal denotes. */
  function Canonical(s: string): string
    requires IsIntLiteral(s)
  {
    var m := StripZeros(Unsigned(s));
    if s[0] == '-' && m != "0" then "-" + m else m
  }

  /**
   * Python `int(s)` for a str, restricted to an optional `+`/`-` sign followed
   * by at least one ASCII digit; `None` stands for the ValueError it raises.
   */
  function ParseInt(s: string): (r: Option<int>)
    ensures r.Some? <==> IsIntLiteral(s)
    ensures r.Some? && r.value < 0 ==> s[0] == '-'
  {
    if |s| > 0 && (s[0] == '-' || s[0] == '+') then
      var body := s[1..];
      if body != [] && AllDigits(body) then
        var n: int := DigitsValue(body);
        Some(if s[0] == '-' then -n else n)
      else None
    else if s != [] && AllDigits(s) then Some(DigitsValue(s))
    else None
  }

  lemma {:induction false} DigitsRoundTrip(n: nat)
    ensures DigitsValue(Digits(n)) == n
    decreases n
  {
    if n >= 10 {
      var d := Digits(n);
      assert d[..|d| - 1] == Digits(n / 10);
      DigitsRoundTrip(n / 10);
    }
  }

  /** Reading back `str(i)` with `int(...)` gives `i`. */
  lemma DecimalRoundTrip(i: int)
    ensures ParseInt(Decimal(i)) == Some(i)
  {
    if i < 0 {
      assert Decimal(i)[1..] == Digits(-i);
      DigitsRoundTrip(-i);
    } else {
      DigitsRoundTrip(i);
    }
  }

  /** The value of digits does not depend on leading zeros. */
  lemma {:induction false} LeadingZeroValue(m: string)
    requires |m| > 0 && AllDigits(m) && m[0] == '0'
    ensures DigitsValue(m) == DigitsValue(m[1..])
    decreases |m|
  {
    if |m| > 1 {
      var init := m[..|m| - 1];
      assert init[1..] == m[1..][..|m[1..]| - 1];
      LeadingZeroValue(init);
    }
  }

  lemma {:induction false} StripZerosValue(m: string)
    requires |m| > 0 && AllDigits(m)
    ensures DigitsValue(StripZeros(m)) == DigitsValue(m)
    decreases |m|
  {
    if |m| > 1 && m[0] == '0' {
      LeadingZeroValue(m);
      StripZerosValue(m[1..]);
    }
  }

  lemma {:induction false} NonZeroLeadValue(m: string)
    requires |m| > 0 && AllDigits(m) && m[0] != '0'
    ensures DigitsValue(m) > 0
    decreases |m|
  {
    if |m| > 1 {
      NonZeroLeadValue(m[..|m| - 1]);
    }
  }

  /** Canonical digits are the decimal rendering of the number they denote. */
  lemma {:induction false} DigitsOfValue(m: string)
    requires IsCanonicalDigits(m)
    ensures Digits(DigitsValue(m)) == m
    decreases |m|
  {
    if |m| > 1 {
      var init := m[..|m| - 1];
      NonZeroLeadValue(init);
      DigitsOfValue(init);
      assert m == init + [m[|m| - 1]];
    }
  }

  /**
   * Reading an integer literal and rendering it with `str` gives its
   * canonical text: no `+`, no leading zeros, and no `-` on zero.
   */
  lemma ParseIntCanonical(s: string)
    requires IsIntLiteral(s)
    ensures Decimal(ParseInt(s).value) == Canonical(s)
  {
    var body := Unsigned(s);
    var m := StripZeros(body);
    StripZerosValue(body);
    DigitsOfValue(m);
    if m != "0" {
      NonZeroLeadValue(m);
    }
  }

  /** Python `str(v)`. */
  function StrOf(v: Value): (r: string)
    ensures v.VStr? ==> r == v.s
    ensures v.VInt? ==> r == Decimal(v.i) && ParseInt(r) == Some(v.i)
  {
    match v
    case VStr(s) => s
    case VInt(i) => DecimalRoundTrip(i); Decimal(i)
  }

  /**
   * Apply the key's type callable to a raw value: `str(v)` never fails,
   * `int(v)` fails exactly on a string that is not an integer literal.
   * `None` stands for the exception the call raises.
   */
  function Coerce(t: KeyType, v: Value): (r: Option<Value>)
    ensures r.Some? ==> HasType(t, r.value)
    ensures r.None? <==> t.TInt? && v.VStr? && ParseInt(v.s).None?
    ensures HasType(t, v) ==> r == Some(v)
    ensures t.TStr? ==> r == Some(VStr(StrOf(v)))
    ensures t.TInt? && v.VStr? && ParseInt(v.s).Some? ==> r == Some(VInt(ParseInt(v.s).value))
  {
    match (t, v)
    case (TStr, _) => Some(VStr(StrOf(v)))
    case (TInt, VInt(_)) => Some(v)
    case (TInt, VStr(s)) =>
      match ParseInt(s)
      case None => None
      case Some(n) => Some(VInt(n))
  }

  /** Coercing an already coerced value changes nothing. */
  lemma CoerceIdempotent(t: KeyType, v: Value)
    requires Coerce(t, v).Some?
    ensures Coerce(t, Coerce(t, v).value) == Coerce(t, v)
  {
  }

  /** An int rendered as text and coerced back through an int key is the same int. */
  lemma CoerceDecimalToInt(i: int)
    ensures Coerce(TInt, VStr(Decimal(i))) == Some(VInt(i))
  {
    DecimalRoundTrip(i);
  }
}
