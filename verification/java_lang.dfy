/** The Java-level values the records and services are built from: nullable
    references, java.lang.Integer, String.trim, decimal rendering of integers,
    string concatenation of possibly-null values, and the exceptions the
    services throw. */
module JavaLang {

  /** A Java reference that may be null: `None` is null. */
  datatype Option<+T> = None | Some(value: T)

  /** `a != null ? a : b` */
  function OrElse<T>(a: Option<T>, b: Option<T>): Option<T>
  {
    if a.Some? then a else b
  }

  /** The range of java.lang.Integer. */
  newtype int32 = x: int | -0x8000_0000 <= x < 0x8000_0000

  const Int32Max: int := 0x7FFF_FFFF

  /** Java `int` arithmetic: the mathematical result reduced to 32 bits, two's complement. */
  function Wrap32(x: int): (r: int32)
    ensures (r as int - x) % 0x1_0000_0000 == 0
    ensures -0x8000_0000 <= x < 0x8000_0000 ==> r as int == x
  {
    ((x + 0x8000_0000) % 0x1_0000_0000 - 0x8000_0000) as int32
  }

  /** The legacy "primitive view" of a boxed Integer: null reads as 0. */
  function Unbox(v: Option<int32>): int32
  {
    if v.Some? then v.value else 0
  }

  // ---------------------------------------------------------------------------
  // String.trim: removes every leading and trailing char whose code is at most
  // U+0020 (space and the control characters).

  function TrimStart(s: string): (r: string)
    ensures |r| <= |s| && r == s[|s| - |r|..]
    ensures forall i :: 0 <= i < |s| - |r| ==> s[i] <= ' '
    ensures r != [] ==> r[0] > ' '
    decreases |s|
  {
    if s != [] && s[0] <= ' ' then TrimStart(s[1..]) else s
  }

  function TrimEnd(s: string): (r: string)
    ensures |r| <= |s| && r == s[..|r|]
    ensures forall i :: |r| <= i < |s| ==> s[i] <= ' '
    ensures r != [] ==> r[|r| - 1] > ' '
    decreases |s|
  {
    if s != [] && s[|s| - 1] <= ' ' then TrimEnd(s[..|s| - 1]) else s
  }

  /** `s.trim()`: TrimStart then TrimEnd. What remains starts and ends with a
      char above U+0020. */
  function Trim(s: string): (r: string)
    ensures |r| <= |s|
    ensures r != [] ==> r[0] > ' ' && r[|r| - 1] > ' '
  {
    TrimEnd(TrimStart(s))
  }

  /** A string with nothing to trim comes back unchanged, so trimming twice
      is trimming once. */
  lemma {:induction false} TrimIdempotent(s: string)
    ensures s != [] && s[0] > ' ' && s[|s| - 1] > ' ' ==> Trim(s) == s
    ensures Trim(Trim(s)) == Trim(s)
  {
    var r := Trim(s);
    if r != [] {
      assert TrimStart(r) == r;
      assert TrimEnd(r) == r;
    }
    if s != [] && s[0] > ' ' && s[|s| - 1] > ' ' {
      assert TrimStart(s) == s;
      assert TrimEnd(s) == s;
    }
  }

  /** A string trims to nothing exactly when every char in it is at most U+0020. */
  lemma {:induction false} TrimEmptyIffAllSpace(s: string)
    ensures Trim(s) == [] <==> forall i :: 0 <= i < |s| ==> s[i] <= ' '
  {
    var t := TrimStart(s);
    if t != [] {
      // the first kept char survives TrimEnd, so the result is not empty
      assert t[0] == s[|s| - |t|] > ' ';
      assert TrimEnd(t) != [];
    }
  }

  /** `s == null || s.trim().isEmpty()` */
  predicate IsBlank(s: Option<string>)
  {
    s.None? || Trim(s.value) == []
  }

  /** Blank means null or made only of chars at most U+0020. */
  lemma IsBlankIffAllSpace(s: Option<string>)
    ensures IsBlank(s) <==> s.None? || forall i :: 0 <= i < |s.value| ==> s.value[i] <= ' '
  {
    if s.Some? {
      TrimEmptyIffAllSpace(s.value);
    }
  }

  // ---------------------------------------------------------------------------
  // Integer.toString and string concatenation of possibly-null values.

  function DigitChar(d: nat): (c: char)
    requires d < 10
    ensures '0' <= c <= '9' && c as int - '0' as int == d
  {
    ('0' as int + d) as char
  }

  /** A non-empty run of decimal digits without a leading zero (other than "0" itself). */
  predicate IsDecimal(s: string)
  {
    && |s| >= 1
    && (forall i :: 0 <= i < |s| ==> '0' <= s[i] <= '9')
    && (|s| > 1 ==> s[0] != '0')
  }

  /** The number a string of decimal digits denotes, most significant digit first. */
  function DecimalValue(s: string): int
    decreases |s|
  {
    if s == [] then 0 else 10 * DecimalValue(s[..|s| - 1]) + (s[|s| - 1] as int - '0' as int)
  }

  /** The canonical decimal text of a natural number. */
  function NatToString(n: nat): (r: string)
    ensures IsDecimal(r) && DecimalValue(r) == n
    decreases n
  {
    if n < 10 then [DigitChar(n)]
    else
      var r := NatToString(n / 10) + [DigitChar(n % 10)];
      assert r[..|r| - 1] == NatToString(n / 10);
      r
  }

  /** `t` is the text Integer.toString gives for `n`: a minus sign exactly for a
      negative `n`, followed by the canonical decimal digits of its magnitude. */
  predicate Denotes(t: string, n: int)
  {
    if n < 0 then |t| >= 1 && t[0] == '-' && IsDecimal(t[1..]) && DecimalValue(t[1..]) == -n
    else IsDecimal(t) && DecimalValue(t) == n
  }

  /** Integer.toString. */
  function Int32ToString(n: int32): (r: string)
    ensures Denotes(r, n as int)
    ensures r[0] == '-' <==> n < 0
  {
    if n < 0 then
      var r := "-" + NatToString(-(n as int));
      assert r[1..] == NatToString(-(n as int));
      r
    else NatToString(n as int)
  }

  /** A text denotes at most one integer, so Integer.toString loses nothing. */
  lemma DenotesUnique(t: string, a: int, b: int)
    requires Denotes(t, a) && Denotes(t, b)
    ensures a == b
  {
  }

  /** Different integers have different texts. */
  lemma Int32ToStringInjective(a: int32, b: int32)
    requires Int32ToString(a) == Int32ToString(b)
    ensures a == b
  {
    DenotesUnique(Int32ToString(a), a as int, b as int);
  }

  /** `"" + s` for a String that may be null. */
  function StringText(s: Option<string>): (r: string)
    ensures s.None? ==> r == "null"
    ensures s.Some? ==> r == s.value
  {
    if s.Some? then s.value else "null"
  }

  /** `"" + i` for an Integer that may be null. */
  function IntegerText(i: Option<int32>): (r: string)
    ensures i.None? ==> r == "null"
    ensures i.Some? ==> Denotes(r, i.value as int)
  {
    if i.Some? then Int32ToString(i.value) else "null"
  }

  /** The text of an Integer holds no comma, so a comma after it marks where it ends. */
  lemma IntegerTextHasNoComma(i: Option<int32>)
    ensures forall k :: 0 <= k < |IntegerText(i)| ==> IntegerText(i)[k] != ','
  {
    var t := IntegerText(i);
    if i.Some? && i.value < 0 {
      forall k | 1 <= k < |t| ensures t[k] != ',' {
        assert t[k] == t[1..][k - 1];
      }
    }
  }

  /** Different Integers, null included, have different texts. */
  lemma IntegerTextInjective(a: Option<int32>, b: Option<int32>)
    requires IntegerText(a) == IntegerText(b)
    ensures a == b
  {
    if a.Some? && b.Some? {
      DenotesUnique(IntegerText(a), a.value as int, b.value as int);
    }
  }

  // ---------------------------------------------------------------------------
  // Jakarta Bean Validation, as far as the records use it.

  /** Validation groups: constraints declared without `groups` belong to Default. */
  datatype Group = Default | OnCreate | OnUpdate

  /** The two constraint annotations the records use: @NotBlank and @Size(max = n). */
  datatype Constraint = NotBlank | SizeMax(max: nat)

  /** One ConstraintViolation: the property path and the constraint that failed. */
  datatype Violation = Violation(property: string, constraint: Constraint)

  /** @NotBlank rejects null and blank text; @Size accepts null and checks the length. */
  predicate Holds(c: Constraint, v: Option<string>)
  {
    match c
    case NotBlank => !IsBlank(v)
    case SizeMax(max) => v.None? || |v.value| <= max
  }

  // ---------------------------------------------------------------------------
  // Exceptions.

  datatype Exception =
    | ConstraintViolation(message: string, violations: set<Violation>)
    | IllegalArgument(message: string)
    | NoSuchElement(message: string)
    | EscolaNotFound(message: string)
      /** The identity column has no value left to assign (a storage failure). */
    | IdentityExhausted

  /** A call that returns a value or throws. */
  datatype Result<+T> = Ok(value: T) | Err(error: Exception)
}
