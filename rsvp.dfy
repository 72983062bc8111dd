/** RSVP form validation of `WeddingInvitation` (scripts/main.js):
    `validateField`'s verdict for one field and the loop of
    `handleRSVPSubmit` that validates every field before anything is sent.
    The JavaScript pieces the verdict depends on are written out:
    `String.prototype.trim`, the UTF-16 `length`, and the conversion of a
    string to a number that the relational operators apply (`value < 1`). */
module Rsvp {
  import opened Wrappers
  import opened Decimal

  // ----- JavaScript strings -------------------------------------------------

  /** The characters `trim` removes: WhiteSpace and LineTerminator. */
  predicate IsJsWhitespace(c: char) {
    var u := c as int;
    || u == 0x09 || u == 0x0B || u == 0x0C || u == 0x20 || u == 0xA0 || u == 0xFEFF
    || u == 0x1680 || (0x2000 <= u <= 0x200A) || u == 0x202F || u == 0x205F || u == 0x3000
    || u == 0x0A || u == 0x0D || u == 0x2028 || u == 0x2029
  }

  /** Drops the leading whitespace. */
  function TrimStart(s: string): string
    decreases |s|
  {
    if s != [] && IsJsWhitespace(s[0]) then TrimStart(s[1..]) else s
  }

  /** Drops the trailing whitespace. */
  function TrimEnd(s: string): string
    decreases |s|
  {
    if s != [] && IsJsWhitespace(s[|s| - 1]) then TrimEnd(s[..|s| - 1]) else s
  }

  /** `String.prototype.trim`. */
  function Trim(s: string): string {
    TrimStart(TrimEnd(s))
  }

  /** TrimStart leaves a suffix that does not start with whitespace, and
      everything it removed was whitespace. */
  lemma {:induction false} TrimStartSpec(s: string)
    ensures var r := TrimStart(s);
      && |r| <= |s| && r == s[|s| - |r|..]
      && (forall k :: 0 <= k < |s| - |r| ==> IsJsWhitespace(s[k]))
      && (r != [] ==> !IsJsWhitespace(r[0]))
    decreases |s|
  {
    if s != [] && IsJsWhitespace(s[0]) {
      TrimStartSpec(s[1..]);
    }
  }

  /** TrimEnd leaves a prefix that does not end with whitespace, and
      everything it removed was whitespace. */
  lemma {:induction false} TrimEndSpec(s: string)
    ensures var r := TrimEnd(s);
      && |r| <= |s| && r == s[..|r|]
      && (forall k :: |r| <= k < |s| ==> IsJsWhitespace(s[k]))
      && (r != [] ==> !IsJsWhitespace(r[|r| - 1]))
    decreases |s|
  {
    if s != [] && IsJsWhitespace(s[|s| - 1]) {
      TrimEndSpec(s[..|s| - 1]);
    }
  }

  /** Trim leaves a part of the string with no whitespace at either end,
      and nothing exactly when the string is all whitespace. */
  lemma TrimSpec(s: string)
    ensures var r := Trim(s);
      && |r| <= |s|
      && (r != [] ==> !IsJsWhitespace(r[0]) && !IsJsWhitespace(r[|r| - 1]))
      && (r == [] <==> forall k :: 0 <= k < |s| ==> IsJsWhitespace(s[k]))
  {
    var e := TrimEnd(s);
    var r := TrimStart(e);
    TrimEndSpec(s);
    TrimStartSpec(e);
    assert r != [] ==> r[|r| - 1] == e[|e| - 1];
    assert r == [] ==> e == [];
  }

  /** A string with no whitespace at either end is its own trim. */
  lemma TrimNoEnds(s: string)
    requires s != [] ==> !IsJsWhitespace(s[0]) && !IsJsWhitespace(s[|s| - 1])
    ensures Trim(s) == s
  {
    if s != [] {
      assert TrimEnd(s) == s;
    }
  }

  lemma TrimIdempotent(s: string)
    ensures Trim(Trim(s)) == Trim(s)
  {
    TrimSpec(s);
    TrimNoEnds(Trim(s));
  }

  /** `length`: the number of UTF-16 code units; a character beyond the Basic
      Multilingual Plane counts twice. */
  function JsLength(s: string): (n: nat)
    ensures |s| <= n <= 2 * |s|
    decreases |s|
  {
    if s == [] then 0 else (if s[0] as int > 0xFFFF then 2 else 1) + JsLength(s[1..])
  }

  /** Fewer than two code units: empty, or one character of the Basic
      Multilingual Plane. */
  lemma ShortStrings(s: string)
    ensures JsLength(s) < 2 <==> s == [] || (|s| == 1 && s[0] as int <= 0xFFFF)
  {
    if |s| >= 1 {
      assert JsLength(s) >= (if s[0] as int > 0xFFFF then 2 else 1) + |s| - 1;
    }
  }

  // ----- ToNumber on a string -----------------------------------------------

  /** A JavaScript number, with the value taken exactly. */
  datatype JsNumber = NaN | Infinite(negative: bool) | Finite(value: real)

  function Pow10(n: nat): (p: nat)
    ensures p >= 1
  {
    if n == 0 then 1 else 10 * Pow10(n - 1)
  }

  /** `m` times ten to the power `e`. */
  function Scale(m: real, e: int): real {
    if e >= 0 then m * (Pow10(e) as real) else m / (Pow10(-e) as real)
  }

  /** The value of `intDigits . fracDigits`. */
  function Mantissa(intDigits: string, fracDigits: string): real
    requires AllDigits(intDigits) && AllDigits(fracDigits)
  {
    (Value(intDigits) as real) + (Value(fracDigits) as real) / (Pow10(|fracDigits|) as real)
  }

  /** An optional sign followed by at least one digit. */
  function SignedInteger(x: string): (r: Option<int>)
    ensures AllDigits(x) && x != [] ==> r == Some(Value(x))
  {
    if x != [] && (x[0] == '+' || x[0] == '-') then
      var d := x[1..];
      if d != [] && AllDigits(d) then
        var m: int := Value(d);
        Some(if x[0] == '-' then -m else m)
      else None
    else if x != [] && AllDigits(x) then Some(Value(x))
    else None
  }

  /** What may follow the digits of a decimal literal: nothing (exponent 0),
      or `e`/`E` and a signed integer. */
  function Exponent(x: string): (r: Option<int>)
    ensures x == [] ==> r == Some(0)
  {
    if x == [] then Some(0)
    else if x[0] == 'e' || x[0] == 'E' then SignedInteger(x[1..])
    else None
  }

  /** `Infinity`, or digits with an optional fraction and exponent, at least
      one digit before or after the point. */
  function UnsignedDecimal(u: string): JsNumber {
    if u == "Infinity" then Infinite(false)
    else
      var intDigits := DigitRun(u, 0);
      var a := |intDigits|;
      if a < |u| && u[a] == '.' then
        var fracDigits := DigitRun(u, a + 1);
        if a == 0 && fracDigits == [] then NaN
        else
          match Exponent(u[a + 1 + |fracDigits|..])
          case None => NaN
          case Some(e) => Finite(Scale(Mantissa(intDigits, fracDigits), e))
      else if a == 0 then NaN
      else
        match Exponent(u[a..])
        case None => NaN
        case Some(e) => Finite(Scale(Value(intDigits) as real, e))
  }

  function Negate(n: JsNumber): JsNumber {
    match n
    case NaN => NaN
    case Infinite(neg) => Infinite(!neg)
    case Finite(v) => Finite(-v)
  }

  /** The value of a hexadecimal, octal or binary digit, if `c` is one. */
  function RadixDigit(c: char, radix: nat): Option<nat> {
    var d := if '0' <= c <= '9' then Some((c as int - '0' as int) as nat)
             else if 'a' <= c <= 'f' then Some((c as int - 'a' as int + 10) as nat)
             else if 'A' <= c <= 'F' then Some((c as int - 'A' as int + 10) as nat)
             else None;
    if d.Some? && d.value < radix then d else None
  }

  predicate AllRadixDigits(d: string, radix: nat) {
    forall k :: 0 <= k < |d| ==> RadixDigit(d[k], radix).Some?
  }

  function RadixValue(d: string, radix: nat): nat
    requires AllRadixDigits(d, radix)
    decreases |d|
  {
    if d == [] then 0
    else RadixValue(d[..|d| - 1], radix) * radix + RadixDigit(d[|d| - 1], radix).value
  }

  /** `0x`/`0X`, `0o`/`0O` or `0b`/`0B` followed by at least one digit of that radix. */
  function RadixInteger(d: string, radix: nat): JsNumber {
    if d != [] && AllRadixDigits(d, radix) then Finite(RadixValue(d, radix) as real) else NaN
  }

  /** A non-empty string with no surrounding whitespace, read as a number. */
  function NumericLiteral(t: string): JsNumber
    requires t != []
  {
    if |t| >= 2 && t[0] == '0' && (t[1] == 'x' || t[1] == 'X') then RadixInteger(t[2..], 16)
    else if |t| >= 2 && t[0] == '0' && (t[1] == 'o' || t[1] == 'O') then RadixInteger(t[2..], 8)
    else if |t| >= 2 && t[0] == '0' && (t[1] == 'b' || t[1] == 'B') then RadixInteger(t[2..], 2)
    else if t[0] == '+' then UnsignedDecimal(t[1..])
    else if t[0] == '-' then Negate(UnsignedDecimal(t[1..]))
    else UnsignedDecimal(t)
  }

  /** ToNumber applied to a string: surrounding whitespace is ignored and an
      empty string is 0. */
  function ToNumber(s: string): JsNumber {
    var t := Trim(s);
    if t == [] then Finite(0.0) else NumericLiteral(t)
  }

  /** `n < x` for a number `x`; NaN compares false. */
  predicate LessThan(n: JsNumber, x: real) {
    match n
    case NaN => false
    case Infinite(neg) => neg
    case Finite(v) => v < x
  }

  /** `n > x` for a number `x`; NaN compares false. */
  predicate GreaterThan(n: JsNumber, x: real) {
    match n
    case NaN => false
    case Infinite(neg) => !neg
    case Finite(v) => v > x
  }

  /** A decimal numeral reads as its value. */
  lemma ToNumberOfNumeral(n: nat)
    ensures ToNumber(FromNat(n)) == Finite(n as real)
  {
    var s := FromNat(n);
    TrimNoEnds(s);
    assert !(|s| >= 2 && s[0] == '0');
    assert IsDigit(s[0]);
    assert NumericLiteral(s) == UnsignedDecimal(s);
    UnsignedDecimalOfDigits(s);
    ValueOfFromNat(n);
  }

  /** A run of decimal digits alone reads as its value. */
  lemma {:induction false} UnsignedDecimalOfDigits(s: string)
    requires s != [] && AllDigits(s)
    ensures UnsignedDecimal(s) == Finite(Value(s) as real)
  {
    assert s != "Infinity" by {
      assert IsDigit(s[0]);
    }
    assert s[0..] == s;
    DigitRunToEnd(s, 0);
    assert DigitRun(s, 0) == s;
    assert s[|s|..] == [];
    assert Exponent(s[|s|..]) == Some(0);
    var v := Value(s) as real;
    assert Scale(v, 0) == v by {
      assert Pow10(0) == 1;
    }
  }

  // ----- validateField ------------------------------------------------------

  /** The `type` property the switch in `validateField` looks at:
      `text`, `select-one`, `number`, or any other type (`textarea`,
      `email`, `tel`, ...), which the switch does not mention. */
  datatype FieldType = Text | SelectOne | Number | OtherType

  datatype Field = Field(fieldType: FieldType, id: string, value: string)

  datatype Verdict = Valid | Invalid(message: string)

  const NameRequired := "Nama lengkap harus diisi"
  const NameTooShort := "Nama terlalu pendek"
  const AttendanceRequired := "Silakan pilih konfirmasi kehadiran"
  const GuestsOutOfRange := "Jumlah tamu antara 1-5 orang"

  /** The guests check on the trimmed value: a non-empty value whose number
      is below 1 or above 5. */
  predicate GuestsRejected(value: string) {
    value != [] && (LessThan(ToNumber(value), 1.0) || GreaterThan(ToNumber(value), 5.0))
  }

  /** `validateField`: the verdict and the message `displayFieldValidation`
      shows next to the field. */
  function ValidateField(f: Field): Verdict {
    var value := Trim(f.value);
    match f.fieldType
    case Text =>
      if value == [] then Invalid(NameRequired)
      else if JsLength(value) < 2 then Invalid(NameTooShort)
      else Valid
    case SelectOne =>
      if value == [] then Invalid(AttendanceRequired) else Valid
    case Number =>
      if f.id == "guests" && GuestsRejected(value) then Invalid(GuestsOutOfRange) else Valid
    case OtherType => Valid
  }

  /** A name field: blank is "required", a single character of the Basic
      Multilingual Plane is "too short", anything longer is valid. */
  lemma TextFieldVerdict(id: string, v: string)
    ensures ValidateField(Field(Text, id, v)) == Invalid(NameRequired) <==>
              forall k :: 0 <= k < |v| ==> IsJsWhitespace(v[k])
    ensures ValidateField(Field(Text, id, v)) == Invalid(NameTooShort) <==>
              |Trim(v)| == 1 && Trim(v)[0] as int <= 0xFFFF
    ensures ValidateField(Field(Text, id, v)) == Valid <==>
              |Trim(v)| >= 2 || (|Trim(v)| == 1 && Trim(v)[0] as int > 0xFFFF)
  {
    TrimSpec(v);
    ShortStrings(Trim(v));
  }

  /** The attendance select is valid exactly when something other than
      whitespace is chosen. */
  lemma SelectFieldVerdict(id: string, v: string)
    ensures ValidateField(Field(SelectOne, id, v)) == Valid <==>
              exists k :: 0 <= k < |v| && !IsJsWhitespace(v[k])
    ensures ValidateField(Field(SelectOne, id, v)) != Valid ==>
              ValidateField(Field(SelectOne, id, v)) == Invalid(AttendanceRequired)
  {
    TrimSpec(v);
  }

  /** The guests field holding a decimal numeral is valid exactly for 1 to 5. */
  lemma GuestsNumeralVerdict(n: nat)
    ensures ValidateField(Field(Number, "guests", FromNat(n))) == Valid <==> 1 <= n <= 5
  {
    TrimNoEnds(FromNat(n));
    ToNumberOfNumeral(n);
  }

  /** The guests field, for every value: valid exactly when the trimmed value
      is blank, or converts to NaN, or to a finite number from 1 to 5.
      Infinities and finite numbers outside 1..5 are rejected. */
  lemma GuestsVerdict(v: string)
    ensures ValidateField(Field(Number, "guests", v)) == Valid <==>
              Trim(v) == [] || ToNumber(v).NaN? || (ToNumber(v).Finite? && 1.0 <= ToNumber(v).value <= 5.0)
    ensures ValidateField(Field(Number, "guests", v)) != Valid ==>
              ValidateField(Field(Number, "guests", v)) == Invalid(GuestsOutOfRange)
  {
    TrimIdempotent(v);
  }

  /** A guests value of decimal digits, leading zeros allowed (`"05"`), is
      valid exactly when its value is from 1 to 5. */
  lemma GuestsDigitsVerdict(s: string)
    requires s != [] && AllDigits(s)
    ensures ValidateField(Field(Number, "guests", s)) == Valid <==> 1 <= Value(s) <= 5
  {
    assert IsDigit(s[0]) && IsDigit(s[|s| - 1]);
    TrimNoEnds(s);
    assert NumericLiteral(s) == UnsignedDecimal(s);
    UnsignedDecimalOfDigits(s);
    GuestsVerdict(s);
  }

  /** A blank guests field is valid; so is any number field that is not the
      guests field, and any field of another type. */
  lemma FieldsNeverRejected(f: Field)
    ensures f.fieldType == Number && (forall k :: 0 <= k < |f.value| ==> IsJsWhitespace(f.value[k])) ==>
              ValidateField(f) == Valid
    ensures f.fieldType == Number && f.id != "guests" ==> ValidateField(f) == Valid
    ensures f.fieldType.OtherType? ==> ValidateField(f) == Valid
  {
    TrimSpec(f.value);
  }

  /** An exponent can push a value out of range. */
  lemma GuestsExponent()
    ensures ValidateField(Field(Number, "guests", "1e1")) == Invalid(GuestsOutOfRange)
  {
    assert Trim("1e1") == "1e1";
    assert DigitRun("1e1", 0) == "1";
  }

  /** A hexadecimal 5, with surrounding blanks, is in range. */
  lemma GuestsHex()
    ensures ValidateField(Field(Number, "guests", " 0x5 ")) == Valid
  {
    assert TrimEnd(" 0x5 ") == " 0x5" by {
      assert " 0x5 "[..4] == " 0x5";
    }
    assert TrimStart(" 0x5") == "0x5" by {
      assert " 0x5"[1..] == "0x5";
    }
    assert "0x5"[2..] == "5";
    assert RadixDigit('5', 16) == Some(5);
    assert RadixValue("5", 16) == 5 by {
      assert "5"[..0] == "";
    }
  }

  /** A fraction in range passes. */
  lemma GuestsFraction()
    ensures ValidateField(Field(Number, "guests", "2.5")) == Valid
  {
    assert Trim("2.5") == "2.5";
    assert DigitRun("2.5", 0) == "2";
    assert DigitRun("2.5", 2) == "5";
    assert "2.5"[3..] == [];
    assert Value("2") == 2 && Value("5") == 5 by {
      assert "2"[..0] == [] && "5"[..0] == [];
    }
    assert Mantissa("2", "5") == 2.5;
    assert ToNumber("2.5") == Finite(2.5);
  }

  /** Negative infinity is below 1. */
  lemma GuestsNegativeInfinity()
    ensures ValidateField(Field(Number, "guests", "-Infinity")) == Invalid(GuestsOutOfRange)
  {
    assert Trim("-Infinity") == "-Infinity";
    assert "-Infinity"[1..] == "Infinity";
    assert UnsignedDecimal("Infinity") == Infinite(false);
    assert ToNumber("-Infinity") == Infinite(true);
  }

  /** A word converts to NaN, which every comparison rejects, so it passes. */
  lemma GuestsWord()
    ensures ValidateField(Field(Number, "guests", "dua")) == Valid
  {
    assert Trim("dua") == "dua";
    assert DigitRun("dua", 0) == "";
  }

  // ----- handleRSVPSubmit ---------------------------------------------------

  /** Whether `handleRSVPSubmit` goes on to send the answer. */
  datatype Submission = Submit | Rejected(notification: string)

  const FixErrors := "Harap perbaiki data yang masih salah"

  /** The verdicts on `fields`, in order. */
  function Verdicts(fields: seq<Field>): (vs: seq<Verdict>)
    ensures |vs| == |fields|
  {
    if fields == [] then [] else Verdicts(fields[..|fields| - 1]) + [ValidateField(fields[|fields| - 1])]
  }

  lemma {:induction false} VerdictsPointwise(fields: seq<Field>)
    ensures forall i :: 0 <= i < |fields| ==> Verdicts(fields)[i] == ValidateField(fields[i])
    decreases |fields|
  {
    if fields != [] {
      VerdictsPointwise(fields[..|fields| - 1]);
    }
  }

  /** The validation part of `handleRSVPSubmit`: every field is validated
      (the verdicts are shown on all of them, none is skipped after a
      failure), and the form goes on only when all are valid. */
  method HandleRSVPSubmit(fields: seq<Field>) returns (submission: Submission, verdicts: seq<Verdict>)
    ensures verdicts == Verdicts(fields)
    ensures forall i :: 0 <= i < |fields| ==> verdicts[i] == ValidateField(fields[i])
    ensures submission == Submit <==> forall i :: 0 <= i < |fields| ==> verdicts[i].Valid?
    ensures submission != Submit ==> submission == Rejected(FixErrors)
  {
    var isFormValid := true;
    verdicts := [];
    var i := 0;
    while i < |fields|
      invariant 0 <= i <= |fields|
      invariant verdicts == Verdicts(fields[..i])
      invariant isFormValid <==> forall j :: 0 <= j < i ==> verdicts[j].Valid?
    {
      var verdict := ValidateField(fields[i]);
      assert fields[..i + 1][..i] == fields[..i];
      ghost var before := verdicts;
      verdicts := verdicts + [verdict];
      assert forall j :: 0 <= j < i ==> verdicts[j] == before[j];
      assert verdicts[i] == verdict;
      if !verdict.Valid? {
        isFormValid := false;
      }
      i := i + 1;
    }
    assert fields[..i] == fields;
    VerdictsPointwise(fields);
    if !isFormValid {
      return Rejected(FixErrors), verdicts;
    }
    submission := Submit;
  }
}
