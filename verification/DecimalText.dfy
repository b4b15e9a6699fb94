/** Reading and printing decimals (internal/model/decimal.go). */
module DecimalText {
  import opened Arith
  import opened Decimal

  datatype ParseError = EmptyDecimal | DecimalSyntax | DecimalRange | DecimalTooFine

  datatype Result<+T> = Ok(value: T) | Err(error: ParseError)

  // ---- digits ---------------------------------------------------------------------------------

  predicate IsDigit(c: char) {
    '0' <= c <= '9'
  }

  predicate AllDigits(s: string) {
    forall i :: 0 <= i < |s| ==> IsDigit(s[i])
  }

  function DigitOf(c: char): nat
    requires IsDigit(c)
  {
    c as int - '0' as int
  }

  /** The number a digit string writes in base ten. */
  function DigitsValue(s: string): nat
    requires AllDigits(s)
  {
    if s == "" then 0 else 10 * DigitsValue(s[..|s| - 1]) + DigitOf(s[|s| - 1])
  }

  /** strconv.FormatInt on a non-negative number. */
  function FormatNat(n: nat): (s: string)
    ensures s != "" && AllDigits(s)
  {
    if n < 10 then ['0' + n as char] else FormatNat(n / 10) + ['0' + (n % 10) as char]
  }

  lemma {:induction false} FormatNatValue(n: nat)
    ensures DigitsValue(FormatNat(n)) == n
  {
    var s := FormatNat(n);
    if n >= 10 {
      FormatNatValue(n / 10);
      assert s[..|s| - 1] == FormatNat(n / 10);
    } else {
      assert s[..|s| - 1] == "";
    }
  }

  function FormatInt(n: int): string {
    if n < 0 then "-" + FormatNat(-n) else FormatNat(n)
  }

  function Zeros(n: nat): (s: string)
    ensures |s| == n && AllDigits(s) && forall i :: 0 <= i < n ==> s[i] == '0'
  {
    if n == 0 then "" else "0" + Zeros(n - 1)
  }

  lemma {:induction false} LeadingZeros(n: nat, s: string)
    requires AllDigits(s)
    ensures DigitsValue(Zeros(n) + s) == DigitsValue(s)
    decreases |s|, n
  {
    var t := Zeros(n) + s;
    if s != "" {
      assert t[..|t| - 1] == Zeros(n) + s[..|s| - 1];
      LeadingZeros(n, s[..|s| - 1]);
    } else if n > 0 {
      assert t == Zeros(n);
      assert t[..n - 1] + "" == Zeros(n - 1) + "";
      LeadingZeros(n - 1, s);
      assert t[..|t| - 1] == Zeros(n - 1) + s;
    }
  }

  // ---- ParseDecimal ---------------------------------------------------------------------------

  /** strings.Cut(s, "."): the text around the first point. */
  function Cut(s: string): (string, string, bool) {
    if s == "" then ("", "", false)
    else if s[0] == '.' then ("", s[1..], true)
    else var (before, after, found) := Cut(s[1..]); ([s[0]] + before, after, found)
  }

  /** A numeral without its sign. */
  function Body(intPart: string, fracPart: string, point: bool): string {
    intPart + (if point then "." + fracPart else "")
  }

  lemma {:induction false} CutParts(s: string)
    ensures '.' !in Cut(s).0
    ensures s == Body(Cut(s).0, Cut(s).1, Cut(s).2)
    ensures Cut(s).2 || Cut(s).1 == ""
  {
    if s != "" && s[0] != '.' {
      CutParts(s[1..]);
    }
  }

  lemma {:induction false} CutOfBody(intPart: string, fracPart: string, point: bool)
    requires '.' !in intPart && (point || fracPart == "")
    ensures Cut(Body(intPart, fracPart, point)) == (intPart, fracPart, point)
  {
    var s := Body(intPart, fracPart, point);
    if intPart != "" {
      assert s[0] == intPart[0];
      assert s[1..] == Body(intPart[1..], fracPart, point);
      CutOfBody(intPart[1..], fracPart, point);
      assert [s[0]] + intPart[1..] == intPart;
    } else if point {
      assert s == "." + fracPart;
      assert s[1..] == fracPart;
    } else {
      assert s == "";
    }
  }

  function Signed(neg: bool, n: int): int {
    if neg then -n else n
  }

  function Parse(s: string): Result<Decimal> {
    if s == "" then Err(EmptyDecimal)
    else
      var neg := s[0] == '-';
      var rest := if s[0] == '-' || s[0] == '+' then s[1..] else s;
      if rest == "" then Err(DecimalSyntax) else ParseUnsigned(neg, rest)
  }

  function ParseUnsigned(neg: bool, rest: string): Result<Decimal> {
    var (intPart, fracPart, hasPoint) := Cut(rest);
    if hasPoint && '.' in fracPart then Err(DecimalSyntax)
    else if intPart == "" && fracPart == "" then Err(DecimalSyntax)
    else if |fracPart| > MAX_SCALE then Err(DecimalTooFine)
    else ParseDigits(neg, intPart + fracPart, |fracPart|)
  }

  function ParseDigits(neg: bool, digits: string, scale: uint8): Result<Decimal> {
    if !AllDigits(digits) then Err(DecimalSyntax)
    else if DigitsValue(digits) > MAX_INT64 then Err(DecimalRange)
    else Ok(Decimal(Signed(neg, DigitsValue(digits)), scale))
  }

  /** At most one point, at least one digit, at most 18 fraction digits. */
  ghost predicate IsNumeral(intPart: string, fracPart: string, point: bool) {
    && (point || fracPart == "")
    && AllDigits(intPart + fracPart)
    && 0 < |intPart + fracPart| && |fracPart| <= MAX_SCALE
  }

  /** A numeral whose digits write an int64. */
  ghost predicate IsMagnitude(intPart: string, fracPart: string, point: bool) {
    IsNumeral(intPart, fracPart, point) && DigitsValue(intPart + fracPart) <= MAX_INT64
  }

  predicate IsSign(sign: string) {
    sign == "" || sign == "+" || sign == "-"
  }

  /** s is an optionally signed magnitude standing for d. */
  ghost predicate Writes(s: string, d: Decimal, sign: string, intPart: string, fracPart: string, point: bool) {
    && IsSign(sign)
    && IsMagnitude(intPart, fracPart, point)
    && s == sign + Body(intPart, fracPart, point)
    && d.scale == |fracPart|
    && d.unscaled == Signed(sign == "-", DigitsValue(intPart + fracPart))
  }

  /** The text denotes the decimal. */
  ghost predicate Denotes(s: string, d: Decimal) {
    exists sign, intPart, fracPart, point :: Writes(s, d, sign, intPart, fracPart, point)
  }

  lemma DigitsSplit(a: string, b: string)
    ensures AllDigits(a + b) <==> AllDigits(a) && AllDigits(b)
  {
    var s := a + b;
    if AllDigits(s) {
      assert forall i :: 0 <= i < |a| ==> a[i] == s[i];
      assert forall i :: 0 <= i < |b| ==> b[i] == s[|a| + i];
    }
  }

  lemma UnsignedComplete(neg: bool, intPart: string, fracPart: string, point: bool)
    requires IsMagnitude(intPart, fracPart, point)
    ensures Body(intPart, fracPart, point) != ""
    ensures ParseUnsigned(neg, Body(intPart, fracPart, point))
         == Ok(Decimal(Signed(neg, DigitsValue(intPart + fracPart)), |fracPart|))
  {
    DigitsSplit(intPart, fracPart);
    CutOfBody(intPart, fracPart, point);
  }

  lemma UnsignedSound(neg: bool, rest: string)
    requires ParseUnsigned(neg, rest).Ok?
    ensures var (intPart, fracPart, point) := Cut(rest);
      && IsMagnitude(intPart, fracPart, point)
      && rest == Body(intPart, fracPart, point)
      && ParseUnsigned(neg, rest).value == Decimal(Signed(neg, DigitsValue(intPart + fracPart)), |fracPart|)
  {
    CutParts(rest);
  }

  /** First characters of a body are digits or the point, never a sign. */
  lemma BodyChars(intPart: string, fracPart: string, point: bool, i: nat)
    requires IsNumeral(intPart, fracPart, point) && i < |Body(intPart, fracPart, point)|
    ensures IsDigit(Body(intPart, fracPart, point)[i]) || Body(intPart, fracPart, point)[i] == '.'
  {
    DigitsSplit(intPart, fracPart);
  }

  lemma ParseComplete(s: string, d: Decimal, sign: string, intPart: string, fracPart: string, point: bool)
    requires Writes(s, d, sign, intPart, fracPart, point)
    ensures Parse(s) == Ok(d)
  {
    var rest := Body(intPart, fracPart, point);
    UnsignedComplete(sign == "-", intPart, fracPart, point);
    BodyChars(intPart, fracPart, point, 0);
    if sign == "" {
      assert s == rest;
    } else {
      assert s[0] == sign[0] && s[1..] == rest;
    }
  }

  lemma ParseSound(s: string)
    requires Parse(s).Ok?
    ensures Denotes(s, Parse(s).value)
  {
    var sign := if s[0] == '-' then "-" else if s[0] == '+' then "+" else "";
    var rest := if s[0] == '-' || s[0] == '+' then s[1..] else s;
    UnsignedSound(sign == "-", rest);
    assert s == sign + rest;
    assert Writes(s, Parse(s).value, sign, Cut(rest).0, Cut(rest).1, Cut(rest).2);
  }

  /** ParseDecimal accepts exactly the numerals and returns the value the text denotes. */
  lemma ParseAcceptsExactlyNumerals(s: string, d: Decimal)
    ensures Parse(s) == Ok(d) <==> Denotes(s, d)
  {
    if Parse(s) == Ok(d) {
      ParseSound(s);
    }
    if Denotes(s, d) {
      var sign, intPart, fracPart, point :| Writes(s, d, sign, intPart, fracPart, point);
      ParseComplete(s, d, sign, intPart, fracPart, point);
    }
  }

  /** s is an optionally signed numeral beyond int64. */
  ghost predicate Exceeds(s: string, sign: string, intPart: string, fracPart: string, point: bool) {
    IsSign(sign) && IsNumeral(intPart, fracPart, point) && s == sign + Body(intPart, fracPart, point)
    && DigitsValue(intPart + fracPart) > MAX_INT64
  }

  ghost predicate OutOfRange(s: string) {
    exists sign, intPart, fracPart, point :: Exceeds(s, sign, intPart, fracPart, point)
  }

  /** One point, and more than 18 characters after it. */
  ghost predicate TooFineAt(s: string, before: string, after: string) {
    s == Body(before, after, true) && '.' !in before && '.' !in after && |after| > MAX_SCALE
  }

  ghost predicate TooFine(s: string) {
    exists before, after :: TooFineAt(s, before, after)
  }

  function Sign(s: string): string {
    if s != "" && (s[0] == '-' || s[0] == '+') then [s[0]] else ""
  }

  function Unsigned(s: string): string {
    if s != "" && (s[0] == '-' || s[0] == '+') then s[1..] else s
  }

  lemma SignedBody(sign: string, before: string, after: string)
    ensures sign + Body(before, after, true) == Body(sign + before, after, true)
  {
  }

  lemma TooFineFound(s: string)
    requires Parse(s) == Err(DecimalTooFine)
    ensures TooFine(s)
  {
    var rest := Unsigned(s);
    var (before, after, point) := Cut(rest);
    CutParts(rest);
    assert s == Sign(s) + rest;
    SignedBody(Sign(s), before, after);
    assert '.' !in Sign(s) + before;
    assert TooFineAt(s, Sign(s) + before, after);
  }

  lemma TooFineRefused(s: string, before: string, after: string)
    requires TooFineAt(s, before, after)
    ensures Parse(s) == Err(DecimalTooFine)
  {
    var unsigned := Unsigned(before);
    if before != "" {
      assert s[0] == before[0];
    }
    assert Unsigned(s) == Body(unsigned, after, true);
    CutOfBody(unsigned, after, true);
  }

  lemma RangeFound(s: string)
    requires Parse(s) == Err(DecimalRange)
    ensures OutOfRange(s)
  {
    var rest := Unsigned(s);
    CutParts(rest);
    assert s == Sign(s) + rest;
    assert Exceeds(s, Sign(s), Cut(rest).0, Cut(rest).1, Cut(rest).2);
  }

  /** Stripping the sign of a signed numeral. */
  lemma UnsignedBody(sign: string, intPart: string, fracPart: string, point: bool)
    requires IsSign(sign) && IsNumeral(intPart, fracPart, point)
    ensures Unsigned(sign + Body(intPart, fracPart, point)) == Body(intPart, fracPart, point) != ""
  {
    var rest := Body(intPart, fracPart, point);
    BodyChars(intPart, fracPart, point, 0);
    if sign == "" {
      assert sign + rest == rest;
    } else {
      assert (sign + rest)[0] == sign[0];
    }
  }

  lemma RangeRefused(s: string, sign: string, intPart: string, fracPart: string, point: bool)
    requires Exceeds(s, sign, intPart, fracPart, point)
    ensures Parse(s) == Err(DecimalRange)
  {
    DigitsSplit(intPart, fracPart);
    CutOfBody(intPart, fracPart, point);
    UnsignedBody(sign, intPart, fracPart, point);
  }

  /** Which error a text gets: none of the three causes leaves a syntax error, or a value. */
  lemma ParseErrors(s: string)
    ensures Parse(s) == Err(EmptyDecimal) <==> s == ""
    ensures Parse(s) == Err(DecimalTooFine) <==> TooFine(s)
    ensures Parse(s) == Err(DecimalRange) <==> OutOfRange(s)
  {
    if Parse(s) == Err(DecimalTooFine) {
      TooFineFound(s);
    }
    if Parse(s) == Err(DecimalRange) {
      RangeFound(s);
    }
    forall before, after | TooFineAt(s, before, after) ensures Parse(s) == Err(DecimalTooFine) {
      TooFineRefused(s, before, after);
    }
    forall sign, intPart, fracPart, point | Exceeds(s, sign, intPart, fracPart, point)
      ensures Parse(s) == Err(DecimalRange)
    {
      RangeRefused(s, sign, intPart, fracPart, point);
    }
  }

  /** ParseDecimal as the source writes it: locals reassigned, one loop over the digits, then ParseInt. */
  method ParseDecimal(text: string) returns (r: Result<Decimal>)
    ensures r == Parse(text)
  {
    var s := text;
    if s == "" {
      return Err(EmptyDecimal);
    }
    var neg := false;
    if s[0] == '-' {
      neg, s := true, s[1..];
    } else if s[0] == '+' {
      s := s[1..];
    }
    if s == "" {
      return Err(DecimalSyntax);
    }
    var (intPart, fracPart, hasPoint) := Cut(s);
    if hasPoint && '.' in fracPart {
      return Err(DecimalSyntax);
    }
    if intPart == "" && fracPart == "" {
      return Err(DecimalSyntax);
    }
    if |fracPart| > MAX_SCALE {
      return Err(DecimalTooFine);
    }
    var digits := intPart + fracPart;
    var i := 0;
    while i < |digits|
      invariant 0 <= i <= |digits|
      invariant forall j :: 0 <= j < i ==> IsDigit(digits[j])
    {
      if digits[i] < '0' || digits[i] > '9' {
        return Err(DecimalSyntax);
      }
      i := i + 1;
    }
    var unscaled := ParseInt(digits);
    if unscaled > MAX_INT64 {
      return Err(DecimalRange);
    }
    if neg {
      unscaled := -unscaled;
    }
    r := Ok(Decimal(unscaled, |fracPart|));
  }

  method ParseInt(digits: string) returns (n: int)
    requires AllDigits(digits)
    ensures n == DigitsValue(digits)
  {
    n := 0;
    var i := 0;
    while i < |digits|
      invariant 0 <= i <= |digits|
      invariant n == DigitsValue(digits[..i])
    {
      assert digits[..i + 1][..i] == digits[..i];
      n := 10 * n + DigitOf(digits[i]);
      i := i + 1;
    }
    assert digits[..|digits|] == digits;
  }

  // ---- String ---------------------------------------------------------------------------------

  /** Digits padded with zeros until at least one stands before the point. */
  function Padded(digits: string, scale: nat): (p: string)
    ensures |p| > scale
  {
    if |digits| <= scale then Zeros(scale - |digits| + 1) + digits else digits
  }

  function Pointed(neg: bool, digits: string, scale: nat): string
    requires |digits| > scale
  {
    var split := |digits| - scale;
    (if neg then "-" else "") + digits[..split] + "." + digits[split..]
  }

  function Magnitude(u: int64): int64 {
    var v: int := u;
    if u < 0 then Wrap(-v) else u
  }

  function ToString(d: Decimal): string {
    if d.scale == 0 then FormatInt(d.unscaled)
    else Pointed(d.unscaled < 0, Padded(FormatInt(Magnitude(d.unscaled)), d.scale), d.scale)
  }

  lemma WriteUnscaled(d: Decimal)
    requires d.scale == 0 && d.unscaled != MIN_INT64
    ensures Parse(ToString(d)) == Ok(d)
  {
    var sign := if d.unscaled < 0 then "-" else "";
    var digits := FormatNat(Abs(d.unscaled));
    FormatNatValue(Abs(d.unscaled));
    assert digits + "" == digits;
    assert ToString(d) == sign + Body(digits, "", false);
    ParseComplete(ToString(d), d, sign, digits, "", false);
  }

  lemma PaddedDigits(n: nat, scale: nat)
    ensures AllDigits(Padded(FormatNat(n), scale)) && DigitsValue(Padded(FormatNat(n), scale)) == n
  {
    var plain := FormatNat(n);
    FormatNatValue(n);
    if |plain| <= scale {
      DigitsSplit(Zeros(scale - |plain| + 1), plain);
      LeadingZeros(scale - |plain| + 1, plain);
    }
  }

  lemma PointedIsBody(neg: bool, digits: string, scale: nat)
    requires scale < |digits|
    ensures var split := |digits| - scale;
      && digits[..split] + digits[split..] == digits
      && Pointed(neg, digits, scale) == (if neg then "-" else "") + Body(digits[..split], digits[split..], true)
  {
  }

  lemma PointedParses(neg: bool, digits: string, scale: nat)
    requires 0 < scale <= MAX_SCALE && scale < |digits| && AllDigits(digits) && DigitsValue(digits) <= MAX_INT64
    ensures Parse(Pointed(neg, digits, scale)) == Ok(Decimal(Signed(neg, DigitsValue(digits)), scale))
  {
    var split := |digits| - scale;
    var sign := if neg then "-" else "";
    PointedIsBody(neg, digits, scale);
    ParseComplete(Pointed(neg, digits, scale), Decimal(Signed(neg, DigitsValue(digits)), scale),
                  sign, digits[..split], digits[split..], true);
  }

  lemma WriteScaled(d: Decimal)
    requires 0 < d.scale <= MAX_SCALE && d.unscaled != MIN_INT64
    ensures Parse(ToString(d)) == Ok(d)
  {
    PaddedDigits(Abs(d.unscaled), d.scale);
    PointedParses(d.unscaled < 0, Padded(FormatNat(Abs(d.unscaled)), d.scale), d.scale);
  }

  predicate NoLeadingZero(s: string) {
    s != "" && (s[0] == '0' ==> |s| == 1)
  }

  lemma {:induction false} FormatNatLeads(n: nat)
    ensures NoLeadingZero(FormatNat(n)) && (n > 0 ==> FormatNat(n)[0] != '0')
  {
    if n >= 10 {
      FormatNatLeads(n / 10);
    }
  }

  /** s writes d without a plus sign or a superfluous zero, with a point exactly when there are decimals. */
  ghost predicate Canonically(s: string, d: Decimal, intPart: string, fracPart: string) {
    Writes(s, d, if d.unscaled < 0 then "-" else "", intPart, fracPart, d.scale > 0) && NoLeadingZero(intPart)
  }

  ghost predicate Canonical(s: string, d: Decimal) {
    exists intPart, fracPart :: Canonically(s, d, intPart, fracPart)
  }

  lemma CanonicalUnscaled(d: Decimal)
    requires d.scale == 0 && d.unscaled != MIN_INT64
    ensures Canonical(ToString(d), d)
  {
    var digits := FormatNat(Abs(d.unscaled));
    FormatNatValue(Abs(d.unscaled));
    FormatNatLeads(Abs(d.unscaled));
    assert digits + "" == digits;
    assert Canonically(ToString(d), d, digits, "");
  }

  lemma PaddedLeads(n: nat, scale: nat)
    ensures NoLeadingZero(Padded(FormatNat(n), scale)[..|Padded(FormatNat(n), scale)| - scale])
  {
    FormatNatLeads(n);
    var plain := FormatNat(n);
    if |plain| <= scale {
      assert Padded(plain, scale)[0] == '0';
    }
  }

  lemma BodyIsCanonical(s: string, d: Decimal, intPart: string, fracPart: string)
    requires 0 < d.scale == |fracPart| <= MAX_SCALE && AllDigits(intPart + fracPart)
    requires DigitsValue(intPart + fracPart) == Abs(d.unscaled) <= MAX_INT64 && NoLeadingZero(intPart)
    requires s == (if d.unscaled < 0 then "-" else "") + Body(intPart, fracPart, true)
    ensures Canonical(s, d)
  {
    assert Canonically(s, d, intPart, fracPart);
  }

  lemma PointedCanonical(d: Decimal, digits: string)
    requires 0 < d.scale <= MAX_SCALE && d.scale < |digits| && AllDigits(digits)
    requires DigitsValue(digits) == Abs(d.unscaled) <= MAX_INT64 && NoLeadingZero(digits[..|digits| - d.scale])
    ensures Canonical(Pointed(d.unscaled < 0, digits, d.scale), d)
  {
    var split := |digits| - d.scale;
    PointedIsBody(d.unscaled < 0, digits, d.scale);
    BodyIsCanonical(Pointed(d.unscaled < 0, digits, d.scale), d, digits[..split], digits[split..]);
  }

  lemma CanonicalScaled(d: Decimal)
    requires 0 < d.scale <= MAX_SCALE && d.unscaled != MIN_INT64
    ensures Canonical(ToString(d), d)
  {
    PaddedDigits(Abs(d.unscaled), d.scale);
    PaddedLeads(Abs(d.unscaled), d.scale);
    PointedCanonical(d, Padded(FormatNat(Abs(d.unscaled)), d.scale));
  }

  /** String writes the canonical numeral of the decimal. */
  lemma StringIsCanonical(d: Decimal)
    requires InScale(d) && d.unscaled != MIN_INT64
    ensures Canonical(ToString(d), d)
  {
    if d.scale == 0 {
      CanonicalUnscaled(d);
    } else {
      CanonicalScaled(d);
    }
  }

  /** A minus sign anywhere but in front is not a numeral. */
  lemma InnerMinusRejected(s: string, i: nat)
    requires 0 < i < |s| && s[i] == '-'
    ensures !Parse(s).Ok?
  {
    if Parse(s).Ok? {
      ParseSound(s);
      var sign, intPart, fracPart, point :| Writes(s, Parse(s).value, sign, intPart, fracPart, point);
      BodyChars(intPart, fracPart, point, i - |sign|);
    }
  }

  lemma PointedKeepsMinus(digits: string, scale: nat, k: nat)
    requires scale < |digits| && k < |digits| && digits[k] == '-'
    ensures !Parse(Pointed(true, digits, scale)).Ok?
  {
    var s := Pointed(true, digits, scale);
    var split := |digits| - scale;
    if k < split {
      assert s[1 + k] == digits[k];
      InnerMinusRejected(s, 1 + k);
    } else {
      assert s[2 + k] == digits[k];
      InnerMinusRejected(s, 2 + k);
    }
  }

  lemma MinInt64Rejected(d: Decimal)
    requires InScale(d) && d.unscaled == MIN_INT64
    ensures !Parse(ToString(d)).Ok?
  {
    var u: int := d.unscaled;
    if d.scale == 0 {
      var digits := FormatNat(-u);
      FormatNatValue(-u);
      assert digits + "" == digits;
      CutOfBody(digits, "", false);
      assert Body(digits, "", false) == digits;
      assert ToString(d)[1..] == digits;
    } else {
      assert Wrap(-u) == Wrap(-u - TWO_64);
      var plain := FormatInt(u);
      var digits := Padded(plain, d.scale);
      var k := |digits| - |plain|;
      assert digits[k] == plain[0] == '-';
      PointedKeepsMinus(digits, d.scale, k);
    }
  }

  /** Printing then parsing gives the decimal back exactly when its mantissa is not MinInt64, the one
      value whose magnitude has no int64. */
  lemma StringRoundTrips(d: Decimal)
    requires InScale(d)
    ensures Parse(ToString(d)) == Ok(d) <==> d.unscaled != MIN_INT64
  {
    if d.unscaled == MIN_INT64 {
      MinInt64Rejected(d);
    } else if d.scale == 0 {
      WriteUnscaled(d);
    } else {
      WriteScaled(d);
    }
  }

  // ---- JSON -----------------------------------------------------------------------------------

  function MarshalJSON(d: Decimal): string {
    "\"" + ToString(d) + "\""
  }

  predicate IsSpace(c: char) {
    c == ' ' || '\t' <= c <= '\r' || c == '\U{0085}' || c == '\U{00A0}' || c == '\U{1680}'
    || '\U{2000}' <= c <= '\U{200A}' || c == '\U{2028}' || c == '\U{2029}' || c == '\U{202F}'
    || c == '\U{205F}' || c == '\U{3000}'
  }

  function TrimSpace(s: string): string {
    if s != "" && IsSpace(s[0]) then TrimSpace(s[1..])
    else if s != "" && IsSpace(s[|s| - 1]) then TrimSpace(s[..|s| - 1])
    else s
  }

  function TrimQuotes(s: string): string {
    if s != "" && s[0] == '"' then TrimQuotes(s[1..])
    else if s != "" && s[|s| - 1] == '"' then TrimQuotes(s[..|s| - 1])
    else s
  }

  function UnmarshalJSON(b: string): Result<Decimal> {
    var s := TrimSpace(b);
    if s == "null" then Ok(ZERO) else Parse(TrimQuotes(s))
  }

  predicate Plain(c: char) {
    IsDigit(c) || c == '-' || c == '.'
  }

  predicate AllPlain(s: string) {
    forall i :: 0 <= i < |s| ==> Plain(s[i])
  }

  lemma PointedPlain(neg: bool, digits: string, scale: nat)
    requires scale < |digits| && AllPlain(digits)
    ensures Pointed(neg, digits, scale) != "" && AllPlain(Pointed(neg, digits, scale))
  {
  }

  lemma ToStringPlain(d: Decimal)
    ensures ToString(d) != "" && AllPlain(ToString(d))
  {
    if d.scale != 0 {
      PointedPlain(d.unscaled < 0, Padded(FormatInt(Magnitude(d.unscaled)), d.scale), d.scale);
    }
  }

  lemma TrimQuoted(s: string)
    requires s != "" && s[0] != '"' && s[|s| - 1] != '"'
    ensures TrimQuotes("\"" + s + "\"") == s
  {
    var q := "\"" + s + "\"";
    assert q[1..] == s + "\"";
    assert (s + "\"")[..|s|] == s;
    assert TrimQuotes(s) == s;
    assert TrimQuotes(s + "\"") == TrimQuotes(s);
  }

  /** The JSON pair round-trips on exactly the same decimals, and the other ones do not decode at all. */
  lemma JSONRoundTrips(d: Decimal)
    requires InScale(d)
    ensures UnmarshalJSON(MarshalJSON(d)) == Ok(d) <==> d.unscaled != MIN_INT64
    ensures UnmarshalJSON(MarshalJSON(d)).Ok? <==> d.unscaled != MIN_INT64
  {
    var s, q := ToString(d), MarshalJSON(d);
    ToStringPlain(d);
    assert Plain(s[0]) && Plain(s[|s| - 1]);
    assert q[0] == '"' && q[|q| - 1] == '"';
    assert TrimSpace(q) == q;
    TrimQuoted(s);
    StringRoundTrips(d);
    if d.unscaled == MIN_INT64 {
      MinInt64Rejected(d);
    }
  }

  predicate AllSpaces(s: string) {
    forall i :: 0 <= i < |s| ==> IsSpace(s[i])
  }

  /** Neither end of s is white space or a quote. */
  predicate Trimmed(s: string) {
    s != "" && !IsSpace(s[0]) && !IsSpace(s[|s| - 1]) && s[0] != '"' && s[|s| - 1] != '"'
  }

  lemma {:induction false} TrimSpaceOff(before: string, s: string, after: string)
    requires AllSpaces(before) && AllSpaces(after)
    requires s != "" && !IsSpace(s[0]) && !IsSpace(s[|s| - 1])
    ensures TrimSpace(before + s + after) == s
    decreases |before| + |after|
  {
    var t := before + s + after;
    if before != "" {
      assert t[0] == before[0] && t[1..] == before[1..] + s + after;
      TrimSpaceOff(before[1..], s, after);
    } else if after != "" {
      assert t[0] == s[0];
      assert t[|t| - 1] == after[|after| - 1] && t[..|t| - 1] == before + s + after[..|after| - 1];
      TrimSpaceOff(before, s, after[..|after| - 1]);
    } else {
      assert t == s;
    }
  }

  lemma NumeralTrimmed(s: string, d: Decimal)
    requires Denotes(s, d)
    ensures Trimmed(s) && s != "null"
  {
    var sign, intPart, fracPart, point :| Writes(s, d, sign, intPart, fracPart, point);
    var rest := Body(intPart, fracPart, point);
    BodyChars(intPart, fracPart, point, 0);
    BodyChars(intPart, fracPart, point, |rest| - 1);
    assert s[|s| - 1] == rest[|rest| - 1];
    assert s[0] == if sign == "" then rest[0] else sign[0];
  }

  /** Decoding a numeral, quoted or bare, amid white space gives what it denotes; null gives zero. */
  lemma UnmarshalMeans(s: string, d: Decimal, before: string, after: string)
    requires AllSpaces(before) && AllSpaces(after)
    ensures UnmarshalJSON(before + "null" + after) == Ok(Decimal(0, 0))
    ensures Denotes(s, d) ==> UnmarshalJSON(before + s + after) == Ok(d)
    ensures Denotes(s, d) ==> UnmarshalJSON(before + ("\"" + s + "\"") + after) == Ok(d)
  {
    TrimSpaceOff(before, "null", after);
    if Denotes(s, d) {
      NumeralTrimmed(s, d);
      ParseAcceptsExactlyNumerals(s, d);
      TrimSpaceOff(before, s, after);
      TrimQuoted(s);
      TrimSpaceOff(before, "\"" + s + "\"", after);
    }
  }

  /** A decimal being decoded in place, as UnmarshalJSON does to its receiver. */
  class Cell {
    var value: Decimal

    constructor (d: Decimal)
      ensures value == d
    {
      value := d;
    }

    /** On success the cell holds the decoded value; a malformed text leaves it untouched. */
    method Unmarshal(b: string) returns (err: Option<ParseError>)
      modifies this
      ensures match UnmarshalJSON(b)
        case Ok(d) => err == None && value == d
        case Err(e) => err == Some(e) && value == old(value)
    {
      var s := TrimSpace(b);
      if s == "null" {
        value := ZERO;
        return None;
      }
      var parsed := ParseDecimal(TrimQuotes(s));
      if parsed.Err? {
        return Some(parsed.error);
      }
      value := parsed.value;
      err := None;
    }
  }
}
