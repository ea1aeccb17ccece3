/** CPF normalisation and check-digit validation, and the request-schema
    validators built on them (app/schemas/schemas.py). Digits are ASCII. */
module Schemas {
  import opened Types

  predicate IsDigit(c: char) {
    '0' <= c <= '9'
  }

  predicate AllDigits(s: string) {
    forall i :: 0 <= i < |s| ==> IsDigit(s[i])
  }

  function DigitValue(c: char): (n: nat)
    requires IsDigit(c)
    ensures n <= 9
  {
    c as int - '0' as int
  }

  // ---------------------------------------------------------------------------
  // _only_digits
  // ---------------------------------------------------------------------------

  /** The input with every non-digit character removed (`re.sub(r"\D", "", s)`). */
  function OnlyDigits(s: string): (r: string)
    ensures AllDigits(r)
    ensures |r| <= |s|
  {
    if s == [] then []
    else (if IsDigit(s[0]) then [s[0]] else []) + OnlyDigits(s[1..])
  }

  /** A string of digits is its own normal form. */
  lemma {:induction false} OnlyDigitsOfDigits(s: string)
    requires AllDigits(s)
    ensures OnlyDigits(s) == s
  {
    if s != [] {
      OnlyDigitsOfDigits(s[1..]);
    }
  }

  /** Normalising twice is normalising once. */
  lemma {:induction false} OnlyDigitsIdempotent(s: string)
    ensures OnlyDigits(OnlyDigits(s)) == OnlyDigits(s)
  {
    OnlyDigitsOfDigits(OnlyDigits(s));
  }

  /** The digits keep their order: normalising a concatenation concatenates
      the normal forms. */
  lemma {:induction false} OnlyDigitsConcat(a: string, b: string)
    ensures OnlyDigits(a + b) == OnlyDigits(a) + OnlyDigits(b)
  {
    if a == [] {
      assert a + b == b;
    } else {
      assert (a + b)[1..] == a[1..] + b;
      OnlyDigitsConcat(a[1..], b);
    }
  }

  /** A separator anywhere in the input does not change its normal form, so
      "123.456.789-09" and "12345678909" name the same CPF. */
  lemma OnlyDigitsIgnoresSeparator(a: string, c: char, b: string)
    requires !IsDigit(c)
    ensures OnlyDigits(a + [c] + b) == OnlyDigits(a + b)
  {
    OnlyDigitsConcat(a + [c], b);
    OnlyDigitsConcat(a, [c]);
    OnlyDigitsConcat(a, b);
  }

  /** Every digit of the input survives, as often as it occurs. */
  lemma {:induction false} OnlyDigitsKeepsEveryDigit(s: string, c: char)
    requires IsDigit(c)
    ensures multiset(OnlyDigits(s))[c] == multiset(s)[c]
  {
    if s != [] {
      OnlyDigitsKeepsEveryDigit(s[1..], c);
      assert s == [s[0]] + s[1..];
    }
  }

  // ---------------------------------------------------------------------------
  // _validate_cpf and its inner dv
  // ---------------------------------------------------------------------------

  /** Sum of the digits of `ds[i..]`, the digit at position j weighted by
      |ds| + 1 - j: the weights run from |ds| + 1 down to 2, as
      `zip(seq, range(len(seq) + 1, 1, -1))` pairs them. */
  function WeightedSum(ds: string, i: nat): (sum: nat)
    requires AllDigits(ds)
    ensures sum == 0 <==> forall j :: i <= j < |ds| ==> ds[j] == '0'
    decreases |ds| - i
  {
    if i >= |ds| then 0
    else
      WeightedTerm(ds[i], |ds| + 1 - i);
      assert (forall j :: i <= j < |ds| ==> ds[j] == '0') <==>
             ds[i] == '0' && forall j :: i + 1 <= j < |ds| ==> ds[j] == '0';
      DigitValue(ds[i]) * (|ds| + 1 - i) + WeightedSum(ds, i + 1)
  }

  /** Helper of `WeightedSum`: a digit times a positive weight is zero exactly
      for the digit 0. */
  lemma WeightedTerm(c: char, w: nat)
    requires IsDigit(c) && w > 0
    ensures DigitValue(c) * w >= 0
    ensures DigitValue(c) * w == 0 <==> c == '0'
  {
    if DigitValue(c) > 0 {
      assert DigitValue(c) * w >= w;
    }
  }

  /** The inner `dv`: ten times the weighted sum modulo 11, with 10 read as 0. */
  function CheckDigit(ds: string): (d: nat)
    requires AllDigits(ds)
    ensures d <= 9
  {
    var r := (WeightedSum(ds, 0) * 10) % 11;
    if r == 10 then 0 else r
  }

  /** True when every character equals the first (`len(set(digits)) == 1`):
      the string is not empty and any two of its characters are equal, so its
      set of characters has exactly one element. */
  function AllSame(d: string): (same: bool)
    ensures same <==> |d| > 0 && forall i, j :: 0 <= i < |d| && 0 <= j < |d| ==> d[i] == d[j]
  {
    |d| > 0 && forall i :: 0 <= i < |d| ==> d[i] == d[0]
  }

  /** `_validate_cpf`: the shape guard, then both check digits. A wrong length
      or a repeated digit is rejected before any check digit is computed;
      `ValidateCpfIsReceitaCheck` characterises acceptance completely. */
  function ValidateCpf(digits: string): (ok: bool)
    requires AllDigits(digits)
    ensures ok ==> |digits| == 11 && !AllSame(digits)
  {
    if |digits| != 11 || AllSame(digits) then false
    else
      (CheckDigit(digits[..9]) == DigitValue(digits[9]) &&
       CheckDigit(digits[..10]) == DigitValue(digits[10]))
  }

  /** The check digits as the Receita Federal publishes them: the remainder of
      the weighted sum modulo 11, a remainder below 2 giving 0 and any other
      remainder r giving 11 - r. The first digit weights d1..d9 by 10..2, the
      second weights d1..d10 by 11..2. */
  function ReceitaDigit(sum: nat): (d: nat)
  {
    var r := sum % 11;
    if r < 2 then 0 else 11 - r
  }

  function ReceitaFirstSum(d: string): nat
    requires AllDigits(d) && |d| >= 9
  {
    10 * DigitValue(d[0]) + 9 * DigitValue(d[1]) + 8 * DigitValue(d[2])
    + 7 * DigitValue(d[3]) + 6 * DigitValue(d[4]) + 5 * DigitValue(d[5])
    + 4 * DigitValue(d[6]) + 3 * DigitValue(d[7]) + 2 * DigitValue(d[8])
  }

  function ReceitaSecondSum(d: string): nat
    requires AllDigits(d) && |d| >= 10
  {
    11 * DigitValue(d[0]) + 10 * DigitValue(d[1]) + 9 * DigitValue(d[2])
    + 8 * DigitValue(d[3]) + 7 * DigitValue(d[4]) + 6 * DigitValue(d[5])
    + 5 * DigitValue(d[6]) + 4 * DigitValue(d[7]) + 3 * DigitValue(d[8])
    + 2 * DigitValue(d[9])
  }

  /** `(10 * s) % 11` with 10 read as 0 is the published "11 minus remainder" rule. */
  lemma CheckDigitRule(s: nat)
    ensures (var r := (s * 10) % 11; if r == 10 then 0 else r) == ReceitaDigit(s)
  {
    var q, r := s / 11, s % 11;
    assert s == 11 * q + r;
    assert s * 10 == 11 * (10 * q) + 10 * r;
    ModShift(10 * q, 10 * r);
    assert (s * 10) % 11 == (10 * r) % 11;
  }

  /** Helper of `CheckDigitRule`: adding multiples of 11 keeps the remainder. */
  lemma {:induction false} ModShift(k: nat, x: nat)
    ensures (11 * k + x) % 11 == x % 11
  {
    if k > 0 {
      ModShift(k - 1, x);
      assert 11 * k + x == 11 * (k - 1) + x + 11;
    }
  }

  lemma FirstPrefixSum(d: string)
    requires AllDigits(d) && |d| >= 9
    ensures WeightedSum(d[..9], 0) == ReceitaFirstSum(d)
  {
    var p := d[..9];
    assert WeightedSum(p, 9) == 0;
    assert WeightedSum(p, 8) == 2 * DigitValue(d[8]);
    assert WeightedSum(p, 7) == 3 * DigitValue(d[7]) + WeightedSum(p, 8);
    assert WeightedSum(p, 6) == 4 * DigitValue(d[6]) + WeightedSum(p, 7);
    assert WeightedSum(p, 5) == 5 * DigitValue(d[5]) + WeightedSum(p, 6);
    assert WeightedSum(p, 4) == 6 * DigitValue(d[4]) + WeightedSum(p, 5);
    assert WeightedSum(p, 3) == 7 * DigitValue(d[3]) + WeightedSum(p, 4);
    assert WeightedSum(p, 2) == 8 * DigitValue(d[2]) + WeightedSum(p, 3);
    assert WeightedSum(p, 1) == 9 * DigitValue(d[1]) + WeightedSum(p, 2);
    assert WeightedSum(p, 0) == 10 * DigitValue(d[0]) + WeightedSum(p, 1);
  }

  lemma SecondPrefixSum(d: string)
    requires AllDigits(d) && |d| >= 10
    ensures WeightedSum(d[..10], 0) == ReceitaSecondSum(d)
  {
    var p := d[..10];
    assert WeightedSum(p, 10) == 0;
    assert WeightedSum(p, 9) == 2 * DigitValue(d[9]);
    assert WeightedSum(p, 8) == 3 * DigitValue(d[8]) + WeightedSum(p, 9);
    assert WeightedSum(p, 7) == 4 * DigitValue(d[7]) + WeightedSum(p, 8);
    assert WeightedSum(p, 6) == 5 * DigitValue(d[6]) + WeightedSum(p, 7);
    assert WeightedSum(p, 5) == 6 * DigitValue(d[5]) + WeightedSum(p, 6);
    assert WeightedSum(p, 4) == 7 * DigitValue(d[4]) + WeightedSum(p, 5);
    assert WeightedSum(p, 3) == 8 * DigitValue(d[3]) + WeightedSum(p, 4);
    assert WeightedSum(p, 2) == 9 * DigitValue(d[2]) + WeightedSum(p, 3);
    assert WeightedSum(p, 1) == 10 * DigitValue(d[1]) + WeightedSum(p, 2);
    assert WeightedSum(p, 0) == 11 * DigitValue(d[0]) + WeightedSum(p, 1);
  }

  /** `_validate_cpf` accepts exactly the 11-digit strings that are not one
      digit repeated and whose 10th and 11th digits are the Receita Federal
      check digits of the 9 and 10 digits before them. */
  lemma ValidateCpfIsReceitaCheck(d: string)
    requires AllDigits(d)
    ensures ValidateCpf(d) <==>
      && |d| == 11
      && !AllSame(d)
      && DigitValue(d[9]) == ReceitaDigit(ReceitaFirstSum(d))
      && DigitValue(d[10]) == ReceitaDigit(ReceitaSecondSum(d))
  {
    if |d| == 11 {
      FirstPrefixSum(d);
      SecondPrefixSum(d);
      CheckDigitRule(WeightedSum(d[..9], 0));
      CheckDigitRule(WeightedSum(d[..10], 0));
    }
  }

  /** A CPF registered by the charge and transaction tests is accepted. */
  lemma CpfFixture12345678909()
    ensures ValidateCpf("12345678909")
  {
    var d := "12345678909";
    assert AllDigits(d) && d[1] != d[0];
    assert DigitValue(d[0]) == 1 && DigitValue(d[1]) == 2 && DigitValue(d[2]) == 3 && DigitValue(d[3]) == 4 && DigitValue(d[4]) == 5 && DigitValue(d[5]) == 6 && DigitValue(d[6]) == 7 && DigitValue(d[7]) == 8 && DigitValue(d[8]) == 9 && DigitValue(d[9]) == 0 && DigitValue(d[10]) == 9;
    ValidateCpfIsReceitaCheck(d);
    assert ReceitaFirstSum(d) == 210 && ReceitaSecondSum(d) == 255;
  }

  /** The other CPF registered by the charge tests is accepted. */
  lemma CpfFixture39053344705()
    ensures ValidateCpf("39053344705")
  {
    var d := "39053344705";
    assert AllDigits(d) && d[1] != d[0];
    assert DigitValue(d[0]) == 3 && DigitValue(d[1]) == 9 && DigitValue(d[2]) == 0 && DigitValue(d[3]) == 5 && DigitValue(d[4]) == 3 && DigitValue(d[5]) == 3 && DigitValue(d[6]) == 4 && DigitValue(d[7]) == 4 && DigitValue(d[8]) == 7 && DigitValue(d[9]) == 0 && DigitValue(d[10]) == 5;
    ValidateCpfIsReceitaCheck(d);
    assert ReceitaFirstSum(d) == 221 && ReceitaSecondSum(d) == 259;
  }

  /** The recipient CPF of the transaction tests is accepted. */
  lemma CpfFixture98765432100()
    ensures ValidateCpf("98765432100")
  {
    var d := "98765432100";
    assert AllDigits(d) && d[1] != d[0];
    assert DigitValue(d[0]) == 9 && DigitValue(d[1]) == 8 && DigitValue(d[2]) == 7 && DigitValue(d[3]) == 6 && DigitValue(d[4]) == 5 && DigitValue(d[5]) == 4 && DigitValue(d[6]) == 3 && DigitValue(d[7]) == 2 && DigitValue(d[8]) == 1 && DigitValue(d[9]) == 0 && DigitValue(d[10]) == 0;
    ValidateCpfIsReceitaCheck(d);
    assert ReceitaFirstSum(d) == 330 && ReceitaSecondSum(d) == 375;
  }

  /** One digit repeated eleven times is rejected although its check digits
      match. */
  lemma CpfFixture11111111111()
    ensures !ValidateCpf("11111111111")
  {
    var ones := "11111111111";
    assert AllDigits(ones) && AllSame(ones) by {
      assert forall i :: 0 <= i < |ones| ==> ones[i] == '1';
    }
  }

  /** A wrong last check digit is rejected (the right one is 9). */
  lemma CpfFixture12345678900()
    ensures !ValidateCpf("12345678900")
  {
    var d := "12345678900";
    assert AllDigits(d) && d[1] != d[0];
    assert DigitValue(d[0]) == 1 && DigitValue(d[1]) == 2 && DigitValue(d[2]) == 3 && DigitValue(d[3]) == 4 && DigitValue(d[4]) == 5 && DigitValue(d[5]) == 6 && DigitValue(d[6]) == 7 && DigitValue(d[7]) == 8 && DigitValue(d[8]) == 9 && DigitValue(d[9]) == 0 && DigitValue(d[10]) == 0;
    ValidateCpfIsReceitaCheck(d);
    assert ReceitaSecondSum(d) == 255;
  }

  // ---------------------------------------------------------------------------
  // field validators: UserCreate.cpf, ChargeBase.recipient_cpf, UserLogin.cpf
  // ---------------------------------------------------------------------------

  /** Shared body of the CPF field validators: the digits-only form when its
      check digits pass, otherwise the validator's own error. */
  function NormalizeAndCheckCpf(v: string, onError: Failure): (r: Result<string>)
    ensures r.Ok? <==> ValidateCpf(OnlyDigits(v))
    ensures r.Ok? ==> r.value == OnlyDigits(v) && |r.value| == 11
    ensures r.Err? ==> r.error == onError
  {
    var d := OnlyDigits(v);
    if ValidateCpf(d) then Ok(d) else Err(onError)
  }

  /** The `cpf` validator of `UserCreate`: the digits-only form when it is a
      valid CPF, and otherwise the registration's invalid-CPF error. */
  function UserCreateCpf(v: string): (r: Result<string>)
    ensures r.Ok? <==> ValidateCpf(OnlyDigits(v))
    ensures r.Ok? ==> r.value == OnlyDigits(v)
    ensures r.Err? ==> r.error == InvalidCpf
  {
    NormalizeAndCheckCpf(v, InvalidCpf)
  }

  /** The `recipient_cpf` validator of `ChargeBase`: the digits-only form when
      it is a valid CPF, and otherwise the invalid-recipient error. */
  function ChargeRecipientCpf(v: string): (r: Result<string>)
    ensures r.Ok? <==> ValidateCpf(OnlyDigits(v))
    ensures r.Ok? ==> r.value == OnlyDigits(v)
    ensures r.Err? ==> r.error == InvalidRecipientCpf
  {
    NormalizeAndCheckCpf(v, InvalidRecipientCpf)
  }

  /** `UserLogin.cpf` lets an absent CPF through untouched. */
  function UserLoginCpf(v: Option<string>): (r: Result<Option<string>>)
    ensures v.None? ==> r == Ok(None)
    ensures v.Some? ==> (r.Ok? <==> UserCreateCpf(v.value).Ok?)
    ensures v.Some? && r.Ok? ==> r.value == Some(OnlyDigits(v.value))
  {
    match v
    case None => Ok(None)
    case Some(s) =>
      match UserCreateCpf(s)
      case Ok(d) => Ok(Some(d))
      case Err(e) => Err(e)
  }

  /** A validated CPF is a fixed point of its validator: the stored normal
      form validates again to itself. */
  lemma {:induction false} NormalFormIsStable(v: string, onError: Failure)
    requires NormalizeAndCheckCpf(v, onError).Ok?
    ensures var d := NormalizeAndCheckCpf(v, onError).value;
      AllDigits(d) && NormalizeAndCheckCpf(d, onError) == Ok(d)
  {
    OnlyDigitsIdempotent(v);
  }

  // ---------------------------------------------------------------------------
  // UserLogin
  // ---------------------------------------------------------------------------

  predicate Truthy(s: Option<string>) {
    s.Some? && s.value != ""
  }

  datatype LoginForm = LoginForm(cpf: Option<string>, email: Option<string>, password: string)

  /** `UserLogin`: the CPF field validator, then `ensure_one_identifier`,
      which refuses a form with neither a CPF nor an email. */
  function ValidateUserLogin(cpf: Option<string>, email: Option<string>, password: string): (r: Result<LoginForm>)
    ensures UserLoginCpf(cpf).Err? ==> r == Err(InvalidCpf)
    ensures r.Ok? <==> UserLoginCpf(cpf).Ok? && (cpf.Some? || Truthy(email))
    ensures r.Ok? ==> r.value.email == email && r.value.password == password
    ensures r.Ok? && r.value.cpf.Some? ==>
              AllDigits(r.value.cpf.value) && ValidateCpf(r.value.cpf.value)
  {
    match UserLoginCpf(cpf)
    case Err(e) => Err(e)
    case Ok(c) =>
      if Truthy(c) || Truthy(email) then Ok(LoginForm(c, email, password))
      else Err(MissingLoginIdentifier)
  }
}
