/** The data-annotation rules on `RegisterUserDto`, and the check `Register` repeats
    before calling the account service. The phone rule is a regular expression; it is
    modelled by a small matcher for anchored patterns whose every item repeats a
    fixed number of times, which is all the pattern uses. */
module Registration {
  import opened Wrappers
  import opened DotNet
  import opened Validation

  // ---------- anchored fixed-count patterns ----------

  /** An inclusive character range inside a `[...]` class. */
  datatype CharRange = CharRange(lo: char, hi: char)

  /** A character class repeated exactly `count` times (`[...]{count}`). */
  datatype Item = Item(ranges: seq<CharRange>, count: nat)

  predicate InClass(c: char, ranges: seq<CharRange>) {
    exists k :: 0 <= k < |ranges| && ranges[k].lo <= c <= ranges[k].hi
  }

  /** Whether the whole of `s` matches `^items$`: since every count is fixed, each item
      consumes exactly `count` characters. */
  function FullMatch(items: seq<Item>, s: string): bool
    decreases |items|
  {
    if items == [] then s == []
    else
      var n := items[0].count;
      && n <= |s|
      && (forall i :: 0 <= i < n ==> InClass(s[i], items[0].ranges))
      && FullMatch(items[1..], s[n..])
  }

  function Literal(c: char): Item {
    Item([CharRange(c, c)], 1)
  }

  /** `^01[0-2,5]{1}[0-9]{8}$` as written: inside a class a comma is a literal character. */
  const PhonePattern: seq<Item> := [
    Literal('0'), Literal('1'),
    Item([CharRange('0', '2'), CharRange(',', ','), CharRange('5', '5')], 1),
    Item([CharRange('0', '9')], 8)]

  /** `^01[0-25]{1}[0-9]{8}$`: the Egyptian mobile prefixes 010, 011, 012 and 015. */
  const IntendedPhonePattern: seq<Item> := [
    Literal('0'), Literal('1'),
    Item([CharRange('0', '2'), CharRange('5', '5')], 1),
    Item([CharRange('0', '9')], 8)]

  predicate IsAsciiDigit(c: char) {
    '0' <= c <= '9'
  }

  /** The shape both patterns share: eleven characters, "01", a third character from
      `third`, then eight ASCII digits. */
  predicate PhoneShape(s: string, third: string) {
    && |s| == 11
    && s[0] == '0' && s[1] == '1'
    && s[2] in third
    && forall i :: 3 <= i < 11 ==> IsAsciiDigit(s[i])
  }

  lemma {:induction false} DigitsMatch(s: string)
    requires |s| == 8 && forall i :: 0 <= i < 8 ==> IsAsciiDigit(s[i])
    ensures FullMatch([Item([CharRange('0', '9')], 8)], s)
  {
    var items := [Item([CharRange('0', '9')], 8)];
    forall i | 0 <= i < 8 ensures InClass(s[i], items[0].ranges) {
      assert items[0].ranges[0].lo <= s[i] <= items[0].ranges[0].hi;
    }
    assert items[1..] == [] && s[8..] == [];
  }

  /** Peels the first item off a match. */
  lemma FullMatchStep(items: seq<Item>, s: string)
    requires items != []
    ensures FullMatch(items, s) <==>
      items[0].count <= |s|
      && (forall i :: 0 <= i < items[0].count ==> InClass(s[i], items[0].ranges))
      && FullMatch(items[1..], s[items[0].count..])
  {
  }

  /** What the phone pattern as written accepts. */
  lemma {:induction false} PhonePatternMeaning(s: string)
    ensures FullMatch(PhonePattern, s) <==> PhoneShape(s, "012,5")
  {
    var rs := PhonePattern[2].ranges;
    forall c ensures InClass(c, rs) <==> c in "012,5" {
      if c in "012,5" {
        if c == ',' { assert rs[1].lo <= c <= rs[1].hi; }
        else if c == '5' { assert rs[2].lo <= c <= rs[2].hi; }
        else { assert rs[0].lo <= c <= rs[0].hi; }
      }
    }
    ShapeMeaning(PhonePattern, s, "012,5");
  }

  /** What the intended phone pattern accepts. */
  lemma {:induction false} IntendedPhonePatternMeaning(s: string)
    ensures FullMatch(IntendedPhonePattern, s) <==> PhoneShape(s, "0125")
  {
    var rs := IntendedPhonePattern[2].ranges;
    forall c ensures InClass(c, rs) <==> c in "0125" {
      if c in "0125" {
        if c == '5' { assert rs[1].lo <= c <= rs[1].hi; }
        else { assert rs[0].lo <= c <= rs[0].hi; }
      }
    }
    ShapeMeaning(IntendedPhonePattern, s, "0125");
  }

  lemma {:induction false} ShapeMeaning(items: seq<Item>, s: string, third: string)
    requires |items| == 4
    requires items[0] == Literal('0') && items[1] == Literal('1')
    requires items[2].count == 1 && forall c :: InClass(c, items[2].ranges) <==> c in third
    requires items[3] == Item([CharRange('0', '9')], 8)
    ensures FullMatch(items, s) <==> PhoneShape(s, third)
  {
    FullMatchStep(items, s);
    if |s| >= 1 {
      FullMatchStep(items[1..], s[1..]);
      if |s| >= 2 {
        FullMatchStep(items[2..], s[2..]);
        assert items[1..][1..] == items[2..];
        assert s[1..][1..] == s[2..];
        if |s| >= 3 {
          FullMatchStep(items[3..], s[3..]);
          assert items[2..][1..] == items[3..];
          assert s[2..][1..] == s[3..];
          assert items[3..][1..] == [];
          var tail := s[3..];
          assert InClass(s[0], items[0].ranges) <==> s[0] == '0' by {
            if s[0] == '0' { assert items[0].ranges[0].lo <= s[0] <= items[0].ranges[0].hi; }
          }
          assert InClass(s[1], items[1].ranges) <==> s[1] == '1' by {
            if s[1] == '1' { assert items[1].ranges[0].lo <= s[1] <= items[1].ranges[0].hi; }
          }
          assert InClass(s[2], items[2].ranges) <==> s[2] in third;
          if |tail| == 8 && forall i :: 0 <= i < 8 ==> IsAsciiDigit(tail[i]) {
            DigitsMatch(tail);
            assert forall i :: 0 <= i < 8 ==> InClass(tail[i], items[3].ranges);
          }
          if FullMatch(items, s) {
            assert forall i :: 0 <= i < 8 ==> InClass(tail[i], items[3].ranges);
            assert tail[8..] == [];
            forall i | 3 <= i < 11 ensures IsAsciiDigit(s[i]) {
              assert InClass(tail[i - 3], items[3].ranges);
            }
          }
        }
      }
    }
  }

  // ---------- the DTO ----------

  datatype RegisterUserDto = RegisterUserDto(
    fullName: Option<string>,
    email: Option<string>,
    phoneNumber: Option<string>,
    password: Option<string>,
    confirmPassword: Option<string>,
    city: Option<string>,
    street: Option<string>,
    buildingNo: Option<string>,
    apartment: Option<string>)

  datatype Violation =
    | FullNameRequired | FullNameTooLong
    | EmailRequired | EmailInvalid
    | PhoneNumberRequired | PhoneNumberFormat
    | PasswordRequired | PasswordLength
    | ConfirmPasswordRequired | ConfirmPasswordMismatch

  /** The attributes in declaration order, each named by the violation it reports. */
  const Attributes: seq<Violation> := [
    FullNameRequired, FullNameTooLong, EmailRequired, EmailInvalid,
    PhoneNumberRequired, PhoneNumberFormat, PasswordRequired, PasswordLength,
    ConfirmPasswordRequired, ConfirmPasswordMismatch]

  /** `[RegularExpression(PhonePattern)]` as written: a missing or empty value passes;
      otherwise the match must start at 0 and cover the whole string. */
  function PhoneFormatOkAsWritten(s: Option<string>): (ok: bool)
    ensures ok <==> IsNullOrEmpty(s) || PhoneShape(s.value, "012,5")
  {
    if IsNullOrEmpty(s) then true
    else
      PhonePatternMeaning(s.value);
      FullMatch(PhonePattern, s.value)
  }

  /** The phone rule with the intended class `[0-25]`. */
  function PhoneFormatOk(s: Option<string>): (ok: bool)
    ensures ok <==> IsNullOrEmpty(s) || PhoneShape(s.value, "0125")
  {
    if IsNullOrEmpty(s) then true
    else
      IntendedPhonePatternMeaning(s.value);
      FullMatch(IntendedPhonePattern, s.value)
  }

  /** The rule as written accepts exactly what the intended rule accepts, plus the
      numbers whose third character is a comma. */
  lemma PhoneRuleDiscrepancy(s: Option<string>)
    ensures PhoneFormatOkAsWritten(s) <==>
      PhoneFormatOk(s) || (s.Some? && s.value != [] && PhoneShape(s.value, ","))
  {
  }

  /** Which phone rule validation applies: the one in the source, or the intended one. */
  datatype PhoneRule = AsWritten | Intended

  function PhoneOk(s: Option<string>, rule: PhoneRule): bool {
    match rule
    case AsWritten => PhoneFormatOkAsWritten(s)
    case Intended => PhoneFormatOk(s)
  }

  /** The characters each rule allows third. */
  function ThirdChars(rule: PhoneRule): string {
    match rule
    case AsWritten => "012,5"
    case Intended => "0125"
  }

  /** `[EmailAddress]`, whose rule belongs to the framework and is passed in as `isEmail`:
      a missing value passes. */
  predicate EmailOk(s: Option<string>, isEmail: string -> bool) {
    s.None? || isEmail(s.value)
  }

  /** Whether the attribute behind `v` rejects `dto`. `[Compare("Password")]` compares the
      two values, so two missing values agree. */
  predicate Fails(dto: RegisterUserDto, isEmail: string -> bool, rule: PhoneRule, v: Violation) {
    match v
    case FullNameRequired => !RequiredOk(dto.fullName)
    case FullNameTooLong => !LengthOk(dto.fullName, 0, 100)
    case EmailRequired => !RequiredOk(dto.email)
    case EmailInvalid => !EmailOk(dto.email, isEmail)
    case PhoneNumberRequired => !RequiredOk(dto.phoneNumber)
    case PhoneNumberFormat => !PhoneOk(dto.phoneNumber, rule)
    case PasswordRequired => !RequiredOk(dto.password)
    case PasswordLength => !LengthOk(dto.password, 6, 100)
    case ConfirmPasswordRequired => !RequiredOk(dto.confirmPassword)
    case ConfirmPasswordMismatch => dto.confirmPassword != dto.password
  }

  /** Every attribute appears in the list. */
  lemma Listed(v: Violation)
    ensures v in Attributes
  {
    match v
    case FullNameRequired => assert Attributes[0] == v;
    case FullNameTooLong => assert Attributes[1] == v;
    case EmailRequired => assert Attributes[2] == v;
    case EmailInvalid => assert Attributes[3] == v;
    case PhoneNumberRequired => assert Attributes[4] == v;
    case PhoneNumberFormat => assert Attributes[5] == v;
    case PasswordRequired => assert Attributes[6] == v;
    case PasswordLength => assert Attributes[7] == v;
    case ConfirmPasswordRequired => assert Attributes[8] == v;
    case ConfirmPasswordMismatch => assert Attributes[9] == v;
  }

  /** `Fails` with the request fixed, as the per-attribute test `Collect` takes. */
  function FailsOf(dto: RegisterUserDto, isEmail: string -> bool, rule: PhoneRule): Violation -> bool {
    v => Fails(dto, isEmail, rule, v)
  }

  /** The violations model validation reports, in declaration order: exactly the
      attributes that fail, each once. The source's validator is `rule == AsWritten`. */
  function Violations(dto: RegisterUserDto, isEmail: string -> bool, rule: PhoneRule): (r: seq<Violation>)
    ensures forall v :: v in r <==> Fails(dto, isEmail, rule, v)
    ensures |r| <= |Attributes|
  {
    var r := Collect(FailsOf(dto, isEmail, rule), Attributes);
    CollectMembers(FailsOf(dto, isEmail, rule), Attributes);
    assert forall v :: v in r <==> Fails(dto, isEmail, rule, v) by {
      forall v ensures v in r <==> Fails(dto, isEmail, rule, v) {
        Listed(v);
      }
    }
    r
  }

  predicate IsValid(dto: RegisterUserDto, isEmail: string -> bool, rule: PhoneRule) {
    Violations(dto, isEmail, rule) == []
  }

  /** A registration is valid exactly when no attribute rejects it. */
  lemma ValidWhenNothingFails(dto: RegisterUserDto, isEmail: string -> bool, rule: PhoneRule)
    ensures IsValid(dto, isEmail, rule) <==> forall v :: !Fails(dto, isEmail, rule, v)
  {
    var r := Violations(dto, isEmail, rule);
    if r != [] {
      assert r[0] in r;
    }
  }

  /** Each attribute, named one by one, accepts the registration. */
  predicate EachAttributePasses(dto: RegisterUserDto, isEmail: string -> bool, rule: PhoneRule) {
    && !Fails(dto, isEmail, rule, FullNameRequired) && !Fails(dto, isEmail, rule, FullNameTooLong)
    && !Fails(dto, isEmail, rule, EmailRequired) && !Fails(dto, isEmail, rule, EmailInvalid)
    && !Fails(dto, isEmail, rule, PhoneNumberRequired) && !Fails(dto, isEmail, rule, PhoneNumberFormat)
    && !Fails(dto, isEmail, rule, PasswordRequired) && !Fails(dto, isEmail, rule, PasswordLength)
    && !Fails(dto, isEmail, rule, ConfirmPasswordRequired)
    && !Fails(dto, isEmail, rule, ConfirmPasswordMismatch)
  }

  lemma EachPassesMakesValid(dto: RegisterUserDto, isEmail: string -> bool, rule: PhoneRule)
    requires EachAttributePasses(dto, isEmail, rule)
    ensures IsValid(dto, isEmail, rule)
  {
    forall v ensures !Fails(dto, isEmail, rule, v) {
      match v
      case FullNameRequired =>
      case FullNameTooLong =>
      case EmailRequired =>
      case EmailInvalid =>
      case PhoneNumberRequired =>
      case PhoneNumberFormat =>
      case PasswordRequired =>
      case PasswordLength =>
      case ConfirmPasswordRequired =>
      case ConfirmPasswordMismatch =>
    }
    ValidWhenNothingFails(dto, isEmail, rule);
  }

  lemma ValidWhenEachPasses(dto: RegisterUserDto, isEmail: string -> bool, rule: PhoneRule)
    ensures IsValid(dto, isEmail, rule) <==> EachAttributePasses(dto, isEmail, rule)
  {
    ValidWhenNothingFails(dto, isEmail, rule);
    if EachAttributePasses(dto, isEmail, rule) {
      EachPassesMakesValid(dto, isEmail, rule);
    }
  }

  lemma NamePasses(dto: RegisterUserDto, isEmail: string -> bool, rule: PhoneRule)
    ensures !Fails(dto, isEmail, rule, FullNameRequired) && !Fails(dto, isEmail, rule, FullNameTooLong)
      <==> RequiredOk(dto.fullName) && Utf16Length(dto.fullName.value) <= 100
  {
  }

  lemma EmailPasses(dto: RegisterUserDto, isEmail: string -> bool, rule: PhoneRule)
    ensures !Fails(dto, isEmail, rule, EmailRequired) && !Fails(dto, isEmail, rule, EmailInvalid)
      <==> RequiredOk(dto.email) && isEmail(dto.email.value)
  {
  }

  lemma PhonePasses(dto: RegisterUserDto, isEmail: string -> bool, rule: PhoneRule)
    ensures !Fails(dto, isEmail, rule, PhoneNumberRequired) && !Fails(dto, isEmail, rule, PhoneNumberFormat)
      <==> dto.phoneNumber.Some? && PhoneShape(dto.phoneNumber.value, ThirdChars(rule))
  {
  }

  lemma PasswordPasses(dto: RegisterUserDto, isEmail: string -> bool, rule: PhoneRule)
    ensures && !Fails(dto, isEmail, rule, PasswordRequired) && !Fails(dto, isEmail, rule, PasswordLength)
            && !Fails(dto, isEmail, rule, ConfirmPasswordRequired)
            && !Fails(dto, isEmail, rule, ConfirmPasswordMismatch)
      <==> RequiredOk(dto.password) && 6 <= Utf16Length(dto.password.value) <= 100
           && dto.confirmPassword == dto.password
  {
  }

  lemma EachPassesIff(dto: RegisterUserDto, isEmail: string -> bool, rule: PhoneRule)
    ensures EachAttributePasses(dto, isEmail, rule) <==>
      && RequiredOk(dto.fullName) && Utf16Length(dto.fullName.value) <= 100
      && RequiredOk(dto.email) && isEmail(dto.email.value)
      && dto.phoneNumber.Some? && PhoneShape(dto.phoneNumber.value, ThirdChars(rule))
      && RequiredOk(dto.password) && 6 <= Utf16Length(dto.password.value) <= 100
      && dto.confirmPassword == dto.password
  {
    NamePasses(dto, isEmail, rule);
    EmailPasses(dto, isEmail, rule);
    PhonePasses(dto, isEmail, rule);
    PasswordPasses(dto, isEmail, rule);
  }

  /** What a valid registration is, field by field, under the phone rule as written. */
  lemma ValidIff(dto: RegisterUserDto, isEmail: string -> bool)
    ensures IsValid(dto, isEmail, AsWritten) <==>
      && RequiredOk(dto.fullName) && Utf16Length(dto.fullName.value) <= 100
      && RequiredOk(dto.email) && isEmail(dto.email.value)
      && dto.phoneNumber.Some? && PhoneShape(dto.phoneNumber.value, "012,5")
      && RequiredOk(dto.password) && 6 <= Utf16Length(dto.password.value) <= 100
      && dto.confirmPassword == dto.password
  {
    ValidWhenEachPasses(dto, isEmail, AsWritten);
    EachPassesIff(dto, isEmail, AsWritten);
  }

  /** The same under the intended phone rule. */
  lemma IntendedValidIff(dto: RegisterUserDto, isEmail: string -> bool)
    ensures IsValid(dto, isEmail, Intended) <==>
      && RequiredOk(dto.fullName) && Utf16Length(dto.fullName.value) <= 100
      && RequiredOk(dto.email) && isEmail(dto.email.value)
      && dto.phoneNumber.Some? && PhoneShape(dto.phoneNumber.value, "0125")
      && RequiredOk(dto.password) && 6 <= Utf16Length(dto.password.value) <= 100
      && dto.confirmPassword == dto.password
  {
    ValidWhenEachPasses(dto, isEmail, Intended);
    EachPassesIff(dto, isEmail, Intended);
  }

  /** No attribute reads the address fields. */
  lemma FailsIgnoresAddress(dto: RegisterUserDto, isEmail: string -> bool, rule: PhoneRule,
                            city: Option<string>, street: Option<string>,
                            buildingNo: Option<string>, apartment: Option<string>, v: Violation)
    ensures Fails(dto.(city := city, street := street, buildingNo := buildingNo, apartment := apartment), isEmail, rule, v)
            == Fails(dto, isEmail, rule, v)
  {
  }

  /** The address fields take no part in validation. */
  lemma AddressUnconstrained(dto: RegisterUserDto, isEmail: string -> bool, rule: PhoneRule,
                             city: Option<string>, street: Option<string>,
                             buildingNo: Option<string>, apartment: Option<string>)
    ensures IsValid(dto.(city := city, street := street, buildingNo := buildingNo, apartment := apartment), isEmail, rule)
            == IsValid(dto, isEmail, rule)
  {
    var d := dto.(city := city, street := street, buildingNo := buildingNo, apartment := apartment);
    forall v | v in Attributes
      ensures FailsOf(d, isEmail, rule)(v) == FailsOf(dto, isEmail, rule)(v)
    {
      FailsIgnoresAddress(dto, isEmail, rule, city, street, buildingNo, apartment, v);
    }
    CollectAgrees(FailsOf(d, isEmail, rule), FailsOf(dto, isEmail, rule), Attributes);
  }

  /** The rule as written lets a comma through as the third character. */
  lemma CommaAccepted()
    ensures RequiredOk(Some("01,12345678"))
    ensures PhoneFormatOkAsWritten(Some("01,12345678"))
    ensures !PhoneFormatOk(Some("01,12345678"))
  {
    var s := "01,12345678";
    assert !IsWhiteSpace(s[0]);
    assert PhoneShape(s, "012,5") by {
      assert s[2] == ',';
      forall i | 3 <= i < 11 ensures IsAsciiDigit(s[i]) { }
    }
    assert s[2] !in "0125";
  }

  // ---------- AuthController.Register ----------

  datatype RegisterOutcome =
    | BadRequestModelState
    | BadRequestPasswordsDoNotMatch
    | CallRegisterService

  /** The checks `Register` makes before handing the DTO to the account service: model
      validation, with the phone rule as written, then the password comparison. */
  function Register(dto: RegisterUserDto, isEmail: string -> bool): (r: RegisterOutcome)
    ensures r == BadRequestModelState <==> !IsValid(dto, isEmail, AsWritten)
    ensures r == CallRegisterService ==> dto.password == dto.confirmPassword
  {
    if !IsValid(dto, isEmail, AsWritten) then BadRequestModelState
    else if dto.password != dto.confirmPassword then BadRequestPasswordsDoNotMatch
    else CallRegisterService
  }

  /** The explicit password comparison in `Register` never fires: model validation has
      already rejected every mismatch. */
  lemma RegisterMismatchUnreachable(dto: RegisterUserDto, isEmail: string -> bool)
    ensures Register(dto, isEmail) != BadRequestPasswordsDoNotMatch
    ensures Register(dto, isEmail) == CallRegisterService <==> IsValid(dto, isEmail, AsWritten)
  {
    if dto.password != dto.confirmPassword {
      assert Fails(dto, isEmail, AsWritten, ConfirmPasswordMismatch);
    }
  }

  /** Every registration the intended rule accepts still reaches the account service
      with the phone number "01,12345678", which the intended rule rejects. */
  lemma CommaPhoneRegisters(dto: RegisterUserDto, isEmail: string -> bool)
    requires IsValid(dto, isEmail, Intended)
    ensures Register(dto.(phoneNumber := Some("01,12345678")), isEmail) == CallRegisterService
    ensures !IsValid(dto.(phoneNumber := Some("01,12345678")), isEmail, Intended)
  {
    var d := dto.(phoneNumber := Some("01,12345678"));
    CommaAccepted();
    ValidWhenNothingFails(dto, isEmail, Intended);
    forall v ensures !Fails(d, isEmail, AsWritten, v) {
      match v
      case FullNameRequired =>
      case FullNameTooLong =>
      case EmailRequired =>
      case EmailInvalid =>
      case PhoneNumberRequired =>
      case PhoneNumberFormat =>
      case PasswordRequired =>
      case PasswordLength =>
      case ConfirmPasswordRequired =>
      case ConfirmPasswordMismatch =>
    }
    ValidWhenNothingFails(d, isEmail, AsWritten);
    RegisterMismatchUnreachable(d, isEmail);
    assert Fails(d, isEmail, Intended, PhoneNumberFormat);
    ValidWhenNothingFails(d, isEmail, Intended);
  }
}
