/** The system settings record (Models/SaccoSettings.cs): its defaults, the
    ranges its validation attributes enforce, field-by-field equality and
    cloning. */
module Settings {
  import opened Text
  import opened Calendar

  datatype SaccoSettings = SaccoSettings(
    // General
    saccoName: string,
    registrationNumber: string,
    fiscalYearStart: DateTime,
    fiscalYearEnd: DateTime,
    currency: string,
    timezone: string,
    // Financial
    sharePrice: real,
    dividendRate: real,
    minimumShares: int,
    maximumShares: int,
    interestCalculationMethod: string,
    penaltyRate: real,
    // Loans
    maxLoanAmountMultiple: int,
    loanProcessingFee: real,
    loanInterestRate: real,
    maxLoanRepaymentPeriod: int,
    minGuarantorsRequired: int,
    loanEligibilityPeriod: int,
    // Notifications
    emailNotificationsEnabled: bool,
    smsNotificationsEnabled: bool,
    defaultNotificationEmail: string,
    smsSenderId: string,
    contributionReminderDays: int,
    loanDueReminderDays: int,
    // Security
    passwordExpiryDays: int,
    failedAttemptsBeforeLockout: int,
    sessionTimeoutMinutes: int,
    twoFactorAuthenticationRequired: bool,
    passwordComplexity: string,
    passwordHistoryCount: int)

  /** GetDefaultSettings: the declared initial values; the fiscal year runs
      from 1 January to 31 December of the current year. */
  function GetDefaultSettings(currentYear: int): SaccoSettings {
    SaccoSettings(
      "Our SACCO", "", DateTime(currentYear, 1, 1, 0), DateTime(currentYear, 12, 31, 0), "KES", "Africa/Nairobi",
      100.0, 5.0, 10, 1000, "Reducing Balance", 2.0,
      3, 1.0, 12.0, 24, 2, 6,
      true, true, "admin@sacco.com", "SACCO", 7, 7,
      90, 5, 30, false, "Medium", 5)
  }

  /** MemberwiseClone: a copy holding the same value in every field. */
  function Clone(s: SaccoSettings): SaccoSettings { s }

  // ---------------------------------------------------------------------
  // Equality

  /** The argument of Equals(object): a settings object, some other object,
      or null. */
  datatype Obj = SettingsObj(settings: SaccoSettings) | OtherObj | NullObj

  /** Equals: false for anything but a settings object, else every one of
      the thirty properties compared. */
  predicate SettingsEquals(a: SaccoSettings, obj: Obj) {
    obj.SettingsObj? &&
    var b := obj.settings;
    a.saccoName == b.saccoName && a.registrationNumber == b.registrationNumber &&
    a.fiscalYearStart == b.fiscalYearStart && a.fiscalYearEnd == b.fiscalYearEnd &&
    a.currency == b.currency && a.timezone == b.timezone &&
    a.sharePrice == b.sharePrice && a.dividendRate == b.dividendRate &&
    a.minimumShares == b.minimumShares && a.maximumShares == b.maximumShares &&
    a.interestCalculationMethod == b.interestCalculationMethod && a.penaltyRate == b.penaltyRate &&
    a.maxLoanAmountMultiple == b.maxLoanAmountMultiple && a.loanProcessingFee == b.loanProcessingFee &&
    a.loanInterestRate == b.loanInterestRate && a.maxLoanRepaymentPeriod == b.maxLoanRepaymentPeriod &&
    a.minGuarantorsRequired == b.minGuarantorsRequired && a.loanEligibilityPeriod == b.loanEligibilityPeriod &&
    a.emailNotificationsEnabled == b.emailNotificationsEnabled &&
    a.smsNotificationsEnabled == b.smsNotificationsEnabled &&
    a.defaultNotificationEmail == b.defaultNotificationEmail && a.smsSenderId == b.smsSenderId &&
    a.contributionReminderDays == b.contributionReminderDays &&
    a.loanDueReminderDays == b.loanDueReminderDays &&
    a.passwordExpiryDays == b.passwordExpiryDays &&
    a.failedAttemptsBeforeLockout == b.failedAttemptsBeforeLockout &&
    a.sessionTimeoutMinutes == b.sessionTimeoutMinutes &&
    a.twoFactorAuthenticationRequired == b.twoFactorAuthenticationRequired &&
    a.passwordComplexity == b.passwordComplexity && a.passwordHistoryCount == b.passwordHistoryCount
  }

  /** Equals compares every property, so it holds exactly for equal values
      and never for another kind of object or null. */
  lemma EqualsIsValueEquality(a: SaccoSettings, obj: Obj)
    ensures SettingsEquals(a, obj) <==> obj == SettingsObj(a)
  {
  }

  /** Equals is an equivalence on settings objects. */
  lemma EqualsIsEquivalence(a: SaccoSettings, b: SaccoSettings, c: SaccoSettings)
    ensures SettingsEquals(a, SettingsObj(a))
    ensures SettingsEquals(a, SettingsObj(b)) ==> SettingsEquals(b, SettingsObj(a))
    ensures SettingsEquals(a, SettingsObj(b)) && SettingsEquals(b, SettingsObj(c)) ==> SettingsEquals(a, SettingsObj(c))
  {
    EqualsIsValueEquality(a, SettingsObj(b));
    EqualsIsValueEquality(b, SettingsObj(c));
  }

  /** A clone equals its original, and changing a field of the clone makes
      the two differ. */
  lemma CloneEquals(s: SaccoSettings, price: real)
    ensures SettingsEquals(s, SettingsObj(Clone(s)))
    ensures price != s.sharePrice ==> !SettingsEquals(s, SettingsObj(Clone(s).(sharePrice := price)))
  {
  }

  // ---------------------------------------------------------------------
  // Validation

  /** Convert.ToInt32 on a decimal: the nearest whole number, halves going
      to the even neighbour. */
  function RoundHalfEven(v: real): (r: int)
    ensures v - 0.5 <= r as real <= v + 0.5
    ensures v - 0.5 < r as real < v + 0.5 || r % 2 == 0
  {
    var f := v.Floor;
    var frac := v - f as real;
    if frac < 0.5 then f
    else if frac > 0.5 then f + 1
    else if f % 2 == 0 then f else f + 1
  }

  /** [Range(lo, hi)] with whole-number bounds on a decimal property, as the
      attribute evaluates it: the value is first converted to an int. */
  predicate InIntRangeAsWritten(v: real, lo: int, hi: int) {
    lo <= RoundHalfEven(v) <= hi
  }

  /** The range the attribute's message states: lo <= v <= hi. */
  predicate InRange(v: real, lo: int, hi: int) {
    lo as real <= v <= hi as real
  }

  /** string.IndexOf(c), -1 when absent. */
  function IndexOf(s: string, c: char): (i: int)
    ensures -1 <= i < |s|
    ensures i >= 0 ==> s[i] == c && forall k :: 0 <= k < i ==> s[k] != c
    ensures i == -1 ==> forall k :: 0 <= k < |s| ==> s[k] != c
  {
    if s == [] then -1
    else if s[0] == c then 0
    else var j := IndexOf(s[1..], c); if j == -1 then -1 else j + 1
  }

  /** string.LastIndexOf(c), -1 when absent. */
  function LastIndexOf(s: string, c: char): (i: int)
    ensures -1 <= i < |s|
    ensures i >= 0 ==> s[i] == c && forall k :: i < k < |s| ==> s[k] != c
    ensures i == -1 ==> forall k :: 0 <= k < |s| ==> s[k] != c
  {
    if s == [] then -1
    else if s[|s| - 1] == c then |s| - 1
    else LastIndexOf(s[..|s| - 1], c)
  }

  /** [EmailAddress]: one '@', neither first nor last. */
  predicate EmailAddressValid(s: string) {
    var at := IndexOf(s, '@');
    at > 0 && at != |s| - 1 && at == LastIndexOf(s, '@')
  }

  /** The attribute's test means: some position holds the only '@', and it
      is neither the first nor the last character. */
  lemma EmailAddressMeaning(s: string)
    ensures EmailAddressValid(s) <==>
      exists at :: 0 < at < |s| - 1 && s[at] == '@' && forall k :: 0 <= k < |s| && k != at ==> s[k] != '@'
  {
    if exists at :: 0 < at < |s| - 1 && s[at] == '@' && forall k :: 0 <= k < |s| && k != at ==> s[k] != '@' {
      var at :| 0 < at < |s| - 1 && s[at] == '@' && forall k :: 0 <= k < |s| && k != at ==> s[k] != '@';
      var i, j := IndexOf(s, '@'), LastIndexOf(s, '@');
      assert i == at && j == at;
    }
  }

  /** [Required] on a string: present and not blank. */
  predicate RequiredText(s: string) { !IsBlank(s) }

  /** The attributes other than the five ranges on decimal properties. */
  predicate OtherAttributesValid(s: SaccoSettings) {
    RequiredText(s.saccoName) && RequiredText(s.registrationNumber) &&
    RequiredText(s.currency) && RequiredText(s.timezone) &&
    RequiredText(s.interestCalculationMethod) && RequiredText(s.passwordComplexity) &&
    1 <= s.minimumShares <= 1000 && 1 <= s.maximumShares <= 100000 &&
    1 <= s.maxLoanAmountMultiple <= 10 && 1 <= s.maxLoanRepaymentPeriod <= 60 &&
    1 <= s.minGuarantorsRequired <= 5 && 1 <= s.loanEligibilityPeriod <= 24 &&
    EmailAddressValid(s.defaultNotificationEmail) &&
    0 <= s.contributionReminderDays <= 30 && 0 <= s.loanDueReminderDays <= 30 &&
    30 <= s.passwordExpiryDays <= 365 && 1 <= s.failedAttemptsBeforeLockout <= 10 &&
    5 <= s.sessionTimeoutMinutes <= 1440 && 0 <= s.passwordHistoryCount <= 24
  }

  /** The validation attributes, the decimal ranges as their messages state
      them. */
  predicate SettingsValid(s: SaccoSettings) {
    OtherAttributesValid(s) &&
    InRange(s.sharePrice, 10, 10000) && InRange(s.dividendRate, 0, 100) &&
    InRange(s.penaltyRate, 0, 100) && InRange(s.loanProcessingFee, 0, 10) &&
    InRange(s.loanInterestRate, 1, 30)
  }

  /** The same attributes with the decimal ranges as the attribute evaluates
      them, after rounding to an int. */
  predicate SettingsValidAsWritten(s: SaccoSettings) {
    OtherAttributesValid(s) &&
    InIntRangeAsWritten(s.sharePrice, 10, 10000) && InIntRangeAsWritten(s.dividendRate, 0, 100) &&
    InIntRangeAsWritten(s.penaltyRate, 0, 100) && InIntRangeAsWritten(s.loanProcessingFee, 0, 10) &&
    InIntRangeAsWritten(s.loanInterestRate, 1, 30)
  }

  /** Rounding first lets through values up to half a unit outside the
      stated range: a share price of 9.5 is accepted. */
  lemma HalfUnitOutsideAccepted(year: int)
    ensures var s := GetDefaultSettings(year).(registrationNumber := "R1", sharePrice := 9.5);
      SettingsValidAsWritten(s) && !SettingsValid(s)
  {
    var d := GetDefaultSettings(year).(registrationNumber := "R1");
    assert !IsWhiteSpace("R1"[0]);
    DefaultsNeedRegistrationNumber(year, "R1");
    var s := d.(sharePrice := 9.5);
    assert OtherAttributesValid(s) by {
      assert OtherAttributesValid(d);
    }
    assert RoundHalfEven(9.5) == 10;
  }

  /** The two readings agree on every value inside the stated range; the
      rounding only widens the range. */
  lemma StatedRangeImpliesAsWritten(s: SaccoSettings)
    requires SettingsValid(s)
    ensures SettingsValidAsWritten(s)
  {
  }

  /** A local part and a domain without '@', both non-empty, joined by one
      '@' pass the check. */
  lemma EmailOfParts(local: string, domain: string)
    requires |local| > 0 && |domain| > 0 && '@' !in local && '@' !in domain
    ensures EmailAddressValid(local + "@" + domain)
  {
    var s := local + "@" + domain;
    var at := |local|;
    forall k | 0 <= k < |s| && k != at ensures s[k] != '@' {
      if k < at {
        assert s[k] == local[k];
      } else {
        assert s[k] == domain[k - at - 1];
      }
    }
    assert 0 < at < |s| - 1 && s[at] == '@';
    EmailAddressMeaning(s);
  }

  lemma DefaultEmailValid()
    ensures EmailAddressValid("admin@sacco.com")
  {
    assert "admin@sacco.com" == "admin" + "@" + "sacco.com";
    EmailOfParts("admin", "sacco.com");
  }

  /** The default texts are present and not blank. */
  lemma DefaultTextsPresent(year: int)
    ensures var d := GetDefaultSettings(year);
      RequiredText(d.saccoName) && RequiredText(d.currency) && RequiredText(d.timezone) &&
      RequiredText(d.interestCalculationMethod) && RequiredText(d.passwordComplexity)
  {
    assert !IsWhiteSpace("Our SACCO"[0]);
    assert !IsWhiteSpace("KES"[0]);
    assert !IsWhiteSpace("Africa/Nairobi"[0]);
    assert !IsWhiteSpace("Reducing Balance"[0]);
    assert !IsWhiteSpace("Medium"[0]);
  }

  /** The defaults satisfy every range and the e-mail check, but not
      [Required] on the registration number, which defaults to "": a
      default record is refused until a number is entered. */
  lemma DefaultsNeedRegistrationNumber(year: int, number: string)
    ensures !SettingsValid(GetDefaultSettings(year))
    ensures RequiredText(number) ==> SettingsValid(GetDefaultSettings(year).(registrationNumber := number))
  {
    DefaultEmailValid();
    DefaultTextsPresent(year);
  }

  /** No attribute relates two fields: minimum shares above maximum shares
      and a fiscal year that ends before it starts are both accepted. */
  lemma NoCrossFieldCheck(year: int)
    ensures var s := GetDefaultSettings(year).(registrationNumber := "R1", minimumShares := 1000,
                                               maximumShares := 1, fiscalYearEnd := DateTime(year - 1, 1, 1, 0));
      SettingsValid(s) && s.minimumShares > s.maximumShares && !NotAfter(s.fiscalYearStart, s.fiscalYearEnd)
  {
    DefaultsNeedRegistrationNumber(year, "R1");
    assert !IsWhiteSpace("R1"[0]);
  }
}
