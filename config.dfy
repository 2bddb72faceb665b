/**
 * The gateway's settings and the rules that decide whether it can be
 * offered at checkout: `needs_setup`, `check_requirements`, `is_available`
 * and the admin error messages of `get_error_message`.
 */
module Config {
  import opened Wrappers
  import opened Text

  /** The options the gateway loads in its constructor. */
  datatype Settings = Settings(
    enabled: bool,               // 'yes' === get_option('enabled')
    testmode: string,            // get_option('testmode'), compared with 'yes'
    merchantId: string,
    merchantKey: Option<string>, // None when the option is null (isset fails)
    bankId: string,
    callbackUrl: string,         // extraFields_f14: the home URL with wc-api=WC_Gateway_Qpay
    currencyCodes: seq<string>)  // the supported currencies, ['QAR'] unless filtered

  /** A PHP null in a string context reads as ''. */
  function KeyText(key: Option<string>): string {
    if key.Some? then key.value else ""
  }

  const BadCurrencyKey := "wc-gateway-qpay-error-bad-currency"
  const MissingMerchantIdKey := "wc-gateway-qpay-error-missing-merchant-id"
  const MissingMerchantKeyKey := "wc-gateway-qpay-error-missing-merchant-key"
  const MissingBankIdKey := "wc-gateway-qpay-error-missing-bank-id"
  const BadCredentialsKey := "wc-gateway-qpay-error-bad-credentials"

  /** The keys `check_requirements` can emit, in the order it checks them. */
  const RequirementKeys: seq<string> :=
    [BadCurrencyKey, MissingMerchantIdKey, MissingMerchantKeyKey, MissingBankIdKey, BadCredentialsKey]

  /** The keys `get_error_message` has a message for. */
  const InvalidCurrencyKey := "wc-gateway-qpay-error-invalid-currency"
  const MissingSecretKeyKey := "wc-gateway-qpay-error-missing-secret-key"

  const InvalidCurrencyMessage := "Your store uses a currency that Qpay doesn&#039;t support yet."
  const MissingMerchantIdMessage := "You forgot to fill your Merchant ID."
  const MissingMerchantKeyMessage := "You forgot to fill your Merchant key."

  /** `needs_setup`: one of merchant id, merchant key or bank id is falsy. */
  function NeedsSetup(s: Settings): bool {
    Falsy(s.merchantId) || Falsy(KeyText(s.merchantKey)) || Falsy(s.bankId)
  }

  /** The array literal of `check_requirements`: one slot per check, null when it passes. */
  function RequirementSlots(s: Settings, storeCurrency: string, badCredentials: string): seq<Option<string>> {
    [ if storeCurrency !in s.currencyCodes then Some(BadCurrencyKey) else None,
      if Falsy(s.merchantId) then Some(MissingMerchantIdKey) else None,
      if Falsy(KeyText(s.merchantKey)) then Some(MissingMerchantKeyKey) else None,
      if Falsy(s.bankId) then Some(MissingBankIdKey) else None,
      if badCredentials == "yes" then Some(BadCredentialsKey) else None ]
  }

  /** `array_filter` on the slots: the non-null entries, in order. */
  function Compact(slots: seq<Option<string>>): (r: seq<string>)
    ensures |r| <= |slots|
    ensures forall x :: x in r <==> Some(x) in slots
  {
    if slots == [] then []
    else if slots[0].Some? then [slots[0].value] + Compact(slots[1..])
    else Compact(slots[1..])
  }

  /** `a` is `b` with some elements left out, the rest in the same order. */
  predicate IsSubsequence(a: seq<string>, b: seq<string>) {
    a == [] || (b != [] && ((a[0] == b[0] && IsSubsequence(a[1..], b[1..])) || IsSubsequence(a, b[1..])))
  }

  lemma {:induction false} CompactIsSubsequence(slots: seq<Option<string>>, keys: seq<string>)
    requires |slots| == |keys|
    requires forall i :: 0 <= i < |slots| ==> slots[i] == None || slots[i] == Some(keys[i])
    ensures IsSubsequence(Compact(slots), keys)
  {
    if slots != [] {
      CompactIsSubsequence(slots[1..], keys[1..]);
    }
  }

  /** The five requirement keys are pairwise distinct. */
  lemma RequirementKeysDistinct()
    ensures forall i, j :: 0 <= i < j < |RequirementKeys| ==> RequirementKeys[i] != RequirementKeys[j]
  {
    assert MissingBankIdKey[22] != BadCredentialsKey[22];
  }

  /** Slot `i` holds the `i`-th requirement key or nothing. */
  predicate SlotsShaped(slots: seq<Option<string>>) {
    |slots| == |RequirementKeys| && forall i :: 0 <= i < |slots| ==> slots[i] == None || slots[i] == Some(RequirementKeys[i])
  }

  /** In well-shaped slots, a key is present exactly when its own slot holds it. */
  lemma SlotMembership(slots: seq<Option<string>>, k: nat)
    requires SlotsShaped(slots) && k < |RequirementKeys|
    ensures Some(RequirementKeys[k]) in slots <==> slots[k] == Some(RequirementKeys[k])
  {
    RequirementKeysDistinct();
    if Some(RequirementKeys[k]) in slots {
      var j :| 0 <= j < |slots| && slots[j] == Some(RequirementKeys[k]);
    }
  }

  /** Which key each slot can hold, and when it holds it. */
  lemma SlotsMeaning(s: Settings, storeCurrency: string, badCredentials: string)
    ensures var slots := RequirementSlots(s, storeCurrency, badCredentials);
      && SlotsShaped(slots)
      && (Some(BadCurrencyKey) in slots <==> storeCurrency !in s.currencyCodes)
      && (Some(MissingMerchantIdKey) in slots <==> Falsy(s.merchantId))
      && (Some(MissingMerchantKeyKey) in slots <==> Falsy(KeyText(s.merchantKey)))
      && (Some(MissingBankIdKey) in slots <==> Falsy(s.bankId))
      && (Some(BadCredentialsKey) in slots <==> badCredentials == "yes")
      && (forall x :: Some(x) in slots ==> x in RequirementKeys)
  {
    var slots := RequirementSlots(s, storeCurrency, badCredentials);
    assert SlotsShaped(slots);
    SlotMembership(slots, 0);
    SlotMembership(slots, 1);
    SlotMembership(slots, 2);
    SlotMembership(slots, 3);
    SlotMembership(slots, 4);
  }

  /**
   * `check_requirements`: the error key of every failing check and no other,
   * in the fixed order of the checks.
   */
  function CheckRequirements(s: Settings, storeCurrency: string, badCredentials: string): (errors: seq<string>)
    ensures BadCurrencyKey in errors <==> storeCurrency !in s.currencyCodes
    ensures MissingMerchantIdKey in errors <==> Falsy(s.merchantId)
    ensures MissingMerchantKeyKey in errors <==> Falsy(KeyText(s.merchantKey))
    ensures MissingBankIdKey in errors <==> Falsy(s.bankId)
    ensures BadCredentialsKey in errors <==> badCredentials == "yes"
    ensures forall e :: e in errors ==> e in RequirementKeys
    ensures IsSubsequence(errors, RequirementKeys)
  {
    var slots := RequirementSlots(s, storeCurrency, badCredentials);
    SlotsMeaning(s, storeCurrency, badCredentials);
    CompactIsSubsequence(slots, RequirementKeys);
    Compact(slots)
  }

  /**
   * `is_available`: when enabled, exactly when every requirement holds; when
   * disabled, whatever WooCommerce's own rule (`parentAvailable`) says.
   */
  function IsAvailable(s: Settings, storeCurrency: string, badCredentials: string, parentAvailable: bool): (r: bool)
    ensures s.enabled ==> (r <==> && storeCurrency in s.currencyCodes
                                  && !Falsy(s.merchantId) && !Falsy(KeyText(s.merchantKey)) && !Falsy(s.bankId)
                                  && badCredentials != "yes")
    ensures !s.enabled ==> r == parentAvailable
  {
    if s.enabled then
      var errors := CheckRequirements(s, storeCurrency, badCredentials);
      assert errors != [] ==> errors[0] in errors;
      |errors| == 0
    else parentAvailable
  }

  /** An enabled gateway that is available is fully set up. */
  lemma AvailableMeansSetUp(s: Settings, storeCurrency: string, badCredentials: string, parentAvailable: bool)
    requires s.enabled && IsAvailable(s, storeCurrency, badCredentials, parentAvailable)
    ensures !NeedsSetup(s)
  {
  }

  /** A gateway that still needs setup reports at least one requirement error. */
  lemma NeedsSetupReportsError(s: Settings, storeCurrency: string, badCredentials: string)
    requires NeedsSetup(s)
    ensures |CheckRequirements(s, storeCurrency, badCredentials)| > 0
  {
  }

  /** `get_error_message`: a message for three keys, '' for any other. */
  function ErrorMessage(key: string): (m: string)
    ensures m != "" <==> key in {InvalidCurrencyKey, MissingMerchantIdKey, MissingSecretKeyKey}
  {
    if key == InvalidCurrencyKey then InvalidCurrencyMessage
    else if key == MissingMerchantIdKey then MissingMerchantIdMessage
    else if key == MissingSecretKeyKey then MissingMerchantKeyMessage
    else ""
  }

  /**
   * As written, every key `check_requirements` emits other than the missing
   * merchant id has no message: the currency and merchant key checks emit
   * names that differ from the ones `get_error_message` matches.
   */
  lemma EmittedKeysWithoutMessage(s: Settings, storeCurrency: string, badCredentials: string)
    ensures forall e :: e in CheckRequirements(s, storeCurrency, badCredentials) && e != MissingMerchantIdKey
                        ==> ErrorMessage(e) == ""
  {
  }

  /** `get_error_message` with the keys `check_requirements` actually emits. */
  function IntendedErrorMessage(key: string): (m: string)
    ensures key == BadCurrencyKey ==> m == InvalidCurrencyMessage
    ensures key == MissingMerchantKeyKey ==> m == MissingMerchantKeyMessage
  {
    if key == BadCurrencyKey then InvalidCurrencyMessage
    else if key == MissingMerchantIdKey then MissingMerchantIdMessage
    else if key == MissingMerchantKeyKey then MissingMerchantKeyMessage
    else ""
  }

  /**
   * With the keys aligned, each of the three problems the messages describe
   * is shown with its message whenever `check_requirements` reports it.
   */
  lemma IntendedMessagesCover(s: Settings, storeCurrency: string, badCredentials: string)
    ensures forall e :: e in CheckRequirements(s, storeCurrency, badCredentials)
                        && e in {BadCurrencyKey, MissingMerchantIdKey, MissingMerchantKeyKey}
                        ==> IntendedErrorMessage(e) != ""
    ensures storeCurrency !in s.currencyCodes ==> IntendedErrorMessage(BadCurrencyKey) == InvalidCurrencyMessage
  {
  }
}
