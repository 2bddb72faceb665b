# Qpay payment gateway for WooCommerce — a verified model

This project models the core of the Qpay (Qatar debit card) payment gateway plugin for
WooCommerce:

- **The settings checks.** `needs_setup`, `check_requirements`, `is_available` and the admin
  messages of `get_error_message`.
- **The outbound payment request.** `generateQpayRequest` builds it: the twelve posted form
  fields, and the SHA-256 signature over the merchant key and eleven field values. The
  result goes through the `woocommerce_gateway_qpay_payment_data_map` filter before it is
  stored.
- **The inbound Instant Transaction Notification (ITN).** This covers:
  - the parameter string that is recomputed and hashed (`_generate_parameter_string`);
  - the hash comparison (`validate_hash`);
  - the source-address allow-list (`is_valid_ip`);
  - the ordered checks of `handle_itn_request` and the choice between its complete and
    failed handlers;
  - what those two handlers do to the order and to the transient store;
  - the notice method `display_failed_qpay_error_notice`.
- **The privacy handler.** `get_qpay_orders` (the paged query), `order_data_exporter`,
  `order_data_eraser` and `maybe_handle_order`, which together export and erase the
  stored Qpay token.

The model follows the PHP closely:

- A PHP `null` in a string context reads as `''`.
- "Falsy" means `''` or `'0'`.
- `(int)` and `absint` read a string as PHP 7.1 and later do. After whitespace and a sign
  come integer digits, an optional fraction and an optional exponent, and the value is
  truncated toward zero. The model computes this exactly for integers in the 64-bit range.
  It also does so for fraction or exponent forms of at most 15 significant digits whose
  value is below 2^53, where the double-precision reading cannot cross an integer. Other
  conversions through a double are a runtime parameter.
- `number_format` is written out on digit strings of minor units.
- A missing POST field is absent from the payload's map.
- SHA-256, DNS resolution and `rest_is_ip_address` are parameters of the operations that
  use them. So is the filter applied to the request map.
- The PHP version matters for the net amount. PHP 8 throws on dividing a non-numeric
  string; PHP 7.4, the plugin's declared minimum, divides it as 0. The version is a
  parameter (`Decimal.Runtime`).
- The WooCommerce order and the WordPress transient store are small classes (`Store.Order`,
  `Store.Transients`) whose methods the handlers call. The order's fields are updated in
  place.

Files:

- `wrappers.dfy`: the `Option` type.
- `text.dfy`: the PHP string functions the core uses.
- `decimal.dfy`: decimal strings, the `(int)` cast and `absint`, and `number_format` for
  amounts in minor units.
- `store.dfy`: the order and the transient store.
- `config.dfy`: settings, requirements and error messages.
- `request.dfy`: the outbound request.
- `itn.dfy`: the notification string, hash, allow-list, verdict, dispatch and net amount.
- `gateway.dfy`: the gateway object and its handlers.
- `privacy.dfy`: the privacy exporter and eraser.

## Model

| member | source | states |
|---|---|---|
| Config.NeedsSetupReportsError | includes/class-wc-gateway-qpay.php:301-304 | when the merchant id, merchant key or bank id is falsy, `check_requirements` reports at least one error |
| Config.SlotsMeaning | includes/class-wc-gateway-qpay.php:325-336 | each of the five slots of the requirements array holds its own key or null; a key is present exactly when its check fails |
| Config.CompactIsSubsequence | includes/class-wc-gateway-qpay.php:338 | `array_filter` keeps the non-null keys in their original order |
| Config.CheckRequirements | includes/class-wc-gateway-qpay.php:323-339 | for each of the five checks, its key is in the result exactly when the check fails (bad currency, missing merchant id, key or bank id, bad credentials); nothing else is in the result; keys come in check order |
| Config.IsAvailable | includes/class-wc-gateway-qpay.php:346-355 | an enabled gateway is available exactly when every requirement holds; a disabled one defers to WooCommerce's own rule |
| Config.AvailableMeansSetUp | includes/class-wc-gateway-qpay.php:346-355 | an enabled, available gateway does not need setup |
| Config.ErrorMessage | includes/class-wc-gateway-qpay.php:960-973 | a non-empty message exactly for the three keys the function matches |
| Config.EmittedKeysWithoutMessage | includes/class-wc-gateway-qpay.php:960-973 | as written, every key `check_requirements` emits, except the missing merchant id, has an empty message |
| Config.IntendedMessagesCover | includes/class-wc-gateway-qpay.php:960-973 | with the keys aligned, the currency, merchant id and merchant key problems are each shown with a message whenever they are reported |
| Text.SpacesToPlus | includes/class-wc-gateway-qpay.php:799 | `str_replace(' ', '+', …)`: same length; each space becomes '+' and every other character is kept |
| Text.AsciiLower | includes/class-wc-gateway-qpay.php:743 | `strtolower`: same length; A-Z are lowered and every other character is kept |
| Text.ContainsAr | includes/class-wc-gateway-qpay.php:410 | `strpos($locale, 'ar') !== false` holds exactly when "ar" occurs at some index |
| Text.Trim | includes/class-wc-gateway-qpay.php:914 | `trim` returns the slice left after removing whitespace from both ends, and its first and last characters are not whitespace |
| Text.FirstSegment | includes/class-wc-gateway-qpay.php:914 | the first piece of `preg_split('/[,:]/', …)`: a prefix without ',' or ':' that stops at the first one |
| Request.Lang | includes/class-wc-gateway-qpay.php:409-410 | the language is "AR" or "EN", and it is "AR" exactly when the locale contains "ar" |
| Request.DataMapNames | includes/class-wc-gateway-qpay.php:429-442 | the request map has the twelve field names in the posted order |
| Request.DataMapValues | includes/class-wc-gateway-qpay.php:426-442 | the values of the first eleven entries, joined, are the signed part of the signing string |
| Request.SignedDataMapShape | includes/class-wc-gateway-qpay.php:426-442 | the signing string is the merchant key followed by the first eleven values in map order, and the last entry is SHA-256 of that string |
| Request.BuiltRequestFields | includes/class-wc-gateway-qpay.php:396-442 | action "0", currency "634", the amount, order id (PUN) and line count in decimal, the bank, merchant, callback URL, order key and date as given, and the language from the locale |
| Gateway.Gateway.GenerateQpayRequest | includes/class-wc-gateway-qpay.php:391-453 | the stored map is the caller's filter applied to the signed map built from the settings and the order |
| Decimal.AbsIntOfDec | includes/class-wc-gateway-qpay.php:604 | `(int)` and `absint` read an id written in decimal back as the same id |
| Decimal.CastOfDecimalPrefix | includes/class-wc-gateway-qpay.php:604 | an id in decimal followed by text that cannot continue a number (such as "12abc") reads as that id |
| Decimal.CastOfExponent | includes/class-wc-gateway-qpay.php:604 | exponent notation `<m>e<k>` reads as m × 10^k (so "1e3" names order 1000) |
| Decimal.CastOfFraction | includes/class-wc-gateway-qpay.php:604 | a decimal fraction `<a>.<f>` is truncated toward zero to a |
| Decimal.FormatMinorUnitsMeaning | includes/class-wc-gateway-qpay.php:692 | `number_format(minor / 100, 2, '.', '')` gives digits, '.', and two decimals, and whole part × 100 + decimals is the amount |
| Decimal.FormatMinorUnitsExample | includes/class-wc-gateway-qpay.php:692 | 10050 is recorded as "100.50", 10000 as "100.00" and 0 as "0.00" |
| Decimal.LeadingNumberCases | includes/class-wc-gateway-qpay.php:692 | a non-empty digit string begins with a number, so PHP divides it; '' and a string starting with an ASCII letter do not, so PHP 8 throws |
| Itn.ConcatFieldsAgree | includes/class-wc-gateway-qpay.php:802 | notifications that agree on the named fields give the same concatenation |
| Itn.ParameterStringDependsOnSigned | includes/class-wc-gateway-qpay.php:793-805 | the parameter string depends only on the fourteen signed fields and the status message; the secure hash and any other field can change without changing it |
| Itn.SecureHashNotSigned | includes/class-wc-gateway-qpay.php:802 | `Response_SecureHash` is not part of the parameter string |
| Itn.ConcatFieldsDetectsChange | includes/class-wc-gateway-qpay.php:802 | notifications that agree on every named field but one, and differ on that one, give different concatenations |
| Itn.ParameterStringDetectsChange | includes/class-wc-gateway-qpay.php:793-805 | with the merchant key set and the status message equal, changing any one of the fourteen signed fields changes the parameter string |
| Itn.StatusMessageNotSigned | includes/class-wc-gateway-qpay.php:802 | `Response_StatusMessage` is not among the fourteen fields signed as they are |
| Itn.StatusMessageSpaceAmbiguity | includes/class-wc-gateway-qpay.php:799-802 | the single-field property fails for `Response_StatusMessage` by construction: "a b" and "a+b" give the same parameter string, because spaces become '+' before signing |
| Itn.SignedNotificationValidates | includes/class-wc-gateway-qpay.php:878-882 | a notification whose hash field is SHA-256 of its own parameter string passes `validate_hash` |
| Itn.ShiftedBoundary | includes/class-wc-gateway-qpay.php:802 | two notifications whose first two fields join to the same text, and whose other fields agree, give the same concatenation |
| Itn.FieldBoundaryAmbiguity | includes/class-wc-gateway-qpay.php:802 | because there are no separators, a notification with a different amount (AcquirerID "1", Amount "23" instead of "12", "3") has the same parameter string, and so the same hash |
| Itn.ResolvedMembers | includes/class-wc-gateway-qpay.php:901-908 | an address is among the resolved addresses exactly when one of the hosts resolves to it |
| Itn.Unique | includes/class-wc-gateway-qpay.php:910 | `array_unique` keeps exactly the same elements and leaves no duplicates |
| Itn.AllowListMembers | includes/class-wc-gateway-qpay.php:892-910 | the allow-list has no duplicates and holds exactly the addresses the two processor hosts resolve to |
| Itn.ForwardedSource | includes/class-wc-gateway-qpay.php:913-916 | when the X-Forwarded-For header is present and truthy and its first piece (cut at ',' or ':', trimmed) is an IP address, the checked address is that piece; in every other case it is the connection's own address. A forwarded address contains no ',' or ':' |
| Itn.IsValidIp | includes/class-wc-gateway-qpay.php:892-931 | the result is true exactly when the checked address is one the processor hosts resolve to |
| Itn.Verdict | includes/class-wc-gateway-qpay.php:609-637 | bad access exactly when the payload is missing; invalid signature exactly when a present payload's hash does not match; bad source exactly when the hash matches, test mode is off, a remote address is known and the checked address is not allowed |
| Gateway.Gateway.CheckItn | includes/class-wc-gateway-qpay.php:609-637 | the `$qpay_error` sequence of checks ends in the verdict above |
| Itn.StatusPath | includes/class-wc-gateway-qpay.php:639-640 | the complete handler is chosen exactly when the status is "0000"; a missing status or payload fails |
| Itn.ForgedNotificationIsDispatched | includes/class-wc-gateway-qpay.php:639-647 | as written, a notification with status "0000" and a wrong hash is judged an invalid signature, yet it still takes the complete path |
| Itn.GatedPath | includes/class-wc-gateway-qpay.php:639-647 | a handler is chosen exactly when the verdict is clean; with a clean verdict the complete handler is chosen exactly for "0000" and the failed handler exactly for any other status |
| Itn.GatedPathRejectsForgery | includes/class-wc-gateway-qpay.php:639-647 | with the gate, a wrong hash reaches no handler. A completed notification carried "0000", had a matching hash and, outside test mode with a known remote address, came from an allowed address |
| Itn.AmountNet | includes/class-wc-gateway-qpay.php:692 | with no amount posted the net amount is ''. A digit string below 10^15 minor units becomes two-decimal text whose value × 100 is the posted amount. A string that does not begin with a number has no net amount on PHP 8 (TypeError) and gives "0.00" on PHP 7; every other string has one |
| Itn.AmountNetOfDec | includes/class-wc-gateway-qpay.php:692 | an amount below 10^15 posted as the decimal digits of n is recorded as n formatted with two decimals, on either PHP version |
| Gateway.Gateway.HandleItnPaymentComplete | includes/class-wc-gateway-qpay.php:689-730 | without an order it stops and changes nothing. Otherwise it adds the note "ITN payment completed". When PHP 8 refuses to divide the amount it aborts there; otherwise it sets `qpay_amount_net` to the net amount, records one `payment_complete` with the posted status and redirects to the order-received page. The handler sets no status itself; WooCommerce's `payment_complete`, which is not modelled, does |
| Gateway.Gateway.HandleItnPaymentFailed | includes/class-wc-gateway-qpay.php:740-779 | without an order it stops and changes nothing. Otherwise it sets the status to failed with the note "Payment <lower-cased status> via ITN.", stores the order id under `failed_qpay_error_notice_<id>` for 120 seconds, leaves the meta alone and redirects to checkout with the order id |
| Gateway.Gateway.HandleItnRequest | includes/class-wc-gateway-qpay.php:587-654 | the order is the one `absint` of the PUN names, with exponent and fraction forms read as PHP reads them, or none (always none for id 0). The verdict of the checks is computed, and then, whatever it is, "0000" runs the complete handler (transients untouched) and any other status runs the failed handler |
| Gateway.Gateway.HandleVerifiedItnRequest | includes/class-wc-gateway-qpay.php:639-647 | corrected dispatch: a notification that fails any check changes neither the order nor the transients. Otherwise the handler is the one the status selects |
| Gateway.ConsumeNotice | includes/class-wc-gateway-qpay.php:981-1000 | a notice is shown exactly when the `order_id` parameter is present and truthy and its transient holds a non-zero value. The notice names the order through `%d`, and the transient is then deleted; otherwise nothing changes |
| Gateway.DisplayFailedQpayErrorNotice | includes/class-wc-gateway-qpay.php:981-1000 | the printed notice and the transients afterwards are those of `ConsumeNotice` |
| Gateway.FailureNoticeShownOnce | includes/class-wc-gateway-qpay.php:774 | after the failed handler's transient for order n, the notice method called with `order_id=n` prints "Payment with Debit Card failed for Order #n. …" once and nothing on a second call |
| Privacy.OrderQuery | includes/class-wc-gateway-qpay-privacy.php:36-52 | the query selects payment method "qpay", 10 orders per page and the given page. It filters by customer id when the address belongs to a user and by billing email otherwise, never both |
| Privacy.OrderDataExporter | includes/class-wc-gateway-qpay-privacy.php:77-107 | one item per order, in order, with the id "order-<id>" and the order's Qpay token ('' when none); done exactly when fewer than 10 orders came back |
| Privacy.ItemIdsIdentifyOrders | includes/class-wc-gateway-qpay-privacy.php:90 | two exported items have the same id exactly when they are for the same order |
| Privacy.MaybeHandleOrder | includes/class-wc-gateway-qpay-privacy.php:152-163 | removed exactly when the order held a truthy token, which is then deleted with one "Qpay Order Data Erased." message; never retained |
| Privacy.EraseTokenMeaning | includes/class-wc-gateway-qpay-privacy.php:152-163 | after erasure no truthy token is left, erasing twice is erasing once, and every other meta entry is unchanged |
| Privacy.OrderDataEraser | includes/class-wc-gateway-qpay-privacy.php:117-142 | every order of the page has its token erased. The removal flag and the messages are those of the orders' metadata before the call, in order. Nothing is retained; done exactly when fewer than 10 orders came back |
| Privacy.ItemsRemovedMeaning | includes/class-wc-gateway-qpay-privacy.php:120-128 | the eraser reports a removal exactly when some order of the page held a truthy token |
| Privacy.ErasureMessagesMeaning | includes/class-wc-gateway-qpay-privacy.php:122-130 | every message is "Qpay Order Data Erased.", and there is none exactly when nothing was removed |

## Left out

- Logging, the debug and customer e-mails, `wc_add_notice`, and the HTML of the payment form and of the notice (with its escaping). These are output only; the notice is modelled as the text it prints.
- `exit` after each handler, and the HTTP 200 response of `check_itn_response`. Transport and process control are not modelled.
- `sanitize_text_field`, `wc_clean`, `stripslashes_deep` and `wp_unslash` are taken as the identity on the values the model handles.
- The hook at includes/class-wc-gateway-qpay.php:177 registers the notice through a global function name that does not exist. The notice method is modelled as a method, not through that hook.
- Transient expiry: the 120-second lifetime is recorded, but time is not modelled.
- An ITN whose PUN names no order makes `wc_get_order` return false, and the handler's first call on it is a PHP fatal error. The model gives that run the outcome `NoOrder` and changes nothing; the log line written before the fatal error is not modelled.
- Decimal.CastToInt: a conversion through a double outside the exact range (more than 15 significant digits, a value of 2^53 or more, or an integer beyond 64 bits) is the runtime parameter `floatToInt`, because the model has no floating point. `absint` of PHP_INT_MIN is a float in PHP; the model gives the integer 2^63, which is no order id.
- Itn.AmountNet: the PHP version is a parameter. Only digit strings below 10^15 minor units are formatted by the model, where the double-precision quotient is exact to two decimals. Other numeric forms come from a runtime parameter, because the model has no floating point: signs, whitespace, decimals, exponents, leading-numeric strings such as "100abc", and larger amounts.
- Request.BuiltRequestFields: the order total is taken already in minor units. The float product `total * 100` and its integer cast are not modelled.
- `$qpay_done` is always false in the source, and `$qpay_error_message` is set but never read. The model keeps only the verdict.
- WooCommerce's own work inside `payment_complete` (status change, stock, e-mails) is outside the plugin. The model records each call with its transaction id.
- `amounts_equal`, the settings form, the Blocks integration and the plugin bootstrap are not part of this model.
- The `PF_ERR_*` message constants are defined only outside the admin screens. They are modelled as the `ItnError` cases.
- `$items_removed |= $removed` gives PHP an int 0/1. The model keeps the flag as a bool with the same truth value.
- Privacy.OrderDataEraser: requires each order object to appear once on the page (`Distinct`). A page returning the same object twice is not modelled.
- The orders returned by `wc_get_orders`, the user lookup of `get_user_by`, and the `(int)` cast of the page are parameters of the privacy operations.
- The `woocommerce_gateway_qpay_is_valid_ip` filter is taken as the identity. The request-map filter is a parameter.
- SHA-256, DNS (`gethostbynamel`; a failed lookup is a missing host) and `rest_is_ip_address` are parameters. Their behaviour is not modelled.

## Findings

| source | as written | input that shows it | evidently intended | confidence | as-written member | corrected member |
|---|---|---|---|---|---|---|
| includes/class-wc-gateway-qpay.php:639-647 | the handler runs whatever `$qpay_error` says: the checks set it, but nothing reads it before dispatch | a POST with `Response_Status` "0000" and a `Response_SecureHash` that does not match: the verdict is invalid signature, and the order is still marked paid | a notification that fails any check reaches no handler | high (not executed) | Itn.ForgedNotificationIsDispatched, Gateway.Gateway.HandleItnRequest | Itn.GatedPathRejectsForgery, Gateway.Gateway.HandleVerifiedItnRequest |
| includes/class-wc-gateway-qpay.php:327-331, 960-973 | `check_requirements` emits `…-error-bad-currency` and `…-error-missing-merchant-key`, but `get_error_message` matches `…-error-invalid-currency` and `…-error-missing-secret-key` | a store currency other than QAR: the error key is reported, but its message is '' | the keys of both functions agree, so the currency and merchant-key messages are shown | high (not executed) | Config.EmittedKeysWithoutMessage | Config.IntendedMessagesCover, Config.IntendedErrorMessage |
