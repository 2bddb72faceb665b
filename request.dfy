/**
 * The outbound payment request of `generateQpayRequest`: the twelve fields
 * posted to the Qpay gateway and the string whose SHA-256 digest is the
 * `SecureHash` field.
 */
module Request {
  import opened Text
  import opened Decimal

  /** One checkout attempt's request, before signing. */
  datatype PaymentRequest = PaymentRequest(
    action: string,
    amount: int,          // minor currency units
    bankId: string,
    currencyCode: string,
    extraFields: string,  // the merchant's callback URL
    lang: string,
    merchantId: string,
    sessionId: string,    // the order key
    pun: nat,             // the order id
    quantity: nat,        // the number of order lines
    requestDate: string)  // date('dmYHis')

  /** A posted form field: name and value. */
  type FormField = (string, string)

  /** The fixed "purchase" transaction type. */
  const PurchaseAction := "0"
  /** ISO 4217 numeric code of the Qatari riyal. */
  const QarCurrencyCode := "634"

  /** The field names of the request, in the order they are posted. */
  const FieldNames: seq<string> := [
    "Action", "Amount", "BankID", "CurrencyCode", "ExtraFields_f14", "Lang",
    "MerchantID", "MerchantModuleSessionID", "PUN", "Quantity", "TransactionRequestDate", "SecureHash"]

  /** "AR" when the locale contains "ar", otherwise "EN". */
  function Lang(locale: string): (r: string)
    ensures r == "AR" || r == "EN"
    ensures r == "AR" <==> exists i :: 0 <= i < |locale| - 1 && locale[i] == 'a' && locale[i + 1] == 'r'
  {
    if ContainsAr(locale) then "AR" else "EN"
  }

  /** The request `generateQpayRequest` assembles for an order. */
  function BuildRequest(merchantId: string, bankId: string, callbackUrl: string, orderId: nat, orderKey: string,
                        totalMinor: int, itemCount: nat, locale: string, requestDate: string): PaymentRequest
  {
    PaymentRequest(PurchaseAction, totalMinor, bankId, QarCurrencyCode, callbackUrl, Lang(locale),
                   merchantId, orderKey, orderId, itemCount, requestDate)
  }

  /** The signing string: the merchant key and eleven values, with no separators. */
  function SigningString(merchantKey: string, r: PaymentRequest): string {
    merchantKey + SignedPart(r)
  }

  /** The eleven signed values in protocol order. */
  function SignedPart(r: PaymentRequest): string {
    r.action + IntDec(r.amount) + r.bankId + r.currencyCode + r.extraFields + r.lang
      + r.merchantId + r.sessionId + Dec(r.pun) + Dec(r.quantity) + r.requestDate
  }

  /** The field map, with `secureHash` as its last entry. */
  function DataMap(r: PaymentRequest, secureHash: string): seq<FormField> {
    [ ("Action", r.action),
      ("Amount", IntDec(r.amount)),
      ("BankID", r.bankId),
      ("CurrencyCode", r.currencyCode),
      ("ExtraFields_f14", r.extraFields),
      ("Lang", r.lang),
      ("MerchantID", r.merchantId),
      ("MerchantModuleSessionID", r.sessionId),
      ("PUN", Dec(r.pun)),
      ("Quantity", Dec(r.quantity)),
      ("TransactionRequestDate", r.requestDate),
      ("SecureHash", secureHash) ]
  }

  /** The field map as `generateQpayRequest` fills it: signed with SHA-256 of the signing string. */
  function SignedDataMap(merchantKey: string, r: PaymentRequest, sha256: string -> string): seq<FormField> {
    DataMap(r, sha256(SigningString(merchantKey, r)))
  }

  function Names(fields: seq<FormField>): seq<string> {
    seq(|fields|, i requires 0 <= i < |fields| => fields[i].0)
  }

  /** The values of the fields, concatenated in order. */
  function ConcatValues(fields: seq<FormField>): string {
    if fields == [] then "" else ConcatValues(fields[..|fields| - 1]) + fields[|fields| - 1].1
  }

  /** Unfolding `ConcatValues` one entry from the back. */
  lemma Unfold(m: seq<FormField>, k: nat)
    requires 0 < k <= |m|
    ensures ConcatValues(m[..k]) == ConcatValues(m[..k - 1]) + m[k - 1].1
  {
    assert m[..k][..k - 1] == m[..k - 1];
  }

  /** The map lists the twelve field names in the posted order. */
  lemma DataMapNames(r: PaymentRequest, secureHash: string)
    ensures Names(DataMap(r, secureHash)) == FieldNames
  {
    var m := DataMap(r, secureHash);
    assert |Names(m)| == |FieldNames|;
    forall i | 0 <= i < 12
      ensures Names(m)[i] == FieldNames[i]
    {
    }
  }

  /** The values of the first eleven entries, concatenated, are the signed part of the signing string. */
  lemma DataMapValues(r: PaymentRequest, secureHash: string)
    ensures ConcatValues(DataMap(r, secureHash)[..11]) == SignedPart(r)
  {
    var m := DataMap(r, secureHash);
    assert m[..0] == [];
    Unfold(m, 1);
    assert ConcatValues(m[..1]) == r.action;
    Unfold(m, 2);
    assert ConcatValues(m[..2]) == r.action + IntDec(r.amount);
    Unfold(m, 3); Unfold(m, 4); Unfold(m, 5); Unfold(m, 6);
    Unfold(m, 7); Unfold(m, 8); Unfold(m, 9); Unfold(m, 10); Unfold(m, 11);
  }

  /**
   * The signed map has the twelve names in the posted order; the signing
   * string is the merchant key followed by the values of the first eleven
   * entries in map order, and the last entry is SHA-256 of that string.
   */
  lemma SignedDataMapShape(merchantKey: string, r: PaymentRequest, sha256: string -> string)
    ensures var m := SignedDataMap(merchantKey, r, sha256);
      && |m| == 12
      && Names(m) == FieldNames
      && SigningString(merchantKey, r) == merchantKey + ConcatValues(m[..11])
      && m[11] == ("SecureHash", sha256(merchantKey + ConcatValues(m[..11])))
  {
    var m := SignedDataMap(merchantKey, r, sha256);
    DataMapNames(r, m[11].1);
    DataMapValues(r, m[11].1);
  }

  /**
   * For a built request: the fixed action "0", currency "634", the amount,
   * order id and line count written in decimal, and the language chosen
   * from the locale.
   */
  lemma BuiltRequestFields(merchantId: string, bankId: string, callbackUrl: string, orderId: nat, orderKey: string,
                           totalMinor: int, itemCount: nat, locale: string, requestDate: string,
                           merchantKey: string, sha256: string -> string)
    ensures var m := SignedDataMap(merchantKey, BuildRequest(merchantId, bankId, callbackUrl, orderId, orderKey,
                                                             totalMinor, itemCount, locale, requestDate), sha256);
      && m[0] == ("Action", "0") && m[1] == ("Amount", IntDec(totalMinor)) && m[2] == ("BankID", bankId)
      && m[3] == ("CurrencyCode", "634") && m[4] == ("ExtraFields_f14", callbackUrl)
      && m[5].1 in {"AR", "EN"}
      && (m[5].1 == "AR" <==> exists i :: 0 <= i < |locale| - 1 && locale[i] == 'a' && locale[i + 1] == 'r')
      && m[6] == ("MerchantID", merchantId) && m[7] == ("MerchantModuleSessionID", orderKey)
      && m[8] == ("PUN", Dec(orderId)) && m[9] == ("Quantity", Dec(itemCount))
      && m[10] == ("TransactionRequestDate", requestDate)
  {
  }
}
