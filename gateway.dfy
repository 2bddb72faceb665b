/**
 * The gateway object: the request map `generateQpayRequest` stores, the ITN
 * handler with its complete and failed branches, and the notice method
 * `display_failed_qpay_error_notice`.
 */
module Gateway {
  import opened Wrappers
  import opened Text
  import opened Decimal
  import opened Store
  import opened Config
  import opened Request
  import opened Itn

  /** Where a handled notification sends the browser, or the abort of the complete handler. */
  datatype Outcome =
    | RedirectToOrderReceived
    | RedirectToCheckout(orderId: nat)
    | AbortedOnAmount  // PHP 8 refuses to divide a non-numeric amount; nothing after the order note runs
    | NoOrder          // `wc_get_order` found no order: the handler's first call on it is a PHP fatal error
    | Ignored          // the gated handler turned the notification away

  const CompletedNote := "ITN payment completed"
  const AmountNetKey := "qpay_amount_net"
  const FailedStatus := "failed"
  /** The lifetime of the failure notice transient, in seconds. */
  const NoticeLifetime := 120

  /** The order note of the failed handler for a posted status. */
  function FailedNote(status: string): string {
    "Payment " + AsciiLower(status) + " via ITN."
  }

  /** The transient that marks a failed payment for the checkout notice. */
  function NoticeKey(orderId: string): string {
    "failed_qpay_error_notice_" + orderId
  }

  /** The checkout notice for the `order_id` parameter, read through `%d`. */
  function NoticeText(orderIdParam: string, rt: Runtime): string {
    "Payment with Debit Card failed for Order #" + IntDec(CastToInt(orderIdParam, rt))
      + ". Please try again or use a different payment method."
  }

  class Gateway {
    const settings: Settings
    /** The request fields of the last `generateQpayRequest`. */
    var dataMap: seq<FormField>

    constructor (settings: Settings)
      ensures this.settings == settings && dataMap == []
    {
      this.settings := settings;
      dataMap := [];
    }

    /**
     * `generateQpayRequest`: builds and signs the request for `order` and
     * stores it after the caller's `woocommerce_gateway_qpay_payment_data_map`
     * filter, which receives the order id.
     */
    method GenerateQpayRequest(order: Order, locale: string, requestDate: string, sha256: string -> string,
                               dataMapFilter: (seq<FormField>, nat) -> seq<FormField>)
      modifies this
      ensures dataMap == dataMapFilter(
        SignedDataMap(KeyText(settings.merchantKey),
                      BuildRequest(settings.merchantId, settings.bankId, settings.callbackUrl, order.id,
                                   order.orderKey, order.totalMinor, order.itemCount, locale, requestDate),
                      sha256),
        order.id)
    {
      var request := BuildRequest(settings.merchantId, settings.bankId, settings.callbackUrl, order.id,
                                  order.orderKey, order.totalMinor, order.itemCount, locale, requestDate);
      var hash := sha256(SigningString(KeyText(settings.merchantKey), request));
      dataMap := DataMap(request, hash);
      dataMap := dataMapFilter(dataMap, order.id);
    }

    /**
     * `handle_itn_payment_complete`: notes the completion, records the net
     * amount and marks the payment complete with the posted status as its
     * transaction id; on PHP 8 a non-numeric amount aborts after the note.
     * Without an order it stops at its first call on it.
     */
    method HandleItnPaymentComplete(data: Payload, order: Order?, rt: Runtime) returns (outcome: Outcome)
      modifies order
      ensures CompleteApplied(data, order, outcome, rt)
    {
      if order == null {
        return NoOrder;
      }
      order.AddOrderNote(CompletedNote);
      var amountNet := AmountNet(data, rt);
      if amountNet.None? {
        return AbortedOnAmount;
      }
      order.UpdateMetaData(AmountNetKey, amountNet.value);
      order.PaymentComplete(Field(data, StatusField));
      outcome := RedirectToOrderReceived;
    }

    /**
     * `handle_itn_payment_failed`: fails the order with a note naming the
     * lower-cased status, and leaves a two-minute transient holding the
     * order id for the checkout notice. Without an order it stops at its
     * first call on it.
     */
    method HandleItnPaymentFailed(data: Payload, order: Order?, transients: Transients) returns (outcome: Outcome)
      modifies order, transients
      ensures FailedApplied(data, order, transients, outcome)
    {
      if order == null {
        return NoOrder;
      }
      order.UpdateStatus(FailedStatus, FailedNote(Field(data, StatusField)));
      transients.Set(NoticeKey(Dec(order.id)), order.id, NoticeLifetime);
      outcome := RedirectToCheckout(order.id);
    }

    /**
     * The checks of `handle_itn_request`, in order, each run only while no
     * earlier one failed: the payload is present, its hash matches, and,
     * outside test mode and when a remote address is known, the source
     * address is one of the processor's.
     */
    method CheckItn(data: Payload, remoteAddr: Option<string>, forwardedFor: Option<string>,
                    dns: map<string, seq<string>>, isIp: string -> bool, sha256: string -> string)
      returns (verdict: Option<ItnError>)
      ensures verdict == Verdict(settings.merchantKey, data, sha256, settings.testmode, remoteAddr, forwardedFor, dns, isIp)
    {
      var qpayError := false;
      verdict := None;
      if data.Missing? {
        qpayError := true;
        verdict := Some(BadAccess);
      }
      if !qpayError {
        var hash := sha256(ParameterString(settings.merchantKey, data));
        if !ValidateHash(data, hash) {
          qpayError := true;
          verdict := Some(InvalidSignature);
        }
      }
      if !qpayError && settings.testmode != "yes" {
        if remoteAddr.Some? {
          var validIp := IsValidIp(remoteAddr.value, forwardedFor, dns, isIp);
          if !validIp {
            qpayError := true;
            verdict := Some(BadSourceIp);
          }
        }
      }
    }

    /**
     * `handle_itn_request`: runs the checks, then hands the notification to
     * the complete handler when its status is "0000" and to the failed
     * handler otherwise, whatever the checks concluded. The order is the one
     * `wc_get_order` finds for `absint` of the posted PUN, or null when it
     * finds none (always so for id 0).
     */
    method HandleItnRequest(data: Payload, order: Order?, transients: Transients, remoteAddr: Option<string>,
                            forwardedFor: Option<string>, dns: map<string, seq<string>>, isIp: string -> bool,
                            sha256: string -> string, rt: Runtime)
      returns (verdict: Option<ItnError>, outcome: Outcome)
      requires order == null || (order.id > 0 && order.id == AbsInt(Field(data, PunField), rt))
      modifies order, transients
      ensures verdict == Verdict(settings.merchantKey, data, sha256, settings.testmode, remoteAddr, forwardedFor, dns, isIp)
      ensures StatusPath(data) == CompletePath ==>
        CompleteApplied(data, order, outcome, rt) && transients.entries == old(transients.entries)
      ensures StatusPath(data) == FailedPath ==> FailedApplied(data, order, transients, outcome)
    {
      verdict := CheckItn(data, remoteAddr, forwardedFor, dns, isIp, sha256);
      var statusCode := Lookup(data, StatusField);
      if statusCode == Some(SuccessStatus) {
        outcome := HandleItnPaymentComplete(data, order, rt);
      } else {
        outcome := HandleItnPaymentFailed(data, order, transients);
      }
    }

    /**
     * `handle_itn_request` with the dispatch gated on the checks: a
     * notification that fails any check changes nothing.
     */
    method HandleVerifiedItnRequest(data: Payload, order: Order?, transients: Transients, remoteAddr: Option<string>,
                                    forwardedFor: Option<string>, dns: map<string, seq<string>>,
                                    isIp: string -> bool, sha256: string -> string, rt: Runtime)
      returns (verdict: Option<ItnError>, outcome: Outcome)
      requires order == null || (order.id > 0 && order.id == AbsInt(Field(data, PunField), rt))
      modifies order, transients
      ensures verdict == Verdict(settings.merchantKey, data, sha256, settings.testmode, remoteAddr, forwardedFor, dns, isIp)
      ensures verdict.Some? ==> outcome == Ignored && unchanged(transients) && (order != null ==> unchanged(order))
      ensures GatedPath(verdict, data) == Some(CompletePath) ==>
        CompleteApplied(data, order, outcome, rt) && transients.entries == old(transients.entries)
      ensures GatedPath(verdict, data) == Some(FailedPath) ==> FailedApplied(data, order, transients, outcome)
    {
      verdict := CheckItn(data, remoteAddr, forwardedFor, dns, isIp, sha256);
      if verdict.Some? {
        return verdict, Ignored;
      }
      var statusCode := Lookup(data, StatusField);
      if statusCode == Some(SuccessStatus) {
        outcome := HandleItnPaymentComplete(data, order, rt);
      } else {
        outcome := HandleItnPaymentFailed(data, order, transients);
      }
    }
  }

  /**
   * The complete handler's effect: the note, and either the abort on a
   * non-numeric amount or the net amount and the completion; nothing when
   * there is no order.
   */
  twostate predicate CompleteApplied(data: Payload, order: Order?, outcome: Outcome, rt: Runtime)
    reads order
  {
    if order == null then outcome == NoOrder
    else
    && order.notes == old(order.notes) + [CompletedNote] && order.status == old(order.status)
    && (AmountNet(data, rt).None? ==>
          outcome == AbortedOnAmount && order.meta == old(order.meta) && order.completions == old(order.completions))
    && (AmountNet(data, rt).Some? ==>
          && outcome == RedirectToOrderReceived
          && order.meta == old(order.meta)[AmountNetKey := AmountNet(data, rt).value]
          && order.completions == old(order.completions) + [Field(data, StatusField)])
  }

  /** The failed handler's effect: the failed status and note, and the notice transient; nothing when there is no order. */
  twostate predicate FailedApplied(data: Payload, order: Order?, transients: Transients, outcome: Outcome)
    reads order, transients
  {
    if order == null then outcome == NoOrder && transients.entries == old(transients.entries)
    else
    && order.status == FailedStatus && order.notes == old(order.notes) + [FailedNote(Field(data, StatusField))]
    && order.meta == old(order.meta) && order.completions == old(order.completions)
    && transients.entries == old(transients.entries)[NoticeKey(Dec(order.id)) := Transient(order.id, NoticeLifetime)]
    && outcome == RedirectToCheckout(order.id)
  }

  /**
   * What `display_failed_qpay_error_notice` does with the `order_id`
   * parameter and the transients: the notice it prints, if any, and the
   * transients afterwards. It prints when the parameter is present and
   * truthy and its transient holds a truthy value, and then deletes that
   * transient.
   */
  function ConsumeNotice(orderIdParam: Option<string>, entries: map<string, Transient>, rt: Runtime)
    : (r: (Option<string>, map<string, Transient>))
    ensures r.0.Some? <==>
      && orderIdParam.Some? && !Falsy(orderIdParam.value)
      && NoticeKey(orderIdParam.value) in entries && entries[NoticeKey(orderIdParam.value)].value != 0
    ensures r.0.Some? ==>
      r.0.value == NoticeText(orderIdParam.value, rt) && r.1 == entries - {NoticeKey(orderIdParam.value)}
    ensures r.0.None? ==> r.1 == entries
  {
    if orderIdParam.Some? && !Falsy(orderIdParam.value) then
      var key := NoticeKey(orderIdParam.value);
      if key in entries && entries[key].value != 0 then (Some(NoticeText(orderIdParam.value, rt)), entries - {key})
      else (None, entries)
    else (None, entries)
  }

  /** `display_failed_qpay_error_notice`, against the transient store. */
  method DisplayFailedQpayErrorNotice(orderIdParam: Option<string>, transients: Transients, rt: Runtime)
    returns (notice: Option<string>)
    modifies transients
    ensures (notice, transients.entries) == ConsumeNotice(orderIdParam, old(transients.entries), rt)
  {
    notice := None;
    if orderIdParam.Some? {
      var orderId := orderIdParam.value;
      var stored := transients.Get(NoticeKey(orderId));
      if !Falsy(orderId) && stored.Some? && stored.value != 0 {
        notice := Some(NoticeText(orderId, rt));
        transients.Delete(NoticeKey(orderId));
      }
    }
  }

  /**
   * After the failed handler leaves its transient for an order, the notice
   * method called with that order's id as `order_id` prints the notice
   * naming the order once, and nothing on a second call.
   */
  lemma FailureNoticeShownOnce(orderId: nat, entries: map<string, Transient>, rt: Runtime)
    requires 0 < orderId <= PhpIntMax
    ensures var afterFailure := entries[NoticeKey(Dec(orderId)) := Transient(orderId, NoticeLifetime)];
      var first := ConsumeNotice(Some(Dec(orderId)), afterFailure, rt);
      && first.0 == Some("Payment with Debit Card failed for Order #" + Dec(orderId)
                         + ". Please try again or use a different payment method.")
      && ConsumeNotice(Some(Dec(orderId)), first.1, rt).0 == None
  {
    var s := Dec(orderId);
    assert !Falsy(s) by {
      if s == "0" {
        ValueOfDec(orderId);
      }
    }
    AbsIntOfDec(orderId, rt);
  }
}
