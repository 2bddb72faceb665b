/**
 * The inbound Instant Transaction Notification (ITN): the signed string the
 * gateway recomputes, the hash comparison, the source-IP allow-list, the
 * order in which `handle_itn_request` runs its checks, the choice between
 * the complete and failed handlers, and the net amount the complete handler
 * records.
 */
module Itn {
  import opened Wrappers
  import opened Text
  import opened Decimal

  /** The posted data: `Missing` stands for PHP `false`, otherwise the POST fields. */
  datatype Payload = Missing | Received(fields: map<string, string>)

  /** `isset($data[$name])`-aware access: None when there is no such field. */
  function Lookup(p: Payload, name: string): Option<string> {
    match p
    case Missing => None
    case Received(fields) => if name in fields then Some(fields[name]) else None
  }

  /** A field in a string context: a missing field (PHP null) reads as ''. */
  function Field(p: Payload, name: string): string {
    var v := Lookup(p, name);
    if v.Some? then v.value else ""
  }

  const AcquirerIdField := "Response_AcquirerID"
  const AmountField := "Response_Amount"
  const BankIdField := "Response_BankID"
  const CardExpiryDateField := "Response_CardExpiryDate"
  const CardHolderNameField := "Response_CardHolderName"
  const CardNumberField := "Response_CardNumber"
  const ConfirmationIdField := "Response_ConfirmationID"
  const CurrencyCodeField := "Response_CurrencyCode"
  const ResponseDateField := "Response_EZConnectResponseDate"
  const LangField := "Response_Lang"
  const MerchantIdField := "Response_MerchantID"
  const SessionIdField := "Response_MerchantModuleSessionID"
  const PunField := "Response_PUN"
  const StatusField := "Response_Status"
  const StatusMessageField := "Response_StatusMessage"
  const SecureHashField := "Response_SecureHash"

  /** The fields signed as they are, in protocol order; the status message follows them. */
  const SignedFields: seq<string> := [
    AcquirerIdField, AmountField, BankIdField, CardExpiryDateField, CardHolderNameField, CardNumberField,
    ConfirmationIdField, CurrencyCodeField, ResponseDateField, LangField, MerchantIdField, SessionIdField,
    PunField, StatusField]

  /** The success status code. */
  const SuccessStatus := "0000"

  /**
   * `_generate_parameter_string`: '' when the merchant key is unset, otherwise
   * the merchant key, the fourteen signed fields in protocol order, and the
   * status message with its spaces turned into '+', with no separators.
   */
  function ParameterString(merchantKey: Option<string>, p: Payload): string {
    if merchantKey.None? then ""
    else merchantKey.value + ConcatFields(p, SignedFields) + SpacesToPlus(Field(p, StatusMessageField))
  }

  /** The named fields of `p`, concatenated in the given order. */
  function ConcatFields(p: Payload, names: seq<string>): string {
    if names == [] then "" else Field(p, names[0]) + ConcatFields(p, names[1..])
  }

  lemma {:induction false} ConcatFieldsAgree(p: Payload, q: Payload, names: seq<string>)
    requires forall n :: n in names ==> Field(p, n) == Field(q, n)
    ensures ConcatFields(p, names) == ConcatFields(q, names)
  {
    if names != [] {
      assert names[0] in names;
      ConcatFieldsAgree(p, q, names[1..]);
    }
  }

  /**
   * The parameter string depends on the fourteen signed fields and the
   * status message only: every other posted field, the secure hash
   * included, can change without changing it.
   */
  lemma ParameterStringDependsOnSigned(merchantKey: Option<string>, p: Payload, q: Payload)
    requires forall n :: n in SignedFields ==> Field(p, n) == Field(q, n)
    requires Field(p, StatusMessageField) == Field(q, StatusMessageField)
    ensures ParameterString(merchantKey, p) == ParameterString(merchantKey, q)
  {
    ConcatFieldsAgree(p, q, SignedFields);
  }

  /**
   * Changing any single signed field, all else equal, changes the parameter
   * string: the status message carried along, every signed field is bound
   * by the hash.
   */
  lemma ParameterStringDetectsChange(merchantKey: string, p: Payload, q: Payload, k: nat)
    requires k < |SignedFields|
    requires forall j :: 0 <= j < |SignedFields| && j != k ==> Field(p, SignedFields[j]) == Field(q, SignedFields[j])
    requires Field(p, SignedFields[k]) != Field(q, SignedFields[k])
    requires Field(p, StatusMessageField) == Field(q, StatusMessageField)
    ensures ParameterString(Some(merchantKey), p) != ParameterString(Some(merchantKey), q)
  {
    var cp, cq := ConcatFields(p, SignedFields), ConcatFields(q, SignedFields);
    var tail := SpacesToPlus(Field(p, StatusMessageField));
    ConcatFieldsDetectsChange(p, q, SignedFields, k);
    AppendCancelLeft(merchantKey, cp + tail, cq + tail);
    AppendCancelRight(cp, cq, tail);
    AppendAssoc(merchantKey, cp, tail);
    AppendAssoc(merchantKey, cq, tail);
  }

  /**
   * Two payloads that agree on every named field but the one at index k,
   * and differ there, concatenate to different strings.
   */
  lemma {:induction false} ConcatFieldsDetectsChange(p: Payload, q: Payload, names: seq<string>, k: nat)
    requires k < |names|
    requires forall j :: 0 <= j < |names| && j != k ==> Field(p, names[j]) == Field(q, names[j])
    requires Field(p, names[k]) != Field(q, names[k])
    ensures ConcatFields(p, names) != ConcatFields(q, names)
  {
    var rest := names[1..];
    if k == 0 {
      forall n | n in rest
        ensures Field(p, n) == Field(q, n)
      {
        var j :| 0 <= j < |rest| && rest[j] == n;
        assert names[j + 1] == n;
      }
      ConcatFieldsAgree(p, q, rest);
      AppendCancelRight(Field(p, names[0]), Field(q, names[0]), ConcatFields(p, rest));
    } else {
      forall j | 0 <= j < |rest| && j != k - 1
        ensures Field(p, rest[j]) == Field(q, rest[j])
      {
        assert rest[j] == names[j + 1];
      }
      assert rest[k - 1] == names[k];
      ConcatFieldsDetectsChange(p, q, rest, k - 1);
      assert Field(p, names[0]) == Field(q, names[0]);
      AppendCancelLeft(Field(p, names[0]), ConcatFields(p, rest), ConcatFields(q, rest));
    }
  }

  /** A common prefix cancels. */
  lemma AppendCancelLeft(a: string, b: string, c: string)
    ensures a + b == a + c ==> b == c
  {
    if a + b == a + c {
      assert b == (a + b)[|a|..];
      assert c == (a + c)[|a|..];
    }
  }

  /** A common suffix cancels. */
  lemma AppendCancelRight(a: string, b: string, c: string)
    ensures a + c == b + c ==> a == b
  {
    if a + c == b + c {
      assert a == (a + c)[..|a|];
      assert b == (b + c)[..|b|];
    }
  }

  /** The status message is not one of the fields signed as they are. */
  lemma StatusMessageNotSigned()
    ensures StatusMessageField !in SignedFields
  {
    assert StatusMessageField[9] == 'S' && |StatusMessageField| != |StatusField|;
    assert AcquirerIdField[9] == 'A' && CardNumberField[9] == 'C' && MerchantIdField[9] == 'M';
  }

  /**
   * The status message is signed after its spaces become '+', so a message
   * with a space and the same message with a '+' there give the same
   * parameter string: changing that one field need not change the hash.
   */
  lemma StatusMessageSpaceAmbiguity(merchantKey: Option<string>, fields: map<string, string>)
    ensures var p := Received(fields[StatusMessageField := "a b"]);
            var q := Received(fields[StatusMessageField := "a+b"]);
            Lookup(p, StatusMessageField) != Lookup(q, StatusMessageField)
            && ParameterString(merchantKey, p) == ParameterString(merchantKey, q)
  {
    var p := Received(fields[StatusMessageField := "a b"]);
    var q := Received(fields[StatusMessageField := "a+b"]);
    StatusMessageNotSigned();
    ConcatFieldsAgree(p, q, SignedFields);
    assert SpacesToPlus("a b") == SpacesToPlus("a+b");
  }

  /** The first two signed fields occur nowhere later in the list. */
  lemma LeadingFieldsNotRepeated()
    ensures forall k :: 2 <= k < |SignedFields| ==> SignedFields[k] != AcquirerIdField && SignedFields[k] != AmountField
  {
    assert AcquirerIdField[9] == 'A' && CardNumberField[9] == 'C' && MerchantIdField[9] == 'M';
    assert AmountField[10] == 'm' && BankIdField[10] == 'a' && StatusField[10] == 't';
  }

  /** The secure hash is not one of the signed fields. */
  lemma SecureHashNotSigned()
    ensures SecureHashField !in SignedFields && SecureHashField != StatusMessageField
  {
    assert SecureHashField[9] == 'S';
    assert AcquirerIdField[9] == 'A' && CardNumberField[9] == 'C' && MerchantIdField[9] == 'M';
  }

  /** `validate_hash`: the posted `Response_SecureHash` is string-identical to `hash`. */
  function ValidateHash(p: Payload, hash: string): bool {
    Lookup(p, SecureHashField) == Some(hash)
  }

  /**
   * A notification the processor signs with the merchant's key, by setting
   * `Response_SecureHash` to SHA-256 of the parameter string, passes
   * `validate_hash`: the hash field is not part of what is signed.
   */
  lemma SignedNotificationValidates(merchantKey: string, fields: map<string, string>, sha256: string -> string)
    ensures var signed := Received(fields[SecureHashField := sha256(ParameterString(Some(merchantKey), Received(fields)))]);
      ValidateHash(signed, sha256(ParameterString(Some(merchantKey), signed)))
  {
    var p := Received(fields);
    var signed := Received(fields[SecureHashField := sha256(ParameterString(Some(merchantKey), p))]);
    SecureHashNotSigned();
    ParameterStringDependsOnSigned(Some(merchantKey), p, signed);
  }

  /**
   * The fields are joined without separators, so moving a character across
   * the boundary of two adjacent signed fields gives a notification with a
   * different amount but the same parameter string, and so the same hash.
   */
  lemma FieldBoundaryAmbiguity(merchantKey: Option<string>, fields: map<string, string>)
    ensures var p := Received(fields[AcquirerIdField := "12"][AmountField := "3"]);
            var q := Received(fields[AcquirerIdField := "1"][AmountField := "23"]);
            Lookup(p, AmountField) != Lookup(q, AmountField)
            && ParameterString(merchantKey, p) == ParameterString(merchantKey, q)
  {
    var p := Received(fields[AcquirerIdField := "12"][AmountField := "3"]);
    var q := Received(fields[AcquirerIdField := "1"][AmountField := "23"]);
    LeadingFieldsNotRepeated();
    assert AcquirerIdField != AmountField;
    assert Field(p, AcquirerIdField) + Field(p, AmountField) == Field(q, AcquirerIdField) + Field(q, AmountField);
    ShiftedBoundary(p, q, SignedFields);
  }

  /**
   * Two payloads whose first two named fields join to the same text and
   * whose other named fields agree concatenate to the same string.
   */
  lemma ShiftedBoundary(p: Payload, q: Payload, names: seq<string>)
    requires |names| >= 2
    requires Field(p, names[0]) + Field(p, names[1]) == Field(q, names[0]) + Field(q, names[1])
    requires forall k :: 2 <= k < |names| ==> Field(p, names[k]) == Field(q, names[k])
    ensures ConcatFields(p, names) == ConcatFields(q, names)
  {
    forall n | n in names[2..]
      ensures Field(p, n) == Field(q, n)
    {
      var k :| 0 <= k < |names[2..]| && names[2..][k] == n;
      assert names[k + 2] == n;
    }
    var rest := names[1..];
    assert rest[0] == names[1] && rest[1..] == names[2..];
    ConcatFieldsAgree(p, q, names[2..]);
    var tail := ConcatFields(p, names[2..]);
    var p0, p1, q0, q1 := Field(p, names[0]), Field(p, names[1]), Field(q, names[0]), Field(q, names[1]);
    calc {
      ConcatFields(p, names);
      p0 + (p1 + tail);
      { AppendAssoc(p0, p1, tail); }
      (p0 + p1) + tail;
      (q0 + q1) + tail;
      { AppendAssoc(q0, q1, tail); }
      q0 + (q1 + tail);
      ConcatFields(q, names);
    }
  }

  lemma AppendAssoc(a: string, b: string, c: string)
    ensures (a + b) + c == a + (b + c)
  {
  }

  /** The processor hosts `is_valid_ip` resolves. */
  const ValidHosts: seq<string> := ["https://pguat.qcb.gov.qa", "https://pg-api.qpay.gov.qa"]

  /** The addresses of `hosts` in order, skipping hosts whose lookup failed (absent from `dns`). */
  function Resolved(dns: map<string, seq<string>>, hosts: seq<string>): seq<string> {
    if hosts == [] then []
    else
      var last := hosts[|hosts| - 1];
      Resolved(dns, hosts[..|hosts| - 1]) + (if last in dns then dns[last] else [])
  }

  /** `ip` is an address one of `hosts` resolves to. */
  ghost predicate ResolvesTo(ip: string, dns: map<string, seq<string>>, hosts: seq<string>) {
    exists h :: h in hosts && h in dns && ip in dns[h]
  }

  lemma {:induction false} ResolvedMembers(dns: map<string, seq<string>>, hosts: seq<string>, ip: string)
    ensures ip in Resolved(dns, hosts) <==> ResolvesTo(ip, dns, hosts)
  {
    if hosts != [] {
      var init, last := hosts[..|hosts| - 1], hosts[|hosts| - 1];
      ResolvedMembers(dns, init, ip);
      assert hosts == init + [last];
      if ResolvesTo(ip, dns, hosts) {
        var h :| h in hosts && h in dns && ip in dns[h];
        if h != last {
          assert h in init;
        }
      }
    }
  }

  predicate NoDuplicates(s: seq<string>) {
    forall i, j :: 0 <= i < j < |s| ==> s[i] != s[j]
  }

  /** `array_unique`: the first occurrence of every element, in order. */
  function Unique(s: seq<string>): (r: seq<string>)
    ensures forall x :: x in r <==> x in s
    ensures NoDuplicates(r)
  {
    if s == [] then []
    else
      var u := Unique(s[..|s| - 1]);
      assert s == s[..|s| - 1] + [s[|s| - 1]];
      if s[|s| - 1] in u then u else u + [s[|s| - 1]]
  }

  /** The allow-list of `is_valid_ip`: the de-duplicated union of the resolved addresses. */
  function AllowList(dns: map<string, seq<string>>): seq<string> {
    Unique(Resolved(dns, ValidHosts))
  }

  /** The allow-list has no repeated address and holds exactly the addresses the processor hosts resolve to. */
  lemma AllowListMembers(dns: map<string, seq<string>>, ip: string)
    ensures NoDuplicates(AllowList(dns))
    ensures ip in AllowList(dns) <==> ResolvesTo(ip, dns, ValidHosts)
  {
    ResolvedMembers(dns, ValidHosts, ip);
  }

  /** A truthy X-Forwarded-For header whose trimmed first piece is an IP address. */
  predicate ForwardedIp(forwardedFor: Option<string>, isIp: string -> bool) {
    forwardedFor.Some? && !Falsy(forwardedFor.value) && isIp(Trim(FirstSegment(forwardedFor.value)))
  }

  /**
   * The address `is_valid_ip` checks: the first piece of a non-empty
   * X-Forwarded-For header, cut at ',' or ':' and trimmed, when it is an IP
   * address; otherwise the connection's source address.
   */
  function ForwardedSource(sourceIp: string, forwardedFor: Option<string>, isIp: string -> bool): (r: string)
    ensures ForwardedIp(forwardedFor, isIp) ==> r == Trim(FirstSegment(forwardedFor.value))
    ensures !ForwardedIp(forwardedFor, isIp) ==> r == sourceIp
    ensures r != sourceIp ==> isIp(r) && ',' !in r && ':' !in r
  {
    if ForwardedIp(forwardedFor, isIp) then
      var first := FirstSegment(forwardedFor.value);
      TrimKeepsOut(first, ',');
      TrimKeepsOut(first, ':');
      Trim(first)
    else sourceIp
  }

  /** `is_valid_ip`: the checked address is one the processor hosts resolve to. */
  method IsValidIp(sourceIp: string, forwardedFor: Option<string>, dns: map<string, seq<string>>, isIp: string -> bool)
    returns (valid: bool)
    ensures valid <==> ResolvesTo(ForwardedSource(sourceIp, forwardedFor, isIp), dns, ValidHosts)
  {
    var validIps: seq<string> := [];
    var i := 0;
    while i < |ValidHosts|
      invariant 0 <= i <= |ValidHosts|
      invariant validIps == Resolved(dns, ValidHosts[..i])
    {
      var host := ValidHosts[i];
      assert ValidHosts[..i + 1][..i] == ValidHosts[..i];
      if host in dns {
        validIps := validIps + dns[host];
      }
      i := i + 1;
    }
    assert ValidHosts[..i] == ValidHosts;
    validIps := Unique(validIps);
    var source := sourceIp;
    if forwardedFor.Some? && !Falsy(forwardedFor.value) {
      var header := Trim(FirstSegment(forwardedFor.value));
      source := if isIp(header) then header else source;
    }
    valid := source in validIps;
    AllowListMembers(dns, source);
  }

  /** Why `handle_itn_request` distrusts a notification. */
  datatype ItnError = BadAccess | InvalidSignature | BadSourceIp

  /**
   * The error `handle_itn_request` is left with: the checks run in order and
   * each runs only while no earlier one failed; the source-IP check is
   * skipped in test mode and when no remote address is known.
   */
  function Verdict(merchantKey: Option<string>, p: Payload, sha256: string -> string, testmode: string,
                   remoteAddr: Option<string>, forwardedFor: Option<string>, dns: map<string, seq<string>>,
                   isIp: string -> bool): (v: Option<ItnError>)
    ensures v == Some(BadAccess) <==> p.Missing?
    ensures v == Some(InvalidSignature) <==> p.Received? && !ValidateHash(p, sha256(ParameterString(merchantKey, p)))
    ensures v == Some(BadSourceIp) <==>
      && p.Received? && ValidateHash(p, sha256(ParameterString(merchantKey, p)))
      && testmode != "yes" && remoteAddr.Some?
      && !ResolvesTo(ForwardedSource(remoteAddr.value, forwardedFor, isIp), dns, ValidHosts)
  {
    if p.Missing? then Some(BadAccess)
    else if !ValidateHash(p, sha256(ParameterString(merchantKey, p))) then Some(InvalidSignature)
    else if testmode != "yes" && remoteAddr.Some? then
      var source := ForwardedSource(remoteAddr.value, forwardedFor, isIp);
      AllowListMembers(dns, source);
      if source in AllowList(dns) then None else Some(BadSourceIp)
    else None
  }

  /** The handler `handle_itn_request` runs. */
  datatype ItnPath = CompletePath | FailedPath

  /** The complete handler runs for status "0000" exactly; anything else, absent included, fails. */
  function StatusPath(p: Payload): (path: ItnPath)
    ensures path == CompletePath <==> Lookup(p, StatusField) == Some(SuccessStatus)
    ensures p.Missing? ==> path == FailedPath
    ensures Lookup(p, StatusField) == None ==> path == FailedPath
  {
    var statusCode := Lookup(p, StatusField);
    if statusCode == Some(SuccessStatus) then CompletePath else FailedPath
  }

  /**
   * As written, the handler is chosen from the status alone: a notification
   * carrying "0000" and a hash that does not match is still sent down the
   * complete path.
   */
  lemma ForgedNotificationIsDispatched(merchantKey: Option<string>, fields: map<string, string>, sha256: string -> string,
                                       testmode: string, remoteAddr: Option<string>, forwardedFor: Option<string>,
                                       dns: map<string, seq<string>>, isIp: string -> bool)
    requires StatusField in fields && fields[StatusField] == SuccessStatus
    requires Lookup(Received(fields), SecureHashField) != Some(sha256(ParameterString(merchantKey, Received(fields))))
    ensures Verdict(merchantKey, Received(fields), sha256, testmode, remoteAddr, forwardedFor, dns, isIp) == Some(InvalidSignature)
    ensures StatusPath(Received(fields)) == CompletePath
  {
  }

  /** Dispatch gated on the verdict: no handler runs for a distrusted notification. */
  function GatedPath(v: Option<ItnError>, p: Payload): (path: Option<ItnPath>)
    ensures path.Some? <==> v.None?
    ensures v.None? ==> (path == Some(CompletePath) <==> Lookup(p, StatusField) == Some(SuccessStatus))
    ensures v.None? ==> (path == Some(FailedPath) <==> Lookup(p, StatusField) != Some(SuccessStatus))
  {
    if v.None? then Some(StatusPath(p)) else None
  }

  /**
   * With the gate, a notification whose hash does not match reaches neither
   * handler, and one that completes carried "0000" and passed every check.
   */
  lemma GatedPathRejectsForgery(merchantKey: Option<string>, p: Payload, sha256: string -> string, testmode: string,
                                remoteAddr: Option<string>, forwardedFor: Option<string>,
                                dns: map<string, seq<string>>, isIp: string -> bool)
    ensures var v := Verdict(merchantKey, p, sha256, testmode, remoteAddr, forwardedFor, dns, isIp);
      && (p.Received? && !ValidateHash(p, sha256(ParameterString(merchantKey, p))) ==> GatedPath(v, p) == None)
      && (GatedPath(v, p) == Some(CompletePath) ==>
            && Lookup(p, StatusField) == Some(SuccessStatus)
            && ValidateHash(p, sha256(ParameterString(merchantKey, p)))
            && (testmode != "yes" && remoteAddr.Some? ==>
                  ResolvesTo(ForwardedSource(remoteAddr.value, forwardedFor, isIp), dns, ValidHosts)))
  {
  }

  /**
   * The `qpay_amount_net` value of the complete handler, or None when PHP
   * throws on the division. No amount posted gives ''. A digit string below
   * `ExactMinorLimit` gives the amount divided by 100 with exactly two
   * decimals. A string that does not begin with a number makes PHP 8 throw
   * a TypeError; PHP 7 divides 0 instead. Any other numeric form goes
   * through the runtime's floating-point formatting.
   */
  function AmountNet(p: Payload, rt: Runtime): (r: Option<string>)
    ensures Lookup(p, AmountField) == None ==> r == Some("")
    ensures Lookup(p, AmountField).Some? ==>
      var raw := Lookup(p, AmountField).value;
      && (r.None? <==> rt.php8 && !HasLeadingNumber(raw))
      && (!rt.php8 && !HasLeadingNumber(raw) ==> r == Some("0.00"))
      && (raw != "" && IsDigits(raw) && Value(raw) < ExactMinorLimit ==> r.Some? && ShowsMinorUnits(r.value, Value(raw)))
  {
    match Lookup(p, AmountField)
    case None => Some("")
    case Some(raw) =>
      if raw != "" && IsDigits(raw) && Value(raw) < ExactMinorLimit then
        LeadingNumberCases(raw);
        FormatMinorUnitsMeaning(Value(raw));
        Some(FormatMinorUnits(Value(raw)))
      else if !HasLeadingNumber(raw) then
        if rt.php8 then None else (FormatMinorUnitsExample(); Some(FormatMinorUnits(0)))
      else Some(rt.floatNet(raw))
  }

  /** An amount posted as the decimal digits of `n` minor units is recorded as `n` formatted with two decimals. */
  lemma AmountNetOfDec(n: nat, rt: Runtime)
    requires n < ExactMinorLimit
    ensures AmountNet(Received(map[AmountField := Dec(n)]), rt) == Some(FormatMinorUnits(n))
  {
    ValueOfDec(n);
  }
}
