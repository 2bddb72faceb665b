/**
 * The privacy handler: the paged query for a person's Qpay orders, the
 * personal-data exporter and the eraser that removes the stored Qpay token
 * from each order.
 */
module Privacy {
  import opened Wrappers
  import opened Text
  import opened Decimal
  import opened Store

  /** Orders are fetched ten to a page. */
  const PageSize := 10
  const PaymentMethodId := "qpay"
  const TokenKey := "_qpay_pre_order_token"
  const OrdersGroupId := "woocommerce_orders"
  const OrdersGroupLabel := "Orders"
  const TokenLabel := "Qpay token"
  const ErasedMessage := "Qpay Order Data Erased."

  /** A value of the `wc_get_orders` query arguments. */
  datatype QueryValue = Text(text: string) | Number(number: int)

  /**
   * `get_qpay_orders`: the query arguments for one page of a person's Qpay
   * orders, by customer id when the address belongs to a registered user
   * (`userId`), by billing address otherwise.
   */
  function OrderQuery(emailAddress: string, page: int, userId: Option<int>): (q: map<string, QueryValue>)
    ensures "payment_method" in q && q["payment_method"] == Text(PaymentMethodId)
    ensures "limit" in q && q["limit"] == Number(PageSize)
    ensures "page" in q && q["page"] == Number(page)
    ensures ("customer_id" in q) != ("billing_email" in q)
    ensures "customer_id" in q <==> userId.Some?
    ensures "customer_id" in q ==> q["customer_id"] == Number(userId.value)
    ensures "billing_email" in q ==> q["billing_email"] == Text(emailAddress)
    ensures |q| == 4
  {
    var base := map["payment_method" := Text(PaymentMethodId), "limit" := Number(PageSize), "page" := Number(page)];
    if userId.Some? then base["customer_id" := Number(userId.value)] else base["billing_email" := Text(emailAddress)]
  }

  /** The stored Qpay token of an order: '' when there is none. */
  function TokenOf(meta: map<string, string>): string {
    MetaValue(meta, TokenKey)
  }

  /** The order holds a token `empty` does not dismiss. */
  predicate HasToken(meta: map<string, string>) {
    !Falsy(TokenOf(meta))
  }

  /** One exported item: its group, its id and its name/value pairs. */
  datatype ExportItem = ExportItem(groupId: string, groupLabel: string, itemId: string, data: seq<(string, string)>)

  /** The exported item of one order. */
  function ExportItemOf(orderId: nat, meta: map<string, string>): ExportItem {
    ExportItem(OrdersGroupId, OrdersGroupLabel, "order-" + Dec(orderId), [(TokenLabel, TokenOf(meta))])
  }

  /** Different orders are exported under different item ids. */
  lemma ItemIdsIdentifyOrders(a: nat, b: nat, metaA: map<string, string>, metaB: map<string, string>)
    ensures ExportItemOf(a, metaA).itemId == ExportItemOf(b, metaB).itemId <==> a == b
  {
    var prefix := "order-";
    if ExportItemOf(a, metaA).itemId == ExportItemOf(b, metaB).itemId {
      assert Dec(a) == (prefix + Dec(a))[|prefix|..];
      assert Dec(b) == (prefix + Dec(b))[|prefix|..];
      DecInjective(a, b);
    }
  }

  /**
   * `order_data_exporter` for the orders of one page: one item per order,
   * in query order, each carrying the order's stored token ('' when none);
   * done once a page comes back short.
   */
  method OrderDataExporter(orders: seq<Order>) returns (data: seq<ExportItem>, done: bool)
    ensures |data| == |orders|
    ensures forall i :: 0 <= i < |orders| ==> data[i] == ExportItemOf(orders[i].id, orders[i].meta)
    ensures done <==> |orders| < PageSize
  {
    data := [];
    done := true;
    if 0 < |orders| {
      var i := 0;
      while i < |orders|
        invariant 0 <= i <= |orders|
        invariant |data| == i
        invariant forall j :: 0 <= j < i ==> data[j] == ExportItemOf(orders[j].id, orders[j].meta)
      {
        var order := orders[i];
        data := data + [ExportItem(OrdersGroupId, OrdersGroupLabel, "order-" + Dec(order.id),
                                   [(TokenLabel, order.GetMeta(TokenKey))])];
        i := i + 1;
      }
      done := PageSize > |orders|;
    }
  }

  /** The metadata after the eraser has handled an order: the token goes when it is truthy. */
  function EraseToken(meta: map<string, string>): map<string, string> {
    if HasToken(meta) then meta - {TokenKey} else meta
  }

  /**
   * An erased order holds no truthy token, erasing twice is erasing once,
   * and no other metadata is touched.
   */
  lemma EraseTokenMeaning(meta: map<string, string>)
    ensures !HasToken(EraseToken(meta))
    ensures EraseToken(EraseToken(meta)) == EraseToken(meta)
    ensures forall k :: k != TokenKey ==> (k in EraseToken(meta) <==> k in meta)
    ensures forall k :: k != TokenKey && k in meta ==> EraseToken(meta)[k] == meta[k]
  {
    if HasToken(meta) {
      assert TokenOf(meta - {TokenKey}) == "";
    }
  }

  /**
   * `maybe_handle_order`: removes a truthy token and reports it with one
   * message; an order without one is left alone. Nothing is ever retained.
   */
  method MaybeHandleOrder(order: Order) returns (removed: bool, retained: bool, msgs: seq<string>)
    modifies order`meta
    ensures removed <==> HasToken(old(order.meta))
    ensures !retained
    ensures msgs == MessagesFor(old(order.meta))
    ensures order.meta == EraseToken(old(order.meta))
  {
    var token := order.GetMeta(TokenKey);
    if Falsy(token) {
      return false, false, [];
    }
    order.DeleteMetaData(TokenKey);
    return true, false, [ErasedMessage];
  }

  /** What `order_data_eraser` reports for a page. */
  datatype ErasureResponse = ErasureResponse(itemsRemoved: bool, itemsRetained: bool, messages: seq<string>, done: bool)

  /** The messages `maybe_handle_order` returns for an order with this metadata. */
  function MessagesFor(meta: map<string, string>): seq<string> {
    if HasToken(meta) then [ErasedMessage] else []
  }

  /** The messages of a page whose orders held these metadata, in order. */
  function ErasureMessages(metas: seq<map<string, string>>): seq<string> {
    if metas == [] then [] else ErasureMessages(metas[..|metas| - 1]) + MessagesFor(metas[|metas| - 1])
  }

  /** The `items_removed` flag of a page whose orders held these metadata. */
  function ItemsRemoved(metas: seq<map<string, string>>): bool {
    if metas == [] then false else ItemsRemoved(metas[..|metas| - 1]) || HasToken(metas[|metas| - 1])
  }

  /** Some order of the page holds a token. */
  ghost predicate AnyToken(metas: seq<map<string, string>>) {
    exists i :: 0 <= i < |metas| && HasToken(metas[i])
  }

  /** The eraser reports a removal exactly when some order of the page held a token. */
  lemma {:induction false} ItemsRemovedMeaning(metas: seq<map<string, string>>)
    ensures ItemsRemoved(metas) <==> AnyToken(metas)
  {
    if metas != [] {
      var init := metas[..|metas| - 1];
      ItemsRemovedMeaning(init);
      if AnyToken(metas) {
        var i :| 0 <= i < |metas| && HasToken(metas[i]);
        if i < |init| {
          assert init[i] == metas[i];
        }
      }
      if AnyToken(init) {
        var i :| 0 <= i < |init| && HasToken(init[i]);
        assert metas[i] == init[i];
      }
    }
  }

  /**
   * Every message is "Qpay Order Data Erased.", and there is none exactly
   * when nothing was removed.
   */
  lemma {:induction false} ErasureMessagesMeaning(metas: seq<map<string, string>>)
    ensures forall m :: m in ErasureMessages(metas) ==> m == ErasedMessage
    ensures ErasureMessages(metas) == [] <==> !ItemsRemoved(metas)
  {
    if metas != [] {
      var init := metas[..|metas| - 1];
      ErasureMessagesMeaning(init);
      var rest, tail := ErasureMessages(init), MessagesFor(metas[|metas| - 1]);
      assert ErasureMessages(metas) == rest + tail;
      forall m | m in rest + tail
        ensures m == ErasedMessage
      {
        if m !in rest {
          assert m in tail;
        }
      }
    }
  }

  /** One more order: its flag and its message, if any, join the earlier ones. */
  lemma ErasureStep(metas: seq<map<string, string>>, k: nat)
    requires k < |metas|
    ensures ErasureMessages(metas[..k + 1]) == ErasureMessages(metas[..k]) + MessagesFor(metas[k])
    ensures ItemsRemoved(metas[..k + 1]) == (ItemsRemoved(metas[..k]) || HasToken(metas[k]))
  {
    assert metas[..k + 1][..k] == metas[..k];
  }

  /** The metadata of each order, in order. */
  function Metas(orders: seq<Order>): (ms: seq<map<string, string>>)
    reads set o | o in orders
    ensures |ms| == |orders|
    ensures forall i :: 0 <= i < |orders| ==> ms[i] == orders[i].meta
  {
    if orders == [] then [] else Metas(orders[..|orders| - 1]) + [orders[|orders| - 1].meta]
  }

  /** Each order appears once. */
  predicate Distinct(orders: seq<Order>) {
    forall i, j :: 0 <= i < j < |orders| ==> orders[i] != orders[j]
  }

  lemma OthersDiffer(orders: seq<Order>, i: nat)
    requires Distinct(orders) && i < |orders|
    ensures forall j :: 0 <= j < |orders| && j != i ==> orders[j] != orders[i]
  {
  }

  /**
   * `order_data_eraser` for the orders of one page (each order once): every
   * order loses its truthy token and no other metadata; the flags and
   * messages are those of `ItemsRemoved` and `ErasureMessages` on the
   * orders' metadata before the call, nothing is retained, and the eraser
   * is done once a page comes back short.
   */
  method OrderDataEraser(orders: seq<Order>) returns (r: ErasureResponse)
    requires Distinct(orders)
    modifies (set o | o in orders)`meta
    ensures forall i :: 0 <= i < |orders| ==> orders[i].meta == EraseToken(old(orders[i].meta))
    ensures r.itemsRemoved == ItemsRemoved(old(Metas(orders)))
    ensures !r.itemsRetained
    ensures r.messages == ErasureMessages(old(Metas(orders)))
    ensures r.done <==> |orders| < PageSize
  {
    ghost var before := Metas(orders);
    var itemsRemoved, itemsRetained := false, false;
    var messages: seq<string> := [];
    var i := 0;
    while i < |orders|
      invariant 0 <= i <= |orders|
      invariant forall j :: 0 <= j < i ==> orders[j].meta == EraseToken(before[j])
      invariant forall j :: i <= j < |orders| ==> orders[j].meta == before[j]
      invariant itemsRemoved == ItemsRemoved(before[..i])
      invariant !itemsRetained
      invariant messages == ErasureMessages(before[..i])
    {
      var order := orders[i];
      OthersDiffer(orders, i);
      var removed, retained, msgs := MaybeHandleOrder(order);
      ErasureStep(before, i);
      itemsRemoved := itemsRemoved || removed;
      itemsRetained := itemsRetained || retained;
      messages := messages + msgs;
      i := i + 1;
    }
    assert before[..i] == before;
    r := ErasureResponse(itemsRemoved, itemsRetained, messages, |orders| < PageSize);
  }
}
