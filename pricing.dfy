// The water-only promotion: a promo price for a subscriber's first orders,
// driven by three rows of the settings table. Any failure while reading the
// settings means "no promo".

module Pricing {
  import opened Models
  import opened Text
  import opened Store

  const PromoActiveKey: string := "promo_active"
  const PromoPriceKey: string := "promo_water_price"
  const PromoLimitKey: string := "promo_water_limit"

  /** 10.00 and 10 orders when the settings rows are missing. */
  const DefaultPromoPrice: Cents := 1000
  const DefaultPromoLimit: int := 10

  /** The values that switch the promotion on, compared after lowercasing. */
  predicate IsOnValue(v: string)
  {
    Lower(v) in {"true", "1", "on"}
  }

  /**
   * Whether the promotion is switched on: a missing row means on. A row whose
   * value is NULL fails on `.lower()`, which is None here.
   */
  function PromoActive(settings: Settings): Option<bool>
  {
    if PromoActiveKey !in settings then Some(true)
    else match settings[PromoActiveKey]
      case None => None
      case Some(v) => Some(IsOnValue(v))
  }

  /** The promo price: the default when the row is missing, otherwise Decimal(value), None when that fails. */
  function PromoPrice(settings: Settings): Option<Cents>
  {
    if PromoPriceKey !in settings then Some(DefaultPromoPrice)
    else match settings[PromoPriceKey]
      case None => None
      case Some(v) => ParseCents(v)
  }

  /** The order limit: the default when the row is missing, otherwise int(value), None when that fails. */
  function PromoLimit(settings: Settings): Option<int>
  {
    if PromoLimitKey !in settings then Some(DefaultPromoLimit)
    else match settings[PromoLimitKey]
      case None => None
      case Some(v) => ParseInt(v)
  }

  /** The subscriber's promo_start_date; None also when there is no such subscriber. */
  function StartDate(subscribers: seq<Subscriber>, sid: int): Option<Timestamp>
  {
    match IndexOf(subscribers, SubscriberId, sid)
    case None => None
    case Some(k) => subscribers[k].promoStartDate
  }

  /** Orders of `sid` counted against the limit: all of them, or those created on or after `start`. */
  function CountOrders(orders: seq<Order>, sid: int, start: Option<Timestamp>): nat
    decreases |orders|
  {
    if orders == [] then 0
    else
      var last := orders[|orders| - 1];
      CountOrders(orders[..|orders| - 1], sid, start)
      + (if last.subscriberId == sid && (start.None? || last.createdAt >= start.value) then 1 else 0)
  }

  /** get_promo_water_price. */
  function PromoWaterPrice(settings: Settings, subscribers: seq<Subscriber>, orders: seq<Order>, sid: int): (r: Option<Cents>)
    ensures r.Some? <==>
      && PromoActive(settings) == Some(true)
      && PromoPrice(settings).Some? && PromoLimit(settings).Some?
      && CountOrders(orders, sid, StartDate(subscribers, sid)) < PromoLimit(settings).value
    ensures r.Some? ==> r == PromoPrice(settings)
  {
    match PromoActive(settings)
    case None => None
    case Some(active) =>
      if !active then None
      else match PromoPrice(settings)
        case None => None
        case Some(price) =>
          match PromoLimit(settings)
          case None => None
          case Some(limit) =>
            if CountOrders(orders, sid, StartDate(subscribers, sid)) < limit then Some(price) else None
  }

  /** Without a start date every order of the subscriber counts. */
  lemma {:induction false} CountAllOrders(orders: seq<Order>, sid: int)
    ensures CountOrders(orders, sid, None) == |OwnedBy(orders, OrderOwner, sid)|
    decreases |orders|
  {
    if orders != [] {
      CountAllOrders(orders[..|orders| - 1], sid);
    }
  }

  /** A new order never lowers the count. */
  lemma CountOrdersAppend(orders: seq<Order>, o: Order, sid: int, start: Option<Timestamp>)
    ensures CountOrders(orders + [o], sid, start)
      == CountOrders(orders, sid, start) + (if o.subscriberId == sid && (start.None? || o.createdAt >= start.value) then 1 else 0)
  {
    assert (orders + [o])[..|orders|] == orders;
  }

  /** With every row missing: active, 10.00, up to 10 counted orders. */
  lemma PromoDefaults(subscribers: seq<Subscriber>, orders: seq<Order>, sid: int)
    ensures PromoWaterPrice(map[], subscribers, orders, sid)
      == if CountOrders(orders, sid, StartDate(subscribers, sid)) < 10 then Some(1000) else None
  {
  }

  /** Without a start date and with limit L, the promo applies exactly while the subscriber has fewer than L orders. */
  lemma PromoWindow(settings: Settings, subscribers: seq<Subscriber>, orders: seq<Order>, sid: int, limit: int)
    requires PromoActive(settings) == Some(true) && PromoPrice(settings).Some? && PromoLimit(settings) == Some(limit)
    requires StartDate(subscribers, sid).None?
    ensures PromoWaterPrice(settings, subscribers, orders, sid).Some? <==> |OwnedBy(orders, OrderOwner, sid)| < limit
  {
    CountAllOrders(orders, sid);
  }

  /** Once the promo has run out for a subscriber, a further order never brings it back. */
  lemma PromoNeverReturns(settings: Settings, subscribers: seq<Subscriber>, orders: seq<Order>, o: Order, sid: int)
    ensures PromoWaterPrice(settings, subscribers, orders, sid).None? ==> PromoWaterPrice(settings, subscribers, orders + [o], sid).None?
  {
    CountOrdersAppend(orders, o, sid, StartDate(subscribers, sid));
  }

  /** An order created before the subscriber's promo_start_date does not use up the promo. */
  lemma OrderBeforeStartNotCounted(settings: Settings, subscribers: seq<Subscriber>, orders: seq<Order>, o: Order, sid: int)
    requires StartDate(subscribers, sid).Some? && o.createdAt < StartDate(subscribers, sid).value
    ensures PromoWaterPrice(settings, subscribers, orders + [o], sid) == PromoWaterPrice(settings, subscribers, orders, sid)
  {
    CountOrdersAppend(orders, o, sid, StartDate(subscribers, sid));
  }

  /** Orders of other subscribers do not use up the promo. */
  lemma OtherSubscribersOrdersNotCounted(settings: Settings, subscribers: seq<Subscriber>, orders: seq<Order>, o: Order, sid: int)
    requires o.subscriberId != sid
    ensures PromoWaterPrice(settings, subscribers, orders + [o], sid) == PromoWaterPrice(settings, subscribers, orders, sid)
  {
    CountOrdersAppend(orders, o, sid, StartDate(subscribers, sid));
  }

  /** The subscriber's promo_custom_limit is never consulted. */
  lemma PromoIgnoresCustomLimit(settings: Settings, subscribers: seq<Subscriber>, orders: seq<Order>, sid: int, k: nat, limit: Option<int>)
    requires k < |subscribers|
    ensures PromoWaterPrice(settings, subscribers[k := subscribers[k].(promoCustomLimit := limit)], orders, sid)
      == PromoWaterPrice(settings, subscribers, orders, sid)
  {
    var updated := subscribers[k := subscribers[k].(promoCustomLimit := limit)];
    IndexOfSameKeys(subscribers, SubscriberId, k, subscribers[k].(promoCustomLimit := limit), sid);
    assert StartDate(updated, sid) == StartDate(subscribers, sid);
  }

  /** The switch is matched case-insensitively: 'TRUE' and 'On' switch it on, 'off' and '0' off. */
  lemma PromoActiveValues()
    ensures PromoActive(map[PromoActiveKey := Some("TRUE")]) == Some(true)
    ensures PromoActive(map[PromoActiveKey := Some("On")]) == Some(true)
    ensures PromoActive(map[PromoActiveKey := Some("off")]) == Some(false)
    ensures PromoActive(map[PromoActiveKey := Some("0")]) == Some(false)
  {
    assert Lower("TRUE") == "true";
    assert Lower("On") == "on";
    assert Lower("off") == "off";
    assert Lower("0") == "0";
  }

  /** A switched-off promotion, or a settings value that cannot be read, gives no promo price. */
  lemma PromoFailsClosed(settings: Settings, subscribers: seq<Subscriber>, orders: seq<Order>, sid: int)
    requires PromoActive(settings) != Some(true) || PromoPrice(settings).None? || PromoLimit(settings).None?
    ensures PromoWaterPrice(settings, subscribers, orders, sid).None?
  {
  }
}
