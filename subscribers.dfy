// The subscribers blueprint: creating and editing a subscriber with its phone
// list, deleting a subscriber with its orders and payments, the subscriber
// list with its search, and the per-subscriber credit column.

module Subscribers {
  import opened Models
  import opened Text
  import opened Store
  import opened Orders

  // ---------------------------------------------------------------------------
  // phones[] on create and edit

  /** The numbers create and edit store: every entry stripped, blank entries dropped, order kept. */
  function NormalisePhones(raw: seq<string>): (r: seq<string>)
    ensures |r| <= |raw|
    decreases |raw|
  {
    if raw == [] then []
    else
      var init := NormalisePhones(raw[..|raw| - 1]);
      var number := Strip(raw[|raw| - 1]);
      if number != [] then init + [number] else init
  }

  lemma NormalisePhonesStep(raw: seq<string>, i: nat)
    requires i < |raw|
    ensures Strip(raw[i]) == [] ==> NormalisePhones(raw[..i + 1]) == NormalisePhones(raw[..i])
    ensures Strip(raw[i]) != [] ==> NormalisePhones(raw[..i + 1]) == NormalisePhones(raw[..i]) + [Strip(raw[i])]
  {
    assert raw[..i + 1][..i] == raw[..i];
  }

  /** Every stored number is non-blank, already stripped, and the stripped form of an entry of the form. */
  lemma {:induction false} NormalisePhonesEntries(raw: seq<string>, i: nat)
    requires i < |NormalisePhones(raw)|
    ensures NormalisePhones(raw)[i] != [] && Trimmed(NormalisePhones(raw)[i])
    ensures exists q :: q in raw && Strip(q) == NormalisePhones(raw)[i]
    decreases |raw|
  {
    var init := NormalisePhones(raw[..|raw| - 1]);
    var last := raw[|raw| - 1];
    if i < |init| {
      NormalisePhonesEntries(raw[..|raw| - 1], i);
      assert NormalisePhones(raw)[i] == init[i];
      var q :| q in raw[..|raw| - 1] && Strip(q) == init[i];
      assert q in raw;
    } else {
      assert NormalisePhones(raw)[i] == Strip(last);
    }
  }

  /** Every entry that is not blank once stripped is stored, stripped. */
  lemma {:induction false} NormalisePhonesKeeps(raw: seq<string>, j: nat)
    requires j < |raw| && Strip(raw[j]) != []
    ensures Strip(raw[j]) in NormalisePhones(raw)
    decreases |raw|
  {
    var n := |raw| - 1;
    if j < n {
      NormalisePhonesKeeps(raw[..n], j);
      assert raw[..n][j] == raw[j];
    }
  }

  /** A list that is already normalised is kept as it is. */
  lemma {:induction false} NormalisedPhonesKept(numbers: seq<string>)
    requires forall i :: 0 <= i < |numbers| ==> numbers[i] != [] && Trimmed(numbers[i])
    ensures NormalisePhones(numbers) == numbers
    decreases |numbers|
  {
    if numbers != [] {
      var n := |numbers| - 1;
      var init := numbers[..n];
      assert forall i :: 0 <= i < |init| ==> init[i] != [] && Trimmed(init[i]) by {
        forall i | 0 <= i < |init| ensures init[i] != [] && Trimmed(init[i]) {
          assert init[i] == numbers[i];
        }
      }
      NormalisedPhonesKept(init);
      StripTrimmed(numbers[n]);
      assert numbers == init + [numbers[n]];
    }
  }

  /** Normalising twice is normalising once. */
  lemma NormalisePhonesIdempotent(raw: seq<string>)
    ensures NormalisePhones(NormalisePhones(raw)) == NormalisePhones(raw)
  {
    var numbers := NormalisePhones(raw);
    forall i | 0 <= i < |numbers| ensures numbers[i] != [] && Trimmed(numbers[i]) {
      NormalisePhonesEntries(raw, i);
    }
    NormalisedPhonesKept(numbers);
  }

  /** The phone rows inserted for `numbers`, numbered from `firstId`. */
  function PhoneRows(sid: int, firstId: int, numbers: seq<string>): (r: seq<Phone>)
    ensures |r| == |numbers|
    decreases |numbers|
  {
    if numbers == [] then []
    else
      var n := |numbers| - 1;
      PhoneRows(sid, firstId, numbers[..n]) + [Phone(firstId + n, sid, numbers[n])]
  }

  lemma PhoneRowsAppend(sid: int, firstId: int, numbers: seq<string>, n: string)
    ensures PhoneRows(sid, firstId, numbers + [n]) == PhoneRows(sid, firstId, numbers) + [Phone(firstId + |numbers|, sid, n)]
  {
    assert (numbers + [n])[..|numbers|] == numbers;
  }

  /** Row `i` carries the `i`-th number under id firstId + i, owned by the subscriber. */
  lemma {:induction false} PhoneRowsAt(sid: int, firstId: int, numbers: seq<string>, i: nat)
    requires i < |numbers|
    ensures PhoneRows(sid, firstId, numbers)[i] == Phone(firstId + i, sid, numbers[i])
    decreases |numbers|
  {
    var n := |numbers| - 1;
    if i < n {
      PhoneRowsAt(sid, firstId, numbers[..n], i);
    }
  }

  /** A table holding the rows of `numbers` gains, with one more row under the next id, the rows of `numbers + [n]`. */
  lemma PhoneRowsExtend(phones: seq<Phone>, sid: int, firstId: int, numbers: seq<string>, n: string, table: seq<Phone>, id: int)
    requires table == phones + PhoneRows(sid, firstId, numbers) && id == firstId + |numbers|
    ensures table + [Phone(id, sid, n)] == phones + PhoneRows(sid, firstId, numbers + [n])
  {
    PhoneRowsAppend(sid, firstId, numbers, n);
    assert (phones + PhoneRows(sid, firstId, numbers)) + [Phone(id, sid, n)]
        == phones + (PhoneRows(sid, firstId, numbers) + [Phone(id, sid, n)]);
  }

  /** Rows added for an existing subscriber keep every phone pointing at a subscriber. */
  lemma PhoneRowsOwned(base: seq<Phone>, sid: int, firstId: int, numbers: seq<string>, subscribers: seq<Subscriber>)
    requires IndexOf(subscribers, SubscriberId, sid).Some? && OwnersExist(base, PhoneOwner, subscribers)
    ensures OwnersExist(base + PhoneRows(sid, firstId, numbers), PhoneOwner, subscribers)
  {
    var rows := base + PhoneRows(sid, firstId, numbers);
    forall i | 0 <= i < |rows| ensures IndexOf(subscribers, SubscriberId, PhoneOwner(rows[i])).Some? {
      if i >= |base| {
        PhoneRowsAt(sid, firstId, numbers, i - |base|);
      }
    }
  }

  /** Writes back the phones table and its id counter; every phone row must point at a subscriber. */
  method StorePhones(db: Database, phones: seq<Phone>, nextId: int)
    requires db.Valid() && OwnersExist(phones, PhoneOwner, db.subscribers)
    modifies db`phones, db`nextPhoneId
    ensures db.Valid()
    ensures db.phones == phones && db.nextPhoneId == nextId
  {
    db.phones, db.nextPhoneId := phones, nextId;
  }

  /**
   * The phone loop of create and edit, on the phones table `base` whose next
   * id is `firstId`: one Phone row, under the next id, for each entry that is
   * not blank once stripped.
   */
  method BuildPhones(sid: int, raw: seq<string>, base: seq<Phone>, firstId: int)
    returns (phones: seq<Phone>, nextId: int)
    ensures phones == base + PhoneRows(sid, firstId, NormalisePhones(raw))
    ensures nextId == firstId + |NormalisePhones(raw)|
  {
    phones, nextId := base, firstId;
    ghost var done: seq<string> := [];
    for i := 0 to |raw|
      invariant done == NormalisePhones(raw[..i])
      invariant nextId == firstId + |done|
      invariant phones == base + PhoneRows(sid, firstId, done)
    {
      NormalisePhonesStep(raw, i);
      var number := Strip(raw[i]);
      if number != [] {
        PhoneRowsExtend(base, sid, firstId, done, number, phones, nextId);
        phones, nextId := phones + [Phone(nextId, sid, number)], nextId + 1;
        done := done + [number];
      }
    }
    assert raw[..|raw|] == raw;
  }

  /** Adds the phone rows of create and edit to the database. */
  method AddPhones(db: Database, sid: int, raw: seq<string>)
    requires db.Valid() && IndexOf(db.subscribers, SubscriberId, sid).Some?
    modifies db`phones, db`nextPhoneId
    ensures db.Valid()
    ensures db.phones == old(db.phones) + PhoneRows(sid, old(db.nextPhoneId), NormalisePhones(raw))
    ensures db.nextPhoneId == old(db.nextPhoneId) + |NormalisePhones(raw)|
  {
    var phones, nextId := BuildPhones(sid, raw, db.phones, db.nextPhoneId);
    PhoneRowsOwned(db.phones, sid, db.nextPhoneId, NormalisePhones(raw), db.subscribers);
    StorePhones(db, phones, nextId);
  }

  // ---------------------------------------------------------------------------
  // create / edit / delete

  /** subscribers.create: a new subscriber with no debt and no promo settings, then its phones. */
  method Create(db: Database, fullName: string, clientType: string, address: string, raw: seq<string>, now: Timestamp)
    returns (id: int)
    requires db.Valid()
    modifies db`subscribers, db`nextSubscriberId, db`phones, db`nextPhoneId
    ensures db.Valid()
    ensures id == old(db.nextSubscriberId) && db.nextSubscriberId == id + 1
    ensures db.subscribers == old(db.subscribers) + [Subscriber(id, fullName, clientType, address, 0, now, None, None)]
    ensures db.phones == old(db.phones) + PhoneRows(id, old(db.nextPhoneId), NormalisePhones(raw))
    ensures db.nextPhoneId == old(db.nextPhoneId) + |NormalisePhones(raw)|
  {
    id := db.nextSubscriberId;
    var s := Subscriber(id, fullName, clientType, address, 0, now, None, None);
    AppendKeepsIds(db.subscribers, SubscriberId, s, id);
    SubscriberAppendKeepsOwners(db.orders, OrderOwner, db.subscribers, s);
    SubscriberAppendKeepsOwners(db.phones, PhoneOwner, db.subscribers, s);
    db.subscribers := db.subscribers + [s];
    db.nextSubscriberId := id + 1;
    assert IndexOf(db.subscribers, SubscriberId, id).Some? by {
      assert SubscriberId(db.subscribers[|db.subscribers| - 1]) == id;
    }
    AddPhones(db, id, raw);
  }

  /**
   * subscribers.edit: 404 for an unknown subscriber; otherwise name, type and
   * address are overwritten and the subscriber's phones are replaced by the
   * normalised new list.
   */
  method Edit(db: Database, id: int, fullName: string, clientType: string, address: string, raw: seq<string>)
    returns (r: Result<()>)
    requires db.Valid()
    modifies db`subscribers, db`phones, db`nextPhoneId
    ensures db.Valid()
    ensures IndexOf(old(db.subscribers), SubscriberId, id).None? ==>
      && r == Err(NotFound)
      && db.subscribers == old(db.subscribers) && db.phones == old(db.phones) && db.nextPhoneId == old(db.nextPhoneId)
    ensures IndexOf(old(db.subscribers), SubscriberId, id).Some? ==>
      var k := IndexOf(old(db.subscribers), SubscriberId, id).value;
      && r == Ok(())
      && db.subscribers == old(db.subscribers)[k := old(db.subscribers)[k].(fullName := fullName, clientType := clientType, address := address)]
      && db.phones == Without(old(db.phones), PhoneOwner, id) + PhoneRows(id, old(db.nextPhoneId), NormalisePhones(raw))
      && db.nextPhoneId == old(db.nextPhoneId) + |NormalisePhones(raw)|
  {
    var found := IndexOf(db.subscribers, SubscriberId, id);
    if found.None? {
      return Err(NotFound);
    }
    var k := found.value;
    var updated := db.subscribers[k].(fullName := fullName, clientType := clientType, address := address);
    UpdateSubscriberRow(db, k, updated);
    RemovePhonesOf(db, id);
    IndexOfSameKeys(old(db.subscribers), SubscriberId, k, updated, id);
    AddPhones(db, id, raw);
    r := Ok(());
  }

  /** Rewrites the subscriber row at position `k`, keeping its id. */
  method UpdateSubscriberRow(db: Database, k: nat, updated: Subscriber)
    requires db.Valid() && k < |db.subscribers| && updated.id == db.subscribers[k].id
    modifies db`subscribers
    ensures db.Valid()
    ensures db.subscribers == old(db.subscribers)[k := updated]
  {
    UpdateKeepsIds(db.subscribers, SubscriberId, k, updated);
    SubscriberUpdateKeepsOwners(db.orders, OrderOwner, db.subscribers, k, updated);
    SubscriberUpdateKeepsOwners(db.phones, PhoneOwner, db.subscribers, k, updated);
    db.subscribers := db.subscribers[k := updated];
  }

  /** After an edit the subscriber's phones are exactly the new list; every other subscriber keeps its phones. */
  lemma EditReplacesPhones(phones: seq<Phone>, id: int, firstId: int, raw: seq<string>, other: int)
    requires other != id
    ensures OwnedBy(Without(phones, PhoneOwner, id) + PhoneRows(id, firstId, NormalisePhones(raw)), PhoneOwner, id)
      == PhoneRows(id, firstId, NormalisePhones(raw))
    ensures OwnedBy(Without(phones, PhoneOwner, id) + PhoneRows(id, firstId, NormalisePhones(raw)), PhoneOwner, other)
      == OwnedBy(phones, PhoneOwner, other)
  {
    var kept, added := Without(phones, PhoneOwner, id), PhoneRows(id, firstId, NormalisePhones(raw));
    OwnedByConcat(kept, added, PhoneOwner, id);
    OwnedByConcat(kept, added, PhoneOwner, other);
    OwnedByWithoutSelf(phones, PhoneOwner, id);
    forall i | 0 <= i < |added| ensures added[i].subscriberId == id {
      PhoneRowsAt(id, firstId, NormalisePhones(raw), i);
    }
    OwnedByAll(added, PhoneOwner, id);
    OwnedByNone(added, PhoneOwner, other);
    OwnedByWithout(phones, PhoneOwner, id, other);
    assert [] + added == added;
    assert OwnedBy(phones, PhoneOwner, other) + [] == OwnedBy(phones, PhoneOwner, other);
  }

  /** Deletes every order of subscriber `id`. */
  method RemoveOrdersOf(db: Database, id: int)
    requires db.Valid()
    modifies db`orders
    ensures db.Valid()
    ensures db.orders == Without(old(db.orders), OrderOwner, id)
  {
    WithoutKeepsIds(db.orders, OrderOwner, id, OrderId, db.nextOrderId);
    WithoutKeepsOwners(db.orders, OrderOwner, db.subscribers, id);
    db.orders := Without(db.orders, OrderOwner, id);
  }

  /** Deletes every phone of subscriber `id`. */
  method RemovePhonesOf(db: Database, id: int)
    requires db.Valid()
    modifies db`phones
    ensures db.Valid()
    ensures db.phones == Without(old(db.phones), PhoneOwner, id)
  {
    WithoutKeepsOwners(db.phones, PhoneOwner, db.subscribers, id);
    db.phones := Without(db.phones, PhoneOwner, id);
  }

  /**
   * Deletes subscriber row `k` once its orders and phones are gone: the
   * current tables are the tables `orders` and `phones` without its rows.
   */
  method RemoveSubscriberRow(db: Database, k: nat, ghost orders: seq<Order>, ghost phones: seq<Phone>)
    requires db.Valid() && k < |db.subscribers|
    requires OwnersExist(orders, OrderOwner, db.subscribers) && db.orders == Without(orders, OrderOwner, db.subscribers[k].id)
    requires OwnersExist(phones, PhoneOwner, db.subscribers) && db.phones == Without(phones, PhoneOwner, db.subscribers[k].id)
    modifies db`subscribers
    ensures db.Valid()
    ensures db.subscribers == RemoveAt(old(db.subscribers), k)
  {
    RemoveAtKeepsIds(db.subscribers, SubscriberId, k, db.nextSubscriberId);
    CascadeKeepsOwners(orders, OrderOwner, db.subscribers, k);
    CascadeKeepsOwners(phones, PhoneOwner, db.subscribers, k);
    db.subscribers := RemoveAt(db.subscribers, k);
  }

  /** Removes subscriber row `k` together with its orders and phones. */
  method RemoveWithRows(db: Database, k: nat)
    requires db.Valid() && k < |db.subscribers|
    modifies db`orders, db`phones, db`subscribers
    ensures db.Valid()
    ensures db.orders == Without(old(db.orders), OrderOwner, old(db.subscribers)[k].id)
    ensures db.phones == Without(old(db.phones), PhoneOwner, old(db.subscribers)[k].id)
    ensures db.subscribers == RemoveAt(old(db.subscribers), k)
  {
    var id := db.subscribers[k].id;
    RemoveOrdersOf(db, id);
    RemovePhonesOf(db, id);
    RemoveSubscriberRow(db, k, old(db.orders), old(db.phones));
  }

  /**
   * subscribers.delete: 404 for an unknown subscriber; otherwise every order,
   * payment and phone of the subscriber goes, then the subscriber. The result
   * carries the numbers of orders and payments removed.
   */
  method Delete(db: Database, id: int) returns (r: Result<(nat, nat)>)
    requires db.Valid()
    modifies db`orders, db`payments, db`phones, db`subscribers
    ensures db.Valid()
    ensures IndexOf(old(db.subscribers), SubscriberId, id).None? ==>
      && r == Err(NotFound)
      && db.orders == old(db.orders) && db.payments == old(db.payments)
      && db.phones == old(db.phones) && db.subscribers == old(db.subscribers)
    ensures IndexOf(old(db.subscribers), SubscriberId, id).Some? ==>
      var k := IndexOf(old(db.subscribers), SubscriberId, id).value;
      && r == Ok((|OwnedBy(old(db.orders), OrderOwner, id)|, |OwnedBy(old(db.payments), PaymentOwner, id)|))
      && db.orders == Without(old(db.orders), OrderOwner, id)
      && db.payments == Without(old(db.payments), PaymentOwner, id)
      && db.phones == Without(old(db.phones), PhoneOwner, id)
      && db.subscribers == RemoveAt(old(db.subscribers), k)
  {
    var found := IndexOf(db.subscribers, SubscriberId, id);
    if found.None? {
      return Err(NotFound);
    }
    var k := found.value;
    var ordersDeleted := |OwnedBy(db.orders, OrderOwner, id)|;
    var paymentsDeleted := |OwnedBy(db.payments, PaymentOwner, id)|;
    db.payments := Without(db.payments, PaymentOwner, id);
    RemoveWithRows(db, k);
    r := Ok((ordersDeleted, paymentsDeleted));
  }

  /** The reported counts are the numbers of rows that went; nothing of another subscriber went. */
  lemma DeleteRemovesExactly<T(!new)>(rows: seq<T>, owner: T -> int, id: int, other: int)
    requires other != id
    ensures |Without(rows, owner, id)| == |rows| - |OwnedBy(rows, owner, id)|
    ensures OwnedBy(Without(rows, owner, id), owner, id) == []
    ensures OwnedBy(Without(rows, owner, id), owner, other) == OwnedBy(rows, owner, other)
  {
    WithoutCount(rows, owner, id);
    OwnedByWithoutSelf(rows, owner, id);
    OwnedByWithout(rows, owner, id, other);
  }

  /** Deleting a subscriber leaves every other subscriber's debt as it was. */
  lemma DeleteKeepsOtherDebts(orders: seq<Order>, payments: seq<Payment>, id: int, other: int)
    requires other != id
    ensures Debt(Without(orders, OrderOwner, id), Without(payments, PaymentOwner, id), other) == Debt(orders, payments, other)
  {
    OwnedByWithout(orders, OrderOwner, id, other);
    OwnedByWithout(payments, PaymentOwner, id, other);
  }

  // ---------------------------------------------------------------------------
  // index: search

  /** Some phone of subscriber `sid` matches `number ILIKE '%search%'`. */
  predicate HasPhoneLike(phones: seq<Phone>, sid: int, search: string)
  {
    exists i :: 0 <= i < |phones| && phones[i].subscriberId == sid && ILike(phones[i].number, search)
  }

  /** The search condition of the subscriber list; `searchType` defaults to 'phone'. */
  predicate SubscriberMatches(phones: seq<Phone>, search: string, searchType: Option<string>, s: Subscriber)
  {
    var t := searchType.GetOr("phone");
    search == []
    || (if t == "name" then ILike(s.fullName, search)
        else if t == "phone" then HasPhoneLike(phones, s.id, search)
        else if t == "address" then ILike(s.address, search)
        else ILike(s.fullName, search) || HasPhoneLike(phones, s.id, search) || ILike(s.address, search))
  }

  /** The subscriber list: every matching subscriber once, newest first. */
  function SubscriberIndex(subscribers: seq<Subscriber>, phones: seq<Phone>, search: string, searchType: Option<string>)
    : (r: seq<Subscriber>)
    ensures forall s :: s in r <==> s in subscribers && SubscriberMatches(phones, search, searchType, s)
  {
    var m := Select(subscribers, s => SubscriberMatches(phones, search, searchType, s));
    ReverseMembers(m);
    Reverse(m)
  }

  /** The list is ordered by id, descending, so no subscriber appears twice. */
  lemma SubscriberIndexNewestFirst(subscribers: seq<Subscriber>, phones: seq<Phone>, search: string, searchType: Option<string>)
    requires IdsIncreasing(subscribers, SubscriberId)
    ensures IdsDecreasing(SubscriberIndex(subscribers, phones, search, searchType), SubscriberId)
  {
    var keep := s => SubscriberMatches(phones, search, searchType, s);
    SelectKeepsOrder(subscribers, keep, SubscriberId);
    ReverseOrdered(Select(subscribers, keep), SubscriberId);
  }

  /** Without a type the search is by phone; with an empty search every subscriber is listed. */
  lemma SearchDefaults(subscribers: seq<Subscriber>, phones: seq<Phone>, search: string, s: Subscriber)
    ensures s in SubscriberIndex(subscribers, phones, search, None)
        <==> s in SubscriberIndex(subscribers, phones, search, Some("phone"))
    ensures s in SubscriberIndex(subscribers, phones, [], None) <==> s in subscribers
  {
  }

  /**
   * Name search ignores ASCII case on both sides: searches that lowercase
   * alike, for names that lowercase alike, match alike.
   */
  lemma NameSearchFoldsCase(phones: seq<Phone>, s: Subscriber, t: Subscriber, a: string, b: string)
    requires Lower(a) == Lower(b) && Lower(s.fullName) == Lower(t.fullName)
    ensures SubscriberMatches(phones, a, Some("name"), s) <==> SubscriberMatches(phones, b, Some("name"), t)
  {
    assert |a| == |Lower(a)| == |Lower(b)| == |b|;
  }

  // ---------------------------------------------------------------------------
  // index: credit per subscriber

  /** SUM(total_amount) - SUM(paid_amount) over the subscriber's orders; direct payments do not enter. */
  function Credit(orders: seq<Order>, sid: int): Cents
  {
    var own := OwnedBy(orders, OrderOwner, sid);
    SumOf(own, TotalOf) - SumOf(own, PaidOf)
  }

  /** The two balances differ by what was paid at order time less what was paid directly. */
  lemma DebtAndCredit(orders: seq<Order>, payments: seq<Payment>, sid: int)
    ensures Debt(orders, payments, sid)
      == Credit(orders, sid) + SumOf(OwnedBy(orders, OrderOwner, sid), PaidOf) - SumOf(OwnedBy(payments, PaymentOwner, sid), AmountOf)
  {
  }

  /** A new order adds its unpaid part to its own subscriber's credit and to no one else's. */
  lemma CreditAfterNewOrder(orders: seq<Order>, o: Order, sid: int)
    ensures Credit(orders + [o], sid) == Credit(orders, sid) + (if o.subscriberId == sid then o.totalAmount - o.paidAmount else 0)
  {
    OwnedByAppend(orders, o, OrderOwner, sid);
    var own := OwnedBy(orders, OrderOwner, sid);
    if o.subscriberId == sid {
      SumOfAppend(own, o, TotalOf);
      SumOfAppend(own, o, PaidOf);
    } else {
      assert own + [] == own;
    }
  }

  /** A fully paid order leaves the credit as it was but raises the debt by its total. */
  lemma PaidOrderRaisesDebtNotCredit(orders: seq<Order>, payments: seq<Payment>, o: Order)
    requires o.paidAmount == o.totalAmount
    ensures Credit(orders + [o], o.subscriberId) == Credit(orders, o.subscriberId)
    ensures Debt(orders + [o], payments, o.subscriberId) == Debt(orders, payments, o.subscriberId) + o.totalAmount
  {
    CreditAfterNewOrder(orders, o, o.subscriberId);
    DebtAfterNewOrder(orders, payments, o, o.subscriberId);
  }

  /** The subscriber_credits loop of the subscriber list: one entry per listed subscriber. */
  method SubscriberCredits(listed: seq<Subscriber>, orders: seq<Order>) returns (credits: map<int, Cents>)
    ensures credits.Keys == IdSet(listed, SubscriberId)
    ensures forall sid :: sid in credits ==> credits[sid] == Credit(orders, sid)
  {
    credits := map[];
    for i := 0 to |listed|
      invariant credits.Keys == IdSet(listed[..i], SubscriberId)
      invariant forall sid :: sid in credits ==> credits[sid] == Credit(orders, sid)
    {
      var s := listed[i];
      var own := OwnedBy(orders, OrderOwner, s.id);
      var totalOrders := SumOf(own, TotalOf);
      var totalPaid := SumOf(own, PaidOf);
      assert listed[..i + 1][..i] == listed[..i];
      credits := credits[s.id := totalOrders - totalPaid];
    }
    assert listed[..|listed|] == listed;
  }

  // ---------------------------------------------------------------------------
  // the Subscriber mapping as declared

  /** The attributes the handlers name on a Subscriber, one per column of the intended table. */
  datatype Column = ColId | ColFullName | ColClientType | ColAddress | ColDebt | ColCreatedAt | ColPromoStartDate | ColPromoCustomLimit

  /** The columns app/models.py declares on Subscriber: `full_name` is not among them. */
  const DeclaredColumns: set<Column> :=
    {ColId, ColClientType, ColAddress, ColDebt, ColCreatedAt, ColPromoStartDate, ColPromoCustomLimit}

  /** The columns the handlers are written against: the declared ones and `full_name`. */
  const IntendedColumns: set<Column> := DeclaredColumns + {ColFullName}

  /** How a handler touches a Subscriber attribute. */
  datatype ColumnUse =
    | Keyword(column: Column)  // a constructor keyword: an undeclared one raises TypeError
    | Read(column: Column)     // a read of a column not assigned first: an undeclared one raises AttributeError
    | Assign(column: Column)   // an instance attribute write: always accepted, stored only when declared

  /**
   * What a handler's attribute uses come to on a mapping with `columns`: an
   * error when a keyword or a read names an undeclared column, otherwise the
   * set of assigned columns that reach the row at commit.
   */
  function UseColumns(columns: set<Column>, uses: seq<ColumnUse>): (r: Result<set<Column>>)
    ensures r.Ok? <==> forall i :: 0 <= i < |uses| ==> uses[i].Assign? || uses[i].column in columns
    ensures r.Err? ==> r.error == UnknownColumn
    ensures r.Ok? ==> forall c :: c in r.value <==> c in columns && Assign(c) in uses
    decreases |uses|
  {
    if uses == [] then Ok({})
    else
      var u := uses[|uses| - 1];
      var front := uses[..|uses| - 1];
      assert forall x :: x in uses <==> x in front || x == u;
      var rest := UseColumns(columns, front);
      if !u.Assign? && u.column !in columns then Err(UnknownColumn)
      else if rest.Err? then rest
      else Ok(if u.Assign? && u.column in columns then rest.value + {u.column} else rest.value)
  }

  /** Reads and keywords of declared columns go through and store nothing. */
  lemma ReadsStoreNothing(columns: set<Column>, uses: seq<ColumnUse>)
    requires forall i :: 0 <= i < |uses| ==> !uses[i].Assign? && uses[i].column in columns
    ensures UseColumns(columns, uses) == Ok({})
  {
    var r := UseColumns(columns, uses);
    assert forall c :: Assign(c) !in uses;
    assert forall c :: c !in r.value;
  }

  /** create: `Subscriber(full_name=..., client_type=..., address=...)`. */
  const CreateUses: seq<ColumnUse> := [Keyword(ColFullName), Keyword(ColClientType), Keyword(ColAddress)]

  /** edit: the three assignments to the loaded subscriber. */
  const EditUses: seq<ColumnUse> := [Assign(ColFullName), Assign(ColClientType), Assign(ColAddress)]

  /** delete: the name kept for the log, read before anything is changed. */
  const DeleteUses: seq<ColumnUse> := [Read(ColFullName)]

  /** get_json: the attributes of the reply. */
  const JsonUses: seq<ColumnUse> := [Read(ColId), Read(ColFullName), Read(ColClientType), Read(ColAddress), Read(ColDebt)]

  /** The order list sorts the subscriber drop-down by `Subscriber.full_name`. */
  const OrderListUses: seq<ColumnUse> := [Read(ColFullName)]

  /** The columns the subscriber list's filter names, by search type ('phone' when absent). */
  function IndexUses(search: string, searchType: Option<string>): seq<ColumnUse>
  {
    var t := searchType.GetOr("phone");
    if search == [] || t == "phone" then []
    else if t == "name" then [Read(ColFullName)]
    else if t == "address" then [Read(ColAddress)]
    else [Read(ColFullName), Read(ColAddress)]
  }

  /**
   * As declared, every handler that names `full_name` other than by
   * assignment fails, and edit's new name is silently not stored.
   */
  lemma FullNameFinding()
    ensures UseColumns(DeclaredColumns, CreateUses) == Err(UnknownColumn)
    ensures UseColumns(DeclaredColumns, DeleteUses) == Err(UnknownColumn)
    ensures UseColumns(DeclaredColumns, JsonUses) == Err(UnknownColumn)
    ensures UseColumns(DeclaredColumns, OrderListUses) == Err(UnknownColumn)
    ensures UseColumns(DeclaredColumns, EditUses) == Ok({ColClientType, ColAddress})
  {
    assert CreateUses[0].column !in DeclaredColumns;
    assert JsonUses[1].column !in DeclaredColumns;
    EditStores(DeclaredColumns);
    assert DeclaredColumns * {ColFullName, ColClientType, ColAddress} == {ColClientType, ColAddress} by {
      forall c ensures c in DeclaredColumns * {ColFullName, ColClientType, ColAddress} <==> c in {ColClientType, ColAddress} {
        assert c in DeclaredColumns <==> c != ColFullName;
      }
    }
  }

  /** edit stores exactly those of its three assigned columns that the mapping declares. */
  lemma EditStores(columns: set<Column>)
    ensures UseColumns(columns, EditUses).Ok?
    ensures UseColumns(columns, EditUses).value == columns * {ColFullName, ColClientType, ColAddress}
  {
    var r := UseColumns(columns, EditUses);
    forall c ensures c in r.value <==> c in columns * {ColFullName, ColClientType, ColAddress} {
      assert Assign(c) in EditUses <==> c in {ColFullName, ColClientType, ColAddress};
    }
  }

  /** As declared, the subscriber list fails exactly when its filter names the name column. */
  lemma IndexFindingAsDeclared(search: string, searchType: Option<string>)
    ensures UseColumns(DeclaredColumns, IndexUses(search, searchType)).Err?
        <==> search != [] && searchType.GetOr("phone") !in {"phone", "address"}
  {
    var uses := IndexUses(search, searchType);
    if uses != [] && uses[0] == Read(ColFullName) {
      assert uses[0].column !in DeclaredColumns;
    }
  }

  /** With `full_name` declared every handler goes through and edit stores all three columns it assigns. */
  lemma IntendedColumnsServeHandlers()
    ensures UseColumns(IntendedColumns, CreateUses) == Ok({})
    ensures UseColumns(IntendedColumns, DeleteUses) == Ok({})
    ensures UseColumns(IntendedColumns, JsonUses) == Ok({})
    ensures UseColumns(IntendedColumns, OrderListUses) == Ok({})
    ensures UseColumns(IntendedColumns, EditUses) == Ok({ColFullName, ColClientType, ColAddress})
  {
    ReadsStoreNothing(IntendedColumns, CreateUses);
    ReadsStoreNothing(IntendedColumns, DeleteUses);
    ReadsStoreNothing(IntendedColumns, JsonUses);
    ReadsStoreNothing(IntendedColumns, OrderListUses);
    EditStores(IntendedColumns);
    assert IntendedColumns * {ColFullName, ColClientType, ColAddress} == {ColFullName, ColClientType, ColAddress};
  }

  /** With `full_name` declared the subscriber list goes through for every search. */
  lemma IntendedColumnsServeIndex(search: string, searchType: Option<string>)
    ensures UseColumns(IntendedColumns, IndexUses(search, searchType)) == Ok({})
  {
    ReadsStoreNothing(IntendedColumns, IndexUses(search, searchType));
  }
}
