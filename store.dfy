// The database the handlers read and write: one sequence per table, in
// insertion order, and the id counters the database hands out. Also the
// queries the handlers issue against it: primary-key lookup, rows owned by a
// subscriber, deletion of those rows, and SUM over a column.

module Store {
  import opened Models

  /** Position of the row whose key is `id` (Query.get / get_or_404). */
  function IndexOf<T>(rows: seq<T>, key: T -> int, id: int): (r: Option<nat>)
    ensures r.Some? ==> r.value < |rows| && key(rows[r.value]) == id
    ensures r.None? ==> forall k :: 0 <= k < |rows| ==> key(rows[k]) != id
    decreases |rows|
  {
    if rows == [] then None
    else if key(rows[0]) == id then Some(0)
    else match IndexOf(rows[1..], key, id)
      case None => None
      case Some(k) => Some(k + 1)
  }

  /** The key of the row at position `i`. */
  function KeyAt<T>(rows: seq<T>, key: T -> int, i: nat): int
    requires i < |rows|
  {
    key(rows[i])
  }

  /** Rows are kept in increasing id order (the database hands ids out in increasing order). */
  ghost predicate IdsIncreasing<T>(rows: seq<T>, key: T -> int)
  {
    forall i, j :: 0 <= i < j < |rows| ==> KeyAt(rows, key, i) < KeyAt(rows, key, j)
  }

  ghost predicate IdsDecreasing<T>(rows: seq<T>, key: T -> int)
  {
    forall i, j :: 0 <= i < j < |rows| ==> KeyAt(rows, key, i) > KeyAt(rows, key, j)
  }

  /** Every id is positive and below the next id to be handed out, which is positive too. */
  ghost predicate IdsBelow<T>(rows: seq<T>, key: T -> int, next: int)
  {
    1 <= next && forall i :: 0 <= i < |rows| ==> 1 <= key(rows[i]) < next
  }

  /** Inserting a row under the next id keeps ids increasing and below the advanced counter. */
  lemma AppendKeepsIds<T>(rows: seq<T>, key: T -> int, x: T, next: int)
    requires IdsIncreasing(rows, key) && IdsBelow(rows, key, next) && key(x) == next
    ensures IdsIncreasing(rows + [x], key) && IdsBelow(rows + [x], key, next + 1)
  {
    var r := rows + [x];
    forall i | 0 <= i < |r| ensures 1 <= key(r[i]) < next + 1 {
      if i < |rows| { assert r[i] == rows[i]; }
    }
    forall i, j | 0 <= i < j < |r| ensures KeyAt(r, key, i) < KeyAt(r, key, j) {
      assert r[i] == rows[i];
      if j < |rows| { assert r[j] == rows[j] && KeyAt(rows, key, i) < KeyAt(rows, key, j); }
    }
  }

  lemma PrefixKeepsIds<T>(rows: seq<T>, key: T -> int, n: nat)
    requires n <= |rows| && IdsIncreasing(rows, key)
    ensures IdsIncreasing(rows[..n], key)
  {
    var p := rows[..n];
    forall i, j | 0 <= i < j < |p| ensures KeyAt(p, key, i) < KeyAt(p, key, j) {
      assert KeyAt(rows, key, i) < KeyAt(rows, key, j);
    }
  }

  /** Rewriting a row without changing its key keeps ids increasing. */
  lemma UpdateKeepsIds<T>(rows: seq<T>, key: T -> int, k: nat, x: T)
    requires k < |rows| && key(x) == key(rows[k]) && IdsIncreasing(rows, key)
    ensures IdsIncreasing(rows[k := x], key)
  {
    var r := rows[k := x];
    forall i, j | 0 <= i < j < |r| ensures KeyAt(r, key, i) < KeyAt(r, key, j) {
      assert KeyAt(r, key, i) == KeyAt(rows, key, i) && KeyAt(r, key, j) == KeyAt(rows, key, j);
    }
  }

  /** Deleting the row at position `i`. */
  function RemoveAt<T>(rows: seq<T>, i: nat): (r: seq<T>)
    requires i < |rows|
    ensures |r| == |rows| - 1
    ensures forall k :: 0 <= k < i ==> r[k] == rows[k]
    ensures forall k :: i <= k < |r| ==> r[k] == rows[k + 1]
  {
    rows[..i] + rows[i + 1..]
  }

  lemma RemoveAtKeepsIds<T>(rows: seq<T>, key: T -> int, i: nat, next: int)
    requires i < |rows|
    requires IdsIncreasing(rows, key) && IdsBelow(rows, key, next)
    ensures IdsIncreasing(RemoveAt(rows, i), key) && IdsBelow(RemoveAt(rows, i), key, next)
  {
    var r := RemoveAt(rows, i);
    forall a, b | 0 <= a < b < |r| ensures KeyAt(r, key, a) < KeyAt(r, key, b) {
      var a', b' := if a < i then a else a + 1, if b < i then b else b + 1;
      assert r[a] == rows[a'] && r[b] == rows[b'];
      assert KeyAt(rows, key, a') < KeyAt(rows, key, b');
    }
  }

  /** A lookup that succeeds still succeeds after another row is deleted. */
  lemma IndexOfRemoveAt<T>(rows: seq<T>, key: T -> int, i: nat, id: int)
    requires i < |rows| && IndexOf(rows, key, id).Some? && key(rows[i]) != id
    ensures IndexOf(RemoveAt(rows, i), key, id).Some?
  {
    var k := IndexOf(rows, key, id).value;
    var r := RemoveAt(rows, i);
    var k' := if k < i then k else k - 1;
    assert r[k'] == rows[k];
  }

  /** Appending a row moves no lookup that already succeeds: the first row with the key stays first. */
  lemma {:induction false} IndexOfAppend<T>(rows: seq<T>, key: T -> int, x: T, id: int)
    requires IndexOf(rows, key, id).Some?
    ensures IndexOf(rows + [x], key, id) == IndexOf(rows, key, id)
    decreases |rows|
  {
    if key(rows[0]) != id {
      assert (rows + [x])[1..] == rows[1..] + [x];
      IndexOfAppend(rows[1..], key, x, id);
    }
  }

  /** Changing a row without changing its key moves no lookup. */
  lemma {:induction false} IndexOfSameKeys<T>(rows: seq<T>, key: T -> int, i: nat, x: T, id: int)
    requires i < |rows| && key(x) == key(rows[i])
    ensures IndexOf(rows[i := x], key, id) == IndexOf(rows, key, id)
    decreases |rows|
  {
    var r := rows[i := x];
    if i > 0 {
      assert r[1..] == rows[1..][i - 1 := x];
      IndexOfSameKeys(rows[1..], key, i - 1, x, id);
    }
  }

  /** The rows of a table that belong to subscriber `sid`, in table order. */
  function OwnedBy<T(==,!new)>(rows: seq<T>, owner: T -> int, sid: int): (r: seq<T>)
    ensures |r| <= |rows|
    ensures forall x :: x in r <==> x in rows && owner(x) == sid
    decreases |rows|
  {
    if rows == [] then []
    else
      var last := rows[|rows| - 1];
      assert forall x :: x in rows <==> x in rows[..|rows| - 1] || x == last;
      OwnedBy(rows[..|rows| - 1], owner, sid) + (if owner(last) == sid then [last] else [])
  }

  /** The table after `DELETE ... WHERE subscriber_id = sid`. */
  function Without<T(==,!new)>(rows: seq<T>, owner: T -> int, sid: int): (r: seq<T>)
    ensures |r| <= |rows|
    ensures forall x :: x in r <==> x in rows && owner(x) != sid
    decreases |rows|
  {
    if rows == [] then []
    else
      var last := rows[|rows| - 1];
      assert forall x :: x in rows <==> x in rows[..|rows| - 1] || x == last;
      Without(rows[..|rows| - 1], owner, sid) + (if owner(last) != sid then [last] else [])
  }

  lemma {:induction false} OwnedByConcat<T(!new)>(a: seq<T>, b: seq<T>, owner: T -> int, sid: int)
    ensures OwnedBy(a + b, owner, sid) == OwnedBy(a, owner, sid) + OwnedBy(b, owner, sid)
    decreases |b|
  {
    if b != [] {
      var b' := b[..|b| - 1];
      assert (a + b)[..|a + b| - 1] == a + b';
      OwnedByConcat(a, b', owner, sid);
    } else {
      assert a + b == a;
    }
  }

  /** No row of another owner is selected. */
  lemma {:induction false} OwnedByNone<T(!new)>(rows: seq<T>, owner: T -> int, sid: int)
    requires forall i :: 0 <= i < |rows| ==> owner(rows[i]) != sid
    ensures OwnedBy(rows, owner, sid) == []
    decreases |rows|
  {
    if rows != [] {
      OwnedByNone(rows[..|rows| - 1], owner, sid);
    }
  }

  /** Rows that all belong to `sid` are selected whole. */
  lemma {:induction false} OwnedByAll<T(!new)>(rows: seq<T>, owner: T -> int, sid: int)
    requires forall i :: 0 <= i < |rows| ==> owner(rows[i]) == sid
    ensures OwnedBy(rows, owner, sid) == rows
    decreases |rows|
  {
    if rows != [] {
      var init := rows[..|rows| - 1];
      assert forall i :: 0 <= i < |init| ==> owner(init[i]) == sid by {
        forall i | 0 <= i < |init| ensures owner(init[i]) == sid { assert init[i] == rows[i]; }
      }
      OwnedByAll(init, owner, sid);
      assert rows == init + [rows[|rows| - 1]];
    }
  }

  /** After removing the rows of `sid`, none of them is left. */
  lemma {:induction false} OwnedByWithoutSelf<T(!new)>(rows: seq<T>, owner: T -> int, sid: int)
    ensures OwnedBy(Without(rows, owner, sid), owner, sid) == []
  {
    var w := Without(rows, owner, sid);
    forall i | 0 <= i < |w| ensures owner(w[i]) != sid {
      assert w[i] in w;
    }
    OwnedByNone(w, owner, sid);
  }

  lemma {:induction false} OwnedByWithout<T(!new)>(rows: seq<T>, owner: T -> int, sid: int, other: int)
    requires other != sid
    ensures OwnedBy(Without(rows, owner, sid), owner, other) == OwnedBy(rows, owner, other)
    decreases |rows|
  {
    if rows != [] {
      var init, last := rows[..|rows| - 1], rows[|rows| - 1];
      OwnedByWithout(init, owner, sid, other);
      var tail := if owner(last) != sid then [last] else [];
      OwnedByConcat(Without(init, owner, sid), tail, owner, other);
      if owner(last) != sid {
        assert OwnedBy(tail, owner, other) == OwnedBy([], owner, other) + (if owner(last) == other then [last] else []);
      }
    }
  }

  /** Deleting a subscriber's rows removes exactly as many rows as the subscriber owned. */
  lemma {:induction false} WithoutCount<T(!new)>(rows: seq<T>, owner: T -> int, sid: int)
    ensures |Without(rows, owner, sid)| == |rows| - |OwnedBy(rows, owner, sid)|
    decreases |rows|
  {
    if rows != [] {
      WithoutCount(rows[..|rows| - 1], owner, sid);
    }
  }

  lemma {:induction false} WithoutKeepsIds<T(!new)>(rows: seq<T>, owner: T -> int, sid: int, key: T -> int, next: int)
    requires IdsIncreasing(rows, key) && IdsBelow(rows, key, next)
    ensures IdsIncreasing(Without(rows, owner, sid), key) && IdsBelow(Without(rows, owner, sid), key, next)
    decreases |rows|
  {
    if rows != [] {
      var init, last := rows[..|rows| - 1], rows[|rows| - 1];
      PrefixKeepsIds(rows, key, |rows| - 1);
      WithoutKeepsIds(init, owner, sid, key, next);
      var w := Without(init, owner, sid);
      forall x | x in w ensures key(x) < key(last) {
        var j :| 0 <= j < |init| && init[j] == x;
        assert rows[j] == x && KeyAt(rows, key, j) < KeyAt(rows, key, |rows| - 1);
      }
      var r := Without(rows, owner, sid);
      assert r == w + (if owner(last) != sid then [last] else []);
      forall i | 0 <= i < |r| ensures 1 <= key(r[i]) < next {
        if i < |w| { assert r[i] in w; assert r[i] in rows; }
      }
      forall i, j | 0 <= i < j < |r| ensures KeyAt(r, key, i) < KeyAt(r, key, j) {
        if j == |w| { assert r[i] in w; } else { assert KeyAt(w, key, i) < KeyAt(w, key, j); }
      }
    }
  }

  /** SUM(column) over some rows; the SQL NULL of an empty SUM is read as 0. */
  function SumOf<T>(rows: seq<T>, column: T -> int): int
    decreases |rows|
  {
    if rows == [] then 0 else SumOf(rows[..|rows| - 1], column) + column(rows[|rows| - 1])
  }

  lemma {:induction false} SumOfConcat<T>(a: seq<T>, b: seq<T>, column: T -> int)
    ensures SumOf(a + b, column) == SumOf(a, column) + SumOf(b, column)
    decreases |b|
  {
    if b != [] {
      var b' := b[..|b| - 1];
      assert (a + b)[..|a + b| - 1] == a + b';
      SumOfConcat(a, b', column);
    } else {
      assert a + b == a;
    }
  }

  /** ORDER BY id DESC over rows kept in increasing id order. */
  function Reverse<T>(s: seq<T>): (r: seq<T>)
    ensures |r| == |s|
    ensures forall i :: 0 <= i < |s| ==> r[i] == s[|s| - 1 - i]
  {
    seq(|s|, i requires 0 <= i < |s| => s[|s| - 1 - i])
  }

  lemma ReverseMembers<T>(s: seq<T>)
    ensures forall x :: x in Reverse(s) <==> x in s
  {
    var r := Reverse(s);
    forall x | x in s ensures x in r {
      var j :| 0 <= j < |s| && s[j] == x;
      assert r[|s| - 1 - j] == x;
    }
  }

  lemma ReverseOrdered<T>(s: seq<T>, key: T -> int)
    requires IdsIncreasing(s, key)
    ensures IdsDecreasing(Reverse(s), key)
  {
    var r := Reverse(s);
    forall i, j | 0 <= i < j < |r| ensures KeyAt(r, key, i) > KeyAt(r, key, j) {
      assert KeyAt(s, key, |s| - 1 - j) < KeyAt(s, key, |s| - 1 - i);
    }
  }

  /** The rows for which `keep` holds, in table order (a WHERE clause). */
  function Select<T(==,!new)>(rows: seq<T>, keep: T -> bool): (r: seq<T>)
    ensures forall x :: x in r <==> x in rows && keep(x)
    decreases |rows|
  {
    if rows == [] then []
    else
      var last := rows[|rows| - 1];
      assert forall x :: x in rows <==> x in rows[..|rows| - 1] || x == last;
      Select(rows[..|rows| - 1], keep) + (if keep(last) then [last] else [])
  }

  lemma {:induction false} SelectKeepsOrder<T(!new)>(rows: seq<T>, keep: T -> bool, key: T -> int)
    requires IdsIncreasing(rows, key)
    ensures IdsIncreasing(Select(rows, keep), key)
    decreases |rows|
  {
    if rows != [] {
      var init, last := rows[..|rows| - 1], rows[|rows| - 1];
      PrefixKeepsIds(rows, key, |rows| - 1);
      SelectKeepsOrder(init, keep, key);
      var w := Select(init, keep);
      var r := Select(rows, keep);
      assert r == w + (if keep(last) then [last] else []);
      forall i, j | 0 <= i < j < |r| ensures KeyAt(r, key, i) < KeyAt(r, key, j) {
        if j == |w| {
          assert r[i] in init;
          var m :| 0 <= m < |init| && init[m] == r[i];
          assert rows[m] == r[i] && KeyAt(rows, key, m) < KeyAt(rows, key, |rows| - 1);
        } else {
          assert KeyAt(w, key, i) < KeyAt(w, key, j);
        }
      }
    }
  }

  lemma SelectNone<T(!new)>(rows: seq<T>, keep: T -> bool)
    requires forall x :: x in rows ==> !keep(x)
    ensures Select(rows, keep) == []
  {
  }

  /** The set of keys of a table. */
  function IdSet<T>(rows: seq<T>, key: T -> int): set<int>
    decreases |rows|
  {
    if rows == [] then {} else IdSet(rows[..|rows| - 1], key) + {key(rows[|rows| - 1])}
  }

  ghost predicate UniqueUsernames(users: seq<User>)
  {
    forall i, j :: 0 <= i < j < |users| ==> users[i].username != users[j].username
  }

  /** Price.operation_type is a unique column. */
  ghost predicate UniqueOperationTypes(prices: seq<Price>)
  {
    forall i, j :: 0 <= i < j < |prices| ==> prices[i].operationType != prices[j].operationType
  }

  /** Every row names a subscriber that exists (the subscriber_id foreign key). */
  ghost predicate OwnersExist<T>(rows: seq<T>, owner: T -> int, subscribers: seq<Subscriber>)
  {
    forall i {:trigger IndexOf(subscribers, SubscriberId, owner(rows[i]))} :: 0 <= i < |rows| ==> IndexOf(subscribers, SubscriberId, owner(rows[i])).Some?
  }

  /** The subscriber a single row refers to exists. */
  lemma OwnerExists<T>(rows: seq<T>, owner: T -> int, subscribers: seq<Subscriber>, i: nat)
    requires i < |rows| && OwnersExist(rows, owner, subscribers)
    ensures IndexOf(subscribers, SubscriberId, owner(rows[i])).Some?
  {
  }

  lemma RemoveAtKeepsOwners<T>(rows: seq<T>, owner: T -> int, subscribers: seq<Subscriber>, i: nat)
    requires i < |rows| && OwnersExist(rows, owner, subscribers)
    ensures OwnersExist(RemoveAt(rows, i), owner, subscribers)
  {
    var r := RemoveAt(rows, i);
    forall k | 0 <= k < |r| ensures IndexOf(subscribers, SubscriberId, owner(r[k])).Some? {
      assert r[k] == rows[if k < i then k else k + 1];
    }
  }

  lemma AppendKeepsOwners<T>(rows: seq<T>, owner: T -> int, subscribers: seq<Subscriber>, x: T)
    requires OwnersExist(rows, owner, subscribers) && IndexOf(subscribers, SubscriberId, owner(x)).Some?
    ensures OwnersExist(rows + [x], owner, subscribers)
  {
    var r := rows + [x];
    forall k | 0 <= k < |r| ensures IndexOf(subscribers, SubscriberId, owner(r[k])).Some? {
      if k < |rows| { assert r[k] == rows[k]; }
    }
  }

  lemma WithoutKeepsOwners<T(!new)>(rows: seq<T>, owner: T -> int, subscribers: seq<Subscriber>, sid: int)
    requires OwnersExist(rows, owner, subscribers)
    ensures OwnersExist(Without(rows, owner, sid), owner, subscribers)
  {
    var w := Without(rows, owner, sid);
    forall i | 0 <= i < |w| ensures IndexOf(subscribers, SubscriberId, owner(w[i])).Some? {
      assert w[i] in w;
      var j :| 0 <= j < |rows| && rows[j] == w[i];
    }
  }

  lemma SubscriberUpdateKeepsOwners<T>(rows: seq<T>, owner: T -> int, subscribers: seq<Subscriber>, k: nat, s: Subscriber)
    requires k < |subscribers| && s.id == subscribers[k].id
    requires OwnersExist(rows, owner, subscribers)
    ensures OwnersExist(rows, owner, subscribers[k := s])
  {
    forall i | 0 <= i < |rows| ensures IndexOf(subscribers[k := s], SubscriberId, owner(rows[i])).Some? {
      IndexOfSameKeys(subscribers, SubscriberId, k, s, owner(rows[i]));
    }
  }

  lemma SubscriberAppendKeepsOwners<T>(rows: seq<T>, owner: T -> int, subscribers: seq<Subscriber>, s: Subscriber)
    requires OwnersExist(rows, owner, subscribers)
    ensures OwnersExist(rows, owner, subscribers + [s])
  {
    forall i | 0 <= i < |rows| ensures IndexOf(subscribers + [s], SubscriberId, owner(rows[i])).Some? {
      IndexOfAppend(subscribers, SubscriberId, s, owner(rows[i]));
    }
  }

  /** Deleting a subscriber together with all of its rows keeps every reference valid. */
  lemma CascadeKeepsOwners<T(!new)>(rows: seq<T>, owner: T -> int, subscribers: seq<Subscriber>, k: nat)
    requires k < |subscribers|
    requires OwnersExist(rows, owner, subscribers)
    ensures OwnersExist(Without(rows, owner, subscribers[k].id), owner, RemoveAt(subscribers, k))
  {
    var w := Without(rows, owner, subscribers[k].id);
    forall i | 0 <= i < |w| ensures IndexOf(RemoveAt(subscribers, k), SubscriberId, owner(w[i])).Some? {
      assert w[i] in rows;
      var j :| 0 <= j < |rows| && rows[j] == w[i];
      IndexOfRemoveAt(subscribers, SubscriberId, k, owner(w[i]));
    }
  }

  /**
   * The database. Each table is a sequence in insertion order; the counters are
   * the ids the database hands out next.
   */
  class Database {
    var users: seq<User>
    var subscribers: seq<Subscriber>
    var phones: seq<Phone>
    var orders: seq<Order>
    var payments: seq<Payment>
    var prices: seq<Price>
    var settings: Settings
    var nextUserId: int
    var nextSubscriberId: int
    var nextPhoneId: int
    var nextOrderId: int
    var nextPaymentId: int
    var nextPriceId: int

    /**
     * The table constraints the handlers keep: primary keys (unique ids, handed
     * out in increasing order), unique usernames, unique operation types, and
     * subscriber_id references of orders and phones. Payments are not included:
     * add_payment inserts the row before it looks the subscriber up.
     */
    ghost predicate Valid()
      reads this
    {
      && IdsIncreasing(users, UserId) && IdsBelow(users, UserId, nextUserId)
      && IdsIncreasing(subscribers, SubscriberId) && IdsBelow(subscribers, SubscriberId, nextSubscriberId)
      && IdsIncreasing(orders, OrderId) && IdsBelow(orders, OrderId, nextOrderId)
      && UniqueUsernames(users)
      && UniqueOperationTypes(prices)
      && OwnersExist(orders, OrderOwner, subscribers)
      && OwnersExist(phones, PhoneOwner, subscribers)
    }

    /** An empty database. */
    constructor ()
      ensures Valid()
      ensures users == [] && subscribers == [] && phones == [] && orders == [] && payments == [] && prices == []
      ensures settings == map[]
      ensures nextUserId == 1 && nextSubscriberId == 1 && nextPhoneId == 1
      ensures nextOrderId == 1 && nextPaymentId == 1 && nextPriceId == 1
    {
      users, subscribers, phones, orders, payments, prices := [], [], [], [], [], [];
      settings := map[];
      nextUserId, nextSubscriberId, nextPhoneId := 1, 1, 1;
      nextOrderId, nextPaymentId, nextPriceId := 1, 1, 1;
    }
  }
}
