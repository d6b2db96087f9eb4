// The admin blueprint: the admin_required guard, the user table (create,
// edit, delete), the price catalog (seeding on first view, partial update)
// and the settings form whose handler no longer changes anything.

module Admin {
  import opened Models
  import opened Store
  import opened Orders

  /** The logged-in caller: whether a session exists, its user id and its role. */
  datatype Actor = Actor(authenticated: bool, id: int, role: string)

  /** admin_required lets the request through iff the caller is authenticated with role exactly 'admin'. */
  predicate AdminRequired(actor: Actor)
  {
    actor.authenticated && actor.role == "admin"
  }

  // ---------------------------------------------------------------------------
  // users

  /** User.query.filter_by(username=...).first(): the position of the user with that name. */
  function FindUser(users: seq<User>, username: string): (r: Option<nat>)
    ensures r.Some? ==> r.value < |users| && users[r.value].username == username
    ensures r.None? ==> forall i :: 0 <= i < |users| ==> users[i].username != username
    decreases |users|
  {
    if users == [] then None
    else if users[0].username == username then Some(0)
    else match FindUser(users[1..], username)
      case None => None
      case Some(i) => Some(i + 1)
  }

  /** With unique names the lookup finds the one user carrying the name. */
  lemma FindUserUnique(users: seq<User>, i: nat)
    requires UniqueUsernames(users) && i < |users|
    ensures FindUser(users, users[i].username) == Some(i)
  {
    var r := FindUser(users, users[i].username);
    assert r.Some?;
    SameNameSameUser(users, r.value, i);
  }

  /** Two positions carrying the same name are the same position. */
  lemma SameNameSameUser(users: seq<User>, a: nat, b: nat)
    requires UniqueUsernames(users) && a < |users| && b < |users|
    requires users[a].username == users[b].username
    ensures a == b
  {
  }

  /** Some user other than the one at position `k` already has the name. */
  predicate NameTakenByOther(users: seq<User>, k: nat, username: string)
  {
    exists j :: 0 <= j < |users| && j != k && users[j].username == username
  }

  lemma AppendKeepsUsernames(users: seq<User>, u: User)
    requires UniqueUsernames(users) && FindUser(users, u.username).None?
    ensures UniqueUsernames(users + [u])
  {
    var r := users + [u];
    forall i, j | 0 <= i < j < |r| ensures r[i].username != r[j].username {
      assert r[i] == users[i];
      if j < |users| { assert r[j] == users[j]; }
    }
  }

  lemma UpdateKeepsUsernames(users: seq<User>, k: nat, u: User)
    requires UniqueUsernames(users) && k < |users| && !NameTakenByOther(users, k, u.username)
    ensures UniqueUsernames(users[k := u])
  {
    var r := users[k := u];
    forall i, j | 0 <= i < j < |r| ensures r[i].username != r[j].username {
      if i == k {
        assert r[j] == users[j];
      } else if j == k {
        assert r[i] == users[i];
      } else {
        assert r[i] == users[i] && r[j] == users[j];
      }
    }
  }

  lemma RemoveAtKeepsUsernames(users: seq<User>, k: nat)
    requires UniqueUsernames(users) && k < |users|
    ensures UniqueUsernames(RemoveAt(users, k))
  {
    var r := RemoveAt(users, k);
    forall a, b | 0 <= a < b < |r| ensures r[a].username != r[b].username {
      var a', b' := if a < k then a else a + 1, if b < k then b else b + 1;
      assert r[a] == users[a'] && r[b] == users[b'];
    }
  }

  /** Ids increase along the table, so no other row carries the id of the deleted one. */
  lemma RemovedUserGone(users: seq<User>, k: nat)
    requires IdsIncreasing(users, UserId) && k < |users|
    ensures IndexOf(RemoveAt(users, k), UserId, users[k].id).None?
  {
    var r := RemoveAt(users, k);
    forall i | 0 <= i < |r| ensures UserId(r[i]) != users[k].id {
      var i' := if i < k then i else i + 1;
      assert r[i] == users[i'];
      if i' < k {
        assert KeyAt(users, UserId, i') < KeyAt(users, UserId, k);
      } else {
        assert KeyAt(users, UserId, k) < KeyAt(users, UserId, i');
      }
    }
  }

  /** Writes back a users table that keeps to the ids handed out so far. */
  method StoreUsers(db: Database, users: seq<User>)
    requires db.Valid()
    requires IdsIncreasing(users, UserId) && IdsBelow(users, UserId, db.nextUserId) && UniqueUsernames(users)
    modifies db`users
    ensures db.Valid()
    ensures db.users == users
  {
    db.users := users;
  }

  /** Writes back the users table together with the advanced id counter. */
  method StoreNewUsers(db: Database, users: seq<User>, nextId: int)
    requires db.Valid()
    requires IdsIncreasing(users, UserId) && IdsBelow(users, UserId, nextId) && UniqueUsernames(users)
    modifies db`users, db`nextUserId
    ensures db.Valid()
    ensures db.users == users && db.nextUserId == nextId
  {
    db.users, db.nextUserId := users, nextId;
  }

  /**
   * admin.create_user: refused for a non-admin; refused when the name is in
   * use; otherwise one user under the next id, with the given role or 'user'
   * when the form has none. `hashed` is the password hash werkzeug computes.
   */
  method CreateUser(db: Database, actor: Actor, username: string, hashed: string, role: Option<string>, now: Timestamp)
    returns (r: Result<int>)
    requires db.Valid()
    modifies db`users, db`nextUserId
    ensures db.Valid()
    ensures !AdminRequired(actor) ==> r == Err(Forbidden)
    ensures AdminRequired(actor) && FindUser(old(db.users), username).Some? ==> r == Err(UsernameTaken)
    ensures r.Err? ==> db.users == old(db.users) && db.nextUserId == old(db.nextUserId)
    ensures r.Ok? <==> AdminRequired(actor) && FindUser(old(db.users), username).None?
    ensures r.Ok? ==>
      && r.value == old(db.nextUserId)
      && db.users == old(db.users) + [User(r.value, username, hashed, role.GetOr("user"), now)]
      && db.nextUserId == old(db.nextUserId) + 1
  {
    if !AdminRequired(actor) {
      return Err(Forbidden);
    }
    if FindUser(db.users, username).Some? {
      return Err(UsernameTaken);
    }
    var id := db.nextUserId;
    var user := User(id, username, hashed, role.GetOr("user"), now);
    AppendKeepsIds(db.users, UserId, user, id);
    AppendKeepsUsernames(db.users, user);
    StoreNewUsers(db, db.users + [user], id + 1);
    r := Ok(id);
  }

  /** The row edit_user writes: new name and role; the hash changes only for a non-empty password. */
  function EditedUser(u: User, username: string, role: string, password: string, hashed: string): (e: User)
    ensures e.id == u.id && e.createdAt == u.createdAt
    ensures e.username == username && e.role == role
    ensures e.passwordHash == (if password == "" then u.passwordHash else hashed)
  {
    u.(username := username, role := role, passwordHash := if password != "" then hashed else u.passwordHash)
  }

  /** An empty password keeps the stored hash. */
  lemma EmptyPasswordKeepsHash(u: User, username: string, role: string, hashed: string)
    ensures EditedUser(u, username, role, "", hashed).passwordHash == u.passwordHash
    ensures EditedUser(EditedUser(u, username, role, "", hashed), u.username, u.role, "", hashed) == u
  {
  }

  /**
   * admin.edit_user: refused for a non-admin; 404 for an unknown id; the
   * commit fails when another user already has the new name; otherwise the
   * row is rewritten in place.
   */
  method EditUser(db: Database, actor: Actor, id: int, username: string, role: string, password: string, hashed: string)
    returns (r: Result<()>)
    requires db.Valid()
    modifies db`users
    ensures db.Valid()
    ensures !AdminRequired(actor) ==> r == Err(Forbidden)
    ensures AdminRequired(actor) && IndexOf(old(db.users), UserId, id).None? ==> r == Err(NotFound)
    ensures r.Err? ==> db.users == old(db.users)
    ensures AdminRequired(actor) && IndexOf(old(db.users), UserId, id).Some? ==>
      var k := IndexOf(old(db.users), UserId, id).value;
      && (NameTakenByOther(old(db.users), k, username) ==> r == Err(IntegrityError))
      && (!NameTakenByOther(old(db.users), k, username) ==>
            r == Ok(()) && db.users == old(db.users)[k := EditedUser(old(db.users)[k], username, role, password, hashed)])
  {
    if !AdminRequired(actor) {
      return Err(Forbidden);
    }
    var found := IndexOf(db.users, UserId, id);
    if found.None? {
      return Err(NotFound);
    }
    var k := found.value;
    if NameTakenByOther(db.users, k, username) {
      return Err(IntegrityError);
    }
    var edited := EditedUser(db.users[k], username, role, password, hashed);
    UpdateKeepsIds(db.users, UserId, k, edited);
    UpdateKeepsUsernames(db.users, k, edited);
    assert IdsBelow(db.users[k := edited], UserId, db.nextUserId) by {
      var u := db.users[k := edited];
      forall i | 0 <= i < |u| ensures 1 <= UserId(u[i]) < db.nextUserId {
        assert UserId(u[i]) == UserId(db.users[i]);
      }
    }
    StoreUsers(db, db.users[k := edited]);
    r := Ok(());
  }

  /**
   * admin.delete_user: refused for a non-admin; refused when the caller names
   * itself (checked before the lookup); 404 for an unknown id; otherwise
   * exactly that row goes.
   */
  method DeleteUser(db: Database, actor: Actor, id: int) returns (r: Result<()>)
    requires db.Valid()
    modifies db`users
    ensures db.Valid()
    ensures !AdminRequired(actor) ==> r == Err(Forbidden)
    ensures AdminRequired(actor) && id == actor.id ==> r == Err(CannotDeleteSelf)
    ensures AdminRequired(actor) && id != actor.id && IndexOf(old(db.users), UserId, id).None? ==> r == Err(NotFound)
    ensures r.Err? ==> db.users == old(db.users)
    ensures r.Ok? <==> AdminRequired(actor) && id != actor.id && IndexOf(old(db.users), UserId, id).Some?
    ensures r.Ok? ==>
      && db.users == RemoveAt(old(db.users), IndexOf(old(db.users), UserId, id).value)
      && IndexOf(db.users, UserId, id).None?
  {
    if !AdminRequired(actor) {
      return Err(Forbidden);
    }
    if id == actor.id {
      return Err(CannotDeleteSelf);
    }
    var found := IndexOf(db.users, UserId, id);
    if found.None? {
      return Err(NotFound);
    }
    var k := found.value;
    RemoveAtKeepsIds(db.users, UserId, k, db.nextUserId);
    RemoveAtKeepsUsernames(db.users, k);
    RemovedUserGone(db.users, k);
    StoreUsers(db, RemoveAt(db.users, k));
    r := Ok(());
  }

  // ---------------------------------------------------------------------------
  // prices

  /** The catalog admin.prices seeds into an empty table: (type, legal, individual), in cents. */
  const DefaultCatalog: seq<(string, Cents, Cents)> :=
    [(NewBottle, 10100, 10500), (Exchange, 6100, 6500), (WaterOnly, 1100, 1500)]

  /** The seeded rows, under consecutive ids from `firstId`. */
  function DefaultPrices(firstId: int): (r: seq<Price>)
    ensures |r| == |DefaultCatalog|
  {
    seq(|DefaultCatalog|, j requires 0 <= j < |DefaultCatalog| =>
      Price(firstId + j, DefaultCatalog[j].0, DefaultCatalog[j].1, DefaultCatalog[j].2))
  }

  /** The seeded catalog holds exactly the three operation types, once each. */
  lemma DefaultPricesRows(firstId: int)
    ensures DefaultPrices(firstId) == [
      Price(firstId, NewBottle, 10100, 10500),
      Price(firstId + 1, Exchange, 6100, 6500),
      Price(firstId + 2, WaterOnly, 1100, 1500)]
    ensures UniqueOperationTypes(DefaultPrices(firstId))
  {
    var d := DefaultPrices(firstId);
    assert d[0] == Price(firstId, NewBottle, 10100, 10500);
    assert d[1] == Price(firstId + 1, Exchange, 6100, 6500);
    assert d[2] == Price(firstId + 2, WaterOnly, 1100, 1500);
  }

  /**
   * Seeding changes no price: every order is priced from the seeded catalog
   * exactly as calculate_order_total prices it from an empty one.
   */
  lemma SeededCatalogMatchesFallback(firstId: int, clientType: string, n: int, e: int, w: int)
    ensures CalculateOrderTotal(PriceMap(DefaultPrices(firstId)), clientType, n, e, w)
         == CalculateOrderTotal(map[], clientType, n, e, w)
  {
    DefaultPricesRows(firstId);
    var d := DefaultPrices(firstId);
    PriceMapUnique(d, 0);
    PriceMapUnique(d, 1);
    PriceMapUnique(d, 2);
  }

  /** Writes back the price table. */
  method StorePrices(db: Database, prices: seq<Price>)
    requires db.Valid() && UniqueOperationTypes(prices)
    modifies db`prices
    ensures db.Valid()
    ensures db.prices == prices
  {
    db.prices := prices;
  }

  /** Writes back the price table together with the advanced id counter. */
  method StoreNewPrices(db: Database, prices: seq<Price>, nextId: int)
    requires db.Valid() && UniqueOperationTypes(prices)
    modifies db`prices, db`nextPriceId
    ensures db.Valid()
    ensures db.prices == prices && db.nextPriceId == nextId
  {
    db.prices, db.nextPriceId := prices, nextId;
  }

  /**
   * admin.prices: refused for a non-admin; an empty catalog is seeded with
   * the three default rows (one insert per row, under the next ids) before it
   * is shown; a non-empty one is shown unchanged.
   */
  method ViewPrices(db: Database, actor: Actor) returns (r: Result<seq<Price>>)
    requires db.Valid()
    modifies db`prices, db`nextPriceId
    ensures db.Valid()
    ensures !AdminRequired(actor) ==> r == Err(Forbidden)
    ensures !AdminRequired(actor) || old(db.prices) != [] ==>
      db.prices == old(db.prices) && db.nextPriceId == old(db.nextPriceId)
    ensures AdminRequired(actor) ==> r == Ok(db.prices)
    ensures AdminRequired(actor) && old(db.prices) == [] ==>
      db.prices == DefaultPrices(old(db.nextPriceId)) && db.nextPriceId == old(db.nextPriceId) + |DefaultCatalog|
  {
    if !AdminRequired(actor) {
      return Err(Forbidden);
    }
    if db.prices == [] {
      var rows: seq<Price> := [];
      var nextId := db.nextPriceId;
      for i := 0 to |DefaultCatalog|
        invariant rows == DefaultPrices(db.nextPriceId)[..i]
        invariant nextId == db.nextPriceId + i
      {
        var (op, legal, individual) := DefaultCatalog[i];
        rows := rows + [Price(nextId, op, legal, individual)];
        nextId := nextId + 1;
      }
      assert DefaultPrices(db.nextPriceId)[..|DefaultCatalog|] == DefaultPrices(db.nextPriceId);
      DefaultPricesRows(db.nextPriceId);
      StoreNewPrices(db, rows, nextId);
    }
    r := Ok(db.prices);
  }

  /** The row update_prices leaves behind: each price replaced only when the form supplies it for this row's id. */
  function UpdatedPrice(p: Price, legal: map<int, Cents>, individual: map<int, Cents>): (q: Price)
    ensures q.id == p.id && q.operationType == p.operationType
    ensures q.legalPrice == (if p.id in legal then legal[p.id] else p.legalPrice)
    ensures q.individualPrice == (if p.id in individual then individual[p.id] else p.individualPrice)
  {
    var q := if p.id in legal then p.(legalPrice := legal[p.id]) else p;
    if p.id in individual then q.(individualPrice := individual[p.id]) else q
  }

  /** Submitting the prices a row already has leaves it as it is; an empty form changes nothing. */
  lemma UpdatedPriceUnchanged(p: Price, legal: map<int, Cents>, individual: map<int, Cents>)
    requires p.id in legal ==> legal[p.id] == p.legalPrice
    requires p.id in individual ==> individual[p.id] == p.individualPrice
    ensures UpdatedPrice(p, legal, individual) == p
  {
  }

  /** Updating twice with the same form is updating once. */
  lemma UpdatedPriceIdempotent(p: Price, legal: map<int, Cents>, individual: map<int, Cents>)
    ensures UpdatedPrice(UpdatedPrice(p, legal, individual), legal, individual) == UpdatedPrice(p, legal, individual)
  {
  }

  /** Rewriting prices keeps every operation type where it was. */
  lemma UpdatedPricesKeepTypes(old_: seq<Price>, prices: seq<Price>)
    requires |prices| == |old_|
    requires forall i :: 0 <= i < |prices| ==> prices[i].operationType == old_[i].operationType
    requires UniqueOperationTypes(old_)
    ensures UniqueOperationTypes(prices)
  {
    forall i, j | 0 <= i < j < |prices| ensures prices[i].operationType != prices[j].operationType {
      assert old_[i].operationType != old_[j].operationType;
    }
  }

  /**
   * admin.update_prices: refused for a non-admin; otherwise every row of the
   * catalog is visited in turn and rewritten by UpdatedPrice. `legal` and
   * `individual` are the legal_<id> and individual_<id> fields that parse.
   */
  method UpdatePrices(db: Database, actor: Actor, legal: map<int, Cents>, individual: map<int, Cents>)
    returns (r: Result<()>)
    requires db.Valid()
    modifies db`prices
    ensures db.Valid()
    ensures r.Ok? <==> AdminRequired(actor)
    ensures !AdminRequired(actor) ==> r == Err(Forbidden) && db.prices == old(db.prices)
    ensures |db.prices| == |old(db.prices)|
    ensures AdminRequired(actor) ==>
      forall i :: 0 <= i < |db.prices| ==> db.prices[i] == UpdatedPrice(old(db.prices)[i], legal, individual)
  {
    if !AdminRequired(actor) {
      return Err(Forbidden);
    }
    var prices := db.prices;
    for i := 0 to |prices|
      invariant |prices| == |db.prices|
      invariant forall j :: 0 <= j < i ==> prices[j] == UpdatedPrice(db.prices[j], legal, individual)
      invariant forall j :: i <= j < |prices| ==> prices[j] == db.prices[j]
    {
      prices := prices[i := UpdatedPrice(prices[i], legal, individual)];
    }
    UpdatedPricesKeepTypes(db.prices, prices);
    StorePrices(db, prices);
    r := Ok(());
  }

  // ---------------------------------------------------------------------------
  // settings

  /** admin.update_settings: the promo fields were removed, so it commits nothing new. */
  method UpdateSettings(db: Database, actor: Actor) returns (r: Result<()>)
    ensures r.Ok? <==> AdminRequired(actor)
    ensures r.Err? ==> r.error == Forbidden
  {
    if !AdminRequired(actor) {
      return Err(Forbidden);
    }
    r := Ok(());
  }
}
