/**
 * The in-memory store behind the query and mutation resolvers: the user directory and the
 * catalog as two map fields of one object, one method per resolver.
 * Token generation and the random-number helper are inputs: `freshToken` is the token the
 * generator returns, and `id` / `purchaseId` the number the random helper returns.
 */
module Resolvers {
  import opened Results
  import opened Catalog
  import opened Users

  /** What a resolver raises when it dereferences a lookup that found nothing. */
  datatype Error =
    | UnknownToken            // no user holds the token (logout, purchase)
    | UnknownItem(id: ItemId) // an order line names an item the catalog lacks (purchase)

  class Store {
    /** Username to user record. */
    var users: map<string, User>
    /** Item id to the item's name and remaining quantity. */
    var itemList: map<ItemId, Item>

    /**
     * Every record is stored under its own username, is logged in exactly when it holds a
     * token, and the catalog keeps the seed catalog's keys.
     */
    ghost predicate Valid()
      reads this
    {
      && (forall u :: u in users ==> users[u].username == u && SessionConsistent(users[u]))
      && itemList.Keys == SeedCatalog().Keys
    }

    /** The store at process start: no users, the seed catalog. */
    constructor ()
      ensures Valid()
      ensures users == map[] && itemList == SeedCatalog()
    {
      users := map[];
      itemList := SeedCatalog();
    }

    /** The lookup-by-token the resolvers share: the username of some user holding `t`. */
    method FindHolder(t: string) returns (holder: Option<string>)
      ensures holder.None? <==> !HoldsToken(users, t)
      ensures holder.Some? ==> holder.value in users && users[holder.value].token == Some(t)
    {
      if u :| u in users && users[u].token == Some(t) {
        holder := Some(u);
      } else {
        holder := None;
      }
    }

    /** Query `userProfile`: a user holding `token`, or nothing. */
    method UserProfile(token: string) returns (r: Option<User>)
      requires Valid()
      ensures r.None? <==> !HoldsToken(users, token)
      ensures r.Some? ==> r.value.username in users && users[r.value.username] == r.value
      ensures r.Some? ==> r.value.token == Some(token) && r.value.isLoggedIn
      ensures r.Some? && TokensUnique(users) ==>
        forall u :: u in users && users[u].token == Some(token) ==> users[u] == r.value
    {
      var holder := FindHolder(token);
      if holder.Some? {
        r := Some(users[holder.value]);
      } else {
        r := None;
      }
    }

    /** Query `items`: one entry per catalog key (see `Listing`). */
    function Items(): (r: seq<ItemView>)
      reads this
      ensures |r| == |itemList|
      ensures forall i :: 0 <= i < |r| ==>
        && r[i].id in itemList
        && r[i].name == itemList[r[i].id].name
        && r[i].quantity == itemList[r[i].id].quantity
      ensures forall i :: 0 < i < |r| ==> r[i - 1].id < r[i].id
    {
      Listing(itemList)
    }

    /**
     * Mutation `login`: succeeds exactly when the user exists and the password matches; then
     * the user is logged in with the freshly generated token, and nothing else changes.
     */
    method Login(name: string, password: string, freshToken: string) returns (r: Option<User>)
      requires Valid()
      modifies this`users
      ensures Valid()
      ensures r.Some? <==> name in old(users) && old(users)[name].password == password
      ensures r.Some? ==>
        && r.value.isLoggedIn && r.value.token == Some(freshToken)
        && r.value.username == name && r.value.password == password
        && r.value.id == old(users)[name].id
        && r.value.purchases == old(users)[name].purchases
        && users == old(users)[name := r.value]
      ensures r.None? ==> users == old(users)
      ensures itemList == old(itemList)
      ensures TokensUnique(old(users)) && !HoldsToken(old(users), freshToken) ==> TokensUnique(users)
    {
      if name in users && users[name].password == password {
        var user := users[name].(isLoggedIn := true, token := Some(freshToken));
        users := users[name := user];
        r := Some(user);
        if TokensUnique(old(users)) && !HoldsToken(old(users), freshToken) {
          FreshTokenKeepsUnique(old(users), name, user);
        }
      } else {
        r := None;
      }
    }

    /**
     * Mutation `logout`: the user holding `token` is logged out and its token cleared. When
     * nobody holds `token` the resolver raises before changing anything.
     * `who` names the user that was logged out.
     */
    method Logout(token: string) returns (r: Result<bool, Error>, ghost who: string)
      requires Valid()
      modifies this`users
      ensures Valid()
      ensures r.Success? <==> HoldsToken(old(users), token)
      ensures r.Success? ==>
        && r.value
        && who in old(users) && old(users)[who].token == Some(token)
        && users == old(users)[who := old(users)[who].(isLoggedIn := false, token := None)]
      ensures r.Failure? ==> r.error == UnknownToken && users == old(users)
      ensures itemList == old(itemList)
      ensures r.Success? && TokensUnique(old(users)) ==> TokensUnique(users) && !HoldsToken(users, token)
    {
      var holder := FindHolder(token);
      if holder.None? {
        r, who := Failure(UnknownToken), "";
        return;
      }
      var name := holder.value;
      users := users[name := users[name].(isLoggedIn := false, token := None)];
      who := name;
      r := Success(true);
      if TokensUnique(old(users)) {
        SignOutRevokesToken(old(users), who);
      }
    }

    /**
     * Mutation `register`: stores under `name` a new logged-in record with the given password,
     * the fresh token, no purchases and the random id, replacing any earlier record for
     * `name`; every other user is left as it was.
     */
    method Register(name: string, password: string, freshToken: string, id: RandomId) returns (user: User)
      requires Valid()
      modifies this`users
      ensures Valid()
      ensures user.username == name && user.password == password
      ensures user.isLoggedIn && user.token == Some(freshToken)
      ensures user.purchases == [] && user.id == id
      ensures users == old(users)[name := user]
      ensures itemList == old(itemList)
      ensures TokensUnique(old(users)) && !HoldsToken(old(users), freshToken) ==> TokensUnique(users)
    {
      user := User(id, name, password, true, Some(freshToken), []);
      users := users[name := user];
      if TokensUnique(old(users)) && !HoldsToken(old(users), freshToken) {
        FreshTokenKeepsUnique(old(users), name, user);
      }
    }

    /**
     * The loop of `purchase` over the order's lines: each line's item loses the line's
     * quantity and its id is collected. It stops at the first line whose item is not in the
     * catalog; `stop` is the number of lines applied.
     */
    method ApplyLines(lines: seq<OrderLine>) returns (itemIds: seq<ItemId>, stop: nat)
      modifies this`itemList
      ensures stop == FirstUnlisted(old(itemList), lines)
      ensures itemList == ApplyOrder(old(itemList), lines[..stop])
      ensures itemIds == Ids(lines[..stop])
    {
      itemIds := [];
      stop := 0;
      while stop < |lines|
        invariant 0 <= stop <= |lines|
        invariant AllListed(old(itemList), lines[..stop])
        invariant itemList == ApplyOrder(old(itemList), lines[..stop])
        invariant itemIds == Ids(lines[..stop])
      {
        var line := lines[stop];
        if line.id !in itemList {
          FirstUnlistedAt(old(itemList), lines, stop);
          return;
        }
        ApplyOrderStep(old(itemList), lines, stop);
        itemList := itemList[line.id := itemList[line.id].(quantity := itemList[line.id].quantity - line.quantity)];
        itemIds := itemIds + [line.id];
        stop := stop + 1;
      }
      FirstUnlistedAt(old(itemList), lines, stop);
    }

    /**
     * Mutation `purchase`. The order's lines are applied to the catalog one by one, each
     * lowering its item's quantity with no lower bound; then the purchase is appended to the
     * user holding `token`. A line naming an unknown item raises there, after the lines before
     * it were applied; an unknown token raises after the whole order was applied.
     * `who` names the user the purchase was recorded for.
     */
    method Purchase(token: string, order: Order, purchaseId: RandomId)
      returns (r: Result<bool, Error>, ghost who: string)
      requires Valid()
      modifies this
      ensures Valid()
      ensures !AllListed(old(itemList), order.items) ==>
        var j := FirstUnlisted(old(itemList), order.items);
        && r == Failure(UnknownItem(order.items[j].id))
        && itemList == ApplyOrder(old(itemList), order.items[..j])
        && users == old(users)
      ensures AllListed(old(itemList), order.items) ==>
        itemList == ApplyOrder(old(itemList), order.items)
      ensures AllListed(old(itemList), order.items) && !HoldsToken(old(users), token) ==>
        r == Failure(UnknownToken) && users == old(users)
      ensures AllListed(old(itemList), order.items) && HoldsToken(old(users), token) ==>
        && r == Success(true)
        && who in old(users) && old(users)[who].token == Some(token)
        && users == old(users)[who := old(users)[who].(purchases :=
             old(users)[who].purchases + [Users.Purchase(purchaseId, Ids(order.items))])]
      ensures TokensUnique(old(users)) ==> TokensUnique(users)
    {
      var itemIds, stop := ApplyLines(order.items);
      if stop < |order.items| {
        r, who := Failure(UnknownItem(order.items[stop].id)), "";
        return;
      }
      assert order.items[..stop] == order.items;
      var holder := FindHolder(token);
      if holder.None? {
        r, who := Failure(UnknownToken), "";
        return;
      }
      var name := holder.value;
      var user := users[name];
      users := users[name := user.(purchases := user.purchases + [Users.Purchase(purchaseId, itemIds)])];
      r := Success(true);
      who := name;
      if TokensUnique(old(users)) {
        SameTokenKeepsUnique(old(users), name, users[name]);
      }
    }
  }
}
