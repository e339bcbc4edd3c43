/**
 * Client runs against the resolvers' contracts: what a caller can conclude from the
 * specifications alone, for a register, login, purchase and logout walk-through.
 */
module Scenarios {
  import opened Results
  import opened Catalog
  import opened Users
  import opened Resolvers

  /** Ordering ten apples from the seed catalog leaves ninety. */
  lemma TenApples()
    ensures ApplyOrder(SeedCatalog(), [OrderLine(12345, 10)])[12345] == Item("Apple", 90)
  {
    ApplyOrderQuantity(SeedCatalog(), [OrderLine(12345, 10)], 12345);
  }

  /** After five grapes are ordered from the seed catalog, the listing shows seventy. */
  lemma FiveGrapes()
    ensures exists i :: (0 <= i < |Listing(ApplyOrder(SeedCatalog(), [OrderLine(67890, 5)]))|
      && Listing(ApplyOrder(SeedCatalog(), [OrderLine(67890, 5)]))[i] == ItemView(67890, "Grapes", 70))
  {
    var seed := SeedCatalog();
    var order := [OrderLine(67890, 5)];
    ApplyOrderQuantity(seed, order, 67890);
    var catalog := ApplyOrder(seed, order);
    assert catalog[67890] == Item("Grapes", 70);
    ListingHasKey(catalog, 67890);
  }

  /**
   * register("alice", "pw1"), login("alice", "pw1"), purchase five grapes with the login
   * token, then userProfile(token). The catalog it leaves is the one FiveGrapes lists.
   * `t0`, `t1` are the generated tokens and `id0`, `id1` the random ids.
   */
  method AliceCheckout(t0: string, t1: string, id0: RandomId, id1: RandomId)
  {
    var store := new Store();
    var alice := store.Register("alice", "pw1", t0, id0);
    var session := store.Login("alice", "pw1", t1);
    assert session == Some(alice.(token := Some(t1)));

    assert store.users["alice"].token == Some(t1);
    assert HoldsToken(store.users, t1);
    var order := Order("order-1", [OrderLine(67890, 5)]);
    assert AllListed(store.itemList, order.items);
    var bought: Result<bool, Error>;
    ghost var who: string;
    bought, who := store.Purchase(t1, order, id1);
    assert bought == Success(true);
    assert who == "alice";

    assert store.itemList == ApplyOrder(SeedCatalog(), [OrderLine(67890, 5)]);

    assert store.users.Keys == {"alice"};
    assert store.users["alice"].token == Some(t1);
    var profile := store.UserProfile(t1);
    assert profile.Some?;
    assert profile.value.username == "alice";
    assert |profile.value.purchases| == 1;
    assert profile.value.purchases[0].items == [67890];
  }

  /** After logging out, the token that was used no longer finds a profile. */
  method LogoutEndsSession(t0: string, id0: RandomId)
  {
    var store := new Store();
    var alice := store.Register("alice", "pw1", t0, id0);
    assert store.users["alice"].token == Some(t0);
    var out: Result<bool, Error>;
    ghost var left: string;
    out, left := store.Logout(t0);
    assert out == Success(true);
    assert store.users.Keys == {"alice"} && store.users["alice"].token == None;
    var after := store.UserProfile(t0);
    assert after == None;
    var again := store.Login("alice", "wrong", t0);
    assert again == None;
  }
}
