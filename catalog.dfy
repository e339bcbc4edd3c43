/**
 * The catalog: a map from item id to the item's name and remaining quantity.
 * Its key set is fixed when the store starts; purchases only lower quantities.
 */
module Catalog {

  /** Item ids. Every id in the catalog is an integer-like key. */
  type ItemId = nat

  datatype Item = Item(name: string, quantity: int)

  /** One entry of the `items` query: the id together with the item's fields. */
  datatype ItemView = ItemView(id: ItemId, name: string, quantity: int)

  /** One line of an order: which item and how many of it. */
  datatype OrderLine = OrderLine(id: ItemId, quantity: int)

  /** An order. Its own `id` is carried but never read by the purchase. */
  datatype Order = Order(id: string, items: seq<OrderLine>)

  /** The catalog the store starts with. */
  function SeedCatalog(): map<ItemId, Item>
  {
    map[12345 := Item("Apple", 100),
        67890 := Item("Grapes", 75),
        35653 := Item("Chicken Breast", 25),
        74523 := Item("Bread", 32),
        59272 := Item("Cheese", 15)]
  }

  // ---------------------------------------------------------------------------
  // Listing: the order in which the catalog's keys are enumerated.
  // Integer-like keys of a JavaScript object are enumerated in ascending numeric
  // order, whatever order they were inserted in.

  /** Each element is less than the one after it. */
  predicate StrictlyAscending(s: seq<ItemId>)
  {
    forall i :: 0 < i < |s| ==> s[i - 1] < s[i]
  }

  /** `m` is an element of `s` no greater than any other. */
  predicate IsLeast(m: ItemId, s: set<ItemId>)
  {
    m in s && forall x :: x in s ==> m <= x
  }

  lemma {:induction false} LeastExists(s: set<ItemId>)
    requires s != {}
    ensures exists m :: IsLeast(m, s)
  {
    var y :| y in s;
    if s == {y} {
      assert IsLeast(y, s);
    } else {
      LeastExists(s - {y});
      var m :| IsLeast(m, s - {y});
      var least := if y < m then y else m;
      forall x | x in s
        ensures least <= x
      {
        if x != y {
          assert x in s - {y};
        }
      }
      assert IsLeast(least, s);
    }
  }

  /** The least key of a non-empty key set. */
  function Minimum(s: set<ItemId>): (m: ItemId)
    requires s != {}
    ensures m in s
    ensures forall x :: x in s ==> m <= x
  {
    LeastExists(s);
    var m :| IsLeast(m, s);
    m
  }

  /** The keys of `s`, each once, in ascending order. */
  function AscendingKeys(s: set<ItemId>): (r: seq<ItemId>)
    ensures |r| == |s|
    ensures forall i :: 0 <= i < |r| ==> r[i] in s
    ensures StrictlyAscending(r)
    decreases s
  {
    if s == {} then []
    else
      var m := Minimum(s);
      [m] + AscendingKeys(s - {m})
  }

  /** Every key of `s` is among its ascending keys. */
  lemma {:induction false} AscendingKeysCover(s: set<ItemId>, k: ItemId)
    requires k in s
    ensures k in AscendingKeys(s)
    decreases s
  {
    var m := Minimum(s);
    if k != m {
      AscendingKeysCover(s - {m}, k);
      assert AscendingKeys(s) == [m] + AscendingKeys(s - {m});
    }
  }

  /** The entries for the keys `ids` of `catalog`, in the order of `ids`. */
  function Views(catalog: map<ItemId, Item>, ids: seq<ItemId>): (r: seq<ItemView>)
    requires forall i :: 0 <= i < |ids| ==> ids[i] in catalog
    ensures |r| == |ids|
    ensures forall i :: 0 <= i < |ids| ==>
      r[i] == ItemView(ids[i], catalog[ids[i]].name, catalog[ids[i]].quantity)
  {
    if ids == [] then []
    else [ItemView(ids[0], catalog[ids[0]].name, catalog[ids[0]].quantity)] + Views(catalog, ids[1..])
  }

  /** What the `items` query returns for `catalog`: one entry per key, ids ascending. */
  function Listing(catalog: map<ItemId, Item>): (r: seq<ItemView>)
    ensures |r| == |catalog|
    ensures forall i :: 0 <= i < |r| ==>
      && r[i].id in catalog
      && r[i].name == catalog[r[i].id].name
      && r[i].quantity == catalog[r[i].id].quantity
    ensures forall i :: 0 < i < |r| ==> r[i - 1].id < r[i].id
  {
    var ids := AscendingKeys(catalog.Keys);
    var r := Views(catalog, ids);
    assert |r| == |catalog| by {
      assert |catalog.Keys| == |catalog|;
    }
    r
  }

  /** Every key of the catalog has an entry in its listing, carrying its name and quantity. */
  lemma ListingHasKey(catalog: map<ItemId, Item>, k: ItemId)
    requires k in catalog
    ensures exists i :: (0 <= i < |Listing(catalog)| &&
      Listing(catalog)[i] == ItemView(k, catalog[k].name, catalog[k].quantity))
  {
    var ids := AscendingKeys(catalog.Keys);
    AscendingKeysCover(catalog.Keys, k);
    var i :| 0 <= i < |ids| && ids[i] == k;
    assert Listing(catalog) == Views(catalog, ids);
    assert Listing(catalog)[i] == ItemView(k, catalog[k].name, catalog[k].quantity);
  }

  /** The seed catalog has exactly the five seeded keys. */
  lemma SeedKeys()
    ensures SeedCatalog().Keys == {12345, 35653, 59272, 67890, 74523}
    ensures |SeedCatalog()| == 5
  {
    assert SeedCatalog().Keys == {12345, 35653, 59272, 67890, 74523};
  }

  /** The ascending keys of `s` start with its least key. */
  lemma AscendingKeysFirst(s: set<ItemId>, m: ItemId)
    requires IsLeast(m, s)
    ensures AscendingKeys(s) == [m] + AscendingKeys(s - {m})
  {
    assert Minimum(s) == m;
  }

  /** The seed keys are listed in ascending numeric order. */
  lemma SeedKeysAscending()
    ensures AscendingKeys(SeedCatalog().Keys) == [12345, 35653, 59272, 67890, 74523]
  {
    SeedKeys();
    SeedHeadAscending();
  }

  // The steps of SeedKeysAscending, one key set per lemma so that each
  // unfolds AscendingKeys only once.

  lemma SeedHeadAscending()
    ensures AscendingKeys({12345, 35653, 59272, 67890, 74523}) == [12345, 35653, 59272, 67890, 74523]
  {
    AscendingKeysFirst({12345, 35653, 59272, 67890, 74523}, 12345);
    assert {12345, 35653, 59272, 67890, 74523} - {12345} == {35653, 59272, 67890, 74523};
    SeedTailAscending1();
  }

  lemma SeedTailAscending1()
    ensures AscendingKeys({35653, 59272, 67890, 74523}) == [35653, 59272, 67890, 74523]
  {
    AscendingKeysFirst({35653, 59272, 67890, 74523}, 35653);
    assert {35653, 59272, 67890, 74523} - {35653} == {59272, 67890, 74523};
    SeedTailAscending2();
  }

  lemma SeedTailAscending2()
    ensures AscendingKeys({59272, 67890, 74523}) == [59272, 67890, 74523]
  {
    AscendingKeysFirst({59272, 67890, 74523}, 59272);
    assert {59272, 67890, 74523} - {59272} == {67890, 74523};
    SeedTailAscending3();
  }

  lemma SeedTailAscending3()
    ensures AscendingKeys({67890, 74523}) == [67890, 74523]
  {
    AscendingKeysFirst({67890, 74523}, 67890);
    assert {67890, 74523} - {67890} == {74523};
    SeedTailAscending4();
  }

  lemma SeedTailAscending4()
    ensures AscendingKeys({74523}) == [74523]
  {
    AscendingKeysFirst({74523}, 74523);
    assert {74523} - {74523} == {};
  }

  /** The entries for the seed keys, in ascending key order. */
  lemma SeedViews()
    ensures Views(SeedCatalog(), [12345, 35653, 59272, 67890, 74523]) == [
      ItemView(12345, "Apple", 100),
      ItemView(35653, "Chicken Breast", 25),
      ItemView(59272, "Cheese", 15),
      ItemView(67890, "Grapes", 75),
      ItemView(74523, "Bread", 32)]
  {
  }

  /** The listing of the seed catalog: the five seeded items, ids ascending. */
  lemma SeedListing()
    ensures Listing(SeedCatalog()) == [
      ItemView(12345, "Apple", 100),
      ItemView(35653, "Chicken Breast", 25),
      ItemView(59272, "Cheese", 15),
      ItemView(67890, "Grapes", 75),
      ItemView(74523, "Bread", 32)]
  {
    SeedKeysAscending();
    SeedViews();
  }

  // ---------------------------------------------------------------------------
  // Applying an order: each line lowers its item's quantity, with no lower bound.

  /** Every line of `lines` names an item of `catalog`. */
  predicate AllListed(catalog: map<ItemId, Item>, lines: seq<OrderLine>)
  {
    forall i :: 0 <= i < |lines| ==> lines[i].id in catalog
  }

  /** The catalog after the item of `line` has lost `line.quantity` units. */
  function Decrement(catalog: map<ItemId, Item>, line: OrderLine): (r: map<ItemId, Item>)
    requires line.id in catalog
    ensures r.Keys == catalog.Keys
    ensures r[line.id] == Item(catalog[line.id].name, catalog[line.id].quantity - line.quantity)
    ensures forall k :: k in catalog && k != line.id ==> r[k] == catalog[k]
  {
    catalog[line.id := catalog[line.id].(quantity := catalog[line.id].quantity - line.quantity)]
  }

  /** The catalog after the lines of an order have been applied, first to last. */
  function ApplyOrder(catalog: map<ItemId, Item>, lines: seq<OrderLine>): (r: map<ItemId, Item>)
    requires AllListed(catalog, lines)
    ensures r.Keys == catalog.Keys
    decreases |lines|
  {
    if lines == [] then catalog
    else
      var last := lines[|lines| - 1];
      Decrement(ApplyOrder(catalog, lines[..|lines| - 1]), last)
  }

  /** Applying one more line of an order: the step the purchase loop takes. */
  lemma ApplyOrderStep(catalog: map<ItemId, Item>, lines: seq<OrderLine>, i: nat)
    requires i < |lines|
    requires AllListed(catalog, lines[..i]) && lines[i].id in catalog
    ensures AllListed(catalog, lines[..i + 1])
    ensures ApplyOrder(catalog, lines[..i + 1]) == Decrement(ApplyOrder(catalog, lines[..i]), lines[i])
    ensures Ids(lines[..i + 1]) == Ids(lines[..i]) + [lines[i].id]
  {
    assert lines[..i + 1][..i] == lines[..i];
  }

  /** The total quantity that `lines` orders of item `k`. */
  function Ordered(lines: seq<OrderLine>, k: ItemId): (total: int)
    ensures (forall i :: 0 <= i < |lines| ==> lines[i].id != k) ==> total == 0
    decreases |lines|
  {
    if lines == [] then 0
    else
      var last := lines[|lines| - 1];
      Ordered(lines[..|lines| - 1], k) + (if last.id == k then last.quantity else 0)
  }

  /** Applying an order lowers each item by exactly the total ordered of it and keeps its name. */
  lemma {:induction false} ApplyOrderQuantity(catalog: map<ItemId, Item>, lines: seq<OrderLine>, k: ItemId)
    requires AllListed(catalog, lines)
    requires k in catalog
    ensures ApplyOrder(catalog, lines)[k].name == catalog[k].name
    ensures ApplyOrder(catalog, lines)[k].quantity == catalog[k].quantity - Ordered(lines, k)
    decreases |lines|
  {
    if lines != [] {
      ApplyOrderQuantity(catalog, lines[..|lines| - 1], k);
    }
  }

  /** An item that no line names is left exactly as it was. */
  lemma {:induction false} UnorderedItemUnchanged(catalog: map<ItemId, Item>, lines: seq<OrderLine>, k: ItemId)
    requires AllListed(catalog, lines)
    requires k in catalog
    requires forall i :: 0 <= i < |lines| ==> lines[i].id != k
    ensures ApplyOrder(catalog, lines)[k] == catalog[k]
    decreases |lines|
  {
    if lines != [] {
      UnorderedItemUnchanged(catalog, lines[..|lines| - 1], k);
    }
  }

  /** The ids of the lines, in order: what the purchase records. */
  function Ids(lines: seq<OrderLine>): (r: seq<ItemId>)
    ensures |r| == |lines|
    ensures forall i :: 0 <= i < |lines| ==> r[i] == lines[i].id
    decreases |lines|
  {
    if lines == [] then []
    else Ids(lines[..|lines| - 1]) + [lines[|lines| - 1].id]
  }

  /** The index of the first line whose item is not in the catalog, or |lines| if there is none. */
  function FirstUnlisted(catalog: map<ItemId, Item>, lines: seq<OrderLine>): (j: nat)
    ensures j <= |lines|
    ensures AllListed(catalog, lines[..j])
    ensures j < |lines| ==> lines[j].id !in catalog
    ensures j == |lines| <==> AllListed(catalog, lines)
    decreases |lines|
  {
    if lines == [] then 0
    else if lines[0].id !in catalog then 0
    else 1 + FirstUnlisted(catalog, lines[1..])
  }

  /** A prefix of listed lines followed by an unlisted one (or the end) fixes FirstUnlisted. */
  lemma FirstUnlistedAt(catalog: map<ItemId, Item>, lines: seq<OrderLine>, i: nat)
    requires i <= |lines|
    requires AllListed(catalog, lines[..i])
    requires i < |lines| ==> lines[i].id !in catalog
    ensures FirstUnlisted(catalog, lines) == i
  {
  }
}
