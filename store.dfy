/** The storefront's mutable objects: a customer whose balance and owned list
    change in place, and a store whose operations act on a customer. Each
    method is proved to perform the corresponding transaction of module Ledger. */
module Storefront {
  import opened Items
  import opened Lookup
  import opened Search
  import opened Ledger

  class Customer {
    var itemsList: seq<OwnedItem>
    var balance: int

    /** A new customer owns nothing; the balance defaults to 10.00. */
    constructor (balance: int := 1000)
      ensures this.balance == balance && itemsList == []
    {
      this.balance := balance;
      itemsList := [];
    }

    /** The customer's state as a value. */
    function State(): Account
      reads this
    {
      Account(balance, itemsList)
    }

    /** Adds `amount` to the balance, whatever its sign. */
    method ReloadAccount(amount: int)
      modifies this
      ensures balance == old(balance) + amount
      ensures itemsList == old(itemsList)
    {
      balance := balance + amount;
    }

    /** Adds `minutes` to the first owned copy with id `id`, stopping at it;
        reports NotOwned when there is none. */
    method UseItem(id: string, minutes: int) returns (outcome: Outcome)
      modifies this
      ensures outcome == (if Owns(old(itemsList), id) then Ok else NotOwned)
      ensures itemsList == Used(old(itemsList), id, minutes)
      ensures balance == old(balance)
      ensures UniqueIds(old(itemsList)) ==> UniqueIds(itemsList)
    {
      var i := 0;
      while i < |itemsList|
        invariant 0 <= i <= |itemsList|
        invariant itemsList == old(itemsList) && balance == old(balance)
        invariant forall j :: 0 <= j < i ==> itemsList[j].id != id
      {
        if itemsList[i].id == id {
          OwnedIndexIsFirst(itemsList, id, i);
          if UniqueIds(itemsList) {
            UseKeepsIdsUnique(itemsList, id, minutes);
          }
          itemsList := itemsList[i := itemsList[i].(minutesUsed := itemsList[i].minutesUsed + minutes)];
          return Ok;
        }
        i := i + 1;
      }
      return NotOwned;
    }
  }

  class Store {
    var items: seq<Item>

    constructor (items: seq<Item>)
      ensures this.items == items
    {
      this.items := items;
    }

    /** Buys `itemId` for `customer`: the catalog lookup, the ownership check and
        the funds check in that order, then the charge and the new copy. */
    method BuyItem(customer: Customer, itemId: string) returns (outcome: Outcome, receipt: Option<Receipt>)
      modifies customer
      ensures Transaction(outcome, customer.State(), receipt) == Buy(items, old(customer.State()), itemId)
      ensures UniqueIds(old(customer.itemsList)) ==> UniqueIds(customer.itemsList)
    {
      var k := CatalogIndex(items, itemId);
      if k.None? {
        return ItemNotFound, None;
      }
      var item := items[k.value];
      if Owns(customer.itemsList, itemId) {
        return AlreadyOwned, None;
      }
      if customer.balance < item.price {
        return InsufficientFunds, None;
      }
      if UniqueIds(customer.itemsList) {
        BuyKeepsIdsUnique(items, customer.State(), itemId);
      }
      customer.balance := customer.balance - item.price;
      customer.itemsList := customer.itemsList + [OwnedItem(item.id, item.title, item.price, 0)];
      return Ok, Some(Receipt(false, item.title, item.price));
    }

    /** Refunds `itemId` for `customer`: the first owned copy with that id,
        unless it has been used for 30 minutes or more. */
    method IssueRefund(customer: Customer, itemId: string) returns (outcome: Outcome, receipt: Option<Receipt>)
      modifies customer
      ensures Transaction(outcome, customer.State(), receipt) == Refund(old(customer.State()), itemId)
      ensures UniqueIds(old(customer.itemsList)) ==> UniqueIds(customer.itemsList)
    {
      var index := OwnedIndex(customer.itemsList, itemId);
      if index.None? {
        return NotOwned, None;
      }
      var owned := customer.itemsList[index.value];
      if owned.minutesUsed >= RefundWindow {
        return UsageLimitExceeded, None;
      }
      if UniqueIds(customer.itemsList) {
        RefundKeepsIdsUnique(customer.State(), itemId);
      }
      customer.balance := customer.balance + owned.price;
      customer.itemsList := RemoveAt(customer.itemsList, index.value);
      return Ok, Some(Receipt(true, owned.title, owned.price));
    }

    /** The catalog entries whose title contains `keyword`, ignoring case, and
        the labelled lines they are listed as, walking the results in order. */
    method FindByTitle(keyword: string) returns (results: seq<Item>, shown: seq<Listing>)
      ensures results == Matching(items, keyword)
      ensures shown == Labelled(results)
    {
      results := Matching(items, keyword);
      shown := [];
      var i := 0;
      while i < |results|
        invariant 0 <= i <= |results|
        invariant shown == Labelled(results[..i])
      {
        assert results[..i + 1] == results[..i] + [results[i]];
        LabelledSnoc(results[..i], results[i]);
        shown := shown + Label(results[i]);
        i := i + 1;
      }
      assert results[..i] == results;
    }
  }

  /** The store the program starts with: a 50.00 game and a 15.00 movie. */
  method OpeningStore() returns (store: Store)
    ensures fresh(store)
    ensures store.items == [
      Item("gtasa", "GTA SA", 5000, Game("Game Studios", true)),
      Item("8mile", "8 Mile", 1500, Movie(120))]
  {
    store := new Store([
      Item("gtasa", "GTA SA", 5000, Game("Game Studios", true)),
      Item("8mile", "8 Mile", 1500, Movie(120))]);
  }

  /** Purchases and a refund by a customer starting with 100.00. */
  method PurchaseSession()
  {
    var store := OpeningStore();
    var customer := new Customer(10000);

    var outcome, receipt := store.BuyItem(customer, "gtasa");
    assert outcome == Ok && customer.balance == 5000;
    assert receipt == Some(Receipt(false, "GTA SA", 5000));
    assert customer.itemsList == [OwnedItem("gtasa", "GTA SA", 5000, 0)];

    assert customer.itemsList[0].id == "gtasa";
    outcome, receipt := store.BuyItem(customer, "gtasa");
    assert outcome == AlreadyOwned && customer.balance == 5000;

    assert "gtasa"[0] != "8mile"[0];
    assert CatalogIndex(store.items, "8mile") == Some(1);
    assert !Owns(customer.itemsList, "8mile");
    outcome, receipt := store.BuyItem(customer, "8mile");
    assert outcome == Ok && customer.balance == 3500;
    assert customer.itemsList ==
      [OwnedItem("gtasa", "GTA SA", 5000, 0), OwnedItem("8mile", "8 Mile", 1500, 0)];
    assert OwnedIndex(customer.itemsList, "8mile") == Some(1);

    outcome, receipt := store.IssueRefund(customer, "8mile");
    assert outcome == Ok && customer.balance == 5000;
    assert customer.itemsList == [OwnedItem("gtasa", "GTA SA", 5000, 0)];
  }

  /** Use accumulates and closes the refund window; unknown ids are reported. */
  method UsageSession()
  {
    var store := OpeningStore();
    var customer := new Customer(10000);

    var outcome, receipt := store.BuyItem(customer, "gtasa");
    assert customer.itemsList == [OwnedItem("gtasa", "GTA SA", 5000, 0)];

    outcome := customer.UseItem("gtasa", 10);
    assert outcome == Ok && customer.itemsList[0].minutesUsed == 10;

    outcome := customer.UseItem("gtasa", 100);
    assert customer.itemsList == [OwnedItem("gtasa", "GTA SA", 5000, 110)];

    outcome, receipt := store.IssueRefund(customer, "gtasa");
    assert outcome == UsageLimitExceeded && customer.balance == 5000;

    outcome, receipt := store.BuyItem(customer, "doom");
    assert outcome == ItemNotFound && customer.balance == 5000;
  }
}
