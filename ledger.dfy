/** The transactions on a customer's account, as functions of the account's
    value: what buying, refunding and using an item do to the balance and to
    the owned list, and what each reports. The classes in module Storefront
    perform them in place and are proved to agree with these functions. */
module Ledger {
  import opened Items
  import opened Lookup

  /** What an operation reports instead of printing it. */
  datatype Outcome =
    | Ok
    | ItemNotFound
    | AlreadyOwned
    | InsufficientFunds
    | NotOwned
    | UsageLimitExceeded

  /** A customer's state: the balance in cents and the owned copies in order. */
  datatype Account = Account(balance: int, itemsList: seq<OwnedItem>)

  /** An operation's report, the account it leaves, and the receipt it issues. */
  datatype Transaction = Transaction(outcome: Outcome, account: Account, receipt: Option<Receipt>)

  /** Minutes of use from which a copy can no longer be refunded. */
  const RefundWindow := 30

  /** Buying `itemId` from `catalog`: the catalog lookup, then the ownership
      check, then the funds check; the first that fails decides the report. */
  function Buy(catalog: seq<Item>, a: Account, itemId: string): Transaction
  {
    match CatalogIndex(catalog, itemId)
    case None => Transaction(ItemNotFound, a, None)
    case Some(k) =>
      var item := catalog[k];
      if Owns(a.itemsList, itemId) then Transaction(AlreadyOwned, a, None)
      else if a.balance < item.price then Transaction(InsufficientFunds, a, None)
      else Transaction(Ok, Account(a.balance - item.price, a.itemsList + [Copy(item)]),
                       Some(Receipt(false, item.title, item.price)))
  }

  /** Refunding `itemId`: the first owned copy with that id, unless it has been
      used for the whole refund window. */
  function Refund(a: Account, itemId: string): Transaction
  {
    match OwnedIndex(a.itemsList, itemId)
    case None => Transaction(NotOwned, a, None)
    case Some(i) =>
      var owned := a.itemsList[i];
      if owned.minutesUsed >= RefundWindow then Transaction(UsageLimitExceeded, a, None)
      else Transaction(Ok, Account(a.balance + owned.price, RemoveAt(a.itemsList, i)),
                       Some(Receipt(true, owned.title, owned.price)))
  }

  /** The owned list after using `id` for `minutes`: the first copy with that
      id gains the minutes. */
  function Used(owned: seq<OwnedItem>, id: string, minutes: int): seq<OwnedItem>
  {
    match OwnedIndex(owned, id)
    case None => owned
    case Some(i) => owned[i := owned[i].(minutesUsed := owned[i].minutesUsed + minutes)]
  }

  // ---------------------------------------------------------------- buying

  /** Each report names the first guard that fails, and a purchase succeeds
      exactly when all three pass. */
  lemma BuyGuards(catalog: seq<Item>, a: Account, itemId: string)
    ensures Buy(catalog, a, itemId).outcome == ItemNotFound <==>
      forall j :: 0 <= j < |catalog| ==> catalog[j].id != itemId
    ensures Buy(catalog, a, itemId).outcome == AlreadyOwned <==>
      CatalogIndex(catalog, itemId).Some? && Owns(a.itemsList, itemId)
    ensures Buy(catalog, a, itemId).outcome == InsufficientFunds <==>
      CatalogIndex(catalog, itemId).Some? && !Owns(a.itemsList, itemId) &&
      a.balance < catalog[CatalogIndex(catalog, itemId).value].price
    ensures Buy(catalog, a, itemId).outcome == Ok <==>
      CatalogIndex(catalog, itemId).Some? && !Owns(a.itemsList, itemId) &&
      a.balance >= catalog[CatalogIndex(catalog, itemId).value].price
    ensures Buy(catalog, a, itemId).outcome in {Ok, ItemNotFound, AlreadyOwned, InsufficientFunds}
  {
    if CatalogIndex(catalog, itemId).None? && |catalog| > 0 {
      assert forall j :: 0 <= j < |catalog| ==> catalog[j].id != itemId;
    }
  }

  /** A failed purchase changes nothing and issues no receipt. */
  lemma BuyFailureChangesNothing(catalog: seq<Item>, a: Account, itemId: string)
    requires Buy(catalog, a, itemId).outcome != Ok
    ensures Buy(catalog, a, itemId).account == a
    ensures Buy(catalog, a, itemId).receipt == None
  {
  }

  /** A successful purchase charges the first catalog entry's price, leaves a
      non-negative balance, and appends one unused copy of that entry, the
      earlier copies untouched; its receipt is a purchase receipt for the price. */
  lemma BuySuccess(catalog: seq<Item>, a: Account, itemId: string)
    requires Buy(catalog, a, itemId).outcome == Ok
    ensures CatalogIndex(catalog, itemId).Some?
    ensures var item := catalog[CatalogIndex(catalog, itemId).value];
      var b := Buy(catalog, a, itemId).account;
      && item.id == itemId
      && a.balance >= item.price
      && b.balance == a.balance - item.price
      && b.balance >= 0
      && |b.itemsList| == |a.itemsList| + 1
      && b.itemsList[..|a.itemsList|] == a.itemsList
      && b.itemsList[|a.itemsList|] == OwnedItem(item.id, item.title, item.price, 0)
      && Buy(catalog, a, itemId).receipt == Some(Receipt(false, item.title, item.price))
  {
    assert (a.itemsList + [Copy(catalog[CatalogIndex(catalog, itemId).value])])[..|a.itemsList|] == a.itemsList;
  }

  /** Purchases keep the owned ids pairwise distinct. */
  lemma BuyKeepsIdsUnique(catalog: seq<Item>, a: Account, itemId: string)
    requires UniqueIds(a.itemsList)
    ensures UniqueIds(Buy(catalog, a, itemId).account.itemsList)
  {
    var t := Buy(catalog, a, itemId);
    if t.outcome == Ok {
      var s := t.account.itemsList;
      var n := |a.itemsList|;
      forall i, j | 0 <= i < j < |s| ensures s[i].id != s[j].id {
        if j == n {
          assert s[i] == a.itemsList[i];
          assert s[j].id == itemId;
        }
      }
    }
  }

  /** An id that is owned cannot be bought again, whatever the balance. */
  lemma RebuyRejected(catalog: seq<Item>, a: Account, itemId: string)
    requires Buy(catalog, a, itemId).outcome == Ok
    ensures var b := Buy(catalog, a, itemId).account;
      forall balance :: Buy(catalog, Account(balance, b.itemsList), itemId) ==
        Transaction(AlreadyOwned, Account(balance, b.itemsList), None)
  {
    var b := Buy(catalog, a, itemId).account;
    assert b.itemsList[|a.itemsList|].id == itemId;
  }

  // ------------------------------------------------------------- refunding

  /** Each report names the first guard that fails; the refund window is
      inclusive: a copy used exactly 30 minutes is refused. */
  lemma RefundGuards(a: Account, itemId: string)
    ensures Refund(a, itemId).outcome == NotOwned <==> !Owns(a.itemsList, itemId)
    ensures Refund(a, itemId).outcome == UsageLimitExceeded <==>
      Owns(a.itemsList, itemId) &&
      a.itemsList[OwnedIndex(a.itemsList, itemId).value].minutesUsed >= 30
    ensures Refund(a, itemId).outcome == Ok <==>
      Owns(a.itemsList, itemId) &&
      a.itemsList[OwnedIndex(a.itemsList, itemId).value].minutesUsed < 30
    ensures Refund(a, itemId).outcome in {Ok, NotOwned, UsageLimitExceeded}
    ensures Refund(a, itemId).outcome != Ok ==>
      Refund(a, itemId).account == a && Refund(a, itemId).receipt == None
  {
    OwnsIffIndexed(a.itemsList, itemId);
  }

  /** The boundary itself: a first copy used exactly 30 minutes is not
      refunded, one used 29 minutes is. */
  lemma RefundWindowBoundary(a: Account, itemId: string, i: nat)
    requires OwnedIndex(a.itemsList, itemId) == Some(i)
    ensures a.itemsList[i].minutesUsed == 30 ==> Refund(a, itemId).outcome == UsageLimitExceeded
    ensures a.itemsList[i].minutesUsed == 29 ==> Refund(a, itemId).outcome == Ok
  {
  }

  /** A successful refund credits the copy's recorded price and removes exactly
      that first copy, the others keeping their order. */
  lemma RefundSuccess(a: Account, itemId: string)
    requires Refund(a, itemId).outcome == Ok
    ensures OwnedIndex(a.itemsList, itemId).Some?
    ensures var i := OwnedIndex(a.itemsList, itemId).value;
      var owned := a.itemsList[i];
      var b := Refund(a, itemId).account;
      && owned.minutesUsed < 30
      && b.balance == a.balance + owned.price
      && b.itemsList == a.itemsList[..i] + a.itemsList[i + 1..]
      && |b.itemsList| == |a.itemsList| - 1
      && multiset(b.itemsList) + multiset{owned} == multiset(a.itemsList)
      && Refund(a, itemId).receipt == Some(Receipt(true, owned.title, owned.price))
  {
    var i := OwnedIndex(a.itemsList, itemId).value;
    var s := a.itemsList;
    assert s == s[..i] + [s[i]] + s[i + 1..];
  }

  /** Refunds keep the owned ids pairwise distinct, and then the refunded id is
      no longer owned, so it may be bought again. */
  lemma RefundKeepsIdsUnique(a: Account, itemId: string)
    requires UniqueIds(a.itemsList)
    ensures UniqueIds(Refund(a, itemId).account.itemsList)
    ensures Refund(a, itemId).outcome == Ok ==> !Owns(Refund(a, itemId).account.itemsList, itemId)
  {
    var t := Refund(a, itemId);
    if t.outcome == Ok {
      var s := a.itemsList;
      var i := OwnedIndex(s, itemId).value;
      var r := t.account.itemsList;
      assert forall k :: 0 <= k < |r| ==> r[k] == s[if k < i then k else k + 1];
    }
  }

  /** Buying and at once refunding the same id restores the account. */
  lemma BuyThenRefund(catalog: seq<Item>, a: Account, itemId: string)
    requires Buy(catalog, a, itemId).outcome == Ok
    ensures var item := catalog[CatalogIndex(catalog, itemId).value];
      Refund(Buy(catalog, a, itemId).account, itemId) ==
        Transaction(Ok, a, Some(Receipt(true, item.title, item.price)))
  {
    var item := catalog[CatalogIndex(catalog, itemId).value];
    var s := a.itemsList + [Copy(item)];
    OwnedIndexIsFirst(s, itemId, |a.itemsList|);
    assert RemoveAt(s, |a.itemsList|) == a.itemsList;
  }

  // ----------------------------------------------------------------- using

  /** Using adds the minutes to the first copy with the id and changes nothing
      else; the report says whether such a copy exists. */
  lemma UsedShape(owned: seq<OwnedItem>, id: string, minutes: int)
    ensures |Used(owned, id, minutes)| == |owned|
    ensures !Owns(owned, id) ==> Used(owned, id, minutes) == owned
    ensures Owns(owned, id) ==> OwnedIndex(owned, id).Some?
    ensures forall j :: 0 <= j < |owned| ==>
      var u := Used(owned, id, minutes)[j];
      && u.id == owned[j].id && u.title == owned[j].title && u.price == owned[j].price
      && u.minutesUsed == owned[j].minutesUsed +
           (if OwnedIndex(owned, id) == Some(j) then minutes else 0)
  {
    OwnsIffIndexed(owned, id);
  }

  /** Uses accumulate: two uses of the same id add up to one use of the sum. */
  lemma UseAccumulates(owned: seq<OwnedItem>, id: string, m1: int, m2: int)
    ensures Used(Used(owned, id, m1), id, m2) == Used(owned, id, m1 + m2)
  {
    var u := Used(owned, id, m1);
    UsedShape(owned, id, m1);
    OwnedIndexOnlyReadsIds(owned, u, id);
  }

  /** Using with a non-negative amount never lowers any copy's minutes. */
  lemma UseNeverLowersMinutes(owned: seq<OwnedItem>, id: string, minutes: int)
    requires minutes >= 0
    ensures forall j :: 0 <= j < |owned| ==>
      Used(owned, id, minutes)[j].minutesUsed >= owned[j].minutesUsed
  {
    UsedShape(owned, id, minutes);
  }

  /** Using keeps the owned ids pairwise distinct. */
  lemma UseKeepsIdsUnique(owned: seq<OwnedItem>, id: string, minutes: int)
    requires UniqueIds(owned)
    ensures UniqueIds(Used(owned, id, minutes))
  {
    UsedShape(owned, id, minutes);
  }
}
