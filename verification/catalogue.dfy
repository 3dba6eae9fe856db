/** The item catalogue: a map from item code to the item and the name of the merchant owning it,
    iterated in insertion order, every operation gated by the merchant registry. */
module Catalogue {
  import opened Domain
  import opened Errors
  import opened Merchants

  datatype MerchantItem = MerchantItem(merchantName: string, item: Item)

  /** The items of `owner`, taken in the order of `keys`. */
  function Owned(keys: seq<Int32>, items: map<Int32, MerchantItem>, owner: string): (r: seq<Item>)
    requires forall k :: k in keys ==> k in items
    ensures |r| <= |keys|
    ensures forall k :: k in keys && items[k].merchantName == owner ==> items[k].item in r
    ensures forall x :: x in r ==> exists k :: k in keys && items[k].merchantName == owner && items[k].item == x
  {
    if keys == [] then []
    else
      var rest := Owned(keys[1..], items, owner);
      var entry := items[keys[0]];
      if entry.merchantName == owner then [entry.item] + rest else rest
  }

  /** Appending a key appends its item, if the owner matches, after the items already listed:
      the filter keeps the order of the keys. */
  lemma {:induction false} OwnedAppend(keys: seq<Int32>, k: Int32, items: map<Int32, MerchantItem>, owner: string)
    requires forall k' :: k' in keys ==> k' in items
    requires k in items
    ensures Owned(keys + [k], items, owner)
         == Owned(keys, items, owner) + (if items[k].merchantName == owner then [items[k].item] else [])
  {
    if keys == [] {
      assert keys + [k] == [k] && [k][1..] == [];
    } else {
      assert (keys + [k])[0] == keys[0] && (keys + [k])[1..] == keys[1..] + [k];
      OwnedAppend(keys[1..], k, items, owner);
    }
  }

  predicate Distinct(keys: seq<Int32>) {
    forall i, j :: 0 <= i < j < |keys| ==> keys[i] != keys[j]
  }

  /** Over distinct keys each stored under its own item's code, the owned items have distinct codes. */
  lemma {:induction false} OwnedCodesDistinct(keys: seq<Int32>, items: map<Int32, MerchantItem>, owner: string)
    requires forall k :: k in keys ==> k in items && items[k].item.code == k
    requires Distinct(keys)
    ensures forall i, j :: 0 <= i < j < |Owned(keys, items, owner)| ==>
      Owned(keys, items, owner)[i].code != Owned(keys, items, owner)[j].code
  {
    if keys != [] {
      OwnedCodesDistinct(keys[1..], items, owner);
      var rest := Owned(keys[1..], items, owner);
      forall x | x in rest ensures x.code != keys[0] {
        var k :| k in keys[1..] && items[k].merchantName == owner && items[k].item == x;
      }
    }
  }

  /** `keys` without `key`, the others kept in order (see WithoutKeepsOrder). */
  function Without(keys: seq<Int32>, key: Int32): (r: seq<Int32>)
    ensures forall k :: k in r <==> k in keys && k != key
    ensures Distinct(keys) ==> Distinct(r)
    ensures key !in keys ==> r == keys
  {
    if keys == [] then []
    else if keys[0] == key then Without(keys[1..], key)
    else
      var rest := Without(keys[1..], key);
      assert Distinct(keys) ==> Distinct(keys[1..]) && keys[0] !in rest by {
        if Distinct(keys) {
          forall i, j | 0 <= i < j < |keys| - 1 ensures keys[1..][i] != keys[1..][j] {
            assert keys[1..][i] == keys[i + 1] && keys[1..][j] == keys[j + 1];
          }
        }
      }
      [keys[0]] + rest
  }

  /** Removing a key that occurs once, at position `i`, closes the gap and moves nothing else. */
  lemma {:induction false} WithoutKeepsOrder(keys: seq<Int32>, key: Int32, i: nat)
    requires i < |keys| && keys[i] == key && Distinct(keys)
    ensures Without(keys, key) == keys[..i] + keys[i + 1..]
  {
    if i == 0 {
      assert key !in keys[1..] by {
        forall j | 0 <= j < |keys| - 1 ensures keys[1..][j] != key {
          assert keys[1..][j] == keys[j + 1];
        }
      }
      assert keys[..0] + keys[1..] == keys[1..];
    } else {
      assert Distinct(keys[1..]) by {
        forall a, b | 0 <= a < b < |keys| - 1 ensures keys[1..][a] != keys[1..][b] {
          assert keys[1..][a] == keys[a + 1] && keys[1..][b] == keys[b + 1];
        }
      }
      assert keys[0] != key;
      assert keys[1..][i - 1] == key;
      WithoutKeepsOrder(keys[1..], key, i - 1);
      assert keys[1..][..i - 1] == keys[1..i] && keys[1..][i..] == keys[i + 1..];
      assert [keys[0]] + keys[1..i] == keys[..i];
    }
  }

  class ItemService {
    /** Item code to the item and its owner. */
    var items: map<Int32, MerchantItem>
    /** The codes of `items` in insertion order, the iteration order of the source's map. */
    var keyOrder: seq<Int32>
    const merchantService: MerchantService

    /** Every entry is stored under its own item's code, and keyOrder lists each key exactly once. */
    ghost predicate Valid()
      reads this
    {
      && (forall k :: k in items ==> items[k].item.code == k)
      && (forall k :: k in items <==> k in keyOrder)
      && Distinct(keyOrder)
    }

    constructor (merchantService: MerchantService)
      ensures this.merchantService == merchantService
      ensures items == map[] && keyOrder == []
      ensures Valid()
    {
      this.merchantService := merchantService;
      items := map[];
      keyOrder := [];
    }

    /** The registry check every operation starts with. Checking registration first adds nothing:
        the result is exactly the registry's own verdict. */
    function ValidateMerchant(merchantName: string, authorisation: string): (r: Outcome)
      reads merchantService
      ensures r == merchantService.CheckAuthorisationCode(merchantName, authorisation)
      ensures r == Pass <==>
        && merchantName in merchantService.merchantNameToCodeMap
        && merchantService.merchantNameToCodeMap[merchantName] == authorisation
        && authorisation != NoAuthCode
    {
      if !merchantService.IsRegistered(merchantName) then
        Fail(MerchantNotFound(merchantName))
      else
        merchantService.CheckAuthorisationCode(merchantName, authorisation)
    }

    /** Creates the item under a fresh code, updates title and description of the caller's own item,
        or refuses a code another merchant owns. `freshId` stands for the randomly generated UUID. */
    method CreateOrUpdate(merchantName: string, authorisation: string, itemCode: Int32,
                          itemTitle: string, itemDescription: string, freshId: Uuid)
      returns (r: Result<Item>)
      requires Valid()
      modifies this
      ensures Valid()
      // A failed registry check is passed on unchanged and nothing is touched.
      ensures ValidateMerchant(merchantName, authorisation).Fail? ==>
        r == Err(ValidateMerchant(merchantName, authorisation).error)
      ensures r.Err? ==> items == old(items) && keyOrder == old(keyOrder)
      // A code owned by someone else is refused.
      ensures ValidateMerchant(merchantName, authorisation) == Pass && itemCode in old(items)
              && old(items)[itemCode].merchantName != merchantName ==>
        r == Err(DuplicateItem(itemCode))
      // An absent code gains exactly one entry, owned by the caller, appended to the order.
      ensures ValidateMerchant(merchantName, authorisation) == Pass && itemCode !in old(items) ==>
        && r == Ok(Item(freshId, itemCode, itemTitle, itemDescription))
        && items == old(items)[itemCode := MerchantItem(merchantName, r.value)]
        && keyOrder == old(keyOrder) + [itemCode]
      // The caller's own item keeps identifier, code, owner and position; only title and description change.
      ensures ValidateMerchant(merchantName, authorisation) == Pass && itemCode in old(items)
              && old(items)[itemCode].merchantName == merchantName ==>
        && r == Ok(old(items)[itemCode].item.(title := itemTitle, description := itemDescription))
        && r.value.identifier == old(items)[itemCode].item.identifier
        && items == old(items)[itemCode := MerchantItem(merchantName, r.value)]
        && keyOrder == old(keyOrder)
      // Whatever happens, no entry changes owner or identifier and no entry disappears.
      ensures old(items).Keys <= items.Keys
      ensures forall k :: k in old(items) ==>
        items[k].merchantName == old(items)[k].merchantName
        && items[k].item.identifier == old(items)[k].item.identifier
    {
      var validation := ValidateMerchant(merchantName, authorisation);
      if validation.Fail? {
        return Err(validation.error);
      }
      if itemCode !in items {
        items := items[itemCode := MerchantItem(merchantName, Item(freshId, itemCode, itemTitle, itemDescription))];
        keyOrder := keyOrder + [itemCode];
      } else {
        var existingItem := items[itemCode];
        if existingItem.merchantName != merchantName {
          return Err(DuplicateItem(itemCode));
        }
        items := items[itemCode := MerchantItem(merchantName,
                                                existingItem.item.(title := itemTitle, description := itemDescription))];
      }
      r := Ok(items[itemCode].item);
    }

    /** The caller's items, in insertion order; nothing is changed. */
    function List(merchantName: string, authorisation: string): (r: Result<seq<Item>>)
      requires Valid()
      reads this, merchantService
      ensures ValidateMerchant(merchantName, authorisation).Fail? ==>
        r == Err(ValidateMerchant(merchantName, authorisation).error)
      ensures ValidateMerchant(merchantName, authorisation) == Pass ==> r.Ok?
      // The items come in the insertion order of their codes.
      ensures r.Ok? ==> r.value == Owned(keyOrder, items, merchantName)
      ensures r.Ok? ==> forall x :: x in r.value <==>
        exists k :: k in items && items[k].merchantName == merchantName && items[k].item == x
      ensures r.Ok? ==> forall i, j :: 0 <= i < j < |r.value| ==> r.value[i].code != r.value[j].code
    {
      var validation := ValidateMerchant(merchantName, authorisation);
      if validation.Fail? then
        Err(validation.error)
      else
        OwnedCodesDistinct(keyOrder, items, merchantName);
        Ok(Owned(keyOrder, items, merchantName))
    }

    /** Removes the entry under `itemCode`, whoever owns it, and returns its item. */
    method Delete(merchantName: string, authorisation: string, itemCode: Int32) returns (r: Result<Item>)
      requires Valid()
      modifies this
      ensures Valid()
      ensures ValidateMerchant(merchantName, authorisation).Fail? ==>
        r == Err(ValidateMerchant(merchantName, authorisation).error)
      ensures ValidateMerchant(merchantName, authorisation) == Pass && itemCode !in old(items) ==>
        r == Err(ItemNotFound(itemCode))
      ensures r.Err? ==> items == old(items) && keyOrder == old(keyOrder)
      ensures ValidateMerchant(merchantName, authorisation) == Pass && itemCode in old(items) ==>
        && r == Ok(old(items)[itemCode].item)
        && items == old(items) - {itemCode}
        && keyOrder == Without(old(keyOrder), itemCode)
    {
      var validation := ValidateMerchant(merchantName, authorisation);
      if validation.Fail? {
        return Err(validation.error);
      }
      if itemCode !in items {
        return Err(ItemNotFound(itemCode));
      }
      var removedItem := items[itemCode];
      items := items - {itemCode};
      keyOrder := Without(keyOrder, itemCode);
      r := Ok(removedItem.item);
    }
  }
}
