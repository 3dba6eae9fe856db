/** Clients of the services: the flows the source's tests walk through, with what the services'
    contracts, together with the definitions of `CodeFor`, `Render`, `List` and `Owned`, let a
    caller conclude about them. */
module Scenarios {
  import opened Domain
  import Decimal
  import opened Errors
  import opened CodeGenerator
  import opened Merchants
  import opened Catalogue

  /** A second login issues a new code; the first one is then rejected and the new one accepted. */
  method ReloginScenario() returns (first: string, second: string, stale: Outcome, current: Outcome)
    ensures first == "AUTH1" && second == "AUTH2"
    ensures stale == Fail(InvalidAuthorisationCode("Nike"))
    ensures current == Pass
  {
    var generator := new AuthorisationCodeGenerator();
    var merchants := new MerchantService(generator);
    var registered := merchants.Register("Nike");
    var login1 := merchants.Login("Nike");
    first := login1.value;
    var login2 := merchants.Login("Nike");
    second := login2.value;
    assert Decimal.Render(1) == "1" && Decimal.Render(2) == "2";
    stale := merchants.CheckAuthorisationCode("Nike", first);
    current := merchants.CheckAuthorisationCode("Nike", second);
  }

  /** A fresh catalogue whose registry holds two logged-in merchants, "Nike" and "Adidas". */
  method TwoMerchants() returns (catalogue: ItemService, nike: string, adidas: string)
    ensures fresh(catalogue) && fresh(catalogue.merchantService)
    ensures catalogue.Valid() && catalogue.items == map[] && catalogue.keyOrder == []
    ensures catalogue.ValidateMerchant("Nike", nike) == Pass
    ensures catalogue.ValidateMerchant("Adidas", adidas) == Pass
  {
    var generator := new AuthorisationCodeGenerator();
    var merchants := new MerchantService(generator);
    catalogue := new ItemService(merchants);
    var nikeRegistered := merchants.Register("Nike");
    var nikeLogin := merchants.Login("Nike");
    var adidasRegistered := merchants.Register("Adidas");
    var adidasLogin := merchants.Login("Adidas");
    nike, adidas := nikeLogin.value, adidasLogin.value;
  }

  const AirJordan := Item(1, 1, "Air Jordan", "Air Jordan Mid SE")
  const AirLebron := Item(2, 2, "Air Lebron", "Air Lebron Mid SE")

  /** "Nike" creates codes 1 and 2; "Adidas" is then refused code 1. */
  method CreateItems(catalogue: ItemService, nike: string, adidas: string) returns (duplicate: Result<Item>)
    requires catalogue.Valid() && catalogue.items == map[] && catalogue.keyOrder == []
    requires catalogue.ValidateMerchant("Nike", nike) == Pass
    requires catalogue.ValidateMerchant("Adidas", adidas) == Pass
    modifies catalogue
    ensures catalogue.Valid() && catalogue.keyOrder == [1, 2]
    ensures catalogue.items == map[1 := MerchantItem("Nike", AirJordan), 2 := MerchantItem("Nike", AirLebron)]
    ensures duplicate == Err(DuplicateItem(1))
  {
    var jordan := catalogue.CreateOrUpdate("Nike", nike, 1, "Air Jordan", "Air Jordan Mid SE", 1);
    var lebron := catalogue.CreateOrUpdate("Nike", nike, 2, "Air Lebron", "Air Lebron Mid SE", 2);
    duplicate := catalogue.CreateOrUpdate("Adidas", adidas, 1, "Forum", "Forum Mid Shoes", 3);
  }

  /** Two merchants share the catalogue: a code taken by one is refused to the other, each lists
      only its own items, deleting returns the removed item, and deleting an absent code fails. */
  method CatalogueScenario() returns (duplicate: Result<Item>, listed: Result<seq<Item>>,
                                      other: Result<seq<Item>>, deleted: Result<Item>,
                                      missing: Result<Item>, remaining: Result<seq<Item>>)
    ensures duplicate == Err(DuplicateItem(1))
    ensures listed == Ok([AirJordan, AirLebron])
    ensures other == Ok([])
    ensures deleted == Ok(AirJordan)
    ensures missing == Err(ItemNotFound(3))
    ensures remaining == Ok([AirLebron])
  {
    var catalogue, nike, adidas := TwoMerchants();
    duplicate := CreateItems(catalogue, nike, adidas);
    var both := catalogue.items;

    listed := catalogue.List("Nike", nike);
    assert Owned([1, 2], both, "Nike") == [AirJordan, AirLebron] by {
      assert [1, 2][1..] == [2] && [2][1..] == [];
    }
    other := catalogue.List("Adidas", adidas);
    assert Owned([1, 2], both, "Adidas") == [] by {
      assert [1, 2][1..] == [2] && [2][1..] == [];
    }

    deleted := catalogue.Delete("Nike", nike, 1);
    var one := map[2 := MerchantItem("Nike", AirLebron)];
    assert catalogue.items == one by {
      assert both - {1} == one;
    }
    assert catalogue.keyOrder == [2] by {
      assert [1, 2][1..] == [2] && [2][1..] == [];
    }
    missing := catalogue.Delete("Nike", nike, 3);
    remaining := catalogue.List("Nike", nike);
    assert Owned([2], one, "Nike") == [AirLebron] by {
      assert [2][1..] == [];
    }
  }

  /** Re-submitting a code the merchant owns keeps the item and changes only what was re-submitted. */
  method UpdateScenario() returns (created: Result<Item>, updated: Result<Item>)
    ensures created == Ok(AirJordan)
    ensures updated == Ok(AirJordan.(description := "Air Jordan Low SE"))
  {
    var catalogue, nike, adidas := TwoMerchants();
    created := catalogue.CreateOrUpdate("Nike", nike, 1, "Air Jordan", "Air Jordan Mid SE", 1);
    updated := catalogue.CreateOrUpdate("Nike", nike, 1, "Air Jordan", "Air Jordan Low SE", 7);
  }

  /** Registration is visible through IsRegistered, and a name can be registered only once. */
  method RegistrationScenario() returns (before: bool, first: Outcome, after: bool, second: Outcome, count: nat)
    ensures !before && first == Pass && after && count == 1
    ensures second == Fail(DuplicateMerchant("Nike"))
  {
    var generator := new AuthorisationCodeGenerator();
    var merchants := new MerchantService(generator);
    before := merchants.IsRegistered("Nike");
    first := merchants.Register("Nike");
    after := merchants.IsRegistered("Nike");
    count := |merchants.merchantNameToCodeMap|;
    second := merchants.Register("Nike");
  }

  /** A fresh catalogue whose registry holds one logged-in merchant, "Nike". */
  method OneMerchant() returns (catalogue: ItemService, nike: string)
    ensures fresh(catalogue) && fresh(catalogue.merchantService)
    ensures catalogue.Valid() && catalogue.items == map[] && catalogue.keyOrder == []
    ensures catalogue.ValidateMerchant("Nike", nike) == Pass
  {
    var generator := new AuthorisationCodeGenerator();
    var merchants := new MerchantService(generator);
    catalogue := new ItemService(merchants);
    var registered := merchants.Register("Nike");
    var login := merchants.Login("Nike");
    nike := login.value;
  }

  /** One merchant creates one item, fails to delete an absent code, deletes the item and gets it
      back, and is left with an empty list. */
  method DeleteScenario() returns (created: Result<Item>, listed: Result<seq<Item>>,
                                   missing: Result<Item>, deleted: Result<Item>,
                                   remaining: Result<seq<Item>>)
    ensures created == Ok(AirJordan) && listed == Ok([AirJordan])
    ensures missing == Err(ItemNotFound(2))
    ensures deleted == created && remaining == Ok([])
  {
    var catalogue, nike := OneMerchant();
    created := catalogue.CreateOrUpdate("Nike", nike, 1, "Air Jordan", "Air Jordan Mid SE", 1);
    listed := catalogue.List("Nike", nike);
    assert listed.value == [AirJordan] by {
      assert [1][1..] == [];
    }
    missing := catalogue.Delete("Nike", nike, 2);
    deleted := catalogue.Delete("Nike", nike, 1);
    assert catalogue.keyOrder == [] by {
      assert [1][1..] == [];
    }
    remaining := catalogue.List("Nike", nike);
  }
}
