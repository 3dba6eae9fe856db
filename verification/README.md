# Merchant registry and item catalogue, modelled in Dafny

The system is a small in-memory catalogue guarded by authorisation. Merchants register under a
unique name and log in to receive an authorisation code. They then create, update, list and
delete items in a catalogue that all merchants share. Items are keyed by an integer code that is
unique across the whole catalogue, and each item belongs to the merchant that created it.

The model follows the three core classes of the Kotlin source:

- `CodeGenerator` (`decimal.dfy`, `code_generator.dfy`) models `SimpleAuthorisationCodeGenerator`.
  It is a class with a mutable `codeCounter`. `NextCode` advances the counter and returns `"AUTH"`
  followed by the counter's decimal rendering. `Decimal` defines that rendering and its inverse,
  and that inverse is what proves codes never repeat. The ghost predicate `Issued` describes every
  code handed out so far.
- `Merchants` (`merchants.dfy`) models `MerchantServiceInMemoryImpl`. It is a class whose
  `merchantNameToCodeMap` field maps a name to its current code. The literal `"NO_AUTH_CODE"` is
  stored until the first login. The class holds a reference to the generator, which is shared and
  not owned. Its invariant `Valid` says that every stored code is the sentinel or was issued by
  the generator. `IsRegistered` is the key-membership test. `Register` always leaves the name
  registered, and neither `Register` nor `Login` ever unregisters a name.
- `Catalogue` (`catalogue.dfy`) models `ItemServiceInMemoryImpl` and `MerchantItem`. It is a class
  with an `items` map from code to owner and item. The source's `mutableMapOf` is a linked hash
  map, so listing follows insertion order (`List` is `Owned` over that order, and `OwnedAppend`
  shows that a newly added code's item comes last; `WithoutKeepsOrder` shows that a delete
  leaves the other codes in place). The model keeps that order in a second field,
  `keyOrder`. A new key is appended, an update keeps its position, and a removal drops it.
  `Valid` says that each entry is stored under its own item's code and that `keyOrder` lists every
  key exactly once.
- `Domain` and `Errors` hold the `Item` record, the 32-bit item code, the UUID and the exceptions.
  Each exception is an `Error` constructor carrying the merchant name or the item code. The
  authorisation exception has two messages, so it becomes two constructors, `NotLoggedIn` and
  `InvalidAuthorisationCode`.
- `Scenarios` (`scenarios.dfy`) holds client methods that follow flows from the repository's
  tests. Their proofs use the services' contracts together with the definitions of `CodeFor`,
  `List` and `Owned`.

Where the interface documentation and the implementation differ, the model follows the
implementation:
- An unregistered merchant gets `MerchantNotFound` from `checkAuthorisationCode`, not an
  authorisation failure (`MerchantService.kt:37` against `MerchantServiceInMemoryImpl.kt:37-38`).
- `delete` removes an item whoever owns it (`ItemService.kt:47` against
  `ItemServiceInMemoryImpl.kt:43-49`).
- The "not logged in" state is the stored string `"NO_AUTH_CODE"`, as in the code. It is not an
  absent value. `Merchants.GeneratedCodeIsNotSentinel` shows that no generated code can collide
  with it, and `CheckAuthorisationCode` shows that presenting the literal never authorises.

## Model

| member | source | states |
|---|---|---|
| `Decimal.Render` | src/main/kotlin/co/uk/collcomputing/application/utilities/SimpleAuthorisationCodeGenerator.kt:9 | the counter's rendering in the code is non-empty, only digits, has no leading zero, and is one digit long exactly when the number is below ten |
| `Decimal.ValueOfRender` | src/main/kotlin/co/uk/collcomputing/application/utilities/SimpleAuthorisationCodeGenerator.kt:9 | reading the rendering back as a decimal number gives the number rendered |
| `Decimal.RenderInjective` | src/main/kotlin/co/uk/collcomputing/application/utilities/SimpleAuthorisationCodeGenerator.kt:9 | two numbers with the same rendering are equal |
| `CodeGenerator.CodeFor` | src/main/kotlin/co/uk/collcomputing/application/utilities/SimpleAuthorisationCodeGenerator.kt:9 | a code is longer than and starts with "AUTH", and the rest is digits denoting the counter value |
| `CodeGenerator.CodeForInjective` | src/main/kotlin/co/uk/collcomputing/application/utilities/SimpleAuthorisationCodeGenerator.kt:6-9 | different counter values give different codes |
| `CodeGenerator.AuthorisationCodeGenerator.constructor` | src/main/kotlin/co/uk/collcomputing/application/utilities/SimpleAuthorisationCodeGenerator.kt:5-6 | the counter starts at 0, so the first code is "AUTH1" |
| `CodeGenerator.AuthorisationCodeGenerator.NextCode` | src/main/kotlin/co/uk/collcomputing/application/utilities/SimpleAuthorisationCodeGenerator.kt:8-10 | the counter grows by exactly one; the code returned is the one for the new value; it was never issued before and every earlier code stays issued |
| `Merchants.GeneratedCodeIsNotSentinel` | src/main/kotlin/co/uk/collcomputing/application/impl/MerchantServiceInMemoryImpl.kt:15 | no generated code equals the "NO_AUTH_CODE" sentinel |
| `Merchants.MerchantService.constructor` | src/main/kotlin/co/uk/collcomputing/application/impl/MerchantServiceInMemoryImpl.kt:10-12 | a new registry is empty, uses the generator it is given, and satisfies its invariant |
| `Merchants.MerchantService.Register` | src/main/kotlin/co/uk/collcomputing/application/impl/MerchantServiceInMemoryImpl.kt:18-22 | fails with DuplicateMerchant(name) exactly when the name is present, and then leaves the map untouched, including that merchant's current code; otherwise adds the name with the sentinel, grows the map by one and makes the name registered; in either case the name is registered afterwards and no registered name is lost |
| `Merchants.MerchantService.Login` | src/main/kotlin/co/uk/collcomputing/application/impl/MerchantServiceInMemoryImpl.kt:24-32 | an unregistered name fails with MerchantNotFound and changes nothing, the counter included; otherwise the next generated code is stored for that name only and returned; the key set never changes; the code was never issued, is not the sentinel and differs from the code it replaces; afterwards it is accepted and every other code is rejected as invalid; the set of registered names is the same before and after |
| `Merchants.MerchantService.CheckAuthorisationCode` | src/main/kotlin/co/uk/collcomputing/application/impl/MerchantServiceInMemoryImpl.kt:34-44 | succeeds exactly when the name is registered, its stored code equals the argument and the argument is not the sentinel; MerchantNotFound exactly when the name is not registered; NotLoggedIn exactly when the sentinel is stored; any other failure is an authorisation failure naming the merchant; the literal sentinel never succeeds; it reads state only |
| `Merchants.MerchantService.IsRegistered` | src/main/kotlin/co/uk/collcomputing/application/impl/MerchantServiceInMemoryImpl.kt:34 | true exactly for the names present in the map, logged in or not; it only reads state (the Register and Login rows say that a registration, once made, is never lost) |
| `Catalogue.Owned` | src/main/kotlin/co/uk/collcomputing/application/impl/ItemServiceInMemoryImpl.kt:40 | the filtered items are exactly the items of the entries owned by the given merchant, and there are no more of them than keys |
| `Catalogue.OwnedAppend` | src/main/kotlin/co/uk/collcomputing/application/impl/ItemServiceInMemoryImpl.kt:13-40 | filtering a key order extended by one key lists the earlier keys' items first and then that key's item if the owner matches, so a listing follows the insertion order of the codes |
| `Catalogue.OwnedCodesDistinct` | src/main/kotlin/co/uk/collcomputing/application/impl/ItemServiceInMemoryImpl.kt:40 | over distinct keys, each stored under its own item's code, the listed items have pairwise distinct codes |
| `Catalogue.Without` | src/main/kotlin/co/uk/collcomputing/application/impl/ItemServiceInMemoryImpl.kt:47 | removing a key from the iteration order keeps exactly the other keys, keeps them distinct, and changes nothing when the key is absent |
| `Catalogue.WithoutKeepsOrder` | src/main/kotlin/co/uk/collcomputing/application/impl/ItemServiceInMemoryImpl.kt:47 | removing a key that occurs once closes its gap in the iteration order and leaves every other key in its place, so a listing after a delete still follows insertion order |
| `Catalogue.ItemService.constructor` | src/main/kotlin/co/uk/collcomputing/application/impl/ItemServiceInMemoryImpl.kt:11-13 | a new catalogue is empty, is bound to the given registry, and satisfies its invariant |
| `Catalogue.ItemService.ValidateMerchant` | src/main/kotlin/co/uk/collcomputing/application/impl/ItemServiceInMemoryImpl.kt:51-55 | the verdict is exactly the registry's CheckAuthorisationCode, so the registration check first adds nothing; it passes exactly for a registered merchant presenting its current, non-sentinel code |
| `Catalogue.ItemService.CreateOrUpdate` | src/main/kotlin/co/uk/collcomputing/application/impl/ItemServiceInMemoryImpl.kt:15-36 | a registry failure is returned unchanged; a code owned by another merchant gives DuplicateItem(code); on every failure the map and order are untouched; an absent code gains exactly one entry owned by the caller, holding the given identifier, code, title and description, appended to the order and returned; the caller's own item keeps identifier, code, owner and position, and only title and description change; no entry ever changes owner or identifier or disappears; the invariant is kept |
| `Catalogue.ItemService.List` | src/main/kotlin/co/uk/collcomputing/application/impl/ItemServiceInMemoryImpl.kt:38-41 | a registry failure is returned unchanged; otherwise it succeeds and the result holds exactly the items the caller owns, with pairwise distinct codes, in the insertion order of their codes, and it changes no state |
| `Catalogue.ItemService.Delete` | src/main/kotlin/co/uk/collcomputing/application/impl/ItemServiceInMemoryImpl.kt:43-49 | a registry failure is returned unchanged; an absent code gives ItemNotFound(code); on every failure nothing changes; a present code, whoever owns it, is removed from map and order alone and its item is returned; the invariant is kept |
| `Scenarios.ReloginScenario` | src/test/kotlin/co/uk/collcomputing/application/impl/MerchantServiceInMemoryImplTest.kt:49-56 | from a fresh generator, two logins return "AUTH1" then "AUTH2"; the first code is then rejected as invalid and the second accepted |
| `Scenarios.TwoMerchants` | src/test/kotlin/co/uk/collcomputing/application/impl/ItemServiceInMemoryImplTest.kt:91-95 | registering and logging in two merchants leaves an empty catalogue in which both pass validation with their codes |
| `Scenarios.CreateItems` | src/test/kotlin/co/uk/collcomputing/application/impl/ItemServiceInMemoryImplTest.kt:76-87 | with both merchants registered and logged in beforehand, and with an extra code 2 created by the first merchant: after that merchant creates code 1, the other merchant is refused code 1 with DuplicateItem(1) and the catalogue is unchanged by the refusal |
| `Scenarios.CatalogueScenario` | src/test/kotlin/co/uk/collcomputing/application/impl/ItemServiceInMemoryImplTest.kt:76-153 | with two merchants: the owner lists both items in creation order, the other merchant lists none, deleting code 1 returns the created item, deleting the absent code 3 fails with ItemNotFound(3), and the list then holds only code 2 |
| `Scenarios.UpdateScenario` | src/test/kotlin/co/uk/collcomputing/application/impl/ItemServiceInMemoryImplTest.kt:37-47 | re-submitting an owned code with a new description returns the created item with only the description replaced, even though a different identifier is offered |
| `Scenarios.RegistrationScenario` | src/test/kotlin/co/uk/collcomputing/application/impl/MerchantServiceInMemoryImplTest.kt:24-71 | a name is unregistered before and registered after its registration, the map then holds one merchant, and registering it again fails with DuplicateMerchant |
| `Scenarios.OneMerchant` | src/integrationTest/kotlin/co/uk/kodypay/application/MerchantServiceIntegrationTest.kt:97-99 | registering and logging in one merchant leaves an empty catalogue in which it passes validation with its code |
| `Scenarios.DeleteScenario` | src/integrationTest/kotlin/co/uk/kodypay/application/MerchantServiceIntegrationTest.kt:96-110 | one merchant creates one item and lists it alone; deleting the absent code 2 fails with ItemNotFound(2); deleting code 1 returns the created item; the list is then empty |

## Left out

- Thread safety: the concurrent map and the atomic counter are modelled as plain fields, and each call is one atomic sequential step.
- CodeGenerator.AuthorisationCodeGenerator.NextCode: the counter is an unbounded natural number, so the model does not capture the 32-bit wrap-around of the source's `AtomicInteger` after 2^31 - 1 codes. After that the source renders negative numbers, and codes would repeat after 2^32 calls.
- The generator's singleton-ness: the model passes one generator object by reference to each registry. Issued codes stay issued, so another registry advancing the shared generator keeps this registry's invariant true.
- `UUID.randomUUID()`: the identifier of a new item is a parameter (`freshId`). The model says nothing about how unique UUIDs are, only that an update preserves the identifier.
- Catalogue.ItemService.CreateOrUpdate and Catalogue.ItemService.List: `Item` is a value here. Both return the stored `Item` objects in the source (`ItemServiceInMemoryImpl.kt:35`, `:40`), whose fields are `var`, so a caller could change a stored entry through them, even its `code`, which would break the rule that each entry is stored under its own code. The model does not capture that aliasing.
- The text of the exception messages: each error carries only the merchant name or the item code.
- `List` returns a sequence; the source converts it to an array.
