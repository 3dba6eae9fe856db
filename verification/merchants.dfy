/** The merchant registry: a map from merchant name to that merchant's current authorisation code. */
module Merchants {
  import opened Errors
  import opened CodeGenerator

  /** The code stored for a merchant that has registered but never logged in. */
  const NoAuthCode: string := "NO_AUTH_CODE"

  /** No generated code is the sentinel, so a login always replaces it. */
  lemma GeneratedCodeIsNotSentinel(n: nat)
    ensures CodeFor(n) != NoAuthCode
  {
  }

  class MerchantService {
    /** Merchant name to its current code, or to NoAuthCode before the first login. */
    var merchantNameToCodeMap: map<string, string>
    /** The generator is shared with every other registry; it is referenced, not owned. */
    const generator: AuthorisationCodeGenerator

    /** Every stored code is the sentinel or was issued by the generator. */
    ghost predicate Valid()
      reads this, generator
    {
      forall name :: name in merchantNameToCodeMap ==>
        merchantNameToCodeMap[name] == NoAuthCode || generator.Issued(merchantNameToCodeMap[name])
    }

    constructor (generator: AuthorisationCodeGenerator)
      ensures this.generator == generator
      ensures merchantNameToCodeMap == map[]
      ensures Valid()
    {
      this.generator := generator;
      merchantNameToCodeMap := map[];
    }

    /** Adds `name` in the not-logged-in state unless it is present; an existing entry is left as it is. */
    method Register(merchantName: string) returns (r: Outcome)
      requires Valid()
      modifies this
      ensures Valid()
      ensures r.Fail? <==> merchantName in old(merchantNameToCodeMap)
      ensures r.Fail? ==>
        && r.error == DuplicateMerchant(merchantName)
        && merchantNameToCodeMap == old(merchantNameToCodeMap)
      ensures r == Pass ==>
        && merchantNameToCodeMap == old(merchantNameToCodeMap)[merchantName := NoAuthCode]
        && |merchantNameToCodeMap| == |old(merchantNameToCodeMap)| + 1
      // Whatever the outcome, the name is registered afterwards, and no registered name is lost.
      ensures IsRegistered(merchantName)
      ensures forall name :: old(IsRegistered(name)) ==> IsRegistered(name)
    {
      if merchantName in merchantNameToCodeMap {
        r := Fail(DuplicateMerchant(merchantName));
      } else {
        merchantNameToCodeMap := merchantNameToCodeMap[merchantName := NoAuthCode];
        r := Pass;
      }
    }

    /** Stores a freshly generated code as the merchant's only valid code and returns it. */
    method Login(merchantName: string) returns (r: Result<string>)
      requires Valid()
      modifies this, generator
      ensures Valid()
      ensures merchantNameToCodeMap.Keys == old(merchantNameToCodeMap.Keys)
      ensures forall name :: IsRegistered(name) <==> old(IsRegistered(name))
      ensures r.Err? <==> merchantName !in old(merchantNameToCodeMap)
      ensures r.Err? ==>
        && r.error == MerchantNotFound(merchantName)
        && merchantNameToCodeMap == old(merchantNameToCodeMap)
        && generator.codeCounter == old(generator.codeCounter)
      ensures r.Ok? ==>
        && generator.codeCounter == old(generator.codeCounter) + 1
        && r.value == CodeFor(generator.codeCounter)
        && merchantNameToCodeMap == old(merchantNameToCodeMap)[merchantName := r.value]
      // The new code was never issued before, so it differs from the code it replaces.
      ensures r.Ok? ==>
        && !old(generator.Issued(r.value))
        && r.value != NoAuthCode
        && r.value != old(merchantNameToCodeMap[merchantName])
      // The new code is accepted, and every other code (the replaced one included) is rejected.
      ensures r.Ok? ==>
        && CheckAuthorisationCode(merchantName, r.value) == Pass
        && forall code :: code != r.value ==>
             CheckAuthorisationCode(merchantName, code) == Fail(InvalidAuthorisationCode(merchantName))
    {
      if merchantName !in merchantNameToCodeMap {
        return Err(MerchantNotFound(merchantName));
      }
      var authorisationCode := generator.NextCode();
      GeneratedCodeIsNotSentinel(generator.codeCounter);
      merchantNameToCodeMap := merchantNameToCodeMap[merchantName := authorisationCode];
      r := Ok(authorisationCode);
    }

    /** Registered means present in the map, whether logged in or not. */
    function IsRegistered(merchantName: string): (r: bool)
      reads this
      ensures r <==> merchantName in merchantNameToCodeMap.Keys
    {
      merchantName in merchantNameToCodeMap
    }

    /** Succeeds exactly for a registered, logged-in merchant presenting its current code;
        otherwise says which of the three checks, made in that order, failed. */
    function CheckAuthorisationCode(merchantName: string, authorisationCode: string): (r: Outcome)
      reads this
      ensures r == Pass <==>
        && merchantName in merchantNameToCodeMap
        && merchantNameToCodeMap[merchantName] == authorisationCode
        && authorisationCode != NoAuthCode
      ensures r == Fail(MerchantNotFound(merchantName)) <==> !IsRegistered(merchantName)
      ensures r == Fail(NotLoggedIn(merchantName)) <==>
        merchantName in merchantNameToCodeMap && merchantNameToCodeMap[merchantName] == NoAuthCode
      ensures r.Fail? && r.error != MerchantNotFound(merchantName) ==>
        r.error.IsAuthorisationFailure() && r.error.merchantName == merchantName
      // The sentinel itself never authorises.
      ensures authorisationCode == NoAuthCode ==> r.Fail?
    {
      if !IsRegistered(merchantName) then
        Fail(MerchantNotFound(merchantName))
      else
        var authorisation := merchantNameToCodeMap[merchantName];
        if authorisation == NoAuthCode then
          Fail(NotLoggedIn(merchantName))
        else if authorisation != authorisationCode then
          Fail(InvalidAuthorisationCode(merchantName))
        else
          Pass
    }
  }
}
