/** What a package costs and how long its slot is. Both are read from
    substrings of the package label the customer picked. */
module Pricing {
  import opened Wrappers
  import opened Text

  /** The rupee amounts a package label can name, each with the numeral that names it. */
  const PriceList: map<nat, string> :=
    map[2699 := "2699", 1699 := "1699", 999 := "999", 699 := "699", 499 := "499"]

  /** The label names amount `a` of the price list: it contains `a`'s numeral. */
  predicate Names(s: string, a: nat)
  {
    a in PriceList && Contains(s, PriceList[a])
  }

  /** `getPackageAmountRupees`: 0 for a missing, non-string or empty label; else the
      first of 2699, 1699, 999, 699, 499 whose numeral the label contains; else 0.
      Testing the largest first makes the result the largest amount the label names. */
  function PackageAmountRupees(pkg: Option<string>): (r: nat)
    ensures r == 0 || r in PriceList
    ensures pkg.None? || pkg.value == [] ==> r == 0
    ensures pkg.Some? ==> (r == 0 <==> forall a: nat :: !Names(pkg.value, a))
    ensures r != 0 ==> Names(pkg.value, r)
    ensures pkg.Some? ==> forall a: nat :: Names(pkg.value, a) ==> a <= r
  {
    assert PriceList.Keys == {2699, 1699, 999, 699, 499};
    match pkg
    case None => 0
    case Some(s) =>
      if s == [] then 0
      else if Contains(s, "2699") then assert Names(s, 2699); 2699
      else if Contains(s, "1699") then assert Names(s, 1699); 1699
      else if Contains(s, "999") then assert Names(s, 999); 999
      else if Contains(s, "699") then assert Names(s, 699); 699
      else if Contains(s, "499") then assert Names(s, 499); 499
      else 0
  }

  datatype PaymentError =
    | GatewayNotLoaded    // `window.Razorpay` is not a function
    | ConfigurationError  // the amount in paise is 0

  /** The amount `initiatePayment` hands to the gateway, in paise, or why it refuses
      to open the gateway. The gateway key is a non-empty constant, so only the amount
      can make the configuration check fail. */
  function CheckoutAmount(gatewayLoaded: bool, pkg: Option<string>): (r: Result<nat, PaymentError>)
    ensures r.Ok? <==> gatewayLoaded && PackageAmountRupees(pkg) != 0
    ensures r.Ok? ==> r.value > 0 && r.value % 100 == 0 && r.value / 100 == PackageAmountRupees(pkg)
    ensures !gatewayLoaded ==> r == Err(GatewayNotLoaded)
    ensures gatewayLoaded && PackageAmountRupees(pkg) == 0 ==> r == Err(ConfigurationError)
  {
    var paise := PackageAmountRupees(pkg) * 100;
    if !gatewayLoaded then Err(GatewayNotLoaded)
    else if paise == 0 then Err(ConfigurationError)
    else Ok(paise)
  }

  /** The slot length in hours: 2 when the stored label contains `2 HR`, else 1. */
  function SlotHours(pkg: Option<string>): (h: nat)
    ensures h == 1 || h == 2
    ensures h == 2 <==> pkg.Some? && Contains(pkg.value, "2 HR")
  {
    if pkg.Some? && Contains(pkg.value, "2 HR") then 2 else 1
  }

  /** The 1-hour package of the booking page: 999 rupees for one hour. */
  lemma OneHourPackage(pkg: string)
    requires pkg == "PACKAGE 999 (1 HR)"
    ensures PackageAmountRupees(Some(pkg)) == 999
    ensures SlotHours(Some(pkg)) == 1
  {
    assert pkg[8] == '9' && pkg[9] == '9' && pkg[10] == '9';
    assert pkg[8..11] == "999";
    LacksCharOf(pkg, "2699", 0);
    LacksCharOf(pkg, "1699", 1);
    ContainsAt(pkg, "999", 8);
    LacksCharOf(pkg, "2 HR", 0);
    assert !Contains(pkg, "2699") && !Contains(pkg, "1699") && Contains(pkg, "999");
  }

  /** The 2-hour package: its price is found before the `699` it also contains
      could match, and its slot lasts two hours. */
  lemma TwoHourPackage(pkg: string)
    requires pkg == "PACKAGE 2699 (2 HR)"
    ensures PackageAmountRupees(Some(pkg)) == 2699
    ensures Contains(pkg, "699")
    ensures SlotHours(Some(pkg)) == 2
  {
    assert pkg[8..12] == "2699" && pkg[9..12] == "699" && pkg[14..18] == "2 HR";
    ContainsAt(pkg, "2699", 8);
    ContainsAt(pkg, "699", 9);
    ContainsAt(pkg, "2 HR", 14);
  }

  /** A label without some character of a numeral does not contain the numeral. */
  lemma LacksCharOf(s: string, sub: string, k: nat)
    requires k < |sub| && sub[k] !in s
    ensures !Contains(s, sub)
  {
    if Contains(s, sub) { ContainedCharsOccur(s, sub, k); }
  }
}
