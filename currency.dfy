/** Currency and region classification: the local-currency test the
    dashboard applies before converting an amount (src/App.tsx:303-308) and
    `normalizeCountry` (src/App.tsx:70-80), which the monthly series uses to
    split revenue between Taiwan and overseas. */
module Currency {
  import opened Text

  /** The label a row without a currency is given (`'臺幣'`). */
  const DefaultCurrency: string := "臺幣"

  /** The markers whose presence makes a currency label local. */
  predicate HasLocalMarker(s: string) {
    Contains(s, "TWD") || Contains(s, "NT") || Contains(s, "臺幣") || Contains(s, "台幣")
  }

  /** `detectedCurrency`: the row's own label, or the default when it has none. */
  function DetectedCurrency(currency: string): (r: string)
    ensures r != []
    ensures currency != [] ==> r == currency
    ensures currency == [] ==> r == DefaultCurrency
  {
    if currency == "" then DefaultCurrency else currency
  }

  /** `currencyCode.replace(/\s/g, '')`, where `currencyCode` is the upper-cased
      label, or the default label when the row has none. */
  function NormalizedCurrency(currency: string): (r: string)
    ensures forall c :: c in r ==> !IsSpace(c) && !('a' <= c <= 'z')
    ensures currency == [] ==> r == DefaultCurrency
    ensures currency != [] ==> r == RemoveSpaces(Upper(currency))
  {
    var code := if currency == "" then DefaultCurrency else Upper(currency);
    var r := RemoveSpaces(code);
    assert forall c :: c in r ==> !('a' <= c <= 'z') by {
      if currency == "" {
        DefaultIsNormal();
      }
    }
    r
  }

  /** `isLocal`: an amount in a local currency is kept as it is. */
  predicate IsLocal(currency: string) {
    HasLocalMarker(NormalizedCurrency(currency))
  }

  /** The two regions of the market analysis. */
  datatype Region = Taiwan | Overseas

  /** The label the dashboard shows for a region. */
  function RegionLabel(r: Region): (l: string)
    ensures l == "台灣" || l == "海外"
  {
    match r
    case Taiwan => "台灣"
    case Overseas => "海外"
  }

  predicate TaiwanMarked(c: string) {
    Contains(c, "taiwan") || Contains(c, "台灣") || Contains(c, "tw")
  }

  predicate OverseasMarked(c: string) {
    Contains(c, "overseas") || Contains(c, "海外") || Contains(c, "foreign")
  }

  /** `normalizeCountry`: the trimmed, lower-cased country decides when it
      names a region (Taiwan markers first); otherwise the trimmed,
      upper-cased, space-free currency decides by the local markers. */
  function NormalizeCountry(country: string, currency: string): (r: Region)
    ensures TaiwanMarked(Lower(Trim(country))) ==> r == Taiwan
    ensures !TaiwanMarked(Lower(Trim(country))) && OverseasMarked(Lower(Trim(country))) ==> r == Overseas
    ensures !TaiwanMarked(Lower(Trim(country))) && !OverseasMarked(Lower(Trim(country))) ==>
              (r == Taiwan <==> HasLocalMarker(RemoveSpaces(Upper(Trim(currency)))))
  {
    var c := Lower(Trim(country));
    var cur := RemoveSpaces(Upper(Trim(currency)));
    if TaiwanMarked(c) then Taiwan
    else if OverseasMarked(c) then Overseas
    else if HasLocalMarker(cur) then Taiwan
    else Overseas
  }

  /** The default label is unchanged by upper-casing and white-space removal. */
  lemma DefaultIsNormal()
    ensures Upper(DefaultCurrency) == DefaultCurrency
    ensures RemoveSpaces(DefaultCurrency) == DefaultCurrency
  {
    assert !IsSpace('臺') && !IsSpace('幣');
    assert RemoveSpaces(DefaultCurrency[1..]) == DefaultCurrency[1..];
  }

  /** The region split of the monthly series agrees with the currency
      conversion: for a row whose country names no region, the region is
      Taiwan exactly when the row's amount was treated as local. */
  lemma RegionAgreesWithConversion(country: string, currency: string)
    requires !TaiwanMarked(Lower(Trim(country))) && !OverseasMarked(Lower(Trim(country)))
    ensures NormalizeCountry(country, DetectedCurrency(currency)) == Taiwan <==> IsLocal(currency)
  {
    var d := DetectedCurrency(currency);
    CurrencyKey(d);
    if currency == "" {
      DefaultIsNormal();
    } else {
      RemoveSpacesUpper(currency);
    }
  }

  /** What `normalizeCountry` makes of a currency label does not depend on
      white space or on the order of trimming, upper-casing and removal. */
  lemma CurrencyKey(s: string)
    ensures RemoveSpaces(Upper(Trim(s))) == Upper(RemoveSpaces(s))
  {
    RemoveSpacesUpper(Trim(s));
    RemoveSpacesTrim(s);
  }

  /** The local test ignores letter case. */
  lemma LocalIgnoresCase(currency: string)
    ensures IsLocal(Lower(currency)) <==> IsLocal(currency)
  {
    UpperOfLower(currency);
  }

  /** A row without a currency is local. */
  lemma EmptyIsLocal()
    ensures IsLocal("")
  {
    DefaultIsNormal();
    ContainsAt(DefaultCurrency, "臺幣", 0);
  }

  /** `"usd"` is a foreign currency. */
  lemma UsdIsForeign()
    ensures !IsLocal("usd")
  {
    NormalizedUsd();
    UsdNoMarker();
  }

  lemma NormalizedUsd()
    ensures NormalizedCurrency("usd") == "USD"
  {
    assert Upper("usd") == "USD";
    RemoveSpacesVisible("USD");
  }

  lemma UsdNoMarker()
    ensures !HasLocalMarker("USD")
  {
    NotContainsWithoutChar("USD", "TWD", 1);
    NotContainsWithoutChar("USD", "NT", 0);
    NotContainsWithoutChar("USD", "臺幣", 0);
    NotContainsWithoutChar("USD", "台幣", 0);
  }

  /** `"nt $"` is local: white space is removed and case ignored. */
  lemma NtDollarIsLocal()
    ensures IsLocal("nt $")
  {
    NormalizedNtDollar();
    NtMarker();
  }

  lemma NtMarker()
    ensures HasLocalMarker("NT$")
  {
    ContainsAt("NT$", "NT", 0);
  }

  lemma NormalizedNtDollar()
    ensures NormalizedCurrency("nt $") == "NT$"
  {
    UpperNtDollar();
    RemoveSpacesNtDollar();
  }

  lemma UpperNtDollar()
    ensures Upper("nt $") == "NT $"
  {
  }

  lemma RemoveSpacesNtDollar()
    ensures RemoveSpaces("NT $") == "NT$"
  {
    assert "NT $" == "NT" + (" " + "$");
    RemoveSpacesVisible("NT");
    RemoveSpacesVisible("$");
    RemoveSpacesAppend(" ", "$");
    RemoveSpacesAppend("NT", " " + "$");
  }
}
