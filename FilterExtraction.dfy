/** The chat assistant's filter extractor (`extractInfo`): four independent keyword and pattern
    rules run over the lower-cased message, each filling one optional field of the filter. The
    regular expressions are written out as leftmost-match scans. */
module FilterExtraction {
  import opened Wrappers
  import opened Strings
  import opened Listings

  /** The `PropertyFilter` shape: every field is optional, and an absent field constrains nothing. */
  datatype PropertyFilter = PropertyFilter(
    forType: Option<ForType>,
    city: Option<string>,
    maxPrice: Option<nat>,
    propertyType: Option<PropertyType>)

  /** Intent rule: "rent" sets RENT, and then any of "buy", "sale", "sell" sets SALE, overwriting
      it. The keywords are substrings, not words. */
  function ForTypeRule(msg: string): Option<ForType>
  {
    var afterRent := if Contains(msg, "rent") then Some(Rent) else None;
    if Contains(msg, "buy") || Contains(msg, "sale") || Contains(msg, "sell") then Some(Sale)
    else afterRent
  }

  ghost predicate HasSaleKeyword(msg: string)
  {
    exists i :: OccursAt(msg, "buy", i) || OccursAt(msg, "sale", i) || OccursAt(msg, "sell", i)
  }

  ghost predicate HasRentKeyword(msg: string)
  {
    exists i :: OccursAt(msg, "rent", i)
  }

  /** The intent is SALE whenever a sale keyword occurs anywhere, RENT when only "rent" occurs,
      and absent otherwise; so SALE wins when both occur. */
  lemma ForTypeRuleSpec(msg: string)
    ensures ForTypeRule(msg) == Some(Sale) <==> HasSaleKeyword(msg)
    ensures ForTypeRule(msg) == Some(Rent) <==> HasRentKeyword(msg) && !HasSaleKeyword(msg)
    ensures ForTypeRule(msg).None? <==> !HasRentKeyword(msg) && !HasSaleKeyword(msg)
  {
    ContainsIff(msg, "rent");
    ContainsIff(msg, "buy");
    ContainsIff(msg, "sale");
    ContainsIff(msg, "sell");
  }

  /** The three regular expressions of the extractor. */
  datatype Pattern = CityPattern | PricePattern | TypePattern

  /** Whether `pat` can match starting at position `i` of `msg`. */
  predicate MatchesAt(pat: Pattern, msg: string, i: int)
  {
    match pat
    case CityPattern => CityMatchAt(msg, i)
    case PricePattern => PriceMatchAt(msg, i)
    case TypePattern => TypeMatchAt(msg, i).Some?
  }

  /** The leftmost position at or after `from` where `pat` can match, which is the match a
      regular-expression search reports. */
  function Leftmost(pat: Pattern, msg: string, from: nat): (r: Option<nat>)
    decreases |msg| - from
    ensures r.Some? ==> from <= r.value < |msg| && MatchesAt(pat, msg, r.value)
    ensures r.Some? ==> forall q :: from <= q < r.value ==> !MatchesAt(pat, msg, q)
    ensures r.None? ==> forall q :: from <= q < |msg| ==> !MatchesAt(pat, msg, q)
  {
    if from >= |msg| then None
    else if MatchesAt(pat, msg, from) then Some(from)
    else Leftmost(pat, msg, from + 1)
  }

  /** `/in ([a-zA-Z]+)/` can match at `i`: "in " sits there and a letter follows it. */
  predicate CityMatchAt(msg: string, i: int)
  {
    OccursAt(msg, "in ", i) && i + 3 < |msg| && IsLetter(msg[i + 3])
  }

  /** Where `/in ([a-zA-Z]+)/` matches: the leftmost position at which it can. */
  function CityMatch(msg: string): (r: Option<nat>)
    ensures r.Some? ==> CityMatchAt(msg, r.value) && forall q :: 0 <= q < r.value ==> !CityMatchAt(msg, q)
    ensures r.None? ==> forall q :: 0 <= q ==> !CityMatchAt(msg, q)
  {
    var r := Leftmost(CityPattern, msg, 0);
    assert forall q :: MatchesAt(CityPattern, msg, q) <==> CityMatchAt(msg, q);
    r
  }


  /** City rule: the greedy letter run after the leftmost position where the city pattern matches. */
  function CityRule(msg: string): Option<string>
  {
    match CityMatch(msg)
    case None => None
    case Some(p) => Some(msg[p + 3..p + 3 + Span(msg, p + 3, IsLetter)])
  }

  /** What `/in ([a-zA-Z]+)/` captures: the leftmost "in " followed by a letter, then every letter
      that follows it. */
  ghost predicate IsCityCapture(msg: string, c: string, p: int)
  {
    CityMatchAt(msg, p)
    && (forall q :: 0 <= q < p ==> !CityMatchAt(msg, q))
    && OccursAt(msg, c, p + 3)
    && |c| > 0
    && (forall k :: 0 <= k < |c| ==> IsLetter(c[k]))
    && (p + 3 + |c| == |msg| || !IsLetter(msg[p + 3 + |c|]))
  }

  /** The city is present exactly when the pattern matches somewhere, and then it is the
      non-empty, maximal letter run of the leftmost match. */
  lemma CityRuleSpec(msg: string)
    ensures CityRule(msg).None? <==> forall q :: 0 <= q ==> !CityMatchAt(msg, q)
    ensures CityRule(msg).Some? ==> exists p :: IsCityCapture(msg, CityRule(msg).value, p)
  {
    if CityMatch(msg).Some? {
      var p := CityMatch(msg).value;
      assert IsCityCapture(msg, CityRule(msg).value, p);
    }
  }

  /** Run on a lower-cased message, the city has no upper-case letter. */
  lemma CityIsLowerCase(message: string)
    ensures var c := CityRule(Lower(message));
            c.Some? ==> forall k :: 0 <= k < |c.value| ==> IsLower(c.value[k])
  {
    var msg := Lower(message);
    CityRuleSpec(msg);
    if CityRule(msg).Some? {
      var c := CityRule(msg).value;
      var p :| IsCityCapture(msg, c, p);
      forall k | 0 <= k < |c|
        ensures IsLower(c[k])
      {
        assert c[k] == msg[p + 3 + k];
      }
    }
  }

  /** The `\d{4,7}` capture cap. */
  const MaxPriceDigits := 7

  /** `/under (\d{4,7})/` can match at `i`: "under " sits there and four digits follow it. */
  predicate PriceMatchAt(msg: string, i: int)
  {
    OccursAt(msg, "under ", i) && Span(msg, i + 6, IsDigit) >= 4
  }

  /** Where `/under (\d{4,7})/` matches: the leftmost position at which it can. */
  function PriceMatch(msg: string): (r: Option<nat>)
    ensures r.Some? ==> PriceMatchAt(msg, r.value) && forall q :: 0 <= q < r.value ==> !PriceMatchAt(msg, q)
    ensures r.None? ==> forall q :: 0 <= q ==> !PriceMatchAt(msg, q)
  {
    var r := Leftmost(PricePattern, msg, 0);
    assert forall q :: MatchesAt(PricePattern, msg, q) <==> PriceMatchAt(msg, q);
    r
  }


  /** Price rule: the number written by the first seven (at most) of the digits after the
      leftmost matching "under ". */
  function PriceRule(msg: string): Option<nat>
  {
    match PriceMatch(msg)
    case None => None
    case Some(p) =>
      var n := Min(Span(msg, p + 6, IsDigit), MaxPriceDigits);
      Some(DecimalValue(msg[p + 6..p + 6 + n]))
  }

  /** What `/under (\d{4,7})/` captures and `parseFloat` reads: the `n` digits after the leftmost
      "under " followed by four digits, where `n` is the length of the digit run, capped at seven. */
  ghost predicate IsPriceCapture(msg: string, v: nat, p: int, n: int)
  {
    PriceMatchAt(msg, p) && (forall q :: 0 <= q < p ==> !PriceMatchAt(msg, q))
    && 4 <= n <= MaxPriceDigits && p + 6 + n <= |msg| && AllDigits(msg[p + 6..p + 6 + n])
    && (n == MaxPriceDigits || p + 6 + n == |msg| || !IsDigit(msg[p + 6 + n]))
    && v == DecimalValue(msg[p + 6..p + 6 + n])
  }

  /** The price is present exactly when some "under " is followed by four digits; it is then the
      value of the leading digits (seven at most) after the leftmost such "under ", so it never
      exceeds 9999999. */
  lemma PriceRuleSpec(msg: string)
    ensures PriceRule(msg).None? <==> forall q :: 0 <= q ==> !PriceMatchAt(msg, q)
    ensures PriceRule(msg).Some? ==> PriceRule(msg).value <= 9999999
    ensures PriceRule(msg).Some? ==> exists p, n :: IsPriceCapture(msg, PriceRule(msg).value, p, n)
  {
    if PriceMatch(msg).Some? {
      var p := PriceMatch(msg).value;
      var run := Span(msg, p + 6, IsDigit);
      var n := Min(run, MaxPriceDigits);
      var ds := msg[p + 6..p + 6 + n];
      assert AllDigits(ds) by {
        forall k | 0 <= k < |ds|
          ensures IsDigit(ds[k])
        {
          assert ds[k] == msg[p + 6 + k];
        }
      }
      assert n == MaxPriceDigits || p + 6 + n == |msg| || !IsDigit(msg[p + 6 + n]);
      assert PriceRule(msg) == Some(DecimalValue(ds));
      CappedDigitsBound(ds);
      assert IsPriceCapture(msg, DecimalValue(ds), p, n);
    }
  }

  /** At most seven digits denote at most 9999999. */
  lemma CappedDigitsBound(ds: string)
    requires AllDigits(ds) && |ds| <= MaxPriceDigits
    ensures DecimalValue(ds) <= 9999999
  {
    DecimalValueBound(ds);
    assert Pow10(|ds|) <= 10000000 by {
      if |ds| <= 3 { assert Pow10(3) == 1000; }
      else if |ds| == 4 { assert Pow10(4) == 10000; }
      else if |ds| == 5 { assert Pow10(5) == 100000; }
      else if |ds| == 6 { assert Pow10(6) == 1000000; }
      else { assert Pow10(7) == 10000000; }
    }
  }

  /** The literal word the pattern looks for, for each property type. */
  function TypeWord(t: PropertyType): string
  {
    match t
    case House => "house"
    case Villa => "villa"
    case Apartment => "apartment"
    case Studio => "studio"
    case Plot => "plot"
  }

  /** Upper-casing the matched word gives the stored type name. */
  lemma TypeNameIsUpperWord(t: PropertyType)
    ensures TypeName(t) == Upper(TypeWord(t))
  {
  }

  /** `/house|villa|apartment|studio|plot/` tried at `i`, alternatives in order. */
  function TypeMatchAt(msg: string, i: int): (r: Option<PropertyType>)
    ensures r.Some? ==> OccursAt(msg, TypeWord(r.value), i)
    ensures r.None? ==> forall t :: !OccursAt(msg, TypeWord(t), i)
  {
    if OccursAt(msg, "house", i) then Some(House)
    else if OccursAt(msg, "villa", i) then Some(Villa)
    else if OccursAt(msg, "apartment", i) then Some(Apartment)
    else if OccursAt(msg, "studio", i) then Some(Studio)
    else if OccursAt(msg, "plot", i) then Some(Plot)
    else None
  }

  /** Where `/house|villa|apartment|studio|plot/` matches: the leftmost position at which one of
      its words starts. */
  function TypeMatch(msg: string): (r: Option<nat>)
    ensures r.Some? ==> TypeMatchAt(msg, r.value).Some? && NoTypeWordBefore(msg, r.value)
    ensures r.None? ==> NoTypeWordBefore(msg, |msg|)
  {
    var r := Leftmost(TypePattern, msg, 0);
    var end := if r.Some? then r.value else |msg|;
    assert NoTypeWordBefore(msg, end) by {
      forall q, u | 0 <= q < end
        ensures !OccursAt(msg, TypeWord(u), q)
      {
        assert !MatchesAt(TypePattern, msg, q);
      }
    }
    r
  }


  /** No type word starts before position `p`. */
  ghost predicate NoTypeWordBefore(msg: string, p: int)
  {
    forall q, u :: 0 <= q < p ==> !OccursAt(msg, TypeWord(u), q)
  }

  /** Property-type rule: the type whose word occurs leftmost. */
  function PropertyTypeRule(msg: string): Option<PropertyType>
  {
    match TypeMatch(msg)
    case None => None
    case Some(p) => TypeMatchAt(msg, p)
  }

  /** The type is `t` exactly when the word of `t` occurs at some position and no type word
      occurs earlier; it is absent exactly when no type word occurs at all. */
  lemma PropertyTypeRuleSpec(msg: string, t: PropertyType)
    ensures PropertyTypeRule(msg) == Some(t) <==>
              exists p :: OccursAt(msg, TypeWord(t), p) && NoTypeWordBefore(msg, p)
    ensures PropertyTypeRule(msg).None? <==> NoTypeWordBefore(msg, |msg|)
  {
    if TypeMatch(msg).Some? {
      var p := TypeMatch(msg).value;
      var s := TypeMatchAt(msg, p).value;
      assert OccursAt(msg, TypeWord(s), p);
      forall p' | OccursAt(msg, TypeWord(t), p') && NoTypeWordBefore(msg, p')
        ensures s == t
      {
        LeftmostWordUnique(msg, s, p, t, p');
      }
    }
  }

  /** Two leftmost type-word occurrences are the same occurrence of the same word. */
  lemma LeftmostWordUnique(msg: string, s: PropertyType, p: int, t: PropertyType, p': int)
    requires OccursAt(msg, TypeWord(s), p) && NoTypeWordBefore(msg, p)
    requires OccursAt(msg, TypeWord(t), p') && NoTypeWordBefore(msg, p')
    ensures p == p' && s == t
  {
    assert !(p < p') && !(p' < p);
    assert TypeWord(s)[0] == msg[p] == TypeWord(t)[0];
  }

  /** `extractInfo`: lower-case the message, then run the four rules independently. */
  function ExtractInfo(message: string): PropertyFilter
  {
    var msg := Lower(message);
    PropertyFilter(ForTypeRule(msg), CityRule(msg), PriceRule(msg), PropertyTypeRule(msg))
  }

  /** What the extracted filter promises: a city is a non-empty run of lower-case letters, a price
      is at most 9999999, and the filter is empty exactly when none of the four rules fires. */
  lemma ExtractInfoSpec(message: string)
    ensures var f := ExtractInfo(message);
            f.city.Some? ==> |f.city.value| > 0 && forall k :: 0 <= k < |f.city.value| ==> IsLower(f.city.value[k])
    ensures var f := ExtractInfo(message);
            f.maxPrice.Some? ==> f.maxPrice.value <= 9999999
    ensures var msg := Lower(message);
            ExtractInfo(message) == PropertyFilter(None, None, None, None) <==>
              && !HasRentKeyword(msg) && !HasSaleKeyword(msg)
              && (forall q :: 0 <= q ==> !CityMatchAt(msg, q))
              && (forall q :: 0 <= q ==> !PriceMatchAt(msg, q))
              && NoTypeWordBefore(msg, |msg|)
  {
    var msg := Lower(message);
    ForTypeRuleSpec(msg);
    CityRuleSpec(msg);
    CityIsLowerCase(message);
    PriceRuleSpec(msg);
    PropertyTypeRuleSpec(msg, House);
    if CityRule(msg).Some? {
      var p :| IsCityCapture(msg, CityRule(msg).value, p);
    }
  }

  /** The extractor does not see the case of the message. */
  lemma ExtractInfoIgnoresCase(message: string)
    ensures ExtractInfo(Lower(message)) == ExtractInfo(message)
  {
    LowerIsLower(message);
  }
}
