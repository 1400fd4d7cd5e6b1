/** The chat assistant (`chatWithBot`): it records the user's message, classifies it (greeting,
    "how are you", "what can you do", otherwise a property search), answers, records the answer,
    and returns the answer with the `{id, title}` projection of the listings it found. */
module ChatController {
  import opened Wrappers
  import opened Strings
  import opened Listings
  import opened PropertyQuery
  import opened FilterExtraction

  datatype Sender = User | Bot

  /** A transcript record. Its creation time stamp is set by the store and is not modelled. */
  datatype ChatMessage = ChatMessage(sender: Sender, message: string)

  /** The `PropertyResult` shape returned to the client. */
  datatype PropertyResult = PropertyResult(id: string, title: string)

  datatype Intent = Greeting | HowAreYou | Capabilities | Search

  const Greetings: seq<string> := [
    "Hello there! \U{1F44B} I'm PropertyBot. How can I help you with properties today?",
    "Hi! \U{1F60A} Ready to find your dream property? What are you looking for?",
    "Hey! \U{1F3E1} I specialize in property searches. Try asking about 'houses for rent' or 'apartments for sale'"
  ]

  const HowAreYouReply := "I'm just a bot, but I'm great at finding properties! What can I search for you?"

  const CapabilitiesReply := "I can help you find properties by:\n- Location (city)\n- Price range\n- Property type\n- Number of bedrooms\n\nTry: 'Show 2BHK apartments in Mumbai under 1Cr'"

  const NoResultsReply := "No properties found. Try different criteria like:\n'3BHK flats in Bangalore under 50k'\n'or 'Villas for sale in Goa'"

  const ErrorReply := "Sorry, I encountered an error while searching. Please try again with different criteria."

  /** The `take` of the chat search. */
  const ResultCap := 5

  /** `getRandomResponse`: one of the given replies, chosen freely. */
  method RandomResponse(responses: seq<string>) returns (r: string)
    requires |responses| > 0
    ensures r in responses
  {
    var i :| 0 <= i < |responses|;
    r := responses[i];
  }

  /** `s` starts with the word `w` followed by a word boundary (`\b`). */
  predicate StartsWithWord(s: string, w: string)
  {
    StartsWith(s, w) && (|s| == |w| || !IsWordChar(s[|w|]))
  }

  /** `/^(hi|hello|hey)\b/`. */
  predicate IsGreeting(s: string)
  {
    StartsWithWord(s, "hi") || StartsWithWord(s, "hello") || StartsWithWord(s, "hey")
  }

  /** The classification of the trimmed, lower-cased message: the first test that succeeds. */
  function Classify(lowerMessage: string): Intent
  {
    if IsGreeting(lowerMessage) then Greeting
    else if Contains(lowerMessage, "how are you") then HowAreYou
    else if Contains(lowerMessage, "what can you do") then Capabilities
    else Search
  }

  ghost predicate Mentions(s: string, phrase: string)
  {
    exists i :: OccursAt(s, phrase, i)
  }

  /** First match wins: a greeting is a greeting whatever else the message says; the two fixed
      questions are recognised anywhere in the message; everything else is a search. */
  lemma ClassifySpec(s: string)
    ensures Classify(s) == Greeting <==> IsGreeting(s)
    ensures Classify(s) == HowAreYou <==> !IsGreeting(s) && Mentions(s, "how are you")
    ensures Classify(s) == Capabilities <==>
              !IsGreeting(s) && !Mentions(s, "how are you") && Mentions(s, "what can you do")
    ensures Classify(s) == Search <==>
              !IsGreeting(s) && !Mentions(s, "how are you") && !Mentions(s, "what can you do")
  {
    ContainsIff(s, "how are you");
    ContainsIff(s, "what can you do");
  }

  /** The where-input built from a filter by conditional spreads: a field adds its condition only
      when it is present and truthy, so an empty city and a zero price add nothing. */
  function ChatWhere(f: PropertyFilter): Where
  {
    BuildWhere(map[], ChatSpreads(f))
  }

  /** The spreads of the chat search's where-input, in the order they are written; a `maxPrice`
      of 0 is falsy and spreads nothing. */
  function ChatSpreads(f: PropertyFilter): seq<Spread>
  {
    [ if f.city.Some? && f.city.value != "" then Put(CityField, ContainsInsensitive(f.city.value)) else Skip,
      if f.forType.Some? then Put(ForTypeField, EqualsText(ForTypeName(f.forType.value))) else Skip,
      if f.maxPrice.Some? && f.maxPrice.value != 0 then Put(PriceField, AtMost(Some(f.maxPrice.value))) else Skip,
      if f.propertyType.Some? then Put(PropertyTypeField, EqualsText(TypeName(f.propertyType.value))) else Skip ]
  }

  /** The key `k` of the chat where-input holds the condition of spread `i` when that spread puts
      it, and is absent when it does not; the four spreads put four different keys, and no other
      key is ever present. */
  lemma ChatWhereAt(f: PropertyFilter, k: Field, i: nat)
    requires i < 4 && k == [CityField, ForTypeField, PriceField, PropertyTypeField][i]
    ensures PutsKey(ChatSpreads(f)[i], k) ==> k in ChatWhere(f) && ChatWhere(f)[k] == ChatSpreads(f)[i].condition
    ensures !PutsKey(ChatSpreads(f)[i], k) ==> k !in ChatWhere(f)
  {
    var ss := ChatSpreads(f);
    if PutsKey(ss[i], k) {
      BuildWhereLast(map[], ss, i, k);
    } else {
      BuildWhereUntouched(map[], ss, k);
    }
  }

  /** The search predicate stated directly: the conjunction of the constraints the filter sets. */
  predicate MatchesFilter(f: PropertyFilter, l: Listing)
  {
    && (f.city.Some? && f.city.value != "" ==> Contains(Lower(l.city), Lower(f.city.value)))
    && (f.forType.Some? ==> l.forType == ForTypeName(f.forType.value))
    && (f.maxPrice.Some? && f.maxPrice.value != 0 ==> l.price <= f.maxPrice.value)
    && (f.propertyType.Some? ==> l.propertyType == f.propertyType.value)
  }

  /** A listing satisfies the built where-input exactly when it meets every constraint the filter
      sets, and no other. */
  lemma ChatWhereSpec(f: PropertyFilter, l: Listing)
    ensures Satisfies(l, ChatWhere(f)) <==> MatchesFilter(f, l)
  {
    var w := ChatWhere(f);
    var ss := ChatSpreads(f);
    ChatWhereAt(f, CityField, 0);
    ChatWhereAt(f, ForTypeField, 1);
    ChatWhereAt(f, PriceField, 2);
    ChatWhereAt(f, PropertyTypeField, 3);
    forall k | k !in {CityField, ForTypeField, PriceField, PropertyTypeField} ensures k !in w {
      BuildWhereUntouched(map[], ss, k);
    }
    if f.propertyType.Some? {
      TypeNameInjective(l.propertyType, f.propertyType.value);
    }
    if Satisfies(l, w) {
      if f.city.Some? && f.city.value != "" { assert Holds(l, CityField, w[CityField]); }
      if f.forType.Some? { assert Holds(l, ForTypeField, w[ForTypeField]); }
      if f.maxPrice.Some? && f.maxPrice.value != 0 { assert Holds(l, PriceField, w[PriceField]); }
      if f.propertyType.Some? { assert Holds(l, PropertyTypeField, w[PropertyTypeField]); }
    }
  }

  /** The chat search: the first five listings, in store order, that satisfy the filter. */
  function SearchListings(store: seq<Listing>, f: PropertyFilter): seq<Listing>
  {
    FindMany(store, ChatWhere(f), ResultCap)
  }

  /** The store's listings that meet the filter, in store order. */
  function FilterBy(store: seq<Listing>, f: PropertyFilter): seq<Listing>
  {
    if store == [] then []
    else if MatchesFilter(f, store[0]) then [store[0]] + FilterBy(store[1..], f)
    else FilterBy(store[1..], f)
  }

  /** The store answers the chat where-input with exactly the listings meeting the filter. */
  lemma {:induction false} ChatMatchesAreFilterBy(store: seq<Listing>, f: PropertyFilter)
    ensures AllMatching(store, ChatWhere(f)) == FilterBy(store, f)
    decreases |store|
  {
    if store != [] {
      ChatWhereSpec(f, store[0]);
      ChatMatchesAreFilterBy(store[1..], f);
    }
  }

  /** The chat search returns the first five listings of the store that meet the filter (all of
      them when there are fewer). */
  lemma SearchListingsFirstFive(store: seq<Listing>, f: PropertyFilter)
    ensures SearchListings(store, f) == FilterBy(store, f)[..Min(ResultCap, |FilterBy(store, f)|)]
  {
    FindManyIsPrefix(store, ChatWhere(f), ResultCap);
    ChatMatchesAreFilterBy(store, f);
  }

  /** At most five results, each a listing of the store meeting the filter, in store order; and
      when fewer than five come back, no matching listing was left out. */
  lemma SearchListingsSpec(store: seq<Listing>, f: PropertyFilter)
    ensures |SearchListings(store, f)| <= ResultCap
    ensures forall l :: l in SearchListings(store, f) ==> l in store && MatchesFilter(f, l)
    ensures IsSubsequence(SearchListings(store, f), store)
    ensures |SearchListings(store, f)| < ResultCap ==>
              forall l :: l in store && MatchesFilter(f, l) ==> l in SearchListings(store, f)
  {
    var w := ChatWhere(f);
    var all := AllMatching(store, w);
    FindManyIsPrefix(store, w, ResultCap);
    AllMatchingInOrder(store, w);
    PrefixIsSubsequence(all, Min(ResultCap, |all|), store);
    forall l | l in SearchListings(store, f)
      ensures l in store && MatchesFilter(f, l)
    {
      assert l in all;
      ChatWhereSpec(f, l);
    }
    if |SearchListings(store, f)| < ResultCap {
      assert SearchListings(store, f) == all;
      forall l | l in store && MatchesFilter(f, l)
        ensures l in SearchListings(store, f)
      {
        ChatWhereSpec(f, l);
      }
    }
  }

  /** A prefix of a subsequence is a subsequence. */
  lemma {:induction false} PrefixIsSubsequence<T>(a: seq<T>, n: nat, b: seq<T>)
    requires n <= |a| && IsSubsequence(a, b)
    ensures IsSubsequence(a[..n], b)
    decreases |b|
  {
    if n > 0 && b != [] {
      if a[0] == b[0] {
        PrefixIsSubsequence(a[1..], n - 1, b[1..]);
        assert a[..n][1..] == a[1..][..n - 1];
      } else {
        PrefixIsSubsequence(a, n, b[1..]);
      }
    }
  }

  /** A filter with no field set constrains nothing: the search returns the first five listings
      of the store. */
  lemma EmptyFilterSearch(store: seq<Listing>)
    ensures SearchListings(store, PropertyFilter(None, None, None, None)) == store[..Min(ResultCap, |store|)]
  {
    assert ChatWhere(PropertyFilter(None, None, None, None)) == map[];
    FindManyIsPrefix(store, map[], ResultCap);
    AllMatchingEmpty(store);
  }

  /** The search outcome: the store either answers the query or fails. */
  function SearchOutcome(store: seq<Listing>, available: bool, f: PropertyFilter): Result<seq<Listing>, Failure>
  {
    if available then Ok(SearchListings(store, f)) else Err(StoreUnavailable)
  }

  /** `x || 'N/A'` for a nullable number column. */
  function NumberOrNA(n: Option<int>): string
  {
    if n.None? || n.value == 0 then "N/A" else IntToString(n.value)
  }

  /** The text block listing one result: its title first, then its details. */
  function EntryText(p: Listing): (r: string)
    ensures |r| >= 2 && r[..2] == "\U{1F3E0} "
    ensures OccursAt(r, p.title, 2)
  {
    var head := "\U{1F3E0} ";
    OccursInMiddle(head, p.title, EntryDetails(p));
    head + p.title + EntryDetails(p)
  }

  /** What follows the title in a result's entry: type, city, price, bedrooms and area. The price
      is written in plain decimal digits. */
  function EntryDetails(p: Listing): string
  {
    Concat([" (", TypeName(p.propertyType), ")\n",
            "\U{1F4CD} ", p.city, " | \U{20B9}", IntToString(p.price), "\n",
            "\U{1F6CF}\U{FE0F} ", NumberOrNA(p.bedrooms), " BHK | \U{1F4CF} ", NumberOrNA(p.area), " ",
            if p.areaUnit.Some? then p.areaUnit.value else "", "\n"])
  }

  /** The entry of each result, in result order. */
  function EntryTexts(ps: seq<Listing>): (r: seq<string>)
    ensures |r| == |ps|
    ensures forall i :: 0 <= i < |ps| ==> r[i] == EntryText(ps[i])
  {
    seq(|ps|, i requires 0 <= i < |ps| => EntryText(ps[i]))
  }

  /** The entries joined with a line break between them, as `map(...).join('\n')` builds them. */
  function Entries(ps: seq<Listing>): string
  {
    Join(EntryTexts(ps), "\n")
  }

  /** The opening line of a reply that found `n` listings. */
  function FoundHeader(n: nat): string
  {
    "I found " + NatToString(n) + " properties:\n\n"
  }

  /** The reply to a search, chosen by its outcome. */
  function ReplyText(outcome: Result<seq<Listing>, Failure>): string
  {
    match outcome
    case Err(_) => ErrorReply
    case Ok(ps) => if |ps| == 0 then NoResultsReply else FoundReply(ps)
  }

  /** The reply to a search that found the listings `ps`: a count line, then one entry each. */
  function FoundReply(ps: seq<Listing>): string
  {
    FoundHeader(|ps|) + Entries(ps)
  }

  /** A failed search gets the apology and an empty search the fixed no-results text; a search
      that found `n` listings gets a reply starting "I found n properties". */
  lemma ReplyTextSpec(outcome: Result<seq<Listing>, Failure>)
    ensures outcome.Err? ==> ReplyText(outcome) == ErrorReply
    ensures outcome == Ok([]) ==> ReplyText(outcome) == NoResultsReply
    ensures outcome.Ok? && |outcome.value| > 0 ==>
              StartsWith(ReplyText(outcome), "I found " + NatToString(|outcome.value|) + " properties")
  {
    if outcome.Ok? && |outcome.value| > 0 {
      var ps := outcome.value;
      var r := ReplyText(outcome);
      var prefix := "I found " + NatToString(|ps|) + " properties";
      assert r == FoundReply(ps);
      assert r == prefix + (":\n\n" + Entries(ps));
      StartsWithConcat(prefix, ":\n\n" + Entries(ps));
    }
  }

  /** In a reply that found listings, the title of result `i` sits inside that result's entry,
      after the count line; with `TitleInEntries`, the titles come in result order. */
  lemma ReplyListsTitlesInOrder(ps: seq<Listing>, i: nat)
    requires i < |ps|
    ensures OccursAt(FoundHeader(|ps|) + Entries(ps), ps[i].title,
                     |FoundHeader(|ps|)| + (JoinOffset(EntryTexts(ps), "\n", i) + 2))
  {
    TitleAfterText(FoundHeader(|ps|), ps, i);
  }

  /** Whatever text comes before the entries, result `i`'s title sits inside its entry. */
  lemma TitleAfterText(h: string, ps: seq<Listing>, i: nat)
    requires i < |ps|
    ensures OccursAt(h + Entries(ps), ps[i].title, |h| + (JoinOffset(EntryTexts(ps), "\n", i) + 2))
  {
    TitleInEntries(ps, i);
    OccursAtShift(h, Entries(ps), ps[i].title, JoinOffset(EntryTexts(ps), "\n", i) + 2);
  }

  /** The title of result `i` sits two characters into its entry of the joined text, and ends
      before the entry of result `i + 1` starts. */
  lemma TitleInEntries(ps: seq<Listing>, i: nat)
    requires i < |ps|
    ensures OccursAt(Entries(ps), ps[i].title, JoinOffset(EntryTexts(ps), "\n", i) + 2)
    ensures i + 1 < |ps| ==>
              JoinOffset(EntryTexts(ps), "\n", i) + 2 + |ps[i].title| < JoinOffset(EntryTexts(ps), "\n", i + 1)
  {
    var es := EntryTexts(ps);
    JoinInOrder(es, "\n", i);
    OccursAtNested(Join(es, "\n"), es[i], JoinOffset(es, "\n", i), ps[i].title, 2);
  }

  /** The `{id, title}` projection of the results, in the same order. */
  function Project(ps: seq<Listing>): (r: seq<PropertyResult>)
    ensures |r| == |ps|
    ensures forall i :: 0 <= i < |ps| ==> r[i].id == ps[i].id && r[i].title == ps[i].title
  {
    seq(|ps|, i requires 0 <= i < |ps| => PropertyResult(ps[i].id, ps[i].title))
  }

  /** What a turn may answer: a greeting from the fixed list, the two fixed replies, or the reply
      and projection of the search; only a search that found listings returns any. */
  ghost predicate IsReply(message: string, store: seq<Listing>, available: bool,
                          response: string, properties: seq<PropertyResult>)
  {
    match Classify(Trim(Lower(message)))
    case Greeting => response in Greetings && properties == []
    case HowAreYou => response == HowAreYouReply && properties == []
    case Capabilities => response == CapabilitiesReply && properties == []
    case Search =>
      var outcome := SearchOutcome(store, available, ExtractInfo(message));
      && response == ReplyText(outcome)
      && properties == (if outcome.Ok? then Project(outcome.value) else [])
  }

  /** The conversational replies do not depend on the listings or on whether the store is up. */
  lemma ConversationIgnoresStore(message: string, store1: seq<Listing>, available1: bool,
                                 store2: seq<Listing>, available2: bool,
                                 response: string, properties: seq<PropertyResult>)
    requires Classify(Trim(Lower(message))) != Search
    ensures IsReply(message, store1, available1, response, properties)
            <==> IsReply(message, store2, available2, response, properties)
  {
  }

  /** Every reply of a turn lists at most five properties. */
  lemma ReplyPropertiesBound(message: string, store: seq<Listing>, available: bool,
                             response: string, properties: seq<PropertyResult>)
    requires IsReply(message, store, available, response, properties)
    ensures |properties| <= ResultCap
  {
    SearchListingsSpec(store, ExtractInfo(message));
  }

  /** The chat service: the transcript it appends to, and the listing store it searches, which
      either answers queries or fails them. */
  class ChatBot {
    var transcript: seq<ChatMessage>
    var listings: seq<Listing>
    var storeAvailable: bool

    constructor (listings: seq<Listing>, storeAvailable: bool)
      ensures transcript == [] && this.listings == listings && this.storeAvailable == storeAvailable
    {
      transcript := [];
      this.listings := listings;
      this.storeAvailable := storeAvailable;
    }

    /** `chatWithBot`: the user's record goes in first and the bot's record, holding exactly the
        returned response, second; nothing else changes. */
    method ChatWithBot(message: string) returns (response: string, properties: seq<PropertyResult>)
      modifies this`transcript
      ensures transcript == old(transcript) + [ChatMessage(User, message), ChatMessage(Bot, response)]
      ensures IsReply(message, listings, storeAvailable, response, properties)
    {
      var lowerMessage := Trim(Lower(message));
      transcript := transcript + [ChatMessage(User, message)];
      response := "";
      var found: seq<Listing> := [];
      if IsGreeting(lowerMessage) {
        assert Classify(lowerMessage) == Greeting;
        response := RandomResponse(Greetings);
      } else if Contains(lowerMessage, "how are you") {
        response := HowAreYouReply;
      } else if Contains(lowerMessage, "what can you do") {
        response := CapabilitiesReply;
      } else {
        var filters := ExtractInfo(message);
        var outcome := SearchOutcome(listings, storeAvailable, filters);
        match outcome {
          case Ok(ps) =>
            found := ps;
            if |found| == 0 {
              response := NoResultsReply;
            } else {
              response := FoundHeader(|found|);
              response := response + Entries(found);
            }
          case Err(_) =>
            response := ErrorReply;
        }
        assert response == ReplyText(outcome);
      }
      transcript := transcript + [ChatMessage(Bot, response)];
      properties := Project(found);
    }
  }
}
