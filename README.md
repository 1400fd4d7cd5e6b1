# nobroker-backend: the chat assistant and the property search, in Dafny

This project models the request logic of the nobroker-backend property service, a TypeScript
Express server over a Prisma store. It covers two controllers.

- **The chat assistant** (`src/controllers/chat.controller.ts`). A user's message is lower-cased
  and trimmed, then classified: a greeting, "how are you", "what can you do", or a property
  search. For a search, `extractInfo` turns the message into a filter. That filter has an intent
  (RENT or SALE), a city, a price ceiling and a property type, each one optional. The filter
  becomes a store query that returns at most five listings, and the reply text is chosen from
  the outcome. Each turn appends the user's message and the bot's reply to the chat transcript,
  in that order.
- **The property endpoints** (`src/controllers/property.controller.ts`). The search endpoint turns
  query parameters into a where-input, pages the matches newest first and reports pagination
  flags. The list endpoint does the same without a filter. The add endpoint validates and fills
  defaults. The upload filter accepts three image MIME types.

Modules:

- `Wrappers`: `Option` and `Result`.
- `Strings`: the JavaScript string operations the controllers use.
  - `toLowerCase` and `toUpperCase` on ASCII letters, `includes` and `trim`.
  - Greedy runs of a character class, decimal digits, `parseInt` and `join`.
- `Listings`: the stored listing record and its two enumerations.
- `PropertyQuery`: the store's where-input and its two query operations.
  - The where-input is a map from column to condition, read as a conjunction. An object literal
    made of conditional spreads is a left fold (`BuildWhere`), so a later spread of the same key
    replaces an earlier one.
  - `findMany` with `take` returns the first `take` matches in store order; `count` returns the
    number of matches.
- `FilterExtraction`: `extractInfo`. Its three regular expressions are written as leftmost-match
  scans.
- `ChatController`: classification, the chat search, the reply text, and the `ChatBot` class.
  `ChatBot` holds the transcript and the listing store; `ChatWithBot` is an imperative method
  that appends to the transcript.
- `PropertyController`: the search where-input, page and limit parsing, pagination, the
  newest-first ordering, `addProperty` validation and defaults, and the upload MIME filter.

Behaviour of the code that the model keeps:

- The city is taken from the lower-cased message: "in Pune" yields `pune`.
- `/under (\d{4,7})/` has no boundary after the digits. After a run of eight or more digits, the
  first seven are captured.
- The chat search passes no `orderBy`. Its five results come in store order.
- An entry with no area unit prints an empty unit.
- With both `minPrice` and `maxPrice` given, the later spread replaces the `price` key. Only the
  upper bound then applies.

## Model

| member | source | states |
|---|---|---|
| Strings.ContainsIff | src/controllers/chat.controller.ts:22-23 | `includes` holds exactly when the pattern occurs at some position |
| Strings.Lower | src/controllers/chat.controller.ts:19 | `toLowerCase` keeps the length and lower-cases each character in place; `LowerIsLower` states what it leaves |
| Strings.Contains | src/controllers/chat.controller.ts:22-23 | `includes`; `ContainsIff` states it as an occurrence at some position |
| Strings.LowerIsLower | src/controllers/chat.controller.ts:19 | a lower-cased message holds no upper-case letter, and lower-casing is idempotent |
| Strings.Trim | src/controllers/chat.controller.ts:43 | the trimmed text is the slice of the message left once white space is cut from both ends, and neither end is white space |
| Strings.Span | src/controllers/chat.controller.ts:25 | a greedy `[...]+` run: every character in it is in the class, and the character after it is not |
| Strings.NatToString | src/controllers/chat.controller.ts:79 | the count is written as digits with no leading zero that denote the number |
| Strings.ParseIntToString | src/controllers/property.controller.ts:166-167 | `ParseInteger` reads back every integer `IntToString` writes |
| Strings.ParseInteger | src/controllers/property.controller.ts:166-167 | `parseInt` of a decimal text: white space, an optional sign, then the longest digit run, `NaN` without a digit; `ParseIntToString` states its round trip, and the defaults it reads are stated by `PropertyController.DefaultsParse` |
| Strings.JoinInOrder | src/controllers/chat.controller.ts:80-82 | `join` places each part at its offset, and the parts follow one another in order |
| Strings.Join | src/controllers/chat.controller.ts:80-82 | `join` with a separator; `JoinInOrder` states where each part lands |
| Strings.DecimalValueBound | src/controllers/chat.controller.ts:28-29 | `n` digits denote a number below 10^n |
| Listings.TypeNameInjective | src/controllers/chat.controller.ts:71 | distinct property types have distinct stored names |
| PropertyQuery.BuildWhereLast | src/controllers/property.controller.ts:189-190 | in an object literal of spreads, the last spread that puts a key decides that key's value |
| PropertyQuery.BuildWhereUntouched | src/controllers/property.controller.ts:171-191 | a key that no spread puts keeps what it had before the spreads, so it is absent from a literal that starts empty |
| PropertyQuery.BuildWhere | src/controllers/property.controller.ts:171-191 | an object literal of conditional spreads, evaluated left to right; `BuildWhereLast` and `BuildWhereUntouched` state the value of every key |
| PropertyQuery.AllMatching | src/controllers/property.controller.ts:193-201 | the matches are exactly the store's listings that meet every condition of the where-input |
| PropertyQuery.AllMatchingInOrder | src/controllers/chat.controller.ts:66-74 | the matches come in store order |
| PropertyQuery.AllMatchingEmpty | src/controllers/property.controller.ts:237-244 | the empty where-input selects the whole store |
| PropertyQuery.FindManyIsPrefix | src/controllers/chat.controller.ts:66-74 | `findMany` with `take` returns exactly the first `take` matches |
| PropertyQuery.FindMany | src/controllers/chat.controller.ts:66-74 | `findMany` with `take`; `FindManyIsPrefix` states it is the first `take` matches |
| PropertyQuery.Count | src/controllers/property.controller.ts:201 | `count` is the number of listings meeting the where-input, stated through `AllMatching` and `PageOfRows` |
| FilterExtraction.ForTypeRuleSpec | src/controllers/chat.controller.ts:19-23 | SALE exactly when "buy", "sale" or "sell" occurs; RENT exactly when only "rent" occurs; absent when neither does |
| FilterExtraction.ForTypeRule | src/controllers/chat.controller.ts:22-23 | the two assignments in order, so SALE overwrites RENT; stated by `ForTypeRuleSpec` |
| FilterExtraction.Leftmost | src/controllers/chat.controller.ts:25-31 | a pattern matches at the first position where it can, and at no earlier one |
| FilterExtraction.CityMatch | src/controllers/chat.controller.ts:25 | `/in ([a-zA-Z]+)/` matches at the leftmost "in " that is followed by a letter |
| FilterExtraction.CityRuleSpec | src/controllers/chat.controller.ts:25-26 | the city is present exactly when the pattern matches; it is then the maximal non-empty letter run after the leftmost match |
| FilterExtraction.CityRule | src/controllers/chat.controller.ts:25-26 | the first capture group of the city pattern; stated by `CityRuleSpec` and `CityIsLowerCase` |
| FilterExtraction.CityIsLowerCase | src/controllers/chat.controller.ts:19-26 | the extracted city is all lower case |
| FilterExtraction.PriceMatch | src/controllers/chat.controller.ts:28 | `/under (\d{4,7})/` matches at the leftmost "under " that is followed by four digits |
| FilterExtraction.PriceRuleSpec | src/controllers/chat.controller.ts:28-29 | the price is present exactly when the pattern matches; it is then the number of the first seven (at most) digits after the leftmost match, so at most 9999999 |
| FilterExtraction.PriceRule | src/controllers/chat.controller.ts:28-29 | `parseFloat` of the price capture; stated by `PriceRuleSpec` |
| FilterExtraction.CappedDigitsBound | src/controllers/chat.controller.ts:28 | at most seven digits denote at most 9999999 |
| FilterExtraction.TypeNameIsUpperWord | src/controllers/chat.controller.ts:32 | upper-casing the matched word gives the stored type name |
| FilterExtraction.TypeMatchAt | src/controllers/chat.controller.ts:31 | the alternation tried at one position finds a type word exactly when one occurs there |
| FilterExtraction.TypeMatch | src/controllers/chat.controller.ts:31 | the alternation matches at the leftmost position where some type word occurs |
| FilterExtraction.PropertyTypeRuleSpec | src/controllers/chat.controller.ts:31-32 | the type is `t` exactly when the word of `t` occurs with no type word starting earlier; absent when no type word occurs |
| FilterExtraction.PropertyTypeRule | src/controllers/chat.controller.ts:31-32 | the upper-cased leftmost type word; stated by `PropertyTypeRuleSpec` and `TypeNameIsUpperWord` |
| FilterExtraction.LeftmostWordUnique | src/controllers/chat.controller.ts:31 | two leftmost type-word occurrences are the same word at the same place |
| FilterExtraction.ExtractInfoSpec | src/controllers/chat.controller.ts:18-35 | a city is a non-empty lower-case letter run and a price is at most 9999999; the filter is empty exactly when none of the four rules fires |
| FilterExtraction.ExtractInfoIgnoresCase | src/controllers/chat.controller.ts:19 | the extractor gives the same filter for a message and its lower-cased form |
| FilterExtraction.ExtractInfo | src/controllers/chat.controller.ts:18-35 | `extractInfo`: the four rules applied to the lower-cased message; stated by `ExtractInfoSpec` and `ExtractInfoIgnoresCase` |
| ChatController.RandomResponse | src/controllers/chat.controller.ts:37-39 | the greeting is one of the given replies |
| ChatController.ClassifySpec | src/controllers/chat.controller.ts:43-61 | first match wins: greeting, then "how are you", then "what can you do", then search, each stated as an if-and-only-if |
| ChatController.IsGreeting | src/controllers/chat.controller.ts:51 | the greeting pattern: the message starts with the word hi, hello or hey, and no word character follows it; used by `ClassifySpec` |
| ChatController.Classify | src/controllers/chat.controller.ts:43-61 | the first test of the if-chain that succeeds; stated by `ClassifySpec` |
| ChatController.ChatWhereAt | src/controllers/chat.controller.ts:67-72 | each of the four spreads puts its own key when its field is truthy, and the key is absent otherwise |
| ChatController.ChatWhereSpec | src/controllers/chat.controller.ts:66-72 | a listing satisfies the chat where-input exactly when it meets every constraint the filter sets; an empty city and a zero price set none |
| ChatController.ChatWhere | src/controllers/chat.controller.ts:66-72 | the where-input of the chat search built from four conditional spreads; stated by `ChatWhereAt` and `ChatWhereSpec` |
| ChatController.SearchListingsSpec | src/controllers/chat.controller.ts:66-74 | at most five results, each a matching store listing, in store order; when fewer than five come back, no match was left out |
| ChatController.ChatMatchesAreFilterBy | src/controllers/chat.controller.ts:66-72 | the store's matches for the chat where-input are exactly its listings meeting the filter, in store order |
| ChatController.SearchListingsFirstFive | src/controllers/chat.controller.ts:66-74 | the chat search returns the first five listings of the store that meet the filter, or all of them when there are fewer |
| ChatController.EmptyFilterSearch | src/controllers/chat.controller.ts:66-74 | an empty filter returns the first five listings of the store |
| ChatController.SearchListings | src/controllers/chat.controller.ts:66-74 | `findMany` with the chat where-input and `take: 5`; stated by `SearchListingsSpec` and `EmptyFilterSearch` |
| ChatController.SearchOutcome | src/controllers/chat.controller.ts:65-87 | the search's rows when the store answers, the error otherwise; used by `IsReply` and `ReplyTextSpec` |
| ChatController.EntryText | src/controllers/chat.controller.ts:81 | a result's entry carries its title right after the house emoji |
| ChatController.EntryTexts | src/controllers/chat.controller.ts:80-82 | one entry per result, in result order |
| ChatController.TitleInEntries | src/controllers/chat.controller.ts:80-82 | each result's title sits inside its own entry, and ends before the next result's entry starts |
| ChatController.ReplyTextSpec | src/controllers/chat.controller.ts:76-86 | a store error gives the apology, no results the no-results text, and n results a reply that starts "I found n properties" |
| ChatController.ReplyText | src/controllers/chat.controller.ts:76-87 | the reply chosen from the search outcome; stated by `ReplyTextSpec` |
| ChatController.FoundReply | src/controllers/chat.controller.ts:79-82 | the count line followed by the joined entries; stated by `ReplyTextSpec` and `ReplyListsTitlesInOrder` |
| ChatController.EntryDetails | src/controllers/chat.controller.ts:81 | type, city, price, bedrooms and area after the title, with 'N/A' for a missing bedroom count or area; the price grouping is listed under Left out |
| ChatController.ReplyListsTitlesInOrder | src/controllers/chat.controller.ts:79-82 | the reply lists result `i`'s title after the count line, inside result `i`'s entry |
| ChatController.TitleAfterText | src/controllers/chat.controller.ts:79-82 | after any leading text, the entries still hold result `i`'s title at the offset of its entry |
| ChatController.Project | src/controllers/chat.controller.ts:92-95 | the `{id, title}` projection keeps the results' order and length |
| ChatController.ConversationIgnoresStore | src/controllers/chat.controller.ts:51-61 | the greeting and the two fixed answers do not depend on the listings or the store's state |
| ChatController.ReplyPropertiesBound | src/controllers/chat.controller.ts:66-95 | a turn returns at most five properties |
| ChatController.ChatBot.ChatWithBot | src/controllers/chat.controller.ts:41-101 | the transcript gains the user's record then a bot record holding exactly the returned response; the response and properties are those of the classified message, and an error leaves properties empty |
| PropertyController.FileFilter | src/controllers/property.controller.ts:57-64 | a file is accepted exactly when its MIME type is image/jpeg, image/png or image/webp; any other type fails with the fixed message |
| PropertyController.SearchWhereKeys | src/controllers/property.controller.ts:171-191 | each given parameter puts exactly its own key and an absent one none; `maxPrice` replaces `minPrice` under `price` |
| PropertyController.SearchWhereSpec | src/controllers/property.controller.ts:171-191 | a listing satisfies the search where-input exactly when it meets the conjunct of every given parameter |
| PropertyController.SearchWhere | src/controllers/property.controller.ts:171-191 | the search where-input: nine conditional spreads in source order; stated by `SearchWhereKeys` and `SearchWhereSpec` |
| PropertyController.PageOf | src/controllers/property.controller.ts:166-222 | one page of the sorted matches with its pagination, or the error answer; stated by `PageOfErrors`, `PageOfShape` and `PageOfRows` |
| PropertyController.SearchProperties | src/controllers/property.controller.ts:150-223 | `searchProperties`; stated by `SearchPropertiesSpec` |
| PropertyController.GetAllProperties | src/controllers/property.controller.ts:229-266 | `getAllProperties`; stated by `GetAllIsUnfilteredSearch` and `GetAllCountsStore` |
| PropertyController.PageNumber | src/controllers/property.controller.ts:161-166 | the page is the parsed parameter, or 1 when it is absent, does not parse or parses to 0; never 0 |
| PropertyController.LimitNumber | src/controllers/property.controller.ts:162-167 | the limit is the parsed parameter, or 10 when it is absent, does not parse or parses to 0; never 0 |
| PropertyController.DefaultsParse | src/controllers/property.controller.ts:161-162 | the default texts "1" and "10" parse to 1 and 10 |
| PropertyController.CeilDiv | src/controllers/property.controller.ts:211 | `Math.ceil(a / b)` is the integer `r` with `(r - 1) * b < a <= r * b` (reversed for a negative `b`) |
| PropertyController.Paginate | src/controllers/property.controller.ts:207-214 | the pagination block echoes total, page and limit, and `totalPages` pages of `limit` rows just cover `total` |
| PropertyController.ConsNewestFirst | src/controllers/property.controller.ts:197 | a row no newer than any of a newest-first sequence may be put in front of it |
| PropertyController.Insert | src/controllers/property.controller.ts:197 | inserting a row gives the old rows plus that row, as a multiset |
| PropertyController.InsertKeepsOrder | src/controllers/property.controller.ts:197 | inserting into newest-first rows keeps them newest first, and an upper bound on every row's age survives |
| PropertyController.SortNewestFirst | src/controllers/property.controller.ts:197 | `orderBy createdAt desc` yields a permutation of the rows |
| PropertyController.SortIsNewestFirst | src/controllers/property.controller.ts:197 | the sorted rows are newest first |
| PropertyController.SortedMatches | src/controllers/property.controller.ts:193-197 | sorting the matches keeps their number, and every sorted row is a matching listing of the store |
| PropertyController.Slice | src/controllers/property.controller.ts:198-199 | `skip` then `take` yields the rows from position `skip`, at most `take` of them |
| PropertyController.SliceNewestFirst | src/controllers/property.controller.ts:197-199 | a page of newest-first rows is newest first |
| PropertyController.PageOfErrors | src/controllers/property.controller.ts:166-222 | the answer is the error when the store fails, or when the page is below 1 or the limit negative; otherwise it is a page |
| PropertyController.PageOfRows | src/controllers/property.controller.ts:193-214 | a page holds at most `limit` matching rows, newest first; `total` counts the matches; `hasNext` holds exactly when matches remain after the page; `hasPrevious` exactly when rows were skipped; the page is within `totalPages` exactly when it is not empty |
| PropertyController.PageOfShape | src/controllers/property.controller.ts:166-214 | on a page of 1 or more with a positive limit and a store that answers, the answer is the slice at `(page - 1) * limit` of the sorted matches with the pagination of their count |
| PropertyController.PreviousPages | src/controllers/property.controller.ts:213 | with a positive limit, rows are skipped exactly when the page is past the first |
| PropertyController.PageBounds | src/controllers/property.controller.ts:211-213 | `page * limit < total` means rows remain after the page, and `page <= totalPages` means the page is not empty |
| PropertyController.SearchPropertiesSpec | src/controllers/property.controller.ts:150-215 | a search answer holds at most `limit` listings, each from the store and meeting the query, newest first |
| PropertyController.GetAllIsUnfilteredSearch | src/controllers/property.controller.ts:229-258 | the list endpoint answers as the search endpoint does with no filter |
| PropertyController.GetAllCountsStore | src/controllers/property.controller.ts:244 | with no filter, `total` is the size of the store |
| PropertyController.AddPropertyValidation | src/controllers/property.controller.ts:104-110 | the request is refused with the nine required names exactly when a required field is missing or falsy, whatever the store's state; it creates exactly when they are all truthy and the store is up |
| PropertyController.AddPropertyDefaults | src/controllers/property.controller.ts:112-130 | the required fields pass through and the price is the parsed body value; `forType` is kept when truthy and becomes "SALE" otherwise; phone and area unit are kept when truthy, bedrooms and area are the parsed body values when truthy, and each becomes null otherwise; so the created data never holds a falsy optional value other than null |
| PropertyController.AddProperty | src/controllers/property.controller.ts:86-144 | `addProperty`: the 400 answer, the created data or the 500 answer; stated by `AddPropertyValidation` and `AddPropertyDefaults` |
| PropertyController.ParseNumber | src/controllers/property.controller.ts:121-125 | `parseFloat`/`parseInt` of a body value: a number is kept, a text is read by `ParseInteger`, anything else is `NaN`; used by `AddPropertyDefaults` |

## Left out

- Prisma and the database are not modelled as such. The store is a sequence of listings plus a
  flag saying whether it answers. Connection retries, `checkDbConnection`, transactions and
  `Promise.all` are I/O plumbing.
- Writes to the store are out of scope. `addProperty` is modelled up to the data it hands to
  `create`; the generated id and time stamp, and the row joining the store, are not modelled.
  The chat transcript is a field of `ChatBot`; a failing transcript write is not modelled.
- `uploadImages`, `getPropertyById`, `propertyErrorHandler`, multer's disk storage and file names,
  its size and count limits, and file clean-up are not modelled. They are file-system I/O,
  randomness, or lookups with no logic of their own.
- `auth.controller.ts`, the routes and the server bootstrap are outside the modelled core.
- `prisma/schema.prisma` is not part of this model. The `Listing` record is inferred from the
  fields the controllers read and write.
- Lower-casing and upper-casing cover ASCII letters only. JavaScript's full Unicode case mapping
  is not modelled.
- ChatController.EntryDetails: the price is written in plain decimal digits. `toLocaleString`
  grouping is locale-dependent and not modelled, so the reply is proved only for its count line
  and for each title's place and order.
- ChatController.RandomResponse: requires a non-empty list. It is only ever called with the
  fixed three greetings. The choice is free, not random, and only membership is proved.
- Strings.ParseInteger: reads an optional sign and the leading decimal digits only, so it
  agrees with `parseInt` and `parseFloat` on integer texts up to 2^53 and differs elsewhere.
  - A fraction or an exponent is cut off: the model reads `1e5` as 1 where `parseFloat` reads
    100000, so `maxPrice=1e5` bounds the price by 1 instead of 100000, and `minPrice=1500.5`
    admits a price of 1500.
  - `parseInt` without a radix reads `0x10` as 16; the model reads 0.
  - `parseFloat("Infinity")` is a number; the model reads no number.
- PropertyController.ParseNumber: a boolean or null body value reads as `NaN`, and a number
  value is taken as is. Prisma's own type checks on the created data (a `NaN` price, a
  non-string title) are not modelled.
- PropertyQuery.Holds: a `NaN` operand matches no listing. Prisma would reject such a query
  instead.
- PropertyController.PageOf: any negative limit gives the error answer, as does a page below 1
  with a positive limit (a negative `skip`, which the store rejects). In the code a negative
  limit with a page that keeps `skip` non-negative (page 1 with limit -5 gives skip 0; page -1
  with limit -5 gives skip 10) hands the store a valid `skip` and a negative `take`, which Prisma
  reads as rows counted from the end, and the search answers with those rows; the model does
  not capture that answer.
- A query parameter given twice (an array) is not modelled; every parameter is one string.
- A `propertyType` parameter that is not an enumeration name is modelled as matching nothing.
  Prisma would reject it.
- PropertyController.SortNewestFirst: rows of equal age keep their store order. The store
  promises no order among ties.
- `include: { files: true }` (lines 196 and 239 of `src/controllers/property.controller.ts`) is
  not modelled: the answer rows carry their uploaded files there, and `Listing` holds no files.
- The `console.error` logging of caught errors (line 85 of `src/controllers/chat.controller.ts`;
  lines 138, 217 and 260 of `src/controllers/property.controller.ts`) is output only and is left
  out.
- A chat body whose `message` is not a string throws at line 43 of
  `src/controllers/chat.controller.ts`, before any transcript write. The model takes `message` as
  a string, so that failure is not modelled.
- `area` is read with `parseFloat` (line 125 of `src/controllers/property.controller.ts`) but is
  modelled as an integer, like every other number column.
- The source's numbers are IEEE doubles and the model's are unbounded integers. Parsed page,
  limit and price values, `(pageNum - 1) * limitNum`, `pageNum * limitNum` and
  `Math.ceil(total / limitNum)` (lines 166-168 and 211-212 of
  `src/controllers/property.controller.ts`) therefore differ only beyond 2^53, where a double
  rounds: `parseInt("9007199254740993")` is 9007199254740992, but `ParseInteger` returns the exact
  value.
- PropertyController.AddProperty: a JSON body value is never an array or an object in this model
  (`Value` has no such case). In the code `title: {}` and `title: []` are truthy and pass the
  required-field check, and `price: [150000]` reads as 150000 through `parseFloat`.
