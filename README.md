# Field normalisation of the board-game scrapers, in Dafny

The repository holds three Go programs, each `package main`:

- `main.go` scrapes the BoardGameGeek catalog and stores one record per game through an ORM;
- `bgg_parser.go` scrapes the same site and prints the records;
- `game.go` scrapes the HobbyGames shop catalog and prints its products.

Network access, HTML/XML parsing, goroutines and the database cannot be
modelled. This project models the layer between them: the layer that turns the
text of one document element into typed fields, and the slice-building loops
around it. A goquery element is a value of `Dom.Element`. It maps each selector
to its `Text()` ("" when nothing matches) and each selector/attribute pair to
its `Attr` result. A document maps a selector to its matching elements, in
document order. A fetch is `Dom.Fetch`: a transport error, or a status code with
either a parsed document or `None` for a body that could not be parsed.

Each program is its own module, because the three files never compile together:
`BggMain` (main.go), `BggParser` (bgg_parser.go) and `HobbyGames` (game.go).
The Go library functions they rely on are modelled exactly:

- `Strconv` models `Atoi` and `ParseUint` in base 10. `ParseUint` reads left to right: a non-digit gives 0, and the first step past the maximum gives the maximum.
- `Strings` models `TrimSpace` with `unicode.IsSpace`.
- `Regexp` models replacing `[^\d]` with "".
- `GoInts` models the wrap-around `uint8`/`uint16`/`uint32` conversions.

`Catalog` holds the row-identifier loop of main.go and bgg_parser.go. The two
copies are identical except in the `regexp.Compile` error branch, which is never
taken: main.go logs with `log.Printf` there and bgg_parser.go ends the run with
`log.Fatalf`. `Outcomes` holds the `Each`-and-append loops, and `MinMax` what the two min/max merges promise about their result. `Variants` holds
lemmas that relate main.go's normalisers to bgg_parser.go's.

`log.Fatalf` ends the process, and so does a nil-pointer panic. Both are
`Outcomes.Run.Halted`. Two panics in the code are modelled this way:

- bgg_parser.go defers `resp.Body.Close()` before it checks the request error (line 81), so a transport error panics.
- game.go discards `getDoc`'s error (line 63), so a failed page panics on the nil document.

The programs, as written:

- do not deduplicate identifiers;
- in bgg_parser.go, end the run where `Atoi` rejects a present rank, objectid or non-empty age, or `ParseFloat` rejects a weight; like main.go, its duration and player counts keep whatever `ParseUint` returns (0 for text that is not a number, the maximum on overflow);
- do not rate limit requests: the one-second sleep in each `parseGame` runs in every goroutine at once, and game.go has none;
- do not bound the number of goroutines.

## Model

| member | source | states |
|---|---|---|
| GoInts.ToUint8 | main.go:182 | the uint8 conversion is congruent to its argument modulo 2^8 and leaves 0..255 unchanged |
| GoInts.ToUint16 | main.go:142 | the uint16 conversion is congruent to its argument modulo 2^16 and leaves 0..65535 unchanged |
| GoInts.ToUint32 | main.go:157 | the uint32 conversion is congruent to its argument modulo 2^32 and leaves 0..2^32-1 unchanged |
| GoInts.MinusOneWraps | main.go:142 | -1 becomes 255, 65535 and 2^32-1 |
| GoInts.ToUint16Periodic | main.go:142 | adding 2^16 does not change the uint16 conversion |
| Strconv.Scan | main.go:212 | the ParseUint digit loop never exceeds the maximum; a syntax error gives 0, a range error gives the maximum |
| Strconv.ParseUint | main.go:212 | the result never exceeds 2^bitSize-1; a syntax error gives 0 and a range error gives the maximum |
| Strconv.LeadingDigits | main.go:212 | the longest digit prefix: all digits, followed by a non-digit or the end |
| Strconv.ParseUintMatchesSpec | main.go:212 | the scan equals its loop-free description: a digit prefix over the maximum gives the maximum even when a non-digit follows; otherwise any non-digit, or "", gives 0; otherwise the decimal value |
| Strconv.ParseUintDigits | main.go:223-224 | a non-empty digit string within range parses to its decimal value with no error |
| Strconv.ParseUintNonDigit | main.go:223-224 | a non-digit reached before any overflow gives 0 with a syntax error |
| Strconv.PrefixValueMonotone | main.go:212 | a longer prefix never has a smaller value |
| Strconv.LeadingDigitsUnique | main.go:212 | a digit prefix followed by a non-digit or the end is the longest one |
| Strconv.ScanFromPrefix | main.go:212 | from any in-range digit prefix, the rest of the scan gives the loop-free result |
| Strconv.Atoi | main.go:136 | a successful Atoi lies in the 64-bit int range |
| Strconv.AtoiFormatRoundTrip | main.go:136 | Atoi reads back every int that Itoa writes, negative ones included |
| Strconv.AtoiDigits | game.go:118 | on a digit-only string Atoi succeeds exactly when the value fits an int, and returns that value |
| Strconv.FormatNatValue | main.go:136 | the decimal form of n is a non-empty digit string whose value is n |
| Strconv.Digit | main.go:136 | the character for a digit value is a digit with that value |
| Strconv.Pow2 | main.go:212 | powers of two are positive |
| Strconv.MaxUintValues | main.go:212 | the maxima for 8 and 16 bits are 255 and 65535 |
| Strings.SkipSpace | main.go:167 | the forward scan stops at the first character that is not white space, having passed only white space |
| Strings.SkipSpaceBack | main.go:167 | the backward scan stops after the last character that is not white space, never before the start index, having passed only white space |
| Strings.TrimSpace | main.go:167 | the result is a slice of the input with only white space removed at either end, and it has no white space at either end |
| Strings.TrimSpaceEmpty | game.go:111-113 | trimming gives "" exactly when the text is all white space |
| Strings.TrimSpaceOfTrimmed | game.go:111-113 | text with no white space at either end is unchanged |
| Strings.TrimSpaceIdempotent | game.go:111-113 | trimming twice is trimming once |
| Strings.TrimSpacePadding | main.go:167 | white space added around a trimmed text is removed again |
| Regexp.StripNonDigits | main.go:84-89 | deleting `[^\d]` leaves only ASCII digits and never lengthens the text |
| Regexp.StripConcat | main.go:84-89 | stripping distributes over concatenation |
| Regexp.StripDigits | main.go:84-89 | a digit string is left unchanged |
| Regexp.StripIdempotent | main.go:84-89 | stripping twice is stripping once |
| Regexp.StripNoDigits | game.go:116-117 | a text without digits strips to "" |
| Regexp.DigitPositionsLength | main.go:84-89 | there are as many digit positions as characters kept |
| Regexp.DigitPositionsPick | main.go:84-89 | the k-th character kept is the character at the k-th digit position |
| Regexp.DigitPositionsIncreasing | main.go:84-89 | the digit positions are strictly increasing |
| Regexp.DigitPositionsCover | main.go:84-89 | every position holding a digit is a digit position |
| Regexp.StripPositions | main.go:84-89 | the result is exactly the digit characters of the input, in order: strictly increasing positions that cover every digit |
| Outcomes.MapAllDone | bgg_parser.go:92-111 | an all-or-halt loop completes exactly when every step completes, and then holds one result per element in order |
| Outcomes.MapAllStep | bgg_parser.go:92-111 | a completed step appends its result to a completed prefix |
| Outcomes.MapAllStops | bgg_parser.go:92-111 | a single halting step halts the whole run |
| Outcomes.MapPointwise | main.go:115-130 | a collect loop's i-th result is the callback applied to the i-th element |
| Outcomes.CollectAll | main.go:115-130 | the `Each`-and-append loop returns the callback's result for every element, in order |
| Outcomes.CollectUntilHalt | bgg_parser.go:92-111 | the `Each`-and-append loop whose callback may end the run gives the all-or-halt result |
| Catalog.RowId | main.go:82-90 | a row adds one identifier exactly when its `.aad` has an `id`, and that identifier is all digits |
| Catalog.CollectRowIds | main.go:81-92 | the row loop returns the row identifiers in row order |
| Catalog.RowIdsConcat | main.go:81-92 | rows contribute in order, with nothing merged or removed |
| Catalog.LinkedRowsLength | main.go:81-92 | there are as many identifiers as rows whose `.aad` has an `id` |
| Catalog.LinkedRowsPick | main.go:81-92 | the k-th identifier comes from the k-th such row |
| Catalog.LinkedRowsIncreasing | main.go:81-92 | those rows are taken in document order |
| Catalog.LinkedRowsCover | main.go:81-92 | no such row is skipped |
| Catalog.RowIdsPositions | main.go:81-92 | one entry per row that has the attribute, in document order, each that row's link stripped of non-digits ("" included) |
| Catalog.RowIdsDigits | main.go:84-89 | every collected identifier consists of ASCII digits |
| Catalog.ExampleLinks | main.go:84-89 | "aad_174430" strips to "174430" and "abc" strips to "" |
| Catalog.DuplicatesAndEmptyKept | main.go:81-92 | two rows with the same link give the identifier twice; a link without digits gives "" |
| Catalog.FlattenKeepsAll | main.go:272-275 | concatenating batches keeps every element: the length is the sum and membership is preserved |
| BggMain.GetRank | main.go:133-146 | the rank value modulo 2^16 when Atoi accepts it; 0 when it is absent or rejected |
| BggMain.GetID | main.go:148-161 | the objectid modulo 2^32 when Atoi accepts it; 0 otherwise |
| BggMain.GetTitle | main.go:163-171 | the primary name trimmed ("" when absent), with no white space at either end |
| BggMain.GetAge | main.go:173-186 | the age text modulo 2^8 when Atoi accepts it; 0 when it is empty or rejected |
| BggMain.MergeMinMax | main.go:203-250 | both texts empty gives 0; one gives its parse; both give the floor average of the parses, which lies between them; never above the maximum |
| BggMain.GetDuration | main.go:203-227 | the min/max rule on `minplaytime`/`maxplaytime` with a 16-bit parse; the uint16 conversion loses nothing; with both texts the result lies between the two parses |
| BggMain.GetPlayers | main.go:229-250 | the min/max rule on `minplayers`/`maxplayers` with an 8-bit parse; the uint8 conversion loses nothing; with both texts the result lies between the two parses |
| BggMain.BuildGame | main.go:116-124 | the stored record's objectid is the element's objectid modulo 2^32 when Atoi accepts it, its title has no white space at either end, and with both texts present its duration and player count lie between the two parsed values |
| BggMain.ParseGame | main.go:97-131 | one record per `boardgame` element, in order; a transport or parse failure stores nothing; the status is not checked |
| BggMain.GetGameIds | main.go:58-95 | a transport error, a status other than 200 or an unparsable body sends nothing; otherwise the page's row identifiers |
| BggMain.AppendBatches | main.go:272-275 | all batches concatenated in arrival order, without deduplication |
| BggMain.RankWraps | main.go:142 | "-1" gives rank 65535 and "65536" gives 0 |
| BggMain.RankFallsBackToZero | main.go:134-145 | an absent rank and "N/A" both give 0 |
| BggMain.RankDigits | main.go:136-142 | a digit-only rank below 2^16 is kept as written |
| BggMain.IdDigits | main.go:149-157 | a digit-only objectid below 2^32 is kept as written |
| BggMain.AgeDigits | main.go:174-182 | a digit-only age below 2^8 is kept as written |
| BggMain.DurationOneSide | main.go:211-215 | a minimum of 90 without a maximum gives 90 |
| BggMain.DurationFloorAverage | main.go:223-226 | 10 and 11 give 10 |
| BggMain.DurationUnparsableCountsAsZero | main.go:223-226 | "abc" and 60 give 30: the unparsable minimum counts as 0 and is not skipped |
| BggMain.DurationClampAndEmpty | main.go:206-221 | 70000 alone clamps to 65535; two empty texts give 0 |
| BggMain.PlayersAverage | main.go:247-249 | 2 and 4 players give 3 |
| BggMain.PlayersClamp | main.go:247-249 | 300 clamps to 255 before averaging, so 300 and 1 give 128 |
| BggMain.DetailRecordExample | main.go:115-124 | objectid 174430, rank 3, players 2..4, age 14 and play time 90 give the record {174430, 3, 3 players, 90, 14} |
| BggParser.GetRank | bgg_parser.go:117-130 | absent gives 0; a present value Atoi rejects ends the run; otherwise the value modulo 2^16 |
| BggParser.GetID | bgg_parser.go:132-145 | absent gives 0; a rejected objectid ends the run; otherwise the value modulo 2^32 |
| BggParser.GetTitle | bgg_parser.go:147-154 | the primary name trimmed, with no white space at either end |
| BggParser.GetAge | bgg_parser.go:156-168 | empty gives 0; a rejected non-empty age ends the run; otherwise the value modulo 2^8 |
| BggParser.MergeMinMax | bgg_parser.go:188-230 | one text gives its parse; otherwise, both empty included, the floor average of the parses, between them and never above the maximum |
| BggParser.GetDuration | bgg_parser.go:188-208 | this file's min/max rule on `minplaytime`/`maxplaytime` with a 16-bit parse; unless exactly one text is present, the result lies between the two parses |
| BggParser.GetPlayers | bgg_parser.go:210-230 | this file's min/max rule on `minplayers`/`maxplayers` with an 8-bit parse; unless exactly one text is present, the result lies between the two parses |
| BggParser.BuildGame | bgg_parser.go:92-109 | a record is built exactly when rank, ID and age do not end the run, and it holds every normaliser's value |
| BggParser.ParseGame | bgg_parser.go:73-115 | a transport error or unparsable body ends the run; otherwise one record per `boardgame` element in order, or the run ends if any element's fields end it |
| BggParser.GetGameIds | bgg_parser.go:31-71 | any request, status or parse failure ends the run; otherwise the page's row identifiers in row order |
| BggParser.MergeSymmetric | bgg_parser.go:210-230 | swapping the minimum and maximum texts never changes the result |
| BggParser.AgeFatal | bgg_parser.go:156-168 | age "12+" ends the run, and so does the record; an empty age gives 0 |
| Variants.RankAgrees | bgg_parser.go:117-130 | bgg_parser.go's rank ends the run exactly when main.go falls back on a rejected value, and otherwise equals main.go's |
| Variants.IdAgrees | bgg_parser.go:132-145 | the same for the objectid |
| Variants.AgeAgrees | bgg_parser.go:156-168 | the same for the age |
| Variants.TitleAgrees | bgg_parser.go:147-154 | both titles are equal |
| Variants.MergeAgrees | bgg_parser.go:188-208 | without the guard for two empty texts, the min/max rule still agrees with main.go's on every pair of texts |
| Variants.DurationAgrees | bgg_parser.go:188-208 | both durations are equal on every element |
| Variants.PlayersAgree | bgg_parser.go:210-230 | both player counts are equal on every element |
| Variants.BuildGameAgrees | bgg_parser.go:92-111 | a record bgg_parser.go completes has the fields main.go stores |
| HobbyGames.GetTitle | game.go:71-78 | the `.name` text, or the placeholder exactly when that text is empty; never "" |
| HobbyGames.GetPrice | game.go:80-82 | trimming the price text before conversion leaves the price as the raw text gives it; an empty price text, having no placeholder, makes the conversion end the run |
| HobbyGames.GetPlayers | game.go:84-91 | the players text, or the placeholder exactly when it is empty |
| HobbyGames.GetDuration | game.go:93-100 | the time text, or the placeholder exactly when it is empty |
| HobbyGames.GetAge | game.go:102-109 | the age text, or the placeholder exactly when it is empty |
| HobbyGames.TextProcess | game.go:111-113 | no white space at either end; "" exactly for all-white-space text |
| HobbyGames.TextProcessIdempotent | game.go:111-113 | applying textProcess twice is applying it once |
| HobbyGames.ConvertPrice | game.go:115-125 | succeeds exactly when the digits are non-empty and fit an int, giving their value, never negative; otherwise the run ends |
| HobbyGames.GetGame | game.go:43-59 | a record is built exactly when the price text's digits convert |
| HobbyGames.GetGameFields | game.go:43-59 | each text field is its placeholder-filled text trimmed; the price is the value of the price text's digits |
| HobbyGames.StripAroundSpace | game.go:45 | white space around a text adds no digits to its price |
| HobbyGames.StripIgnoresTrim | game.go:45 | trimming before conversion never changes the price |
| HobbyGames.SpaceStripsToEmpty | game.go:116-117 | white space holds no digits |
| HobbyGames.EmptyFieldGetsPlaceholder | game.go:71-78 | an empty title becomes the placeholder, which survives trimming |
| HobbyGames.BlankFieldBecomesEmpty | game.go:43-49 | a white-space-only title becomes "", not the placeholder |
| HobbyGames.EmptyPriceHalts | game.go:80-82 | an empty price text ends the run, since there is no placeholder |
| HobbyGames.PriceExample | game.go:115-124 | "1 990 ₽" converts to 1990 |
| HobbyGames.GetGames | game.go:61-69 | one record per `.product-item` element in order; a page that fails ends the run; the error result is always nil |
| HobbyGames.ScrapePages | game.go:127-138 | one batch per page in page order; the run ends at the first page that ends it |

## Left out

- HTTP requests, status handling inside `getDoc`, and `goquery.NewDocumentFromReader`: these are I/O and a foreign library. Their outcome is the `Dom.Fetch` parameter, and a document is the selector-to-text abstraction.
- Goroutines, `sync.WaitGroup` and channels: their point is concurrency. The batches reach `BggMain.AppendBatches` in an order chosen by the scheduler, so that order is a parameter. bgg_parser.go's two fan-in loops (lines 245-248 and 261-264) are the same concatenation.
- The page loops that start one goroutine per catalog page (10 pages), and game.go's loop over 19 page URLs. URL formatting is left out; `HobbyGames.ScrapePages` takes the pages' fetch outcomes in order.
- `time.Sleep` pacing: timing only.
- `connectDB`, `AutoMigrate` and `db.Create`: a foreign ORM. `BggMain.ParseGame` returns the records handed to `db.Create`; a failed `Create` is only logged.
- `getWeight` and the `Weight` field: float32 parsing.
- BggParser.BuildGame: does not end the run on a non-empty `averageweight` that `ParseFloat` rejects (bgg_parser.go:173-176), because weight parsing is not modelled.
- BggParser.ParseGame: inherits that gap, so it completes where bgg_parser.go would end the run on such a weight.
- `fmt.Printf`, `fmt.Println` and `log.Printf`: output only.
- The `regexp.Compile` error branches (main.go:85-88, bgg_parser.go:58-61): the constant pattern always compiles, so they are never taken.
- hbg_parser.go: every line is commented out, so it is not compiled.
- Strconv.ParseUint: only base 10 and bit sizes 1..64, the only forms used. Go's base 0, prefixes and underscores are not modelled.
- Strconv.Atoi: does not say which kind of error it returns, because every caller only compares the error with nil. A 64-bit `int` is assumed.
- Strings are sequences of Unicode scalar values. Invalid UTF-8 bytes are not modelled; Go reads them as U+FFFD.
- Rate limiting, deduplication, bounded worker pools, cancellation and configuration objects: none of these exist in the code.
