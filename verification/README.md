# Day-ahead electricity price normaliser, modelled in Dafny

The system fetches day-ahead electricity prices from a utility pricing API and
turns the decoded JSON response into a flat table of (timestamp, price)
records sorted by time. This project models the normaliser,
`process_pricing_data` in `utils.py`. It does not model the HTTP fetcher.

The normaliser:
- checks that the response is a mapping with a truthy `data` entry;
- walks `data` and each entry's `priceDetails`, silently passing over anything
  that is not a mapping or lacks a timestamp or price;
- cleans each timestamp: one trailing `±HHMM` offset is removed, the string is
  parsed strictly as `%Y-%m-%dT%H:%M:%S`, and, only if that fails,
  `.digits` fractional seconds are removed and the parse is retried;
- converts the price, and counts every candidate whose timestamp or price does
  not convert as skipped;
- fails when no record survives, with a message that reports the skip count
  when it is positive;
- sorts the survivors by timestamp.

Modules, one file each:
- `Wrappers` (`wrappers.dfy`): `Option` and `Result`.
- `Decimal` (`decimal.dfy`): digit strings and their values.
- `JsonData` (`json_data.dfy`): decoded JSON values, with Python truthiness, `dict.get` and `for` iteration.
- `Timestamps` (`timestamps.dfy`): naive timestamps, their order, and the strict text form with calendar validity.
- `TimestampCleanup` (`timestamp_cleanup.dfy`): offset stripping, fraction stripping and the two-attempt parse.
- `RecordSort` (`record_sort.dfy`): records and the chronological sort.
- `Messages` (`messages.dfy`): the message of the no-records error.
- `PricingNormaliser` (`pricing_normaliser.dfy`): the normaliser as pure functions over the response, with its properties.
- `ProcessPricing` (`process_pricing.dfy`): the same procedure written as the source's nested loops, with an accumulator and a skip counter, proved equal to the functional definition.
- `PricingExamples` (`pricing_examples.dfy`): concrete responses and their outcomes.

The source's exceptions become `PricingNormaliser.Error`:
- `NotAMapping`: the response is not a dict.
- `NoData`: `data` is missing or falsy.
- `NotIterable`: `data` or a `priceDetails` value is a truthy number or `true`, so `for` raises `TypeError` outside the per-record `try`.
- `NoValidRecords(skipped)`: nothing survived.

Every one of these reaches the caller, re-raised with a `Failed to process data:` prefix.

`float(price)` is a parameter of the model, `toPrice: Json -> Option<real>`.
`None` stands for the `ValueError` or `TypeError` Python raises, which the
per-record handler catches. The outputs are stated for every such function.
Two outcomes of `float()` fall outside this parameter; "## Left out" lists them.

## Model

| member | source | states |
|---|---|---|
| JsonData.Lookup | utils.py:55 | a key lookup finds nothing exactly when no member has that key, and otherwise returns the value of the last member that binds it, as a decoded mapping with a repeated key does |
| JsonData.Iterate | utils.py:62 | a list is iterated over its own items; strings and mappings yield only strings; iteration fails exactly for null, booleans and numbers |
| Timestamps.ParseStrict | utils.py:86 | a successful strict parse has the fixed `YYYY-MM-DDTHH:MM:SS` shape and gives a real calendar instant (years 1 to 9999, leap years, seconds up to 59) |
| Timestamps.ParseOfFormat | utils.py:86 | every valid timestamp, written in the strict form, parses back to itself |
| Timestamps.FormatOfParse | utils.py:86 | every string the strict parse accepts is the text form of its result, up to the case of the `T` |
| TimestampCleanup.StripOffset | utils.py:82 | a string ending in a sign and four digits loses exactly that suffix; any other string is unchanged |
| TimestampCleanup.StripOffsetOfAppended | utils.py:82 | appending an offset and stripping it restores the string; of two appended offsets only the last is removed |
| TimestampCleanup.StripFractionsLeavesNone | utils.py:89 | the result of fraction stripping contains no dot followed by a digit, and it never begins with a digit when the input does not |
| TimestampCleanup.StripFractionsOfClean | utils.py:89 | a string without a dot-digit pair is a fixed point of fraction stripping |
| TimestampCleanup.StripFractionsIdempotent | utils.py:89 | stripping fractions twice equals stripping once |
| TimestampCleanup.StripFractionsAppend | utils.py:89 | fraction stripping distributes over concatenation when the second part does not start with a digit |
| TimestampCleanup.CleanParseIsOneParse | utils.py:82-90 | the parse-then-retry sequence equals one strict parse of the offset- and fraction-stripped string |
| TimestampCleanup.CleanStringIsFixedPoint | utils.py:82-90 | a string already in strict form is a fixed point of both strip steps and parses as it stands |
| TimestampCleanup.CleanParseOfDecorated | utils.py:82-90 | a valid timestamp's text with optional `.digits` and an optional `±HHMM` suffix cleans and parses to that timestamp, with the offset discarded |
| RecordSort.Insert | utils.py:117 | inserting into a sorted sequence keeps it sorted and adds exactly that record |
| RecordSort.SortByTime | utils.py:117 | the result is sorted ascending by timestamp and is a permutation of the input |
| RecordSort.SortedArrangementsAgree | utils.py:117 | any two sorted permutations of the same records agree on the timestamp at every position, so an unstable sort can only reorder equal timestamps |
| Messages.ReportedSkipsOfMessage | utils.py:105-111 | the no-records message reports a skip count exactly when the count is positive, and it reports the right number |
| PricingNormaliser.CandidatesIn | utils.py:70-77 | a details list yields at most one candidate per item, and each candidate has a truthy timestamp and a non-null price |
| PricingNormaliser.Candidates | utils.py:62-72 | the walk fails, always as `NotIterable`, exactly when some entry's `priceDetails` is a truthy value that cannot be iterated |
| PricingNormaliser.Convert | utils.py:78-103 | a candidate becomes a record exactly when its timestamp is a string that cleans and parses and its price converts; the record carries that timestamp, which is a valid instant, and that price |
| PricingNormaliser.Kept | utils.py:95-98 | at most one record is kept per candidate, and every kept timestamp is a valid instant |
| PricingNormaliser.Skipped | utils.py:99-103 | the skip count never exceeds the number of candidates |
| PricingNormaliser.CountConservation | utils.py:77-103 | kept records plus skipped records equal the number of candidates that passed the presence check |
| PricingNormaliser.KeptAreConversions | utils.py:95-98 | a record is kept exactly when some candidate converts to it |
| PricingNormaliser.NothingKept | utils.py:99-105 | nothing is kept exactly when no candidate converts |
| PricingNormaliser.Normalise | utils.py:52-119 | on success the output is non-empty, sorted, a permutation of the kept records, and made of valid instants; output size plus skips equals the candidates; `NoValidRecords` carries the number of candidates; the walk succeeds exactly when the result is a success or `NoValidRecords` |
| PricingNormaliser.CandidatesInAppend | utils.py:70-77 | the candidates of two consecutive details lists are the concatenation of their candidates |
| PricingNormaliser.CandidatesAppend | utils.py:62-77 | the walk over two consecutive runs of entries is the join of the two walks |
| PricingNormaliser.KeptAppend | utils.py:95-103 | kept records and skip counts of consecutive candidate runs add up |
| PricingNormaliser.IgnoredEntry | utils.py:62-68 | an entry that is not a mapping, or whose `priceDetails` is missing or falsy, changes nothing wherever it stands |
| PricingNormaliser.AbsentDetailIgnored | utils.py:70-77 | a detail that is not a mapping, or has a missing or falsy timestamp, or a missing or null price, adds no candidate wherever it stands, so it is neither kept nor counted |
| PricingNormaliser.PresentDetailKept | utils.py:70-77 | a detail that passes the presence check adds exactly its own (timestamp, price) candidate at its position |
| PricingNormaliser.FailsBeforeDetails | utils.py:52-59 | a non-mapping response fails as `NotAMapping`, and a response whose `data` is missing or an empty list fails as `NoData`, whatever the price conversion |
| PricingNormaliser.FailsExactlyWhenNothingConverts | utils.py:105-111 | after a successful walk the call fails exactly when no candidate converts, and the error then counts every candidate as skipped |
| PricingNormaliser.NoMappingNoCandidates | utils.py:62-64 | entries that are all non-mappings yield no candidates |
| PricingNormaliser.DataNotAList | utils.py:55-72 | a non-empty string or mapping under `data` yields a `NoValidRecords(0)` failure; a truthy number or `true` yields `NotIterable` |
| ProcessPricing.VisitDetail | utils.py:70-103 | one inner-loop step appends the detail's record or bumps the skip counter, exactly as the candidate conversion says |
| ProcessPricing.VisitDetails | utils.py:70-103 | the inner loop over a details list appends exactly the kept records of its candidates and adds exactly their skip count |
| ProcessPricing.VisitEntry | utils.py:62-103 | the inner loop over one entry fails exactly when its details cannot be iterated; otherwise it appends that entry's kept records and adds its skips |
| ProcessPricing.ProcessPricingData | utils.py:36-119 | the loop-based procedure with its accumulator and skip counter returns exactly what the functional normaliser returns |
| PricingExamples.MillisecondsAndOffset | utils.py:82-90 | `2024-01-01T00:00:00.123-0800` is read as 2024-01-01 00:00:00 |
| PricingExamples.OffsetDropped | utils.py:82-86 | `-0800` suffixed hourly stamps are read with the offset dropped, not applied |
| PricingExamples.TwoHourlyPrices | utils.py:52-119 | two offset-suffixed hourly details, one price a string, give exactly those two records in time order |
| PricingExamples.MissingPriceDropped | utils.py:74-77 | a detail without `intervalPrice` is dropped while the valid one is returned |
| PricingExamples.NothingConverts | utils.py:99-111 | a non-date timestamp, a non-string timestamp and an unconvertible price are all skipped, and the error reports three skipped records |

## Left out

- The HTTP fetcher `fetch_energy_data` (utils.py:7-34) is left out. It is a single network request with no logic of its own.
- Python's `float()` is not modelled. Its rules for strings, booleans and numbers are the parameter `toPrice`, and every result holds for any such function.
- Floating-point prices are modelled as `real`, so the IEEE rounding of the converted price is not modelled.
- Timestamps.ParseStrict: `strptime` also accepts unpadded fields such as `2024-1-1T0:0:0`, a space-padded day such as `2024-01- 1T00:00:00` (its `%d` pattern allows a space before a single digit), and Unicode digits. The model accepts only the fixed-width ASCII form, so it is stricter than the source for those inputs.
- TimestampCleanup.StripOffset: Python's `\d` also matches non-ASCII digits, and `$` also matches before a final newline. The model strips only an ASCII offset at the very end.
- TimestampCleanup.StripFractions: `\d` is taken to be an ASCII digit, as in `StripOffset`.
- Iterating a mapping under `data` or `priceDetails` yields its keys. The model yields one string per member, so a duplicated key appears twice where Python yields it once. These items are never mappings, so the outcome is the same.
- A JSON number is a single `real`. Python's distinction between `int` and `float` is not modelled. It decides whether `float()` can overflow; see the next two lines.
- PricingNormaliser.Convert: when `intervalPrice` decodes to an integer too large for a float, `float()` raises `OverflowError`. The per-record handler (utils.py:99) does not catch it, so the outer handler (utils.py:121-124) fails the whole call. `PriceConversion` can only keep or skip a record, so the model has no such failure. It promises nothing for responses that contain such a price.
- PriceConversion: a decoded `NaN` or `Infinity` price converts in Python, so the source keeps its record. A `real` cannot hold these values, so the model does not cover the records that carry them.
- Error-message wording for `NotAMapping`, `NoData` and `NotIterable` is not modelled. Only the no-records message is, because it carries the skip count.
- The `print` diagnostics and the JSON debug dump on failure are not modelled; they have no effect on the result.
- The pandas DataFrame is modelled as a sequence of records. RecordSort.SortByTime is one insertion sort. Pandas' default sort is not stable, so only sortedness and permutation are claimed, plus agreement on timestamps between any two sorted arrangements. Which of several records with the same timestamp comes first is left open.
