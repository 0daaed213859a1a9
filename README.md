# niblet service virtualization: the matcher and the template expander

niblet is a service-virtualization server. It stores mock API definitions. Each
definition has:

- a path pattern;
- header and query-string constraints, kept as regular-expression text;
- a response status and a response body.

It answers an incoming request with the definition that matches it most
specifically. This project models that decision and proves properties of it.

**`processAnyMockRequest` in the service.** The handler works in these steps:

1. It alphabetizes the request's headers and query parameters into `<k=v>` tokens joined by `|~|`.
2. It rewrites the URI into `///`-joined segments.
3. It asks the repository for the candidate definitions.
4. It scores each candidate and sorts by specificity:
   - path segments: exact, custom regex, digit, alphanumeric or wildcard;
   - then query parameters and headers, which have the same tiers plus a presence-only "exists" tier.
5. It refuses with 409 when the two best candidates tie.
6. Otherwise it expands the winner's response-body template. The template tokens are `{lower(n)}`, `{number(a,b)}`, `{decimal(x,y,p)}` and the like.
7. It answers with the winner's status.

**The controller's legacy handler** is an older copy of the same matcher. It
differs as follows:

- paths are split on `/`, and `.+` is the wildcard body;
- stored header constraints are split on the literal `.*`, and there is no exists tier;
- stored query constraints are split with `split(".*")`, which Java reads as a regular expression; as written, query constraints never add to any counter (see "## Findings");
- the texts are joined with `;` and `?…&`;
- there is no ambiguity check and no template expansion.

Modules:

- `MatchModel`: the stored definition, the counter vectors, and the two record classes updated in place (`MatchRecord` is MockApiMatchData; `FilterRecord` is MockApiFilterData).
- `RequestFormat`: URI normalisation and the alphabetized header and query texts.
- `Patterns`: the named-group path placeholder `(?<name>R)`, and full matching of the fixed bodies.
- `PathScoring`: the service's path scorer.
- `ParamScoring`: the service's header and query scorers.
- `Ranking`: the comparator, the stable sort, the tie check and the best candidates.
- `Dispatcher`: the service's request handler.
- `LegacyController`: the controller's handler, path filter and constraint scorers.
- `TemplateSyntax`, `Template` and `TemplateProperties`: the seventeen token passes of `replaceGeneratedValues`, and what they produce.
- `Generators`: the random generators, as nondeterministic choices inside their documented ranges.
- `Faults`: Java exceptions as results.
- `JavaStrings` and `JavaNumbers`: the JDK string and number operations used.

Conventions:

- The Java exceptions raised by the modelled string, number and list operations become a `Failure` carrying them, so error paths are part of the contracts. Examples are `substring` on a short text, `split(...)[1]`, `Integer.valueOf` on ASCII text, and `HttpStatus.valueOf`. The exceptions that come from outside the model are listed under "## Left out".
- Methods that loop or update records are proved against specification functions.
- Each specification function's meaning is stated in lemmas.

Source cells in the table below give paths relative to the repository root, with line ranges.

## Model

| member | source | states |
|---|---|---|
| `RequestFormat.NormaliseRequestUri` | src/main/java/com/niblet/virtualization/service/NibletServiceVirtualizationService.java:418-430 | fails with StringIndexOutOfBounds exactly when the URI has at most one character (`substring(1)` then `charAt(-1)`) |
| `RequestFormat.NormalisedSegments` | src/main/java/com/niblet/virtualization/service/NibletServiceVirtualizationService.java:418-430 | splitting the normalised URI on `///` gives back the `/`-segments of the URI without its first character and one trailing `/` (with trailing empty segments dropped), so the segment counts agree; the one exception is a rest made only of slashes, which has no segments but splits to `[""]` |
| `RequestFormat.NormalisedHasNoSingleSlashSegment` | src/main/java/com/niblet/virtualization/service/NibletServiceVirtualizationService.java:426-429 | no segment joined by `///` contains a `/`, so a placeholder cannot match across segments |
| `RequestFormat.Tokens` | src/main/java/com/niblet/virtualization/service/NibletServiceVirtualizationService.java:436-439 | one `<key=value>` token per entry, in the entries' order |
| `RequestFormat.Entries` | src/main/java/com/niblet/virtualization/service/NibletServiceVirtualizationService.java:436 | the map's entry set in some iteration order: every entry exactly once, nothing else |
| `RequestFormat.Alphabetize` | src/main/java/com/niblet/virtualization/service/NibletServiceVirtualizationService.java:432-458 | the text is the sorted tokens of an enumeration of the map joined with the separator, and it is the one text `AlphabetizedAs` admits |
| `RequestFormat.SameEntries` | src/main/java/com/niblet/virtualization/service/NibletServiceVirtualizationService.java:436 | any two enumerations of one map are permutations of each other |
| `RequestFormat.TokensPermute` | src/main/java/com/niblet/virtualization/service/NibletServiceVirtualizationService.java:436-439 | permuted entries give permuted tokens |
| `RequestFormat.AlphabetizedIgnoresOrder` | src/main/java/com/niblet/virtualization/service/NibletServiceVirtualizationService.java:432-444 | the sorted token list does not depend on the map's iteration order |
| `RequestFormat.AlphabetizedUnique` | src/main/java/com/niblet/virtualization/service/NibletServiceVirtualizationService.java:446-458 | a map has exactly one alphabetized text per separator |
| `RequestFormat.OneTokenPerEntry` | src/main/java/com/niblet/virtualization/service/NibletServiceVirtualizationService.java:432-444 | the sorted list has one token per map entry and contains the token of every entry |
| `RequestFormat.KeysCount` | src/main/java/com/niblet/virtualization/service/NibletServiceVirtualizationService.java:436 | an enumeration with distinct keys has as many distinct keys as entries |
| `StringOrder.AtMostReflexive` | src/main/java/com/niblet/virtualization/service/NibletServiceVirtualizationService.java:441 | the String order used by `Collections.sort` is reflexive |
| `StringOrder.AtMostTotal` | src/main/java/com/niblet/virtualization/service/NibletServiceVirtualizationService.java:441 | the order is total |
| `StringOrder.AtMostAntisymmetric` | src/main/java/com/niblet/virtualization/service/NibletServiceVirtualizationService.java:441 | the order is antisymmetric |
| `StringOrder.AtMostTransitive` | src/main/java/com/niblet/virtualization/service/NibletServiceVirtualizationService.java:441 | the order is transitive |
| `StringOrder.Insert` | src/main/java/com/niblet/virtualization/service/NibletServiceVirtualizationService.java:441 | inserting into a sorted list keeps it sorted and adds exactly the new element |
| `StringOrder.Sort` | src/main/java/com/niblet/virtualization/service/NibletServiceVirtualizationService.java:441 | `Collections.sort` on strings: the result is sorted and a permutation of the input |
| `StringOrder.SortedUnique` | src/main/java/com/niblet/virtualization/service/NibletServiceVirtualizationService.java:441 | two sorted permutations of one list are equal |
| `StringOrder.SortIgnoresOrder` | src/main/java/com/niblet/virtualization/service/NibletServiceVirtualizationService.java:441 | sorting permutations of one list gives one result |
| `Patterns.WordRunEnd` | src/main/java/com/niblet/virtualization/service/NibletServiceVirtualizationService.java:361 | the end of the `\w+` group name: every character before it is a word character and the one at it is not |
| `Patterns.ClosingIndex` | src/main/java/com/niblet/virtualization/service/NibletServiceVirtualizationService.java:361 | the `)` that ends the placeholder, followed only by what `$` admits, or -1 |
| `Patterns.ClosingIndexUnique` | src/main/java/com/niblet/virtualization/service/NibletServiceVirtualizationService.java:361 | that `)` is the only one that can end the placeholder |
| `Patterns.PlaceholderRoundTrip` | src/main/java/com/niblet/virtualization/service/NibletServiceVirtualizationService.java:361-373 | the inner regex read from `(?<name>R)` is R |
| `Patterns.PlaceholderShape` | src/main/java/com/niblet/virtualization/service/NibletServiceVirtualizationService.java:361-373 | a segment the placeholder pattern accepts is `(?<name>R)` with R the group read |
| `MatchModel.Tiers.Credit` | src/main/java/com/niblet/virtualization/service/NibletServiceVirtualizationService.java:384-403 | crediting a category adds one to the five-tier total |
| `MatchModel.ParamCounts.Credit` | src/main/java/com/niblet/virtualization/service/NibletServiceVirtualizationService.java:199-229 | crediting adds one to the total, and it leaves the five tiers alone exactly for the exists category |
| `MatchModel.MatchRecord.constructor` | src/main/java/com/niblet/virtualization/service/NibletServiceVirtualizationService.java:314-315 | a new MockApiMatchData holds its entity and path counters, with zero header and query counters |
| `MatchModel.FilterRecord.constructor` | src/main/java/com/niblet/virtualization/controller/NibletServiceVirtualizationController.java:303-304 | a new MockApiFilterData holds its entity and path counters, with zero header and query counters |
| `MatchModel.Snapshots` | src/main/java/com/niblet/virtualization/service/NibletServiceVirtualizationService.java:310 | the records' current counters, in list order |
| `MatchModel.FilterSnapshots` | src/main/java/com/niblet/virtualization/controller/NibletServiceVirtualizationController.java:293 | the legacy records' current counters, in list order |
| `PathScoring.BodyCategory` | src/main/java/com/niblet/virtualization/service/NibletServiceVirtualizationService.java:384-403 | wildcard exactly for the wildcard body; digit exactly for `\d+`; alphanumeric exactly for `[a-zA-Z0-9_]+`; never exact or exists |
| `PathScoring.SegmentCategory` | src/main/java/com/niblet/virtualization/service/NibletServiceVirtualizationService.java:351-405 | exact exactly when the segments are equal; some category exactly when they are equal or the stored segment is a placeholder whose regex fully matches the request segment |
| `PathScoring.TallyStep` | src/main/java/com/niblet/virtualization/service/NibletServiceVirtualizationService.java:349-406 | one more segment adds its category to the counters and keeps "all matched" only if it matched |
| `PathScoring.MatchedAsStep` | src/main/java/com/niblet/virtualization/service/NibletServiceVirtualizationService.java:349-406 | one more segment adds one to the set of segments of its category |
| `PathScoring.TallyCounts` | src/main/java/com/niblet/virtualization/service/NibletServiceVirtualizationService.java:349-406 | each path counter is the number of segments matched in its category |
| `PathScoring.AllMatchedTally` | src/main/java/com/niblet/virtualization/service/NibletServiceVirtualizationService.java:349-411 | when every segment matches, the path counters sum to the segment count |
| `PathScoring.TallyOfIdenticalPaths` | src/main/java/com/niblet/virtualization/service/NibletServiceVirtualizationService.java:324-327 | identical segment lists count every segment as exact and nothing else |
| `PathScoring.ScorePath` | src/main/java/com/niblet/virtualization/service/NibletServiceVirtualizationService.java:316-412 | fails with StringIndexOutOfBounds exactly when the stored path has fewer than two characters |
| `PathScoring.ScorePathKept` | src/main/java/com/niblet/virtualization/service/NibletServiceVirtualizationService.java:316-412 | a candidate is kept exactly when its stripped path equals the request, or has as many segments, contains `(?<` and all its segments match; a kept candidate's counters sum to the segment count |
| `PathScoring.LiteralShortcutAgrees` | src/main/java/com/niblet/virtualization/service/NibletServiceVirtualizationService.java:317-327 | a literal match gives pathExact = segment count and every other path counter 0 |
| `PathScoring.ScorePathCounters` | src/main/java/com/niblet/virtualization/service/NibletServiceVirtualizationService.java:347-411 | on a placeholder match each counter is the number of segments whose category it is |
| `PathScoring.KeptPathsFailure` | src/main/java/com/niblet/virtualization/service/NibletServiceVirtualizationService.java:312-318 | the loop completes exactly when every stored path has at least two characters; otherwise it throws StringIndexOutOfBounds |
| `PathScoring.KeptPathsMeaning` | src/main/java/com/niblet/virtualization/service/NibletServiceVirtualizationService.java:307-416 | each kept record comes from a candidate, carries its path score, and starts with zero header and query counters |
| `PathScoring.KeptPathsExtend` | src/main/java/com/niblet/virtualization/service/NibletServiceVirtualizationService.java:312-413 | one more candidate appends its record when it is kept, leaves the list when it is skipped, and ends the loop when it throws |
| `PathScoring.KeptPathsFailurePersists` | src/main/java/com/niblet/virtualization/service/NibletServiceVirtualizationService.java:312-318 | an exception on a prefix of the candidates is the exception of the whole loop |
| `PathScoring.ClassifySegment` | src/main/java/com/niblet/virtualization/service/NibletServiceVirtualizationService.java:351-405 | the Java branching for one segment yields its category, or none when the segment does not match |
| `PathScoring.CountSegments` | src/main/java/com/niblet/virtualization/service/NibletServiceVirtualizationService.java:347-406 | the section loop leaves the record's path counters equal to the tally, reports whether all segments matched, and changes nothing else |
| `PathScoring.ScoreCandidate` | src/main/java/com/niblet/virtualization/service/NibletServiceVirtualizationService.java:314-412 | one candidate yields a fresh record with its path score and no other counters, none when it is skipped, or the exception |
| `PathScoring.KeepCandidate` | src/main/java/com/niblet/virtualization/service/NibletServiceVirtualizationService.java:312-413 | the list grows by the candidate's fresh record exactly when it is kept, and the records stay distinct |
| `PathScoring.PathCounts` | src/main/java/com/niblet/virtualization/service/NibletServiceVirtualizationService.java:307-416 | generatedMockApiMatchDataListWithPathCounts returns distinct fresh records whose counters are the kept path scores in candidate order, or the exception |
| `ParamScoring.WithCounts` | src/main/java/com/niblet/virtualization/service/NibletServiceVirtualizationService.java:170-233 | updating one scope's counters leaves the entity, the path and the other scope unchanged |
| `ParamScoring.DecodeEntries` | src/main/java/com/niblet/virtualization/service/NibletServiceVirtualizationService.java:185-193 | every piece decodes to one entry, in order |
| `ParamScoring.ValueCategory` | src/main/java/com/niblet/virtualization/service/NibletServiceVirtualizationService.java:199-229 | exact exactly on literal equality with the request's value; exists exactly when the values differ and the declared value is blank |
| `ParamScoring.RequestValueNotMatched` | src/main/java/com/niblet/virtualization/service/NibletServiceVirtualizationService.java:203-229 | once the values differ, the category depends only on the declared text: the request value is never matched against the regex |
| `ParamScoring.ScoreParams` | src/main/java/com/niblet/virtualization/service/NibletServiceVirtualizationService.java:176-232 | the `.*` sentinel leaves the counters unchanged |
| `ParamScoring.CreditTotal` | src/main/java/com/niblet/virtualization/service/NibletServiceVirtualizationService.java:185-231 | each declared key the request carries adds exactly one to the counters, and the others add nothing |
| `ParamScoring.CreditIgnoresAbsentNames` | src/main/java/com/niblet/virtualization/service/NibletServiceVirtualizationService.java:195 | declared keys absent from the request leave the counters unchanged |
| `ParamScoring.EncodeEntries` | src/main/java/com/niblet/virtualization/service/NibletServiceVirtualizationService.java:179-189 | one `\<k=v\>` piece per entry |
| `ParamScoring.DecodeEncodeEntry` | src/main/java/com/niblet/virtualization/service/NibletServiceVirtualizationService.java:188-193 | a storable entry decodes back to itself |
| `ParamScoring.DecodeEntriesOfEncoded` | src/main/java/com/niblet/virtualization/service/NibletServiceVirtualizationService.java:185-193 | storable entries decode back to themselves |
| `ParamScoring.DecodeEncode` | src/main/java/com/niblet/virtualization/service/NibletServiceVirtualizationService.java:179-232 | scoring a stored `^(a\|[^a])*\<k=v\>…` text credits exactly its declared entries that the request carries |
| `ParamScoring.ScoreCandidate` | src/main/java/com/niblet/virtualization/service/NibletServiceVirtualizationService.java:170-233 | scoring one candidate changes only the scored scope's counters |
| `ParamScoring.ScoreCandidatesMeaning` | src/main/java/com/niblet/virtualization/service/NibletServiceVirtualizationService.java:170-233 | the loop completes exactly when every candidate scores, and then scores each in place |
| `ParamScoring.CountConstraints` | src/main/java/com/niblet/virtualization/service/NibletServiceVirtualizationService.java:172-232 | the loop body for one candidate computes the scored counters or the exception |
| `ParamScoring.CountEntries` | src/main/java/com/niblet/virtualization/service/NibletServiceVirtualizationService.java:185-231 | the entry loop credits the decoded entries, or throws the first decoding exception |
| `ParamScoring.ParseEntry` | src/main/java/com/niblet/virtualization/service/NibletServiceVirtualizationService.java:188-193 | decodes one piece, or raises StringIndexOutOfBounds or ArrayIndexOutOfBounds |
| `ParamScoring.CreditEntry` | src/main/java/com/niblet/virtualization/service/NibletServiceVirtualizationService.java:195-230 | a carried key credits its category once; an absent key credits nothing |
| `ParamScoring.UpdateRecord` | src/main/java/com/niblet/virtualization/service/NibletServiceVirtualizationService.java:170-233 | the record's new counters are the scored snapshot of its old ones, or the exception |
| `ParamScoring.UpdateCounts` | src/main/java/com/niblet/virtualization/service/NibletServiceVirtualizationService.java:167-305 | updateMockApiMatchDataListWith{Header,Query}Counts: the records' new snapshots are the scored old snapshots, or the first exception |
| `Ranking.Key` | src/main/java/com/niblet/virtualization/util/NibletServiceVirtualizationUtils.java:30-61 | the fifteen counters in comparison order: path, then query, then header tiers |
| `Ranking.CompareZero` | src/main/java/com/niblet/virtualization/util/NibletServiceVirtualizationUtils.java:12-63 | the comparator returns 0 exactly when all fifteen compared counters are equal |
| `Ranking.CompareAntisymmetric` | src/main/java/com/niblet/virtualization/util/NibletServiceVirtualizationUtils.java:12-28 | compare(a, b) = −compare(b, a) |
| `Ranking.CompareTransitive` | src/main/java/com/niblet/virtualization/util/NibletServiceVirtualizationUtils.java:30-63 | the order is transitive, so it is a total preorder |
| `Ranking.CompareStrictTransitive` | src/main/java/com/niblet/virtualization/util/NibletServiceVirtualizationUtils.java:30-63 | a strict step anywhere in a chain makes the whole chain strict |
| `Ranking.CompareMeaning` | src/main/java/com/niblet/virtualization/util/NibletServiceVirtualizationUtils.java:11-31 | a is ordered first exactly when a has the higher count at the first differing position |
| `Ranking.PathExactDominates` | src/main/java/com/niblet/virtualization/util/NibletServiceVirtualizationUtils.java:30-31 | more exact path matches always sorts first |
| `Ranking.PathDecidesFirst` | src/main/java/com/niblet/virtualization/util/NibletServiceVirtualizationUtils.java:30-52 | differing path tiers decide regardless of query and header counters |
| `Ranking.QueryDecidesBeforeHeaders` | src/main/java/com/niblet/virtualization/util/NibletServiceVirtualizationUtils.java:41-61 | with equal path tiers, differing query tiers decide regardless of header counters |
| `Ranking.Insert` | src/main/java/com/niblet/virtualization/service/NibletServiceVirtualizationService.java:84 | inserting into a list sorted by the comparator keeps it sorted and adds exactly the element |
| `Ranking.Sort` | src/main/java/com/niblet/virtualization/service/NibletServiceVirtualizationService.java:84 | `Collections.sort` with the comparator: sorted, and a permutation of the input |
| `Ranking.SortKeepsTiesInOrder` | src/main/java/com/niblet/virtualization/service/NibletServiceVirtualizationService.java:84 | the sort is stable: candidates with equal counters keep their input order |
| `Ranking.TopRank` | src/main/java/com/niblet/virtualization/util/NibletServiceVirtualizationUtils.java:9-64 | the counters of some candidate, ordered no later than every candidate's |
| `Ranking.SortPutsBestFirst` | src/main/java/com/niblet/virtualization/service/NibletServiceVirtualizationService.java:84-103 | after sorting, the best candidates come first in input order, and everything after them ranks strictly lower |
| `Ranking.HeadIsFirstBest` | src/main/java/com/niblet/virtualization/service/NibletServiceVirtualizationService.java:103 | `get(0)` after sorting is the first of the best candidates and ranks no lower than any candidate |
| `Ranking.OnlyZeroDifferences` | src/main/java/com/niblet/virtualization/service/NibletServiceVirtualizationService.java:159-164 | the set of differences is `{0}` exactly when every difference is 0 |
| `Ranking.DifferencesZero` | src/main/java/com/niblet/virtualization/service/NibletServiceVirtualizationService.java:136-157 | all seventeen differences are 0 exactly when the fifteen ranked counters and both exists counters agree |
| `Ranking.SamePriority` | src/main/java/com/niblet/virtualization/service/NibletServiceVirtualizationService.java:129-165 | areFirstTwoSamePriority is true exactly when all seventeen counters agree |
| `Ranking.ConflictExactlyWhenBestTie` | src/main/java/com/niblet/virtualization/service/NibletServiceVirtualizationService.java:90-101 | the first two after sorting tie exactly when at least two candidates share the best counters and the first two of them also agree on the exists counters |
| `Dispatcher.ScoreRecords` | src/main/java/com/niblet/virtualization/service/NibletServiceVirtualizationService.java:64-67 | path counting, then query counting, then header counting on one record list computes `Scored` |
| `Dispatcher.Answer` | src/main/java/com/niblet/virtualization/service/NibletServiceVirtualizationService.java:69-126 | the outcome after scoring: 404, 409, an escaped exception, 500 with the template error, or the winner's status and body |
| `Dispatcher.Route` | src/main/java/com/niblet/virtualization/service/NibletServiceVirtualizationService.java:52-126 | the outcome once the texts are alphabetized |
| `Dispatcher.ProcessAnyMockRequest` | src/main/java/com/niblet/virtualization/service/NibletServiceVirtualizationService.java:44-127 | the handler's outcome, with the query and header texts alphabetized with `\|~\|` |
| `Dispatcher.ScoredEmpty` | src/main/java/com/niblet/virtualization/service/NibletServiceVirtualizationService.java:64-74 | header and query scoring never drop a candidate: the scored list is empty exactly when the path filter keeps none |
| `Dispatcher.NotFoundExactly` | src/main/java/com/niblet/virtualization/service/NibletServiceVirtualizationService.java:56-74 | 404 is chosen exactly when the lookup finds nothing or no candidate's path matches |
| `Dispatcher.ConflictExactly` | src/main/java/com/niblet/virtualization/service/NibletServiceVirtualizationService.java:90-101 | 409 with its message is chosen exactly when the first two best candidates tie on all seventeen counters |
| `Dispatcher.ChosenIsFirstBest` | src/main/java/com/niblet/virtualization/service/NibletServiceVirtualizationService.java:103-105 | a chosen answer is the first best candidate's body and valid status; that candidate ranks no lower than any other; and there was no tie |
| `Dispatcher.PlainBodyServedAsStored` | src/main/java/com/niblet/virtualization/service/NibletServiceVirtualizationService.java:107-126 | a body without `{` is served unchanged, and omitted when blank |
| `Dispatcher.ExpansionFaults` | src/main/java/com/niblet/virtualization/service/NibletServiceVirtualizationService.java:107-118 | an InvalidResponseBodyException from expansion becomes 500 with its message; any other exception escapes |
| `Generators.Offset` | src/main/java/com/niblet/virtualization/service/NibletServiceVirtualizationService.java:781 | the unsigned 32-bit distance of a value from the range start |
| `Generators.OffsetOfDraw` | src/main/java/com/niblet/virtualization/service/NibletServiceVirtualizationService.java:781 | `nextInt(bound) + start` has the drawn offset back |
| `Generators.IntDrawableInRange` | src/main/java/com/niblet/virtualization/service/NibletServiceVirtualizationService.java:777-788 | without overflow, the values getRandomIntRangeInclusive can give are exactly the integers in [start, end] |
| `Generators.RandomIntRangeInclusive` | src/main/java/com/niblet/virtualization/service/NibletServiceVirtualizationService.java:777-788 | fails with IllegalArgument exactly when the 32-bit bound `end - start + 1` is not positive; otherwise draws a value the wrapped arithmetic can give |
| `Generators.LengthInRange` | src/main/java/com/niblet/virtualization/service/NibletServiceVirtualizationService.java:835-853 | the lengths getRandomCharacters can draw are exactly those in [start, end] |
| `Generators.RandomCharacterFromSet` | src/main/java/com/niblet/virtualization/service/NibletServiceVirtualizationService.java:855-877 | an element of a non-empty set; IllegalArgument for the empty set |
| `Generators.RandomCharacters` | src/main/java/com/niblet/virtualization/service/NibletServiceVirtualizationService.java:835-853 | a string of a drawable length whose every character is in the set, or IllegalArgument |
| `Generators.DecimalPlacesFault` | src/main/java/com/niblet/virtualization/service/NibletServiceVirtualizationService.java:795-810 | no error exactly when 1 <= minPlaces <= maxPlaces <= 10; every error is an InvalidResponseBodyException |
| `Generators.RandomDecimalRangeInclusive` | src/main/java/com/niblet/virtualization/service/NibletServiceVirtualizationService.java:790-833 | the decimal-place checks come first, then a non-positive width fails `nextDouble`, otherwise some decimal text |
| `TemplateSyntax.ArgKinds` | src/main/java/com/niblet/virtualization/service/NibletServiceVirtualizationService.java:484-772 | each pattern has at least one capture group |
| `TemplateSyntax.ArgEnd` | src/main/java/com/niblet/virtualization/service/NibletServiceVirtualizationService.java:722-772 | a group's greedy end: what lies between is text the group can capture |
| `TemplateSyntax.ArgsAt` | src/main/java/com/niblet/virtualization/service/NibletServiceVirtualizationService.java:484-772 | the comma-separated groups close with `)}` and have one well-formed text per group |
| `TemplateSyntax.MatchAt` | src/main/java/com/niblet/virtualization/service/NibletServiceVirtualizationService.java:484-772 | a match starts with `{`, ends with `}`, and carries well-formed arguments (a select token a non-empty set) |
| `TemplateSyntax.SelectFrom` | src/main/java/com/niblet/virtualization/service/NibletServiceVirtualizationService.java:650-687 | the backtracking select class yields a well-formed token ending with `}` |
| `TemplateSyntax.Find` | src/main/java/com/niblet/virtualization/service/NibletServiceVirtualizationService.java:484-488 | `Matcher.find()` returns a match at a position at or after the search start |
| `TemplateSyntax.FindIsFirst` | src/main/java/com/niblet/virtualization/service/NibletServiceVirtualizationService.java:484-488 | `find()` returns the first position that matches, and nothing when no position does |
| `TemplateSyntax.Tokens` | src/main/java/com/niblet/virtualization/service/NibletServiceVirtualizationService.java:484-500 | successive `find()` calls give well-formed, non-overlapping, ascending tokens |
| `TemplateSyntax.NoBraceNoTokens` | src/main/java/com/niblet/virtualization/service/NibletServiceVirtualizationService.java:484-772 | text without `{` contains no token |
| `Template.CharSetNonEmpty` | src/main/java/com/niblet/virtualization/service/NibletServiceVirtualizationService.java:462-473 | every character pass draws from a non-empty set |
| `Template.Range` | src/main/java/com/niblet/virtualization/service/NibletServiceVirtualizationService.java:488-490 | the arguments read as 32-bit integers, or NumberFormat |
| `Template.DecimalArgs` | src/main/java/com/niblet/virtualization/service/NibletServiceVirtualizationService.java:738-772 | the decimal bounds and places read, or NumberFormat |
| `Template.Replacement` | src/main/java/com/niblet/virtualization/service/NibletServiceVirtualizationService.java:484-772 | the generator call for a token gives one of its possible outcomes |
| `Template.NumberReplacement` | src/main/java/com/niblet/virtualization/service/NibletServiceVirtualizationService.java:722-735 | `{number(a,b)}` is replaced by the decimal text of a drawn integer |
| `Template.DecimalReplacement` | src/main/java/com/niblet/virtualization/service/NibletServiceVirtualizationService.java:738-772 | `{decimal(...)}` gives the decimal generator's outcome |
| `Template.CharactersReplacement` | src/main/java/com/niblet/virtualization/service/NibletServiceVirtualizationService.java:484-719 | a character token gives getRandomCharacters' outcome on its set |
| `Template.ChainSplit` | src/main/java/com/niblet/virtualization/service/NibletServiceVirtualizationService.java:484-774 | running a successful prefix of passes, then the rest from its result, is running them all |
| `Template.ChainStep` | src/main/java/com/niblet/virtualization/service/NibletServiceVirtualizationService.java:484-774 | one more step extends a successful prefix, or ends the chain with its exception |
| `Template.NextToken` | src/main/java/com/niblet/virtualization/service/NibletServiceVirtualizationService.java:486 | the token `find()` returns next is the next of the pass's tokens |
| `Template.TokenStepOf` | src/main/java/com/niblet/virtualization/service/NibletServiceVirtualizationService.java:495-499 | a token's step replaces the first literal occurrence of its text with the quoted replacement, or raises the generator's exception |
| `Template.RunPass` | src/main/java/com/niblet/virtualization/service/NibletServiceVirtualizationService.java:484-500 | one `while (matcher.find())` loop gives the pass's outcome for the draws it made |
| `Template.Expand` | src/main/java/com/niblet/virtualization/service/NibletServiceVirtualizationService.java:460-775 | replaceGeneratedValues gives the outcome of the seventeen passes in order, stopping at the first exception |
| `TemplateProperties.ChainShape` | src/main/java/com/niblet/virtualization/service/NibletServiceVirtualizationService.java:484-774 | a completed run draws for every pass; a failed one stops after at least one pass |
| `TemplateProperties.ChainRecords` | src/main/java/com/niblet/virtualization/service/NibletServiceVirtualizationService.java:484-774 | in a completed run every step's record is one a successful step admits |
| `TemplateProperties.ChainIdle` | src/main/java/com/niblet/virtualization/service/NibletServiceVirtualizationService.java:484-774 | passes that find nothing leave the payload exactly as it is, and draw nothing |
| `TemplateProperties.PassShape` | src/main/java/com/niblet/virtualization/service/NibletServiceVirtualizationService.java:484-500 | a completed pass draws once per token and every draw succeeded; a failed one stops at a token |
| `TemplateProperties.IdlePass` | src/main/java/com/niblet/virtualization/service/NibletServiceVirtualizationService.java:484-500 | a pass with no token leaves the payload unchanged |
| `TemplateProperties.TemplateFree` | src/main/java/com/niblet/virtualization/service/NibletServiceVirtualizationService.java:460-775 | a body without `{` expands to itself and to nothing else |
| `TemplateProperties.NumberInRange` | src/main/java/com/niblet/virtualization/service/NibletServiceVirtualizationService.java:722-735 | without overflow, `{number(a,b)}` can be replaced by exactly the decimal texts of the integers in [a, b] |
| `TemplateProperties.NumberReadsBack` | src/main/java/com/niblet/virtualization/service/NibletServiceVirtualizationService.java:722-735 | the replacement parses back as an integer in [a, b] |
| `TemplateProperties.CharactersInRange` | src/main/java/com/niblet/virtualization/service/NibletServiceVirtualizationService.java:484-719 | a character token's replacement has a length in [a, b] and only characters of its set, and every such string is possible; the exact-length form has a = b |
| `TemplateProperties.DecimalRejects` | src/main/java/com/niblet/virtualization/service/NibletServiceVirtualizationService.java:795-810 | a decimal token raises InvalidResponseBodyException exactly when its places are not 1 <= min <= max <= 10 |
| `TemplateProperties.FiveExpands` | src/main/java/com/niblet/virtualization/service/NibletServiceVirtualizationService.java:722-735 | the body `{number(5,5)}` always expands to `5` |
| `JavaNumbers.Wrap` | src/main/java/com/niblet/virtualization/service/NibletServiceVirtualizationService.java:781 | 32-bit `int` wrap-around: the identity on ints, minus 2^32 just above the range |
| `JavaNumbers.ParseInt` | src/main/java/com/niblet/virtualization/service/NibletServiceVirtualizationService.java:105 | `Integer.valueOf`: a 32-bit value, or NumberFormat |
| `JavaNumbers.ParseDecimal` | src/main/java/com/niblet/virtualization/service/NibletServiceVirtualizationService.java:742-743 | `Double.valueOf` on a captured group fails exactly when the group has no digit |
| `JavaNumbers.IntToStringRoundTrip` | src/main/java/com/niblet/virtualization/service/NibletServiceVirtualizationService.java:730-733 | the decimal text of an int parses back to it |
| `JavaStrings.IndexFrom` | src/main/java/com/niblet/virtualization/service/NibletServiceVirtualizationService.java:320 | the first occurrence at or after the start, or -1 when there is none |
| `JavaStrings.SplitJoinSplit` | src/main/java/com/niblet/virtualization/service/NibletServiceVirtualizationService.java:426-429 | splitting a join on its separator gives back the parts, when no part contains the separator's first character |
| `LegacyController.Trim` | src/main/java/com/niblet/virtualization/controller/NibletServiceVirtualizationController.java:295-299 | drops the first character and one trailing `/`; fails with StringIndexOutOfBounds exactly on texts of at most one character |
| `LegacyController.ScorePath` | src/main/java/com/niblet/virtualization/controller/NibletServiceVirtualizationController.java:305-396 | fails exactly when the stored path has at most one character |
| `LegacyController.ScorePathKept` | src/main/java/com/niblet/virtualization/controller/NibletServiceVirtualizationController.java:305-396 | kept exactly when the trimmed paths are equal, or have as many `/`-segments, contain `(?<` and all segments match; a literal match counts every segment exact; kept counters sum to the segment count |
| `LegacyController.LegacyWildcard` | src/main/java/com/niblet/virtualization/controller/NibletServiceVirtualizationController.java:366-387 | `.+` is the wildcard body, and the service's `[^/]+` counts as custom here |
| `LegacyController.KeptPathsFailure` | src/main/java/com/niblet/virtualization/controller/NibletServiceVirtualizationController.java:305-310 | the loop completes exactly when every stored path has at least two characters |
| `LegacyController.KeptPathsMeaning` | src/main/java/com/niblet/virtualization/controller/NibletServiceVirtualizationController.java:290-400 | each kept record comes from a candidate, carries its path score, and starts with zero header and query counters |
| `LegacyController.KeptPathsExtend` | src/main/java/com/niblet/virtualization/controller/NibletServiceVirtualizationController.java:301-397 | one more candidate appends its record when it is kept, leaves the list when it is skipped, and ends the loop when it throws |
| `LegacyController.CountSegments` | src/main/java/com/niblet/virtualization/controller/NibletServiceVirtualizationController.java:334-390 | the section loop leaves the path counters equal to the tally, with `.+` as the wildcard body |
| `LegacyController.ScoreCandidate` | src/main/java/com/niblet/virtualization/controller/NibletServiceVirtualizationController.java:303-396 | one candidate yields a fresh record with its path score, none when it is skipped, or the exception |
| `LegacyController.KeepCandidate` | src/main/java/com/niblet/virtualization/controller/NibletServiceVirtualizationController.java:301-397 | the list grows by the candidate's fresh record exactly when it is kept, and the records stay distinct |
| `LegacyController.FilterPaths` | src/main/java/com/niblet/virtualization/controller/NibletServiceVirtualizationController.java:301-399 | the candidate loop returns distinct fresh records whose counters are the kept path scores, or the exception |
| `LegacyController.GetPathFilteredList` | src/main/java/com/niblet/virtualization/controller/NibletServiceVirtualizationController.java:290-400 | getPathFilteredList trims the request URI, then filters, or throws |
| `LegacyController.ConstraintPieces` | src/main/java/com/niblet/virtualization/controller/NibletServiceVirtualizationController.java:174-177 | fails exactly when the stored text has fewer than four characters |
| `LegacyController.ValueCategory` | src/main/java/com/niblet/virtualization/controller/NibletServiceVirtualizationController.java:193-218 | exact exactly on literal equality; never exists |
| `LegacyController.BlankValueIsCustom` | src/main/java/com/niblet/virtualization/controller/NibletServiceVirtualizationController.java:197-218 | a blank declared value that differs from the request value counts as custom |
| `LegacyController.CreditConstraintsTotal` | src/main/java/com/niblet/virtualization/controller/NibletServiceVirtualizationController.java:179-221 | each declared key the request carries adds exactly one to the counters |
| `LegacyController.ScoreConstraints` | src/main/java/com/niblet/virtualization/controller/NibletServiceVirtualizationController.java:168-222 | the `.*` sentinel leaves the counters unchanged, and a shorter text fails with StringIndexOutOfBounds |
| `LegacyController.DecodeEncode` | src/main/java/com/niblet/virtualization/controller/NibletServiceVirtualizationController.java:174-221 | scoring a stored `.*\<k=v\>.*…` text credits exactly its declared entries that the request carries |
| `LegacyController.ScopeScore` | src/main/java/com/niblet/virtualization/controller/NibletServiceVirtualizationController.java:166-288 | header texts and corrected query texts are scored with the literal `.*` split; query texts as written with the regular-expression split |
| `LegacyController.ScoreCandidateConstraints` | src/main/java/com/niblet/virtualization/controller/NibletServiceVirtualizationController.java:166-288 | scoring one candidate changes only the scored scope's counters |
| `LegacyController.ScoreCandidatesConstraintsMeaning` | src/main/java/com/niblet/virtualization/controller/NibletServiceVirtualizationController.java:166-288 | the loop completes exactly when every candidate scores, and then scores each in place |
| `LegacyController.CountEntries` | src/main/java/com/niblet/virtualization/controller/NibletServiceVirtualizationController.java:179-221 | the entry loop credits the decoded entries, or throws the first decoding exception |
| `LegacyController.CountConstraints` | src/main/java/com/niblet/virtualization/controller/NibletServiceVirtualizationController.java:168-222 | the loop body for one candidate computes the scored counters or the exception |
| `LegacyController.CountQueryAsWritten` | src/main/java/com/niblet/virtualization/controller/NibletServiceVirtualizationController.java:229-243 | one query text as updateQueryCounts cuts it: the sentinel, the two cuts and the regular-expression split give `ScoreQueryAsWritten` |
| `LegacyController.UpdateRecord` | src/main/java/com/niblet/virtualization/controller/NibletServiceVirtualizationController.java:166-288 | the record's new counters for the scope are the scored snapshot of its old ones, or the exception |
| `LegacyController.UpdateCounts` | src/main/java/com/niblet/virtualization/controller/NibletServiceVirtualizationController.java:164-288 | updateHeaderCounts, and updateQueryCounts with its split as written (or corrected): new snapshots are the scored old ones, or the first exception |
| `LegacyController.QueryNeverCreditedAsWritten` | src/main/java/com/niblet/virtualization/controller/NibletServiceVirtualizationController.java:225-288 | as written, query scoring either leaves the counters unchanged or throws: it never credits anything |
| `LegacyController.QueryCountsLostAsWritten` | src/main/java/com/niblet/virtualization/controller/NibletServiceVirtualizationController.java:243 | for stored entries without line terminators, the split as written credits nothing while the corrected split credits every declared entry |
| `LegacyController.QueryExactMatchIgnoredAsWritten` | src/main/java/com/niblet/virtualization/controller/NibletServiceVirtualizationController.java:243 | stored `.*\<id=7\>.*` and a request with id=7: the counters stay at zero as written |
| `LegacyController.QueryScoreIgnoresRequestAsWritten` | src/main/java/com/niblet/virtualization/controller/NibletServiceVirtualizationController.java:225-288 | as written, a query text scores alike whatever query parameters the request sends |
| `LegacyController.StrayPieceSwallowedAsWritten` | src/main/java/com/niblet/virtualization/controller/NibletServiceVirtualizationController.java:243 | stored `.*x.*`: as written the split leaves no piece and scoring goes on; with the literal split `substring` throws |
| `LegacyController.QueryExactMatchCredited` | src/main/java/com/niblet/virtualization/controller/NibletServiceVirtualizationController.java:177 | the same input with the `\\.\\*` split counts one exact query match |
| `LegacyController.ScoreRecords` | src/main/java/com/niblet/virtualization/controller/NibletServiceVirtualizationController.java:146-148 | getPathFilteredList, then updateQueryCounts, then updateHeaderCounts computes `Scored` for the chosen query split |
| `LegacyController.ScoredMeaning` | src/main/java/com/niblet/virtualization/controller/NibletServiceVirtualizationController.java:146-148 | each scored record is a candidate with its path, query and header scores from zero; with the query split as written every query counter is zero |
| `LegacyController.Answer` | src/main/java/com/niblet/virtualization/controller/NibletServiceVirtualizationController.java:150-161 | sorting, `get(0)` (IndexOutOfBounds on an empty list), the status, and the body only when it is non-blank |
| `LegacyController.Route` | src/main/java/com/niblet/virtualization/controller/NibletServiceVirtualizationController.java:114-161 | the outcome once the texts are alphabetized, for the chosen query split |
| `LegacyController.ProcessAnyMockRequest` | src/main/java/com/niblet/virtualization/controller/NibletServiceVirtualizationController.java:108-162 | the handler's outcome with updateQueryCounts as written, with headers joined by `;` and query parameters by `&` after `?` |
| `LegacyController.AnswersWithFirstBest` | src/main/java/com/niblet/virtualization/controller/NibletServiceVirtualizationController.java:150-161 | for either query split, a response comes from the first best candidate, with no conflict check, and its body only when non-blank |
| `LegacyController.QueryParametersIgnoredAsWritten` | src/main/java/com/niblet/virtualization/controller/NibletServiceVirtualizationController.java:146-161 | as written, the handler's answer does not depend on the request's query parameters once the lookup has received the same texts |
| `LegacyController.EmptyFilterEscapes` | src/main/java/com/niblet/virtualization/controller/NibletServiceVirtualizationController.java:146-152 | when no path matches, `get(0)` throws IndexOutOfBounds instead of answering 404 |
| `LegacyController.ChooseNotFound` | src/main/java/com/niblet/virtualization/controller/NibletServiceVirtualizationController.java:150-161 | after scoring, a bodiless 404 comes only from a winner stored with status 404 and a blank body |
| `LegacyController.NotFoundExactly` | src/main/java/com/niblet/virtualization/controller/NibletServiceVirtualizationController.java:114-123 | for either query split, 404 exactly when the lookup finds nothing, or the winner itself is a bodiless 404 |

## Left out

- Randomness. `SecureRandom.getInstanceStrong()` draws are nondeterministic choices (`:|`) within the range the draw can give. The bodies that return them make the draws. Proofs about expansion quantify over the recorded draws.
- The `NoSuchAlgorithmException` fallbacks, which return `0`, `""` and `"0.0"`. They are left out because `getInstanceStrong` is taken to succeed.
- Generators.RandomDecimalRangeInclusive: the contract keeps the integer decimal-place checks and the `nextDouble` bound check (on `real`), but a successful draw is only some text in the `Double.toString` alphabet, or the exceptions its truncation can raise. The source draws `nextDouble(end - start + 1) + start` (service line 812), so its value lies in [start, end + 1), not in [start, end]: despite the name, it can exceed `end`. The model states neither that range nor the number of decimal places of the text, because the double arithmetic, the rounding and the `Double.toString` formatting are not modelled.
- Template.DecimalReplacement: inherits the same gap. A `{decimal(x,y,p)}` token (and its variant with minimum and maximum places) is replaced by the decimal generator's outcome, with no stated range for the value and no stated place count.
- `nextDouble` with a NaN or infinite bound. Bounds are `real`, so those cases do not arise in the model.
- Java regular expressions for custom patterns. `String.matches(R, s)` for a custom body is the environment's `custom` predicate. Only `\d+`, `[a-zA-Z0-9_]+`, `[^/]+` and `.+` are defined concretely. `custom` is total, so the PatternSyntaxException that `matches` raises on an invalid custom body (service line 375, controller line 362) is not modelled.
- JavaNumbers.ParseInt: reads ASCII digits only. `Integer.valueOf` also accepts other Unicode decimal digits; the model rejects those with NumberFormat.
- The repository lookup `gatherApiMocksByRegexp`. It is the environment's `lookup` function from verb, path and texts to a list of definitions.
- `HttpStatus.valueOf`. It is the environment's `isHttpStatus` predicate; an unknown code raises IllegalArgument.
- CRUD: `createUpdateMockApiRequest` and the `generateDb*String` stubs that return `null` (service lines 879-983). They are not part of answering a request.
- The Spring mappings, the application class, the JDBC configuration, `HttpStatusCode`, and logging.
- The controller's own `replaceGeneratedValues` (controller line 430 on). Its `processAnyMockRequest` never calls it.
- Null maps, lists, bodies or stored texts. Java `null` is not modelled: every text is a string.
- StringOrder: strings are ordered by `char` code point, which agrees with `String.compareTo` on UTF-16 code units only for characters below U+10000.
- Ranking.Compare: the differences are unbounded integers. The Java `int` subtraction can overflow only for counters near 2^31, and counters are bounded by segment and entry counts.
- Ranking.Sort: the service sorts its `MockApiMatchData` list (service line 84) with `MOCK_API_FILTER_DATA_COMPARITOR`, which is declared over `MockApiFilterData` (util line 9). `MockApiMatchData` is an unrelated class, so that line does not type-check as written. The model reads it as the same comparator applied to `MockApiMatchData`'s like-named counters: `Ranking.Key` takes the fifteen counters from either record type.
- Sorting in place. `Collections.sort` is stable, and so is the insertion sort modelled. On the comparator's total preorder the two give the same order. The handlers sort the records' snapshots as values; the records are not permuted in place.
- Template.RunPass: `replaceFirst` replaces the first occurrence of the token's text in the current payload, which may come from an earlier replacement. This is the source's behaviour and the model keeps it; no lemma says a token is replaced where it was found.

## Findings

| source | as written | input that shows it | evidently intended | confidence | as-written member | corrected member |
|---|---|---|---|---|---|---|
| src/main/java/com/niblet/virtualization/controller/NibletServiceVirtualizationController.java:243 | `split(".*")` takes `.*` as a regular expression. Every piece is then empty or one line terminator long, so `substring(2)` throws or nothing is credited. | stored query text `.*\<id=7\>.*` with request parameter `id=7`: no exact query match is counted | `split("\\.\\*")` as for headers at line 177, crediting one exact query match | not executed | `LegacyController.QueryExactMatchIgnoredAsWritten` | `LegacyController.QueryExactMatchCredited` |

`LegacyController.ProcessAnyMockRequest` runs with the query split as written (`QuerySplit.AsWritten`), so its ranking never sees query counters (`LegacyController.QueryParametersIgnoredAsWritten`). `LegacyController.Select` with `Corrected` is the handler with the intended split; the lemmas about the handler's answer (`AnswersWithFirstBest`, `NotFoundExactly`, `EmptyFilterEscapes`) hold for both.
