# DrugBank scraper core, modelled in Dafny

The system is a Go scraper for the DrugBank catalogue, plus a small Python
pricing script kept in the same repository. This project models its core as
pure functions over immutable data and proves what that core promises.

The scraper's core has five parts:

- **Text helpers.** `normalize`, `ToTitleCase`, `toSentenceCase`,
  `htmlRawToFieldName` and `stringSliceContains`. These live in modules
  `Text` and `Casing`.
- **Fetch layer.** `fetchPage` with `randTime` and `logFetchError`
  (module `Fetch`). It retries up to four times and spots block pages and
  not-found pages that arrive with status 200. It updates the process-wide
  counters. The network is replaced by the sequence of attempt outcomes it
  would produce. The random generator is replaced by its raw draws.
- **Listing.** `getLinksPerPage` (module `Listing`) works on a listing
  table given as rows of cells.
- **Field extraction.** The `dt`/`dd` walk of `scrapePageRoutine`, the
  `fieldHandlers` registry and every `handle*` function, `assignField` and
  `setFieldByName`. These live in modules `Handlers` and `Extraction`.
  - A drug page is replaced by its stub notice and its entries.
  - An entry is the label, the value text, and the list items, table cells
    and summary text that a handler reads.
  - The `DrugInfo` record is a datatype (module `Drug`). A static field table
    (`Field`, `Name`, `KindOf`, `Get`, `SetString`, `SetList`) replaces
    reflection.
  - The follow-up interactions request is a function from the drug's
    identifier to its decoded reply. The anchor regular expression is a
    function from a cell to an optional `(id, name)` pair.
- **Statistics.** `UniqueSet` (module `Unique`), `isValidDrugInfo` and the
  aggregation loop at the end of `main` (module `Stats`). The channel of
  records is replaced by the sequence of records in arrival order.

The pricing script's `calculate_price` and `prices` are in module `Pricing`.

## Behaviour worth knowing

Some of the code's behaviour is easy to misread. The model follows the code
in each case below.

- **Identifiers are not upper-cased.** One might expect the identifier to be
  upper-cased once set. `assignField` instead compares the field *name* with
  the record's current *values* (main.go:661-672). Upper-casing happens only
  when the identifier already reads "ID".
  See `Extraction.IdentifierVerbatim` and `Extraction.IdentifierUpperCased`.
- **Five-token weight texts record nothing.** A weight text such as
  "average 180.16 da monoisotopic 180.0634" splits into five tokens, and the
  handler records weights only for exactly four (main.go:557-577). It leaves
  the weights unchanged and still reports success
  (`Handlers.FiveTokenWeightIgnored`).
- **Completeness is always 100%.** One might expect completeness to count
  the records that set a field. The loop counts every field of every record
  (main.go:1073-1080), so each field's count equals the number of records
  (`Stats.CompletenessAlwaysFull`).
- **A "Link" label would overwrite the link.** The record starts with the
  listing's link, but an entry labelled "Link" is an unhandled `string`
  property and goes to `assignField` like any other (main.go:795-798). The
  link survives only while no label names it (`Extraction.ScrapePage`,
  `Extraction.LinkLabelOverwrites`).
- **The interactions body is parsed as HTML.** The interactions request
  calls `fetchPage` without `getDom == false` (main.go:425), so its JSON body
  also goes through the HTML parser before it is returned.

## Model

| member | source | states |
|---|---|---|
| Text.ToUpper | main.go:665 | upper-cases each character and keeps the length |
| Text.ToLower | main.go:406 | lower-cases each character and keeps the length |
| Text.TrimSpace | main.go:465 | the result is the input with its leading white space dropped, then a prefix of the rest; what follows that prefix is all white space; the result has no white space at either end |
| Text.Normalize | main.go:405-407 | `normalize` yields the lower-cased input from its first non-space character on, cut where only white space is left; so it has no upper-case letter, no white space at either end, and is never longer than the input |
| Text.NormalizeIdempotent | main.go:405-407 | normalising twice equals normalising once |
| Text.NormalizeOfNormal | main.go:405-407 | lower-case text with no outer white space is already normalised |
| Text.Split | main.go:558 | `strings.Split` gives one more token than there are separators, and no token holds the separator |
| Text.JoinSplit | main.go:558 | joining the tokens with the separator restores the input |
| Text.SplitJoin | main.go:558 | splitting separator-free tokens joined by the separator gives the tokens back |
| Text.JoinShape | main.go:558 | a joined string starts with the first part and ends with the last, and every other character is a separator or comes from a part |
| Text.Strip | main.go:350 | removing one character drops every copy of it and keeps the count of every other character |
| Text.RemoveAll | main.go:643-645 | deleting a pattern never lengthens the text and leaves text without the pattern unchanged |
| Text.StringSliceContains | main.go:61-77 | with `checkAll`, true iff every value is in the slice; without it, true iff some value is |
| Casing.Capitalize | main.go:311-346 | the scanner shared by `ToTitleCase` and `toSentenceCase` keeps the length; `CapitalizeAt` fixes each position from the armed flag |
| Casing.CapitalizeShape | main.go:311-346 | the shared scanner changes only lower-case letters, and only to upper case |
| Casing.ToTitleCase | main.go:311-327 | keeps the length and changes only lower-case letters, to upper case |
| Casing.ToSentenceCase | main.go:330-346 | keeps the length and changes only lower-case letters, to upper case |
| Casing.CapitalizeAt | main.go:311-346 | position i is upper-cased iff it holds a letter and the flag is armed there |
| Casing.FirstLetterCapitalized | main.go:311-346 | the first letter of the input is upper-cased |
| Casing.LetterAfterTriggerCapitalized | main.go:316-321 | the first letter after a trigger is upper-cased; triggers are space, hyphen and apostrophe for title case and `.`, `!`, `?` for sentence case |
| Casing.LetterAfterLetterKept | main.go:316-321 | a letter that follows a letter with no trigger between them is left as it is |
| Casing.CapitalizeIdempotent | main.go:311-346 | running the scanner twice gives what running it once gives |
| Casing.TitleCaseIdempotent | main.go:311-327 | `ToTitleCase` is idempotent |
| Casing.SentenceCaseIdempotent | main.go:330-346 | `toSentenceCase` is idempotent |
| Casing.FieldName | main.go:348-362 | the field name holds no space and no hyphen, and differs from the squashed label only when the alias table replaced it by "ID", "Molecule" or "CAS" |
| Casing.SquashWords | main.go:350 | a label of lower-case words separated by single spaces squashes to the words capitalised and run together |
| Casing.WordsFieldName | main.go:348-362 | such a label maps to the alias of its camel-cased words |
| Casing.FieldNameFirstLetterUpper | main.go:348-362 | the first letter of every field name, if there is one, is upper case |
| Casing.FieldNameNeverIsStub | main.go:633-635 | no label can produce the lower-case name `isStub`, so that entry of `assignField` is never reached from the walk |
| Casing.AccessionNumberLabel | main.go:353-354 | "drugbank accession number" maps to "ID" |
| Casing.GenericNameLabel | main.go:355-356 | "generic name" maps to "Molecule" |
| Casing.CasNumberLabel | main.go:357-358 | "cas number" maps to "CAS" |
| Drug.NameInjective | main.go:79-132 | distinct fields of `DrugInfo` have distinct Go names |
| Drug.Lookup | main.go:608 | a found field has the name and is in the list; not found means no listed field has the name |
| Drug.FieldByName | main.go:608-611 | finds the field with exactly that Go name, or proves there is none |
| Drug.FieldByNameOfName | main.go:608 | looking a field up by its own name finds it |
| Drug.Get | main.go:79-132 | a field reads as text iff it is a `string` field, and as a list iff it is a `[]string` field |
| Drug.SetString | main.go:627 | the field holds the new text, every other field keeps its value, and the stub flag is unchanged |
| Drug.SetList | main.go:466 | the list field holds the new items, every other field keeps its value, and the stub flag is unchanged |
| Drug.SetListTwice | main.go:466 | a second store into a list field overwrites the first |
| Fetch.RandTime | main.go:192-194 | `randTime(min, max)` lies in [min, max) |
| Fetch.RandTimeCovers | main.go:192-194 | every duration of [min, max) can be drawn |
| Fetch.Classify | main.go:212-265 | an attempt is accepted iff a body arrived that holds neither signature and, when a document is wanted, parsed; a body holding the block signature is rejected as blocked |
| Fetch.LogFetchError | main.go:272-285 | one more error and one more log line; no other counter changes |
| Fetch.AfterFailure | main.go:213-260 | a failed attempt logs one error and counts one retry and one sleep, and touches nothing else |
| Fetch.FailureLog | main.go:282 | the log of n failed attempts has n lines |
| Fetch.Retry | main.go:211-269 | the loop never makes more than `RetryLimit` attempts |
| Fetch.RetryOutcome | main.go:211-269 | the loop ends at the first accepted attempt and returns its body, or gives up after `RetryLimit` attempts iff none is accepted; every attempt before the end was rejected |
| Fetch.RetrySleeps | main.go:211-265 | the loop sleeps the error delay after each failed attempt and the rate-limit delay after the accepted one |
| Fetch.RetryCounters | main.go:211-269 | the loop counts one sleep per attempt, one retry and one error per failed attempt, and one rate-limit failure when it gives up |
| Fetch.RetryLog | main.go:211-269 | the loop logs one line per failed attempt, naming its failure, in attempt order |
| Fetch.FetchPage | main.go:205-270 | one call makes between 1 and 4 attempts; it gives up iff all 4 are rejected; a returned page was accepted and holds neither the block nor the not-found signature |
| Fetch.FetchPageCounters | main.go:205-285 | one call adds exactly one request, one sleep per attempt, one retry and one error line per failed attempt, and the URL once to the rate-limit failures when it gives up |
| Fetch.FetchPageSleeps | main.go:206-265 | one call sleeps once per attempt: a delay in [8s, 20s) after each failure and one in [0s, 8s) after the success |
| Fetch.BackoffBound | main.go:211-266 | after k failed attempts a clean one ends the call with k+1 attempts and returns its body |
| Fetch.SignaturePagesRetried | main.go:230-241 | a body holding the block or the not-found signature is never a success |
| Fetch.NetworkDown | main.go:211-269 | with no network, the call makes 4 attempts, logs 4 transport failures and records the URL once as a rate-limit failure |
| Listing.LinkFor | main.go:386-396 | a link is named after the first cell's text and points at the site root plus the cell's anchor, or is empty without an anchor |
| Listing.LinksPerPage | main.go:381-403 | there are never more links than rows |
| Listing.LinksAppend | main.go:383 | the links of two stretches of rows are the links of each, in order |
| Listing.LinksSound | main.go:381-403 | every link comes from a row that has cells |
| Listing.LinksComplete | main.go:381-403 | every row that has cells gives a link |
| Listing.HeaderOnly | main.go:385 | rows without cells give no link |
| Listing.LinkShape | main.go:387-390 | every link is empty or absolute on the site |
| Handlers.TargetFor | main.go:782-790 | the walk hands a handler the `string` field of that name, else the `[]string` field, else the whole record, which happens iff no field of that name is a string or list |
| Handlers.RegistryTargets | main.go:581-592 | every registered handler is handed the argument it accepts |
| Handlers.TargetOfField | main.go:746-790 | a field's own name targets that field as its kind says |
| Handlers.NotAFieldName | main.go:587-590 | "Inchi", "InchiKey" and "MechanismOfAction" are no field names, so those handlers get the record |
| Handlers.ListAsArray | main.go:448-469 | appends the trimmed text of every item to the targeted list, keeps the earlier items and every other field, and refuses any other target |
| Handlers.ListAsArrayAppends | main.go:464-467 | two entries append their items in order |
| Handlers.DescriptionText | main.go:471-490 | stores `toSentenceCase` of the text in the targeted string field (same length, only lower-case letters raised), changes nothing else, and refuses any other target |
| Handlers.MolecularWeight | main.go:547-579 | with exactly 4 tokens it appends an "average" weight holding token 1 and a "monoisotopic" weight holding token 3, both in Da, after the earlier ones; with any other count the weights are unchanged and the call still succeeds |
| Handlers.WeightFromWords | main.go:557-573 | for plain words joined by single spaces, four words give weights from the second and fourth word, and any other number gives none |
| Handlers.FiveTokenWeightIgnored | main.go:557-577 | "average 180.16 da monoisotopic 180.0634" has five tokens and records no weight |
| Handlers.InChIHashAndID | main.go:525-545 | "InchiKey" sets the hash and "Inchi" sets the identifier, keeping the other half and every other field; any other name is refused |
| Handlers.InChIEntriesCommute | main.go:537-541 | the hash and identifier entries give the same pair in either order |
| Handlers.MoaRow | main.go:505-517 | the cells are filed as target, action and organism, and the last of any further cells lands under "unknown" |
| Handlers.MechanismOfAction | main.go:492-523 | the rows of the table replace the record's mechanism-of-action list, one map per row |
| Handlers.MechanismOfActionReplaces | main.go:520 | of two tables only the second survives |
| Handlers.Interaction | main.go:884-892 | a row with an anchor gives the triple of the anchor's id, the anchor's name and the second cell; a row without one gives an empty entry |
| Handlers.ParseRows | main.go:880-897 | one entry per row, in order, iff every row can be read; otherwise the mapping panics |
| Handlers.ParseRowsAppend | main.go:881-895 | the mapping of two stretches of rows is the mapping of each |
| Handlers.FetchInteractions | main.go:412-446 | a failed fetch or undecodable body is refused, an unreadable row panics, and otherwise the parsed rows and the three-item page list replace the record's |
| Handlers.HandlerFor | main.go:581-592 | the registry of nine property names and six handlers; `RegistryTargets` shows each registered name is handed the argument its handler accepts |
| Handlers.Call | main.go:412-579 | a handler given the argument it accepts succeeds, except the InChI handler on other names and the interactions handler on a failed fetch; only the interactions handler can panic |
| Handlers.CallKeepsStrings | main.go:412-579 | a handler changes no `string` field except the one it is pointed at |
| Handlers.Apply | main.go:778-793 | only the interactions handler can panic, and every other registered handler, called for its own name, succeeds |
| Handlers.ApplyKeepsStrings | main.go:778-790 | a handler called for a property changes no `string` field with another name |
| Handlers.ApplyListAsArray | main.go:581-584 | "Synonyms", "Categories" and "Groups" append their trimmed items to the list of that name |
| Handlers.ApplyDescription | main.go:585 | "Description" stores the sentence-cased text in the description |
| Handlers.ApplyMolecularWeight | main.go:586 | "Weight" appends the two weights for four tokens and otherwise keeps the record |
| Handlers.ApplyInChI | main.go:587-588 | "InchiKey" sets the hash and "Inchi" the identifier, through the registered handler |
| Handlers.ApplyMechanismOfAction | main.go:590 | "MechanismOfAction" replaces the rows, one map per table row |
| Handlers.ApplyDrugInteractions | main.go:589 | "DrugInteractions" panics on an unreadable decoded row, is refused on a failed or undecodable fetch, and otherwise stores the parsed rows and the page list |
| Handlers.UnhandledLink | main.go:581-592 | no handler is registered for "Link" |
| Handlers.HandlersKeepStub | main.go:412-579 | no handler touches the stub flag |
| Extraction.SetFieldByName | main.go:594-629 | succeeds iff some `string` field has that name; then only that field changes and it holds the value |
| Extraction.Cleaned | main.go:643-645 | the advertising paragraph is removed only from the adverse-effects text; text without it is unchanged |
| Extraction.AssignField | main.go:631-678 | a value containing "Not Available" changes nothing; otherwise only the named `string` field, or the stub flag for `isStub`, can change |
| Extraction.AssignStores | main.go:661-672 | a named `string` field receives the cleaned value, title-cased or upper-cased as the name-against-value comparison dictates |
| Extraction.AssignStoresVerbatim | main.go:668-671 | when the name matches none of the current description, hash or identifier, the value is stored as found |
| Extraction.DescriptionNameTitleCased | main.go:662-663 | a field whose name equals the current description is stored title-cased, ahead of the other comparisons |
| Extraction.HashNameUpperCased | main.go:664-665 | a field whose name equals the current InChI hash, and not the description, is stored upper-cased |
| Extraction.IdentifierVerbatim | main.go:666-667 | the identifier is stored as found unless the record's identifier already reads "ID" |
| Extraction.IdentifierUpperCased | main.go:666-667 | the identifier is upper-cased only when the record's identifier already reads "ID" |
| Extraction.AssignNonStringIgnored | main.go:674-676 | a name that is no `string` field leaves the record unchanged |
| Extraction.RouteOf | main.go:760-801 | an entry is skipped iff its value is a sentinel; a name with a registered handler is dispatched to it and never sent to `assignField` |
| Extraction.IsSentinel | main.go:771 | the three forms of an empty value: "Not Available", "N/A", or text that normalises to "not available"; `RouteOf` skips exactly these |
| Extraction.ParseBool | main.go:650 | the texts `strconv.ParseBool` reads as true; anything else, including its errors, gives false |
| Extraction.Stored | main.go:661-672 | the name-against-values switch keeps the value's length; `AssignStores`, `DescriptionNameTitleCased`, `HashNameUpperCased`, `IdentifierUpperCased` and `AssignStoresVerbatim` state the casing of each branch |
| Extraction.Step | main.go:766-801 | a sentinel entry and an entry with an empty property name leave the record unchanged |
| Extraction.RouteDispatch | main.go:777-778 | a non-sentinel entry whose property has a handler is dispatched to it |
| Extraction.StepDispatch | main.go:778-794 | a dispatched entry takes its handler's effect: an update is kept, an error keeps the record, a panic ends the routine |
| Extraction.StepAppendsItems | main.go:778-794 | a synonyms, categories or groups entry appends its trimmed items to that list and changes nothing else |
| Extraction.StepDescription | main.go:778-794 | the description entry stores its sentence-cased text and changes nothing else |
| Extraction.StepWeight | main.go:778-794 | the weight entry appends average and monoisotopic weights from tokens 1 and 3 when there are four tokens, and changes nothing otherwise |
| Extraction.StepInChI | main.go:778-794 | the "InchiKey" entry sets the hash and the "Inchi" entry the identifier, keeping the other half and every other field |
| Extraction.StepMechanismOfAction | main.go:778-794 | the mechanism-of-action entry replaces the rows by its table's, one map per row, and changes nothing else |
| Extraction.StepInteractions | main.go:778-794 | the interactions entry ends the routine iff a decoded row is unreadable, keeps the record on a failed or undecodable fetch, and otherwise stores the parsed rows and the page list |
| Extraction.StepAssigns | main.go:795-798 | an entry naming an unhandled `string` field stores what `AssignStores` states in that field, or nothing for a "Not Available" value, and no other field changes |
| Extraction.StepUnassignable | main.go:795-798 | an unhandled property that names no `string` field changes nothing |
| Extraction.LinkStoredVerbatim | main.go:661-672 | the link text is stored as found unless the description, hash or identifier reads "Link" |
| Extraction.LinkLabelOverwrites | main.go:795-798 | an entry labelled "Link" overwrites the link the record started with |
| Extraction.StepKeepsStrings | main.go:777-799 | an entry changes no `string` field other than the one its label names |
| Extraction.DispatchKeepsStrings | main.go:778-794 | a dispatched entry changes no `string` field of another name |
| Extraction.AssignRouteKeepsStrings | main.go:795-798 | an entry sent to `assignField` changes no `string` field of another name |
| Extraction.AssignKeepsStrings | main.go:631-678 | `assignField` leaves every `string` field of another name alone |
| Extraction.StepCrashes | main.go:784-790 | an entry ends the routine only through the interactions handler |
| Extraction.StepKeepsStub | main.go:760-801 | no entry changes the stub flag |
| Extraction.Walk | main.go:760-801 | the `Each` loop over the `dt` elements in document order; `WalkAppend`, `WalkSnoc` and the `Walk…` lemmas state its properties |
| Extraction.WalkKeepsStub | main.go:760-801 | the walk keeps the stub flag it started with |
| Extraction.WalkKeepsStrings | main.go:760-801 | a `string` field that no entry's label names keeps its value through the walk |
| Extraction.WalkKeepsLink | main.go:760-801 | the link survives a walk whose labels never name the `Link` field |
| Extraction.WalkSnoc | main.go:760 | one more entry at the end is one more step of the walk |
| Extraction.WalkAppend | main.go:760 | the walk over two stretches of entries is the walk over the first, then the second |
| Extraction.SentinelsIgnored | main.go:771-773 | entries that all hold sentinels leave the record unchanged |
| Extraction.ScrapePage | main.go:725-803 | a record is produced only for a fetched page; it is a stub iff the page's normalised notice is the stub text; it carries the page's link unless an entry's label names the `Link` field |
| Extraction.ScrapePageSnoc | main.go:760-802 | a page with one more entry at the end gives the record of the shorter page with one more walk step |
| Extraction.EmptyPage | main.go:739-757 | a page of sentinel entries gives the empty record with the link and the stub flag |
| Unique.Empty | main.go:807-809 | a new set has no entry |
| Unique.Add | main.go:811-813 | the key maps to the value and every other entry is unchanged |
| Unique.Contains | main.go:815-818 | true iff the key has an entry |
| Unique.Get | main.go:820-823 | the entry's value iff the key has one |
| Unique.Remove | main.go:825-827 | the key has no entry and every other entry is unchanged |
| Unique.GetAfterAdd | main.go:811-823 | a value just added is the one read back |
| Unique.RemoveAfterAdd | main.go:811-827 | removing a fresh key just added restores the set |
| Unique.AddTwice | main.go:811-813 | adding a key twice keeps the second value |
| Unique.AddPresent | main.go:811-813 | re-adding the stored value changes nothing |
| Stats.IsValid | main.go:901-936 | valid iff synonyms, weights, mechanism rows and categories are non-empty and both InChI parts are non-empty |
| Stats.ValidIgnoresStrings | main.go:913-923 | no `string` field affects validity |
| Stats.Bump | main.go:1073-1080 | every field is counted once more |
| Stats.AddLengths | main.go:1081-1084 | each `string` field's length is added to its total; other fields are never entered |
| Stats.See | main.go:1047-1056 | a first sighting records the id as not duplicated, a second marks it and counts one duplicate, later ones change nothing; every other id is untouched |
| Stats.TallyOf | main.go:1037-1089 | the aggregation loop as a fold over the records in arrival order; the `Tally…` lemmas state its totals |
| Stats.TallySnoc | main.go:1037-1089 | one more record is one more loop iteration |
| Stats.TallyDuplicates | main.go:1047-1056 | the duplicate set holds every identifier that occurs, marked iff it occurs at least twice, and the duplicate total counts the marked identifiers |
| Stats.DuplicatesOrderFree | main.go:1047-1056 | the duplicate set and total do not depend on the order the records arrive in |
| Stats.TripleCountsOnce | main.go:1049-1055 | an identifier seen three times counts as one duplicate and one seen once stays unmarked |
| Stats.TallyValidTotal | main.go:1059-1063 | the valid total is the number of valid records |
| Stats.TallyValidIds | main.go:1059-1063 | the valid set holds exactly the identifiers of valid records, all mapped to true |
| Stats.ValidTotalCountsRecords | main.go:1059-1063 | two valid records with one identifier give a total of two and a set of one |
| Stats.TallyFieldCounts | main.go:1073-1080 | each field's count is the number of records |
| Stats.TallyFieldLengths | main.go:1081-1084 | each `string` field's total length is the sum of its lengths over the records |
| Stats.TallyLengthsOnlyStrings | main.go:1081-1084 | only `string` fields have a length recorded |
| Stats.TallyTotals | main.go:1040-1045 | the length total is the number of records and the stub total the number of stubs |
| Stats.Averages | main.go:1092-1097 | each counted field's average is its total length divided by its count, rounding down |
| Stats.Completeness | main.go:1092-1100 | each counted field's completeness is its count as a percentage of the records; with no records the map is empty |
| Stats.Summarize | main.go:1102-1106 | the summary carries the fetch counters over unchanged |
| Stats.CompletenessAlwaysFull | main.go:1073-1100 | every field's completeness is 100 in every non-empty run |
| Stats.AverageStringLength | main.go:1081-1097 | a `string` field's average length is its total length divided by the number of records |
| Stats.AverageOtherField | main.go:1092-1097 | a list or composite field is counted but averages 0 |
| Pricing.DiscountPercent | random.py:9-18 | the discount lies between 0 and 25 percent and is 0 iff the quantity is below 5 or above 50 |
| Pricing.DiscountMonotone | random.py:9-16 | between 5 and 50 a larger quantity never gets a smaller discount |
| Pricing.TierBoundaries | random.py:9-18 | the discount is 0% at 4, 10% at 5 and 15, 15% at 16 and 25, 20% at 26 and 30, 25% at 31 and 50, and 0% at 51; with `DiscountMonotone` this fixes every tier |
| Pricing.CalculatePrice | random.py:8-20 | the price is the quantity times 8.50 below 5 and above 50, times 7.65 from 5 to 15, 7.225 up to 25, 6.80 up to 30 and 6.375 up to 50, that is, quantity × 8.50 × (1 − discount); it lies between 75% and 100% of the undiscounted price |
| Pricing.CrossingATierLowersThePrice | random.py:8-20 | 26 units cost less than 25 and 31 less than 30 |
| Pricing.Prices | random.py:23 | one price per quantity, in order |
| Pricing.PriceList | random.py:2-23 | the list is 8.5, 17, 25.5, 34, 38.25, 76.5, 114.75, 144.5, 180.625, 204, 318.75 in exact arithmetic |

## Left out

- HTTP, body reading and the HTML parser are left out. Each attempt is one of
  four given outcomes. A page is given as its stub notice and `dt`/`dd`
  entries, and a listing as rows of cells.
- The nil-document dereference on a parse error is left out: the code calls
  `doc.Find` before it checks the error (main.go:249-255). The model retries,
  as the check that follows intends.
- JSON decoding and the regular expression engine are left out. Decoded rows
  and an anchor-matching function are parameters.
- Reflection is left out. `ExtractFieldsOfType`, `PrettyPrint` and the
  `reflect` calls of `setFieldByName` and `main` are replaced by a static
  field table. Setting a field through a pointer is the `Target` the walk
  picks.
- Goroutines, channels, `WaitGroup` and `recover` are left out, and so are
  `getPageByNumRoutine` and the fan-out in `main`. The aggregation is a
  sequential fold over the records. Order independence is proved for the
  duplicate bookkeeping. The unsynchronised global counters are a data race
  in the code and are not modelled.
- Real sleeping, the spinner and `stats_duration_slept` are left out. The
  model records the durations slept as a list. `clearTerminal`,
  `getIntFromUserInput`, `saveToFile`, `runtime.Caller` and all log and
  console text are left out. Each error-log entry is modelled as its failure
  kind and the fetched URL; the code's block and not-found lines do not name
  the URL (main.go:232, main.go:237).
- The follow-up interactions request is left out as a fetch. Its counters,
  URL formatting and timestamp are not modelled. The request is a function
  from the identifier to its reply, and a failed fetch or undecodable body is
  one reply.
- Floating point is left out. Parsed weights stay as their tokens. The
  completeness percentage is an exact ratio rather than `%.2f%%` text.
  Prices are exact reals, and quantities are whole numbers.
- Unicode beyond ASCII is left out. Letters, case mapping and white space
  follow ASCII.
- Stats.DrugInfoStats: its maps are keyed by the `Field` enumeration rather
  than by the fields' Go names, and `ValidDrugInfosLengths` stays empty
  because the code never fills it.
- Text.RemoveAll: proved only for length and for text without the pattern.
  Which occurrences it deletes is not stated.
- Extraction.Cleaned: the removal of the advertising paragraph is stated for
  text that does not contain it. Its effect on text that does is not
  stated.
- `isValidDrugInfo`'s count of blank `string` fields is left out because
  nothing reads it.
