# DFW Family Gems — a Dafny model of the app's core

DFW Family Gems is a single-page guide to family outings around Dallas–Fort
Worth. This project models the logic behind it as pure Dafny functions and
proves properties of them:

- the filter that decides which catalog locations are shown (search text,
  category, age group, price, "open now", drive time, map viewport);
- the opening-hours evaluator;
- the filter panel's edits and option lists;
- the multi-stop planner's post-processing: sections, title and body,
  mentioned locations, and the ticket-cost estimate with its label;
- the saved-itinerary store: save, delete, checklist ticks, export file
  name, checklist extraction, and the bold/paragraph formatting of stored
  text;
- the location detail view's ticket line and price badge;
- the week-long photo cache and its prefetch;
- the curated image table;
- the server relay's multi-stop branch: its guard, the location summary,
  the family details and the reply.

Strings are sequences of Unicode scalar values, one per character. Money is held in whole cents.
Storage, the clock, the network and the text generator are parameters or
values handed in and out.

Modules, one per file:

- `Optional`, `Text`, `Collections`: the JavaScript string and array
  operations the code relies on. These are `split`, `join`, `trim`,
  `includes`, `toLowerCase`, `Number`, `parseInt`, `filter`, `Set`
  de-duplication and `sort`.
- `Types`: the catalog location, its opening hours and ticket table, and the
  filter criteria.
- `App`, `OpeningHours`, `FilterPanel`: the location list and its filters.
- `SavedItineraries`, `Checklist`, `Markup`: the saved-itinerary view.
- `MultiStop`, `Money`: the planner's results.
- `LocationModal`, `PlacesCache`, `ImageMapping`, `ItineraryRelay`.

The code was followed where the written description of the app differs from
it:

- A range that closes before it opens ("22:00-2:00") is treated as closing
  the next day. A time after midnight but before the closing time is
  compared with today's opening and so counts as closed (`App.tsx:52-59`).
  Only the evening part of such a range reports open.
- The cost estimate shows "Free!" whenever the sum is not above zero. A
  text Park Entry does not spoil the sum into `NaN`: `cost += park` joins
  it on as a string, and every later `+` concatenates. When the joined text
  reads as a number above zero, `toFixed` is called on a string and the
  view throws (see "## Findings"). The model's `LocationCost` reads every
  price as a number, as the `as number` casts in the code assume.

## Model

| member | source | states |
|---|---|---|
| App.FilteredLocations | App.tsx:80-102 | every location shown passes all seven tests, and no more locations are shown than the catalog holds |
| App.FilteredInCatalogOrder | App.tsx:80-81 | the shown list is the catalog's subsequence of exactly the locations passing every test, in catalog order |
| App.FilterMembership | App.tsx:81-100 | a location is shown iff it is in the catalog and passes the search, category, age, price, open-now, drive-time and viewport tests |
| App.EmptySearchMatchesAll | App.tsx:82 | an empty search text matches every name |
| App.InitialFiltersKeepEverything | App.tsx:13-21 | under the starting criteria every catalog location is shown, in order |
| App.DriveTimeThreshold | App.tsx:88-93 | with a position and a numeric choice, a location passes iff its drive minutes are at most the choice; with no position or "any", every location passes |
| App.ToggleTheme | App.tsx:37-39 | the theme becomes "dark" exactly from "light", and is always one of the two |
| App.ToggleThemeTwice | App.tsx:37-39 | toggling twice restores a valid theme |
| Text.IncludesIff | App.tsx:82 | `includes` holds iff the needle occurs at some index, which is the search test's meaning |
| Text.Trim | components/SavedItinerariesModal.tsx:74 | the trimmed text is empty iff the text is all whitespace, and otherwise neither starts nor ends with whitespace |
| Text.TrimIdempotent | components/SavedItinerariesModal.tsx.ts:69 | trimming twice is trimming once |
| Text.TrimPadded | components/SavedItinerariesModal.tsx:74 | trimming removes exactly the whitespace around a text without its own padding |
| Text.Lower | App.tsx:82 | the lower-cased text has the same length, each character mapped on its own |
| Text.IndexOf | components/SavedItinerariesModal.tsx:88 | the index found is the first occurrence at or after the start |
| Text.SplitOn | App.tsx:49 | the pieces contain no separator and join back to the text; there is one piece iff the separator does not occur, and otherwise the first piece ends at its leftmost occurrence |
| Text.SplitOnLeftmost | App.tsx:49 | every piece but the last ends at the leftmost occurrence of the separator in the text that remains from it on |
| Text.SplitJoinChar | App.tsx:49-51 | splitting at a character the pieces do not contain gives the pieces back |
| Text.NumberOf | App.tsx:50 | `Number` yields a value iff the trimmed text is all digits |
| Text.NumberOfNat | App.tsx:50-51 | `Number` reads back the decimal text of every natural number |
| Text.NumberOfPadTwo | App.tsx:50-51 | a zero-padded minute reads back as its value |
| Text.NatToStringRoundTrip | App.tsx:92 | the digits written for a number have that number as their value |
| Text.NatToStringInjective | components/SavedItinerariesModal.tsx:245 | different numbers are written differently |
| Text.ParseIntOfNatToString | App.tsx:92 | `parseInt` reads back the decimal text of every natural number |
| Text.NumberAboveZeroOfDigits | components/MultiStopPlannerModal.tsx:90 | on a text of digits, the `> 0` test agrees with the value `Number` reads |
| Collections.FilterIsKeptSubsequence | App.tsx:81 | `filter` keeps exactly the elements passing the test, in their original order |
| Collections.FilterMembership | App.tsx:81 | an element survives `filter` iff it was present and passes the test |
| Collections.Dedup | components/FilterPanel.tsx:12-13 | `new Set` keeps the first occurrence of each value: the result is duplicate-free, with the same members, in first-seen order |
| Collections.Sort | components/FilterPanel.tsx:12 | `sort` yields a permutation of its input in character order |
| Collections.Insert | components/FilterPanel.tsx:12 | inserting into a sorted list keeps it sorted and adds exactly that element |
| Collections.LexLeTotal | components/FilterPanel.tsx:12 | character order compares any two strings |
| Collections.LexLeAntisymmetric | components/FilterPanel.tsx:12 | two strings each no greater than the other are equal |
| Collections.LexLeTransitive | components/FilterPanel.tsx:12 | character order is transitive |
| Collections.PermutationKeepsDistinct | components/FilterPanel.tsx:12 | sorting a duplicate-free list keeps it duplicate-free |
| Types.TicketField | types.ts:13-15 | a field is found iff the table has that key, and the value found is stored under it |
| OpeningHours.IsLocationOpen | App.tsx:41-64 | open only with hours, an entry for today that is not "closed" or "varies", a readable range, and a time no earlier than the opening |
| OpeningHours.ParseTime | App.tsx:50-51 | `split(':').map(Number)` of one end of the range; what it reads is stated by ParseTimeText |
| OpeningHours.ParseWindow | App.tsx:49-51 | `split('-')` into the two ends, each read as a time; stated by ParseWindowText and WindowTextHasTimes |
| OpeningHours.ParseTimeText | App.tsx:50-51 | every "H:MM" text is read back as its hour and minute |
| OpeningHours.ParseWindowText | App.tsx:49-51 | every "H:MM-H:MM" text is read back as its two times |
| OpeningHours.WindowTextHasTimes | App.tsx:46 | a time range is never taken for "closed" or "varies" |
| OpeningHours.OpenWithinSameDayRange | App.tsx:52-59 | for a same-day range, open iff the time lies between opening and closing, both included |
| OpeningHours.OpenAcrossMidnight | App.tsx:55-59 | for a range past midnight, open iff the time is at or after the opening, so early-morning times count as closed |
| OpeningHours.ExampleEntries | App.tsx:41-64 | 9:00-17:00 is open at 10:00 and shut at 18:00; 22:00-2:00 is open at 23:00 and shut at 1:00 |
| OpeningHours.AllDaysEntryIgnoresWeekday | App.tsx:45 | a non-empty `all` entry gives the same answer on every weekday |
| OpeningHours.WeekdayEntryDecides | App.tsx:44-45 | without an `all` entry, the answer depends only on today's own entry |
| FilterPanel.HandleCheckboxChange | components/FilterPanel.tsx:19-29 | the value leaves the chosen set iff it was in it; other values, other sets and the other criteria stay; the viewport is cleared |
| FilterPanel.CheckboxTwice | components/FilterPanel.tsx:19-29 | two clicks on the same box restore the criteria, with the viewport left cleared |
| FilterPanel.HandleReset | components/FilterPanel.tsx:31-42 | every criterion returns to its start value and the user's position is kept |
| FilterPanel.ResetShowsEverything | components/FilterPanel.tsx:31-42 | after a reset the whole catalog is shown |
| FilterPanel.SetSearch | components/FilterPanel.tsx:52 | only the search text changes, and the viewport is cleared |
| FilterPanel.SetOpenNow | components/FilterPanel.tsx:125 | only the open-now flag changes, and the viewport is cleared |
| FilterPanel.SetDriveTime | components/FilterPanel.tsx:114 | only the drive time changes, and the viewport is kept |
| FilterPanel.CategoriesCover | components/FilterPanel.tsx:12 | the gathered categories are exactly those of the catalog's locations |
| FilterPanel.AgeGroupsCover | components/FilterPanel.tsx:13 | the gathered age groups are exactly those of the catalog's locations |
| FilterPanel.CategoryOptions | components/FilterPanel.tsx:12 | the category list is duplicate-free and sorted, and holds exactly the catalog's categories |
| FilterPanel.AgeGroupOptions | components/FilterPanel.tsx:13 | the age-group list is duplicate-free and holds exactly the catalog's age groups |
| FilterPanel.DriveTimeOptionsParse | components/FilterPanel.tsx:15 | the choices are "any", then 15, 30 and 60 as read by `parseInt` |
| SavedItineraries.SaveItinerary | components/MultiStopPlannerModal.tsx:21-36 | the stored list grows by one entry at the end, with the given id, title and body and nothing ticked |
| SavedItineraries.DeleteItinerary | components/SavedItinerariesModal.tsx:40-47 | no entry with the id remains; the open itinerary is closed iff it had that id |
| SavedItineraries.DeleteKeepsOthersInOrder | components/SavedItinerariesModal.tsx.ts:35-42 | deletion keeps exactly the entries with other ids, in their order |
| SavedItineraries.DeleteAbsentId | components/SavedItinerariesModal.tsx:41 | deleting an id that is not stored leaves the list as it was |
| SavedItineraries.DeleteUndoesSave | components/SavedItinerariesModal.tsx.ts:36 | saving under a fresh id and then deleting that id gives back the stored list |
| SavedItineraries.ToggleChecklistItem | components/SavedItinerariesModal.tsx:49-67 | with nothing open nothing changes; otherwise the key's tick flips, every other tick and field stays, and every stored entry with that id is replaced by the update |
| SavedItineraries.ToggleTwice | components/SavedItinerariesModal.tsx.ts:44-62 | two ticks of the same item restore every tick, and stored entries with other ids are untouched |
| SavedItineraries.FileNameChar | components/SavedItinerariesModal.tsx:147 | a letter or digit becomes its lower-case form, and every result is a lower-case letter, a digit or '_' |
| SavedItineraries.ExportFileName | components/SavedItinerariesModal.tsx:147 | the name is one character per title character plus ".jpg", with '_' exactly where the title is not an ASCII letter or digit and the lower-case form of each letter or digit kept |
| SavedItineraries.ExportFileNameStemFixed | components/SavedItinerariesModal.tsx:147 | a title already made of lower-case letters, digits and '_' is kept |
| SavedItineraries.ExportFileNameIdempotent | components/SavedItinerariesModal.tsx:147 | sanitising the sanitised stem again changes nothing |
| SavedItineraries.ExportFileNameIgnoresCase | components/SavedItinerariesModal.tsx:147 | letter case in the title does not change the name |
| Checklist.StripBullet | components/SavedItinerariesModal.tsx:76 | a line without a leading '-' or '•' is kept; with one, a strictly shorter suffix not starting with whitespace remains (exactly what is removed: see StripBulletOf) |
| Checklist.StripBulletOf | components/SavedItinerariesModal.tsx:76 | a '-' or '•', any run of whitespace, then text not starting with whitespace: exactly the marker and the whitespace are removed |
| Checklist.StripNumbering | components/SavedItinerariesModal.tsx.ts:71 | a line without a leading "digits." is kept; with one, a strictly shorter suffix not starting with whitespace remains (exactly what is removed: see StripNumberingOf) |
| Checklist.Clean | components/SavedItinerariesModal.tsx:76 | cleaning leaves a suffix of the line, a strictly shorter one when the line has a marker |
| Checklist.ItemOf | components/SavedItinerariesModal.tsx:77 | an item taken from a line is longer than five characters |
| Checklist.ItemOfIff | components/SavedItinerariesModal.tsx.ts:69-73 | a line yields an item iff its trimmed text has a marker and its cleaned text is longer than five characters, and the item is that cleaned text |
| Checklist.ItemIsTailOfLine | components/SavedItinerariesModal.tsx:74-76 | an item is a proper tail of its trimmed line |
| Checklist.PickAll | components/SavedItinerariesModal.tsx:70-83 | the loop collects, in line order, exactly what the reference selection does, each longer than the bound |
| Checklist.ExtractChecklistItems | components/SavedItinerariesModal.tsx:69-84 | the items are the lines' items in order: at most one per line, each longer than five characters |
| Checklist.PickPositions | components/SavedItinerariesModal.tsx.ts:68-75 | the selection is the subsequence of exactly the elements that yield something, in order |
| Checklist.ItemPositions | components/SavedItinerariesModal.tsx.ts:64-79 | item i comes from a line, in increasing line order, and every line yielding an item is used |
| Checklist.BulletItem | components/SavedItinerariesModal.tsx:75-77 | a dash or bullet line yields its text when that text is longer than five characters, and nothing otherwise |
| Checklist.StripNumberingOf | components/SavedItinerariesModal.tsx.ts:71 | "digits." and the following whitespace are exactly what numbering removes |
| Checklist.NumberedItem | components/SavedItinerariesModal.tsx.ts:70-72 | a numbered line yields its text when that text is longer than five characters |
| Checklist.BulletNumberedItem | components/SavedItinerariesModal.tsx:76 | a bullet followed by a number loses both markers |
| Checklist.UnmarkedLine | components/SavedItinerariesModal.tsx:75 | a line without a dash, bullet or leading digit yields nothing |
| Checklist.DashItemExample | components/SavedItinerariesModal.tsx:74-78 | "  - Visit the museum " yields "Visit the museum" |
| Checklist.ShortItemExample | components/SavedItinerariesModal.tsx:77 | "- Zoo" is too short to be an item |
| Checklist.NumberedItemExample | components/SavedItinerariesModal.tsx.ts:70-73 | "1. Lunch at cafe" yields "Lunch at cafe" |
| Checklist.DashAndNumberExample | components/SavedItinerariesModal.tsx.ts:71 | "- 2. Picnic time" yields "Picnic time" |
| Checklist.UnmarkedLineExample | components/SavedItinerariesModal.tsx.ts:70 | "Walk around the lake" yields nothing |
| Checklist.ItemKeyInjective | components/SavedItinerariesModal.tsx:245 | different item positions get different keys |
| Checklist.ToggleItemFlipsOnlyIt | components/SavedItinerariesModal.tsx:244-246 | ticking item i flips its tick and leaves every other item's tick |
| Checklist.SavedStartsUnticked | components/SavedItinerariesModal.tsx.ts:159-160 | a freshly saved itinerary shows every item unticked |
| Markup.ReplaceBold | components/SavedItinerariesModal.tsx:88 | the `/\*\*(.*?)\*\*/g` replacement; its meaning is stated by BoldEnd, BoldSpan, ReplaceBoldNoMarker and ReplaceBoldKeepsLineBreaks |
| Markup.BoldEnd | components/SavedItinerariesModal.tsx:88 | the closing "**" found is the first one after the opening, with no line break in between |
| Markup.ReplaceBoldNoMarker | components/SavedItinerariesModal.tsx.ts:83 | text without "**" is left unchanged |
| Markup.BoldEndAt | components/SavedItinerariesModal.tsx:88 | the span closes at the first "**" when no '*' or line break comes before it |
| Markup.BoldSpan | components/SavedItinerariesModal.tsx.ts:83 | "**inner**" becomes the heading tag around inner, and the rest is processed in turn |
| Markup.ReplaceBoldKeepsLineBreaks | components/MultiStopPlannerModal.tsx:69-71 | the bold replacement neither adds nor removes line breaks when the tag has none |
| Markup.SplitCount | components/SavedItinerariesModal.tsx:89 | splitting at a character gives one more piece than it has occurrences |
| Markup.UnwrapWrap | components/SavedItinerariesModal.tsx:92 | the paragraph wrapper can be taken off again |
| Markup.TrimmedLines | components/SavedItinerariesModal.tsx:89-90 | there is one trimmed line per line, each the trim of its line |
| Markup.FragmentsPerLine | components/SavedItinerariesModal.tsx:89-93 | each fragment comes from a non-blank line, in order, and every non-blank line gives one |
| Markup.FormattingKeepsLineCount | components/SavedItinerariesModal.tsx.ts:82-84 | formatting keeps the number of lines |
| Markup.FormatContent | components/SavedItinerariesModal.tsx:86-94 | `formatContent`: bold replacement with the saved view's heading, then one paragraph per non-blank trimmed line; stated by FragmentsPerLine and FormattingKeepsLineCount |
| Markup.FormattedBody | components/MultiStopPlannerModal.tsx:69-75 | `formattedBody`: the same pipeline with the planner's heading; stated by FragmentsPerLine and FormattingKeepsLineCount |
| Markup.ItineraryContent | components/LocationModal.tsx:29-37 | `ItineraryContent`: the same pipeline with the detail view's heading; stated by FragmentsPerLine and FormattingKeepsLineCount |
| Markup.HeadingTagsSingleLine | components/LocationModal.tsx:29-36 | none of the three heading tags holds a line break, so all three views keep the line count |
| MultiStop.Sections | components/MultiStopPlannerModal.tsx:19 | one section per "###", none containing it; none at all iff the text has no marker |
| MultiStop.SectionsRoundTrip | components/MultiStopPlannerModal.tsx:19 | the preamble and the sections joined with "###" give back the response |
| MultiStop.Title | components/MultiStopPlannerModal.tsx:41-42 | the title is non-empty and on one line; a blank section gets "Suggested Itinerary", any other a prefix of the trimmed section |
| MultiStop.FirstLineFacts | components/MultiStopPlannerModal.tsx:41-42 | the first line, trimmed, is blank iff the section is, and otherwise starts the trimmed section |
| MultiStop.TitleBodyReassemble | components/MultiStopPlannerModal.tsx:41-43 | the first line, a line break and the body give back the trimmed section; a one-line section has an empty body |
| MultiStop.MentionedNames | components/MultiStopPlannerModal.tsx:45-50 | at most one name per catalog location |
| MultiStop.MentionedNamesIff | components/MultiStopPlannerModal.tsx:45-50 | a name is collected iff a catalog location has it and it occurs, case-sensitively, in the section |
| MultiStop.FindByName | components/MultiStopPlannerModal.tsx:54 | a location is found iff one has the name, and it is the first such |
| MultiStop.LocationCost | components/MultiStopPlannerModal.tsx:56-64 | the corrected cost of one location, every price read as a number; stated by CostFormula, TextPricesReadAsNumbers and CostMonotone |
| MultiStop.LocationCostAsWritten | components/MultiStopPlannerModal.tsx:56-64 | the cost as the code computes it, a text Park Entry joined on as a string; stated by CostAsWrittenIff and ParkEntryTextThrows |
| MultiStop.CostFormula | components/MultiStopPlannerModal.tsx:56-64 | with numeric prices the cost is Adult per adult, Child-or-Youth per child, General, Admission and Maze per person, plus Park Entry once |
| MultiStop.TextPricesReadAsNumbers | components/MultiStopPlannerModal.tsx:59-64 | with every text price a positive whole number, the corrected cost is the cost of the table with those numbers in place, in the same closed form |
| MultiStop.CostAsWrittenIff | components/MultiStopPlannerModal.tsx:56-64 | as written, a location's cost is a string iff its Park Entry is a non-empty text; otherwise it is the corrected cost |
| MultiStop.SumAsWrittenIsText | components/MultiStopPlannerModal.tsx:52-66 | the running total becomes a string iff some term is one |
| MultiStop.SumAsWrittenMatches | components/MultiStopPlannerModal.tsx:52-66 | term-by-term agreement with the corrected costs gives agreement of the totals |
| MultiStop.TotalAsWrittenIsText | components/MultiStopPlannerModal.tsx:52-66 | as written, the total is a string iff a mentioned location has a text Park Entry |
| MultiStop.TotalAsWrittenIsCorrected | components/MultiStopPlannerModal.tsx:52-66 | with no text Park Entry among the mentioned locations, the total as written is the corrected total |
| MultiStop.CostLabelAsWritten | components/MultiStopPlannerModal.tsx:90-94 | a number total is labelled as corrected; a string total throws iff it reads as a number above zero, and otherwise shows "Free!" |
| MultiStop.ParkEntryTextThrows | components/MultiStopPlannerModal.tsx:63 | Adult $25 and Park Entry "10" for one adult: the cost is "2510", the total "02510", the view throws; corrected, the label is "~$35.00" |
| MultiStop.CostMonotone | components/MultiStopPlannerModal.tsx:56-64 | a larger party never costs less |
| MultiStop.TotalPrice | components/MultiStopPlannerModal.tsx:52-67 | the loop's total equals the sum of each mentioned name's cost, with `NaN` absorbing |
| MultiStop.SumCostsNaN | components/MultiStopPlannerModal.tsx:52-67 | the corrected total is a number iff every term is, so one `NaN` term spoils it |
| MultiStop.NothingMentionedIsFree | components/MultiStopPlannerModal.tsx:45-66 | when no catalog name occurs in the section, no name is collected and the total is zero |
| MultiStop.CostLabel | components/MultiStopPlannerModal.tsx:90-94 | the label is "Free!" iff the total is not a number above zero |
| MultiStop.MealPreference | components/MultiStopPlannerModal.tsx:131-134 | "none" gives the no-meal sentence; otherwise the meal type and the price range sit at fixed places in the sentence |
| MultiStop.MealPreferenceMentionsBoth | components/MultiStopPlannerModal.tsx:133 | the sentence contains both the meal type and the price range |
| MultiStop.MealPreferenceInjective | components/MultiStopPlannerModal.tsx:131-134 | for one price range, different meal types give different sentences |
| Money.NumberText | components/LocationModal.tsx:87 | `'$' + value` prints the amount as JavaScript writes the number; stated by NumberTextReadsBack |
| Money.Fixed2 | components/MultiStopPlannerModal.tsx:91 | `toFixed(2)` always has a decimal point |
| Money.Fixed2ReadsBack | components/MultiStopPlannerModal.tsx:91 | the text splits at the point into the whole amount and the cents |
| Money.NumberTextReadsBack | components/LocationModal.tsx:87 | `String` of an amount reads back; the point appears iff there are cents, and the fraction has no trailing zero |
| LocationModal.EntryText | components/LocationModal.tsx:87 | a price shows its key in bold, then the value, with '$' before numbers only |
| LocationModal.PricedEntries | components/LocationModal.tsx:85-86 | no entry keyed "note" remains |
| LocationModal.PricedEntriesInOrder | components/LocationModal.tsx:85-86 | the priced entries are exactly the non-note rows, in table order |
| LocationModal.NoteSuffix | components/LocationModal.tsx:89 | the note suffix is present iff the note is truthy |
| LocationModal.TicketSummary | components/LocationModal.tsx:83-91 | there is no ticket line iff the location has no ticket table |
| LocationModal.SinglePriceSummary | components/LocationModal.tsx:85-90 | one price and no note gives just that price's text |
| LocationModal.NoteOnlySummary | components/LocationModal.tsx:85-89 | a table holding only a note gives just the note in parentheses |
| LocationModal.SummaryDependsOnRowsAndNote | components/LocationModal.tsx:83-91 | the line depends only on the non-note rows and the note |
| LocationModal.PriceColorAsWritten | components/LocationModal.tsx:16-19 | a known tier gets its light and dark classes; a name inherited from `Object.prototype` gets that member's printed text twice; any other price gets "undefined undefined" |
| LocationModal.UnknownPriceIsUndefined | components/LocationModal.tsx:16-19 | "$$$$" gets "undefined undefined", not the gray badge |
| LocationModal.PriceColor | components/LocationModal.tsx:19 | a known tier is as written; any other price gets the gray badge |
| LocationModal.PriceColorNeverUndefined | components/LocationModal.tsx:19 | the badge never reads "undefined undefined" |
| LocationModal.FilterablePricesHaveBadges | components/FilterPanel.tsx:14 | a price is offered by the filter iff it has a light and a dark badge, and every offered price gets its own classes, never "undefined undefined" |
| PlacesCache.IsValid | services/googlePlacesService.ts:44-46 | `isCacheValid`: an entry is fresh while less than seven days old; its use is stated by GetCachedPhotos and FetchedIsCached |
| PlacesCache.GetCachedPhotos | services/googlePlacesService.ts:177-186 | photos come back iff the location has an entry younger than seven days, and they are that entry's photos |
| PlacesCache.PhotoUrl | services/googlePlacesService.ts:49-51 | the URL starts with the Places media endpoint, with the photo name right after it |
| PlacesCache.PhotoUrlInjective | services/googlePlacesService.ts:49-51 | different photos get different URLs |
| PlacesCache.PhotoUrlIsNotFallback | services/googlePlacesService.ts:118-120 | a photo URL is never the fallback picture |
| PlacesCache.PhotoUrls | services/googlePlacesService.ts:117-120 | the first four photos at most, in order, each turned into its URL |
| PlacesCache.FetchLocationPhotos | services/googlePlacesService.ts:54-137 | a fresh entry wins; then a missing key, an error, no place or no photos each give three fallbacks and leave the cache; otherwise the URLs are returned and stored with the time |
| PlacesCache.FetchedIsCached | services/googlePlacesService.ts:124-131 | what a fetch stores is served from the cache for the following seven days |
| PlacesCache.FetchKeepsOtherLocations | services/googlePlacesService.ts:124-129 | a fetch leaves every other location's cached photos as they were |
| PlacesCache.MissSucceedsIff | services/googlePlacesService.ts:159-164 | on a cache miss, the prefetch counts a success iff a key is set and the search found a place with photos |
| PlacesCache.PrefetchCountsEach | services/googlePlacesService.ts:153-171 | successes and failures add up to the number of locations fetched |
| PlacesCache.Prefetch | services/googlePlacesService.ts:140-174 | skipped iff the cache has at least as many keys as there are locations; otherwise the loop's counts and cache are those of fetching every location in order |
| PlacesCache.NoKeyFailsAll | services/googlePlacesService.ts:70-73 | with no key and an empty cache, every location fails and nothing is stored |
| ImageMapping.ParksShape | services/imageMapping.ts:10-67 | the parks group lists its seven ids, each with a well-formed set |
| ImageMapping.MuseumsShape | services/imageMapping.ts:68-133 | the museums group lists its eight ids, each with a well-formed set |
| ImageMapping.OutdoorsGardensShape | services/imageMapping.ts:134-247 | the outdoors and gardens group lists its fourteen ids, each with a well-formed set |
| ImageMapping.PlaygroundsIndoorShape | services/imageMapping.ts:248-329 | the playgrounds and indoor group lists its ten ids, each with a well-formed set |
| ImageMapping.WaterparksShape | services/imageMapping.ts:330-363 | the waterparks group lists its four ids, each with a well-formed set |
| ImageMapping.AttractionsShape | services/imageMapping.ts:364-421 | the attractions group lists its seven ids, each with a well-formed set |
| ImageMapping.TableIdInRange | services/imageMapping.ts:9-421 | every id in the table lies between 1 and 50 |
| ImageMapping.TableHasId | services/imageMapping.ts:9-421 | every id from 1 to 50 is in the table |
| ImageMapping.TableKeys | services/imageMapping.ts:9-421 | the table's ids are exactly 1 through 50 |
| ImageMapping.TableWellFormed | services/imageMapping.ts:9-431 | every set, and the default, has a gallery of three that starts with the main photo |
| ImageMapping.GetLocationImages | services/imageMapping.ts:434-435 | a listed id gets its set, and any other id gets the default |
| ImageMapping.ImagesAlwaysWellFormed | services/imageMapping.ts:424-435 | whatever the id, the images are well formed; an id from 1 to 50 gets its table entry and any other id the default |
| ItineraryRelay.LocationLine | netlify/functions/itinerary.ts:7 | the line starts with "- " and the name and an opening parenthesis, and ends with a closing one |
| ItineraryRelay.Listed | netlify/functions/itinerary.ts:6 | the first ten locations at most, in the order given |
| ItineraryRelay.LocationLines | netlify/functions/itinerary.ts:6-7 | one line per listed location, in order |
| ItineraryRelay.SummaryLinesRoundTrip | netlify/functions/itinerary.ts:6-8 | split at line breaks, the summary is the listed lines, at most ten, when no text holds a line break |
| ItineraryRelay.PreferencesLine | netlify/functions/itinerary.ts:30 | the preferences line is present iff preferences are non-empty |
| ItineraryRelay.FamilyDetailsLines | netlify/functions/itinerary.ts:27-30 | the details are the four fixed lines, then the preferences line iff preferences were given |
| ItineraryRelay.Relay | netlify/functions/itinerary.ts:2-53 | the relay answers iff options and a non-empty array of locations are present, and the answer is status 200 with the generated text |

## Left out

- Geography and drive time: the great-circle distance and the 25 mph estimate are not modelled. Drive minutes and the viewport's `contains` are parameters of `App.Env`.
- Dates: the weekday, the local time of day, time zones and daylight saving come in as a `Clock`. The clock read is the same instant for every comparison in one call.
- Number parsing: `Number` is modelled for whitespace-padded decimal digits, with a blank text as 0. Signs, decimals, exponents and hexadecimal read as `NaN`. `parseInt` is modelled for an optional sign and decimal digits.
- Lowercasing only maps ASCII letters. `toLowerCase` on other scripts is not modelled.
- Rendering, React state, Leaflet markers, the star rating and `html2canvas` image export are left out. Only the export file name is modelled.
- Storage: `localStorage` reads and writes, and JSON encoding and decoding, are values handed in and out. A failed read or write is not modelled.
- The network and the text generator are parameters. The place search is reduced to its outcome, and the generator to its text. The other branches of the relay, the fixed prompt wording and the date formatting are not modelled.
- The 200 ms pause between prefetch requests and the console logging are not modelled.
- Prices are whole cents. Floating-point rounding in sums and in `toFixed` is not modelled, and party sizes are natural numbers, not parsed floats.
- MultiStop.CostFormula: stated for ticket tables with only numeric prices. A text price is read through `Number` as whole dollars.
- MultiStop.LocationCost: the corrected cost. It reads a text Park Entry as a number, while the code joins it on as a string; `LocationCostAsWritten` and `CostLabelAsWritten` model that string arithmetic and the crash it leads to.
- MultiStop.CostLabelAsWritten: `Number` of the joined text is modelled by `Text.NumberAboveZero` only for digits with at most one decimal point. Signs, exponents, hexadecimal and "Infinity" forms are not modelled; such a text is taken as not above zero.
- SavedItineraries.ExportFileName, Checklist.ItemOf, Checklist.ExtractChecklistItems, Collections.Sort: JavaScript strings are UTF-16 code units, and the model counts one character per Unicode scalar value. A character outside the Basic Multilingual Plane counts once in the model but twice in the code. So "- 🎡 Zoo" is 6 long in the code (kept by the `> 5` test) but 5 in the model; "Fun 🌞" gives "fun___.jpg" in the code but "fun__.jpg" in the model; and `sort` orders by code units, which differs from character order above U+FFFF.
- LocationModal.PriceColorAsWritten: the printed text of an inherited `Object.prototype` member follows the V8 form "function name() { [native code] }". Other engines may print it differently.
- Ticket tables are ordered lists. JavaScript's ordering of integer-like keys in `Object.entries` is not modelled, and a repeated key is read at its first occurrence.
- The search test is stated through `Text.IncludesIff`. No separate lemma restates it per location.
- ItineraryRelay.Relay: the JSON encoding of the body is not modelled. The reply carries the generated text itself.
- PlacesCache.Prefetch: the per-location `catch` is not modelled, because a fetch never throws. Every failure inside it is already caught and answered with the fallback.

## Findings

| source | as written | input that shows it | evidently intended | confidence | as-written member | corrected member |
|---|---|---|---|---|---|---|
| components/LocationModal.tsx:19 | the class text is a template literal, so it is never empty and the gray alternative after `\|\|` is never used; a price outside the four tiers gets "undefined undefined", and "toString" gets the printed function twice | price "$$$$" | an unknown price gets the gray badge | high (not executed) | LocationModal.UnknownPriceIsUndefined | LocationModal.PriceColorNeverUndefined |
| components/MultiStopPlannerModal.tsx:63 | `cost += park` with a text Park Entry concatenates, so the total becomes a string; `totalPrice > 0` then holds for a digit text and `totalPrice.toFixed(2)` (line 91) throws a TypeError | Adult 25, Park Entry "10", one adult: the total is "02510" | the Park Entry price is added as a number, giving $35.00 | medium (not executed) | MultiStop.ParkEntryTextThrows | MultiStop.TextPricesReadAsNumbers |
