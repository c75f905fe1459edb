# Travel-Desk core, modelled in Dafny

Travel-Desk is a travel-assistant web app. Most of it is React UI. Its logic
falls into two parts. The first is a chat endpoint that either asks an
external generative-language service for a reply or falls back to a keyword
rule chain. The second is five widgets whose event handlers are pure "old
list to new list" transitions once React's state wrapper is peeled off:

- a packing list;
- a trip planner;
- a budget tracker;
- a destination explorer;
- a language cheat sheet.

This project models both parts as immutable datatypes and pure functions,
and proves what the code promises about them. Each module follows one
source file:

| module | file | contents |
|---|---|---|
| `Seqs` | — | `Option`, order-preserving subsequences, a generic `Filter` and its laws |
| `Text` | — | JavaScript's `trim`, ASCII `toLowerCase`, `includes`, the case-insensitive search test, the category slug |
| `Calendar` | — | proleptic Gregorian dates, the next-day step, day numbers, the ISO `YYYY-MM-DD` form with its parse/format round trip |
| `Chat` | `app/api/chat/route.ts` | the last-user lookup, the keyword chain and its two overrides, turn formatting, answer extraction, the live-or-fallback decision, the HTTP result |
| `Packing` | `components/packing/packing-list.tsx` | item and category handlers, the tab filter, progress, the category-grouped listing |
| `Planner` | `components/planner/trip-planner.tsx` | day-plan generation with sample seeding, activity handlers, the selected-day fallback, the time sort, duration and countdown, saving trip details |
| `Budget` | `components/budget/budget-tracker.tsx` | the guarded add, delete, the tab filter, totals, category totals, percentages |
| `Destinations` | `components/destinations/destination-explorer.tsx` | the four-way filter, check boxes and chips, Clear Filters |
| `Phrasebook` | `components/language/language-cheat-sheet.tsx` | placeholder generation for non-French languages, the search and category tests |

Parameters stand in for everything outside the program:

- the external service: a function from request to outcome;
- the API key: an `Option<string>`;
- the system prompt;
- fresh ids, in place of `Date.now()`;
- "today", for the countdown;
- the French phrase table.

Amounts are exact `real`s. The progress percentage is computed on exact
rationals.

## Model

| member | source | states |
|---|---|---|
| Chat.LastUserText | app/api/chat/route.ts:127 | the lookup text is the content of the most recent "user" message, and "" when there is none |
| Chat.LastUserOfPrefix | app/api/chat/route.ts:127 | a trailing non-user message does not change which message is the last user one |
| Chat.Keywords | app/api/chat/route.ts:134-158 | each keyword topic has a non-empty list of non-empty keywords; only the default has none |
| Chat.MentionsIff | app/api/chat/route.ts:134-158 | each topic's test holds exactly when the text contains one of that branch's keywords (flight/fly, hotel/stay/room, package/all inclusive, manali, goa, book/reserve, payment/pay/completed, hindi/हिंदी) |
| Chat.TopicOf | app/api/chat/route.ts:130-158 | the chosen topic is mentioned, every earlier topic is not, and the default is chosen exactly when no topic is mentioned |
| Chat.PriorityRank | app/api/chat/route.ts:134-158 | the rank is the topic's position in the priority order, and the rule table lists each topic with its keywords in that order |
| Chat.TopicOfIsFirstMatch | app/api/chat/route.ts:134-158 | the `if`/`else if` chain equals the first matching rule of an independent rule-table reading |
| Chat.ReplyText | app/api/chat/route.ts:4-20 | none of the eleven canned replies is empty |
| Chat.ApplyOverrides | app/api/chat/route.ts:161-170 | name+email+phone gives the payment prompt, even over "like to book this"; otherwise "like to book this" gives the details prompt; otherwise the keyword reply stands |
| Chat.ReplyForText | app/api/chat/route.ts:132-170 | on the lower-cased text: all three contact words give the payment prompt; else "like to book this" gives the details prompt; else the reply is the first rule of the priority table with a keyword in the text |
| Chat.FallbackReply | app/api/chat/route.ts:127-170 | a history without a user message gets the default reply |
| Chat.EmptyTextGetsDefault | app/api/chat/route.ts:127-132 | the empty lookup text mentions no keyword, triggers no override and gets the default reply |
| Chat.FallbackText | app/api/chat/route.ts:4-20 | the fallback reply text is never empty |
| Chat.FlightWinsOverOtherKeywords | app/api/chat/route.ts:134-158 | a text mentioning flight or fly gets the flight reply whatever other keywords it contains, unless "like to book this" or all three contact words appear |
| Chat.BookThisOverridesKeywords | app/api/chat/route.ts:161-164 | "like to book this" replaces any keyword reply with the details prompt unless all three contact words appear |
| Chat.ExampleFlightToGoa | app/api/chat/route.ts:134-147 | "I want to book a flight to Goa" gets the flight reply, not the Goa or booking one |
| Chat.ExampleBookThisOption | app/api/chat/route.ts:161-164 | "I'd like to book this option" gets the details prompt |
| Chat.ExampleContactDetails | app/api/chat/route.ts:167-170 | "Name, email and phone" gets the payment prompt |
| Chat.DropSystem | app/api/chat/route.ts:63 | the kept messages are an order-preserving subsequence; each non-system message is kept as many times as it occurs, and no system message is kept |
| Chat.ToTurn | app/api/chat/route.ts:66-69 | the content is carried over unchanged, and the turn is a model turn exactly when the role is "assistant" |
| Chat.FormatTurns | app/api/chat/route.ts:63-83 | an empty kept list stays empty; otherwise the acknowledgement model turn is at index 0, the system-prompt user turn at index 1, then the kept messages as turns in order |
| Chat.BuildRequest | app/api/chat/route.ts:86-101 | temperature is 0.7, the output limit is 800 tokens, and the turn list is empty or holds at least three turns |
| Chat.ExtractText | app/api/chat/route.ts:110-113 | the text is the first candidate's first part when it exists and is non-empty, otherwise "" |
| Chat.LiveReply | app/api/chat/route.ts:86-120 | the live attempt succeeds exactly on a 2xx answer with a readable body, and then yields the extracted text |
| Chat.Decide | app/api/chat/route.ts:25-175 | without a non-empty key the answer is the canned fallback; with one it is the live text when the call succeeds and the fallback when it does not |
| Chat.FailedCallEqualsNoKey | app/api/chat/route.ts:103-120 | a failed live call decides exactly as having no key |
| Chat.EmptyAnswerIsNotFallback | app/api/chat/route.ts:110-116 | a 2xx answer without text is a live success with empty text, not the fallback |
| Chat.AnswerText | app/api/chat/route.ts:116 | the text sent back is the live text or the canned reply's text, and a canned text is never empty |
| Chat.Respond | app/api/chat/route.ts:175 | the reply is an "assistant" message carrying the decided text, which is non-empty without a key |
| Chat.HandlePost | app/api/chat/route.ts:22-180 | an unreadable message list gives a 500 error with the "Failed to process request: " prefix; any other request gives the assistant reply |
| Packing.AddItem | components/packing/packing-list.tsx:72-82 | a name that trims to nothing changes nothing; otherwise exactly one unpacked item with the trimmed name and the chosen category is appended, and the old items are kept |
| Packing.TogglePacked | components/packing/packing-list.tsx:86-88 | the length is kept; items with the id flip `packed`, every other field and item stays |
| Packing.ToggleTwice | components/packing/packing-list.tsx:86-88 | toggling the same id twice restores the list |
| Packing.DeleteItem | components/packing/packing-list.tsx:91-93 | the result is an order-preserving subsequence with no item of that id; every other item keeps all its occurrences |
| Packing.DeleteUndoesAdd | components/packing/packing-list.tsx:72-93 | deleting an item just added under a fresh id restores the list |
| Packing.AddCategory | components/packing/packing-list.tsx:96-107 | a blank name changes nothing; otherwise one category is appended with the slug of the untrimmed name as id and the trimmed name |
| Packing.UpdateCategory | components/packing/packing-list.tsx:110-121 | without an edited category or with a blank name nothing changes; otherwise categories with the edited id get the untrimmed new name and emoji, and all ids are kept |
| Packing.Rename | components/packing/packing-list.tsx:112-115 | ids are kept; categories with the target id take the new name and emoji, the others are unchanged |
| Packing.DeleteCategory | components/packing/packing-list.tsx:124-127 | both lists are order-preserving subsequences; no category has the id and no item is filed under it; every other category and item keeps all its occurrences |
| Packing.TabFilter | components/packing/packing-list.tsx:130-137 | "all" is every item; "packed"/"unpacked" hold the packed/unpacked items; any other tab holds that category's items; each selected item keeps all its occurrences, in order |
| Packing.ShadowedCategoryTab | components/packing/packing-list.tsx:130-137 | a category whose id is "packed" cannot list its own unpacked items on its tab |
| Packing.PackedCount | components/packing/packing-list.tsx:140 | the count equals the length of the packed tab and the number of list positions holding a packed item |
| Packing.PackedAndUnpackedCover | components/packing/packing-list.tsx:130-140 | the packed and unpacked tabs together hold as many items as the list |
| Packing.Progress | components/packing/packing-list.tsx:141 | 0 for an empty list or nothing packed, 100 when all are packed, always in 0..100, and otherwise the nearest integer to the packed percentage |
| Packing.RoundedPercent | components/packing/packing-list.tsx:141 | the rounding lies in 0..100 and is within half a percent of the exact ratio |
| Packing.RoundingBounds | components/packing/packing-list.tsx:141 | the integer formula for rounding half up meets the nearest-percent bounds |
| Packing.Listed | components/packing/packing-list.tsx:303-305 | the grouped listing shows only items of the tab whose category exists |
| Packing.ListedComplete | components/packing/packing-list.tsx:303-305 | every item the tab selects whose category exists is shown |
| Packing.WellFiledAllShown | components/packing/packing-list.tsx:303-305 | when every item's category exists, the "all" tab shows every item |
| Packing.InitialWellFiled | components/packing/packing-list.tsx:37-59 | every initial item is filed under an initial category |
| Packing.InitialProgress | components/packing/packing-list.tsx:48-59 | the initial list starts at 0 packed and 0% progress |
| Packing.NothingPackedNoProgress | components/packing/packing-list.tsx:140-141 | a list with nothing packed has count 0 and progress 0 |
| Packing.ToggleKeepsFiled | components/packing/packing-list.tsx:86-88 | toggling keeps every item filed under an existing category |
| Packing.DeleteItemKeepsFiled | components/packing/packing-list.tsx:91-93 | deleting keeps every item filed |
| Packing.AddCategoryKeepsFiled | components/packing/packing-list.tsx:96-107 | adding a category keeps every item filed |
| Packing.UpdateCategoryKeepsFiled | components/packing/packing-list.tsx:110-121 | renaming keeps every item filed, since ids are unchanged |
| Packing.DeleteCategoryKeepsFiled | components/packing/packing-list.tsx:124-127 | the cascade keeps every remaining item filed and removes exactly the items the category's own tab listed |
| Packing.AddToMissingCategoryIsHidden | components/packing/packing-list.tsx:72-82 | an item added under a deleted category is shown on no tab's grouped listing |
| Packing.AddFiledItem | components/packing/packing-list.tsx:72-82 | the corrected add: nothing changes under a missing category; the existing items stay as they were, at the front, and any added item is filed under an existing category |
| Packing.AddFiledKeepsFiled | components/packing/packing-list.tsx:72-82 | the corrected add keeps every item filed, so the new item is shown |
| Text.Trim | components/packing/packing-list.tsx:72-75 | the result is a slice of the input with no white space at either end, and everything cut off is white space |
| Text.TrimIdempotent | components/packing/packing-list.tsx:100 | trimming twice is trimming once |
| Text.Lower | components/packing/packing-list.tsx:99 | the length is kept and each character is lower-cased on its own, ASCII letters only |
| Text.LowerIdempotent | components/packing/packing-list.tsx:99 | lower-casing twice is lower-casing once |
| Text.Slug | components/packing/packing-list.tsx:99 | the slug is the lower-cased name with white-space runs replaced; it holds no white space and no upper-case ASCII letter, and is no longer than the name |
| Text.ReplaceSpaceRunsPrefix | components/packing/packing-list.tsx:99 | a stretch without white space is copied unchanged to the front of the result |
| Text.ReplaceSpaceRunsRun | components/packing/packing-list.tsx:99 | a maximal run of white space of any length becomes exactly one hyphen |
| Text.SlugOfTwoWords | components/packing/packing-list.tsx:99 | two words separated by white space give the two words lower-cased and joined by one hyphen |
| Text.SlugIdempotent | components/packing/packing-list.tsx:99 | a slug is its own slug, so a category named by its id keeps that id |
| Text.MatchesQueryCaseless | components/destinations/destination-explorer.tsx:213-216 | the empty query matches; lower-casing either side changes nothing; a plain substring match is also a case-insensitive one |
| Calendar.NextDay | components/planner/trip-planner.tsx:66 | the next day of a valid date is valid |
| Calendar.NextDayNumber | components/planner/trip-planner.tsx:66 | the next day has the next day number |
| Calendar.ParseFormat | components/planner/trip-planner.tsx:62 | parsing the ISO form of a date gives the date back |
| Calendar.FormatParse | components/planner/trip-planner.tsx:62 | formatting a parsed ISO string gives the string back |
| Calendar.FormatInjective | components/planner/trip-planner.tsx:62 | distinct dates have distinct ISO ids |
| Planner.Duration | components/planner/trip-planner.tsx:146-154 | end minus start plus one, unclamped: the number of day plans when the end is not before the start, zero or negative when it is |
| Planner.BackwardTripShowsNegativeLength | components/planner/trip-planner.tsx:281-286 | a start picked after the end shows a negative length (the 20th to the 15th of June is -4 days) while no day plan is made |
| Planner.DaysFrom | components/planner/trip-planner.tsx:58-67 | the loop yields one empty plan per day from the current date to the end, each identified by its ISO date |
| Planner.GenerateDayPlans | components/planner/trip-planner.tsx:56-67 | one empty plan per day from start to end, in consecutive order, with ISO ids |
| Planner.DayIdsDistinct | components/planner/trip-planner.tsx:62 | generated plans carry pairwise distinct ids |
| Planner.FirstPlanIsStart | components/planner/trip-planner.tsx:119 | the first plan's id is the start date's ISO form, the initially selected id |
| Planner.SeedAsWritten | components/planner/trip-planner.tsx:70-109 | seeding succeeds exactly when there are at least two plans, and then fills the first two |
| Planner.GenerateSampleAsWritten | components/planner/trip-planner.tsx:56-112 | the generator as written returns exactly when the trip lasts two days or more |
| Planner.OneDayTripThrows | components/planner/trip-planner.tsx:70-94 | a trip ending on its start day makes the generator throw |
| Planner.SeedSamples | components/planner/trip-planner.tsx:70-109 | ids and dates are kept; plan 0 gets the first day's samples and plan 1 the second day's when they exist; later plans are unchanged |
| Planner.GenerateSampleDayPlans | components/planner/trip-planner.tsx:56-112 | the corrected generator always covers the trip day by day and agrees with the code whenever the code returns |
| Planner.AddActivity | components/planner/trip-planner.tsx:173-193 | an empty description changes nothing; otherwise the activity with the fresh id is appended to the selected day only; ids, dates and the day count are kept |
| Planner.UpdateActivity | components/planner/trip-planner.tsx:196-213 | without an edited activity or with an empty description nothing changes; otherwise only the selected day's activities with that id are replaced |
| Planner.UpdateTwice | components/planner/trip-planner.tsx:196-213 | saving the same edit twice equals saving it once |
| Planner.DeleteActivity | components/planner/trip-planner.tsx:216-224 | the selected day loses exactly the activities with that id, in order, and every other activity keeps all its occurrences; other days are unchanged |
| Planner.DeleteUndoesAdd | components/planner/trip-planner.tsx:173-224 | deleting an activity just added under a fresh id restores the plans |
| Planner.ActivityEditsKeepCoverage | components/planner/trip-planner.tsx:173-224 | adding, updating and deleting activities keep the plans covering the trip |
| Planner.SelectedDayPlan | components/planner/trip-planner.tsx:227-231 | the first plan with the selected id, or an empty plan for that id when none has it |
| Planner.GoesBeforeOrder | components/planner/trip-planner.tsx:234-238 | the show order is transitive and irreflexive |
| Planner.Insert | components/planner/trip-planner.tsx:234-238 | inserting adds exactly the one activity |
| Planner.InsertInOrder | components/planner/trip-planner.tsx:234-238 | inserting into an ordered list keeps it ordered |
| Planner.SortByTime | components/planner/trip-planner.tsx:234-238 | the result is a permutation of the activities in show order |
| Planner.ShowOrderMeaning | components/planner/trip-planner.tsx:234-238 | in show order timed activities precede untimed ones and timed ones appear by non-decreasing time |
| Planner.UntimedKeepOrder | components/planner/trip-planner.tsx:234-238 | untimed activities keep the order they were added in |
| Planner.Classify | components/planner/trip-planner.tsx:347-371 | d > 0 is "days until d"; d = 0 is "today"; -n < d < 0 is "day 1-d of n" with that day in 2..n; otherwise "completed \|d+n-1\| days ago" |
| Planner.CountdownOn | components/planner/trip-planner.tsx:347-371 | in calendar terms: days left before the start, "today" on the start day, today's position out of the shown length during the trip, days since the end after it; also for a trip whose end is before its start |
| Planner.OnTripNamesTodaysPlan | components/planner/trip-planner.tsx:357-362 | during the trip the day the countdown names is the plan dated today |
| Planner.SaveAsWritten | components/planner/trip-planner.tsx:159-170 | when the dates equal the initial trip's, nothing changes; otherwise the save fails exactly when the trip has fewer than two days, and on success the plans become the seeded samples for the trip's days, discarding the user's activities, and the first day is selected |
| Planner.ReturnToInitialDatesKeepsStalePlans | components/planner/trip-planner.tsx:159-170 | moving the dates, saving, moving them back and saving again leaves plans that do not cover the trip |
| Planner.InitialTripLastsSixDays | components/planner/trip-planner.tsx:49-53 | the initial trip is valid and lasts six days |
| Planner.SaveTrip | components/planner/trip-planner.tsx:159-170 | the corrected save leaves plans that cover the trip; it keeps them unchanged when they already did, and otherwise replaces them with the seeded samples and selects the first day |
| Planner.SaveSelectsFirstDay | components/planner/trip-planner.tsx:159-170 | after a regenerating save the selected plan is the first day's |
| Budget.AddExpense | components/budget/budget-tracker.tsx:113-129 | a positive amount with a description appends exactly one expense with the fresh id and keeps the rest; anything else changes nothing |
| Budget.DeleteExpense | components/budget/budget-tracker.tsx:132-134 | the result is an order-preserving subsequence without the id; every other expense keeps all its occurrences |
| Budget.DeleteUndoesAdd | components/budget/budget-tracker.tsx:113-134 | deleting an expense just added under a fresh id restores the list |
| Budget.PositiveAmountsInvariant | components/budget/budget-tracker.tsx:57-134 | the initial amounts are positive, and add and delete keep every amount positive |
| Budget.TabFilter | components/budget/budget-tracker.tsx:137 | "all" is every expense; another tab holds the expenses whose category key is the tab, each with all its occurrences, in order |
| Budget.CategoryTab | components/budget/budget-tracker.tsx:137 | a category's tab lists exactly that category's expenses |
| Budget.CategoryTotalsSumToTotal | components/budget/budget-tracker.tsx:140-149 | the six category totals add up to the total |
| Budget.TotalAfterAdd | components/budget/budget-tracker.tsx:113-140 | an accepted add raises the total by its amount |
| Budget.TotalAppend | components/budget/budget-tracker.tsx:140 | the total of a concatenation is the sum of the totals |
| Budget.CategoryTotalIsTabTotal | components/budget/budget-tracker.tsx:137-149 | a category's total is the total of what its tab lists |
| Budget.CategoryTotalBounds | components/budget/budget-tracker.tsx:143-149 | with positive amounts each category total lies between 0 and the total |
| Budget.Percentage | components/budget/budget-tracker.tsx:295-296 | 0 while the total is not positive; otherwise the category's exact share of 100; in 0..100 for positive amounts |
| Budget.PercentagesSumTo100 | components/budget/budget-tracker.tsx:295-296 | with a positive total the six percentages add up to 100 |
| Budget.InitialTotal | components/budget/budget-tracker.tsx:57-98 | the initial expenses total 285 |
| Destinations.Filtered | components/destinations/destination-explorer.tsx:211-231 | the result is an order-preserving subsequence holding the destinations that pass all four tests, each with all its occurrences |
| Destinations.ShownMeetEveryFilter | components/destinations/destination-explorer.tsx:213-230 | each shown destination matches the query in name or country, lies in a selected region, and shares a selected climate and activity, for each filter that is set |
| Destinations.NoFiltersShowAll | components/destinations/destination-explorer.tsx:213-230 | no query and no selection show every destination |
| Destinations.SetChecked | components/destinations/destination-explorer.tsx:260-264 | checking appends the option at the end; unchecking removes every copy of it and keeps the rest in order; no other option's membership changes |
| Destinations.Check | components/destinations/destination-explorer.tsx:260-264 | a box, or a chip's remove button (lines 514, 526, 539), changes only its own selection and never the query |
| Destinations.ToggleKeepsNoRepeats | components/destinations/destination-explorer.tsx:260-264 | toggling a box to the opposite of what it shows keeps selections free of repeats and leaves it showing the new state |
| Destinations.CheckThenUncheck | components/destinations/destination-explorer.tsx:260-264 | checking an unchecked box and unchecking it restores the filters |
| Destinations.SameSelectionsSameResult | components/destinations/destination-explorer.tsx:211-231 | filters selecting the same options show the same destinations |
| Destinations.CheckingAnotherWidens | components/destinations/destination-explorer.tsx:219-228 | checking one more option of a filter that has a selection never hides a shown destination |
| Destinations.CheckingFirstNarrows | components/destinations/destination-explorer.tsx:219-228 | checking the first option of a filter never shows a destination that was hidden |
| Destinations.ClearFilters | components/destinations/destination-explorer.tsx:494-498 | the query is kept and all three selections are emptied |
| Destinations.ClearFiltersKeepsSearch | components/destinations/destination-explorer.tsx:494-498 | after clearing, a destination is shown exactly when it matches the search, and nothing shown before is hidden |
| Phrasebook.ReadTranslation | components/language/language-cheat-sheet.tsx:366 | a generated translation reads back as its English phrase |
| Phrasebook.TranslationFromReading | components/language/language-cheat-sheet.tsx:366 | whatever reads back as a phrase is that phrase's generated translation |
| Phrasebook.GeneratePhrases | components/language/language-cheat-sheet.tsx:359-369 | French returns the table unchanged; otherwise length, order, English text and category are kept, the translation reads back as the English and the pronunciation is the language's placeholder |
| Phrasebook.EnglishHitIsTranslationHit | components/language/language-cheat-sheet.tsx:384-387 | a query found in the English text is found in its generated translation too |
| Phrasebook.NoSearchShowsAll | components/language/language-cheat-sheet.tsx:384-389 | the empty query passes every phrase, and the "all" tab passes every phrase |
| Phrasebook.GeneratedTabsMatchFrench | components/language/language-cheat-sheet.tsx:364-368 | every category tab lists as many phrases in any language as in French |
| Phrasebook.GeneratedSearchFindsEnglish | components/language/language-cheat-sheet.tsx:384-387 | for a generated language, a query matching a phrase's English text also matches it via the translation |

## Left out

- The call to the external service, the environment lookup of the key, logging and the random 300–800 ms delay. The service is a parameter that maps the request to an outcome. The key is an optional string.
- The system prompt embeds the current date via `toLocaleDateString`. It is a parameter.
- `toLowerCase` is ASCII only. Other characters, including the Devanagari keyword, are left unchanged.
- JavaScript white space for `trim` and `\s` is the full ECMAScript set, listed character by character.
- Malformed JSON fields other than a missing `messages` array are not modelled. A missing array gives the 500 error on both paths. The error message text is a parameter.
- The request is passed around as a value, so the code's copy-before-`reverse` has no counterpart: nothing is mutated.
- `Date.now()` ids are parameters. The code does not guarantee they are unique; lemmas that need a fresh id require it.
- JavaScript `Date` is modelled as a calendar date. Millisecond arithmetic, `setHours`, `Math.ceil` and time zones are left out. `toISOString` (UTC) and `format` (local time) are both the ISO form of the same calendar day, which holds only in a UTC time zone.
- Years after 9999 are left out; ISO ids have four-digit years.
- `localeCompare` on time strings is code-point order, which agrees for `HH:MM` values. The code's comparator is not consistent for two untimed activities. The model is a stable insertion sort that keeps their input order.
- Amounts are exact reals: `parseFloat`, `toFixed` and floating-point rounding are left out, and the currency converter widget is left out. Totals add amounts in any currency as euros, as the code does.
- Budget.Total: the code adds from the left and the model adds from the right. With exact amounts the two agree; floating-point reordering is not modelled.
- Packing.Progress: `Math.round` of the floating-point ratio is modelled as rounding half up of the exact ratio. Ties that floating point would break differently are not modelled.
- The twelve-destination table and the French phrase table are data. The destinations are any sequence; the French table is a parameter.
- The cheat sheet's source ends before the search and category tests are combined. They are modelled as two separate filters.
- Phrasebook.NoSearchShowsAll: states the search test and the category test separately, not their conjunction, because the cheat sheet's source ends at line 389, before the filter callback combines them.
- JSX rendering, dialogs, styling, the navigation bar and page wrappers are left out. Of the rendering, only the packing list's category-grouped listing is modelled, because it decides which items can be seen.
- React state batching is left out; each handler is one pure transition.

## Findings

| source | as written | input that shows it | evidently intended | confidence | as-written member | corrected member |
|---|---|---|---|---|---|---|
| components/planner/trip-planner.tsx:70, 94 | the sample seeding writes `dayPlans[0]` and `dayPlans[1]` unconditionally | saving a trip whose end date equals its start date (the end-date picker allows it) gives one plan, and `dayPlans[1].activities` throws a TypeError | seed only the plans that exist | not executed | Planner.OneDayTripThrows | Planner.GenerateSampleDayPlans |
| components/planner/trip-planner.tsx:159-170 | saving regenerates the plans only when the dates differ from the initial trip's dates | move the dates to 2025-07-01..2025-07-03, save, move them back to 2025-06-15..2025-06-20, save: the plans stay on July's days | regenerate when the plans do not cover the dates being saved | not executed | Planner.ReturnToInitialDatesKeepsStalePlans | Planner.SaveTrip |
| components/packing/packing-list.tsx:65, 72-82, 124-127, 303-305 | adding an item keeps the form's selected category even after that category has been deleted | delete the Essentials category (the form's initial choice), then add "passport": the item is stored but shown on no tab, so it can be neither packed nor deleted | add only under an existing category | not executed | Packing.AddToMissingCategoryIsHidden | Packing.AddFiledKeepsFiled |
