# Inventory search chatbot — a verified model of its search core and chat page

The repository is a small inventory-search chatbot. A Flask back end (`app.py`) answers
`/api/search` over a spreadsheet of articles and `/api/suggestions` with a few labelled
examples. A browser page (`static/script.js`) keeps a chat transcript, a results table, a
suggestion cursor, voice input and output, and two stored preferences.

This project models, in Dafny:

- **the back end's search core** (`search.dfy`, over `catalogue.dfy` and `text.dfy`):
  - the exact search, the stock search and the broad search as loops over the table, each
    proved against a specification function;
  - de-duplication of the similarity hits by Code;
  - the stable descending sorts;
  - the fixed strategy order of the route, including its error responses;
  - `get_suggestions`.
- **the page's pure rules** (`view.dfy`):
  - relevance colours, the stock badge (JavaScript `parseInt(...) || 0`) and the best-match row;
  - the search-type label and icon;
  - the choice of a French voice;
  - the `onresult` accumulation loop and the `onerror` messages;
  - the suggestion prefix stripping;
  - the preference store read back.
- **the page as a state machine** (`page.dfy`): a `ChatPage` class whose fields are the
  script's module-level state, with one method per handler:
  - `sendMessage` over a transcript of user, bot and loading entries;
  - the arrow keys and Tab on the suggestion cursor;
  - the voice and theme toggles;
  - the `speakText` gate;
  - the speech-recognition callbacks.

The similarity scorer of the back end is a parameter: the route receives the hit list it
would return. Network replies, browser events and the stored preferences are parameters or
fields. Strings are sequences of characters. Case folding is ASCII-only.

Some behaviours of the page that the model keeps as the code has them:

- A search reply whose body has no `results` member adds two bot messages: the server's
  message, then the error message. Reading `data.results.length` throws inside the `try`,
  and the `catch` block adds the error message (static/script.js:248-263).
- The page never checks the HTTP status. A non-2xx reply with a JSON body is shown like a
  successful one (static/script.js:237-245).
- Bot messages of 500 UTF-16 code units or more are not spoken, because the test is
  `text.length < 500` (static/script.js:313).
- Tab commits only a non-empty suggestion, because the code tests that the entry is
  truthy (static/script.js:58).

## Model

| member | source | states |
|---|---|---|
| Search.ExactTestIsContainment | app.py:170-182 | the three equality tests on stripped fields are subsumed: a row passes the exact test exactly when one of its lower-cased Code, Reference or Designation contains the query |
| Search.ExactHitsMembers | app.py:158-196 | the exact hits are exactly the table rows with a field containing the query, each with similarity 1.0, never more than the table |
| Search.EnhancedSearchExact | app.py:158-196 | the loop returns the exact hits, in table order, for the lower-cased, stripped query; an empty table gives none |
| Search.StockSimilarityBounds | app.py:225 | a kept row's similarity `min(stock / (target * 1.5), 1)` lies between 2/3 and 1 |
| Search.StockStepFacts | app.py:213-228 | one row raises exactly when the target is 0 and its Stock reads as an integer of at least 0; for a positive target a row is kept exactly when its Stock reads as an integer of at least the target |
| Search.StockScanRaises | app.py:211-230 | the scan raises ZeroDivisionError exactly when the target is 0 and some Stock reads as a non-negative integer |
| Search.StockScanHits | app.py:211-228 | for a positive target the scan keeps exactly the rows whose Stock is an integer of at least the target, in table order; rows with non-integer Stock are skipped |
| Search.StockScanZero | app.py:211-228 | with target 0 the scan either raises or finds nothing |
| Search.StockRowsMembers | app.py:213-216 | the stock rows are exactly the table rows holding at least the target |
| Search.StockTarget | app.py:207-211 | the first digit run of the query parses with `int()` as its decimal value, so the outer `except ValueError` is taken only past the digit limit listed under "Left out" |
| Search.SearchByStock | app.py:199-232 | the loop returns no hits without a digit in the query, otherwise the scan for the first digit run's value, raising where the scan raises |
| Search.StockScanPrefixRaises | app.py:213-228 | once a prefix of the table raises, the whole scan raises |
| Search.BroadTextJoin | app.py:302 | the lower-cased joined text is the three lower-cased fields joined by spaces |
| Search.BroadVersusExact | app.py:298-303 | every exact match is a broad match, and a query without a space matches broadly only when one field contains it |
| Search.BroadAddsOnlyAcrossFields | app.py:298-303 | when the exact search found nothing, the broad search finds something only for a query with a space |
| Search.BroadHitsMembers | app.py:298-314 | the broad hits are exactly the rows whose joined text contains the query, each with similarity 0.1 |
| Search.BroadSearch | app.py:298-314 | the loop returns the broad hits in table order |
| Search.FirstPerCodeCorrect | app.py:284-289 | de-duplication keeps every Code of its input, only hits of its input, and no Code twice |
| Search.FirstPerCodeKeepsFirsts | app.py:281-289 | each kept hit is the first hit of its Code in the input, and a list sorted by similarity stays sorted |
| Search.FirstPerCodeInOrder | app.py:284-289 | the kept hits are exactly the hits at the first-of-Code positions of the input, in increasing position order |
| Search.DistinctCodesCount | app.py:284-289 | a list with distinct Codes has as many Codes as hits, so the message's count is the number of Codes |
| Search.UniqueByCode | app.py:284-289 | the `seen_codes` loop returns the first hit per Code, in order |
| Catalogue.SortDescCorrect | app.py:259 | the sort is non-increasing by key, a permutation of its input, and stable (hits with equal keys keep their order) |
| Catalogue.SortDescPermutes | app.py:281 | the sort loses and adds nothing |
| Catalogue.SortDescSorted | app.py:281 | the sort orders by key, largest first |
| Catalogue.SortDescStable | app.py:259 | hits with equal keys keep their relative order |
| Search.Search | app.py:240-334 | an unreadable request gives the error response with no results; a readable one gives the route of its stripped query |
| Search.SearchAfterStock | app.py:266-326 | once the stock search has not answered, the exact, similarity and broad branches give the route's answer |
| Search.RouteProperties | app.py:243-326 | every response has at most 10 results; it has none exactly for `erreur` or `aucun`; it is `erreur` exactly for the invalid-query and failure messages; the invalid-query message comes exactly for an empty query |
| Search.AfterStockCoherent | app.py:266-326 | the branches after the stock search give coherent responses and never the invalid-query message |
| Search.StockAnswerCoherent | app.py:256-264 | the stock branch and the failure it may raise give coherent responses |
| Search.SimilarAnswerCoherent | app.py:279-295 | the similarity branch gives a coherent response |
| Search.BroadAnswerCoherent | app.py:315-326 | the broad branch and "nothing found" give coherent responses |
| Search.AfterStockKinds | app.py:266-326 | after the stock search, only `exacte`, `similarité`, `large` or `aucun` can come, never the failure |
| Search.RouteFails | app.py:211-230 | the route fails exactly for a non-empty stock query whose first digit run is 0 when some Stock reads as a non-negative integer |
| Search.RouteStock | app.py:256-264 | a `stock` answer is the first 10 of the stock hits sorted most stock first; those hits are exactly the rows with at least the positive target, and the message counts them all |
| Search.StockAnswerRows | app.py:259-261 | the first ten sorted stock hits are table rows holding the target |
| Search.RouteExact | app.py:266-274 | an `exacte` answer comes only when the stock search is silent; it is the first 10 exact hits, each with similarity 1.0, and its message counts them all |
| Search.UniqueSimilarFacts | app.py:279-292 | the sorted, de-duplicated scorer hits are scorer hits, sorted, with distinct Codes, one per Code of the input |
| Search.RouteSimilar | app.py:277-295 | a `similarité` answer comes only after silent stock and exact searches; it is the first 10 of the scorer hits sorted best first and kept once per Code; its message counts the distinct Codes |
| Search.RouteBroad | app.py:296-320 | a `large` answer comes only after silent stock, exact and similarity searches and only for a query with a space; it is the first 5 broad hits in table order, and its message counts them all |
| Search.RouteNothing | app.py:321-326 | an `aucun` answer means every search found nothing, and it carries no results and the not-found message |
| Search.RouteNothingWhenSilent | app.py:321-326 | conversely, when no search finds anything the answer is `aucun` with no results and the not-found message |
| Search.GetSuggestions | app.py:376-397 | min(5, n) "Code: " entries, then min(3, n) "Article: " entries, then min(3, n) "Référence: " entries from the first rows in order; none for an empty table |
| View.RelevanceColor | static/script.js:495-501 | each colour is chosen exactly on its band: at least 80, 60 to 79, 40 to 59, 20 to 39, below 20 |
| View.RelevanceColorByTier | static/script.js:495-501 | the colour is the palette entry of the percent's tier, and the tier never goes down as the percent goes up |
| View.StockTier | static/script.js:373-376 | the badge is high exactly above 20 and low exactly below 5, reading the Stock with `parseInt(...) \|\| 0` |
| View.StockTierOfNumber | static/script.js:373-376 | a plain number's badge follows its value |
| View.StockTierOfLeadingNumber | static/script.js:373-376 | "25" is high and "12abc" is medium, since parseInt stops at the first non-digit |
| View.StockTierOfNonNumbers | static/script.js:373-376 | non-numeric and negative Stock cells are low |
| View.StockTierOfHex | static/script.js:373 | a hexadecimal Stock such as "0x1A" is read in base 16 |
| View.RenderTableFacts | static/script.js:349-403 | a missing or empty list gives one placeholder; otherwise one row per result in order with its badge and colour, and only row 0 can be the best match, exactly when its percent exceeds 70 |
| View.SearchLabelOfRoute | static/script.js:406-434 | `aucun` alone falls to the default "Recherche" / fa-search; every other search type has its own label and icon |
| View.FindFrench | static/script.js:182-184 | `find` returns the first voice whose language starts with "fr" or whose name contains "French", and none only when no voice is French |
| View.PreferredVoice | static/script.js:182-184 | with a French voice the choice is the first French voice in the list; otherwise it is the first voice; no voice only for an empty list |
| View.FinalTextEmpty | static/script.js:118-124 | the final transcript is empty exactly when every final result's transcript is empty |
| View.InterimTextEmpty | static/script.js:118-124 | the interim transcript is empty exactly when every interim result's transcript is empty |
| View.TranscriptsSplit | static/script.js:118-124 | corollary of ResultGoesToOneText for lengths: the two transcripts together are as long as all the results' text |
| View.FinalTextAppend | static/script.js:118-124 | the final transcript of consecutive results is the final transcript of each part, in order |
| View.InterimTextAppend | static/script.js:118-124 | the interim transcript of consecutive results is the interim transcript of each part, in order |
| View.ResultGoesToOneText | static/script.js:119-123 | one more result appends its text to the final transcript when it is final, to the interim one otherwise, and nothing to the other |
| View.AccumulateTranscripts | static/script.js:115-124 | the loop from `resultIndex` builds the concatenated final and interim transcripts |
| View.RecognitionErrorMessage | static/script.js:146-160 | every message starts with the fixed prefix, and "Veuillez réessayer." comes exactly for a code other than the three known ones |
| View.RecognitionErrorsDistinct | static/script.js:148-160 | each known error code has a message of its own |
| View.StripLabel | static/script.js:58-60 | removing the first "Code: ", "Article: " and "Référence: " in that order gives back a label-free cell behind any of the three labels |
| View.StripSuggestionsRoundTrip | static/script.js:488-490 | stripping the suggestions of a table without labels in its cells gives back its first Codes, Designations and References |
| View.VoiceOutputPreference | static/script.js:195 | the voice is on exactly when "voiceOutput" holds "enabled" |
| View.DarkThemePreference | static/script.js:194 | the theme is dark exactly when "theme" holds "dark" |
| View.PreferencesRoundTrip | static/script.js:537-558 | a stored setting reads back as itself, and storing one setting leaves the other unchanged |
| Page.JsRem | static/script.js:482-484 | JavaScript's `%`: the remainder takes the sign of the dividend, is smaller than `n` in size, and differs from the dividend by a multiple of `n` |
| Page.NextIndexInRange | static/script.js:478-485 | from -1 or any position, both arrows land on a suggestion |
| Page.NextIndexSteps | static/script.js:482-484 | Down moves to the next suggestion and wraps to the first; Up moves to the previous one and wraps to the last; from -1, Up lands on n-2 when n ≥ 2 |
| Page.UpUndoesDown | static/script.js:482-484 | on a selected suggestion, Up undoes Down and Down undoes Up |
| Page.RemoveLoading | static/script.js:341-346 | without a loading entry nothing changes; otherwise the first loading entry alone is removed |
| Page.RemoveLoadingAppended | static/script.js:233-248 | removing the loading entry just added gives back the transcript before it |
| Page.BotRepliesFacts | static/script.js:221-265 | a search adds one or two bot messages; it ends with the error message exactly on failure, a null body or a missing `results`; an object body starts with the server's message or the default |
| Page.BotEntriesFacts | static/script.js:291-316 | bot messages add one entry each, in order, and never a loading entry |
| Page.ChatPage.SpeakText | static/script.js:561-593 | nothing without an engine, with the voice off or while speaking; otherwise cancel, then speak with the current voice |
| Page.ChatPage.AddBotMessage | static/script.js:291-316 | one bot entry is appended, and it is spoken only with the voice on and fewer than 500 code units |
| Page.ChatPage.RemoveLoadingMessage | static/script.js:341-346 | the transcript loses its first loading entry |
| Page.ChatPage.DisplayResults | static/script.js:349-403 | the loop builds the rendered table of the results |
| Page.ChatPage.BuildRow | static/script.js:365-400 | one iteration of the forEach gives the row that RenderTable puts at that index |
| Page.ChatPage.UpdateSearchInfo | static/script.js:406-442 | the search line holds the query, the type's label and icon, and the count |
| Page.ChatPage.SendMessage | static/script.js:221-265 | a blank input changes nothing; otherwise the trimmed query goes in once, the input is cleared, the loading entry goes, the reply's bot messages follow and are spoken as gated, and the table and search line follow the reply |
| Page.ChatPage.Submit | static/script.js:226-264 | the steps after the blank check, as for SendMessage |
| Page.ChatPage.Answer | static/script.js:237-263 | once the loading entry is last, the `try` or the `catch` block leaves the replies of BotReplies, the table and the search line |
| Page.ChatPage.Start | static/script.js:227-233 | the user's message and the loading entry are appended and the input is cleared |
| Page.ChatPage.ShowFailure | static/script.js:260-263 | the loading entry goes and the single error message comes |
| Page.ChatPage.ShowReply | static/script.js:248-263 | the loading entry goes, then the server's message, the table, and either the search line or the error message for a missing `results` |
| Page.ChatPage.ShowBody | static/script.js:248-263 | the same steps, message by message |
| Page.ChatPage.ReplaceLoading | static/script.js:248-253 | the trailing loading entry is replaced by one bot message, with its speech |
| Page.ChatPage.ReadFailed | static/script.js:260-263 | the `catch` block after the server's message adds the error message and removes nothing |
| Page.ChatPage.LoadSuggestions | static/script.js:467-475 | a usable reply replaces the list (missing list: empty); a failed one keeps it |
| Page.ChatPage.NavigateSuggestions | static/script.js:478-492 | an empty list changes nothing; otherwise the cursor moves cyclically into range and the input shows the stripped suggestion |
| Page.ChatPage.KeyTab | static/script.js:56-62 | a selected, existing, non-empty suggestion goes into the input stripped and the cursor returns to -1; otherwise nothing changes |
| Page.ChatPage.ShowSuggestions | static/script.js:617-622 | with suggestions, one bot message lists the first five; without, nothing changes |
| Page.ChatPage.ToggleVoiceOutput | static/script.js:537-558 | the flag flips, the store holds the matching value, the theme setting is kept, and the engine either announces the voice or cancels what is playing |
| Page.ChatPage.ToggleTheme | static/script.js:596-614 | the theme flips, the store holds it, the voice setting is kept, and a bot message announces it |
| Page.ChatPage.LoadSavedPreferences | static/script.js:193-218 | a stored dark theme is applied (never removed), and the voice follows "enabled" in the store, defaulting to off |
| Page.ChatPage.OnVoicesChanged | static/script.js:179-188 | the preferred voice is chosen, then the preferences are loaded |
| Page.ChatPage.OnUtteranceStart | static/script.js:579-581 | an utterance that starts sets the speaking flag |
| Page.ChatPage.OnUtteranceEnd | static/script.js:583-590 | an utterance that ends or fails clears the speaking flag |
| Page.ChatPage.OnResult | static/script.js:112-134 | a final transcript wins over an interim one: it fills the input, is echoed and triggers a send; an interim one only fills the input |
| Page.ChatPage.OnRecognitionError | static/script.js:144-168 | the classified message is added and listening stops |
| Page.SpeechGate | static/script.js:313-315 | a bot message is spoken exactly when the engine exists, the voice is on, nothing is playing and it is shorter than 500 code units |
| Text.StripFacts | app.py:163 | strip leaves the slice `s[i..j]` with only spaces outside it and none at either of its ends, and nothing exactly for an all-space text |
| Text.FirstDigitRun | app.py:207-211 | the first maximal run of decimal digits, and none exactly when the text has no digit |
| Text.PyIntOfDigits | app.py:211 | `int()` reads a digit run as its decimal value (within the digit limit listed under "Left out") |
| Text.FirstDigitRunAfter | app.py:207 | characters without digits in front of a text do not change its first digit run |
| Search.QuotedCountReadsBack | app.py:263 | the count a found message quotes is the first digit run of its text and `int()` reads it back as the count |
| Text.JsParseIntDigitsThen | static/script.js:373 | `parseInt` reads the leading digit run and ignores what follows, unless the text starts with "0x" |
| Text.Utf16LengthBounds | static/script.js:313 | a text's UTF-16 length is between its length and twice it, equal to it exactly when no character is outside the Basic Multilingual Plane |

## Left out

- The TF-IDF, cosine and Jaro-Winkler similarity scorer and its float score combination (app.py:72-155): library calls over floats. The route takes the scorer's hit list as a parameter.
- Loading and preprocessing the spreadsheet (app.py:17-66) and the `/api/stats` route (app.py:336-373): pandas I/O, numeric coercion and a float mean. The table is a parameter, with every cell already text.
- Flask routing, JSON encoding, CORS and `app.run`. The route is a function from request and table to results, search type and message. A request whose body is not JSON, or whose `query` is not a string, is one `Unreadable` case.
- The `Similarity` values are Dafny reals. The stock similarity uses exact division, not floating point.
- Search.StockStepFacts: a kept row whose Stock is about 2^1024 or more (309 digits or more) makes the float conversion at app.py:225 raise `OverflowError`; the model keeps the row.
- Search.StockScanRaises: does not cover the `OverflowError` of app.py:225 for a kept Stock of about 2^1024 or more, which neither `except ValueError` (app.py:227, 229) catches.
- Search.StockScanHits: for a positive target, a kept Stock of about 2^1024 or more raises `OverflowError` at app.py:225 in the source; the model lists the row.
- Search.RouteFails: the source also answers `erreur` (app.py:328-334) when a kept Stock is about 2^1024 or more, through that `OverflowError`; the model answers `stock` there.
- Unicode case folding and Unicode digits: `lower()` and `toLowerCase()` are modelled on ASCII letters only. `\d` and `int()` accept ASCII digits only, and `int()`'s underscores are not modelled.
- Text.PyInt: does not model CPython's limit on decimal conversions (4300 digits by default, `sys.set_int_max_str_digits`); past it `int()` raises `ValueError`.
- Search.StockTarget: a query whose first digit run is longer than that limit makes CPython's `int()` raise, so the outer `except` returns no stock hits (app.py:229-230); the model reads the run as its value. A Stock cell that long is skipped by the inner `except` (app.py:227-228); the model reads it too.
- Text.JsParseInt: `parseInt` returns a double, so digit runs past 2^53 lose precision; the model returns the exact integer. The stock tier compares the value with 20 and 5, so its badge is the same either way.
- Python's `list.sort` is a library call. It is modelled by a stable insertion sort on values, not an in-place sort.
- The relevance percent `Math.round(Similarity * 100)` is taken as an integer input.
- DOM construction, HTML templates, `escapeHtml`, timestamps, scrolling and icons. The transcript keeps each entry's kind and text, and the results table keeps each row's cells, badge, colour and best-match flag.
- `fetch`, the timers, the speech engines and the overlap of two searches in flight. A reply is a parameter, the engine's calls are recorded in `synthCalls`, and the 500 ms delayed send after speech input is the `submit` result of `OnResult`.
- `toggleVoiceInput`, `recognition.onstart` and `onend`, the quick-query buttons, `loadStats` and the welcome timer: DOM and engine plumbing with no logic beyond flags.
- Page.ChatPage.NavigateSuggestions: the `suggestionIndex >= 0` test before updating the input always holds after the step, so the model has no branch for it.
- Page.ChatPage.SendMessage: `response.ok` is never checked, so a failing HTTP status with a JSON body counts as a reply.
