# VibeFlow core, modelled in Dafny

VibeFlow is a single-page React application. The user describes a mood, favourite genres
and something they liked recently. One Gemini call returns a batch of recommended movies,
TV shows, books and games. The page shows them as cards that can be filtered by type, and each
card carries a five-star rating widget whose ratings persist in browser storage. The
repository also holds a watchlist store with add and remove, persisted the same way, and
a watchlist modal and a trailer modal; in the code shown no card calls add, the page
renders neither modal, and only the watchlist modal reaches remove, through the `onRemove`
callback it is given. This project models the logic behind that flow and proves what it
promises:

- `WatchlistStore`: the persisted watchlist (one record per title, in insertion order) as a
  class over one storage slot, with add and remove proved against the pure list functions
  `Added` and `Removed`.
- `RatingStore`: the persisted `title -> number` ratings object as a class over one slot.
  A stored 0 reads back as "no rating".
- `StarRatingInput`: the five-star widget's `rating` and `hoverRating` state, the click
  toggle that clears a re-clicked star, the write-through to the rating store, and which
  stars are drawn lit.
- `App`: the page's request state (`recommendations`, `isLoading`, `error`,
  `activeFilter`), the begin and settle steps of a request, the type filter, and which
  status area renders.
- `FilterTabs`: the tabs offered for a batch ('All' plus each present type, in fixed order)
  and the rule that hides the bar when it would offer at most two tabs.
- `GeminiService`: the prompt built from the non-empty preference fields, and the check
  of the reply's shape that maps every failure to one fixed message.
- `InputForm`: the three text fields, submit, Surprise Me, and the two buttons' `disabled`
  rules.
- `UseTheme`: the initial-theme precedence, the toggle, and the effect that mirrors the
  theme into the root `dark` class and into storage.
- `LoadingSpinner`: the rotation of the six status messages.
- `TrailerModal`: extraction of a YouTube video id and the embeddable player URL.
- `Types`, `Storage`, `Seqs`, `Wrappers`: the shared records, the storage-outcome input,
  `filter`/`indexOf` over sequences, and `Option`/`Result`.

Everything outside the program is an input. The outcome of each storage read and write is
an `Io(readOk, writeOk)` argument. The Gemini call is a function `ai` from the prompt to an
abstract reply. The browser's `URL` parser and the fallback regular expression are
functions `parse` and `regexId`. Mounting a component is its class constructor. An event
handler or an effect is a method on that class.

Some behaviour of the code worth knowing:

- A new request does not reset `activeFilter` (App.tsx:15-33). After a batch of a single
  type, a filter kept from an earlier batch can therefore hide every card while the tab
  bar is hidden. `App.KeptFilterCanHideWholeBatch` exhibits this.
- An empty successful batch shows the initial-state display (App.tsx:72-74).
- The page filters by type only (App.tsx:35-37).
- Surprise Me is an ordinary request with mood `'surprise-me'` and the other fields empty
  (components/InputForm.tsx:22).
- `Recommendation` in types.ts has no trailer URL. The modal takes its URL as a prop.

## Model

| member | source | states |
|---|---|---|
| Storage.Read | utils/watchlistStore.ts:5-16 | a successful read yields the stored collection, a failed read yields the empty one instead of an error |
| WatchlistStore.Added | utils/watchlistStore.ts:29-34 | a record with an absent title is appended at the end with earlier entries unchanged; a present title leaves the list as it was; afterwards the title is present |
| WatchlistStore.Removed | utils/watchlistStore.ts:37-40 | no entry with the title remains, every entry with another title is kept with all its copies, and removing an absent title changes nothing |
| WatchlistStore.AddedKeepsTitlesDistinct | utils/watchlistStore.ts:31-32 | adding keeps stored titles pairwise distinct |
| WatchlistStore.RemovedPreservesOrder | utils/watchlistStore.ts:39 | removal keeps the other entries in their original relative order |
| WatchlistStore.RemovedKeepsTitlesDistinct | utils/watchlistStore.ts:39 | removing keeps stored titles pairwise distinct |
| WatchlistStore.RemoveUndoesAdd | utils/watchlistStore.ts:29-41 | adding a record with a fresh title and then removing that title restores the original list |
| WatchlistStore.Watchlist.GetWatchlist | utils/watchlistStore.ts:5-16 | returns the stored list, or the empty list when the read fails |
| WatchlistStore.Watchlist.SaveWatchlist | utils/watchlistStore.ts:18-27 | overwrites the slot, or leaves it unchanged when the write fails |
| WatchlistStore.Watchlist.AddToWatchlist | utils/watchlistStore.ts:29-35 | the slot becomes `Added` of what was stored; a present title or a failed write leaves it unchanged; a failed read stores just the new record; distinct titles stay distinct |
| WatchlistStore.Watchlist.RemoveFromWatchlist | utils/watchlistStore.ts:37-41 | the slot becomes `Removed` of what was stored, or empty after a failed read, or stays unchanged after a failed write; after any write no entry has the title; distinct titles stay distinct |
| RatingStore.RatingIn | utils/ratingStore.ts:18-20 | a title reads as its rating exactly when it is stored with a non-zero value, so a never-saved title and a stored 0 both read as null |
| RatingStore.WithRating | utils/ratingStore.ts:26-27 | the saved object has the title mapped to the new rating and every other entry as read |
| RatingStore.SavedRatingReadsBack | utils/ratingStore.ts:18-28 | after saving r the title reads back as r when r is non-zero and as null when r is 0 |
| RatingStore.SaveLeavesOtherTitles | utils/ratingStore.ts:26-27 | saving one title's rating leaves every other title's reading unchanged |
| RatingStore.LastSaveWins | utils/ratingStore.ts:27 | of two saves for the same title the second one wins |
| RatingStore.ZeroIsUnrated | utils/ratingStore.ts:19-27 | a title saved as 0 reads the same as a title in an empty store |
| RatingStore.Ratings.GetRatings | utils/ratingStore.ts:5-16 | returns the stored object, or the empty object when the read fails |
| RatingStore.Ratings.GetRatingForTitle | utils/ratingStore.ts:18-20 | returns a rating exactly when the read succeeds and the stored value is non-zero, and then returns that value; after a failed read every lookup is null |
| RatingStore.Ratings.SaveRatingForTitle | utils/ratingStore.ts:22-33 | a successful write stores what was read with the title overwritten; a failed write leaves the slot unchanged |
| StarRatingInput.Toggled | components/StarRatingInput.tsx:20 | clicking the current star gives 0, clicking any other star gives that star, and the result stays in 0..5 |
| StarRatingInput.ClickTwiceClears | components/StarRatingInput.tsx:19-23 | from 0, clicking the same star twice returns to 0 |
| StarRatingInput.Shown | components/StarRatingInput.tsx:43-51 | the value the stars display: the hovered star while one is hovered, otherwise the rating, and within 0..5 when both are |
| StarRatingInput.Lit | components/StarRatingInput.tsx:43-51 | star s is drawn lit iff s is at most the hovered star, or, with nothing hovered, at most the rating |
| StarRatingInput.LitStarsCountShown | components/StarRatingInput.tsx:43-54 | star s is lit iff the hovered star (or the rating when nothing is hovered) is at least s, so exactly that many stars are lit |
| StarRatingInput.StarRating.constructor | components/StarRatingInput.tsx:9-17 | the rating starts as the stored rating for the title when there is one and 0 otherwise; hover starts at 0 |
| StarRatingInput.StarRating.HandleSetRating | components/StarRatingInput.tsx:19-23 | the rating becomes the toggled value, the same value is written to the store under the title and reads back from it, and after a click the rating is in 0..5 |
| StarRatingInput.StarRating.HoverStar | components/StarRatingInput.tsx:34 | entering a star sets the hover value to it and leaves the rating alone |
| StarRatingInput.StarRating.LeaveStar | components/StarRatingInput.tsx:35 | leaving a star clears the hover value and leaves the rating alone |
| FilterTabs.AvailableTypes | components/FilterTabs.tsx:13 | the set of types in the batch: every record's type is in it, every member is some record's type, and it is empty iff the batch is |
| FilterTabs.RelevantFilters | components/FilterTabs.tsx:13-18 | a filter is offered iff it is 'All' or a type present in the batch |
| FilterTabs.RelevantFiltersSpelledOut | components/FilterTabs.tsx:10-18 | the offered tabs are 'All', then Movie, TV Show, Book and Game, each only when present |
| FilterTabs.AllComesFirst | components/FilterTabs.tsx:10-16 | 'All' is always offered, as the first tab |
| FilterTabs.TypeOfferedIffPresent | components/FilterTabs.tsx:13-18 | a type is offered iff some recommendation has that type |
| FilterTabs.OfferedInFixedOrder | components/FilterTabs.tsx:10-18 | the tabs follow the order of `allFilters` and repeat no filter |
| FilterTabs.TabCount | components/FilterTabs.tsx:13-18 | the number of tabs is one more than the number of distinct types present |
| FilterTabs.TabsShown | components/FilterTabs.tsx:20-22 | whether the bar renders: true exactly when the batch spans at least two entertainment types |
| GeminiService.Sentence | services/geminiService.ts:47-49 | a sentence starts with its template's head, ends with its tail, and holds the field's text verbatim in between |
| GeminiService.SentencesOfDifferentFieldsDiffer | services/geminiService.ts:47-49 | sentences of different fields never coincide |
| GeminiService.SentenceDeterminesText | services/geminiService.ts:47-49 | a field's sentence determines the field's text |
| GeminiService.PresentFields | services/geminiService.ts:46-49 | a field contributes a sentence iff its text is non-empty |
| GeminiService.PromptParts | services/geminiService.ts:46-49 | the parts array: entry i is the sentence of the i-th non-empty field in field order, with that field's text |
| GeminiService.Join | services/geminiService.ts:53 | `join`: empty for no parts; otherwise starts with the first part and is as long as all parts plus one separator between each neighbouring pair |
| GeminiService.JoinLayout | services/geminiService.ts:53 | `join` places part i at offset (lengths of parts 0..i-1 plus i separators), puts exactly the separator in each gap between neighbours, and ends with the last part, so parts keep their order |
| GeminiService.PreferenceLine | services/geminiService.ts:53 | the space-joined preference line: empty when no field is filled, otherwise it starts with the sentence of the first non-empty field |
| GeminiService.PreferenceLineLayout | services/geminiService.ts:46-53 | the preference line lays out the prompt parts (one sentence per non-empty field, in mood, genres, likeThis order) with a single ' ' between neighbours and nothing after the last |
| GeminiService.PreferenceLineAllFields | services/geminiService.ts:46-53 | with all three fields filled the line is exactly the mood sentence, ' ', the genres sentence, ' ', the likeThis sentence |
| GeminiService.BuildPromptParts | services/geminiService.ts:46-49 | the conditional pushes build exactly the sentences of the non-empty fields, in field order |
| GeminiService.SentenceIffFieldNonEmpty | services/geminiService.ts:46-49 | a field's sentence is among the prompt parts iff the field is non-empty |
| GeminiService.SentencesInFieldOrder | services/geminiService.ts:46-49 | sentences appear in mood, genres, likeThis order with none repeated |
| GeminiService.JoinContainsPart | services/geminiService.ts:53 | every part occurs whole in the space-joined line |
| GeminiService.PreferenceLineHasEachSentence | services/geminiService.ts:46-53 | the sentence of every non-empty field occurs in the preference line |
| GeminiService.NoPreferencesNoLine | services/geminiService.ts:46-53 | with all three fields empty the preference line is empty |
| GeminiService.SomePreferenceSomeLine | services/geminiService.ts:46-53 | with any field non-empty the preference line is non-empty |
| GeminiService.SurprisePreferenceLine | services/geminiService.ts:47-53 | the surprise request's line is the single mood sentence for 'surprise-me' |
| GeminiService.Prompt | services/geminiService.ts:51-56 | the prompt starts with the fixed head, ends with the fixed tail, and holds the preference line verbatim in between |
| GeminiService.Interpret | services/geminiService.ts:70-82 | an array reply is returned unchanged; a non-array reply or a failed call yields the one fixed error message and no result |
| GeminiService.GetEntertainmentRecommendations | services/geminiService.ts:45-83 | the call succeeds iff the model's reply to this prompt parses as an array, and then returns that array; every failure carries the one fixed message |
| GeminiService.FailuresIndistinguishable | services/geminiService.ts:73-82 | a non-array reply and a failed call are reported identically |
| App.Filtered | App.tsx:35-37 | with 'All' the displayed list is the whole batch; with a type it holds every copy of each of the batch's recommendations of that type, and nothing else |
| App.FilteredKeepsOrder | App.tsx:35-37 | the displayed list is a subsequence of the batch in its original order |
| App.ErrorText | App.tsx:24-29 | an Error's message is shown as is; any other thrown value shows the fixed unknown-error text |
| App.Render | App.tsx:54-74 | the spinner shows iff loading and the error box iff the error is set; when not loading and without error, the grid shows iff the batch is non-empty and the initial display iff it is empty; something always shows |
| App.ExactlyOnePanel | App.tsx:54-74 | in every state a request can leave, exactly one status area renders |
| App.PageShowsOnePanel | App.tsx:54-74 | for a page object that keeps its invariant (loading implies no batch and no error), its current screen shows exactly one status area |
| App.KeptFilterCanHideWholeBatch | App.tsx:15-37 | some non-empty batch hides the tab bar while a kept type filter shows no card |
| App.Page.constructor | App.tsx:12-15 | the page starts with no batch, not loading, no error and filter 'All' |
| App.Page.BeginRequest | App.tsx:18-20 | starting a request sets loading, clears the error and empties the batch, keeping the filter |
| App.Page.SettleRequest | App.tsx:21-32 | settling stores the results or the error text, then clears loading, keeping the filter |
| App.Page.HandleGetRecommendations | App.tsx:17-33 | afterwards loading is off, the filter is unchanged, and either the batch is the service's result with no error or the batch is empty with the fixed failure message |
| App.Page.SetActiveFilter | components/FilterTabs.tsx:29 | clicking a tab sets the active filter to exactly that tab and changes nothing else |
| InputForm.Form.constructor | components/InputForm.tsx:9-11 | the three fields start empty |
| InputForm.Form.SetMood | components/InputForm.tsx:35 | editing the mood changes only the mood |
| InputForm.Form.SetGenres | components/InputForm.tsx:48 | editing the genres changes only the genres |
| InputForm.Form.SetLikeThis | components/InputForm.tsx:61 | editing the liked title changes only that field |
| InputForm.Form.HandleSubmit | components/InputForm.tsx:13-16 | submit forwards exactly the current three field values |
| InputForm.Form.HandleSurpriseMe | components/InputForm.tsx:18-23 | Surprise Me clears all three fields and sends ('surprise-me', '', '') whatever was typed |
| InputForm.Form.SubmitDisabled | components/InputForm.tsx:80 | submit is disabled iff loading or the request would carry an empty preference line, which happens exactly when all three fields are empty |
| InputForm.Form.SurpriseDisabled | components/InputForm.tsx:70 | Surprise Me is disabled exactly while loading, so it is never disabled while submit is enabled; when submit is disabled and Surprise Me is not, the fields are empty; when enabled it sends a non-empty preference line whatever the fields hold |
| UseTheme.InitialTheme | hooks/useTheme.ts:5-18 | a stored 'light' or 'dark' wins, any other stored value falls through to the dark preference and then to light, and without storage the theme is light |
| UseTheme.Toggled | hooks/useTheme.ts:24 | the toggle always changes the theme |
| UseTheme.ToggleTwiceIsIdentity | hooks/useTheme.ts:24 | toggling twice restores the theme |
| UseTheme.SavedThemeIsRestored | hooks/useTheme.ts:7-10 | a saved theme is the next initial theme whatever the system prefers |
| UseTheme.ThemeHost.constructor | hooks/useTheme.ts:21 | the hook starts with the initial theme |
| UseTheme.ThemeHost.ToggleTheme | hooks/useTheme.ts:23-25 | the theme becomes the toggled theme |
| UseTheme.ThemeHost.SyncEffect | hooks/useTheme.ts:27-41 | afterwards the root has the 'dark' class iff the theme is dark, its other classes are untouched, and the stored theme is the current one unless the write failed, in which case storage is unchanged |
| LoadingSpinner.MessagesDistinct | components/LoadingSpinner.tsx:3-10 | there are six messages, all different |
| LoadingSpinner.NextMessage | components/LoadingSpinner.tsx:17-21 | the next message is always one of the six |
| LoadingSpinner.NextInAt | components/LoadingSpinner.tsx:18-20 | in a list without repeats, the entry after the i-th is the (i+1) mod length-th |
| LoadingSpinner.NextOfIndex | components/LoadingSpinner.tsx:18-20 | from the i-th message the next is the (i+1) mod 6-th |
| LoadingSpinner.LastWrapsToFirst | components/LoadingSpinner.tsx:19 | the last message wraps to the first |
| LoadingSpinner.UnknownRestarts | components/LoadingSpinner.tsx:18-20 | a message not in the list is followed by the first |
| LoadingSpinner.RotatedFrom | components/LoadingSpinner.tsx:15-22 | after n ticks from the i-th message the (i+n) mod 6-th shows |
| LoadingSpinner.SixTicksReturn | components/LoadingSpinner.tsx:15-22 | six ticks bring every message back |
| LoadingSpinner.Spinner.constructor | components/LoadingSpinner.tsx:13 | the first message shown is the first in the list |
| LoadingSpinner.Spinner.Tick | components/LoadingSpinner.tsx:16-22 | each tick moves to the next message, which is one of the six |
| TrailerModal.Find | components/TrailerModal.tsx:15-16 | the result is the first position where the pattern occurs, or none when it never occurs |
| TrailerModal.SecondSegment | components/TrailerModal.tsx:17 | `split('/embed/')[1]`: the text after the first '/embed/' up to the next '/embed/' or the end, with no occurrence starting inside it |
| TrailerModal.VideoId | components/TrailerModal.tsx:10-32 | the id is absent exactly when the URL does not parse and the fallback expression finds nothing; an unparseable URL takes the fallback's id |
| TrailerModal.Before | components/TrailerModal.tsx:35 | the result is the longest prefix free of '&': no '&' starts before its end, it contains no '&', and it is followed by '&' or by the end of the id |
| TrailerModal.GetYouTubeEmbedUrl | components/TrailerModal.tsx:8-40 | an empty URL gives null, and any other result is the embed prefix, an id free of '&', and '?autoplay=1' |
| TrailerModal.EmbedFor | components/TrailerModal.tsx:34-39 | null iff the id is empty; otherwise a well-formed embed URL whose id part is the id cut at its first '&' |
| TrailerModal.ShortLinkId | components/TrailerModal.tsx:13-14 | on host youtu.be the id is the path without its leading '/', whatever the query string holds |
| TrailerModal.EmbedPathId | components/TrailerModal.tsx:15-17 | on a youtube.com host with '/embed/' in the path the id is the segment after '/embed/' |
| TrailerModal.WatchParamId | components/TrailerModal.tsx:18-19 | on any other youtube.com path the id is the `v` parameter, or empty when it is absent |
| TrailerModal.OtherHostHasNoEmbed | components/TrailerModal.tsx:13-39 | a parseable URL on any other host gives null |
| TrailerModal.UnparseableNeedsFallback | components/TrailerModal.tsx:22-31 | an unparseable URL gives null unless the fallback expression finds an id, which is then embedded |
| TrailerModal.ShortAndWatchLinksAgree | components/TrailerModal.tsx:13-19 | the youtu.be link and the watch?v= link for one id give the same player URL |
| TrailerModal.TrailerModalView | components/TrailerModal.tsx:43-72 | the modal renders nothing iff there is no embed URL, and otherwise a player whose source is exactly the computed embed URL |

## Left out

- The Gemini SDK, the API-key check, the model configuration, `response.text.trim()` and `JSON.parse` are not modelled. They are a foreign library and the network. The call is the parameter `ai`, and a failed call and a failed parse are both `CallFailed`.
- GeminiService.Interpret: checks only that the reply is an array, as the source does. The elements are not validated. A reply element's `type` is an arbitrary string in the source but one of four values here.
- `localStorage`, `JSON.stringify`/`JSON.parse` and the `typeof window` checks are not modelled. Each read and write outcome is a boolean input instead. A missing key reads as the slot's initial empty value.
- RatingStore.RatingIn: does not model keys inherited from `Object.prototype` or non-numeric stored values. Ratings are integers here.
- The `URL` constructor and the fallback regular expression are not modelled. They are the parameters `parse` and `regexId`.
- App.Page.HandleGetRecommendations: models one request at a time. Overlapping requests, and a stale response that overwrites a newer one, are concurrency and are not modelled.
- React rendering, JSX, hook scheduling and the 2500 ms interval are not modelled. Only the state changes they trigger are.
- StarRatingInput.StarRating.constructor: a card keeps its title for its lifetime. A later change of the `title` prop re-running the load effect is not modelled.
- UseTheme.InitialTheme: does not model `getItem` or `matchMedia` throwing. The stored value and the system preference are inputs.
- The floating-point critic `rating` of a recommendation is display-only and not modelled. The source's `type` field is named `kind`.
- The presentational components (watchlist modal, recommendation card, skeletons, initial-state, error, no-results and search-bar displays) are not part of this model.
