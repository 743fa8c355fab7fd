# Golf pick'em site: a Dafny model of its core

The site shows three things: a leaderboard of pool participants, a list of blog-style
updates, and a hash-driven section navigator. This project models the logic behind
them and proves properties of it.

- **Leaderboard** (`leaderboard.dfy`, module `Leaderboard`; class `Board` stands for the
  page's `Leaderboard` object). Each participant's picks are joined with the golfer-id →
  score map. The matched scores are summed, the matched golfer records are kept in pick
  order, and picks with no score are dropped. The entries are then sorted ascending by
  total. The module also covers:
  - mapping the live feed into the internal scores shape, with its defaults and
    last-writer-wins keying; a feed player without a position gets `-`, and one
    without `thru` gets `F`;
  - the choice between the live result and the fallback document;
  - the table's rank classes and signed score texts;
  - the `init` sequence and its error path.
- **Stable sort** (`sorting.dfy`, module `Sorting`). `Array.prototype.sort` with a
  comparator `Key(a) - Key(b)` must be stable under section 23.1.3.30 of ECMA-262 (2023
  edition). `SortBy` is a reference stable insertion sort. The module proves it is
  sorted, a permutation and stable. It also proves that it is the only sequence with
  those three properties, so it gives the result any conforming engine must give.
- **Updates** (`updates.dfy`, module `Updates`; class `Page` stands for the `Updates`
  object). An absent `updates` field defaults to the empty list. An empty list renders a
  placeholder. Otherwise a sorted copy gives one card per post, newest first. Content is
  split on `\n\n` into `<p>` paragraphs.
- **Navigator** (`navigation.dfy`, module `Navigation`, class `App`). The document is
  abstracted to section ids and link hrefs, each with an `active` flag held in an array.
  The class holds `currentSection` and the location hash. Its methods are
  `handleHashChange`, `navigateToSection`, `updateActiveStates`, `showSection` and the
  link click handler. Showing an id that no section carries leaves no section active.
  Navigating assigns `window.location.hash`.
- **Helpers** (`strings.dfy`, `wrappers.dfy`). `indexOf`, `split` with a non-empty
  separator, `join` with any separator, decimal number text, and the `Option`, `Outcome`, `Response` and
  `LoadError` datatypes.

I/O is replaced by parameters:
- each `fetch` is an abstract `Response` (a parsed body, a non-success response, or a
  rejected fetch);
- the clock is a `now` string;
- `escapeHtml` is an uninterpreted parameter `escape: string -> string`.

## Model

| member | source | states |
|---|---|---|
| Leaderboard.Board.constructor | js/leaderboard.js:3-7 | picks and scores start absent, the standings empty |
| Leaderboard.Board.Init | js/leaderboard.js:9-19 | picks, then scores, then standings and table: on success the view is `TableOf` the loaded scores and the new standings; a failed picks or scores load leaves the standings as they were and shows the error message |
| Leaderboard.Board.LoadPicks | js/leaderboard.js:21-25 | a successful response sets `picks` to its body; a failure throws and leaves `picks` unchanged |
| Leaderboard.Board.LoadScores | js/leaderboard.js:27-43 | a live result, when there is one, becomes `scores`; otherwise exactly the fallback body does; a failed fallback throws and leaves `scores` unchanged; the sources are never merged |
| Leaderboard.Board.FetchFromMastersApi | js/leaderboard.js:45-71 | a feed that answered gives its mapped document; any failure gives `null` |
| Leaderboard.Board.TransformMastersApiData | js/leaderboard.js:73-96 | the loop builds exactly the mapped document: one key per player id, each mapped to the record of the last player with that id |
| Leaderboard.PlayerMapKeys | js/leaderboard.js:84-93 | the score map's keys are exactly the players' ids (none when `player` is absent) |
| Leaderboard.PlayerMapLastWins | js/leaderboard.js:85-92 | a later player with the same id overwrites an earlier one |
| Leaderboard.ScoresFromFeed | js/leaderboard.js:77-95 | the mapped document carries the time given and a non-empty status and round, keeps a present non-empty feed status and round, and has an empty score map when `player` is absent |
| Leaderboard.FeedMapping | js/leaderboard.js:77-95 | the mapped document carries the time given; status is the feed's when present and non-empty and `In Progress` otherwise, round likewise with `Round 1`; it has an empty score map when `player` is absent, and keys players last-writer-wins |
| Leaderboard.PlayerRecord | js/leaderboard.js:86-91 | a player's record is `first last`, its score is the strokes or 0, and its thru and position are the feed's values when present and non-empty, and `F` and `-` otherwise |
| Leaderboard.ScoreParticipant | js/leaderboard.js:99-121 | the loop's total is the sum of the resolved picks' scores and its golfer list is the resolved records in pick order; name and picks are the participant's |
| Leaderboard.Board.CalculateLeaderboard | js/leaderboard.js:98-126 | the new standings are the per-participant entries, stably sorted by total |
| Leaderboard.ResolvedAppend | js/leaderboard.js:103-114 | records and totals distribute over concatenated picks, so the records keep pick order |
| Leaderboard.ResolvedMembers | js/leaderboard.js:104-111 | a record is in an entry's golfer list iff some pick names a golfer that has that record |
| Leaderboard.ResolvedLength | js/leaderboard.js:101-111 | the golfer list is no longer than the picks, and as long iff every pick resolves, then in pick-by-pick correspondence |
| Leaderboard.TotalIsSumOfResolved | js/leaderboard.js:100-113 | the total equals the sum of the golfer list's scores; unresolved picks add 0 |
| Leaderboard.UnresolvedIgnored | js/leaderboard.js:104-105 | picks with no score give no records and a total of 0, without any error |
| Leaderboard.Standings | js/leaderboard.js:98-125 | one entry per participant: as many entries as participants, and the same entries as the unsorted per-participant ones |
| Leaderboard.StandingsCorrect | js/leaderboard.js:98-125 | one entry per participant (a permutation of the unsorted entries), each consistent with its own picks, non-decreasing by total, and stable among equal totals |
| Leaderboard.WorkedExample | js/leaderboard.js:98-125 | A (golfers 1, 2) and B (golfer 2) with scores -5 and +3 give A at -2 ranked before B at +3 |
| Sorting.SortBy | js/leaderboard.js:125 | the sorted result has the input's length and holds the same elements, each as often |
| Sorting.SortBySortedPermutation | js/leaderboard.js:125 | the comparator sort returns a sorted permutation of its input |
| Sorting.SortByStable | js/leaderboard.js:125 | elements with equal keys keep their input order |
| Sorting.StableSortUnique | js/leaderboard.js:125 | two sorted sequences with the same elements per key, in the same order, are equal |
| Sorting.SortByIsTheStableSort | js/leaderboard.js:125 | any stable sorted result equals `SortBy`, whatever the engine's algorithm |
| Leaderboard.Signed | js/leaderboard.js:169 | a shown score is non-empty and starts with `+` exactly when positive and with `-` exactly when negative |
| Leaderboard.GolfersText | js/leaderboard.js:157-159 | no golfers give the empty text; otherwise every golfer's `name (score)` appears in order at its offset, each but the last followed by `, `, and the text ends with the last one |
| Leaderboard.SignedText | js/leaderboard.js:158 | a shown score starts with `+` iff positive and with `-` iff negative, and reads back as the score |
| Strings.ParseNumberText | js/leaderboard.js:169 | an integer's decimal text reads back as the integer |
| Leaderboard.RankClass | js/leaderboard.js:154-155 | ranks 1, 2 and 3 get `first`, `second` and `third`; every other rank gets the empty class |
| Leaderboard.TableOf | js/leaderboard.js:128-182 | status fields default to `-`; one row per entry, in order, with rank `index + 1`, its rank class, the entry's participant, golfer list text, golfer count and signed total |
| Leaderboard.Board.RenderTable | js/leaderboard.js:128-182 | the table is `TableOf` the scores and the standings: status fields default to `-`; one row per entry in standings order with rank `index + 1`, its rank class, golfer list, golfer count and signed total |
| Updates.Page.constructor | js/updates.js:3-5 | the list starts empty |
| Updates.Page.Init | js/updates.js:7-15 | a successful load renders: the placeholder iff there are no posts, otherwise one card per post, the card of the i-th post newest first at position i; a failed one shows the error and keeps the list |
| Updates.Page.LoadUpdates | js/updates.js:17-22 | the list becomes the document's `updates`, or the empty list when the field is absent; a failure throws and keeps the list |
| Updates.Page.Render | js/updates.js:24-59 | the placeholder iff the list is empty; otherwise one card per post, from a sorted copy, newest first, each card a post's and each post carded; the stored list is not modified |
| Updates.CardsCoverPosts | js/updates.js:40-55 | cards built one per sorted post are exactly the posts' cards, each post's card present and each card some post's |
| Updates.NewestFirst | js/updates.js:33-35 | the sorted copy is as long as the list |
| Updates.NewestFirstOrder | js/updates.js:33-35 | the sorted copy is a permutation of the list, non-increasing by date, stable among equal dates |
| Updates.FormatContent | js/updates.js:71-77 | the markup is the paragraphs laid end to end: each paragraph at the summed length of those before it, and nothing else |
| Updates.CardFor | js/updates.js:44-52 | a card shows the escaped title, the post's date and the formatted content |
| Updates.FormatContentPieces | js/updates.js:71-77 | one `<p>` paragraph per piece of the split, in order; the pieces rejoin to the content and hold no break; content without a break is exactly one paragraph, and conversely |
| Strings.Split | js/updates.js:74 | a split gives at least one piece |
| Strings.Join | js/leaderboard.js:159 | joining no pieces gives the empty string; otherwise the result starts with the first piece |
| Strings.JoinLayout | js/leaderboard.js:159 | each piece sits at the summed lengths of the pieces and separators before it, the separator follows every piece but the last, and the result ends with the last piece |
| Strings.IndexOf | js/updates.js:74 | the index found is the first occurrence of the separator; none means it does not occur |
| Strings.JoinSplit | js/updates.js:74 | rejoining the split pieces with the separator gives back the string |
| Strings.SplitPiecesFree | js/updates.js:74 | no split piece contains the separator |
| Strings.SplitSingle | js/updates.js:74 | a string splits into just itself iff it does not contain the separator |
| Navigation.App.constructor | js/main.js:3-14 | `currentSection` starts as `leaderboard`, then the initial hash is handled |
| Navigation.SectionFromHash | js/main.js:40-41 | an empty hash, after stripping `#`, selects `leaderboard`; otherwise the stripped hash is selected |
| Navigation.LinkTarget | js/main.js:22 | a link's target is its `href` without the first character |
| Navigation.AssignedHash | js/main.js:30 | the hash read back is empty or starts with `#`: empty for `""` and `#`, `#` followed by the value when it has no leading `#`, and the value itself otherwise |
| Navigation.HashRoundTrip | js/main.js:30 | assigning `id` to the hash and reading the section back gives `id` iff `id` is non-empty and has no leading `#` |
| Navigation.FindSection | js/main.js:65 | the lookup finds the first section with the id, and none exactly when the id is empty or no section has it |
| Navigation.App.UpdateActiveStates | js/main.js:46-56 | afterwards a link is active iff its target equals the id; the shape invariant is kept |
| Navigation.App.ShowSection | js/main.js:58-70 | afterwards no other section is active; an existing id's first section is active and becomes current; an unknown or empty id leaves no section active and `currentSection` unchanged |
| Navigation.App.HandleHashChange | js/main.js:39-44 | links and sections reflect the section the hash selects |
| Navigation.App.NavigateToSection | js/main.js:28-37 | sets the hash, then applies the link and section updates for the id, the same ones a hash change would apply when the id reads back from the hash |
| Navigation.App.ClickLink | js/main.js:16-26 | a click navigates to the link's target, and the clicked link becomes active |

## Left out

- Network I/O, CORS options and the year-parameterised feed URL. Each load is an abstract
  `Response`: a parsed body, a non-success response, or a rejected fetch.
- A feed body whose shape makes the mapping throw, such as a `null` document or a
  non-array `player`. It is caught and reads as `null`, which the model represents by the
  feed's failure outcomes.
- Malformed local documents: a picks document without `participants`
  (js/leaderboard.js:99), a participant without `picks` (js/leaderboard.js:103), a
  scores document without `scores` (js/leaderboard.js:104) or a post without `content`
  (js/updates.js:73) makes the code throw inside `init`'s `try` and show the error box.
  The model's types make these fields present, so its `Init` cannot fail once both
  loads succeed.
- Async scheduling: the awaits, the 5-minute refresh timer whose cycles can overlap, and
  the `hashchange` event that assigning the hash fires again.
- Console logging and the `DOMContentLoaded` bootstrapping.
- Event-listener registration and `preventDefault`. `App.ClickLink` stands for the
  listener's body.
- HTML markup, `innerHTML` and element construction. The containers are abstracted to a
  `View` value and the table to `Row` values.
- `escapeHtml`. It is browser serialisation and is a parameter here.
- Date parsing and locale formatting: `new Date`, `toISOString`, `formatDateTime` and
  `formatDate`. Update dates are already-parsed integers, and the feed's timestamp is
  the `now` parameter.
- Leaderboard.PlayerRecord: JavaScript truthiness is modelled only for strings (absent
  or empty means falsy). `parseInt` is modelled only as an `Option<int>`, where an absent
  or non-numeric `total_strokes` is `None`.
- Scores as JavaScript doubles. They are unbounded integers here, so there is no NaN from
  a record without a score and no rounding.
- Leaderboard.Board.CalculateLeaderboard: JavaScript's inherited object properties are
  not modelled. A golfer id such as `constructor` would find a prototype member; the
  model's map lookup does not.
- Leaderboard.Board.CalculateLeaderboard: the sort rearranges the array in place. The
  model assigns the sorted sequence instead. The engine's algorithm is not part of the
  source, and `Sorting.SortByIsTheStableSort` shows the result is the same.
- Navigation: only `.section` elements are modelled as `getElementById` targets.
  Elements of other kinds that carry the id are not.
- Navigation: the browser's percent-encoding of characters assigned to the hash is not
  modelled.
