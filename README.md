# Food fight: fight lifecycle and vote tally in Dafny

The food-fight site keeps one JSON document, `{ active?, history? }`. `active` is
the running fight. `history` lists the fights it replaced, oldest first. A fight has
an `id`, a `createdAt` timestamp, two `foods` labels and a `votes` object that maps
each voter id to the label that voter chose. Three Node scripts work on this document:

- `new-fight.mjs` checks that exactly two labels were given. It archives the active
  fight if that fight has an id, then installs a fresh fight with no votes.
- `vote.mjs` checks its two arguments, then the active fight, then the choice. It then
  writes `votes[voterId] = choice`, so the last write wins.
- `render.mjs` builds the page. It counts the votes for each label, decides between no
  line, a tie and a winner, escapes text for HTML, and lists the history newest first.

This project models those rules and proves properties about them:

- `outcomes.dfy` (module `Outcomes`): `Option` and `Result`.
- `store.dfy` (module `Store`): the document as a value (`Fight`, `Document`), and the
  class `Data`. `Data` is the loaded document object that the two writing scripts
  change in place.
- `tally.dfy` (module `Tally`), `escape.dfy` (module `Escape`) and `render.dfy`
  (module `Render`): the pure parts of render.mjs, as functions and lemmas.
- `vote.dfy` (module `Vote`) and `new_fight.dfy` (module `NewFight`): one script each.
  `Apply` gives the script's effect on a document value, or its error exit.
  `RecordVote` and `StartFight` are the scripts as imperative methods on a `Data`
  object. Each method's postcondition ties its new state and its result to `Apply`.
  Lemmas prove the script's properties about `Apply`.
- `scenarios.dfy` (module `Scenarios`): whole runs on concrete documents.

Absent JSON fields are modelled like this:

- An absent `votes` object or `history` array is `None`. The scripts tell absent
  apart from empty here: `votes` is filled in by a vote, and `history` is created
  only when a fight is archived.
- An absent `id` or `createdAt` is `""`. Both are falsy, and the scripts only test
  these fields for truthiness.
- An argument missing from the command line is `""`, for the same reason.

## Behaviour as written

The model follows the scripts. In these places the scripts accept more than a
caller might expect:

- `new-fight.mjs` checks only that there are two labels. Empty labels and two equal
  labels are accepted.
- With two equal labels, `tally` counts every vote for both sides, so
  `aCount + bCount` can exceed `total`. `Tally.EqualLabelsCountTwice` shows such an
  input. `Tally.TallyBound` states the bound for two different labels.
- An active fight is archived only when its `id` is truthy. An active fight without
  an id is overwritten and lost.
- `vote.mjs` checks its arguments before it looks for an active fight. A missing
  voter or choice is therefore reported as a usage error even when no fight is running.

## Model

| member | source | states |
|---|---|---|
| `Tally.Count` | scripts/render.mjs:18-19 | Filtering the value list for a label and taking the length gives that label's multiplicity in the multiset of values. A missing (`undefined`) label counts 0. |
| `Tally.TallyCountsVoters` | scripts/render.mjs:15-21 | `aCount` is the number of voters whose entry equals `foods[0]`, and `bCount` the same for `foods[1]`; a missing label counts 0. `total` is the number of entries, and a fight without a `votes` object has total 0. |
| `Tally.ValuesOfMultiplicity` | scripts/render.mjs:17 | Each value occurs in `Object.values(votes)` once per voter who chose it, whatever the enumeration order. |
| `Tally.TallyBound` | scripts/render.mjs:16-20 | For two different labels, `aCount + bCount <= total`. Equality holds exactly when every value is one of the two labels. |
| `Tally.EqualLabelsCountTwice` | scripts/render.mjs:16-20 | With labels `["x","x"]` and one vote `"x"`, both counts are 1 and the total is 1, so the bound fails and this fight shows the tie line. |
| `Tally.EqualLabelsAlwaysTie` | scripts/render.mjs:16-25 | For every value list, two equal non-empty labels get equal counts, so the comparison is always a tie and such a fight never has a winner. |
| `Tally.TallyValuesPermutation` | scripts/render.mjs:17-20 | Two value lists with the same multiset give the same tally, so their order is irrelevant. |
| `Tally.TallyIgnoresKeyOrder` | scripts/render.mjs:17-20 | Counting the values in any duplicate-free listing of the `votes` keys gives the same tally. |
| `Tally.TallyIgnoresVoterNames` | scripts/render.mjs:17-20 | Two fights with the same labels, the same number of entries and the same number of voters per value have the same tally, whoever the voters are. |
| `Tally.TallyTotalsOfValidFight` | scripts/render.mjs:17-20 | With two different labels and every entry one of them, `aCount + bCount == total == number of voters`. |
| `Tally.Compare` | scripts/render.mjs:23-27 | The result is "no line" exactly when `a` or `b` is missing or empty. It is a tie exactly when both labels are present and the counts are equal, 0 to 0 included. Otherwise the winner is the label with the strictly greater count. |
| `Tally.WinnerLine` | scripts/render.mjs:23-27 | The line is empty exactly when `a` or `b` is missing or empty. |
| `Tally.EqualCountsTie` | scripts/render.mjs:25 | Equal counts with both labels present always give the tie line. There is no tie-breaker. |
| `Tally.DifferentCountsWinner` | scripts/render.mjs:26 | Different counts give `<label> wins.` for the label with the strictly greater count. |
| `Tally.CompareSymmetric` | scripts/render.mjs:23-27 | Swapping the two sides, labels and counts together, does not change the comparison. |
| `Escape.ReplaceAll` | scripts/render.mjs:8-12 | A string without the pattern character is returned unchanged. When the replacement lacks the pattern character, so does the result. |
| `Escape.EscapeHtml` | scripts/render.mjs:6-13 | A string that contains none of `& < > " '` is returned unchanged. |
| `Escape.EscapeHtmlIsPerChar` | scripts/render.mjs:6-13 | The chain of five `replaceAll` calls equals escaping each character on its own: no replacement rewrites text that an earlier one inserted. |
| `Escape.EscapeHtmlSafe` | scripts/render.mjs:6-13 | The output holds no `<`, `>`, `"` or `'`, and every `&` in it begins one of the five entities. |
| `Escape.UnescapeEscapeHtml` | scripts/render.mjs:6-13 | Decoding the five entities in the output gives back the input, so escaping loses nothing. |
| `Render.Reverse` | scripts/render.mjs:57-58 | The reversed copy has the same length, and its element `i` is element `n-1-i` of the input. |
| `Render.ReverseReverse` | scripts/render.mjs:57-58 | Reversing twice gives back the stored order. |
| `Render.ActiveCard` | scripts/render.mjs:55 | A card for the active fight, titled "Active • ", appears exactly when `active.id` is truthy. Otherwise the "No fight running" paragraph appears. |
| `Render.HistoryCards` | scripts/render.mjs:53-59 | There is one "Previous • " card per history entry (an absent `history` counts as empty). Card `i` shows entry `n-1-i`, so the newest comes first. |
| `Render.NewestFirst` | scripts/render.mjs:56-59 | The first history card is the fight archived last, and the last card is the fight archived first. |
| `Render.Shown` | scripts/render.mjs:37 | A missing or empty label is shown as "?". A present label is shown as itself. |
| `Render.CardTextOf` | scripts/render.mjs:30-45 | A card shows a winner line exactly when both labels are present. Its labels are the fight's first and second labels (or "?"), escaped: they hold no markup characters and decode back to the label. Its two counts are the numbers of voters for each label, and its total is the number of voters. |
| `Vote.Distinct` | scripts/vote.mjs:19 | The allowed list holds exactly the fight's labels, each once. |
| `Vote.Apply` | scripts/vote.mjs:7-26 | A missing or empty voter id or choice is a usage error. Otherwise, no active fight with an id is `NoActiveFight`. Otherwise, a choice outside `foods` is an invalid vote that reports the choice and the allowed labels. The vote succeeds exactly in the remaining case. On success, `votes[voterId] == choice`, every other entry is unchanged, the key set grows by at most that voter, the `votes` object exists, and `history`, `id`, `createdAt` and `foods` are unchanged. |
| `Vote.RecordVote` | scripts/vote.mjs:7-26 | The in-place script returns the error of `Apply` and leaves the document untouched, or leaves the document that `Apply` produces. |
| `Vote.VoteIdempotent` | scripts/vote.mjs:26 | Casting the same vote twice yields the same document as casting it once. |
| `Vote.RevoteReplaces` | scripts/vote.mjs:26 | A re-vote keeps the number of entries. A first vote adds exactly one. The tally's total equals the number of entries afterwards. |
| `Vote.LastWriteWins` | scripts/vote.mjs:26 | Voting `c1` then `c2` gives the same document as voting `c2` alone, and the voter's entry is `c2`. |
| `Vote.VoteKeepsChoicesValid` | scripts/vote.mjs:19-26 | If every recorded choice is one of the fight's labels before a vote, that still holds after it. |
| `Vote.VotedTallyTotals` | scripts/vote.mjs:19-26 | After a vote on a fight with two different labels and only valid entries, `aCount + bCount == total`. |
| `NewFight.Apply` | scripts/new-fight.mjs:8-28 | Anything other than exactly two labels is a usage error. On success, the active fight has the given labels in order, empty votes and the supplied id and timestamp. The old history is a prefix of the new one, which is at most one longer. A running fight with an id is appended at the end, votes intact. Otherwise `history` is unchanged, even when absent. |
| `NewFight.StartFight` | scripts/new-fight.mjs:8-28 | The in-place script returns the error of `Apply` and leaves the document untouched, or leaves the document that `Apply` produces. |
| `NewFight.StartAllHistory` | scripts/new-fight.mjs:17-28 | Starting k fights (two labels each, non-empty ids) from an empty document leaves k-1 history entries. They are the first k-1 fights, oldest first, and the last fight started is active. |
| `NewFight.ArchivedFightShownFirst` | scripts/new-fight.mjs:17-20 | The fight a start archives becomes the first history card on the page. |
| `NewFight.StartVoteStart` | scripts/new-fight.mjs:17-28 | Start A, vote, then start B: history holds A with the vote, and B is active. |
| `Scenarios.PizzaWins` | scripts/vote.mjs:25-26 | One fight with votes pizza, taco, pizza tallies 2 to 1 out of 3, and pizza wins. |
| `Scenarios.FreshFightTies` | scripts/render.mjs:25 | A new fight tallies 0 to 0 and shows the tie line. |
| `Scenarios.VoteWithoutFight` | scripts/vote.mjs:14-17 | Voting on a document with no active fight fails with `NoActiveFight`. |
| `Scenarios.BurgerRefused` | scripts/vote.mjs:19-22 | A third label is refused, and the error lists pizza and taco. |

## Left out

- Reading and writing site/fights.json, and the JSON parsing and printing. `Data.Load` receives the parsed document, and the saved document is `Data.Doc()`.
- `process.argv`, `process.exit` and `console` output. Arguments are a sequence of strings. An exit is an error value that carries the data its message prints.
- `crypto.randomUUID()` and `new Date().toISOString()`. They are nondeterministic, so they are the parameters `id` and `now`.
- Formatting `createdAt` with `toLocaleString` in the Los Angeles time zone (scripts/render.mjs:31). It depends on locale and time-zone data.
- The HTML page, its CSS and the card markup (scripts/render.mjs:34-46, 62-103). `Render.CardTextOf` keeps only what a card shows.
- Concurrent runs. Each script loads, changes and saves the whole file with no locking, so a later save overwrites an earlier one.
- JSON values other than strings in the fields, such as a numeric `id`. Every field is modelled as a string.
- An absent `foods` array. Destructuring it in render.mjs would throw; the model treats it as empty, which is what `new Set(undefined)` gives vote.mjs.
- Object key enumeration order. JavaScript lists integer-like keys first. `Tally.ValuesOf` leaves the order open, and `Tally.TallyIgnoresKeyOrder` shows the tally does not depend on it.
- Object identity. `history.push(data.active)` stores the same object that `active` then stops referring to. Fights are values here, and nothing touches the archived object later in the same run.
- `String(s)` in `escapeHtml`. Its argument is always a string in the model.
- Vote.Apply: the voter id `__proto__` is modelled as an ordinary key. In the script, `votes["__proto__"] = choice` on an object without its own `__proto__` entry reaches the inherited `Object.prototype.__proto__` setter, which ignores a string, so nothing is recorded although the script saves the file and prints "recorded vote". The model records the vote; `Vote.RecordVote` inherits this.
- Vote.Distinct: the model proves which labels the allowed list holds, but not that they come in order of first occurrence, although the function builds them in that order.
