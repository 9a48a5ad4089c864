# roboclic quiz core in Dafny

roboclic is a Telegram bot for a group of friends. Most of its commands send
fixed text. Its core is the attribution guessing game and the quizzes around
it. This project models that core and proves properties of the model:

- **Quiz construction** (`create_poll`, `birthday`): the bounded multiple-choice
  set. With more than `LIMIT` = 10 registered names, one copy of the correct
  name is removed, `LIMIT - 1` decoys are sampled without replacement, and the
  correct name is inserted at a random slot. With `LIMIT` names or fewer the code
  calls `random.sample(OPTIONS.values(), LIMIT)`. `random.sample` refuses a
  `dict_values` view with a TypeError, so this branch never yields a quiz. The
  model makes it an error outcome (`PopulationNotSequence`). Both commands
  share one `BuildChoices`; the source repeats the same code in each.
- **The `jul` quiz**: every verse tag of the lyrics corpus is an option, in file
  order, with duplicates kept. The answer is the first option equal to the
  drawn block's tag. The punchline is one of that block's lines after its tag
  line. `ParseTag` models the tag regex `\[Couplet \d : (.*?)\]` on one line.
- **Score ledger** (`increment_stats`, `stats`): an insertion-ordered
  dictionary from participant id to count. It has a guarded increment, a
  leaderboard made by a stable descending sort, and a lookup by normalised
  name.
- **Guess session** (`poll` → `keyboard_handler` → `create_poll`): one user's
  `user_data` fields `user`, `answer` and `callback_message`, plus the set of
  chats where that user's conversation waits for a quote. The conversation
  state is kept per chat and user, but `user_data` per user only, so a user
  waiting in two chats has one shared answer: a button pressed in either chat
  decides the quiz sent in both. A button press reaches the session of the
  member who pressed it, not of the one who sent `/poll`. `user_data` is never cleared, so
  `create_poll` quizzes on the latest button press, even one from an earlier
  round.
- **Helpers**: loading the help texts and `help NAME`, `get_time`, the
  hours/minutes split of `countdown`, and the text of `progression_bar`.

Randomness is a parameter. `random.sample` becomes an index list that the
caller supplies, and `random.randint` and `random.choice` become indices.
Their `requires` state only what Python's random functions guarantee: indices
in range and, for `sample`, no index drawn twice. Exceptions become `Err`
values of a `Result`. Telegram calls become returned values: the poll that
would be sent, and the keyboard shown.

A pool of at most ten names raises instead of listing every name, and the
`jul` options keep duplicate tags; the model does the same.

Files: `wrappers.dfy` (Option, Result), `registry.dfy` (`OPTIONS`), `quiz.dfy`,
`jul.dfy`, `ledger.dfy`, `stats_command.dfy`, `session.dfy`, `help_texts.dfy`,
`timing.dfy`.

## Model

| member | source | states |
|---|---|---|
| Registry.Ids | roboclic.py:33 | `list(OPTIONS)` has one id per entry, in dictionary order |
| Registry.Names | roboclic.py:214 | `list(OPTIONS.values())` has one name per entry, in dictionary order |
| Registry.Get | roboclic.py:213 | `OPTIONS[id]` is absent exactly when the id is not a key; otherwise it is the name stored with that id |
| Registry.GetInNames | roboclic.py:213-216 | the name found for an id is among `OPTIONS.values()`, so `options.remove(username)` cannot fail |
| Registry.GetAt | roboclic.py:248-250 | in a registry with distinct ids, looking up the id at a position gives the name at that position |
| Quiz.RemoveFirst | roboclic.py:216 | `list.remove` shortens the list by exactly one |
| Quiz.RemoveFirstAt | roboclic.py:216 | `list.remove(x)` drops exactly the first occurrence of `x` and keeps every other item in its order |
| Quiz.RemoveFirstMultiset | roboclic.py:216 | `list.remove(x)` takes exactly one occurrence of `x` out of the list's multiset |
| Quiz.Pick | roboclic.py:217 | the sample holds the population's elements at the drawn indices, in draw order |
| Quiz.InsertAt | roboclic.py:219 | `list.insert(i, x)` puts `x` at position `i`, shifts the rest up by one and adds exactly one `x` to the multiset |
| Quiz.BuildChoices | roboclic.py:214-222 | LIMIT names or fewer: always the `random.sample` TypeError, never a quiz; more than LIMIT: the correct name inserted at `slot` into the decoys sampled from the list less one occurrence of it, so exactly LIMIT choices, the correct name at `answer_id` in `[0, LIMIT-1]`, and no name more often than in the registry |
| Quiz.PickSubMultiset | roboclic.py:217 | a sample drawn without replacement is a sub-multiset of its population |
| Quiz.LargeQuizShape | roboclic.py:215-219 | exactly LIMIT choices; `answer_id` in `[0, LIMIT-1]`; `choices[answer_id]` is the correct name; the other LIMIT-1 are the drawn decoys, a sub-multiset of the names less one copy of the correct one |
| Quiz.LargeQuizDistinct | roboclic.py:215-219 | with distinct display names, the correct name is never a decoy and all LIMIT choices differ |
| Quiz.Birthday | roboclic.py:246-262 | an empty registry or a missing birthday raises; otherwise the question names the drawn participant's birthday and the choices are those of the shared construction for that participant's name |
| Jul.NameFrom | roboclic.py:120 | the non-greedy `(.*?)\]` captures text with no `]` and no newline, followed by `]` |
| Jul.ParseTag | roboclic.py:120-125 | a name found in a line stands there in a complete tag `[Couplet d : NAME]` |
| Jul.ParseTagLine | roboclic.py:120 | parsing `[Couplet d : NAME]` gives back NAME when NAME has no `]` and no newline |
| Jul.ParseTagFound | roboclic.py:125 | a name is found only where a complete tag `[Couplet d : NAME]` stands in the text |
| Jul.ParseTagLeftmost | roboclic.py:120-125 | `re.search` returns the name of the leftmost tag: a complete tag with no match starting before it is the one found |
| Jul.ParseTagComplete | roboclic.py:120-125 | a line holding a complete tag anywhere is never reported as untagged |
| Jul.FirstTag | roboclic.py:125 | `re.search` over a block finds the tag of its first tagged line, or nothing when no line has a tag |
| Jul.ParseBlock | roboclic.py:124-126 | a block parses to the tag of its first tagged line and the lines after its first line; it fails exactly when no line has a tag |
| Jul.ParseTaggedBlock | roboclic.py:121-126 | a block written as a tag line and lyrics reads back as that tag and those lyrics |
| Jul.FirstIndex | roboclic.py:128 | `list.index` gives a position holding the value with no earlier one |
| Jul.Tags | roboclic.py:122 | `re.findall` over the joined blocks gives one option per block, its tag, in block order |
| Jul.Jul | roboclic.py:119-130 | fails exactly when the block has no lyrics; otherwise the options are every block's tag in file order, duplicates kept; the answer is the first option equal to the drawn block's tag, at or before that block; the punchline is one of the block's lines after its first |
| Ledger.IdsOf | roboclic.py:143 | the ledger's ids, one per entry, in order |
| Ledger.Bumped | roboclic.py:144 | the dictionary update keeps every existing key in its place and appends a new key with count 1 |
| Ledger.BumpedCount | roboclic.py:144 | the updated user's count is its old count plus 1, absent counting as 0; every other count is unchanged |
| Ledger.BumpedDistinct | roboclic.py:144 | the update keeps the keys distinct |
| Ledger.IncrementSpec | roboclic.py:140-145 | a user not in `OPTIONS` leaves the ledger unchanged; a registered user gains exactly one point; every other entry is unchanged |
| Ledger.ScoreLedger.constructor | roboclic.py:143 | the ledger starts with the loaded entries |
| Ledger.ScoreLedger.Increment | roboclic.py:140-145 | `increment_stats` on the ledger object: unknown user, no change; known user, the update above; keys stay distinct |
| StatsCommand.Insert | roboclic.py:152 | inserting an entry into the sorted part keeps the same entries plus that one |
| StatsCommand.SortByScore | roboclic.py:152 | the sorted leaderboard is a permutation of the ledger |
| StatsCommand.InsertDescending | roboclic.py:152 | inserting keeps the order descending |
| StatsCommand.InsertWithScore | roboclic.py:152 | the inserted entry goes ahead of every entry with the same score |
| StatsCommand.SortDescending | roboclic.py:152 | `sorted(..., reverse=True)` orders the entries by score, highest first |
| StatsCommand.SortStable | roboclic.py:152 | entries with equal scores keep their stored order |
| StatsCommand.NatToString | roboclic.py:153 | a score prints as decimal digits with no leading zero |
| StatsCommand.NatToStringValue | roboclic.py:153 | the printed digits denote the score |
| StatsCommand.Board | roboclic.py:152-153 | the lines are built without error exactly when every ledger id has a display name; the text is empty exactly when there is no entry |
| StatsCommand.Leaderboard | roboclic.py:150-156 | the loop fails exactly when some ledger id is not in `OPTIONS`; an empty ledger gives `No stat available`; otherwise one `name: score` line per entry of the stable descending sort |
| StatsCommand.NormalizeSpec | roboclic.py:159 | the normalised key keeps the query's length, maps each character on its own, and contains no capital ASCII letter and no `é`, `ï` or `ë` |
| StatsCommand.Normalize | roboclic.py:159 | the key keeps the query's length and folds each character by the independent table `FoldChar` |
| StatsCommand.NormalizeIdempotent | roboclic.py:159 | normalising a normalised key changes nothing |
| StatsCommand.Lookup | roboclic.py:159-161 | the reply shows the registered name exactly when the normalised key is an `OPTIONS` key, and otherwise carries that key; the score is the count stored under the key when the ledger holds it, and 0 when it does not |
| StatsCommand.CountAbsent | roboclic.py:161 | `stats.get(key, 0)` is 0 for a key the ledger does not hold |
| StatsCommand.LookupAfterIncrement | roboclic.py:144-161 | after an increment of the normalised key, the lookup reports one point more |
| Session.Keyboard | roboclic.py:169-175 | one row per participant, at most 4 buttons each, exactly 4 in every full row, and every row after the first `ceil(n/4)` empty |
| Session.Buttons | roboclic.py:171-172 | one button per participant, in dictionary order, showing the name and carrying the id |
| Session.KeyboardFlatten | roboclic.py:169-175 | the rows read in order are the `OPTIONS` items in order, each exactly once |
| Session.ReplayAnswer | roboclic.py:167-191 | after any sequence of `poll`, button presses and `create_poll`, the stored answer and message are those of the latest press, whatever rounds came between |
| Session.Apply | roboclic.py:167-191 | `poll` writes the sender's username, and only that, to `user`; a button press writes `answer` and `callback_message`; `create_poll` writes nothing; no written key is removed |
| Session.GuessSession.constructor | roboclic.py:165-167 | a new user has no `user_data` and no conversation in any chat |
| Session.GuessSession.Poll | roboclic.py:165-183 | `poll` in a chat records the sender, starts the conversation in that chat only, and shows `Keyboard` of the participants, whose rows read in order are every participant |
| Session.GuessSession.KeyboardHandler | roboclic.py:186-193 | records answer and message in any state; fails exactly when the pressed id is not in `OPTIONS`, after recording it |
| Session.GuessSession.CreatePoll | roboclic.py:196-243 | fails if no button was ever pressed; otherwise quizzes on the latest stored answer, from whichever chat it was pressed in; any failure sends nothing, scores nothing and leaves the conversation waiting; on success one quiz, the conversation in this chat ends (others keep waiting), and one increment exactly when the chat is allow-listed or no allow-list exists; `user_data` is not cleared |
| HelpTexts.FirstSpace | roboclic.py:29 | the position found is a space with no space before it |
| HelpTexts.SplitCommand | roboclic.py:29 | `split(' ', 1)` into two names fails exactly on a line without a space; otherwise the name has no space, and the name, a space and the text make up the line |
| HelpTexts.SplitCommandJoin | roboclic.py:29 | a line made of a name, a space and a text splits back into that name and that text |
| HelpTexts.Explanations | roboclic.py:27-30 | a failed load names a line of the file, and that line has no space |
| HelpTexts.LoadExplanations | roboclic.py:27-30 | the loop's result is `Explanations` of the lines |
| HelpTexts.ExplanationsErr | roboclic.py:27-30 | loading fails exactly when some line has no space, and it reports the first such line |
| HelpTexts.ExplanationsKeys | roboclic.py:27-30 | a command has a text exactly when some line names it |
| HelpTexts.ExplanationsLastWins | roboclic.py:27-30 | a command's text is the one on the last line naming it |
| HelpTexts.HelpFor | roboclic.py:303-304 | `help NAME` gives the loaded text for NAME, or `Not a command` |
| HelpTexts.HelpAfterLoad | roboclic.py:27-30 | `help NAME` gives the text of the last line naming NAME, or `Not a command` when no line names it |
| Timing.FromSeconds | roboclic.py:53 | a second count normalises to a day count and a second count within the day |
| Timing.GetTime | roboclic.py:57-61 | the seconds of a normalised interval fall within its day count's day |
| Timing.GetTimeRoundTrip | roboclic.py:57-61 | `get_time` undoes normalisation, and normalisation undoes `get_time` |
| Timing.Countdown | roboclic.py:49-54 | the split keeps the days, gives hours in `[0, 23]` and minutes in `[0, 59]`, and loses less than a minute |
| Timing.Repeat | roboclic.py:70 | `c * n` is `n` copies of `c`, or empty when `n` is zero or less |
| Timing.ProgressionBar | roboclic.py:64-70 | the bar is `[`, tiles of `#` or `-`, then `]`: 27 characters for a non-negative input, one more empty tile per unit below zero |
| Timing.ProgressionBarShape | roboclic.py:64-70 | the bar is bracketed, with `min(25, rounded)` leading `#` tiles (none when negative) and `-` for the rest; 27 characters for a non-negative input |

## Left out

- Telegram transport: `send_poll`, `reply_text`, message deletion, message editing, `query.answer`, `Updater` and handler registration. The model returns the poll and the keyboard instead of sending them. The deletions in `try/except` may fail without effect, so they are not modelled.
- Routing: which handler gets which update is not modelled. `GuessSession.Poll` requires that the user has no conversation in that chat, and `GuessSession.CreatePoll` requires one waiting there, as the conversation handler guarantees. In a waiting chat a `/poll` text goes to `create_poll` as the quote; the model covers that through `CreatePoll`, whatever the text.
- File and JSON I/O: reading `helper_texts.txt`, `options.json`, `birthday.json` and `.keys`, and reading and writing `stats.json`. The ledger is an in-memory object.
- The lost-update race between concurrent `increment_stats` calls, because it needs concurrency.
- Logging, and the admin notification of `create_poll`. The notification's failures are swallowed, and it changes no modelled state.
- Wall-clock and timezone code: `datetime.now`, `pytz`, and the commands `year`, `qalf`, `kaamelott` and `oss`. `countdown` is modelled from the time difference onward.
- The float percentage of `year` (roboclic.py:108) and the `int(round(percent / 4))` of `progression_bar` (roboclic.py:69). `ProgressionBar` takes that rounded tile count as an integer.
- Microseconds of a `timedelta`, because `get_time` and `countdown` ignore them.
- Static replies (`hugo`, `reuf`, `noel`, `bureau`, `telephone_du`) and `quote`, `rayan` and `arthur`. They are fixed text or a random line of a file.
- The no-argument `help` reply. It formats a generator object, so its text has no meaning to state.
- StatsCommand.Lookup: `str.title()` is left uninterpreted; the reply carries the key it would be applied to.
- StatsCommand.Normalize: `str.lower()` is modelled for ASCII letters and `É`, `Ï`, `Ë` only, not for the rest of Unicode.
- Jul.ParseTag: `\d` is modelled as an ASCII digit, not as any Unicode decimal digit.
- Jul.Jul: the corpus is given as `(tag, lyrics)` blocks. The model assumes each block holds exactly one tag, on its first line. It does not model a tag left unclosed at the end of a block, where `findall` over the `$`-joined text would run into the next block.
- Jul.ParseBlock: the tag search runs line by line over `splitlines()`, which also breaks at `\v`, `\f`, `\x1c`-`\x1e`, `\x85`, U+2028 and U+2029. The regex's `.` matches those, so a tag containing one is found by the program but not by the model. The model is faithful for blocks whose only line break is `\n`.
