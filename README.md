# Chat-log word timeline, modelled in Dafny

This project models the core of a chat-log pipeline. The pipeline reads
chat exports of a live stream in two JSON shapes: ChatDownloader arrays
and TwitchVOD objects with a `comments` list. It turns every message into
a set of word tokens. It drops a bot, excluded texts and messages already
seen in an earlier file. It sorts what is left by time and cuts it into
fixed-width windows. Each window gets a message count and a per-word
count. Finally it sums the per-word counts over all windows into a table
ordered by descending count.

Modules, one per source file of the core (plus two shared ones):

- `Common` (Common.dfy): `Result`/`Option`, the three fatal errors, the
  configuration lists, and the external collaborators (URL stripping,
  regular-expression `findall`, `jaconv.h2z`, the segmenter, and set
  iteration order) as function-valued fields of `Externals`.
- `Text` (Text.dfy): the Python string operations the normaliser uses:
  `in`, `replace(p, "")`, `strip()` and slicing with clamping.
- `Message` (Message.dfy, lib/message.py): the normalisation stages of
  `Message.__init__`, `words`, `__len__`, and the two `_init_items`.
- `Chat` (Chat.dfy, lib/chat.py): the record filters, format sniffing,
  per-file batches, de-duplication across files, and the time sort.
- `Timeline` (Timeline.dfy, lib/chat.py): the windowing loop,
  `_make_timepoint`, and `parse_chat` as a whole.
- `Counts` (Counts.dfy, main.py): the counter merge and the ranking of
  `_save_counts`.

Timestamps are integers in microseconds. `WINDOW` is a positive number of
microseconds passed as a parameter. A window is labelled by its inclusive
upper bound. The loops of the source are methods with loop invariants.
Each method is proved equal to a specification function, or proved
directly against the property the source promises.

Points of the code that the model keeps as they are:

- Emote names are kept out of the token set. Neither the laughter collapse
  nor the fallback sees them, so a message whose only content besides an
  emote is unsegmentable text still gets that text as its fallback token.
  `words` adds the emotes back. `__len__` counts the tokens only
  (`Message.Message.Len`).
- Laughter detection looks for `w` and the full-width `ｗ` only.
- The format sniff compares the first character read, with no white space
  skipped. For plain files it compares a `str` with `b"["` (see Findings).
- `replace` is one left-to-right pass. A deleted occurrence can join two
  pieces into a new one (`Text.RemoveAllIsSinglePass`), so a phrase is not
  always absent afterwards.
- The fallback token comes after laughter collapsing. A leftover text such
  as `w` can therefore survive as a raw laughter token
  (`Message.FallbackKeepsLaughter`).

## Model

| member | source | states |
|---|---|---|
| Text.ContainsIffOccurs | lib/message.py:55 | `sub in s` holds iff some slice of `s` equals `sub` |
| Text.RemoveAllAbsent | lib/message.py:57 | `replace(p, "")` leaves a text without `p` unchanged |
| Text.RemoveAllShrinks | lib/message.py:57 | `replace(p, "")` on a text containing a non-empty `p` removes at least `|p|` characters |
| Text.RemoveAllIsSinglePass | lib/message.py:57 | deleting "ab" from "aabb" leaves "ab": one pass can create a new occurrence |
| Text.StripShape | lib/message.py:96 | `strip()` returns a slice of the text with only white space cut from both ends and none left at either end |
| Text.Slice | lib/message.py:136 | `s[b:e]` is never longer than `s`, equals `s[b..e]` for in-range bounds, and is empty when `0 <= e <= b` |
| Text.SliceBounds | lib/message.py:136 | a negative bound counts from the end, one below `-len(s)` acts as 0, and one past the end acts as `len(s)` |
| Message.Message.Words | lib/message.py:106-108 | `words` contains the tokens and the emotes, and nothing else |
| Message.Message.Len | lib/message.py:103-104 | `len` is the size of `words` less the emotes that are not tokens, so it counts the token set only; it equals the size of `words` when every emote is also a token |
| Message.RemoveSubstrings | lib/message.py:35-39 | the emote and stop-word loops equal successive `replace(s, "")` calls and never lengthen the text |
| Message.RuleEffect | lib/message.py:43-51 | a rule without matches changes nothing; a matching rule adds its token and clears the text (anchored) or shortens it by at least its first match |
| Message.ApplyRules | lib/message.py:43-51 | across the rules, tokens only grow and only by rule replacements; the text never lengthens |
| Message.ApplyPatternRules | lib/message.py:43-51 | the rule loop with its inner match loop computes `ApplyRules` |
| Message.PhraseEffect | lib/message.py:54-57 | a phrase that occurs becomes a token and the text loses at least its length; an absent phrase changes nothing |
| Message.ExtractPhrases | lib/message.py:54-57 | across the phrases, tokens only grow and only by known phrases; the text never lengthens |
| Message.ExtractKnownPhrases | lib/message.py:54-57 | the phrase loop computes `ExtractPhrases` |
| Message.GroupRuns | lib/message.py:62-85 | the two-state loop over the segmenter output yields exactly `Runs`, the final open run included |
| Message.RunsFromHeads | lib/message.py:62-85 | a string is a run iff it is the surface of a noun or verb followed by the surfaces of all the auxiliary verbs right after it |
| Message.RunsEmptyIffNoHead | lib/message.py:62-85 | no run is produced iff no token is a noun or verb |
| Message.CollapseLaughter | lib/message.py:88-94 | ｗｗｗ is present iff some token held `w` or `ｗ`; no other token holds either; unmarked tokens are kept unchanged |
| Message.Normalize | lib/message.py:30-101 | the whole `__init__` pipeline equals `Normalized`; it fails, with the integrity error, exactly when the tripwire token is present |
| Message.TokensOrigin | lib/message.py:33-98 | every token comes from a rule replacement, a known phrase, a run, the laughter token or the fallback leftover |
| Message.LaughterCollapsed | lib/message.py:88-98 | a token with a laughter mark is ｗｗｗ, unless the set is exactly the fallback leftover |
| Message.EmptyOnlyWithoutLeftover | lib/message.py:96-98 | an empty token set means the stripped leftover text was empty |
| Message.FallbackKeepsLaughter | lib/message.py:88-98 | with no rules, phrases or runs, the text "w" yields the token set {"w"} |
| Message.DownloaderEmotes | lib/message.py:117-121 | ChatDownloader emotes are exactly the listed names not in the stop words; no "emotes" key gives no emotes |
| Message.WholeSeconds | lib/message.py:123 | the microsecond timestamp is floor-divided to whole seconds |
| Message.SpanEmotesMembership | lib/message.py:133-136 | a TwitchVOD emote is exactly the stripped `body[begin:end]` slice of one of the spans |
| Message.VodEmotes | lib/message.py:133-136 | the emoticon loop computes the set of stripped span slices; no or empty emoticons give no emotes |
| Message.DownloaderMessage | lib/message.py:111-123 | a ChatDownloader message keeps the record id, gets the filtered emotes and a timestamp truncated to whole seconds; its tokens are the normalised text, and it fails, with the integrity error, exactly when normalisation does |
| Message.VodMessage | lib/message.py:127-138 | a TwitchVOD message keeps the id and creation time and gets the span emotes; its tokens are the normalised body, and it fails, with the integrity error, exactly when normalisation does |
| Message.NewDownloaderMessage | lib/message.py:111-123 | constructing a ChatDownloader message computes `DownloaderMessage` |
| Message.NewVodMessage | lib/message.py:127-138 | constructing a TwitchVOD message computes `VodMessage` |
| Chat.DownloaderOutcome | lib/chat.py:12-19 | a record is dropped iff its author name is present and is the bot, or its text holds an excluded term; otherwise it becomes its message or its failure |
| Chat.VodOutcome | lib/chat.py:22-29 | a comment is dropped iff its commenter is the bot or its body holds an excluded term; otherwise it becomes its message or its failure |
| Chat.MakeDownloaderMessage | lib/chat.py:12-19 | the filter with its loop over excluded terms computes `DownloaderOutcome` |
| Chat.MakeVodMessage | lib/chat.py:22-29 | the filter with its loop over excluded terms computes `VodOutcome` |
| Chat.Read | lib/chat.py:48-58 | a ChatDownloader read of an array gives its records; a TwitchVOD read of an object with `comments` gives the comments; any other shape fails with the format error |
| Chat.PlainArrayFileMisread | lib/chat.py:37-46 | a plain-text ChatDownloader array is read as TwitchVOD and aborts the run, while the intended sniff reads its records |
| Chat.LoadFileCorrected | lib/chat.py:37-58 | the intended sniff agrees with the code on gzip files and reads every well-formed file of either format |
| Chat.SurvivorsFailureStays | lib/chat.py:52-59 | a failing record aborts the whole file's batch |
| Chat.NormalizeDownloads | lib/chat.py:52-54 | the pool over a ChatDownloader file keeps the surviving messages in record order, or fails with the first failure |
| Chat.NormalizeComments | lib/chat.py:56-59 | the pool over a TwitchVOD file keeps the surviving messages in comment order, or fails with the first failure |
| Chat.NormalizeBatch | lib/chat.py:50-59 | dispatches a file's batch to the matching pool |
| Chat.FreshOnly | lib/chat.py:54 | a message's multiplicity is kept when its id was not loaded and is zero otherwise |
| Chat.Dedup | lib/chat.py:32-63 | one accepted batch per file |
| Chat.DedupPrefix | lib/chat.py:32-63 | the accepted batches of the first k files do not depend on later files |
| Chat.DedupKeepsFresh | lib/chat.py:53-63 | a message of file i is dropped iff an earlier file accepted its id; repeats inside file i are kept |
| Chat.DedupAcrossFiles | lib/chat.py:53-63 | two different files never both contribute a message with the same id |
| Chat.LoadAllFailureStays | lib/chat.py:35-63 | a failing file aborts the whole ingestion |
| Chat.Ingest | lib/chat.py:31-63 | the per-file loop that grows `messages` and `loaded_ids` computes `Ingested` |
| Chat.InsertByTime | lib/chat.py:65 | inserting into a time-sorted list keeps it sorted and adds exactly that message |
| Chat.SortByTime | lib/chat.py:65 | the sort yields a permutation of the messages in non-decreasing time order |
| Timeline.Truncate | lib/chat.py:68 | dropping the microseconds gives the largest whole second not after the timestamp |
| Timeline.BucketEmpty | lib/chat.py:70-80 | a window none of whose messages belongs to it has an empty batch |
| Timeline.TallyCountsMessages | lib/chat.py:89-93 | a word's count in a window is the number of the window's messages whose `words` contain it |
| Timeline.SkipGaps | lib/chat.py:74-80 | the inner loop appends empty windows one `WINDOW` apart until the window holding the next message, which belongs to it |
| Timeline.JoinStep | lib/chat.py:71-72 | a message not after the current bound joins the open batch and the loop state stays consistent |
| Timeline.CloseBatch | lib/chat.py:73 | a message beyond the current bound closes the open batch as a window that agrees with the messages so far and keeps the count total |
| Timeline.NewWindowStep | lib/chat.py:73-80 | a later message closes the batch, and after the gap windows it opens a new batch, keeping the loop state consistent |
| Timeline.Admit | lib/chat.py:70-80 | one turn of the windowing loop keeps the loop state consistent for the longer prefix |
| Timeline.Windows | lib/chat.py:70-80 | after the loop, the closed windows form a grid agreeing with all messages, and the open batch holds exactly the messages of the current window, the last message among them |
| Timeline.CloseLast | lib/chat.py:82-83 | closing the last batch yields a grid that agrees with all messages, covers them all, and counts each once |
| Timeline.BuildTimeline | lib/chat.py:67-85 | empty input fails; otherwise labels start at the first timestamp truncated plus `WINDOW` and step by `WINDOW`, every window holds exactly its messages, every message is covered, and the counts sum to the number of messages |
| Timeline.ParseChat | lib/chat.py:31-85 | ingestion failures propagate; no messages fails at the first message; otherwise the timeline is always built, over a sorted permutation of the ingested messages, with the last message in the last window |
| Timeline.GridSpacing | lib/chat.py:68-76 | labels further along the grid are at least `WINDOW` apart |
| Timeline.OneWindowPerMessage | lib/chat.py:67-83 | a timestamp up to the last label belongs to a window, and any window it belongs to is the one with the smallest label not below it |
| Timeline.GapWindow | lib/chat.py:75-80 | a window with no messages has count 0 and an empty counter |
| Counts.Merge | main.py:30-32 | `update` keeps the words of both counters, and the count of each word is the sum of its two counts |
| Counts.MergeCounts | main.py:30-32 | each word's merged total is the sum of its counts over all windows; a word is in the total iff some window counted it |
| Counts.MergeEmpty | main.py:31-32 | merging an empty gap-window counter leaves the totals unchanged |
| Counts.MergeCommutes | main.py:31-32 | the order in which counters are merged does not matter |
| Counts.HitsOnce | lib/chat.py:67-83 | a timestamp up to the last label belongs to exactly one window of a grid |
| Counts.TotalIsMessageCount | main.py:27-32 | on a timeline that agrees with and covers its messages, a word's merged total is the number of messages whose `words` contain it |
| Counts.InsertDesc | main.py:35 | inserting a row into a descending list keeps it descending and adds exactly that row |
| Counts.InsertDistinct | main.py:35 | inserting a word not yet listed keeps every word listed once |
| Counts.RankWords | main.py:35-36 | the rows list every counter entry exactly once with its count, in non-increasing order of count |
| Counts.SaveCounts | main.py:27-36 | for a non-empty timeline (an empty one makes the unpacking raise), the written rows are in non-increasing count order, list each counted word once, and give its total over all windows |

## Left out

- lib/plot.py: plotting, layout and the float moving averages are outside this model.
- lib/__init__.py is not part of this model: its constants (stop words, known phrases, pattern rules, excluded terms, `WINDOW`) are parameters.
- The segmenter, `jaconv.h2z`, the URL regular expression and the compiled pattern rules are opaque functions in `Externals`. Their results are taken as given.
- `Message.RuleEffect`: `findall` results are taken as plain strings; patterns with groups, whose `findall` yields tuples, are not modelled.
- File I/O is not modelled: gzip or plain opening, `json.load`, and the stderr print. A file is given as its compression flag, first character and parsed JSON value.
- The format sniff only looks at the first character, as the code does. A file with leading white space before `[` is sniffed as TwitchVOD in both loaders.
- The process pool is not modelled. Each file's records are processed in record order. The timeline depends on their order only through the stable sort among messages with equal timestamps.
- `Chat.SortByTime`: does not state that the sort is stable, because only the order of messages with equal timestamps inside one window would depend on it, and counts do not.
- Datetime parsing and time zones are not modelled. A TwitchVOD creation time is given as microseconds. A ChatDownloader timestamp is floor-divided to whole seconds; the local-time relabelling of `fromtimestamp(...).replace(tzinfo=utc)` is not modelled.
- The set iteration order used when removing emote names is a parameter (`emoteOrder`, `Externals.iterationOrder`). It is unconstrained: the model does not require it to list exactly the elements of the set, each once, and no stated property depends on that.
- `Counts.RankWords`: does not fix the order of words with equal counts, because it follows the counter's insertion order, which the model's maps do not keep.
- The pickle cache, argparse, `_main` and writing `words.tab` are not modelled.
- `Chat.Ingest`: reads every file through the intended format sniff (`Chat.LoadFile`), not the one as written. A plain ChatDownloader export, which aborts the source (see Findings), is ingested.
- `Chat.NormalizeDownloads`, `Chat.NormalizeComments`: do not model the abort for a file with fewer records than pool workers. The source passes `len(j) // pool._processes` as the chunk size, and `imap_unordered` rejects a chunk size of 0 with a `ValueError`, for example on an empty array. The model has no worker count and normalises such a file.
- `Message.ExtractPhrases`: does not promise that a phrase is absent afterwards, because `replace` is one pass and can create a new occurrence.

## Findings

| source | as written | input that shows it | evidently intended | confidence | as-written member | corrected member |
|---|---|---|---|---|---|---|
| lib/chat.py:37-44 | `f.read(1) == b"["` decides the format, but plain files are opened in text mode, so `read(1)` returns a `str` that never equals bytes | a plain (not `.gz`) ChatDownloader export starting with `[`: it is read as TwitchVOD and `j["comments"]` fails on the list | a file whose first character is `[` is read as a ChatDownloader export, whether or not it is compressed | medium, not executed | Chat.PlainArrayFileMisread | Chat.LoadFileCorrected |
