# Verification of dgxarley

A Dafny model of the parts of dgxarley where a mistake is hard to see: stream processing,
mail handling, a GPU kernel's index arithmetic, and the algorithms of its tools. Each module
models one component with the branches and constants of the code and proves what its
documentation or tests promise. `dafny verify dfyconfig.toml` verifies all modules.

| file | what it models |
|---|---|
| `Text.dfy` | the fragment of Python's `str` that the others use, and `Option` |
| `ThinkingParser.dfy` | the incremental parser for thinking tags in a token stream |
| `RepetitionSpec.dfy`, `StreamingGuard.dfy`, `GuardMeaning.dfy`, `CleanCut.dfy` | the repetition guard: its verdict as a function of the whole history, the incremental class, what the verdict says about words and characters, and where it cuts |
| `AuthResults.dfy` | the clause splitter for Authentication-Results values (section 2.2 of RFC 8601; sections 3.2.2 and 3.2.4 of RFC 5322) |
| `QuoteBlock.dfy`, `QuoteLedger.dfy`, `QuoteMeaning.dfy` | quoting the original mail: the text within a budget, the claim and settle protocol of concurrent senders, and which mail and which lines are quoted |
| `MailServer.dfy` | mail folders on a server whose commands may fail, with or without having been carried out, and the move between them |
| `MailPoll.dfy`, `MailGateway.dfy` | one poll of the mail adapter as functions of the environment's answers, and the class that computes them |
| `MailLifecycle.dfy`, `MailRuns.dfy`, `MailRepeats.dfy` | what every step and every run keeps, and exactly when a mail can be dispatched twice |
| `MailDelivery.dfy`, `MailRetry.dfy`, `MailStranded.dfy` | where mails end up when commands succeed, when they are refused, and when an exception ends a batch |
| `PagedLogits.dfy` | the paged indexer kernel against its dense reference |
| `LoopDetector.dfy` | the detector of adjacent repeated blocks |
| `GlobCompiler.dfy` | the compiler of path patterns to regular expressions |
| `Throughput.dfy` | the sweep for concurrent throughput, the sliding window and the binning |
| `PatchEngine.dfy`, `PatchMeaning.dfy` | the transactional, idempotent patch engine, and its edits character by character |
| `CpuShard.dfy`, `ShardWriter.dfy` | splitting weights over ranks, and the numbered part files with their index |
| `VersionOrder.dfy`, `VersionMeaning.dfy` | reading, comparing and judging pinned versions, and the verdicts component by component |
| `EnvFile.dfy`, `ConfigMerge.dfy`, `MergeMeaning.dfy` | the start-up merge of ops-managed and user files, and what it makes of lines, secrets and providers |

Code that works step by step is modelled by methods and classes; their `ensures` tie them to
functions, and the lemmas are about those functions. The `Meaning` modules say the same once
more without those functions, in terms of words, characters, lines and mails.

What a program cannot know in advance (answers of a server, verdicts of a gate, the schedule
of a grid, the order in which a dict is walked) is a free choice of the model, so the
statements hold for all of them.

## Where code and documentation disagree

The model follows the code.

- The guard's comment says it cuts at the nearest sentence boundary; it cuts behind the last
  occurrence of the first marker kind that occurs at all. When that is the nearest is
  `CleanCut.MarkLoopStartIsNearestIff`, a stream on which it is not `CleanCut.CutIsNotNearest`.
- The merge's comment says that user-added providers are kept; an ops file with an empty or
  null `custom_providers` wipes them out (`ConfigMerge.UserProvidersKeptIff`).
- The sharding documentation speaks of remaining tensor parallelism within an expert group; the
  code takes its first part on every rank (`ExpertSharding.HoldEverythingIff`).

- The comment on [PATCH-6] says that an exception of the handler cannot strand a mail in
  Working. Its own mail is finalized, but the loop over the batch ends, and the mails fetched
  behind it are never dispatched or moved (`MailStranded.BatchIsStranded`,
  `MailStranded.TwoMails`).
- The docstring of `_trim_seen_uids` relies on UNSEEN to prevent a second delivery. With Done
  set to INBOX that does not suffice (`MailRepeats.AtMostOnceIff`).

Two places do what their comments say, with consequences that are easy to miss:

- The mail move prefers UID EXPUNGE, and a server without UIDPLUS gets a plain EXPUNGE.
  `MailServer.MoveLosesNothingIff` says exactly when that can cost a mail: when the user has
  flagged one as deleted in the same folder.
- In a path pattern two stars span directory separators, also when the pattern has no slash.
  `GlobCompiler.SlashFreeRuleIff` says exactly which patterns without a slash are decided by the
  last component of the path.

## Model

| member | source | states |
|---|---|---|
| `ThinkingParsing.ChunkInvariance` | dgxarley/integration/thinking_parser.py:160-226 | for every text and every way to cut it into chunks, feeding the chunks gives the thinking and content output, the mode, the buffer and the tag counts of reading the whole text at once |
| `ThinkingParsing.ScanAppend` | dgxarley/integration/thinking_parser.py:175-215 | reading a text followed by another is reading the first and then the second behind what the first left pending, also when a tag straddles the seam |
| `ThinkingParsing.PendingIsLongestTagPrefix` | dgxarley/integration/thinking_parser.py:184-211 | the buffer is always the longest proper beginning of the awaited tag that the whole text read so far ends in |
| `ThinkingParsing.TailStopsAtCloser` | dgxarley/integration/thinking_parser.py:185-190 | the `endswith` test cannot reach back before `pos`: behind a tag it finds the same tail in the whole buffer as in the rest |
| `ThinkingParsing.Conservation` | dgxarley/integration/thinking_parser.py:217-226 | input length is thinking + content + buffer + 7 for each opening and 8 for each closing tag, and the tags alternate |
| `ThinkingParsing.ThinkTags` | dgxarley/integration/thinking_parser.py:160-226 | written out with the two tags: what stands between them is thinking, all else content |
| `ThinkingParsing.RoundTrip` | dgxarley/integration/thinking_parser.py:160-226 | print any alternation of segments free of their closing tag, cut it anyhow, feed it: the thinking and content segments come back, up to the pending tail of the last |
| `ThinkingParsing.PrintSegments` | dgxarley/integration/thinking_parser.py:160-226 | every text is the print of its segments, and these are free of their closing tags |
| `ThinkingParsing.SegmentsPrint` | dgxarley/integration/thinking_parser.py:160-226 | no tag arises across a seam: the segments of a printed alternation are that alternation |
| `ThinkingParsing.ScanSelects` | dgxarley/integration/thinking_parser.py:173-226 | the outputs are exactly the segments of their mode in order, the last one short of its pending tail |
| `ThinkingParsing.ThinkingParser.constructor` | dgxarley/integration/thinking_parser.py:75-82 | a new parser is in content mode with an empty buffer and zero counters |
| `ThinkingParsing.ThinkingParser.Feed` | dgxarley/integration/thinking_parser.py:106-158 | one chunk: pass-through from the first server-separated chunk on, else the reading of buffer and chunk; counters grow by the output |
| `ThinkingParsing.ThinkingParser.ParseTags` | dgxarley/integration/thinking_parser.py:160-226 | output, mode, buffer and counters after an inline chunk are those of reading buffer and chunk from the current mode |
| `ThinkingParsing.ThinkingParser.ParseBuffer` | dgxarley/integration/thinking_parser.py:179-215 | the parse loop over `pos` computes the reading of the whole buffer |
| `ThinkingParsing.ThinkingParser.PartialTag` | dgxarley/integration/thinking_parser.py:185-193 | the downward search finds the longest tag prefix at the end |
| `ThinkingParsing.ThinkingParser.FeedAll` | dgxarley/integration/thinking_parser.py:11-22 | the consumer loop: the joined outputs depend on the joined text only |
| `RepetitionSpec.MaxCountIsMax` | dgxarley/integration/streaming_repetition_guard.py:310-315 | the specified worst count bounds the multiplicity of every n-gram of the history and is reached by one |
| `RepetitionSpec.EarlyIsFirst` | dgxarley/integration/streaming_repetition_guard.py:317-321 | the early set is the n-gram set of the history at the first feed that qualifies, and is empty until one does |
| `RepetitionSpec.ChainCounts` | dgxarley/integration/streaming_repetition_guard.py:419-431 | the repetitions counted for a length are all blocks, back from the end, that agree with the final one in 90 percent of their positions, and the next block does not |
| `RepetitionSpec.BestIsBest` | dgxarley/integration/streaming_repetition_guard.py:416-435 | among the tried lengths the chosen one has the most repetitions, and is the shortest that has them |
| `RepetitionSpec.ReportIsLoop` | dgxarley/integration/streaming_repetition_guard.py:437-452 | soundness: a suffix report means a tried length and at least `suffix_min_reps` adjacent blocks alike the final one at the end of the window, not structural |
| `RepetitionSpec.ExactLoopIsReported` | dgxarley/integration/streaming_repetition_guard.py:406-452 | completeness: at least `suffix_min_reps` (2 or more) exact copies of a tried length at the end of the window are reported exactly when the chosen pattern, which has at least as many repetitions, is not structural |
| `RepetitionSpec.Raised` | dgxarley/integration/streaming_repetition_guard.py:438-439 | the raised confidence stays within 0 and 1 |
| `RepetitionSpec.Confidence` | dgxarley/integration/streaming_repetition_guard.py:437-469 | over every history the smoothed confidence stays within 0 and 1 |
| `RepetitionSpec.ReportedConfidence` | dgxarley/integration/streaming_repetition_guard.py:250-288 | the confidence a feed reports lies within 0 and 1: none before the checks begin, 1 on a flood, the recycled share on stagnation, else the smoothed value |
| `GuardMeaning.GramsAgreeIff` | dgxarley/integration/streaming_repetition_guard.py:311-311 | two joined n-grams are equal exactly when their n words are, for words without spaces, as the word pattern finds them |
| `GuardMeaning.WorstCountIs` | dgxarley/integration/streaming_repetition_guard.py:309-315 | the worst count is the largest number of positions at which the same n words stand |
| `GuardMeaning.FloodMeans` | dgxarley/integration/streaming_repetition_guard.py:327-362 | flood: some n words stand at at least as many positions as the length-dependent limit says, and cover a large enough share of all words |
| `GuardMeaning.StagnantMeans` | dgxarley/integration/streaming_repetition_guard.py:494-513 | stagnation: of the different windows of n words among the last words, a large enough share stood in the history at the first feed that had enough words |
| `GuardMeaning.RecycledShareIs` | dgxarley/integration/streaming_repetition_guard.py:510-523 | the share reported as confidence counts those windows |
| `GuardMeaning.SuffixLoopMeans` | dgxarley/integration/streaming_repetition_guard.py:406-452 | suffix loop, both directions: the last characters end in enough blocks of a tried length that agree with the last in 90 percent of their positions, the length with the most and then the shortest is taken, and its block is more than rules and spaces |
| `GuardMeaning.ConfidenceMeans` | dgxarley/integration/streaming_repetition_guard.py:437-469 | after a suffix check the confidence is raised to the copies found out of one more than asked for, but not lowered, or decays by 5 percent |
| `GuardMeaning.HistoryJoins` | dgxarley/integration/streaming_repetition_guard.py:238-243 | words and text of a history are those of its chunks in order |
| `GuardMeaning.VerdictMeans` | dgxarley/integration/streaming_repetition_guard.py:222-288 | the verdict of any history of plain words in these terms: on every checked feed, the first of flood, suffix loop and stagnation |
| `StreamingGuard.RepetitionGuard.constructor` | dgxarley/integration/streaming_repetition_guard.py:187-212 | a new guard has an empty history and cleans nothing |
| `StreamingGuard.RepetitionGuard.Feed` | dgxarley/integration/streaming_repetition_guard.py:222-288 | after any feeds the verdict and its reason, the worst count, the reported confidence and the clean position are those recomputed from the whole history; the clean position never falls; an empty chunk changes nothing and reports nothing |
| `StreamingGuard.RepetitionGuard.Ingest` | dgxarley/integration/streaming_repetition_guard.py:241-248 | text, tokens, n-gram counts, maximum and early set become those of the longer history |
| `StreamingGuard.RepetitionGuard.UpdateNgrams` | dgxarley/integration/streaming_repetition_guard.py:294-321 | counting only the grams with a new word keeps the counter equal to the multiset of all grams, the maximum exact, and freezes the early set at the right feed |
| `StreamingGuard.RepetitionGuard.CountGramsFrom` | dgxarley/integration/streaming_repetition_guard.py:309-315 | the counting loop reaches the counter and maximum of the whole history |
| `StreamingGuard.RepetitionGuard.Judge` | dgxarley/integration/streaming_repetition_guard.py:250-288 | the three checks in order give the specified verdict, reported and kept confidence, and clean position |
| `StreamingGuard.RepetitionGuard.CheckNgramFlood` | dgxarley/integration/streaming_repetition_guard.py:342-386 | stops exactly when some n-gram is over the length-dependent limit and dense enough |
| `StreamingGuard.RepetitionGuard.CheckSuffixLoop` | dgxarley/integration/streaming_repetition_guard.py:392-471 | stops exactly on a suffix loop, and updates confidence and clean position as specified |
| `StreamingGuard.RepetitionGuard.CountRepetitions` | dgxarley/integration/streaming_repetition_guard.py:420-431 | the backward block loop counts the specified repetitions |
| `StreamingGuard.RepetitionGuard.BestPattern` | dgxarley/integration/streaming_repetition_guard.py:416-435 | the loop over lengths in steps of 5 finds the specified best pattern |
| `StreamingGuard.RepetitionGuard.CheckStagnation` | dgxarley/integration/streaming_repetition_guard.py:477-537 | stops exactly when the share of recent grams that are in the early set reaches the threshold, and then returns that share |
| `StreamingGuard.RepetitionGuard.GramSet` | dgxarley/integration/streaming_repetition_guard.py:503-506 | the set of distinct n-grams of the recent tokens |
| `StreamingGuard.RepetitionGuard.GetCleanText` | dgxarley/integration/streaming_repetition_guard.py:563-575 | the clean text is the text up to the recorded position without trailing whitespace, a prefix of what was fed |
| `StreamingGuard.FeedPiece` | dgxarley/integration/streaming_repetition_guard.py:677-689 | one non-empty piece of one field is fed to that field's guard, which stops exactly when the field's own history says so |
| `StreamingGuard.GuardedStream` | dgxarley/integration/streaming_repetition_guard.py:671-691 | what is yielded is exactly the longest prefix of chunks in which neither the content nor the reasoning projection alone calls for a stop, and the field that stopped it is named |
| `CleanCut.RFindIsLast` | dgxarley/integration/streaming_repetition_guard.py:554-554 | what the reverse search finds is an occurrence within reach, and none begins behind it |
| `CleanCut.CutIsLastOfFirstKind` | dgxarley/integration/streaming_repetition_guard.py:553-561 | the cut is the last end, within reach, of the first marker kind that occurs there; there is none exactly when no kind occurs |
| `CleanCut.CutIsNearestIff` | dgxarley/integration/streaming_repetition_guard.py:553-561 | for all texts and reaches: no marker of any kind ends within reach behind the cut exactly when no later kind ends behind the last occurrence of the first kind that occurs |
| `CleanCut.MarkLoopStartIs` | dgxarley/integration/streaming_repetition_guard.py:543-561 | a report sets the clean position to that cut unless it lies behind it already |
| `CleanCut.MarkLoopStartIsNearestIff` | dgxarley/integration/streaming_repetition_guard.py:543-561 | after a report the clean position is the nearest boundary, as the comment promises, exactly when every later kind of marker last ends in front of the old position or of the last end of the first kind that occurs |
| `CleanCut.CleanTextMeans` | dgxarley/integration/streaming_repetition_guard.py:573-575 | the clean text is what stands in front of the clean position, or everything while there is none, without the spaces at its end |
| `CleanCut.StuckFloods` | dgxarley/integration/streaming_repetition_guard.py:342-386 | a stream of three chunks on which the guard stops with its default thresholds |
| `CleanCut.CutIsNotNearest` | dgxarley/integration/streaming_repetition_guard.py:546-548 | on that stream the clean text ends behind a full stop although a question mark ends nearer to the repetition and within reach |
| `AuthResults.ArClauses` | roles/k8s_infra/files/hermes_email_gateway_patched.py:551-583 | the character loop computes the splitter's specification, including a backslash that ends the text |
| `AuthResults.SplitInvertsPrint` | roles/k8s_infra/files/hermes_email_gateway_patched.py:551-583 | splitting the print of any clause list (plain text, escaped quoted-strings, arbitrarily nested comments) returns the clauses, each comment as one space and quotes verbatim |
| `AuthResults.RefusesExactlyTheMalformed` | roles/k8s_infra/files/hermes_email_gateway_patched.py:576-583 | the result is None exactly for texts that are the print of no clause list |
| `AuthResults.KeptIsSpaced` | roles/k8s_infra/files/hermes_email_gateway_patched.py:551-583 | of an accepted clause nothing changes but its comments, each of which becomes one space |
| `AuthResults.ReadClauses` | roles/k8s_infra/files/hermes_email_gateway_patched.py:551-583 | every accepted text is parsed back into a clause list that prints it |
| `QuoteBlock.BuildQuote` | roles/k8s_infra/files/hermes_email_gateway_patched.py:701-739 | the quote is the header and the quoted text that the budget allows: all lines, or the longest whole-line prefix that fits beside the mark, or nothing |
| `QuoteBlock.WithinBudget` | roles/k8s_infra/files/hermes_email_gateway_patched.py:712-726 | the quoted text never exceeds the budget; when it was cut, it is a proper non-empty prefix of the quoted lines and the mark |
| `QuoteBlock.QuotedTextIsUnique` | roles/k8s_infra/files/hermes_email_gateway_patched.py:712-726 | body and budget determine the quoted text |
| `QuoteBlock.QuoteReadsBack` | roles/k8s_infra/files/hermes_email_gateway_patched.py:707-726 | taking one quote level off gives the body's lines back, or a proper prefix of them and the mark |
| `QuoteBlock.SplitJoin` | roles/k8s_infra/files/hermes_email_gateway_patched.py:707-715 | joining lines and splitting again is the identity |
| `QuoteBlock.UnquoteQuote` | roles/k8s_infra/files/hermes_email_gateway_patched.py:714-714 | every quoted line gains exactly one level |
| `QuoteLedger.PutIsAnUpdate` | roles/k8s_infra/files/hermes_email_gateway_patched.py:1471-1479 | a remembered entry is found, keys stay distinct, the bound of 500 holds, and no other entry changes |
| `QuoteLedger.PutEvictsOldest` | roles/k8s_infra/files/hermes_email_gateway_patched.py:1474-1479 | an entry can only go if it is the oldest and a new key needs its room |
| `QuoteLedger.GetFinds` | roles/k8s_infra/files/hermes_email_gateway_patched.py:1500-1504 | with distinct keys an entry that is present is the one a lookup finds |
| `QuoteLedger.QuoteBook.RememberOriginal` | roles/k8s_infra/files/hermes_email_gateway_patched.py:1459-1479 | the mail gets a fresh record, found by its sender and, if it has one, by its Message-ID |
| `QuoteLedger.QuoteBook.PutBounded` | roles/k8s_infra/files/hermes_email_gateway_patched.py:1472-1475 | assignment, move to the end and the eviction loop |
| `QuoteLedger.QuoteBook.ForgetSenderOriginal` | roles/k8s_infra/files/hermes_email_gateway_patched.py:1481-1484 | only the sender fallback goes |
| `QuoteLedger.QuoteBook.FindRecord` | roles/k8s_infra/files/hermes_email_gateway_patched.py:1498-1506 | the record by Message-ID, else the sender's last mail if it is the same mail or no Message-ID is known |
| `QuoteLedger.QuoteBook.QuoteWithin` | roles/k8s_infra/files/hermes_email_gateway_patched.py:1509-1527 | the fixed part measured with a probe quote leaves the budget that the quote is built for |
| `QuoteLedger.QuoteBook.ClaimQuote` | roles/k8s_infra/files/hermes_email_gateway_patched.py:1486-1531 | a claim takes a free record of the recipient and marks it pending, or changes nothing and returns the body |
| `QuoteLedger.QuoteBook.SettleQuote` | roles/k8s_infra/files/hermes_email_gateway_patched.py:1533-1537 | success makes the record done, failure makes it free again, nothing else changes |
| `QuoteLedger.ClaimIsRight` | roles/k8s_infra/files/hermes_email_gateway_patched.py:1496-1531 | with a quote the text stays within MAX_MESSAGE_LENGTH, begins with the whole body, and quotes a mail of the recipient, the one replied to when a Message-ID is known |
| `QuoteLedger.ClaimSucceedsWhen` | roles/k8s_infra/files/hermes_email_gateway_patched.py:1507-1529 | a send gets a claim exactly when the record is quotable and some line fits |
| `QuoteLedger.FailedSendUndoesClaim` | roles/k8s_infra/files/hermes_email_gateway_patched.py:1606-1613 | claim and failed settlement restore the ledger |
| `QuoteLedger.NextInv` | roles/k8s_infra/files/hermes_email_gateway_patched.py:1459-1537 | every locked section of any thread keeps: pending exactly when one unsettled claim holds the record, done exactly when one successful send quoted it, bounded and truthful lookups |
| `QuoteLedger.RunInv` | roles/k8s_infra/files/hermes_email_gateway_patched.py:1459-1646 | so it holds in every state of every interleaving |
| `QuoteLedger.DoneIsFinal` | roles/k8s_infra/files/hermes_email_gateway_patched.py:1533-1537 | in every run a record that is done stays done |
| `QuoteLedger.QuotedAtMostOnce` | roles/k8s_infra/files/hermes_email_gateway_patched.py:1602-1646 | in every run no record is quoted by two successful sends or held by two senders, and both lookups stay within 500 entries |
| `QuoteMeaning.ClaimsTheRightMail` | roles/k8s_infra/files/hermes_email_gateway_patched.py:1498-1506 | the claimed record has the Message-ID that is replied to, an explicit one going before the thread's; without one it is of the recipient's last mail |
| `QuoteMeaning.LookupFindsWanted` | roles/k8s_infra/files/hermes_email_gateway_patched.py:1500-1504 | the two lookups find exactly the record with that Message-ID, or the sender's last mail if it has it or none is known |
| `QuoteMeaning.ClaimIff` | roles/k8s_infra/files/hermes_email_gateway_patched.py:1496-1529 | exactly when a send gets a claim and on which record: quoting is on, the send is final, the record is the wanted one, free and of the recipient, and a line fits within both limits |
| `QuoteMeaning.ClaimedText` | roles/k8s_infra/files/hermes_email_gateway_patched.py:1530-1531 | what is sent: the reply, a blank line, the header and the quoted lines; without a reply no line breaks come first |
| `QuoteMeaning.RememberedIsWanted` | roles/k8s_infra/files/hermes_email_gateway_patched.py:1459-1479 | a mail that was just remembered is found by a reply to it, with its body, header and sender, and free |
| `QuoteMeaning.ForgottenIsNotFound` | roles/k8s_infra/files/hermes_email_gateway_patched.py:1481-1484 | after its fallback is dropped a sender's mail is not found without a Message-ID |
| `QuoteMeaning.LinesOfBody` | roles/k8s_infra/files/hermes_email_gateway_patched.py:707-707 | the lines are those of the body with its line ends made uniform |
| `QuoteMeaning.QuotedLinesAre` | roles/k8s_infra/files/hermes_email_gateway_patched.py:707-713 | quoted are all lines but the blank ones at both ends, without trailing spaces |
| `QuoteMeaning.OneLevelMore` | roles/k8s_infra/files/hermes_email_gateway_patched.py:714-714 | quoting adds one level to a line that is quoted already as to any other |
| `MailServer.MoveKeepsLive` | roles/k8s_infra/files/hermes_email_gateway_patched.py:940-971 | whatever command fails, and whether or not it was carried out, a mail with a copy not flagged for deletion keeps one: no move leaves a mail in no folder |
| `MailServer.MoveLosesNothingIff` | roles/k8s_infra/files/hermes_email_gateway_patched.py:961-967 | a move can lose no mail at all, whatever the answers, exactly when every mail is the moved one or has a copy that the fallback EXPUNGE cannot take |
| `MailServer.WorstExpungesAll` | roles/k8s_infra/files/hermes_email_gateway_patched.py:963-967 | the sequence of answers under which a mail the user flagged as deleted is lost |
| `MailServer.MoveSucceeds` | roles/k8s_infra/files/hermes_email_gateway_patched.py:949-968 | on a server that does what it knows how to (MOVE may be unknown, by NO or by an exception, and so may UID EXPUNGE) the mail is in the destination and no longer in the source; all other copies stay, except that a plain EXPUNGE takes those flagged as deleted in the same folder |
| `MailServer.MovedIff` | roles/k8s_infra/files/hermes_email_gateway_patched.py:949-971 | a move is reported as done exactly when MOVE is, or the copy is and no exception follows it but that of the UID EXPUNGE: a refused STORE or EXPUNGE goes unnoticed |
| `MailServer.MoveLeavesOthers` | roles/k8s_infra/files/hermes_email_gateway_patched.py:949-968 | whatever is answered, a copy that is not moved is left as it is or expunged |
| `MailServer.MoveFills` | roles/k8s_infra/files/hermes_email_gateway_patched.py:949-968 | no mail is invented, and only the moved one can come into the destination |
| `MailServer.MoveDrains` | roles/k8s_infra/files/hermes_email_gateway_patched.py:949-968 | a folder that is not the destination gains nothing |
| `MailServer.MoveKeepsPlace` | roles/k8s_infra/files/hermes_email_gateway_patched.py:949-968 | whatever is answered, a copy that is neither the moved one nor flagged as deleted stays as it is |
| `MailPoll.Trim` | roles/k8s_infra/files/hermes_email_gateway_patched.py:856-866 | above the cap half of it is kept, and every UID dropped is lower than every UID kept; nothing is dropped of a cap below 2 |
| `MailLifecycle.RememberInv` | roles/k8s_infra/files/hermes_email_gateway_patched.py:1201-1202 | remembering a UID keeps the invariant, and the UID is remembered afterwards unless one was forgotten |
| `MailLifecycle.MoveInv` | roles/k8s_infra/files/hermes_email_gateway_patched.py:940-971 | a move that is admitted keeps the invariant for all answers: nothing lost, at most one copy that a later poll would fetch of a mail not taken and none of one that was, Working only holds fetched mails with a Message-ID |
| `MailLifecycle.TakeInv` | roles/k8s_infra/files/hermes_email_gateway_patched.py:1240-1243 | a mail that was not taken, and of which no copy would be fetched any more, may be taken |
| `MailLifecycle.WaitingIsFresh` | roles/k8s_infra/files/hermes_email_gateway_patched.py:1218-1219 | an unseen INBOX mail whose UID is not remembered was never taken, and it is the only such copy |
| `MailLifecycle.ConsumedInv` | roles/k8s_infra/files/hermes_email_gateway_patched.py:1199-1209 | rejecting a mail keeps the invariant whatever fails, also with Done in INBOX |
| `MailLifecycle.BodyInv` | roles/k8s_infra/files/hermes_email_gateway_patched.py:1235-1271 | so do fetching the body and parking the mail in Working |
| `MailLifecycle.FinalizeMay` | roles/k8s_infra/files/hermes_email_gateway_patched.py:998-1019 | what finalizing moves to INBOX, should that be Done, was seen |
| `MailLifecycle.VisitTakes` | roles/k8s_infra/files/hermes_email_gateway_patched.py:1219-1271 | what a visit takes is exactly what it returns, and its record carries the mail's own Message-ID and names INBOX or Working |
| `MailLifecycle.FetchInv` | roles/k8s_infra/files/hermes_email_gateway_patched.py:1211-1281 | one fetch, with any failure in the middle: the invariant holds and the results are exactly the mails newly taken |
| `MailRuns.PollInv` | roles/k8s_infra/files/hermes_email_gateway_patched.py:1165-1197 | one poll keeps the invariant, and it dispatches, in order, the mails it fetched up to the first whose dispatch raises |
| `MailRuns.AllDispatchedIff` | roles/k8s_infra/files/hermes_email_gateway_patched.py:1187-1188 | everything that was fetched is dispatched exactly when no mail before the last one raises |
| `MailRuns.ReachedIsFirstRaise` | roles/k8s_infra/files/hermes_email_gateway_patched.py:1187-1188 | the loop ends behind the first dispatch that raises, and only there |
| `MailRuns.RunIsSafe` | roles/k8s_infra/files/hermes_email_gateway_patched.py:1154-1281 | in every run, whatever fails, no mail is lost, what is in Working can be found again by Message-ID, and no mail is dispatched twice while Done is not INBOX or no UID was forgotten; forgetting takes more UIDs than the cap |
| `MailRuns.StaysStranded` | roles/k8s_infra/files/hermes_email_gateway_patched.py:1165-1281 | a mail that was fetched and not dispatched is never dispatched: in every later state of every run its copy is seen and where it was, as long as no other mail's Message-ID search finds it |
| `MailRepeats.AtMostOnceIff` | roles/k8s_infra/files/hermes_email_gateway_patched.py:856-866 | no run dispatches a mail twice exactly when Done is not INBOX or the cap is below 2; the program's cap is 2000 and nothing forbids Done to be INBOX |
| `MailRepeats.Forgets` | roles/k8s_infra/files/hermes_email_gateway_patched.py:856-1209 | with Done in INBOX a mail that is rejected in one poll after the other, while STORE and MOVE are refused and COPY works, gets one copy more each time, and behind the cap its first UID is forgotten |
| `MailRepeats.DispatchesBoth` | roles/k8s_infra/files/hermes_email_gateway_patched.py:1216-1271 | a mail of which two unseen copies are not remembered is dispatched twice by one poll |
| `MailRepeats.Repeats` | roles/k8s_infra/files/hermes_email_gateway_patched.py:856-1209 | so for every cap of at least 2 there is a run that dispatches a mail twice |
| `MailDelivery.FetchServes` | roles/k8s_infra/files/hermes_email_gateway_patched.py:1211-1281 | when commands succeed, every unseen mail whose UID is not remembered is fetched if accepted and parsed, stays in INBOX if it does not parse, and goes to Done if rejected; every result is in the folder it names. A mail flagged as deleted is included unless a plain EXPUNGE runs |
| `MailDelivery.MoveAllClears` | roles/k8s_infra/files/hermes_email_gateway_patched.py:1010-1019 | when commands succeed finalizing only moves mails to Done, and leaves nothing in the source folder that the search finds |
| `MailDelivery.DispatchFinishes` | roles/k8s_infra/files/hermes_email_gateway_patched.py:1402-1455 | whatever gate and handler do, a mail that can be found ends in Done and has left its source, if it has a Message-ID and there is a Done |
| `MailDelivery.PollFinishes` | roles/k8s_infra/files/hermes_email_gateway_patched.py:1165-1197 | when commands succeed every mail the poll gets to dispatch is finished, and all others it fetched can still be found |
| `MailDelivery.WaitingIsFinished` | roles/k8s_infra/files/hermes_email_gateway_patched.py:1165-1281 | a waiting mail that is accepted and parses is dispatched and finished by a reliable poll in which nothing raises |
| `MailRetry.RemembersOnlySettled` | roles/k8s_infra/files/hermes_email_gateway_patched.py:1218-1242 | the UID of a mail that waits enters the memory only in a poll whose gate rejected it or whose fetch of its body was answered |
| `MailRetry.SettledIsRemembered` | roles/k8s_infra/files/hermes_email_gateway_patched.py:1201-1242 | one visit of such a mail remembers its UID exactly when it settles it, while there is room |
| `MailRetry.PollRefused` | roles/k8s_infra/files/hermes_email_gateway_patched.py:1237-1239 | a poll in which header or body of a waiting mail is refused leaves it as it was, unseen and not remembered |
| `MailRetry.RunRefused` | roles/k8s_infra/files/hermes_email_gateway_patched.py:1237-1239 | so does every run of such polls, whatever else arrives and is handled |
| `MailRetry.RetriedIsFinished` | roles/k8s_infra/files/hermes_email_gateway_patched.py:1165-1281 | after any such run one reliable poll that accepts it, and in which nothing raises, dispatches and finishes the mail |
| `MailRetry.FailureLeavesRest` | roles/k8s_infra/files/hermes_email_gateway_patched.py:1240-1241 | a connection that breaks leaves the rest of the batch for the next poll |
| `MailRetry.RejectedIsMoved` | roles/k8s_infra/files/hermes_email_gateway_patched.py:1203-1209 | a rejected mail goes to Done although the server refuses to flag it |
| `MailRetry.RecordIsRight` | roles/k8s_infra/files/hermes_email_gateway_patched.py:1257-1271 | if no answer was lost the record names a folder that the mail is in, whatever was refused |
| `MailStranded.BatchIsStranded` | roles/k8s_infra/files/hermes_email_gateway_patched.py:1187-1188 | every mail fetched by a reliable poll behind the one that raises stays, in all later states of all runs, seen in the folder its record names and not dispatched |
| `MailStranded.TwoMails` | roles/k8s_infra/files/hermes_email_gateway_patched.py:1405-1455 | an instance: two mails, the handler raises on the first, and the second stays seen in Working in every later state |
| `MailGateway.Gateway.constructor` | roles/k8s_infra/files/hermes_email_gateway_patched.py:846-854 | an adapter starts with nothing taken and the invariant |
| `MailGateway.Gateway.Deliver` | roles/k8s_infra/files/hermes_email_gateway_patched.py:1216-1217 | new mail is in INBOX, unseen |
| `MailGateway.Gateway.ImapMove` | roles/k8s_infra/files/hermes_email_gateway_patched.py:941-971 | the command sequence with its fallbacks computes the specified result for every choice of answers |
| `MailGateway.Gateway.TrimSeenUids` | roles/k8s_infra/files/hermes_email_gateway_patched.py:856-866 | above the cap the highest half of the UIDs is kept; of a cap below 2 everything |
| `MailGateway.Gateway.MarkUidConsumed` | roles/k8s_infra/files/hermes_email_gateway_patched.py:1199-1209 | remember, trim, flag, move to Done: state and exception are those of the specification |
| `MailGateway.Gateway.Park` | roles/k8s_infra/files/hermes_email_gateway_patched.py:1257-1271 | the state and the record of the move to Working |
| `MailGateway.Gateway.FetchBody` | roles/k8s_infra/files/hermes_email_gateway_patched.py:1235-1271 | the flag, the memory, the mail taken and its record, or the failure |
| `MailGateway.Gateway.FetchOne` | roles/k8s_infra/files/hermes_email_gateway_patched.py:1218-1271 | skipped, ignored, rejected or fetched, as specified |
| `MailGateway.Gateway.FetchNewMessages` | roles/k8s_infra/files/hermes_email_gateway_patched.py:1211-1281 | the loop over the search computes the specified visits, and a failure keeps what was fetched before it |
| `MailGateway.Gateway.FinalizeMessage` | roles/k8s_infra/files/hermes_email_gateway_patched.py:991-1022 | the loop over what the search finds moves everything to Done, as specified |
| `MailGateway.Gateway.DispatchMessage` | roles/k8s_infra/files/hermes_email_gateway_patched.py:1402-1455 | the mail is finalized, and then the exception of gate or handler goes on to the caller |
| `MailGateway.Gateway.DispatchAll` | roles/k8s_infra/files/hermes_email_gateway_patched.py:1187-1188 | the loop stops at the first exception, and raises exactly when some dispatch does |
| `MailGateway.Gateway.CheckInbox` | roles/k8s_infra/files/hermes_email_gateway_patched.py:1165-1197 | one poll, which keeps the invariant |
| `MailGateway.StepArrives` | roles/k8s_infra/files/hermes_email_gateway_patched.py:1165-1197 | a poll brings no mail in |
| `MailGateway.Run` | roles/k8s_infra/files/hermes_email_gateway_patched.py:1154-1163 | a run of the adapter, event after event, reaches the specified state: nothing is lost, and nothing dispatched twice while Done is not INBOX or no UID was forgotten |
| `MailGateway.RunTwice` | roles/k8s_infra/files/hermes_email_gateway_patched.py:856-1209 | with Done in INBOX the adapter dispatches the one mail of that run twice |
| `PagedLogits.StoreBlock` | roles/k8s_dgx/files/sglang_patches/p35_dsa_indexer_triton_logits.py:88-90 | a masked block store changes exactly the lanes below MAX_SEQ of its own row |
| `PagedLogits.Program` | roles/k8s_dgx/files/sglang_patches/p35_dsa_indexer_triton_logits.py:85-116 | one program changes exactly the cells of its page in its row, reading in bounds only, and nothing of page table or cache behind the end of the sequence |
| `PagedLogits.Launch` | roles/k8s_dgx/files/sglang_patches/p35_dsa_indexer_triton_logits.py:119-163 | for every schedule of the programs, repetitions included, and any initial buffer, every cell ends with its launch value |
| `PagedLogits.LaunchInterleaved` | roles/k8s_dgx/files/sglang_patches/p35_dsa_indexer_triton_logits.py:114-163 | the same when the programs interleave between the stores of single lanes, in any order |
| `PagedLogits.LaneFinalizes` | roles/k8s_dgx/files/sglang_patches/p35_dsa_indexer_triton_logits.py:88-116 | the store of a lane finalizes its cell and changes no other |
| `PagedLogits.ProgramFinalizes` | roles/k8s_dgx/files/sglang_patches/p35_dsa_indexer_triton_logits.py:85-116 | a program gives the cells of its page their final value and leaves final cells final, which is why the order is free |
| `PagedLogits.WritesDisjoint` | roles/k8s_dgx/files/sglang_patches/p35_dsa_indexer_triton_logits.py:88-90 | two programs never store to the same address |
| `PagedLogits.PrefillExactlyWhenNeeded` | roles/k8s_dgx/files/sglang_patches/p35_dsa_indexer_triton_logits.py:137-146 | the buffer is filled beforehand exactly when the grid leaves a cell alone; with a table of max_pages columns it leaves none |
| `PagedLogits.LoadsAreViews` | roles/k8s_dgx/files/sglang_patches/p35_dsa_indexer_triton_logits.py:104-107 | the kernel's addresses of query and weights are the reference's views |
| `PagedLogits.ValueAddress` | roles/k8s_dgx/files/sglang_patches/p30_dsa_torch_backend.py:288-298 | row p * 64 + i of the gathered values is bytes i * 128 up to (i + 1) * 128 of page p |
| `PagedLogits.ScaleAddress` | roles/k8s_dgx/files/sglang_patches/p30_dsa_torch_backend.py:289-301 | scale p * 64 + i of the gathered scales is word i behind the values of page p |
| `PagedLogits.SameBytes` | roles/k8s_dgx/files/sglang_patches/p35_dsa_indexer_triton_logits.py:97-102 | the kernel's two byte addresses of a row are those of the gathered page, also in the cache seen as fp32 |
| `PagedLogits.RowsAreLoads` | roles/k8s_dgx/files/sglang_patches/p30_dsa_torch_backend.py:291-303 | the reference's rows are the kernel's loads |
| `PagedLogits.ReferenceNeedsMore` | roles/k8s_dgx/files/sglang_patches/p30_dsa_torch_backend.py:285-292 | wherever the reference is defined the kernel's precondition holds |
| `PagedLogits.ScoreOfRow` | roles/k8s_dgx/files/sglang_patches/p30_dsa_torch_backend.py:305-311 | each score of the whole-tensor steps (bmm, relu, times weight, sum over heads, times scale) is the kernel's score of that row |
| `PagedLogits.LogitIs` | roles/k8s_dgx/files/sglang_patches/p35_dsa_indexer_triton_logits.py:87-116 | in exact arithmetic every stored logit is the scale of its position times the sum over the heads of weight times positive part of the dot product, with all operands named by their addresses; -inf behind the sequence and outside the grid |
| `PagedLogits.LaunchIsReference` | roles/k8s_dgx/files/sglang_patches/p30_dsa_torch_backend.py:249-321 | kernel and dense reference give the same logit, or the same -inf, in every cell |
| `LoopDetector.DetectLoops` | dgxarley/integration/repetition_detector.py:316-391 | sound (every hit is exactly its number of adjacent copies and cannot be extended, none lies inside an earlier one), complete (every position where at least min_repetitions, 2 or more, non-blank copies of a tried length begin lies in a hit), sorted by size; the score is the share of the text that only repeats, at most 1 |
| `LoopDetector.ScanLength` | dgxarley/integration/repetition_detector.py:352-385 | the jumping scan for one length keeps soundness and covers every position of that length |
| `LoopDetector.CountCopies` | dgxarley/integration/repetition_detector.py:360-367 | counts exactly the adjacent copies of the block |
| `LoopDetector.Jump` | dgxarley/integration/repetition_detector.py:369-383 | everything jumped over lies in the new hit or in the earlier one around it |
| `LoopDetector.NoRoomLeft` | dgxarley/integration/repetition_detector.py:353-353 | stopping where two copies no longer fit misses nothing |
| `LoopDetector.TwoCopiesFit` | dgxarley/integration/repetition_detector.py:351-351 | stopping at half the text length misses no length |
| `LoopDetector.SortIsStable` | dgxarley/integration/repetition_detector.py:390-390 | hits of the same size keep their order |
| `LoopDetector.WastedAddsUp` | dgxarley/integration/repetition_detector.py:387-387 | the wasted characters of hits add up |
| `LoopDetector.WastedByOne` | dgxarley/integration/repetition_detector.py:387-387 | a hit wastes all its characters but those of one copy |
| `LoopDetector.ScoreMeans` | dgxarley/integration/repetition_detector.py:388-388 | the score is their share of the text, at most 1 |
| `LoopDetector.SortIsSorted` | dgxarley/integration/repetition_detector.py:390-390 | the reported list is a descending permutation of the found one |
| `GlobCompiler.PatternToRegex` | repo_scripts/check_dist_secrets.py:73-102 | the loop emits the tokens of the anchored pattern, and they match a path exactly when the pattern does: from the root if it has a slash, at any depth if not |
| `GlobCompiler.CompilerKeepsMeaning` | repo_scripts/check_dist_secrets.py:84-102 | over text without newlines the emitted expression accepts a path exactly when a direct recursive glob matcher does |
| `GlobCompiler.SlashFreeRuleIff` | repo_scripts/check_dist_secrets.py:76-102 | a pattern without slash obeys the rule (it matches a path at any depth exactly when it matches the last component) for all paths exactly when no two stars in a row stand behind its leading run of stars |
| `GlobCompiler.SlashFreeMatchesLastComponent` | repo_scripts/check_dist_secrets.py:76-102 | the rule itself under that condition, path by path |
| `GlobCompiler.LateStarsCross` | repo_scripts/check_dist_secrets.py:90-92 | for every other pattern without slash: a path it matches although it does not match the last component |
| `GlobCompiler.AnchoringMeans` | repo_scripts/check_dist_secrets.py:81-102 | a pattern with a slash matches from the root, any other the path or what is behind one of its slashes |
| `GlobCompiler.PlainMatchesItself` | repo_scripts/check_dist_secrets.py:99-101 | a pattern without wildcards matches itself only |
| `GlobCompiler.WildcardsMean` | repo_scripts/check_dist_secrets.py:86-98 | one star is any text within a component, a question mark one character of it, two stars anything, two stars and a slash any directories |
| `GlobCompiler.MatchesAreLonger` | repo_scripts/check_dist_secrets.py:86-101 | nothing shorter than the pattern without its stars matches |
| `GlobCompiler.AtSomeDepth` | repo_scripts/check_dist_secrets.py:81-82 | a pattern without slash matches the path itself or what is behind one of its slashes |
| `GlobCompiler.DoubleStarCrossesComponents` | repo_scripts/check_dist_secrets.py:90-92 | an instance: a** matches a/b but not b |
| `Throughput.Peak` | dgxarley/integration/gsm8k_chat.py:274-283 | the sweep's peak is the maximum over all times of the summed rates of the requests active then, intervals being half-open |
| `Throughput.LoadMeans` | dgxarley/integration/gsm8k_chat.py:274-278 | the load is the sum over the running requests of their tokens spread evenly over their time |
| `Throughput.PeakIsALoad` | dgxarley/integration/gsm8k_chat.py:279-283 | the peak is reached at some time, because at ties ends sort before starts |
| `Throughput.LoadIsSum` | dgxarley/integration/gsm8k_chat.py:275-278 | the events up to a time add up to the load at that time |
| `Throughput.SortSum` | dgxarley/integration/gsm8k_chat.py:279-279 | sorting keeps what the events up to a time add up to |
| `Throughput.SumIsCurrent` | dgxarley/integration/gsm8k_chat.py:280-282 | in sorted order that sum is a value the running total takes |
| `Throughput.PeakOutlastsTies` | dgxarley/integration/gsm8k_chat.py:279-283 | a value that no other exceeds is still reached when all events of its time are in |
| `Throughput.BestWindow` | dgxarley/integration/gsm8k_chat.py:243-247 | `best` is the maximum of the sums of all windows of that width |
| `Throughput.AddRow` | dgxarley/integration/gsm8k_chat.py:224-232 | a counted request adds to each bin what arrived in it, scaled from characters to its completion tokens |
| `Throughput.ScaledTotal` | dgxarley/integration/gsm8k_chat.py:230-232 | the scaled timeline adds up to the completion tokens |
| `Throughput.Bin` | dgxarley/integration/gsm8k_chat.py:221-242 | each entry of the series is what the counted requests add to that bin, and all of them add up to their tokens |
| `PatchEngine.Patch.Apply` | roles/k8s_dgx/files/sglang_patches/_patchlib.py:169-266 | each edit method applies its specification to the buffer, or drifts and leaves it; `changed` is set exactly when the probe was absent |
| `PatchEngine.Patch.Run` | roles/k8s_dgx/files/sglang_patches/_patchlib.py:268-295 | after a run the file is untouched or has all edits applied, nothing in between |
| `PatchEngine.AlreadyAppliedIffSettled` | roles/k8s_dgx/files/sglang_patches/_patchlib.py:289-291 | a run reports nothing to do exactly when the file holds the group marker or every probe, and then changes nothing |
| `PatchEngine.SeriesIdempotentIffSettled` | roles/k8s_dgx/files/sglang_patches/_patchlib.py:268-295 | every report of a pass over a series sharing a file is nothing to do exactly when every gated patch is settled in the file the pass begins with; then the file stays as it is |
| `PatchEngine.SeriesWritesIffUnsettled` | roles/k8s_dgx/files/sglang_patches/_patchlib.py:268-295 | a pass without drift writes the file exactly when some gated patch is not settled; a pass that writes nothing, drift or not, leaves the file as it is |
| `PatchEngine.InsertAfterIsIdempotent` | roles/k8s_dgx/files/sglang_patches/_patchlib.py:260-266 | inserting behind an anchor with a marker from the inserted text is done once, although the anchor is still there |
| `PatchEngine.ReplacedTextIsThere` | roles/k8s_dgx/files/sglang_patches/_patchlib.py:173-185 | after a replacement the new text is in the buffer, so the default probe works at once |
| `PatchEngine.SingleReplaceIsIdempotent` | roles/k8s_dgx/files/sglang_patches/_patchlib.py:169-185 | a patch of one replace with the default probe is idempotent on every file |
| `PatchEngine.RewrittenProbeIsLost` | roles/k8s_dgx/files/sglang_patches/p31_dsa_flashinfer_gather.py:305-314 | for all files and texts: when two patches have both edited a file, a second pass finds nothing to do exactly when the second left the first one's text whole; if it did not but kept the anchor, the first edits the file again, the case the group guard is for |
| `PatchEngine.RewrittenProbeExample` | roles/k8s_dgx/files/sglang_patches/p31_dsa_flashinfer_gather.py:305-314 | an instance of the failing half |
| `PatchMeaning.ReplaceFirstMeans` | roles/k8s_dgx/files/sglang_patches/_patchlib.py:184-184 | the first occurrence is replaced and nothing else changes |
| `PatchMeaning.ReplaceEveryMeans` | roles/k8s_dgx/files/sglang_patches/_patchlib.py:204-204 | every occurrence, from left to right without overlap, is replaced |
| `PatchMeaning.ReplaceEmptyMeans` | roles/k8s_dgx/files/sglang_patches/_patchlib.py:204-204 | an empty text is replaced in front of every character and at the end |
| `PatchMeaning.FirstVariantMeans` | roles/k8s_dgx/files/sglang_patches/_patchlib.py:230-235 | the first of several spellings that occurs is replaced; there is none exactly when none occurs |
| `PatchMeaning.EditMeans` | roles/k8s_dgx/files/sglang_patches/_patchlib.py:169-242 | an edit whose probe is there does nothing, and one that has neither probe nor anchor drifts |
| `PatchMeaning.SettledMeans` | roles/k8s_dgx/files/sglang_patches/_patchlib.py:179-185 | nothing is left to do exactly when the file holds the group marker or every edit's probe |
| `PatchMeaning.DriftMeans` | roles/k8s_dgx/files/sglang_patches/_patchlib.py:286-288 | a body drifts exactly when some edit meets a buffer with neither its probe nor its anchor |
| `PatchMeaning.ReportMeans` | roles/k8s_dgx/files/sglang_patches/_patchlib.py:268-295 | which report a run makes, each exactly when, and that only a patch that reports so writes |
| `TensorSplit.ColumnsRejoin` | roles/k8s_dgx/files/sglang_cpu_shard.py:240-260 | the column shards of all ranks, side by side, are the tensor |
| `TensorSplit.RowsRejoin` | roles/k8s_dgx/files/sglang_cpu_shard.py:263-286 | the row shards of all ranks, one below the other, are the tensor |
| `TensorSplit.VocabRejoins` | roles/k8s_dgx/files/sglang_cpu_shard.py:289-310 | the vocabulary shards are the tensor and then zero rows; rows beyond the padded vocabulary are lost, so the tensor is kept exactly when it has no such rows |
| `TensorSplit.SlicesJoin` | roles/k8s_dgx/files/sglang_cpu_shard.py:259-310 | equal consecutive slices join to the prefix they cover |
| `ExpertSharding.ProcessMoeExperts` | roles/k8s_dgx/files/sglang_cpu_shard.py:500-577 | the loop over the local experts fills the fused and the down tensor with exactly the experts of this rank, split by inner tensor parallelism, or fails as the assertions do |
| `ExpertSharding.SplitInner` | roles/k8s_dgx/files/sglang_cpu_shard.py:569-575 | both tensors are split expert by expert |
| `ExpertSharding.ExpertParallelism` | roles/k8s_dgx/files/sglang_cpu_shard.py:503-508 | for ep == tp the ranks hold the experts in order, each once and whole, and all of them exactly when tp divides their number |
| `ExpertSharding.TensorParallelism` | roles/k8s_dgx/files/sglang_cpu_shard.py:509-514 | for ep at most 1 the parts of an expert on all ranks are that expert: gate and up side by side, down one below the other |
| `ExpertSharding.HoldEverythingIff` | roles/k8s_dgx/files/sglang_cpu_shard.py:503-514 | when no rank fails and there is something to hold, the ranks together have every column and row of every expert, with its contents, exactly when there are no expert groups, or no tensor parallelism inside them and tp * (n / ep) reaches the number of experts |
| `ExpertSharding.PartHolds` | roles/k8s_dgx/files/sglang_cpu_shard.py:503-514 | a position inside a local expert's part is held with the contents the expert has there, because the part's rows are slices of its rows |
| `ExpertSharding.PartIsSlice` | roles/k8s_dgx/files/sglang_cpu_shard.py:240-286 | every row of a part is that slice of the expert's row, and the rows of its down part are that slice of the rows |
| `ExpertSharding.EachExpertInOneShard` | roles/k8s_dgx/files/sglang_cpu_shard.py:503-508 | in the latter case every expert is in one shard, whole |
| `ExpertSharding.MixedLoses` | roles/k8s_dgx/files/sglang_cpu_shard.py:507-508 | with tensor parallelism inside expert groups the last column and the last row of every expert are on no rank |
| `ExpertSharding.MixedParallelismLosesColumns` | roles/k8s_dgx/files/sglang_cpu_shard.py:507-508 | there every local row is the first part of the expert's row |
| `ExpertSharding.PairOnFourRanks` | roles/k8s_dgx/files/sglang_cpu_shard.py:503-514 | an instance: two experts on four ranks in two groups |
| `ShardWriting.ShardWriter.constructor` | roles/k8s_dgx/files/sglang_cpu_shard.py:742-755 | a new writer has written nothing, whatever lies in the directory |
| `ShardWriting.ShardWriter.Add` | roles/k8s_dgx/files/sglang_cpu_shard.py:757-767 | the tensors are buffered in order, a part is written exactly when the limit is reached, and the buffer stays below the limit between calls |
| `ShardWriting.ShardWriter.Flush` | roles/k8s_dgx/files/sglang_cpu_shard.py:769-786 | a non-empty buffer becomes the next part, an empty one writes no file |
| `ShardWriting.ShardWriter.WriteIndex` | roles/k8s_dgx/files/sglang_cpu_shard.py:961-968 | the index sends every name of a written part to the last part that holds it |
| `ShardWriting.ConservesAdd` | roles/k8s_dgx/files/sglang_cpu_shard.py:763-765 | adding keeps: the parts and the buffer, later ones first, hold the last tensor of every name added, and no name twice if none was added twice |
| `ShardWriting.ConservesFlush` | roles/k8s_dgx/files/sglang_cpu_shard.py:775-786 | so does flushing |
| `ShardWriting.IndexFindsTheLast` | roles/k8s_dgx/files/sglang_cpu_shard.py:961-968 | for any sequence of adds the index names exactly what was added, and the named part holds the last tensor of that name |
| `ShardWriting.EachTensorInOneFile` | roles/k8s_dgx/files/sglang_cpu_shard.py:742-795 | with distinct names every added tensor is in exactly one numbered part, the indexed one |
| `ShardWriting.Run` | roles/k8s_dgx/files/sglang_cpu_shard.py:895-968 | a whole run of batches, last flush and index ends in such a state |
| `VersionOrder.RunCountsWhole` | dgxarley/k3shelperstuff/pin_drift.py:521-522 | a run of digits counts whole unless a letter follows; then none of it counts |
| `VersionOrder.BacktrackIsAllOrNothing` | dgxarley/k3shelperstuff/pin_drift.py:522-522 | giving digits back never makes the lookahead hold |
| `VersionOrder.SkipsOtherText` | dgxarley/k3shelperstuff/pin_drift.py:522-522 | text without digits contributes nothing |
| `VersionOrder.ReadingInvertsPrinting` | dgxarley/k3shelperstuff/pin_drift.py:505-522 | reading a dotted version, with any digit-free text before it and any suffix that does not begin with a letter, returns its components |
| `VersionOrder.FlavourIsIgnored` | dgxarley/k3shelperstuff/pin_drift.py:482-502 | a running tag of another flavour has the pinned version exactly when the components are equal |
| `VersionOrder.FirstDifference` | dgxarley/k3shelperstuff/pin_drift.py:547-547 | `classify` always finds its differing index, the first, and there the candidate is greater |
| `VersionOrder.ClassifyMonotone` | dgxarley/k3shelperstuff/pin_drift.py:525-548 | a candidate that is not smaller is never judged milder (CURRENT, PATCH, MINOR, MAJOR), at the pin's precision |
| `VersionOrder.VerdictIsTheSeverest` | dgxarley/k3shelperstuff/pin_drift.py:704-712 | the verdict is the severest of all candidates', and CURRENT exactly when no candidate is newer at the pin's precision |
| `VersionOrder.AheadOfAll` | dgxarley/k3shelperstuff/pin_drift.py:714-716 | the pin is called ahead exactly when it is greater than every candidate |
| `VersionOrder.WithinMajorIsTheGreatest` | dgxarley/k3shelperstuff/pin_drift.py:719-722 | on a major upgrade the note names the greatest tag of the pinned major, exactly when one is newer |
| `VersionOrder.KeylessTagBreaksMajorReports` | dgxarley/k3shelperstuff/pin_drift.py:720-720 | a matching tag without a number raises exactly when the report is a major upgrade |
| `VersionOrder.SortSorted` | dgxarley/k3shelperstuff/pin_drift.py:705-707 | the candidates are a sorted permutation of the matching tags |
| `VersionMeaning.StatusMeans` | dgxarley/k3shelperstuff/pin_drift.py:543-548 | major, minor or patch is the component at which the candidate is greater, the first, the second or a later one, nothing before it differing; a candidate is newer exactly when there is one |
| `VersionMeaning.OrderMeans` | dgxarley/k3shelperstuff/pin_drift.py:545-545 | versions are compared by the first component that differs, and a beginning is smaller |
| `VersionMeaning.FindingMeans` | dgxarley/k3shelperstuff/pin_drift.py:703-722 | a finding names the newest tag, by number and then by name, its status, and whether the pin is ahead of it or covers it as a floating tag |
| `VersionMeaning.NumbersInWords` | dgxarley/k3shelperstuff/pin_drift.py:516-522 | the example of the documentation: a number that runs into a letter belongs to a word |
| `EnvFile.ParseEnv` | roles/k8s_infra/files/hermes_merge_config.py:68-78 | the line loop reads the specified dict |
| `EnvFile.WriteEnv` | roles/k8s_infra/files/hermes_merge_config.py:135-137 | the writing loop prints the dict |
| `EnvFile.ParseIsClean` | roles/k8s_infra/files/hermes_merge_config.py:68-78 | whatever a file says, what is read from it can be written and read again |
| `EnvFile.ParseInvertsPrint` | roles/k8s_infra/files/hermes_merge_config.py:68-137 | reading what was written gives the dict back, in order |
| `EnvFile.UpdateGet` | roles/k8s_infra/files/hermes_merge_config.py:133-134 | ops-managed variables win, all others are kept |
| `EnvFile.NextIsFinal` | roles/k8s_infra/files/hermes_merge_config.py:133-137 | after a start the file holds ops' variables and otherwise the user's, and the next start leaves it as it is, to the character |
| `ConfigMerge.DeepOverride` | roles/k8s_infra/files/hermes_merge_config.py:59-64 | the recursion over the items of ops computes the override, in any order of the items |
| `ConfigMerge.OverrideByPath` | roles/k8s_infra/files/hermes_merge_config.py:59-64 | every value of ops that is not a mapping is found at its path, and every path ops does not shadow has what the user had there |
| `ConfigMerge.OverrideTwice` | roles/k8s_infra/files/hermes_merge_config.py:59-64 | overriding again by the same document changes nothing |
| `ConfigMerge.PutAbsorbs` | roles/k8s_infra/files/hermes_merge_config.py:106-115 | a value put in after an override survives the next override and put |
| `ConfigMerge.MergeByNameTwice` | roles/k8s_infra/files/hermes_merge_config.py:92-98 | merging the merged and keyed provider list again gives the same list |
| `ConfigMerge.InjectKeys` | roles/k8s_infra/files/hermes_merge_config.py:122-128 | the loop gives each provider without a key the one the secrets hold under its sanitized name |
| `ConfigMerge.MergeProviders` | roles/k8s_infra/files/hermes_merge_config.py:90-128 | the steps on custom_providers |
| `ConfigMerge.InjectModelKeys` | roles/k8s_infra/files/hermes_merge_config.py:106-115 | the key goes into `model`, made if missing, and into an existing vision model; a model that is no mapping raises |
| `ConfigMerge.Merge` | roles/k8s_infra/files/hermes_merge_config.py:79-128 | the merged document, top-level key by top-level key, or the exception |
| `ConfigMerge.MergedByPath` | roles/k8s_infra/files/hermes_merge_config.py:79-128 | outside custom_providers and the two places of the secret the result is the override |
| `ConfigMerge.ModelHasTheKey` | roles/k8s_infra/files/hermes_merge_config.py:106-108 | the key of the secrets ends up in the model, whatever was there |
| `ConfigMerge.UserProvidersKeptIff` | roles/k8s_infra/files/hermes_merge_config.py:88-98 | the comment says user-added providers are kept: they are exactly when ops has no custom_providers or a list with entries |
| `ConfigMerge.MergeIsFinal` | roles/k8s_infra/files/hermes_merge_config.py:79-128 | the next start on the merged document neither fails nor changes anything |
| `ConfigMerge.Start` | roles/k8s_infra/files/hermes_merge_config.py:79-137 | one start on both files; a merge that raises leaves both |
| `ConfigMerge.StartIsFinal` | roles/k8s_infra/files/hermes_merge_config.py:79-137 | a start on what a start left changes neither file |
| `MergeMeaning.ParseMeans` | roles/k8s_infra/files/hermes_merge_config.py:68-78 | for each variable the value of the last line that assigns it: no comment, the first "=" between the stripped name and the value |
| `MergeMeaning.BreakEndsALine` | roles/k8s_infra/files/hermes_merge_config.py:72-72 | a line break ends a line |
| `MergeMeaning.ProviderKeyMeans` | roles/k8s_infra/files/hermes_merge_config.py:122-128 | a provider gets the secret named CUSTOM_PROVIDER, its name in capitals, API_KEY, exactly if it has neither a key nor the name of a variable for one and that secret is more than spaces |
| `MergeMeaning.ModelMeans` | roles/k8s_infra/files/hermes_merge_config.py:106-108 | the OPENAI_API_KEY goes into the model, which is made if missing |
| `MergeMeaning.VisionMeans` | roles/k8s_infra/files/hermes_merge_config.py:109-115 | it goes into the vision model only if there is one |
| `MergeMeaning.ProvidersMean` | roles/k8s_infra/files/hermes_merge_config.py:92-98 | the entries of ops come first and in order; all others are the user's under names that ops does not use |

## Left out

- `reset` and the token estimates of `ThinkingParser`; the token estimate and `get_stats` of the guard: plain field reads.
- Mixed `reasoning_content` and inline streams: `ThinkingParsing.ThinkingParser.Feed` states what the code does with them, but chunk invariance is about inline streams; switching strands the buffer, and there is no flush at the end of a stream.
- GuardMeaning.VerdictMeans: is about histories with at least as many words as an n-gram has, and words without spaces, as the word pattern finds them.
- StreamingGuard.RepetitionGuard.Feed: takes the words of a chunk as an input, because the word regex is not modelled; a word cut by a chunk boundary gives other tokens than the whole word, so the guard, unlike the parser, does depend on the chunking.
- StreamingGuard.RepetitionGuard.Feed: leaves out `detail`, `diagnostics` and the cooldown branch, which nothing ever enables; arithmetic is over reals.
- The n-gram and sentence detectors of repetition_detector.py and the report on top of them.
- LoopDetector.DetectLoops: completeness is about the tried lengths and needs `min_repetitions` of at least 2, as the scan stops where two copies no longer fit.
- QuoteLedger.QuotedAtMostOnce: speaks of records; a mail that is remembered twice gets two records in the code as well, and each can be quoted once.
- QuoteBlock.BuildQuote: the header line is an input; formatting it from date, name and address, and the fallback formats, are not modelled.
- `_auth_props`, the domain comparison and the authorization policy: the gate is a free choice.
- MailRuns.RunIsSafe: mail arrives between polls, not in the middle of one; handlers run to their end, so cancelling a poll is not modelled.
- MailDelivery.FetchServes: speaks of mails whose UID is not remembered, and with a plain EXPUNGE of mails not flagged as deleted; on a server without UIDPLUS that EXPUNGE may take their copy.
- MailRetry.RetriedIsFinished: is about a mail that is not flagged as deleted and that no other mail's Message-ID search finds, and with Done in INBOX about runs in which no UID was forgotten. A fetch of a body that raises after the server has set the seen flag leaves the mail seen; nothing fetches it again, as in the code.
- MailStranded.BatchIsStranded: needs that no other mail's Message-ID search finds the mail, and that it was not flagged as deleted; dispatching counts from the call, whether the gate drops the mail or the handler gets it.
- Mail clients that change flags or folders between commands, UIDVALIDITY changes and the snapshot of seen UIDs across adapters.
- MailServer.MoveSucceeds: a STORE or EXPUNGE that is refused without an exception goes unnoticed, as in the code; the mail is then in both folders.
- PagedLogits.LaunchIsReference: decoding, dot product and the sum over heads are parameters shared by both sides, so floating-point rounding is outside; PagedLogits.LogitIs fixes them to exact arithmetic; 32-bit overflow of offsets and negative page ids are not modelled.
- GlobCompiler.CompilerKeepsMeaning: over paths without newlines, where `.` and `$` have no special cases; `check`, `is_allowed` and reading of archives are left out.
- Throughput.Peak: `latency` is taken as end minus start, as it is recorded; percentiles, accuracy and rounding are left out.
- PatchEngine.Patch.Run: is about a fresh object, as the patch scripts run each of theirs once; direct assignment to `code`, `alt_targets`, the model gates and `write_module` are left out; so are the anchor texts, because the patched sources are not part of this repository.
- `process_qkv`, `process_o_proj` and the pairing of gate and up in `process_dense_mlp` per rank; `split_row` of a one-dimensional tensor.
- TensorSplit.VocabRejoins: the rounded-up quotient is exact, whereas the program divides in floating point first.
- ShardWriting.Run: file names are part numbers and files are maps; a crash in the middle of a run is not modelled.
- VersionOrder.ReadingInvertsPrinting: digits and letters are ASCII; Python's `\d` also takes other digits.
- `read_pin`, fetching of tags, the tag pattern and the comparison with running images beyond `same_version`.
- ConfigMerge.DeepOverride: works on values, since updating nested dicts in place would let YAML aliases share them; such sharing, and the order of mappings, is not modelled.
- ConfigMerge.InjectKeys: a provider name that is a list or a mapping is read as "[]" or "{}", where the code takes its `str()`; with such a name another key of the secrets would be looked up.
- ConfigMerge.Text: see ConfigMerge.InjectKeys.
- StreamingGuard.RepetitionGuard.CheckNgramFlood: with `ngram_max_count` and `ngram_min_ratio` of at most 0 and no n-gram yet, the code raises an IndexError at `most_common(1)[0]`; RepetitionSpec.Flood gives a verdict instead.
- RepetitionSpec.Flood: see StreamingGuard.RepetitionGuard.CheckNgramFlood.
- ConfigMerge.Merge: both documents are mappings with string keys, provider names are ASCII, numbers and booleans are compared by text; named profiles, the WebUI settings and file ownership are left out.
