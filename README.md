# GPTTG bot core in Dafny

GPTTG is a Telegram front-end for the OpenAI Responses API. This project models the parts of
the bot that decide things, and proves what they promise:

- **Reminder delivery** (`Reminders`). It selects due rows of the `reminders` table, orders them
  by `due_at`, caps the batch, sends each with a fixed text rule and marks the row `done` or
  `error`.
- **A chat turn** (`Chat`, and the older copy in `OpenAIClient`). This covers:
  - the history lookup and whether the system prompt is prepended;
  - the tool list;
  - the reply to each API error;
  - token pricing, split by regular, cached and output tokens;
  - what is persisted;
  - which text of the response is returned.
- **Formatting**:
  - HTML and MarkdownV2 escaping and the long-message splitter (`TelegramHtml`, `TelegramMarkdown`);
  - datetime enrichment of a message dict (`DatetimeContext`);
  - system-prompt composition (`Prompts`).
- **Small stores** (`Models`, `Db`):
  - the current-model setting and the one-hour model-list cache;
  - the users table with its welcome flag and display name;
  - the per-chat OpenAI file ids.
- **Classifiers and parsers**:
  - exception-to-message classification and the handler decorator (`Errors`);
  - the update checker's result rules, git-log parsing and update text (`VersionChecker`);
  - the document handler's size/type checks, truncation and reply chunking (`Document`).

The clock, SQLite, the OpenAI SDK, Telegram and git are replaced by parameters:
- "now" and the datetime text are strings;
- an API call is an outcome datatype (timed out, rate limited, refused, failed, or a response);
- a git run is `Completed(returncode, stdout, stderr)` or a spawn failure;
- a Telegram send is recorded in a list of sent messages or returned as a list of actions.

The database is one class, `Db.Database`, with one field per table the core touches. Each method
names in its frame exactly the tables it may write.

Python semantics are written out where they matter:
- truthiness of optional strings and counters (`Db.Truthy`, `Chat.PyOr`: a zero count falls
  through `a or b`);
- `str.lower`, `split`, `split(sep, n)`, `strip`, `rfind` with a window, `str(int)` and `int(str)`;
- SQLite's text comparison of `due_at`;
- f-strings of `None`, which print `None`.

Prices and costs are exact `real`s.

Where the description of the bot and its code disagree, the model follows the code:
- **Reply text.** The reply is the text of the first content item that either has a non-empty
  `text`, or is of type `output_text` and has a `text` attribute at all. So an `output_text`
  item can answer with an empty text or `None`, and the reply is not always "the first non-empty
  text". The apology is sent only when no item qualifies at all.
- **Model fallback.** `models.py` falls back to two models; `openai_client.py` falls back to four.
- **Per-request prompt.** It cannot contain the base system prompt, because the function never
  receives it.

## Model

| member | source | states |
|---|---|---|
| Reminders.StrLeTotal | bot/utils/reminders.py:32-33 | the text order used for `due_at <= ?` and `ORDER BY due_at` is total |
| Reminders.StrLeTrans | bot/utils/reminders.py:32-33 | that order is transitive, so sorting by it is meaningful |
| Reminders.DueRemindersFrom | bot/utils/reminders.py:30-32 | a reminder is selected iff some row of the table is `scheduled` with `due_at` not after now and carries exactly those columns |
| Reminders.InsertByDueAtSorted | bot/utils/reminders.py:33 | inserting into a list ordered by `due_at` keeps it ordered |
| Reminders.SortByDueAt | bot/utils/reminders.py:33 | the result is ordered by `due_at` and is a permutation of the input (multiset equality) |
| Reminders.FetchDue | bot/utils/reminders.py:25-39 | `EarliestDue`: the result holds min(limit, number due) reminders; as a multiset it is contained in the due reminders; each comes from a due row; they ascend by `due_at`; and a due row left out means the limit was reached and no kept reminder is later |
| Reminders.FirstDue | bot/utils/reminders.py:32-36 | the first `limit` of the due reminders ordered by `due_at` satisfy `EarliestDue`: the count, multiset containment in the due reminders, order, and no left-out due row earlier than a kept one |
| Reminders.DeliveryText | bot/utils/reminders.py:60 | the text is sent unchanged iff its lowered form starts with `напоминание`; otherwise it is `🔔 Напоминание: ` followed by the text |
| Reminders.WithStatus | bot/utils/reminders.py:42-54 | the table keeps its length; rows with another id are untouched; rows with the id get the status and the timestamp |
| Reminders.MarkStatus | bot/utils/reminders.py:42-54 | a successful write sets the status of that id's rows only; a failed write changes nothing and is reported |
| Reminders.HandleOne | bot/utils/reminders.py:57-68 | a successful send adds exactly one message to that chat with the delivery text and `silent` as `disable_notification`; the table becomes `RowsAfterHandling`; the method never fails |
| Reminders.HandlingOutcome | bot/utils/reminders.py:57-68 | other rows are untouched; a sent reminder whose `done` write succeeded ends `done`; any failure ends `error` when that write succeeds, else the row is left as it was |
| Reminders.RefetchedOnlyIfWritesFailed | bot/utils/reminders.py:62-68 | a handled reminder is due again only when both status writes failed |
| Reminders.SentForBatchBound | bot/utils/reminders.py:80-81 | a batch sends at most one message per reminder |
| Reminders.HandleBatch | bot/utils/reminders.py:80-81 | each reminder of the batch is handled in order; table and outbox are those of handling them one after another |
| Reminders.PollOnce | bot/utils/reminders.py:78-83 | a failed fetch changes nothing; otherwise the batch handled is `EarliestDue` with limit 5 over the table as it was (count, multiset containment, earliest first), and at most 5 messages are sent |
| Db.UsersAfterSave | bot/utils/db.py:50-67 | a new user is inserted not yet welcomed; a known user gets the new names and keeps the welcome flag; no other user changes |
| Db.SaveUserResult | bot/utils/db.py:50-67 | `save_user` returns true iff the user is new or not yet welcomed |
| Db.UsersAfterWelcome | bot/utils/db.py:70-77 | only that user's flag becomes true; an unknown id changes nothing |
| Db.DisplayName | bot/utils/db.py:89-100 | `@username` first, then `first last`, then `first`, else the id in decimal (also for unknown users); never empty |
| Db.WithoutChat | bot/utils/db.py:124-131 | the remaining rows all belong to other chats and come from the table |
| Db.FileIdsOfExactly | bot/utils/db.py:113-121 | a file id is listed for a chat iff a row saved it for that chat |
| Db.FileIdsOfAppend | bot/utils/db.py:113-121 | listing distributes over appending rows |
| Db.FileIdsAfterSave | bot/utils/db.py:103-110 | saving appends the id to its own chat's list and leaves other chats' lists as they were |
| Db.FileIdsAfterDelete | bot/utils/db.py:124-131 | deleting empties that chat's list and leaves every other chat's list as it was |
| Db.Database.constructor | bot/utils/db.py:22-37 | a fresh database has empty tables |
| Db.Database.SaveUser | bot/utils/db.py:40-67 | the users table becomes `UsersAfterSave` and the result is `SaveUserResult` |
| Db.Database.MarkUserWelcomed | bot/utils/db.py:70-77 | the users table becomes `UsersAfterWelcome` |
| Db.Database.GetUserDisplayName | bot/utils/db.py:80-100 | the display name of the stored row, or the id when there is none |
| Db.Database.SaveOpenaiFileId | bot/utils/db.py:103-110 | one row is appended and the chat's list grows by that id |
| Db.Database.GetOpenaiFileIdsByChat | bot/utils/db.py:113-121 | exactly the file ids saved for the chat |
| Db.Database.DeleteOpenaiFileIdsByChat | bot/utils/db.py:124-131 | that chat's list becomes empty; every other chat's list is unchanged |
| Db.SaveAfterWelcome | bot/utils/db.py:67-77 | after `mark_user_welcomed`, `save_user` returns false, now and after another save |
| Db.SaveTwiceBeforeWelcome | bot/utils/db.py:50-67 | a new user is owed a welcome on the first and on the second save |
| Db.DisplayNameAfterSave | bot/utils/db.py:89-92 | after saving a user with a username, the display name is `@username` |
| Models.CurrentModelIn | bot/utils/openai/models.py:32-40 | the stored `current_model`, else `gpt-4o-mini` |
| Models.SetCurrentModel | bot/utils/openai/models.py:42-51 | only the `current_model` key is written, and reading it back gives the model |
| Models.SetThenGet | bot/utils/openai/models.py:40-49 | reading after writing gives the written model; every other setting keeps its presence and value |
| Models.InsertSorted | bot/utils/openai/models.py:69 | inserting into a list sorted by `created` descending keeps it sorted and adds only the new entry |
| Models.InsertKeepsGroups | bot/utils/openai/models.py:69 | insertion puts the new entry first among the entries with its `created`, as a stable sort does |
| Models.SortByCreatedDesc | bot/utils/openai/models.py:69 | the result is sorted by `created` descending, has the input's length, and keeps the input order among equal `created` values |
| Models.SortIsPermutation | bot/utils/openai/models.py:69 | the sorted list is a permutation of the input |
| Models.ToModelInfos | bot/utils/openai/models.py:61-67 | one entry per listed model, with id, name = id and `created` (0 when missing) |
| Models.FetchModelsFromApi | bot/utils/openai/models.py:53-79 | a listing gives all its models sorted by `created` descending (stable); a failure gives the two fallback models |
| Models.ModelsManager.constructor | bot/utils/openai/models.py:13-15 | the cache starts empty with timestamp 0 |
| Models.ModelsManager.GetAvailableModels | bot/utils/openai/models.py:17-30 | a non-empty cache younger than 3600 s is returned untouched; otherwise the fetched list is returned and cached with timestamp now |
| Models.CachedWithinTtl | bot/utils/openai/models.py:22-28 | within the hour a second call returns what a non-empty first call returned; a failed first fetch is cached like any result |
| Chat.PreviousResponseId | bot/utils/openai/chat.py:45-52 | a given id is kept; otherwise it is the chat's stored id, or none when the chat has no row |
| Chat.InputFor | bot/utils/openai/chat.py:54-65 | with no previous id, the system message and then the user content in order; otherwise the user content alone |
| Chat.SystemMessageIffFirstTurn | bot/utils/openai/chat.py:54-65 | the input contains a system message iff there is no previous id |
| Chat.ToolsFor | bot/utils/openai/chat.py:75-81 | web search first unless switched off explicitly, then the caller's tools in order; no list at all iff both are absent |
| Chat.AssembleRequest | bot/utils/openai/chat.py:67-81 | the request carries the current model, the previous id, `store`, `InputFor`, `ToolsFor`, and a tool choice iff it is truthy |
| Chat.Header | bot/utils/openai/chat.py:92-103 | a rate-limit header's value, or `неизвестно` when the headers or the key are missing |
| Chat.RateLimitReplyQuotes | bot/utils/openai/chat.py:92-109 | the rate-limit reply shows the remaining tokens and the reset time, each in `<code>` tags |
| Chat.RejectionReplyShape | bot/utils/openai/chat.py:110-122 | every refusal reply names the model and ends with the switch to `gpt-4o-mini`; the reason is that of the first phrase the message contains, in the source's order |
| Chat.UnexpectedReply | bot/utils/openai/chat.py:123-125 | the reply is `❌ Произошла неожиданная ошибка: `, then a prefix of the error of length min(100, its length), then `...` |
| Chat.FirstTextIsFirst | bot/utils/openai/chat.py:173-185 | nothing is found iff no item qualifies; otherwise the text is that of a qualifying item that no qualifying item precedes |
| Chat.FirstTextSkip | bot/utils/openai/chat.py:173-185 | items that do not qualify before the rest do not change what is found |
| Chat.FlattenAppend | bot/utils/openai/chat.py:175-176 | the content items of two output lists are those of each, in order |
| Chat.ExtractText | bot/utils/openai/chat.py:173-187 | the nested loops return what `FirstText` finds in the flattened output |
| Chat.ReplyText | bot/utils/openai/chat.py:173-187 | the apology when no item qualifies, else the first qualifying item's text |
| Chat.PyOr | bot/utils/openai/chat.py:139-151 | Python's `a or b` on counters: `a` unless missing or zero |
| Chat.PriceOf | bot/utils/openai/chat.py:135-137 | the table's price for the kind, else the fallback |
| Chat.CostCases | bot/utils/openai/chat.py:153-160 | without an input or output count the cost is total/1000 times the global price; with them, if cached tokens are priced like input, the cost is input and output at their prices; no usage costs 0 |
| Chat.CachedDiscount | bot/utils/openai/chat.py:153-157 | each cached token (up to the input count) is charged the cached price instead of the input price |
| Chat.SplitCostNonNegative | bot/utils/openai/chat.py:153-157 | the split cost is not negative for non-negative prices and output count, even when cached exceeds input |
| Chat.CostSplitNonNegative | bot/utils/openai/chat.py:130-160 | any recorded cost is non-negative when prices and counts are |
| Chat.UsageRowFor | bot/utils/openai/chat.py:162-171 | the usage row records the chat, the user, the total tokens (0 without usage), the cost, and the response's model or else the current one |
| Chat.ReplyToError | bot/utils/openai/chat.py:89-125 | each failure kind gets its own reply (`ErrorReply`); only a refused model resets `current_model` to `gpt-4o-mini`, and no other setting changes |
| Chat.RateLimitedReplyQuotes | bot/utils/openai/chat.py:92-109 | the reply to a rate-limited call shows the remaining tokens and the reset time from its headers, each in `<code>` tags |
| Chat.RefusedReplyNamesModel | bot/utils/openai/chat.py:110-122 | the reply to a refused model names the model and ends with the switch to `gpt-4o-mini` |
| Chat.RecordSuccess | bot/utils/openai/chat.py:162-187 | the chat's last response becomes this response's id, other chats unchanged; exactly one usage row is appended with the cost from the model's price table; the reply is `ReplyText` of the output |
| Chat.TurnRequest | bot/utils/openai/chat.py:41-81 | the request of a turn: the current model, the previous id, `InputFor`, `ToolsFor`, `store`, and a tool choice iff it is truthy |
| Chat.ResponsesRequest | bot/utils/openai/chat.py:16-187 | with the price lookup repaired (a price table per model as a parameter): the request carries the current model, `store`, and a tool choice iff it is truthy; errors write neither `chat_history` nor `usage` and get their `ErrorReply`; only a refusal resets the model to `gpt-4o-mini`; a success stores the response id, appends exactly one usage row priced by that model's table, and returns `ReplyText` |
| Chat.TurnEndAsWritten | bot/utils/openai/chat.py:89-134 | as written, every successful call ends in the `AttributeError` of the price lookup; every failed call ends with its `ErrorReply` |
| Chat.ResponsesRequestAsWritten | bot/utils/openai/chat.py:16-134 | as written: the same request; the turn ends as `TurnEndAsWritten` says; neither `chat_history` nor `usage` is ever written |
| Chat.AnsweredResponseLost | bot/utils/openai/chat.py:130-134 | a response whose only item is the text `Готово` would be replied as `Готово`, yet as written the turn raises |
| OpenAIClient.ChatModelsOfExactly | bot/utils/openai_client.py:73-80 | an entry is kept iff it comes from a listed model whose lowered id contains `gpt-4` or `gpt-3.5` |
| OpenAIClient.GetAvailableModels | bot/utils/openai_client.py:67-90 | the chat models sorted by `created` descending, as a permutation of them; the four fallback models on failure |
| OpenAIClient.FlatCostIsChatFallback | bot/utils/openai_client.py:161-162 | the flat price is what the newer manager charges when split counts are missing |
| OpenAIClient.ResponsesRequest | bot/utils/openai_client.py:100-187 | the request uses the current model (`gpt-4o-mini` by default) and a system message iff no previous id was given or found; errors are raised again and write nothing; a response without usage or model fails before writing; a success stores the id and a row that has the chat id as user id, priced flat |
| TelegramHtml.ReplaceAppend | bot/utils/html.py:16-20 | replacing a character distributes over concatenation |
| TelegramHtml.EscapeHtmlChar | bot/utils/html.py:16-20 | ordinary characters are kept; no escape contains `<`, `>` or `"` |
| TelegramHtml.EscapeHtmlCons | bot/utils/html.py:16-20 | the four chained replacements escape character by character, `&` first, so no entity is escaped twice |
| TelegramHtml.EscapeHtmlSafe | bot/utils/html.py:16-20 | the escaped text has no raw `<`, `>` or `"` |
| TelegramHtml.UnescapeEscapeHtml | bot/utils/html.py:6-20 | decoding the four entities restores the original text |
| TelegramHtml.RFind | bot/utils/html.py:50-57 | `rfind` in a window: -1 iff the character is absent there, else its last position in the window |
| TelegramHtml.BreakAt | bot/utils/html.py:45-57 | each cut lies strictly after the position and within `max_length` |
| TelegramHtml.BreakAtPreference | bot/utils/html.py:50-57 | the cut is at the last newline after the position, else the last space, else the hard limit |
| TelegramHtml.ChunksFromBounded | bot/utils/html.py:40-60 | every chunk is non-empty and at most `max_length` long |
| TelegramHtml.ChunksFromRebuilds | bot/utils/html.py:40-60 | the chunks, with one dropped newline or space restored at each cut where one was dropped, give back the text |
| TelegramHtml.SplitLong | bot/utils/html.py:23-62 | a text that fits is one chunk; otherwise every chunk is non-empty and fits; the chunks rebuild the text |
| TelegramHtml.SplitLongHtmlMessage | bot/utils/html.py:23-62 | the loop produces exactly `SplitLong` |
| TelegramMarkdown.EscapeMarkdownV2 | bot/utils/markdown.py:4-9 | the length grows by the number of special characters and the result never starts with a special character |
| TelegramMarkdown.EscapeAppend | bot/utils/markdown.py:8-9 | escaping distributes over concatenation: other characters are copied unchanged and in order |
| TelegramMarkdown.UnescapeEscape | bot/utils/markdown.py:8-9 | removing each inserted backslash restores the input |
| TelegramMarkdown.EscapedHasBackslashes | bot/utils/markdown.py:8-9 | every special character of the escaped text follows a backslash |
| TelegramMarkdown.SendLongMessageV2 | bot/utils/markdown.py:12-54 | the escaped text as one chunk when it fits; otherwise non-empty chunks within the limit that rebuild the escaped text |
| TelegramMarkdown.HardCutSplitsEscape | bot/utils/markdown.py:47-52 | a hard cut can leave a chunk that starts with an unescaped special character |
| TelegramMarkdown.PairSafeBreakAt | bot/utils/markdown.py:41-49 | the corrected cut lies after the position, within the limit |
| TelegramMarkdown.PairSafeBreakKeepsPair | bot/utils/markdown.py:47-49 | the corrected cut never separates a backslash from the character it escapes |
| TelegramMarkdown.PairSafeChunksBounded | bot/utils/markdown.py:32-52 | the corrected chunks are non-empty and within the limit |
| TelegramMarkdown.PairSafeChunksRebuild | bot/utils/markdown.py:32-52 | the corrected chunks rebuild the escaped text as the source's do |
| TelegramMarkdown.PairSafeChunksEscaped | bot/utils/markdown.py:32-52 | every corrected chunk keeps each special character escaped |
| TelegramMarkdown.SendLongMessageV2PairSafe | bot/utils/markdown.py:12-54 | the source's guarantees, and no cut separates a backslash inserted by the escaping from the character it escapes |
| Prompts.ReminderToolsInstrLong | bot/utils/prompts.py:15-24 | the long reminder text starts with a blank line |
| Prompts.ReminderToolsInstrShort | bot/utils/prompts.py:27-28 | the short reminder text starts with a space |
| Prompts.SelfCallInstrLong | bot/utils/prompts.py:31-37 | the long self-call text starts with a blank line |
| Prompts.SelfCallInstrShort | bot/utils/prompts.py:40-43 | the short self-call text starts with a space |
| Prompts.BuildInitialSystemPrompt | bot/utils/prompts.py:46-50 | base prompt, blank line, time-zone introduction, then the long reminder text if requested, else the long self-call text |
| Prompts.BuildPerRequestSystemPrompt | bot/utils/prompts.py:53-56 | the time-zone introduction followed by the short variant chosen by the flag |
| Prompts.PromptSeparators | bot/utils/prompts.py:18-28 | the instruction is separated from the introduction by a blank line (initial) or a space (per request) |
| DatetimeContext.EnhanceUserContentWithDatetime | bot/utils/datetime_context.py:18-21 | the datetime info, the `Сообщение пользователя` marker, then the user's text, unchanged |
| DatetimeContext.FirstTextItem | bot/utils/datetime_context.py:33-41 | the index of the first dict item whose type is `input_text` or `text`, or none when there is none |
| DatetimeContext.FirstTextItemUnique | bot/utils/datetime_context.py:33-41 | the item the loop stops at is that first one |
| DatetimeContext.EnhancedItemsShape | bot/utils/datetime_context.py:33-47 | only the first text item changes, to info, a blank line and its old text, keeping its other keys; without one, an `input_text` item with info is inserted at index 0 and the list grows by one |
| DatetimeContext.EnhancedContentUntouched | bot/utils/datetime_context.py:26-49 | a dict that is not a user message, or whose content is neither a string nor a list, is unchanged |
| DatetimeContext.ContentDict.constructor | bot/utils/datetime_context.py:24 | the dict holds the given type, role and content |
| DatetimeContext.EnhanceContentDictWithDatetime | bot/utils/datetime_context.py:24-49 | the same dict is changed in place and returned; type and role are kept; the content becomes `EnhancedContent` |
| Errors.GetErrorType | bot/utils/errors.py:49-76 | the classification never yields the download or permission entries |
| Errors.ClassificationOrder | bot/utils/errors.py:53-76 | each SDK class gets its entry whatever the text says; network, then "too large", then "unsupported" decide only without an SDK class; everything else is `UNKNOWN_ERROR` (each an iff) |
| Errors.TooLargeIgnoresCase | bot/utils/errors.py:69-70 | `TOO LARGE` and `БОЛЬШОЙ` in any case classify as file too large |
| Errors.PlannedReplies | bot/utils/errors.py:95-109 | the user text goes to the message's chat; without a message, to the callback's chat followed by the alert; with neither, nothing |
| Errors.PlannedSends | bot/utils/errors.py:95-109 | at most two sends: the text to the message's chat; without a message, the text to the callback's chat and then the alert; with neither, none |
| Errors.Delivered | bot/utils/errors.py:95-111 | the sends up to the first failure: a prefix of the planned ones of length min(planned, delivered) |
| Errors.SendsWithText | bot/utils/errors.py:95-109 | planning with another text changes only the text of the answers, not their number or chats |
| Errors.HandleError | bot/utils/errors.py:79-111 | the planned sends up to the first failure, in order; a failing send is swallowed |
| Errors.FileTooLargePlaceholderSent | bot/utils/errors.py:26-27 | the file-too-large reply reaches the user with `{}` in it |
| Errors.UserMessageWithLimit | bot/utils/errors.py:27-28 | the file-too-large text with the limit in place of `{}`; every other text unchanged |
| Errors.HandleErrorWithLimit | bot/utils/errors.py:79-111 | the same sends as `HandleError`, in the same number and to the same chats, with the user text carrying the limit; with a target and at least one delivery, the first send is that text to the target's chat |
| Errors.LimitReadBack | bot/utils/errors.py:27-28 | the number in the filled-in text reads back as the limit |
| Errors.OnlyFileTooLargeChanges | bot/utils/errors.py:27-28 | filling the placeholder changes no other reply |
| Errors.FirstTelegramArg | bot/utils/errors.py:131-137 | the first argument that is a message or callback query; all before it are neither |
| Errors.FirstIsHere | bot/utils/errors.py:131-137 | the scan stops at the first message or callback query |
| Errors.FindReplyTarget | bot/utils/errors.py:128-137 | never both; a message iff the first Telegram argument is a message, a callback query iff it is one |
| Errors.Wrapper | bot/utils/errors.py:121-140 | a handler's value passes through with no sends; an exception yields None and exactly `HandleError` of the exception to the first Telegram argument's chat (as message or as callback query) |
| VersionChecker.InitialInfo | bot/utils/version_checker.py:36-44 | the initial result: not available, 0 commits behind, no error or hashes |
| VersionChecker.SkipSpaces | bot/utils/version_checker.py:120 | `\s*` skips exactly the white space |
| VersionChecker.VersionMatchAt | bot/utils/version_checker.py:120 | a capture is non-empty and has no `"` |
| VersionChecker.SearchVersionFrom | bot/utils/version_checker.py:120 | `re.search` from a position: a match at some position, or none at any |
| VersionChecker.MatchesFrom | bot/utils/version_checker.py:120 | the match attempted at each position from the start position to the end |
| VersionChecker.SearchFindsLeftmost | bot/utils/version_checker.py:120 | the search finds the first successful match attempt in position order |
| VersionChecker.SearchVersionLeftmost | bot/utils/version_checker.py:118-122 | a found version is the capture of the leftmost position where the pattern matches; no earlier position matches |
| VersionChecker.VersionLineFound | bot/utils/version_checker.py:118-122 | a pyproject starting with `version = "v"` yields `v` |
| VersionChecker.CheckUpdatesAvailable | bot/utils/version_checker.py:36-131 | available iff there is no error and commits behind > 0; an error leaves it not available, 0 behind and without latest version; there is no error iff the four git runs succeed and the count parses, and then the hashes and the count are theirs; otherwise the error is that of the first step that fails (spawn failure, non-zero exit with its stderr, or the `int()` error); a latest version only from a successful `git show` of an available update, as `SearchVersion` finds it |
| VersionChecker.CommitLineParsed | bot/utils/version_checker.py:158-168 | a line gives a commit iff it has at least three `|` |
| VersionChecker.ParseCommitLine | bot/utils/version_checker.py:158-168 | a parsed commit's hash, message and author contain no `|` |
| VersionChecker.CommitLineRoundTrip | bot/utils/version_checker.py:158-168 | the four fields joined with `|` give back the line, so the date keeps any later `|` |
| VersionChecker.JoinFour | bot/utils/version_checker.py:162-163 | joining four parts puts the separator between each |
| VersionChecker.CommitsOfExactly | bot/utils/version_checker.py:155-168 | a commit is listed iff some line parses to it |
| VersionChecker.GetRecentCommits | bot/utils/version_checker.py:133-173 | a successful log gives the commits of its stripped lines in order; a failed one gives none |
| VersionChecker.ParseCommitLines | bot/utils/version_checker.py:155-168 | the loop keeps the commits of the lines that parse, in order |
| VersionChecker.UpToDateShowsCurrent | bot/utils/version_checker.py:188-199 | the up-to-date text shows the current version and hash |
| VersionChecker.UpdateShowsLatest | bot/utils/version_checker.py:199-211 | the update text shows the latest version and hash |
| VersionChecker.UpdateTextShowsLatest | bot/utils/version_checker.py:203-206 | the update text carries the latest version in `<code>` tags followed by its hash |
| VersionChecker.UpdateShowsBehind | bot/utils/version_checker.py:199-211 | the update text shows the number of commits behind |
| VersionChecker.FormatIgnores | bot/utils/version_checker.py:185-199 | an error text ignores `available`; an up-to-date text ignores latest version, hash and count |
| VersionChecker.UnknownVersionShownAsNone | bot/utils/version_checker.py:199 | an available update without a latest version prints `None` as the new version |
| VersionChecker.FormatUpdateInfoWithDefault | bot/utils/version_checker.py:175-211 | same text as the source except that a missing latest version is shown as `неизвестна` |
| VersionChecker.AnnouncedVersion | bot/utils/version_checker.py:199-208 | the corrected text announces the latest version, or `неизвестна` |
| Document.MaxSizeMb | bot/handlers/document.py:32-33 | the limit is the smaller of the setting and 100 MB |
| Document.LabelOf | bot/handlers/document.py:14-22 | a label is found iff the mime type is in the table, and it is that entry's label |
| Document.ExtensionIsAfterLastDot | bot/handlers/document.py:39 | the extension has no dot and ends the lowered name, right after a dot or as the whole name |
| Document.FileTypeLabel | bot/handlers/document.py:56 | for a mime type in the table, that entry's own label; otherwise `📄 файл .` and the extension |
| Document.Caption | bot/handlers/document.py:57 | the caption when truthy, else the default analysis prompt |
| Document.Truncate | bot/handlers/document.py:86-87 | up to 100000 characters unchanged; longer text keeps its first 100000 followed by the truncation marker |
| Document.ChunksConcat | bot/handlers/document.py:143-149 | the 3800-character slices concatenate back to the response |
| Document.ChunksBounded | bot/handlers/document.py:143-149 | every slice is non-empty and at most 3800 characters |
| Document.ChunksFull | bot/handlers/document.py:143-149 | every slice but the last is exactly 3800 characters |
| Document.ResultRepliesParts | bot/handlers/document.py:137-151 | one reply when the result fits in 4000 characters; otherwise the header, then numbered parts whose slices rebuild the response |
| Document.RequestFor | bot/handlers/document.py:71-135 | the text is sent inline iff the mime type is a text type; a file request's text starts with the caption |
| Document.TextRequestCarriesContent | bot/handlers/document.py:86-100 | an inline request quotes the truncated text in a code block |
| Document.Latin1RoundTrip | bot/handlers/document.py:73-79 | decoding as iso-8859-1 never fails: every byte becomes one character, and encoding gives the bytes back |
| Document.DecodedText | bot/handlers/document.py:73-79 | the text of the first encoding that succeeds; iso-8859-1 comes last and always succeeds; with the earlier ones failing, it is the iso-8859-1 text |
| Document.DecodeContent | bot/handlers/document.py:73-83 | the loop over the encodings stops at the first success and always finds a text: `DecodedText` |
| Document.BuildRequest | bot/handlers/document.py:71-135 | the request is `RequestFor` of the mime type, the decoded text, the caption and the file name |
| Document.ProcessAccepted | bot/handlers/document.py:58-135 | the status messages and the request for each step that can fail (getting the file, downloading, the request); without a fault, the result replies after the status is deleted |
| Document.FaultAction | bot/handlers/document.py:153-192 | the status message is edited iff there is one; a timeout and a download error get their own texts |
| Document.SendResult | bot/handlers/document.py:137-151 | the reply loop sends exactly `ResultReplies` |
| Document.HandleDocument | bot/handlers/document.py:24-192 | no size means the unexpected-error answer; too large and unsupported documents get their replies and no request; an accepted document gets the loading and processing statuses, a request built from the text decoded by the first encoding that succeeds, then the result or the reply for the step that failed |

## Left out

- Concurrency is not modelled: the OpenAI and per-chat semaphores, the reminder task, its stop event and its 10-second wait. One pass of the reminder loop is modelled as a batch.
- Network retries are not modelled: only one attempt of an API call is modelled.
- The clock and time zones are parameters.
- Floating point and its rounding are not modelled: costs are exact reals.
- `ModelsManager.get_model_prices` is called by the chat manager but `ModelsManager` does not define it; see Findings. The corrected turn takes the per-model price table as a parameter (`pricesOf`).
- `str.lower` is modelled for the Latin and basic Cyrillic alphabets (with `Ё`). Other scripts' case mapping is not modelled.
- `int()` is modelled for plain decimal digits with an optional sign. Underscores and non-ASCII digits are not.
- Whether utf-8, utf-8-sig and cp1251 decode the bytes is a parameter of the document handler. The last encoding, iso-8859-1, is modelled and always decodes, so the upload fallback for undecodable text (bot/handlers/document.py:81-116) can never run and is not modelled. A failure while sending the final reply is not modelled. The fallback used when editing the status message fails is not modelled either.
- A Telegram send that fails after delivery is not modelled: a send either delivers or fails.
- The dict and list aliasing of `enhance_content_dict_with_datetime` is not modelled. Items are values, and only the top-level dict is an object.
- The git subprocesses are parameters, including `git fetch`'s own exception. A decode error of their output is not modelled.
- The log messages written on every path are not modelled.
- TelegramHtml.SplitLong: requires `max_length >= 1` whenever the text does not fit. With a negative `max_length` the source's loop never ends. With `max_length` 0 it ends only on a text made of spaces and newlines, giving one empty chunk per character; that case is not modelled.
- TelegramMarkdown.SendLongMessageV2: requires `max_length >= 1` whenever the escaped text does not fit, for the same reason as `SplitLong`.
- bot/utils/html.py:81-125 repeats `escape_markdown_v2` and `send_long_message_v2` of bot/utils/markdown.py; they are modelled once, in `TelegramMarkdown`.
- VersionChecker.IntErrorText: quotes the text with `'` as Python's `repr` does for text without quotes, backslashes or control characters; the other forms of `repr` are not modelled. The text comes from the stripped output of `git rev-list --count`.
- Chat.CostCases: with cached tokens priced differently from input, the split cost is stated through `Chat.CachedDiscount` rather than as one closed formula.
- Chat.ResponsesRequest: a usage object whose `total_tokens` is `None` is modelled as an integer count.

## Findings

| source | as written | input that shows it | evidently intended | confidence | as-written member | corrected member |
|---|---|---|---|---|---|---|
| bot/utils/markdown.py:47-52 | a hard cut may fall between a backslash and the character it escapes | `send_long_message_v2("..", 3)` gives `["\\.\\", "."]`, and the second chunk has an unescaped `.` | cut before the backslash, so no cut separates an inserted backslash from the character it escapes | not executed | TelegramMarkdown.HardCutSplitsEscape | TelegramMarkdown.SendLongMessageV2PairSafe |
| bot/utils/errors.py:27-28 | the `FILE_TOO_LARGE` text is sent with its `{}` placeholder unfilled | any exception whose text contains "too large" | the configured size limit in place of `{}` | not executed | Errors.FileTooLargePlaceholderSent | Errors.HandleErrorWithLimit |
| bot/utils/version_checker.py:199 | `get("latest_version", "неизвестна")` never uses its default, because the key is always present | an available update whose remote pyproject has no `version = "..."` line | show `неизвестна` for an unknown version | not executed | VersionChecker.UnknownVersionShownAsNone | VersionChecker.FormatUpdateInfoWithDefault |
| bot/utils/openai/chat.py:134 | every successful response looks up `ModelsManager.get_model_prices`, which `ModelsManager` does not define, so the turn raises `AttributeError` before recording the turn or replying | any successful response, e.g. one whose only item is the text `Готово` | look up the model's price table, record the turn and reply with the text | not executed | Chat.AnsweredResponseLost | Chat.ResponsesRequest |
