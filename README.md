# Goose demo apps and shop-helper server, modelled in Dafny

The repository holds a set of browser demo apps that talk to a Goose agent,
and a small Python MCP server that drives an Android device through `adb`.
This project models the decision and string logic of these parts, and the
in-memory collections they keep:

- **The feedback categoriser page** (`resources/example2/main.js`):
  - the keyword scorer `analyzeFeedback`;
  - the three-list `feedbackStore`, with its add, drag-and-drop move and delete;
  - the splitting of the two text areas into items;
  - the five-stage rewrite pipeline and its final polish;
  - the review statistics counts.
- **The stand-alone to-do app** (`resources/example3/script.js`):
  - the list of records and the current view filter;
  - add, toggle, delete, clear completed and set filter;
  - the "items left" label and the filtered view.
- **The kitchen-sink page** (`resources/kitchen-sink/script.js`):
  - the counter and its colour rule;
  - the to-do list and its rendered entries;
  - the three Goose panels: the empty-message guards of their send buttons and the empty-response guards of their displays.
- **The three Goose clients:**
  - `resources/kitchen-sink/goose_api.js`, with a response id per request and a preamble;
  - `resources/example4/goose_api.js`, with one session id and a reset before each send;
  - `resources/goose_api.js`, the streaming client with its option merge and chunk loop.
- **The MCP server's shop helper** (`main.py`):
  - the POSIX single-quoting of the command for the device shell;
  - the classification of `adb devices` output;
  - `shop_helper`'s sequence of device commands, with its bounded wait for the result file;
  - the `web_search` instruction.

Things outside the program are inputs to the model:

- the network: each `fetch` is a scripted `Reply`, and the calls a client issues are an output;
- the clock and the generated ids;
- the stream reads;
- the outcomes of the `adb` subprocesses, and the device commands issued are an output.

JavaScript values the clients read from JSON are a small `Value` datatype with JavaScript truthiness and property access. `JSON.stringify` of a string array is written out, and a parser for it is given as its inverse.

The streaming client only forwards decoded chunks to a callback. It has no server-sent-event splitting, no `data:` parsing and no detection of a finish event.

Modules, one file each:

- Support:
  - `Wrappers`: Option and Outcome;
  - `Seqs`: filter and subsequence;
  - `Text`: trim and strip, `includes`, `replace`, lower case, split, numerals;
  - `Json`: values and string-array serialisation.
- Feedback categoriser:
  - `FeedbackAnalysis`;
  - `FeedbackInput`;
  - `FeedbackStore`;
  - `Rewrite`.
- To-do apps:
  - `Todos`: the shared list operations;
  - `TodoApp`;
  - `KitchenSink`.
- Goose clients:
  - `GooseProtocol`: what the three clients share;
  - `GooseWaitClient`;
  - `GooseAppClient`;
  - `GooseStream`.
- MCP server: `ShopHelper`.

## Model

| member | source | states |
|---|---|---|
| Text.Strip | main.py:120 | `str.strip()`: no whitespace at either end, and the result is empty exactly when the text is all whitespace |
| Text.TrimStart | main.py:120 | the result is a suffix of the input, everything dropped is whitespace, and it does not start with whitespace |
| Text.TrimEnd | main.py:120 | the result is a prefix of the input, everything dropped is whitespace, and it does not end with whitespace |
| Text.StripAt | resources/example2/main.js:391 | the stripped text is a slice of the input between two all-whitespace runs |
| Text.StripPadded | main.py:120-123 | stripping a text followed only by whitespace cannot bring in a character the text lacks |
| Text.Contains | resources/example2/main.js:279-295 | `includes` holds exactly when the pattern occurs at some index |
| Text.ContainsAppend | resources/example2/main.js:279-289 | a pattern found in a text is still found when more text follows |
| Text.ReplaceAllNoMatch | resources/example2/main.js:352-368 | a global literal replace leaves a text without the pattern unchanged |
| Text.ReplaceAllAt | resources/example2/main.js:352-368 | the leftmost match decides: the text before it is kept, the match becomes the replacement, and replacing goes on right after the match, so matches never overlap |
| Text.ToLower | resources/example2/main.js:245 | same length, every character lower-cased, no upper-case ASCII letter left |
| Text.ToLowerIdempotent | resources/example2/main.js:245 | lower-casing twice is lower-casing once |
| Text.SplitOn | main.py:120 | `split("\n")` gives one piece more than there are separators, no piece holds the separator, and joining the pieces gives the text back |
| Text.NatToString | resources/example3/script.js:108-111 | the numeral is non-empty decimal digits without a leading zero |
| Text.IntToString | resources/kitchen-sink/goose_api.js:125-130 | the numeral starts with a minus sign exactly when the number is negative, and the rest is digits that read back as the magnitude |
| Text.ParseNatToString | resources/example3/script.js:108-111 | reading a rendered numeral back gives the number |
| Seqs.Filter | resources/example2/main.js:664 | `filter` keeps only elements that pass, and no more of them than the input has |
| Seqs.FilterIsSubsequence | resources/example2/main.js:664 | what the filter keeps is a subsequence of the input, order kept |
| Seqs.FilterCounts | resources/example2/main.js:664 | each passing element is kept exactly as often as it occurs, and each other element never |
| Seqs.FilterAllKept | resources/example2/main.js:196 | a test every element passes changes nothing |
| Seqs.FilterNoneKept | resources/example3/script.js:109 | a test no element passes leaves nothing |
| Seqs.FilterSplits | resources/example3/script.js:109 | each element is kept by exactly one of a test and its negation, so the two counts add up to the length |
| Seqs.FilterAppend | resources/example2/main.js:391 | filtering distributes over concatenation |
| Json.HexRoundTrip | resources/kitchen-sink/goose_api.js:175 | a hex digit written by `JSON.stringify` reads back as its value |
| Json.EscapeCharRoundTrip | resources/kitchen-sink/goose_api.js:175 | every character's JSON escape reads back as that character |
| Json.StringBodyRoundTrip | resources/kitchen-sink/goose_api.js:175 | the escaped text of a string followed by the closing quote reads back as the string, and reading goes on after the quote |
| Json.ElementsRoundTrip | resources/kitchen-sink/goose_api.js:175 | the serialised elements of a non-empty array read back as the elements |
| Json.StringArrayRoundTrip | resources/kitchen-sink/goose_api.js:175-176 | `JSON.stringify` of a string array parses back to the same array, in order |
| FeedbackAnalysis.KeywordScoreBound | resources/example2/main.js:279-289 | a keyword score never exceeds the number of keywords in the list |
| FeedbackAnalysis.KeywordScoreGrows | resources/example2/main.js:279-289 | more text never lowers a score, because each keyword counts once however often it occurs |
| FeedbackAnalysis.ContextBonus | resources/example2/main.js:292-295 | the four context rules add at most 6 |
| FeedbackAnalysis.Classify | resources/example2/main.js:298-308 | the confidence is min(100, 20·max + 60) and lies in [60, 100]; for each category, both directions of when it is chosen: impact for a positive maximum, then betterment above impact, else behavior |
| FeedbackAnalysis.CountKeywords | resources/example2/main.js:279-289 | the counting loop yields the number of listed keywords that occur in the text |
| FeedbackAnalysis.AddContextBonus | resources/example2/main.js:292-295 | the rule statements add exactly the context bonus to the betterment score |
| FeedbackAnalysis.AnalyzeFeedback | resources/example2/main.js:244-310 | the scorer as written (lower-case, three counting loops, context rules, maximum, decision) agrees with the classification of the scores |
| FeedbackAnalysis.AnalyzeIgnoresCase | resources/example2/main.js:245 | a text and its lower-cased form are classified alike |
| FeedbackAnalysis.NoKeywordIsBehavior | resources/example2/main.js:299-301 | when every score is zero the text is filed under behavior with confidence 60 |
| FeedbackAnalysis.ScoreBounds | resources/example2/main.js:279-295 | impact and behavior are plain keyword counts, bounded by 20 and 18; the context rules raise betterment only, by at most 6 |
| FeedbackAnalysis.FullConfidence | resources/example2/main.js:308 | the confidence is 100 exactly when the highest score is at least 2 |
| FeedbackInput.NewlineRun | resources/example2/main.js:196 | the newline run at the start of a text is maximal |
| FeedbackInput.SplitRuns | resources/example2/main.js:196 | `split` on a regular expression matching runs of at least k newlines always gives at least one piece |
| FeedbackInput.ExtendTwice | resources/example2/main.js:196 | growing the first piece by two parts in turn is growing it by both at once |
| FeedbackInput.SplitRunsPieces | resources/example2/main.js:196 | no piece of the split holds k newlines in a row (every such run is a separator), and a text starting with another character starts its first piece with it |
| FeedbackInput.Items | resources/example2/main.js:196 | the items are pieces of the split, in order, none blank, and every non-blank piece of the split is among them |
| FeedbackInput.SplitPrefix | resources/example2/main.js:196 | a piece without a k-newline run and not ending in a newline becomes the start of the first result |
| FeedbackInput.SplitAtRun | resources/example2/main.js:196 | a leading run of j >= k newlines is one separator, however long |
| FeedbackInput.SplitJoinRoundTrip | resources/example2/main.js:196 | joining splittable pieces with j >= k newlines and splitting again gives the pieces back |
| FeedbackInput.ItemsRoundTrip | resources/example2/main.js:194-242 | non-blank items written one per paragraph (k = 2) or one per line (k = 1), with any j >= k newlines between them, are read back exactly |
| FeedbackStore.IndexOfId | resources/example2/main.js:642 | `findIndex`: -1 exactly when no item has the id, otherwise the first index that has it |
| FeedbackStore.RemoveAt | resources/example2/main.js:645 | `splice(i, 1)` removes the item at i and keeps the others in order; the multiset loses exactly that item |
| FeedbackStore.WithoutId | resources/example2/main.js:664 | every item with the id goes, every other item stays with its count, in order |
| FeedbackStore.RoutedPartition | resources/example2/main.js:194-242 | every analysed text lands in exactly one of the three lists |
| FeedbackStore.RoutedStep | resources/example2/main.js:198-216 | one more analysed text joins the list of its own category only |
| FeedbackStore.Store.constructor | resources/example2/main.js:6-10 | the store starts with three empty lists |
| FeedbackStore.Store.Reset | resources/example2/main.js:29-33 | starting an analysis empties all three lists |
| FeedbackStore.Store.SetList | resources/example2/main.js:664 | replacing one list leaves the other two unchanged |
| FeedbackStore.Store.AddFeedbackItem | resources/example2/main.js:334-339 | the item is appended to its category; the other two are unchanged; the total grows by one |
| FeedbackStore.Store.Drop | resources/example2/main.js:640-647 | the first item with the id leaves the old list and is appended to the new one; the third list is unchanged; nothing changes for equal categories or an absent id; the total is preserved |
| FeedbackStore.Store.DeleteFeedbackItem | resources/example2/main.js:658-669 | exactly the items with the id leave the named category; the other two are untouched |
| FeedbackStore.Store.FileText | resources/example2/main.js:209-213 | one text is analysed and filed at the end of the list of its category only |
| FeedbackStore.Store.Ingest | resources/example2/main.js:194-242 | the loop files each item, in order, under its category, and the total grows by the number of items |
| FeedbackStore.Store.StartAnalysis | resources/example2/main.js:18-47 | with an empty text area nothing changes; otherwise the store holds exactly the feedback items, then the accomplishment items, routed by category |
| FeedbackStore.Store.Statistics | resources/example2/main.js:606-610 | the statistics total is the sum of the three list lengths, each count the length of its list |
| Rewrite.PhraseStagesKeepPlainText | resources/example2/main.js:352-368 | a text holding none of the six phrases goes through the three phrase stages unchanged |
| Rewrite.SpaceRun | resources/example2/main.js:388 | the whitespace run at the start of a text is maximal |
| Rewrite.CollapseWhitespace | resources/example2/main.js:388 | `replace(/\s+/g, ' ')` leaves only plain spaces and never two in a row; it is empty exactly when its input is |
| Rewrite.CollapseKeepsWords | resources/example2/main.js:388 | collapsing keeps every non-whitespace character, in order |
| Rewrite.CollapseSqueezed | resources/example2/main.js:388 | a text already collapsed is left unchanged |
| Rewrite.CollapseAppend | resources/example2/main.js:388 | cutting a text right after a non-space character, the collapse of the whole is the collapse of the two parts, one after the other |
| Rewrite.CollapseLast | resources/example2/main.js:388 | the collapse of a text ending in a non-space character ends with that character |
| Rewrite.CollapseAfterSpaces | resources/example2/main.js:388 | a whitespace run followed by a word becomes exactly one space before that word |
| Rewrite.CollapseBetweenWords | resources/example2/main.js:388 | two non-space characters with any non-empty whitespace run between them come out exactly one space apart |
| Rewrite.TrimAfterNewlinesNoop | resources/example2/main.js:389 | without newlines the `\n\s+` rule finds nothing |
| Rewrite.DoubleParagraphBreaksNoop | resources/example2/main.js:390 | without newlines the paragraph rule finds nothing |
| Rewrite.NewlineRulesIdle | resources/example2/main.js:388-390 | after the collapse the two newline rules have nothing to do |
| Rewrite.SqueezedHasNoNewline | resources/example2/main.js:388 | a collapsed text holds no newline |
| Rewrite.TrimKeepsSqueezed | resources/example2/main.js:391 | trimming a collapsed text keeps it collapsed |
| Rewrite.TrimKeepsWords | resources/example2/main.js:391 | trimming removes whitespace only |
| Rewrite.TrimEnds | resources/example2/main.js:391 | a trimmed text neither starts nor ends with a space |
| Rewrite.PolishedCollapse | resources/example2/main.js:388-391 | the trimmed collapse is squeezed, newline-free, space-free at both ends, and keeps every other character |
| Rewrite.FinalPolish | resources/example2/main.js:386-392 | the polished text has no newline, no two spaces in a row and no space at either end, and keeps every non-whitespace character of the input in order |
| Rewrite.FinalPolishIdempotent | resources/example2/main.js:386-392 | polishing a polished text changes nothing |
| Rewrite.TrimKeepsInner | resources/example2/main.js:391 | `trim()` keeps any occurrence that starts and ends with a non-space character |
| Rewrite.FinalPolishBetweenWords | resources/example2/main.js:386-392 | two non-space characters with whitespace between them, newlines included, come out of the final polish exactly one space apart |
| Rewrite.Stages | resources/example2/main.js:122-153 | there are five stages |
| Rewrite.ApplyNext | resources/example2/main.js:155-172 | one more stage applies its process to the text so far |
| Rewrite.StagesCompose | resources/example2/main.js:122-172 | the five stages compose to the three phrase stages, the grammar stage and the final polish, in that order |
| Rewrite.RunStages | resources/example2/main.js:155-172 | the stage loop yields that composition, so whatever the grammar stage does, the output has no newline and no doubled space |
| Todos.Toggled | resources/example3/script.js:79-85 | only records with a matching id have their flag flipped; every other field and record, and the order, are kept |
| Todos.ToggleTwice | resources/example3/script.js:79-85 | toggling the same id twice gives the list back |
| Todos.WithoutTodo | resources/example3/script.js:92-93 | exactly the records with the id go; the rest stay, with their counts and in order |
| Todos.Active | resources/example3/script.js:109 | the open records, in order, each with its count |
| Todos.Done | resources/example3/script.js:116-120 | the completed records, in order, each with its count |
| Todos.ActiveDonePartition | resources/example3/script.js:116-120 | the open and completed records add up to the list |
| Todos.ClearedAllOpen | resources/example3/script.js:100-101 | after clearing, no record is completed and the open count is the length |
| Todos.ActiveCountBounds | resources/example3/script.js:108-109 | the open count is at most the length: 0 when all are completed, the length when none is |
| Todos.ItemsLeftLabel | resources/example3/script.js:108-111 | the label is the numeral of n, which reads back as n, then " item left" exactly when n = 1 and " items left" exactly otherwise |
| Todos.View | resources/example3/script.js:116-120 | the shown records are a subsequence of the list: open ones for "active", completed ones for "completed", all for any other filter; every record that passes the filter is shown |
| TodoApp.App.constructor | resources/example3/script.js:10-11 | an empty list and the filter "all" |
| TodoApp.App.AddTask | resources/example3/script.js:60-77 | a non-blank input appends one open record with the trimmed text and empties the box; a blank one changes nothing; the filter is kept |
| TodoApp.App.ToggleTodo | resources/example3/script.js:79-85 | the list becomes its toggled form, the filter is kept |
| TodoApp.App.DeleteTodo | resources/example3/script.js:92-93 | exactly the records with the id are removed, the filter is kept |
| TodoApp.App.ClearCompleted | resources/example3/script.js:100-101 | the open records stay in order; afterwards none is completed and the open count equals the length |
| TodoApp.App.SetFilter | resources/example3/script.js:42-48 | the filter is set, the list is unchanged |
| TodoApp.App.ItemsLeft | resources/example3/script.js:108-111 | the footer names the open count, singular exactly for one |
| TodoApp.App.Visible | resources/example3/script.js:116-120 | what the list shows under the current filter |
| KitchenSink.CounterColor | resources/kitchen-sink/script.js:201-207 | red exactly for a negative count, green exactly for a positive one, the default grey exactly for zero |
| KitchenSink.Counter.constructor | resources/kitchen-sink/script.js:194 | the count starts at 0 |
| KitchenSink.Counter.Increase | resources/kitchen-sink/script.js:216-219 | the count grows by one; from zero or above it shows green |
| KitchenSink.Counter.Decrease | resources/kitchen-sink/script.js:211-214 | the count drops by one; from zero or below it shows red |
| KitchenSink.Counter.Reset | resources/kitchen-sink/script.js:221-224 | the count is 0 and shows the default colour |
| KitchenSink.TodoList.constructor | resources/kitchen-sink/script.js:265 | the list is empty when nothing was saved |
| KitchenSink.TodoList.AddTodo | resources/kitchen-sink/script.js:278-291 | a non-blank input appends one open task with the trimmed text and empties the box; a blank one changes nothing |
| KitchenSink.TodoList.ToggleTodo | resources/kitchen-sink/script.js:293-303 | only the matching task is flipped |
| KitchenSink.TodoList.DeleteTodo | resources/kitchen-sink/script.js:305-309 | only the matching tasks are removed |
| KitchenSink.TodoList.Entries | resources/kitchen-sink/script.js:315-356 | an empty list renders exactly the one placeholder; otherwise one row per task, in order, with "Undo" for a completed task and "Complete" for an open one |
| KitchenSink.DisplayList | resources/kitchen-sink/script.js:116-133 | the "No items returned" note exactly when the reply is not a non-empty array; otherwise its items |
| KitchenSink.DisplayTable | resources/kitchen-sink/script.js:135-176 | the empty-table note exactly when the reply, its columns or its rows are falsy or the rows' length is 0; a shown table carries the reply's columns and its non-empty rows |
| KitchenSink.SendTextMessage | resources/kitchen-sink/script.js:47-65 | a blank message shows the prompt and sends nothing; otherwise the trimmed message is sent as a text request and its result or error is shown |
| KitchenSink.SendListMessage | resources/kitchen-sink/script.js:68-86 | the same guard; the list request's result or error is shown |
| KitchenSink.SendTableMessage | resources/kitchen-sink/script.js:89-109 | the same guard; the table request always names the columns Feature, Description and Notes |
| GooseProtocol.UnixSeconds | resources/kitchen-sink/goose_api.js:63 | `Math.floor(Date.now() / 1000)` is the whole seconds of the clock reading |
| GooseProtocol.RequestFor | resources/kitchen-sink/goose_api.js:59-74 | the body holds one user message with one text block carrying the text, the creation second, and the given working directory and session id |
| GooseProtocol.HttpError | resources/kitchen-sink/goose_api.js:91-93 | the error starts with "HTTP error! Status: " and the status reads back from the rest |
| GooseProtocol.HttpErrorInjective | resources/kitchen-sink/goose_api.js:91-93 | two equal HTTP errors name the same status |
| GooseProtocol.Checked | resources/kitchen-sink/goose_api.js:81-93 | a rejection is passed on, a non-ok status throws the HTTP error, and only an ok response goes on with its body |
| GooseProtocol.WaitResult | resources/kitchen-sink/goose_api.js:123-130 | a truthy `success` gives `data`; otherwise a truthy `error` is thrown, else the fixed fallback; a body that is not JSON, or is JSON null, throws |
| GooseProtocol.InterpretWait | resources/kitchen-sink/goose_api.js:117-130 | the wait's reply is checked, then its JSON is read |
| GooseProtocol.WaitSucceedsIff | resources/kitchen-sink/goose_api.js:117-130 | the wait succeeds exactly for an ok response whose JSON is an object with a truthy `success`, and then yields `data` |
| GooseProtocol.FirstColumnsCopy | resources/kitchen-sink/goose_api.js:175 | the first copy of the columns in the table instruction parses back as the columns |
| GooseProtocol.SecondColumnsCopy | resources/kitchen-sink/goose_api.js:176 | the second copy, inside the format example, parses back as the columns |
| GooseProtocol.EndsWithQuery | resources/kitchen-sink/goose_api.js:177 | the table instruction ends with " Query: " and the query |
| GooseProtocol.TableTailShape | resources/kitchen-sink/goose_api.js:173-177 | both copies of the serialised columns read back as the columns, in order, and the instruction ends with the query |
| GooseWaitClient.UpToQuote | resources/kitchen-sink/goose_api.js:144 | the text before the first double quote, which holds none |
| GooseWaitClient.ResponseIdRoundTrip | resources/kitchen-sink/goose_api.js:143-146 | an id without double quotes is read back from the instruction that names it |
| GooseWaitClient.TaggedAppend | resources/kitchen-sink/goose_api.js:172-177 | text appended to an instruction is appended after the id |
| GooseWaitClient.TableMessageShape | resources/kitchen-sink/goose_api.js:172-177 | the table instruction holds the columns twice and ends with the query |
| GooseWaitClient.WaitForResponse | resources/kitchen-sink/goose_api.js:112-135 | one GET of `/wait_for_response/<id>`; it succeeds exactly for an ok reply with a truthy `success` |
| GooseWaitClient.SendGooseRequestAndWait | resources/kitchen-sink/goose_api.js:53-105 | one POST of the preamble and the message in a one-message body; a failed POST throws with no wait; otherwise exactly one wait on the same id decides the outcome |
| GooseWaitClient.GooseRequestText | resources/kitchen-sink/goose_api.js:142-147 | the text instruction is sent behind the preamble, it names the id, and every GET waits on that id |
| GooseWaitClient.GooseRequestList | resources/kitchen-sink/goose_api.js:154-159 | the same for the list instruction |
| GooseWaitClient.GooseRequestTable | resources/kitchen-sink/goose_api.js:167-180 | missing, non-array or empty columns throw the fixed message with no call; otherwise the table instruction is sent and waited on by id |
| GooseWaitClient.ReportError | resources/kitchen-sink/goose_api.js:187-236 | an empty message is refused with no call; otherwise one POST without a session id; success answers "Error reported: " and the message, and an error is passed on |
| GooseAppClient.TableMessageShape | resources/example4/goose_api.js:167-171 | the table instruction holds the columns twice and ends with the query |
| GooseAppClient.Client.constructor | resources/example4/goose_api.js:38 | the client keeps the session id drawn at load time |
| GooseAppClient.Client.WaitForResponse | resources/example4/goose_api.js:109-132 | one GET of `/wait_for_response`; it succeeds exactly for an ok reply with a truthy `success` |
| GooseAppClient.Client.SendGooseRequestAndWait | resources/example4/goose_api.js:46-103 | the reset comes first, whatever it answers; then the POST of the message unchanged in the session; a failed POST throws with no wait, otherwise the wait decides |
| GooseAppClient.Client.GooseRequestText | resources/example4/goose_api.js:139-143 | the text instruction is the one message, and every POST carries the session id |
| GooseAppClient.Client.GooseRequestList | resources/example4/goose_api.js:150-154 | the list instruction is the one message, and every POST carries the session id |
| GooseAppClient.Client.GooseRequestTable | resources/example4/goose_api.js:162-174 | bad columns are refused before any call, the reset included; otherwise the table instruction is sent in the session |
| GooseAppClient.Client.ReportError | resources/example4/goose_api.js:181-231 | an empty message is refused; otherwise one POST in the same session; success answers "Error reported: " and the message |
| GooseStream.MergeOptions | resources/goose_api.js:34-40 | every given option overrides its own key only; the defaults fill the rest |
| GooseStream.StreamBodyOptions | resources/goose_api.js:43-58 | the body carries the message, and the session id and working directory of the options or of the defaults |
| GooseStream.SendGooseRequest | resources/goose_api.js:32-86 | one POST; a non-ok status throws the HTTP error; otherwise the response is returned unchanged |
| GooseStream.ChunksBeforeEnd | resources/goose_api.js:94-99 | no more chunks are delivered than there are reads |
| GooseStream.Decoded | resources/goose_api.js:102 | each chunk's text is decoded from the chunks before it and the chunk itself |
| GooseStream.NothingAfterDone | resources/goose_api.js:97-99 | reads after the end are never looked at |
| GooseStream.AllChunksDelivered | resources/goose_api.js:94-108 | a stream of chunks only hands over every chunk, in order, with no error |
| GooseStream.DecodedStep | resources/goose_api.js:102-107 | the texts of one more chunk are the texts so far, then its own |
| GooseStream.ProcessStreamingResponse | resources/goose_api.js:89-113 | the callback gets the decoded text of each chunk before the first end, once each and in read order, and nothing without a callback; a failed read is passed on |
| ShopHelper.EscapeQuotes | main.py:178 | every single quote becomes four characters and nothing else changes: the length is n + 3·quotes |
| ShopHelper.EscapeQuotesAppend | main.py:178 | escaping works character by character |
| ShopHelper.EscapeQuotesPlain | main.py:178 | a text without single quotes is copied as it is |
| ShopHelper.ShellQuote | main.py:178 | the quoted command starts and ends with a single quote, and its length is n + 2 + 3·quotes |
| ShopHelper.EscapedQuoteStep | main.py:178 | inside quotes, `'\''` gives one single quote and reopens the quotes |
| ShopHelper.QuotedRoundTrip | main.py:178 | the shell reads the escaped text back up to the closing quote |
| ShopHelper.ShellQuoteRoundTrip | main.py:178 | the shell's quote removal turns the quoted command back into the command |
| ShopHelper.CheckAdbConnection | main.py:113-127 | connected exactly when the stripped listing has more than one line; otherwise "No devices connected via ADB", the adb error, or adb not found |
| ShopHelper.CountCharPositive | main.py:120-121 | a character is counted exactly when it occurs |
| ShopHelper.HeaderOnlyIsNoDevice | main.py:120-123 | a header line followed only by whitespace means no device |
| ShopHelper.FirstSeen | main.py:189-205 | the first poll at which the result file is seen, or 90; no earlier poll saw it |
| ShopHelper.FirstSeenFrom | main.py:189-205 | a poll after polls that saw nothing is the first sighting when it sees the file or reaches 90 |
| ShopHelper.WaitForResultFile | main.py:189-205 | the loop finds the file exactly when some poll before the 90th sees it, and makes that many polls plus one, or 90 |
| ShopHelper.AwaitResult | main.py:189-218 | on timeout, 90 polls and "Command timed out after 90 seconds"; otherwise the polls up to the sighting, then the read, whose output or error is the result |
| ShopHelper.RunOnDevice | main.py:173-222 | remove, start the quoted command, wait, read, in that order; the first failing command ends the run with its error |
| ShopHelper.ShopHelperRun | main.py:151-222 | without a connected device the adb message is the error and no device command is issued; otherwise the device run, whose second command starts the quoted command |
| ShopHelper.WebSearchCommand | main.py:148 | the instruction is the fixed lead followed by the topic, as given |
| ShopHelper.WebSearch | main.py:140-148 | `shop_helper` on the instruction for the topic: the same error, failure, time-out and success cases, the same device commands, and the started command unquotes to exactly that instruction |

## Left out

- DOM work is not modelled: element lookup, `innerHTML`, event wiring, modals, drag CSS classes, and the progress display of the rewrite stages with its percentages and delays. The panels are modelled as values.
- `localStorage` load and save are left out: every list starts empty, as on a first visit.
- `fixGrammarAndStyle` (resources/example2/main.js:370-384) is a parameter of the stage pipeline, because it depends on regular-expression features (word boundaries, lookbehind, non-ASCII stripping) the model does not express.
- `createEvaluation` (resources/example2/main.js:394-601) is left out, for the same reason. Only the statistics counts are modelled.
- `getContrastColor` (resources/kitchen-sink/script.js:245-256) and the progress percentages are left out, because they use floating point.
- Ids from `Date.now()` and `Math.random()`, the clock, and the example app's random session id are inputs.
- The waits between stages and polls are not modelled: `delay`, `await` and `time.sleep`.
- Text.ToLower: only ASCII letters are lower-cased. The keyword lists are ASCII; the case folding of other scripts is left out.
- GooseProtocol.WaitResult: the engine's error texts for a body that is not JSON, and for JSON `null`, are stand-ins (`NotJsonError`, `NullResultError`). The language does not fix their wording.
- The parsing of the JSON text of a reply is not modelled: the reply body is given already parsed, or as `None` when it is not JSON. `JSON.stringify` of a whole request body is also left out; the body is a datatype.
- Request headers, the secret key and the port are left out.
- `TextDecoder` is an uninterpreted function of the earlier chunks and the current chunk.
- A stream script that ends without `done` ends the loop there.
- A callback that throws inside the stream loop is not modelled.
- Column lists are modelled as strings only. An array holding non-string values is not modelled.
- KitchenSink.DisplayTable: a table reply whose columns or rows pass the guard but are not arrays shows as `Unreadable`. The script's own failure inside its loops is not modelled further.
- The `if (item)` DOM check in `deleteFeedbackItem` is not modelled.
- The unexpected-exception path of `shop_helper` (main.py:223-225) is left out. It covers failures outside the modelled commands, such as a missing `adb` binary during the run.
- `shopper_profile` and `what_apps` (main.py:129-138) only pass fixed instructions to `shop_helper`. They are left out; `web_search` stands for the pattern.
- `update_status`, the file cleanup and the other tools of the server are left out, and so is `mcp.run`.
- The whole of resources/example4/script.js is list rendering and animation only, and is left out.
- ShopHelper.RunOnDevice: the remove and start commands (main.py:172-186) run without `text=True`, so their `stderr` is bytes while the read's is text. The model gives every `stderr` as a string and does not tell bytes from text.
