# Agentic Chat Bot — a Dafny model of its core

The Agentic Chat Bot turns a request such as "Organize a robotics club
workshop" into a list of subtasks. It then maps each subtask to one of eight
action types, and shows mock agent logs for every action. This project
models the deterministic part of that pipeline and proves what it does.

- **Backend pipeline** (`backend.dfy`, module `Backend`). It covers:
  - the cleaning of the subtask model's reply (`strip`, `split("\n")`, then `lstrip("123456.-•* ").strip()` on every non-blank line);
  - the `"\n".join` that builds the mapping model's input;
  - `process_query`, which returns the cleaned subtasks and their mapping.

  The two hosted language models are parameters: functions from prompt input to reply.
- **Python text operations** (`pytext.dfy`, module `PyText`): `isspace`, `lstrip`, `rstrip`, `strip`, `split`, `join`, substring `in` and `lower`, over strings of code points. The backend and the chatbot page build on them.
- **Demo chatbot page** (`chatbot.dfy`, module `Chatbot`). It covers:
  - the keyword decomposer `break_into_subtasks`;
  - the four canned messages of `agent_progress`;
  - the session's `messages` history, as a class. The sidebar button's handler appends to the history with nested loops and never changes earlier entries.
- **Demo front end** (`frontend.dfy`, module `Frontend`). It covers:
  - the `ACTION_EMOJI` and `MOCK_LOGS` tables and their lookups with defaults;
  - the subtask list and mapped-action list, both numbered from 1;
  - the agent-log panels;
  - the `KeyError` a mapped record without `"action_type"` or `"subtask"` raises, which stops the page.

  The panel flag `expanded=(i == 0)` is evaluated with numbering from 1, so no panel ever starts expanded. The model keeps this behaviour and proves it.

Some quirks of the reply cleaning follow from `lstrip` taking a character
set rather than a prefix. They are proved on single lines:
- "10. X" becomes "0. X".
- "7. X" is kept whole, because 0 and 7 to 9 are not in the set.
- "3D print" loses its "3".
- A line holding only "1." or "-" is not blank, so it is kept and becomes an empty subtask.

## Model

| member | source | states |
|---|---|---|
| PyText.LStripSpec | Backend/backend.py:46 | `lstrip(chars)` keeps a suffix of the line and removes only characters of the set. It stops at the first character outside the set, so it removes the longest such prefix. |
| PyText.RStripSpec | Backend/backend.py:45 | The trailing half of `strip()` keeps a prefix and removes only set characters. It stops at the last character outside the set. |
| PyText.Strip | Backend/backend.py:45-46 | `strip()` never lengthens a string and leaves no whitespace at either end. |
| PyText.StripRemovesOnlyWhitespace | Backend/backend.py:45-46 | The stripped string is a contiguous part of the original, and everything around it is whitespace. |
| PyText.StripEmptyIff | Backend/backend.py:46 | A line is blank (falsy after `strip()`) if and only if it is all whitespace. |
| PyText.StripTrailingSpace | Backend/backend.py:45-46 | Appending one whitespace character does not change the stripped result. |
| PyText.StripTrimmed | Backend/backend.py:46 | A string with no whitespace at its ends is unchanged by `strip()`, so stripping twice is stripping once. |
| PyText.Count | Backend/backend.py:45 | The number of separators is at most the length, and is zero exactly when the separator is absent. |
| PyText.Split | Backend/backend.py:45 | `split("\n")` gives one more piece than there are separators, and no piece contains the separator. |
| PyText.JoinSplit | Backend/backend.py:45 | Joining the pieces of a split with the same separator gives the original string back. |
| PyText.SplitJoin | Backend/backend.py:52 | Splitting a `"\n".join` of a non-empty list whose items have no line break gives the list back. |
| PyText.ComprehensionAppend | Backend/backend.py:46 | A filtered list comprehension over two concatenated lists is the concatenation of the two comprehensions. |
| PyText.ComprehensionCount | Backend/backend.py:46 | A filtered comprehension has exactly one result per kept element. It is empty exactly when nothing is kept. |
| PyText.ComprehensionOrigin | Backend/backend.py:46 | Every result of a filtered comprehension is `f` of some kept input, and the results after it come from the inputs after that one. |
| PyText.Contains | chatbot.py:15-17 | Substring `in` is true if and only if the word occurs at some position. |
| PyText.Lower | chatbot.py:15-17 | `lower()` leaves no ASCII capital. A-Z and the Kelvin sign are lowered character for character, and every other character is unchanged (see "Left out" for U+0130). |
| PyText.LowerIgnoresAsciiCase | chatbot.py:15-17 | Two strings that differ, position by position, only in the case of ASCII letters lower to the same string. |
| PyText.LowerUpper | chatbot.py:15-17 | Lowering erases the upper-casing of every ASCII letter of the string. |
| Backend.ActionTypeChoicesComplete | Backend/backend.py:32 | The mapping prompt offers all eight action types, each once, under distinct names. |
| Backend.CleanLine | Backend/backend.py:46 | A cleaned line is never longer than the line and has no whitespace at its ends. |
| Backend.CleanLineSpec | Backend/backend.py:46 | A cleaned line is the rest of the line after its longest prefix of marker characters, stripped of whitespace. |
| Backend.CleanLineNoNewline | Backend/backend.py:46 | Cleaning a line never introduces a line break. |
| Backend.CleanLinesEntries | Backend/backend.py:46 | Each subtask is the cleaned form of a non-blank line, has trimmed ends, and holds no line break when the lines hold none. |
| Backend.CleanLinesByLine | Backend/backend.py:46 | Lines are cleaned one by one, in order. A blank line contributes nothing and a non-blank one contributes its cleaned form. |
| Backend.CleanLinesCount | Backend/backend.py:46 | The number of subtasks equals the number of non-blank lines. It equals the number of lines when none is blank, and is zero exactly when all are blank. |
| Backend.CleanReply | Backend/backend.py:45-46 | A reply gives at most one subtask more than the line breaks of its stripped text. |
| Backend.CleanReplyEntries | Backend/backend.py:45-46 | Every subtask returned by `get_subtasks` has trimmed ends and no line break. |
| Backend.GetSubtasks | Backend/backend.py:41-47 | `get_subtasks` returns "clean subtasks": each has no whitespace at its ends and no line break. The list is the cleaned reply of one subtask-model call on the query. |
| Backend.MapSubtasks | Backend/backend.py:49-53 | `map_subtasks` calls the mapping model once, on a text that holds the subtasks one per line. That text splits back into the subtasks whenever the list is non-empty and has no line breaks. |
| Backend.MappingInputRoundTrip | Backend/backend.py:52 | The mapping input holds each subtask on its own line, in order: the `"\n".join` of a non-empty list without line breaks splits back into that list. |
| Backend.ProcessQuery | Backend/backend.py:55-59 | `process_query` returns the subtasks unchanged together with the mapping of exactly those subtasks. |
| Backend.ProcessQueryMappingInput | Backend/backend.py:52-58 | In `process_query`, the mapping model sees the cleaned subtasks one per line, or the empty text when there are none. |
| Backend.MarkerOnlyLine | Backend/backend.py:46 | A line made only of marker characters, not all spaces, passes the blank test and yields an empty subtask. |
| Backend.NonMarkerHead | Backend/backend.py:46 | A line that starts with a non-marker character is only stripped of whitespace. |
| Backend.CarriageReturnDropped | Backend/backend.py:45-46 | The `\r` a CRLF line ending leaves at the end of a line does not change the subtask. |
| Backend.OneLineReply | Backend/backend.py:45-46 | A non-blank one-line reply with no whitespace at its ends yields exactly one subtask, its cleaned form. |
| Backend.MarkerThenTitle | Backend/backend.py:46 | One marker character before a trimmed title that starts with a non-marker is removed, and nothing else is. |
| Backend.SevenIsNotAMarker | Backend/backend.py:46 | "7. X" is kept whole. |
| Backend.TenLosesItsOne | Backend/backend.py:46 | "10. X" becomes "0. X". |
| Backend.LeadingDigitOfTitleLost | Backend/backend.py:46 | "3D print" becomes "D print". |
| Backend.NumberOnlyLineKept | Backend/backend.py:46 | "1." is not blank and becomes an empty subtask. |
| Backend.DashOnlyLineKept | Backend/backend.py:46 | "-" is not blank and becomes an empty subtask. |
| Chatbot.BreakIntoSubtasks | chatbot.py:14-20 | The plan is always one of the three fixed lists: four items, or three for the default. No item is empty. |
| Chatbot.PlanChoice | chatbot.py:14-20 | Workshop plan if and only if the lower-cased query contains "workshop". Project plan if and only if it contains "project" but not "workshop". Default plan if and only if it contains neither. |
| Chatbot.CaseInsensitive | chatbot.py:15-17 | Changing the case of any ASCII letters of the query never changes the plan. This includes upper-casing every ASCII letter of the query. |
| Chatbot.ButtonQueryPlan | chatbot.py:30-36 | The button's query gets the workshop plan. |
| Chatbot.AgentTag | chatbot.py:24-27 | The agent tag is the task plus twelve characters of framing. |
| Chatbot.AgentProgress | chatbot.py:22-28 | An agent reports exactly four messages. |
| Chatbot.AgentProgressSpec | chatbot.py:22-28 | Every message starts with "Agent for '<task>'". The last ends with ✅. The four messages are distinct. |
| Chatbot.AgentProgressInjective | chatbot.py:24-27 | Different tasks give different messages at every stage. |
| Chatbot.LogMessages | chatbot.py:39-42 | Each task appends its four messages, in order, as assistant messages. |
| Chatbot.Transcript | chatbot.py:38-42 | The handler's loops append four messages per subtask. |
| Chatbot.TranscriptAppend | chatbot.py:38-42 | The transcript grows at its end, one task at a time. |
| Chatbot.TranscriptAt | chatbot.py:38-42 | Message 4k+j of the transcript is message j of task k, so nothing is interleaved or reordered. |
| Chatbot.HandlerLog | chatbot.py:33-42 | The handler adds 1 + 4·(number of subtasks) messages. The first is the user's query and all later ones are assistant messages. |
| Chatbot.HandlerLogLast | chatbot.py:38-42 | The last message a query adds is the completion message of the agent for its last subtask. |
| Chatbot.ButtonHandlerLog | chatbot.py:30-42 | The button adds 17 messages. The last is the completion message of the "Announce event" agent. |
| Chatbot.Session.constructor | chatbot.py:11 | A new session has no `messages` key. |
| Chatbot.Session.InitMessages | chatbot.py:11-12 | `messages` is set to the empty list only when absent, so reruns keep the history. |
| Chatbot.Session.SubmitQuery | chatbot.py:33-42 | The handler's new history is the old history followed by the query message and the transcript of its subtasks. Earlier entries are untouched. |
| Chatbot.Session.RunAgents | chatbot.py:38-42 | The outer loop appends the transcript of the subtasks and nothing else. |
| Chatbot.Session.PostProgress | chatbot.py:39-42 | The inner loop appends the four progress messages of one task and nothing else. |
| Chatbot.Session.Run | chatbot.py:11-43 | One run of the page initialises the history if needed, then appends the button's log when pressed. The previous history is always a prefix. |
| Frontend.EmojiFor | Frontend/frontend.py:59-65 | The emoji lookup gives the table entry for a known action type, and 🔧 if and only if the type is unknown. |
| Frontend.LogsFor | Frontend/frontend.py:67 | The log lookup gives the table entry (3 or 4 steps) for a known action type, and the default steps if and only if the type is unknown. Either way, the last step starts with ✅. |
| Frontend.TablesMatchActionTypes | Frontend/frontend.py:21-41 | Both tables have the same keys, which are exactly the names of the eight action types the mapping prompt offers. |
| Frontend.KnownActionNoDefault | Frontend/frontend.py:21-41 | No offered action type falls back to a default emoji or default logs. |
| Frontend.SubtaskList | Frontend/frontend.py:50-51 | The subtask list is numbered consecutively from the first number, one line per subtask. |
| Frontend.SubtaskListTexts | Frontend/frontend.py:50-51 | Numbering keeps every subtask, in order. |
| Frontend.MissingKey | Frontend/frontend.py:60 | A record without "action_type" fails on "action_type", even when "subtask" is missing too. Otherwise an incomplete record fails on "subtask". The failing key is always absent from the record. |
| Frontend.FirstIncomplete | Frontend/frontend.py:58-66 | Every record before the returned position has both keys, and the record at that position does not. |
| Frontend.Get | Frontend/frontend.py:59 | `m.get(key, default)` gives the value when the key is present, and the default otherwise. |
| Frontend.ActionSection | Frontend/frontend.py:58-60 | One line per record, numbered in order, until the first incomplete record, which raises `KeyError` for its first missing key. |
| Frontend.PanelSection | Frontend/frontend.py:63-68 | One panel per record, with its emoji, subtask and mock logs, until the first incomplete record. A panel is expanded only when its number is 0. |
| Frontend.Render | Frontend/frontend.py:49-68 | The page shows the numbered subtasks and then the action lines, and fails with the action section's error. |
| Frontend.RenderSpec | Frontend/frontend.py:58-66 | The page fails if and only if some record lacks a key, naming the first missing key of the first incomplete record, and then shows no panel. Otherwise every record has a line and a panel numbered k+1, with the same subtask, and no panel is expanded. |
| Frontend.PanelMatchesLine | Frontend/frontend.py:59-67 | A record's panel shows the same emoji as its line, together with the logs of its action type, which end in a ✅ step. |
| Frontend.RunPipeline | Frontend/frontend.py:45-58 | For the same model replies, "Run Pipeline" renders what `process_query` returns. The subtask model runs at temperature 0.3 (Backend/backend.py:10), so a separate call can get a different reply. |
| Frontend.RunPipelineSubtasks | Frontend/frontend.py:47-51 | The page's subtask list is the backend's cleaned list, numbered from 1. |

## Left out

- The subtask and mapping models (Groq chat models behind LangChain prompt chains, Backend/backend.py:10-39, 43-44, 51) and the JSON output parser are parameters: a function from prompt input to reply. The prompt text and the model settings are not modelled.
- Enum validation of `action_type` values: nothing checks that the mapping model returns one of the offered types. The model takes records as they come and applies the emoji and log defaults.
- Mapped records are `map<string, string>`. Non-string JSON values, and a mapping result that is not a list of objects, are not modelled.
- The `json.loads` normalisation at Frontend/frontend.py:55 is not modelled: `map_subtasks` already returns parsed data.
- The import plumbing at Frontend/frontend.py:4-19 is not modelled. This includes the path setup, which refers to an undefined name `backend` at line 6, and the import-error banner.
- Loading credentials from `.env` and Streamlit secrets (Backend/backend.py:8-9) is not modelled.
- Streamlit rendering is not modelled: page set-up, titles, spinners, chat bubbles, expanders as widgets, and the `time.sleep(0.8)` delays. The replay loop at chatbot.py:46-47 only displays the history and does not change it.
- The text formatting of displayed lines (`f"{i}. {s}"` and similar) is not modelled. Lines are values carrying their number, emoji and texts.
- The text box and button of the front end are not modelled: the query and the press are inputs. The chatbot's sidebar button is the `pressed` parameter of `Chatbot.Session.Run`.
- fix.py, Agt.py and Chatbot.py are not part of this model: they are separate variants of the app.
- Chatbot.Session.Run: the contracts describe a button handler that runs to completion. In Streamlit, pressing the sidebar button again while the handler is running (it waits 0.8 s before each of its 16 assistant appends, chatbot.py:38-43) stops the script at its next `st.*` call and starts a rerun. The history then holds a non-empty prefix of `HandlerLog(query)` (the user message and the first k assistant messages), and the rerun appends a full `HandlerLog` after it. Earlier messages are still never changed, but a pressed run is not guaranteed to add the whole log.
- Chatbot.Session.SubmitQuery: the same early stop applies. It can leave only a non-empty prefix of `HandlerLog(query)` appended, while the contract states the whole log.
- PyText.Lower: folds only ASCII A-Z and the Kelvin sign (U+212A) character for character, and keeps every other code point. Python lowers other cased letters too. It also lowers U+0130 (capital I with dot above) to two code points, "i" followed by U+0307, so Python's `lower()` does not always keep the length. For a keyword containing "i", the model and Python could disagree. Neither "workshop" nor "project" contains "i", and U+0130 and the other non-ASCII letters lower to no other letter of these two keywords. So which plan is chosen is the same in the model and in Python.
- PyText.Upper: folds only ASCII a-z and appears only in the case-insensitivity property. Python's full `str.upper()` is not covered by that property: it maps U+017F (long s) to "S", so `break_into_subtasks("work\u017fhop")` gets the default plan, while the same query after `.upper()` gets the workshop plan.
