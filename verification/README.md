# NEXUS gaming agent console, modelled in Dafny

`ProGamingAgent` is the single React component behind the NEXUS AI gaming agent page.
It has the following parts:

- a command console whose transcript only ever grows;
- a text command interpreter that matches keywords by substring (`help`, `loot`,
  `target`, `heal`, `farm`, `feedback`, `connect`, `status`);
- four automation toggles;
- a game picker with a simulated two-second connection;
- a Connect/Disconnect button;
- a feedback form.

This project models the component's state as one immutable record (`Session.State`).
Each handler is a pure transition on that record, and the component as a whole is a step
function over the events the page can deliver (`Console.Step`, `Console.Run`).

The modules, leaf first:

- `Wrappers`: `Option`.
- `Strings`: the JavaScript string primitives the handlers use. These are
  `trim`, `toLowerCase`, `includes`, `replace` with a string pattern (together with
  the first-occurrence search, `indexOf`, that `replace` performs), and `join`. Each
  has an independent characterisation.
- `Catalog`: the games and automation catalogs, the `games.find` lookup of the
  `connect` command, and its miss reply.
- `Session`: the state record and the non-command handlers:
  - `toggleAutomation`;
  - the connection effect, which here is game selection plus an explicit timer event;
  - the Connect/Disconnect button;
  - feedback submit and Cancel;
  - the two text inputs.
- `Interpreter`: `handleCommandSubmit`, meaning the blank guard, the echo and the
  first-match dispatch.
- `Console`: events, runs, the append-only transcript, the state invariant kept by
  every run, and the connection-timing properties.
- `Scenarios`: concrete command lines (`help`, `loot target`, `connect valorant`,
  `connect minecraft`, `xyzzy`, a blank line) worked through the model.

The `useEffect` timer is modelled as a field, `pending: Option<string>`. It names the
game whose completion is scheduled. Changing `selectedGame` replaces it, which is the
effect's cleanup followed by a new `setTimeout`. Selecting the game that is already
selected leaves it alone, because the effect's dependency did not change. The separate
`TimerElapsed` event fires the completion.

The model follows the component's code as written, including these behaviours:

- The not-connected warning is appended on every toggle made while disconnected,
  both when the automation is added and when it is removed.
- A manual disconnect does not cancel a scheduled completion. When the timer fires
  afterwards, the session is connected again.
- Switching games while connected keeps the connected flag set while the status reads
  "Connecting...".
- Selecting or `connect`-ing to the game that is already selected schedules nothing.
- The game lookup takes the first catalog entry whose lower-cased name or whose id
  contains the query. An empty query (a bare `connect`) therefore finds Valorant.

## Model

| member | source | states |
|---|---|---|
| Strings.Trim | src/components/ProGamingAgent.tsx:76 | `trim` never lengthens its input. What it returns is pinned down by `TrimSpec` and `TrimUnique`. |
| Strings.TrimSpec | src/components/ProGamingAgent.tsx:76 | `trim` returns the infix of the input left after cutting the leading whitespace run and only whitespace behind it. The result neither starts nor ends with whitespace, and it is empty exactly when the input is all whitespace. |
| Strings.TrimUnique | src/components/ProGamingAgent.tsx:76 | Any infix cut only at whitespace whose ends are not whitespace equals `trim`'s result, so the characterisation in `TrimSpec` determines `trim` completely. |
| Strings.TrimIdempotent | src/components/ProGamingAgent.tsx:76 | Trimming twice is the same as trimming once. |
| Strings.TrimSkipsLeadingSpace | src/components/ProGamingAgent.tsx:76 | A whitespace character in front of a string does not change its trim. |
| Strings.BlankMeansAllSpace | src/components/ProGamingAgent.tsx:48 | The blank test used by the guards holds exactly when every character is ECMAScript whitespace. |
| Strings.BlankIffTrimEmpty | src/components/ProGamingAgent.tsx:104 | The blank test is exactly `!s.trim()`: it holds iff trimming leaves the empty string. |
| Strings.LowerChar | src/components/ProGamingAgent.tsx:51 | An ASCII capital maps to the lower-case letter 32 code points above it. Every other character is unchanged. |
| Strings.Lower | src/components/ProGamingAgent.tsx:51 | Lower-casing keeps the length and lowers each character in place. No upper-case ASCII letter remains. |
| Strings.LowerIdempotent | src/components/ProGamingAgent.tsx:51 | Lower-casing an already lower-cased command changes nothing. |
| Strings.IndexOf | src/components/ProGamingAgent.tsx:76 | The first-occurrence search (`indexOf`) that `replace` performs. The position found is an occurrence of the pattern and no earlier position is one. No result means the pattern occurs nowhere. |
| Strings.Contains | src/components/ProGamingAgent.tsx:58-84 | `includes`: some position of the text starts an occurrence of the pattern. Its partner is `ContainsIffIndexOf`. |
| Strings.ContainsIffIndexOf | src/components/ProGamingAgent.tsx:58-84 | `includes` holds exactly when `indexOf` finds a first position. |
| Strings.NotContainsByChar | src/components/ProGamingAgent.tsx:58-84 | A keyword with a character the command lacks is not included in it. |
| Strings.ReplaceFirst | src/components/ProGamingAgent.tsx:76 | A string without the pattern is returned unchanged. Otherwise only the first occurrence is replaced: the text before it and everything after it, including later occurrences, is kept verbatim, and the length changes by the difference of the pattern and replacement lengths. |
| Strings.ReplaceFirstAtStart | src/components/ProGamingAgent.tsx:76 | Removing a pattern from a string that starts with it leaves exactly the rest. |
| Strings.Join | src/components/ProGamingAgent.tsx:82 | `join` puts the separator between consecutive items. It is characterised by `JoinSnoc` and `JoinContains`. |
| Strings.JoinSnoc | src/components/ProGamingAgent.tsx:82 | Joining builds the string left to right, as ECMAScript's `join` does: appending an item appends the separator and then the item. |
| Strings.JoinContains | src/components/ProGamingAgent.tsx:82 | Every item of a joined list appears in the joined string. |
| Catalog.GameNames | src/components/ProGamingAgent.tsx:82 | `games.map(g => g.name)` has one name per game, in catalog order. |
| Catalog.FindGame | src/components/ProGamingAgent.tsx:77 | The lookup returns the first game whose lower-cased name or id contains the query. It returns none exactly when no game matches. |
| Catalog.FindGameById | src/components/ProGamingAgent.tsx:19-24 | In this catalog every game's id finds exactly that game, so each game can be reached by its id. The empty query finds the first game, Valorant. |
| Catalog.NotFoundLine | src/components/ProGamingAgent.tsx:82 | The miss reply: the fixed prefix, then the catalog's game names joined by ", ". Its exact text is given by `NotFoundLineText`. |
| Catalog.NotFoundLineListsGames | src/components/ProGamingAgent.tsx:82 | The miss reply starts with "Game not found. Available games: " and names every catalog game. |
| Catalog.NotFoundLineText | src/components/ProGamingAgent.tsx:82 | The miss reply is exactly the prefix followed by the four game names, comma-separated, in catalog order. |
| Session.RemoveAll | src/components/ProGamingAgent.tsx:95 | The `filter` drops every copy of the id and keeps every other entry with its multiplicity. A list without duplicates stays without duplicates. |
| Session.Toggle | src/components/ProGamingAgent.tsx:94-96 | The toggled id is in the new list exactly when it was absent. Every other id keeps its membership, and a list without duplicates stays without duplicates. |
| Session.ToggleAutomation | src/components/ProGamingAgent.tsx:93-100 | `toggleAutomation` flips the id's membership. It appends the warning exactly when not connected, whether the id was added or removed, and nothing else changes. |
| Session.ToggleTwice | src/components/ProGamingAgent.tsx:93-100 | Two toggles of the same id restore every membership. They leave two warnings when disconnected and none when connected. |
| Session.SelectGame | src/components/ProGamingAgent.tsx:34-44 | A new non-empty selection shows "Connecting..." and schedules a completion for that game, replacing any earlier one. Re-selecting the current game changes nothing. Clearing the selection cancels the completion. |
| Session.TimerFires | src/components/ProGamingAgent.tsx:37-41 | A scheduled completion connects. It sets the status to "Connected to" that game and appends the success line, and it fires only once. With nothing scheduled the event does nothing. |
| Session.TimerFiresOnce | src/components/ProGamingAgent.tsx:37-42 | A second firing after the first changes nothing. |
| Session.ConnectButton | src/components/ProGamingAgent.tsx:252-267 | Without a selected game the button does nothing. When connected it disconnects, drops every automation and logs the disconnect. Otherwise it connects at once and logs it. It never touches a scheduled completion. |
| Session.SubmitFeedback | src/components/ProGamingAgent.tsx:102-108 | A blank draft changes nothing. Otherwise the thanks line is appended, the draft cleared and the panel closed. |
| Session.SubmitFeedbackOnce | src/components/ProGamingAgent.tsx:102-108 | After a submission there is nothing left to submit: a second submit changes nothing. |
| Session.CancelFeedback | src/components/ProGamingAgent.tsx:202 | Cancel closes the panel and keeps everything else, including the draft. |
| Session.EditFeedback | src/components/ProGamingAgent.tsx:193 | Typing in the feedback box replaces only the draft. |
| Session.EditCommand | src/components/ProGamingAgent.tsx:141 | Typing in the command box replaces only the command text. |
| Interpreter.Classify | src/components/ProGamingAgent.tsx:58-88 | The branch the if/else chain picks is one whose test holds on the lower-cased line, and every branch before it in the fixed order fails its test. |
| Interpreter.ClassifyIsFirstMatch | src/components/ProGamingAgent.tsx:58-88 | The dispatch takes a branch exactly when its keyword test holds and every earlier branch's test fails. The order is help or "?", loot, target, heal, farm, feedback, connect, status, then the fallback. |
| Interpreter.FeatureOf | src/components/ProGamingAgent.tsx:60-71 | The k-th toggle branch in dispatch order (loot, target, heal, farm) flips the k-th catalog automation. Its id is "auto-" followed by the word the branch tests for, so `target`, `heal` and `farm` flip auto-target, auto-heal and auto-farm. |
| Interpreter.ConnectQuery | src/components/ProGamingAgent.tsx:76 | The game query of a `connect` line is at least the seven characters of "connect" shorter than the line. |
| Interpreter.ConnectQueryOfPrefixed | src/components/ProGamingAgent.tsx:76 | For a line starting with "connect", the query is the rest of the line, trimmed. |
| Interpreter.ConnectQueryOfWord | src/components/ProGamingAgent.tsx:76 | "connect " followed by a word without surrounding whitespace queries exactly that word. |
| Interpreter.ConnectById | src/components/ProGamingAgent.tsx:76-77 | "connect <id>" finds exactly the game with that id, for every game. |
| Interpreter.BareConnectSelectsFirst | src/components/ProGamingAgent.tsx:76-77 | A bare "connect" has an empty query and finds Valorant. |
| Interpreter.Respond | src/components/ProGamingAgent.tsx:58-88 | Every branch only appends to the transcript and leaves the command box alone. |
| Interpreter.SubmitCommand | src/components/ProGamingAgent.tsx:46-91 | A blank command changes nothing and the box keeps its text. Otherwise the raw command is echoed after "> " before any response, at least one response line follows, and the box is cleared. |
| Interpreter.RespondGrowth | src/components/ProGamingAgent.tsx:58-88 | Each branch appends exactly one response line, plus the warning only for a toggle issued while disconnected. |
| Interpreter.SubmitCommandGrowth | src/components/ProGamingAgent.tsx:46-91 | A non-blank command adds exactly the echo and one response line, plus the warning only for a toggle issued while disconnected. |
| Interpreter.SubmitCommandReply | src/components/ProGamingAgent.tsx:58-88 | `help`, `feedback`, `status` and unrecognised commands answer with their fixed line and change nothing else, apart from `feedback` opening the panel. `status` reports the current status. |
| Interpreter.SubmitCommandToggle | src/components/ProGamingAgent.tsx:60-71 | A toggle command flips its automation and keeps every other one. The warning, when due, sits between the echo and the "Toggled" line. |
| Interpreter.SubmitCommandConnectMiss | src/components/ProGamingAgent.tsx:81-83 | A `connect` command whose query matches no game appends only the miss reply and changes nothing else. |
| Interpreter.SubmitCommandConnectHit | src/components/ProGamingAgent.tsx:78-80 | A `connect` command whose query matches selects the first matching game and reports the attempt. A new selection starts connecting and a repeated one schedules nothing. The connected flag and automations are untouched. |
| Interpreter.RespondConnectHit | src/components/ProGamingAgent.tsx:78-80 | On a hit the `connect` branch selects the game first and then appends the attempt line. |
| Console.Step | src/components/ProGamingAgent.tsx:34-302 | One page event applied to the state: each event is routed to its handler. Its properties are given by `StepAppendOnly` and `StepKeepsInv`. |
| Console.Run | src/components/ProGamingAgent.tsx:34-302 | A sequence of page events applied in order. Its properties are given by `RunAppendOnly` and `RunKeepsInv`. |
| Console.StepAppendOnly | src/components/ProGamingAgent.tsx:40-108 | No event edits or removes a transcript line. At most it appends. |
| Console.RunAppendOnly | src/components/ProGamingAgent.tsx:40-108 | Over any sequence of events the earlier transcript is a prefix of the later one. |
| Console.InitialInv | src/components/ProGamingAgent.tsx:10-17 | The freshly mounted component satisfies the state invariant. |
| Console.StepKeepsInv | src/components/ProGamingAgent.tsx:34-108 | Every event the page can deliver keeps the invariant. A pending completion is for the current selection. The status is one of the three descriptions and agrees with the connected flag. Automations are catalog ids, listed once each. |
| Console.RunKeepsInv | src/components/ProGamingAgent.tsx:34-108 | Every run of page events from an invariant state ends in an invariant state. |
| Console.StatusReport | src/components/ProGamingAgent.tsx:84-85 | The `status` reply is "Disconnected", "Connecting..." or "Connected to" the selected catalog game. |
| Console.CompletionConnectsSelected | src/components/ProGamingAgent.tsx:37-41 | In a reachable state a firing completion connects to the currently selected game. |
| Console.SupersededCompletion | src/components/ProGamingAgent.tsx:34-44 | Picking one game and then another before the timer fires connects only to the second. Nothing is left to fire afterwards. |
| Console.SwitchWhileConnected | src/components/ProGamingAgent.tsx:35-36 | Switching games while connected keeps the connected flag while the status reads "Connecting...". |
| Console.DisconnectThenCompletion | src/components/ProGamingAgent.tsx:252-260 | A manual disconnect leaves a scheduled completion in place, and its firing reconnects the session. |
| Console.TypedLineIsEchoed | src/components/ProGamingAgent.tsx:141 | Typing a line and pressing Execute echoes exactly what was typed and clears the box. A blank line leaves the transcript as it was and the box holding the typed text. |
| Console.FeedbackRoundTrip | src/components/ProGamingAgent.tsx:193 | Typing a draft and submitting it thanks the player, clears the draft and closes the panel. A blank draft is kept and nothing else changes. |
| Console.CancelThenExecute | src/components/ProGamingAgent.tsx:202 | Cancel followed by Execute is the command handler run on the state with the panel closed. |
| Console.CancelThenReopen | src/components/ProGamingAgent.tsx:72-74 | After Cancel, the `feedback` command reopens the panel with the earlier draft intact. |
| Scenarios.StartsWithWord | src/components/ProGamingAgent.tsx:58-84 | A command starting with a keyword includes it. |
| Scenarios.BlankLineIgnored | src/components/ProGamingAgent.tsx:48 | Submitting three spaces changes nothing. |
| Scenarios.HelpScenario | src/components/ProGamingAgent.tsx:58-59 | "help" echoes and answers with the command list, and nothing else changes. |
| Scenarios.UpperCaseHelpScenario | src/components/ProGamingAgent.tsx:50-59 | "HELP" is matched without regard to case and answered with the command list. The echo keeps the capitals as typed. |
| Scenarios.ParseLootTarget | src/components/ProGamingAgent.tsx:58-62 | "loot target" takes the `loot` branch. |
| Scenarios.FirstKeywordWins | src/components/ProGamingAgent.tsx:60-65 | "loot target" flips Auto Loot only, leaves Auto Target alone, and warns when disconnected. |
| Scenarios.ValorantLineMisses | src/components/ProGamingAgent.tsx:58-74 | "connect valorant" includes none of the keywords tested before `connect`. |
| Scenarios.ParseConnectValorant | src/components/ProGamingAgent.tsx:51-75 | "connect valorant" is non-blank, already lower case, and takes the `connect` branch. |
| Scenarios.QueryConnectValorant | src/components/ProGamingAgent.tsx:76-77 | Its query is "valorant", which finds Valorant. |
| Scenarios.ConnectValorantScenario | src/components/ProGamingAgent.tsx:75-80 | "connect valorant" reports the attempt, selects Valorant and starts connecting without touching the connected flag. |
| Scenarios.ConnectSelectsNewGame | src/components/ProGamingAgent.tsx:75-80 | A `connect` line whose query finds a game other than the selected one reports the attempt and starts connecting to that game. |
| Scenarios.ConnectValorantCompletes | src/components/ProGamingAgent.tsx:37-41 | When its timer fires, the session is connected to Valorant and the success line follows the attempt line. |
| Scenarios.MinecraftLineMisses | src/components/ProGamingAgent.tsx:58-74 | "connect minecraft" includes none of the keywords tested before `connect`. |
| Scenarios.ParseConnectMinecraft | src/components/ProGamingAgent.tsx:51-75 | "connect minecraft" takes the `connect` branch. |
| Scenarios.GameAvoidsM | src/components/ProGamingAgent.tsx:19-24 | No catalog game has the letter m in its name, in either case, or in its id. |
| Scenarios.QueryStartingWithMMisses | src/components/ProGamingAgent.tsx:77 | A query starting with m matches no game. |
| Scenarios.QueryConnectMinecraft | src/components/ProGamingAgent.tsx:76-77 | The query of "connect minecraft" is "minecraft", which matches no game. |
| Scenarios.ConnectUnknownGameScenario | src/components/ProGamingAgent.tsx:81-83 | "connect minecraft" appends only the miss reply and changes nothing else. |
| Scenarios.ToggleDisconnectedScenario | src/components/ProGamingAgent.tsx:93-100 | Pressing Auto Loot on the fresh component activates it and appends the warning. |
| Scenarios.EmptyFeedbackScenario | src/components/ProGamingAgent.tsx:104 | Submitting an empty draft changes nothing, and the panel stays as it was. |
| Scenarios.UnknownCommandScenario | src/components/ProGamingAgent.tsx:86-87 | "xyzzy" gets the fallback line and nothing else changes. |

## Left out

- JSX rendering, line colouring (lines 159-170), icons, styling and the `ui/*.tsx` wrappers are presentation and hold no state.
- The Connect button's `disabled` attribute (line 268) is not modelled. The handler itself ignores the press when no game is selected, and the model does the same.
- The feedback form exists only while the panel is open. The model accepts its events in any state, and there they act as the handlers would.
- React's batching of `setState` calls is not modelled: each handler is one atomic transition. Event objects and `preventDefault` are left out too.
- `Interpreter.SubmitCommand`: the `status` reply reads the status of the state it is given. The stale closure a real render could capture is not modelled.
- The 2000 ms delay and wall-clock time are not modelled: the timer's expiry is the explicit `TimerElapsed` event, delivered whenever the environment chooses.
- `Strings.Lower`: lowers ASCII letters only, whereas JavaScript's `toLowerCase` lowers all of Unicode. This can change the branch a line takes. Some non-ASCII capitals lower to ASCII letters, such as U+212A KELVIN SIGN, which lowers to `k`. So `"FEEDBAC\u212A"` lowers to `"feedback"` in the component and opens the feedback panel, while the model leaves it unlowered and answers with the fallback line. Matching of lines made of ASCII letters is modelled exactly.
- `Strings.Trim`: its own contract states only that the result is no longer than the input. The full characterisation is in `Strings.TrimSpec` and `Strings.TrimUnique`. It is kept out of the function's contract because every command line the model evaluates would then unfold it.
- `Interpreter.ConnectQuery`: its own contract states only a length bound. The exact query is given by `ConnectQueryOfPrefixed` and `ConnectQueryOfWord`, and `Strings.ReplaceFirst` states that only the first "connect" of the line is removed.
- `Console.StepKeepsInv`: holds for the events the page can produce (catalog game names and automation ids). An arbitrary name or id is not covered.
