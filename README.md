# Story traversal of the "survive in Korea" browser game, in Dafny

The game plays a branching story. A story is a map from node ids to nodes. A
node holds a list of messages and either a `next_ids` link (a `lines` node) or
a set of choice buttons (a `choice` node). The player shows one message at a
time. After a message it offers a "next" button, the choices, or (on the clear
node) a restart button. At the last message of a node it adds to three play
statistics. A survival countdown of three to five minutes runs beside the
story and forces the end node when it runs out.

Two scripts implement this, and both are modelled:

- `js/app/main.js`, the current player. It resolves links by shape: `null`,
  a string, or an array from which one element is drawn at random. It falls
  back to the clear node for ids with no node. It also keeps the statistics,
  locks a choice set after its first click, and normalises line breaks for
  the typewriter effect.
- `main.js`, an earlier prototype with the same skeleton. It has no random
  branches, no clear-node fallback and no pause.

Layout:

- `common.dfy` (`Common`): `Option` (JavaScript's `null`) and the
  `Math.floor(Math.random() * n)` idiom, with `Math.random()` given as a real
  `u` in [0, 1).
- `story.dfy` (`Story`): the current player's story graph and its pure
  decisions: link resolution, the button rule and the statistics update.
- `traversal.dfy` (`Traversal`): the current player's state as a value, and
  each step (`runNode`, `renderNode`, `renderMsg`, `afterTextRender`,
  `nextLine`, the choice handler, the timer) as a function from state to
  state. The lemmas about runs of steps live here.
- `player.dfy` (`Player.Session`): the same player as a class whose methods
  update its fields in place, as the script updates `gameStateObj`. Each
  method is proved to produce the state its `Traversal` function gives.
- `typewriter.dfy` (`Typewriter`): the text handling of `typeWriterEffect`.
- `prototype.dfy` (`Prototype`) and `prototype_player.dfy`
  (`PrototypePlayer.Session`): the same two layers for `main.js`.

Randomness, timers and clicks are explicit inputs. The interval callback is a
`Tick` method, and a "next" click or choice click is a method call. The 400 ms
delay after a choice click is its own step, `ChoiceDelayElapsed`, because the
lock of a choice set only matters during that delay.

Where the intended design and the code differ, the model follows the code:

- A `null` or empty link is not turned into the clear node's id. `runNode`
  records `null` as the current episode. `renderNode` then looks up the key
  `"null"` and, finding nothing, shows the clear node. An empty string link
  counts as `null` too (`!""` is true).
- Only an id with no node stops the countdown. A link that names `ep_clear`
  directly shows the clear node with the timer still running
  (`Traversal.ClearByNameKeepsTimer`).
- Statistics are applied every time the last message of a node is drawn,
  provided its message type is recognised. A message of unknown type never
  reaches `afterTextRender`: it gets no buttons and no statistics.
- When the countdown expires, clearing the interval does not null
  `timerInterval`. A choice clicked before the expiry still navigates once
  its delay elapses, taking the player away from the end node
  (`Traversal.ExpiryKeepsPendingChoice`).
- In both scripts, a `choice` node with more than one message offers nothing
  on its earlier messages, so the player cannot advance past them
  (`Story.ButtonsFor`, `Prototype.ButtonsFor`).
- The prototype's `nextLine` never updates `currentPromptIndex`: it stays 0
  while the prompts advance (`Prototype.WalkThroughEpisode`). A `next` that
  names no node leaves the last prompt on screen for good
  (`Prototype.MissingNextIsStuck`).

## Model

| member | source | states |
|---|---|---|
| `Common.RandomIndex` | js/app/main.js:366 | `floor(u * k)` for a draw `u` in [0, 1) is an index in [0, k), and `u * k` lies in [i, i + 1) |
| `Common.RandomIndexCovers` | js/app/main.js:366 | every index i < k is produced by the draw `i / k`, so no array element is unreachable |
| `Common.TimeLimit` | js/app/main.js:119-121 | the drawn survival limit lies in [180, 300] seconds |
| `Common.TimeLimitCovers` | main.js:154-156 | every limit in [180, 300] is produced by some draw |
| `Story.Resolve` | js/app/main.js:361-374 | absent or other-typed links, the empty string and the empty array give `null`; a non-empty string gives itself; a non-empty array gives one of its own elements |
| `Story.ResolveReachesEvery` | js/app/main.js:364-367 | each element of a non-empty array link is the result for some draw |
| `Story.KeyOf` | js/app/main.js:382 | a string id is looked up as itself, and `null` as the key "null" |
| `Story.ButtonsFor` | js/app/main.js:334-350 | the clear node offers exactly the restart button; otherwise a `lines` node offers "next" on every message, and a `choice` node offers its choices, unlocked, exactly on its last message and nothing before it |
| `Story.TextCount` | js/app/main.js:313-322 | an absent `txt_cnt` adds nothing; a present one adds its value |
| `Story.PlayStats` | js/app/main.js:310-332 | the read-text count grows by the node's text count; a `choice` node adds 1 choice moment and `choices.length` options; other nodes leave both choice counters unchanged |
| `Story.PlayStatsMonotone` | js/app/main.js:310-332 | with non-negative text counts, no counter decreases |
| `Traversal.Initial` | js/app/main.js:2-18 | the starting state: episode `ep1`, zero counters, no timer handle, the title screen, no queued choice; the state invariant holds from the start |
| `Traversal.StartLifeTimer` | js/app/main.js:118-126 | the limit is in [180, 300], the remaining time equals it, the interval runs with its handle recorded, and nothing else changes |
| `Traversal.PauseLifeTimer` | js/app/main.js:141-145 | no recorded handle leaves the timer as it was; otherwise the interval stops; either way the handle ends up null and the countdown values are kept |
| `Traversal.AfterTextRender` | js/app/main.js:334-350 | the buttons are the ones `ButtonsFor` decides, and the statistics move exactly when the last message of a non-clear node is shown |
| `Traversal.RenderMsg` | js/app/main.js:173-227 | the message is on screen; a message of unknown type gets no buttons and no statistics; the statistics move only on the last message of a non-clear node; episode, timer and pending choices are untouched |
| `Traversal.RenderNode` | js/app/main.js:381-400 | a present id shows its node from message 0 with the timer untouched; a missing id shows the clear node from message 0 and pauses the timer; the recorded episode is not overwritten |
| `Traversal.RunNode` | js/app/main.js:357-378 | the current episode becomes the resolved id even when it is `null` or names no node; a node is shown from message 0; the state invariant is kept |
| `Traversal.NextLine` | js/app/main.js:154-170 | from index i with i + 1 < N it shows message i + 1 of the same node with episode and timer unchanged; otherwise it runs the node's `next_ids` |
| `Traversal.ClickNext` | js/app/main.js:300-306 | the "next" button shows the following message of the node on screen when there is one, with episode and timer unchanged; after the last message it runs the node's `next_ids` |
| `Traversal.ClickChoice` | js/app/main.js:247-255 | a click on a locked set changes nothing; on an unlocked set it locks the set and queues exactly that choice's link |
| `Traversal.ChoiceDelayElapsed` | js/app/main.js:256-258 | the oldest queued choice link is run and removed from the queue |
| `Traversal.Tick` | js/app/main.js:126-135 | each firing takes exactly one second off; above zero nothing else changes; at zero or below the interval stops and the episode becomes `ep_end`; a stopped interval never fires |
| `Traversal.LinesMessage` | js/app/main.js:334-347 | each message of a drawable `lines` node offers "next", and the statistics move only on its last message |
| `Traversal.StepsWithinNode` | js/app/main.js:154-170 | from message j, k presses of "next" show message j + k of the same node |
| `Traversal.WalkThroughLinesNode` | js/app/main.js:154-170 | in an N-message `lines` node, the first N-1 presses stay in the node, the statistics move once (on the last message), and the N-th press runs `next_ids` |
| `Traversal.EnterChoiceNode` | js/app/main.js:339-347 | reaching a one-message choice node adds 1 choice moment and all its options, and offers its choices unlocked |
| `Traversal.MissingNodeShowsClear` | js/app/main.js:376-389 | a link to no node records the resolved id, shows the clear node with only the restart button, stops the timer, and leaves the statistics unchanged |
| `Traversal.ChoiceLockedAfterFirstClick` | js/app/main.js:239-258 | within one choice set only the first click queues a link; every later click is a no-op |
| `Traversal.CountdownRuns` | js/app/main.js:126-135 | while more than n seconds remain, n firings only decrement the remaining time by n |
| `Traversal.SurvivalCountdown` | js/app/main.js:118-136 | after the start, limit - 1 firings leave the game untouched, and firing number `limit` stops the interval and runs `ep_end` |
| `Traversal.ExpiryKeepsPendingChoice` | js/app/main.js:131-133 | expiry shows `ep_end` but keeps the queued choice, whose delay later runs its link anyway |
| `Traversal.NullLinkShowsClear` | js/app/main.js:361-389 | an absent, empty, other-typed or empty-array link resolves to `null`; in a story with no "null" key it shows the clear node with only the restart button and stops the timer |
| `Traversal.ClearByNameKeepsTimer` | js/app/main.js:381-387 | a link naming the clear node shows it without pausing the timer |
| `Player.Session.constructor` | js/app/main.js:2-18 | a fresh session holds `gameStateObj`'s initial values: episode `ep1`, zero counters, no timer |
| `Player.Session.StartLifeTimer` | js/app/main.js:118-136 | sets the fields as `Traversal.StartLifeTimer` describes |
| `Player.Session.Tick` | js/app/main.js:126-135 | updates the fields as `Traversal.Tick` describes |
| `Player.Session.PauseLifeTimer` | js/app/main.js:141-145 | leaves no handle and no running interval, and changes nothing else |
| `Player.Session.RunNode` | js/app/main.js:357-378 | updates the fields as `Traversal.RunNode` describes |
| `Player.Session.RenderNode` | js/app/main.js:381-400 | updates the fields as `Traversal.RenderNode` describes |
| `Player.Session.RenderMsg` | js/app/main.js:173-227 | updates the fields as `Traversal.RenderMsg` describes |
| `Player.Session.AfterTextRender` | js/app/main.js:230-350 | updates the fields as `Traversal.AfterTextRender` describes |
| `Player.Session.ApplyPlayStats` | js/app/main.js:310-332 | updates the three counters as `Story.PlayStats` describes and nothing else |
| `Player.Session.NextLine` | js/app/main.js:154-170 | updates the fields as `Traversal.NextLine` describes |
| `Player.Session.ClickNext` | js/app/main.js:300-306 | runs `nextLine` on the message on screen |
| `Player.Session.ClickChoice` | js/app/main.js:247-255 | updates the fields as `Traversal.ClickChoice` describes |
| `Player.Session.ChoiceDelayElapsed` | js/app/main.js:256-258 | updates the fields as `Traversal.ChoiceDelayElapsed` describes |
| `Typewriter.IsJsSpace` | js/app/main.js:97 | the `\s` class holds space, tab, carriage return and line feed, and none of the characters `<`, `/`, `>`, `b`, `r` of the tag, so a run of spaces in a match is unambiguous |
| `Typewriter.SpaceRun` | js/app/main.js:97 | counts the leading `\s` characters, exactly |
| `Typewriter.BreakAt` | js/app/main.js:97 | a positive result starts with `<`, ends with `>`, and is at least 4 characters long; text not starting with `<` gives 0 |
| `Typewriter.BreakAtMatches` | js/app/main.js:97 | a prefix of the text is a match of `/<br\s*\/?>/i` (either case, spaces, optional slash) if and only if its length is `BreakAt`'s result, so 0 means no prefix matches |
| `Typewriter.Normalise` | js/app/main.js:97 | the normalised text is never longer than the input |
| `Typewriter.NormaliseStep` | js/app/main.js:97 | a first character that starts no match of the pattern, a lone `<` included, is kept; a match at the start becomes one line break and the scan resumes after it |
| `Typewriter.Emit` | js/app/main.js:102-106 | a line break is written as `<br/>` and any other character as itself |
| `Typewriter.Render` | js/app/main.js:100-112 | the written markup contains no raw line break |
| `Typewriter.TypeWriterEffect` | js/app/main.js:95-115 | the character-by-character loop ends holding the rendering of the normalised text |
| `Typewriter.NormaliseWithoutTags` | js/app/main.js:97 | text without `<` is unchanged by normalisation |
| `Typewriter.TagBecomesBreak` | js/app/main.js:97 | every variant of the tag (either case, any spaces, optional slash) becomes one line break, and scanning resumes after it |
| `Typewriter.NormaliseRender` | js/app/main.js:97-106 | round trip: for text without `<`, normalising the typewriter's output gives back the text |
| `Prototype.KeyOf` | main.js:128 | an id is looked up as itself; `undefined` and `null` as the keys "undefined" and "null" |
| `Prototype.ButtonsFor` | main.js:111-121 | "next" exactly for `lines` nodes; choices exactly on the last prompt of a `choice` node, and they are the node's own choices |
| `Prototype.Initial` | main.js:2-11 | the starting state: no episode (`undefined`), no prompt index, no running timer, the title screen |
| `Prototype.RenderPrompt` | main.js:89-122 | an index past the end changes nothing; otherwise that prompt and its buttons replace the screen |
| `Prototype.RenderEpisode` | main.js:127-142 | an id with no node changes nothing, so there is no fallback; otherwise the node's first prompt is shown (a node with no prompts leaves the area blank) |
| `Prototype.GoToEpisode` | main.js:145-149 | records the id verbatim and resets the prompt index to 0 before rendering |
| `Prototype.NextLine` | main.js:66-74 | shows prompt i + 1 of the same node when it exists; otherwise goes to `node.next` |
| `Prototype.ClickNext` | main.js:111-116 | the "next" button shows the following prompt of the node on screen when there is one and changes nothing else; after the last prompt it goes to `node.next` with the prompt index reset to 0 |
| `Prototype.ClickChoice` | main.js:38 | goes to `choice.next` verbatim |
| `Prototype.StartLifeTimer` | main.js:152-159 | the limit is in [180, 300] and the remaining time equals it |
| `Prototype.Tick` | main.js:159-166 | one second off per firing; at zero or below the interval stops and the game goes to `ep_end` |
| `Prototype.StepsWithinNode` | main.js:66-74 | k presses from prompt j of a `lines` node show prompt j + k |
| `Prototype.WalkThroughEpisode` | main.js:66-74 | in an N-prompt `lines` episode the first N-1 presses stay in it with the prompt index still 0, and the N-th press goes to `next` |
| `Prototype.MissingNextIsStuck` | main.js:127-129 | a `next` naming no node keeps the last prompt and its button on screen; pressing again changes nothing |
| `Prototype.CountdownRuns` | main.js:159-166 | while more than n seconds remain, n firings only count down |
| `Prototype.SurvivalCountdown` | main.js:152-167 | limit - 1 firings leave the game untouched; firing number `limit` stops the interval and goes to `ep_end` |
| `PrototypePlayer.Session.constructor` | main.js:2-11 | a fresh session has no episode, no prompt index and no timer |
| `PrototypePlayer.Session.StartLifeTimer` | main.js:152-167 | sets the fields as `Prototype.StartLifeTimer` describes |
| `PrototypePlayer.Session.Tick` | main.js:159-166 | updates the fields as `Prototype.Tick` describes |
| `PrototypePlayer.Session.GoToEpisode` | main.js:145-149 | updates the fields as `Prototype.GoToEpisode` describes |
| `PrototypePlayer.Session.RenderEpisode` | main.js:127-142 | updates the fields as `Prototype.RenderEpisode` describes |
| `PrototypePlayer.Session.RenderPrompt` | main.js:89-122 | updates the fields as `Prototype.RenderPrompt` describes |
| `PrototypePlayer.Session.NextLine` | main.js:66-74 | updates the fields as `Prototype.NextLine` describes |
| `PrototypePlayer.Session.ClickNext` | main.js:115 | runs `nextLine` on the prompt on screen |
| `PrototypePlayer.Session.ClickChoice` | main.js:38 | runs `goToEpisode(choice.next)` |

## Left out

- Drawing: `innerHTML`, class toggling, `updateSceneImage` and the creation of button elements. The model records which message is on screen and which buttons are offered.
- Audio (`playBGM`, `playSFX`). These are browser side effects.
- Story loading (`loadStory`: `fetch` plus a YAML or JSON parser). This is I/O and foreign code; the story map is a parameter.
- Scheduling: message delays, typing speed and `setInterval`/`setTimeout` timing. Ticks, clicks and the 400 ms choice delay are explicit sequential calls, in any order the caller picks.
- `Math.random()` is a real in [0, 1), not an IEEE double, so rounding in `Math.random() * n` is not modelled.
- `updateStatusBar` and `updateTimerDisplay`. These compute display percentages in floating point.
- The start-button handlers, the restart button's `window.location.reload`, and the commented-out save stubs. `Traversal.Initial`, `START_NODE_ID` and `START_EPISODE` record the start node; running it is `StartLifeTimer` followed by `RunNode`/`GoToEpisode`.
- main.js:179-194 (`startTimer`, `updateTimerDisplay`). This is dead code that calls an undefined `endGame`.
- The typewriter writes into `innerHTML`, which the browser re-parses after each character. The model treats the output as a plain string.
- `txt_cnt` is an optional integer. A non-numeric string, which `Number(...)` turns into `NaN`, is not modelled.
- `choices` is always a list. A `choice` node without a `choices` array, which would throw in `forEach`, is not modelled.
- The clear node must exist and every node of the current player's story must have at least one message (`Story.StoryOk`). Otherwise the script throws reading a missing node or message.
- Story keys inherited from JavaScript's `Object.prototype` (such as `"constructor"`) are not modelled.
- A second `startLifeTimer` call, which would leak the first interval, is not modelled. Each script calls it once.
- Array link elements are strings. Other JSON values inside a `next_ids` array are not modelled.
- The prototype's `next` and choice targets are a string, `null` or absent. Arrays there, which JavaScript would turn into comma-joined keys, are not modelled.
