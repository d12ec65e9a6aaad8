# Immerse.js modal component — a Dafny model

This project models the modal component of Immerse.js (`src/js/components/modals.js`).
The component:

- fills a section's settings bag with one settings record per modal, each
  merged over a defaults record whose five handlers all say `'close'`;
- dispatches clicks on `close`, `cancel`, `confirm` and `wrapperClick`
  buttons to the handler named `'on' + Capitalize(action)`;
- opens and closes modal wrappers under one shared page scroll lock;
- turns open buttons that point at YouTube URLs into video modals, whose
  players are played, stopped and rewound as the modals open and close.

The model has five modules:

- `Settings` (`settings.dfy`): setting values, the defaults record, the
  shallow merge `$.extend({}, defaults, user)`, and `SettingsObject`. A
  settings record is an object, because `prepare` can store the shared
  defaults object itself under a modal's key and later overwrite its
  `element`.
- `Actions` (`actions.dfy`): capitalising an action name, the handler key,
  the three-way choice on the handler value, and the decision
  `handleBtnClick` takes before it closes anything.
- `YouTube` (`youtube.dfy`): the recognition pattern and `parseId`'s regular
  expression, written as decision procedures over strings with JavaScript's
  regular-expression semantics. `.` excludes line terminators and `^.*` is
  greedy. Strings are read as sequences of characters. JavaScript reads them
  as UTF-16 code units, so the two differ only on characters outside the
  Basic Multilingual Plane (see "## Left out"). Also here: the `youtube-`
  prefix that `appendModal` adds and `String.prototype.replace` removes
  (first occurrence only).
- `PageState` (`page.dfy`): the logical page state as a value. It holds
  which modals are present, wrapped, flagged as video modals and open, the
  scroll lock, scroll offsets, open buttons, the player table and the single
  API-ready slot. Each handler is a function from one state to the next.
  Lemmas state the properties of these functions.
- `Modals` (`modals.dfy`): `ModalComponent`, a class holding the settings bag
  and the page state as fields. Its methods update the fields in place, as
  the handlers do. Each method is proved to leave exactly the state that the
  matching `PageState` function describes.

A handler that throws in JavaScript ends with `Failed(fault)` in the model.
The state it leaves is the state at the point where it threw.

Some behaviours of the code that a reader might not expect:

- A click for a modal id with no settings record throws at line 136; the
  click is not a no-op. Modelled as `Fail(UnknownConfig(id))`.
- `close` on a video modal whose video has no player throws at line 202.
  At that point the `opened` class is already gone, but the unlock and the
  scroll reset of lines 223-225 never run
  (`PageState.CloseVideoWithoutPlayer`).
- A close that completes always unlocks the page. "Open then close restores the lock"
  holds only when the page was unlocked before. With two modals open,
  closing one of them unlocks the page (`PageState.SharedLockReleasedEarly`).
- A YouTube URL that `parseId` finds no id in still gets a video modal
  `youtube-undefined`. It does not fall back to a plain modal
  (`PageState.UnparsedVideoButton`).
- The API-ready slot is one global. Only the video of the last registered
  button gets a player (`PageState.OnlyLastVideoGetsPlayer`).

## Model

| member | source | states |
|---|---|---|
| Settings.Extend | src/js/components/modals.js:103 | the merged record has the keys of both records; the user's value wins on every key the user gave, and the default is kept on the others |
| Settings.ExtendResolvesHandlers | src/js/components/modals.js:93-105 | merging any user record over defaults whose handlers all close gives a record with all five handler keys: each holds the user's value if the user gave one, otherwise `'close'`; no user key is lost |
| Settings.ExtendIdempotent | src/js/components/modals.js:103 | merging a record over itself, or merging an empty user record, returns the defaults unchanged |
| Settings.DefaultFieldsClose | src/js/components/modals.js:230-234 | the component's defaults set all five handler keys to `'close'`; `element` is not a handler key |
| Actions.ToUpper | src/js/components/modals.js:131 | a lower-case ASCII letter becomes its capital; any other character is unchanged |
| Actions.Capitalize | src/js/components/modals.js:131 | the result is as long as the input; only the first character is upper-cased and the rest is unchanged |
| Actions.CapitalizeIs | src/js/components/modals.js:131 | the capitalised form equals a capitalised word exactly for that word and for the same word with a lower-case first letter |
| Actions.HandlerKey | src/js/components/modals.js:131-138 | the key is `on` followed by the action name with its first character upper-cased and the rest unchanged |
| Actions.HandlerKeyInjective | src/js/components/modals.js:138 | two action names select the same handler key exactly when their capitalised forms agree |
| Actions.ActionKeysAreHandlerKeys | src/js/components/modals.js:131-138 | each of the four bound action names of line 68 selects one of the default handler keys of line 232 (`close` selects `onClose`, …, `wrapperClick` selects `onWrapperClick`), and none of them selects `onEscape` |
| Actions.EscapeHandlerUnreachable | src/js/components/modals.js:232 | only `escape` and `Escape` select `onEscape`, and no bound action is either, so the escape handler is never dispatched |
| Actions.React | src/js/components/modals.js:138-144 | the handler closes the modal iff it is exactly the string `'close'`; it is invoked iff it is a function (the same function); any other value does nothing |
| Actions.Decide | src/js/components/modals.js:124-145 | a wrapper click not aimed at the wrapper itself is skipped, and only those clicks are skipped; a handled click names the owning modal and has a settings record; no owner or no record is a fault |
| Actions.DecideOnResolved | src/js/components/modals.js:129-144 | on a record merged over the defaults, a bound action past the guard closes the owning modal unless the user supplied that handler, in which case the user's value decides |
| YouTube.IsYouTubeUrlMatchesLanguage | src/js/components/modals.js:151 | the recognition test accepts exactly the strings that split into an optional scheme, an optional `www` plus one character, one of the three host forms, and `/` followed by at least one non-line-terminator |
| YouTube.OtherSiteNotRecognised | src/js/components/modals.js:151 | `https://example.com/video` is not recognised, so its button opens a plain modal |
| YouTube.IsYouTubeUrl | src/js/components/modals.js:38 | the test of line 151 as `match` applies it; `IsYouTubeUrlMatchesLanguage` proves that it accepts exactly the strings of the pattern's language |
| YouTube.WatchUrlRecognised | src/js/components/modals.js:151 | every `https://www.youtube.com/watch?v=<id>` URL whose id is 11 characters from letters, digits, `_` and `-` is recognised |
| YouTube.MarkerLength | src/js/components/modals.js:154 | the marker alternative matching at a position has length 0 (no match), 2, 5, 6 or 9, and fits in the string |
| YouTube.MarkerLengthMatchesAlternatives | src/js/components/modals.js:154 | against a reference with one clause per alternative (`youtu.be/`, `v/`, `/u/\w/`, `embed/`, `watch?`): a non-zero result is the length of an alternative that matches there, no alternative of any other length matches, and 0 means none matches |
| YouTube.LineEnd | src/js/components/modals.js:154 | `.*` reaches exactly to the first line terminator: the characters before it are not terminators, and it is at one or at the end |
| YouTube.LastMarkerBelow | src/js/components/modals.js:154 | greedy `^.*`: the result is the last position on the first line where a marker matches, or none when no position does |
| YouTube.SkipOptionals | src/js/components/modals.js:154 | `\??v?=?` consumes one of the eight words the pattern matches, and the longest one: the next character could not extend it |
| YouTube.IdRun | src/js/components/modals.js:154 | group 7 is the longest prefix made only of characters other than `#`, `&` and `?` |
| YouTube.GroupAfter | src/js/components/modals.js:154 | group 7 for the marker at `p`: it starts right after the marker and the optional `?v=`, holds no `#`, `&` or `?`, and stops only at one of them or at the end |
| YouTube.ParseId | src/js/components/modals.js:153-157 | the result is absent, or exactly 11 characters, none of them `#`, `&` or `?` |
| YouTube.ParseIdUsesLastMarker | src/js/components/modals.js:154-156 | when the last marker on the first line is at `p`, the id is the group after `p` if that group has 11 characters, otherwise absent; earlier markers do not matter |
| YouTube.ParseIdWithoutMarker | src/js/components/modals.js:154-156 | with no marker on the first line, there is no id |
| YouTube.WatchUrlYieldsId | src/js/components/modals.js:153-157 | `parseId` returns `<id>` for every `https://www.youtube.com/watch?v=<id>` with 11 word or `-` characters |
| YouTube.ParseIdExample | src/js/components/modals.js:151-157 | `https://www.youtube.com/watch?v=dQw4w9WgXcQ` is recognised and yields `dQw4w9WgXcQ` |
| YouTube.FirstIndex | src/js/components/modals.js:195 | the result is an occurrence of the pattern with no occurrence before it; absent iff there is no occurrence at all |
| YouTube.RemoveFirst | src/js/components/modals.js:201 | `replace` with a string pattern removes the first occurrence only, and returns the string unchanged when there is none |
| YouTube.VideoKey | src/js/components/modals.js:167-171 | the video key `appendModal` uses is `"undefined"` exactly when `parseId` finds no id, and the parsed 11-character id otherwise |
| YouTube.StripPrefixRoundTrip | src/js/components/modals.js:195-201 | removing the first `youtube-` from `'youtube-' + v` gives back `v`, for every `v` |
| YouTube.ModalIdFor | src/js/components/modals.js:171 | `'youtube-' + videoId`; `ModalIdRoundTrip` proves that stripping the prefix gives back the video key |
| YouTube.ModalIdRoundTrip | src/js/components/modals.js:171-172 | the modal id written for a URL leads `youtube.open`/`youtube.close` back to the key of that URL's video in the player table |
| PageState.RegisterOpenButton | src/js/components/modals.js:36-44 | registering one button changes no other button, leaves the player table alone, keeps the button count and removes no modal; for a YouTube URL the button is flagged and points at `youtube-<key>`, that modal is present and flagged, and the slot holds the key |
| PageState.RegisterSkipsOtherButtons | src/js/components/modals.js:38-40 | a button whose target is not a YouTube URL leaves the whole page unchanged |
| PageState.RegisteredSlot | src/js/components/modals.js:36-44 | one pass leaves its own button as `Registered` describes it: flagged and retargeted for a YouTube URL, unchanged otherwise |
| PageState.RegisterButtons | src/js/components/modals.js:35-45 | the button loop keeps the player table and the button count, removes no modal, and has not touched the buttons it has not reached yet |
| PageState.RegisterButtonsEffect | src/js/components/modals.js:35-45 | after the loop has passed the first `n` buttons, every one of them is registered: flagged and retargeted when its target is a YouTube URL, unchanged otherwise |
| PageState.RegisterButtonsModals | src/js/components/modals.js:35-45 | after the loop has passed the first `n` buttons, the video modal of every YouTube URL among them is present and flagged |
| PageState.Wrap | src/js/components/modals.js:107 | marks the modal wrapped; `OpenCloseKeepConsistent` proves it keeps the invariant for a present modal |
| PageState.Open | src/js/components/modals.js:211-216 | the next state of `actions.open`; `OpenSetsFlagAndLock` and `OpenThenClose` state its properties |
| PageState.StopAndRewind | src/js/components/modals.js:200-203 | the next state of `youtube.close`; `CloseVideo` and `CloseVideoWithoutPlayer` state its effect through `close` |
| PageState.Close | src/js/components/modals.js:218-226 | the next state of `actions.close`; `CloseOrdinary`, `CloseVideo`, `CloseVideoWithoutPlayer` and `CloseIdempotent` state its properties |
| PageState.YouTubeOpen | src/js/components/modals.js:194-198 | the next state of `youtube.open`; `VideoButtonRoundTrip` states that it plays the video and opens its modal |
| PageState.OpenButtonClick | src/js/components/modals.js:48-60 | the next state of an open-button click; `VideoButtonRoundTrip` and `UnparsedVideoButton` state its video path |
| PageState.Dispatch | src/js/components/modals.js:140-144 | what the page becomes once `handleBtnClick` has decided; `DispatchThreeWay` and `WrapperGuard` state its properties |
| PageState.AppendModal | src/js/components/modals.js:166-186 | the next state of `appendModal`; `RegisterOpenButton`'s contract and `RegisterKeepsConsistent` state its effect |
| PageState.ApiReady | src/js/components/modals.js:177-186 | the ready callback; `OnlyLastVideoGetsPlayer` states which player it adds |
| PageState.PlayerStateChange | src/js/components/modals.js:188-190 | the player event; `VideoButtonRoundTrip` states that `0` closes the video's modal |
| PageState.OpenSetsFlagAndLock | src/js/components/modals.js:211-216 | open sets the page lock and the flag of a wrapped modal, and no other flag; opening twice is the same as opening once |
| PageState.CloseOrdinary | src/js/components/modals.js:218-226 | closing a modal that is not a video modal clears exactly its flag, unlocks the page, resets its scroll offset to 0 and touches no player |
| PageState.CloseVideo | src/js/components/modals.js:200-203 | closing a video modal whose video has a player also stops that player at position 0, and leaves every other player unchanged |
| PageState.CloseVideoWithoutPlayer | src/js/components/modals.js:218-226 | when the video has no player, close fails with that video's id after clearing the flag; the lock and the scroll offset stay as they were |
| PageState.CloseIdempotent | src/js/components/modals.js:218-226 | a close that completes reaches a state that a second close leaves unchanged |
| PageState.SharedLockReleasedEarly | src/js/components/modals.js:211-226 | with modals A and B open, closing B unlocks the page while A stays open |
| PageState.OpenThenClose | src/js/components/modals.js:211-226 | opening then closing a plain modal leaves it closed and the page unlocked, and restores every other flag |
| PageState.OpenCloseKeepConsistent | src/js/components/modals.js:194-226 | prepare's wrap, open, close and `youtube.open` keep the invariant: open ⊆ wrapped ⊆ present, video modals ⊆ present, offsets exactly for present modals |
| PageState.AppendKeepsConsistent | src/js/components/modals.js:166-173 | appending a video modal keeps that invariant |
| PageState.RegisterKeepsConsistent | src/js/components/modals.js:166-173 | registering a button, and appending its video modal, keeps that invariant |
| PageState.PlayerEventsKeepConsistent | src/js/components/modals.js:177-190 | open-button clicks, the API-ready callback and player state changes keep that invariant |
| PageState.DispatchThreeWay | src/js/components/modals.js:138-144 | a `'close'` handler performs exactly the close of the owning modal; a callback, any other value or a skipped click leaves the page unchanged; a fault changes nothing; no flag other than the owner's is cleared |
| PageState.WrapperGuard | src/js/components/modals.js:129 | a wrapper click whose target is not the wrapper leaves the page unchanged, whatever the owner and settings |
| PageState.RegisterButtonsSlot | src/js/components/modals.js:177 | after the button loop, the ready slot holds the video of the last YouTube button, or is unchanged if there is none |
| PageState.OnlyLastVideoGetsPlayer | src/js/components/modals.js:177-186 | after registration and the ready callback, the last YouTube button's video gets a fresh stopped player (replacing any it had), and no other entry of the player table changes |
| PageState.VideoButtonRoundTrip | src/js/components/modals.js:166-203 | once a YouTube button is registered, its modal wrapped and the API ready, clicking the button opens that modal, locks the page and plays the video; the video's ended event then closes the modal, unlocks the page and stops the player at 0 |
| PageState.UnparsedVideoButton | src/js/components/modals.js:167-172 | a recognised URL without a parsable id gets the modal `youtube-undefined`, and its button fails for the missing `"undefined"` player |
| Modals.ModalComponent.constructor | src/js/components/modals.js:30-33 | the component starts with the section's settings bag, its modals and offsets, the modals whose markup carries the YouTube flag (line 222 reads it) and its buttons; nothing is wrapped or open, there are no players and the slot is empty; the state is consistent |
| Modals.ModalComponent.Prepare | src/js/components/modals.js:88-111 | writes the element into the shared defaults object. Without a user record, stores that very object under the modal's key; otherwise stores a fresh merge. Then wraps the modal. Throws with nothing changed when there is no `default` record. When the defaults all close, the stored record holds all five handlers resolved as the user gave them, and the defaults still all close; a consistent state stays consistent |
| Modals.ModalComponent.HandleBtnClick | src/js/components/modals.js:124-145 | the decision is `Decide` on the record stored for the owner before the click; the page afterwards is what dispatching that decision gives; the bag is unchanged; a consistent state stays consistent |
| Modals.ModalComponent.Open | src/js/components/modals.js:211-216 | updates the fields to `PageState.Open` of the old state; a consistent state stays consistent |
| Modals.ModalComponent.Close | src/js/components/modals.js:218-226 | updates the fields to `PageState.Close` of the old state and reports its status; a consistent state stays consistent |
| Modals.ModalComponent.StopAndRewind | src/js/components/modals.js:200-203 | stops the player, then seeks it to 0, reaching `PageState.StopAndRewind`; a consistent state stays consistent |
| Modals.ModalComponent.YouTubeOpen | src/js/components/modals.js:194-198 | plays the player, then opens, reaching `PageState.YouTubeOpen`; a consistent state stays consistent |
| Modals.ModalComponent.OpenButtonClick | src/js/components/modals.js:48-60 | a flagged button takes the video path and any other button the plain path, reaching `PageState.OpenButtonClick`; a consistent state stays consistent |
| Modals.ModalComponent.AppendModal | src/js/components/modals.js:166-192 | rewrites the button, adds the flagged modal and overwrites the slot, reaching `PageState.AppendModal`; a consistent state stays consistent |
| Modals.ModalComponent.RegisterOpenButton | src/js/components/modals.js:36-44 | flags a YouTube button and appends its modal, reaching `PageState.RegisterOpenButton`; a consistent state stays consistent |
| Modals.ModalComponent.RegisterButtons | src/js/components/modals.js:35-45 | the loop over all buttons reaches `PageState.RegisterButtons` of the old state; a consistent state stays consistent |
| Modals.ModalComponent.ApiReady | src/js/components/modals.js:177-186 | creates a stopped player for the video in the slot, reaching `PageState.ApiReady`; a consistent state stays consistent |
| Modals.ModalComponent.PlayerStateChange | src/js/components/modals.js:188-190 | an ended event (`0`) closes the video's modal and any other state does nothing, reaching `PageState.PlayerStateChange`; a consistent state stays consistent |

## Left out

- DOM construction and selection (`wrap`, `.wrap`, `tabindex`, `.find`, `.closest`, selectors built by `namespacify`/`datatagify`) is not modelled. The model keeps only its logical result: which ids are present, wrapped, flagged and open. The caller supplies the id of the modal that owns a clicked button.
- `$(...).trigger(action)` at line 136 is left out. It only fires events on a jQuery wrapper of the component.
- Focus moves (lines 215 and 224) and the `htmlScroll` primitive are not modelled. The scroll lock is one boolean.
- `setupAPI`'s script injection and the construction of `YT.Player` are not modelled. A player is a record of a playing flag and a position. The API's ready signal is the `ApiReady` operation.
- Event binding in `init` is not modelled. Neither is its loop that calls `prepare` on every modal (lines 63-65): `Prepare` is modelled as the single step that a caller repeats. The button loop (lines 35-45) is modelled.
- `$.camelCase`'s code is not part of this model. It is a parameter of the component, a function from string to string. A click with no owning modal is the fault `NoOwner`, because `$.camelCase(undefined)` throws.
- The Immerse core builds the section's settings bag before `init`; that step is not part of this model. The constructor takes the bag as given.
- A user callback is recorded only as "invoked". What it does is not modelled.
- A player's position is changed only by `seekTo`; playback advancing over time is not modelled.
- Several modals or buttons sharing one id, and several sections sharing the component's player table, are not modelled. Ids are kept as sets.
- YouTube.ParseId: the length-11 test of line 156 counts characters, while JavaScript counts UTF-16 code units. For `v/` followed by U+1F600 and `abcdefghi`, group 7 is ten characters but eleven code units: JavaScript returns it and the model returns no id. The pattern's `.` and `[^#\&\?]` are likewise read one character at a time.
- YouTube.IsYouTubeUrlMatchesLanguage: the reference language, like the test, reads `.` as one character, while JavaScript without the `u` flag reads one UTF-16 code unit. `www` followed by U+1F600 and `youtube/x` is accepted by the model, because the emoji is the one character after `www`; JavaScript rejects it, because the emoji is two code units. The two agree on every string without characters outside the Basic Multilingual Plane.
- Actions.ToUpper: upper-cases only ASCII letters. JavaScript's `toUpperCase` also maps other letters; the four bound action names are ASCII.
- Actions.Capitalize: works on characters, while `charAt` and `slice` work on UTF-16 code units. The two agree for characters in the Basic Multilingual Plane.
- Settings.Extend: does not model that `$.extend` skips user properties whose value is `undefined`, or that it copies inherited enumerable properties.
- Modals.ModalComponent.Prepare: treats "the user has a record" as "the key is in the bag". This matches `hasOwnProperty`. But the lookup at line 136 in `HandleBtnClick` would also find a record inherited through the prototype chain, such as `toString`; that case is not modelled.
- Modals.ModalComponent.Prepare: the handler-resolution guarantee is stated only when the `default` record's five handlers all hold `'close'`. A section may override them.
- Modals.ModalComponent.HandleBtnClick: jQuery's `.data` conversion of attribute values (numbers, JSON) is not modelled. Action names and ids are strings.
