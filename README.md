# azooKey-Windows: a verified model of the IME core

This project is a Dafny model of the sequential core of azooKey-Windows.
azooKey-Windows is a Japanese input method for Windows. It is built as a Text
Services Framework (TSF) text service that talks to a kana-kanji conversion
server. The model covers these parts:

- The **composition state machine** of the current client. `handle_key` is a
  decision table from (composition state, input mode, user action) to a
  transition and a list of client actions. `handle_action` runs that list
  against the conversion engine and the host's edit range.
- The earlier, smaller machine of the same name, which has no input mode.
- The **key classifier** (virtual-key code to `UserAction`) and the
  **full-width/half-width normaliser**.
- **Candidate construction** on both sides of the wire:
  - the client projects the server's suggestions onto four parallel vectors;
  - the Rust server removes duplicate texts and trims the surrounding-text
    context;
  - the Swift servers, old and new, rebuild a candidate from its segment
    readings, and the old one pads the list to five entries.
- The **candidate-window placement** clamps.
- The **UTF-16, little-endian byte and GUID string encoders**.
- The **display-attribute** objects and their enumerator.
- The **language-bar button**.
- The three **DLL reference and lock counters**.

Outside calls are modelled relative to the state they see:

- The conversion engine is the oracle `respond`. It maps the engine calls made so
  far to the suggestion it returns.
- The host edit range (`start_composition`, `end_composition`, `set_text`,
  `set_input_mode`) is a log of host calls.
- The client's RPC replies come from the oracle `server`. It maps the request
  log to the optional composing text.
- The Swift converter's `requestCandidates` and `prefixComplete` are
  function-valued fields.
- The operating system's answers are parameters. These are the Shift state,
  `GetKeyboardState` success, the unit `ToUnicode` produced, the monitor work
  area and the window size.

State that the source updates in place is a Dafny `class`:

- the text service's composition fields;
- the IPC client's request log;
- the Swift server's globals;
- the display-attribute objects and enumerator;
- the language-bar button;
- the DLL counters.

The methods of each class are proved against a specification function. For
example, `HandleAction` ends in the state that the fold `Run` computes, and
`GetComposedText` returns `KeepFirst` of the projected candidates. The
properties are then proved as lemmas about those functions.

Machine integers are explicit:

- A Rust `as i8` is `Ints.AsI8`.
- A release-build `u32` or `usize` wrap-around is `WrapU32` or `WrapUsize`.

File by file:

- `composition.dfy` and `composition_props.dfy` hold the current client's
  machine.
- `legacy_composition.dfy` holds the earlier machine.
- `user_action.dfy`, `input_mode.dfy`, `full_width.dfy` and `rust_str.dfy`
  model the helpers on characters and strings. `rust_str.dfy` holds the
  `String::len` byte length, `pop` and integer `to_string`.
- `ipc_service.dfy`, `kkc_server.dfy`, `swift_server.dfy` and
  `legacy_swift_server.dfy` cover candidate construction.
- `window_position.dfy` holds the candidate-window placement.
- `extension.dfy` holds the encoders.
- `display_attribute.dfy` and `language_bar.dfy` hold the TSF objects.
- `globals.dfy`, `dll_lock.dfy` and `hresult.dfy` hold the DLL counters and
  the HRESULT values.
- `ints.dfy` and `wrappers.dfy` are shared helpers.

## Model

| member | source | states |
|---|---|---|
| Composition.Decide | crates/client/src/engine/composition.rs:81-154 | A handled key always leads to None or Composing. Only a None or Composing composition handles keys. `StartComposition` is produced only from None in Kana mode, for an Input or Number key, and then the actions are exactly `[StartComposition, AppendText(key text)]`. |
| Composition.Normalise | crates/client/src/engine/composition.rs:190-194 | The text to append keeps its length. Latin mode keeps it as it is. Kana mode converts each char with `to_fullwidth` and `process_alphabet` false, so letters are left alone. |
| Composition.Step | crates/client/src/engine/composition.rs:179-224 | One iteration of the `handle_action` loop. It only appends to the call log. Only `SetIMEMode` changes the mode, to the one it names. `MoveCursor` changes nothing. |
| Composition.Run | crates/client/src/engine/composition.rs:161-233 | The whole `handle_action` loop as a fold of `Step` over the batch. `HandleAction` is proved equal to it. Its properties are in `RunEndsIffEmptyRemove`, `RunKeepsOrEndsState`, `RunExtendsCalls` and `RunKeepsMode`. |
| Composition.OnKey | crates/client/src/engine/composition.rs:59-159 | `handle_key` as a function. No context or Ctrl held gives "not handled". Otherwise it is the decision, then `Run` of the batch from the decided transition. `HandleKey` is proved equal to it, and `OnKeyStates` and the key lemmas state its outcomes. |
| Composition.RunSnoc | crates/client/src/engine/composition.rs:179-224 | The action loop handles the actions one after another. Running `actions + [a]` is running `actions`, then `a`. |
| Composition.TextService.constructor | crates/client/src/engine/composition.rs:32-40 | A new service has empty spelling and suggestion, state None, Latin mode, no context and no calls. |
| Composition.TextService.HandleAction | crates/client/src/engine/composition.rs:161-233 | The loop, with its recursive `[EndComposition]` call on an empty suggestion, ends in `Run` of the actions from the old state with the given transition. The mode read at the start is used throughout. The context flag is unchanged. |
| Composition.TextService.HandleKey | crates/client/src/engine/composition.rs:59-159 | The result and the new state are `OnKey`: no context or Ctrl held means "not handled"; otherwise the decision, then the batch. A given context is remembered. |
| Composition.TextService.OnCompositionTerminated | crates/client/src/engine/composition.rs:43-55 | The composition is emptied and set to None. The host range is ended and the engine cleared. |
| CompositionProperties.RunKeepsOrEndsState | crates/client/src/engine/composition.rs:177-230 | After a batch the state is the given transition or None. `RunEndsIffEmptyRemove` says when it is None. |
| Composition.EngineCalls | crates/client/src/engine/composition.rs:179-224 | The engine's requests are picked out of the call log. Each one picked is in the log. A log of host calls only gives none. |
| Composition.EngineCallsConcat | crates/client/src/engine/composition.rs:179-224 | The engine requests of two stretches of the log are those of the first, then those of the second. |
| CompositionProperties.RemoveTextEmptyReply | crates/client/src/engine/composition.rs:202-212 | `RemoveText` pops the spelling and shows the engine's reply. An empty reply also sets None, ends the host range and clears the engine. A non-empty reply keeps the carried state. |
| CompositionProperties.StepState | crates/client/src/engine/composition.rs:179-224 | Only `RemoveText` changes the carried state. It sets None exactly when the state was None already or the engine's reply is empty. |
| CompositionProperties.RunEndsIffEmptyRemove | crates/client/src/engine/composition.rs:202-212 | A batch ends in None exactly when it started in None or one of its `RemoveText` steps got an empty reply. |
| CompositionProperties.RunExtendsCalls | crates/client/src/engine/composition.rs:179-224 | A batch only appends to the engine and host call log. |
| CompositionProperties.RunKeepsMode | crates/client/src/engine/composition.rs:217-222 | Without `SetIMEMode` a batch leaves the input mode alone. |
| CompositionProperties.KeyPassedOn | crates/client/src/engine/composition.rs:59-69 | With no context, or with Ctrl held, the key is not handled and nothing changes. |
| CompositionProperties.OnKeyStates | crates/client/src/engine/composition.rs:81-158 | A handled key leaves the composition None or Composing and was pressed in None or Composing. An unhandled key changes nothing. |
| CompositionProperties.IdleKanaInputStarts | crates/client/src/engine/composition.rs:82-201 | Idle in Kana mode, a character or digit key starts the host range and sends its full-width text to the engine. The composition becomes Composing with that spelling, and the reply is shown. |
| CompositionProperties.IdleKanaCharSample | crates/client/src/engine/composition.rs:83-194 | For a character key, the text sent is the character's full-width form. |
| CompositionProperties.IdleLatinPassesKeys | crates/client/src/engine/composition.rs:83-106 | Idle in Latin mode, character and digit keys are not handled. |
| CompositionProperties.IdleToggleSwitchesMode | crates/client/src/engine/composition.rs:97-222 | Idle, the mode key switches to the other mode, stays None, clears spelling and suggestion and clears the engine. |
| CompositionProperties.ComposingToggleGoesLatin | crates/client/src/engine/composition.rs:143-222 | While composing, the mode key always selects Latin and goes to None. |
| CompositionProperties.EnterCommits | crates/client/src/engine/composition.rs:127-189 | Enter ends the host range, clears the engine and leaves an empty composition in None. |
| CompositionProperties.EscapeCancels | crates/client/src/engine/composition.rs:128-212 | Escape ends with empty spelling and suggestion, state None and the same mode. Whatever the engine replies, the last two calls are "end the host range" and "clear the engine". |
| CompositionProperties.NavigationSwallowed | crates/client/src/engine/composition.rs:132-216 | Arrow keys while composing are handled and change nothing, because `MoveCursor` is a no-op. |
| CompositionProperties.AppendThenRemove | crates/client/src/engine/composition.rs:190-204 | Appending one character and then removing one restores the spelling. |
| CompositionProperties.InputThenBackspace | crates/client/src/engine/composition.rs:108-212 | While composing, a character then Backspace are both handled and give back the old spelling. This holds in either mode and whatever the engine replies. |
| CompositionProperties.BackspaceEmptyReplyEnds | crates/client/src/engine/composition.rs:117-212 | Backspace on a spelling not one byte long is handled. An empty reply from the engine ends the composition in None, with the shortened spelling stored, the host range ended and the engine cleared. Any other reply is shown and the composition stays Composing. |
| CompositionProperties.ComposingAppends | crates/client/src/engine/composition.rs:108-116 | While composing, a character or digit key gives `[AppendText(key text)]` and stays Composing, in either mode. |
| CompositionProperties.BackspaceDecision | crates/client/src/engine/composition.rs:117-126 | Backspace gives `[RemoveText, EndComposition]` and None when the spelling's byte length is 1. Otherwise it gives `[RemoveText]` and stays Composing. |
| CompositionProperties.OtherStatesIgnoreKeys | crates/client/src/engine/composition.rs:151-153 | Previewing and Selecting never handle a key. |
| CompositionProperties.UnlistedKeysPassWhileComposing | crates/client/src/engine/composition.rs:147-149 | Space, Tab, Unknown and Function keys are not handled while composing. |
| LegacyComposition.Decide | src/engine/composition.rs:175-226 | A handled key leads to None or Composing and never yields `MoveCursor`. From None only Input or Number is handled, with no mode check, giving exactly `[StartComposition, AppendText(key text)]`. |
| LegacyComposition.Step | src/engine/composition.rs:230-248 | One iteration of the earlier loop. The state is never touched and `MoveCursor` changes nothing. Every other action appends exactly one host call. After `AppendText` or `RemoveText` that call shows the new spelling. |
| LegacyComposition.Run | src/engine/composition.rs:228-248 | The earlier loop as a fold of `Step`. `HandleKey` is proved to run it. `RunExtendsCalls` and `HostShowsSpelling` state its properties. |
| LegacyComposition.OnKey | src/engine/composition.rs:158-258 | The earlier `handle_key`. No context gives "not handled". Otherwise it is the decision, the batch, one more `set_text` of the spelling and the store of the transition. `HandleKey` is proved equal to it. |
| LegacyComposition.RunSnoc | src/engine/composition.rs:230-248 | The action loop handles the actions one after another. |
| LegacyComposition.TextService.constructor | src/engine/composition.rs:20-26 | A new service has an empty spelling, state None and no calls. |
| LegacyComposition.TextService.HandleKey | src/engine/composition.rs:158-258 | The loop over the actions, the final `set_text` and the store give exactly `OnKey`. |
| LegacyComposition.TextService.OnCompositionTerminated | src/engine/composition.rs:46-52 | The earlier hook changes nothing. |
| LegacyComposition.HostShowsSpelling | src/engine/composition.rs:239-250 | After a handled key the last host call shows the final spelling. The state is None or Composing. An unhandled key changes nothing. |
| LegacyComposition.RunExtendsCalls | src/engine/composition.rs:230-248 | A batch only appends host calls. |
| LegacyComposition.OnKeyHandled | src/engine/composition.rs:228-257 | A handled decision runs its batch, shows the spelling and stores the transition. |
| LegacyComposition.InputThenBackspace | src/engine/composition.rs:196-246 | While composing, a character appends exactly that character and stays Composing. Backspace then restores the old spelling. |
| LegacyComposition.IdleInputStarts | src/engine/composition.rs:176-190 | With no composition, every character or digit key gives `[StartComposition, AppendText(key text)]` and goes to Composing. |
| LegacyComposition.ComposingAppends | src/engine/composition.rs:196-203 | While composing, a character or digit key gives `[AppendText(key text)]` and stays Composing. |
| LegacyComposition.EnterCommits | src/engine/composition.rs:214-250 | Enter while composing leaves an empty spelling in None. The host range is ended and the empty spelling shown. |
| LegacyComposition.EscapeCancels | src/engine/composition.rs:215-250 | Escape while composing shows the spelling without its last character, then ends the host range. It leaves an empty spelling in None and shows it. |
| LegacyComposition.NonAsciiBackspaceKeepsComposing | src/engine/composition.rs:176-213 | Take a first character outside ASCII, so the spelling is more than one byte long. Backspace then empties the spelling but leaves the composition Composing. |
| LegacyComposition.BackspaceDecision | src/engine/composition.rs:204-213 | Backspace ends the composition exactly when the spelling's byte length is 1. |
| LegacyComposition.OtherStatesIgnoreKeys | src/engine/composition.rs:223-225 | Previewing and Selecting never handle a key. |
| InputModes.Toggled | crates/client/src/engine/input_mode.rs:10-15 | The other mode always differs from the given one. |
| UserActions.Translate | crates/client/src/engine/user_action.rs:72-91 | A failed `GetKeyboardState` is an error. A zero unit is Unknown. A surrogate unit is an "invalid char" error. Any other unit is `Input` of that character. |
| UserActions.Classify | crates/client/src/engine/user_action.rs:35-96 | A fixed code never yields Input or Unknown. The result is Number exactly for a digit key without Shift, with value code − base in 0..9. Every other code goes to the layout translation. |
| UserActions.FixedCodes | crates/client/src/engine/user_action.rs:39-70 | The table of fixed codes: Backspace, Tab, Enter, Space, Escape, the four arrows, F6-F8 and the two toggle keys. |
| UserActions.ShiftedDigitIsTranslated | crates/client/src/engine/user_action.rs:50-91 | With Shift held, a digit key goes to the layout translation. |
| FullWidth.HalfFullAzookey | crates/client/src/engine/full_width.rs:7-104 | Every key of the punctuation table is an ASCII character that is not a letter or a digit, and it maps to a non-ASCII character. |
| FullWidth.HalfFull | crates/client/src/engine/full_width.rs:106-135 | The letter table maps exactly a-z, each to the code point 0xFEE0 higher. |
| FullWidth.AzookeyReverseIsInverse | crates/client/src/engine/full_width.rs:7-148 | The reverse lookup by value inverts the punctuation table in both directions. |
| FullWidth.ReverseLookupFinds | crates/client/src/engine/full_width.rs:141 | `find` over the values succeeds exactly for characters that are table values, and it returns their key. |
| FullWidth.HalfChar | crates/client/src/engine/full_width.rs:139-146 | A full-width table value maps back to its key. Every other character is kept. |
| FullWidth.ToFullwidth | crates/client/src/engine/full_width.rs:150-168 | The char count is kept. Each output char is the per-char conversion of the input char. |
| FullWidth.ToHalfwidth | crates/client/src/engine/full_width.rs:137-148 | The char count is kept. Each output char is the reverse lookup of the input char. |
| FullWidth.FullwidthPassThrough | crates/client/src/engine/full_width.rs:24-165 | Digits, upper-case letters and characters in neither table pass through unchanged. |
| FullWidth.FullwidthLowercase | crates/client/src/engine/full_width.rs:155-159 | A lower-case letter changes exactly when `process_alphabet` is set, and then to its full-width form. |
| FullWidth.SampleEntries | crates/client/src/engine/full_width.rs:20-69 | ",.-/[]" becomes 、。ー・「」. |
| FullWidth.FullwidthIdempotent | crates/client/src/engine/full_width.rs:7-168 | `to_fullwidth` is idempotent, because no table value is also a key. |
| FullWidth.HalfwidthAfterFullwidth | crates/client/src/engine/full_width.rs:137-168 | Take a string with none of the punctuation table's values. Converting it to full width without letters and then back gives the string itself. |
| FullWidth.HalfwidthKeepsLetters | crates/client/src/engine/full_width.rs:137-148 | Full-width letters are never mapped back. |
| RustStr.ByteLenOne | crates/client/src/engine/composition.rs:118 | `String::len() == 1` holds exactly for one ASCII character. |
| RustStr.ByteLenAtLeastCharCount | crates/client/src/engine/composition.rs:118 | The UTF-8 byte length is never below the char count. |
| RustStr.Pop | crates/client/src/engine/composition.rs:203 | `pop` on an empty string keeps it empty. Otherwise it drops exactly the last char. |
| RustStr.PushPop | src/engine/composition.rs:240-244 | Pushing a char and then popping restores the string. |
| RustStr.NatDigits | crates/client/src/engine/composition.rs:94 | `to_string` of a number gives at least one decimal digit. The digits read back as the number. A single digit is its own character. |
| Ints.AsI8 | crates/server/src/main.rs:191-214 | `as i8` keeps the value modulo 256 and keeps every value already in range. |
| Ints.AsI8Samples | crates/server/src/main.rs:214 | 200 becomes −56, −129 becomes 127, 256 becomes 0 and −1 stays −1. |
| Ints.WrapU32 | src/globals.rs:74-82 | Release-build `u32` arithmetic agrees modulo 2^32 and keeps values in range. |
| Ints.WrapUsize | crates/client/src/globals.rs:95-101 | Atomic `usize` arithmetic agrees modulo 2^64. |
| IpcService.ToCandidates | crates/client/src/engine/ipc_service.rs:93-122 | A reply with no composing text is exactly the error "composing_text is None". Otherwise the four vectors are aligned with the suggestions: the same length, and index i from suggestion i. |
| IpcService.Zip | crates/client/src/engine/ipc_service.rs:22-28 | Re-zipping the parallel vectors gives one suggestion per entry. |
| IpcService.ZipRecoversSuggestions | crates/client/src/engine/ipc_service.rs:95-117 | The projection loses nothing. Zipping the vectors gives back the server's suggestions in order. |
| IpcService.AlignedIsUnique | crates/client/src/engine/ipc_service.rs:95-117 | Any vectors aligned with the suggestions are the projection's result. |
| IpcService.IpcClient.constructor | crates/client/src/engine/ipc_service.rs:13-20 | A new client has sent nothing. |
| IpcService.IpcClient.Send | crates/client/src/engine/ipc_service.rs:89-93 | The request is logged, and the reply is projected. |
| IpcService.IpcClient.AppendText | crates/client/src/engine/ipc_service.rs:84-123 | The text is sent unchanged, and the reply is projected. |
| IpcService.IpcClient.RemoveText | crates/client/src/engine/ipc_service.rs:125-161 | A remove request is sent, and the reply is projected. |
| IpcService.IpcClient.ClearText | crates/client/src/engine/ipc_service.rs:163-171 | A clear request is sent. |
| IpcService.IpcClient.ShrinkText | crates/client/src/engine/ipc_service.rs:173-209 | The offset is sent unchanged, and the reply is projected. |
| KkcServer.KeptTexts | crates/server/src/main.rs:125-132 | A text occurs in the kept list exactly when it occurs in the input. |
| KkcServer.KeepFirstDistinct | crates/server/src/main.rs:125-132 | The kept texts are pairwise distinct. |
| KkcServer.KeepFirstOrigins | crates/server/src/main.rs:107-135 | The kept list is an order-preserving subsequence of the input. Each kept entry is the first occurrence of its text, and every first occurrence is kept. |
| KkcServer.AnyText | crates/server/src/main.rs:126-128 | The `any` scan finds exactly the texts already kept. |
| KkcServer.Projected | crates/server/src/main.rs:110-123 | Each suggestion copies text, subtext and corresponding count from its candidate. |
| KkcServer.GetComposedText | crates/server/src/main.rs:103-137 | The loop over the first `length` candidates returns the first occurrences of their projections. |
| KkcServer.SplitCr | crates/server/src/main.rs:231 | `split('\r')` yields at least one piece. |
| KkcServer.SplitCrJoins | crates/server/src/main.rs:231 | Joining the pieces with '\r' gives back the string. |
| KkcServer.SplitCrPiecesHaveNoCr | crates/server/src/main.rs:231 | No piece contains '\r'. |
| KkcServer.JoinCrExtendLast | crates/server/src/main.rs:231 | Extending the last piece extends the joined string. |
| KkcServer.NonEmpty | crates/server/src/main.rs:232 | The filter keeps only non-empty pieces. |
| KkcServer.SplitCrLast | crates/server/src/main.rs:231-233 | The last piece of the split is the text after the last '\r'. |
| KkcServer.TrimContext | crates/server/src/main.rs:230-234 | `set_context` splits on `'\r'`, drops the empty pieces and keeps the last one, or "". `TrimContextIsLastLine`, `LastLineHasNoCr` and `TrimContextSamples` state what it gives. |
| KkcServer.TrimContextIsLastLine | crates/server/src/main.rs:230-234 | The trimmed context equals an independent definition: the last non-empty line, or "". |
| KkcServer.TailHasNoCr | crates/server/src/main.rs:231-233 | The text after the last '\r' has no '\r'. A string without '\r' is its own tail. |
| KkcServer.LastLineHasNoCr | crates/server/src/main.rs:230-234 | The trimmed context has no '\r'. A non-empty context without '\r' is kept whole. |
| KkcServer.TrimContextSamples | crates/server/src/main.rs:230-234 | "ab\rcd\r\r" becomes "cd". "\r\r" and "" become "". |
| KkcServer.EngineOffset | crates/server/src/main.rs:191-214 | The request offset is narrowed with `as i8`: it is kept modulo 256, and kept exactly when in range. |
| SwiftServer.FitCount | server-swift/Sources/azookey-server/azookey_server.swift:63-70 | The number of segments consumed is at most the number of segments. |
| SwiftServer.ConstructShape | server-swift/Sources/azookey-server/azookey_server.swift:59-73 | The result is the words of the segments that fit. If some segment does not fit, the rest of the hiragana follows. Leftover hiragana after the last segment is dropped. |
| SwiftServer.ConstructAllFit | server-swift/Sources/azookey-server/azookey_server.swift:63-70 | When all readings fit, the result is all the words. |
| SwiftServer.LongReadingsMisfit | server-swift/Sources/azookey-server/azookey_server.swift:64-67 | Readings longer in total than the hiragana mean some segment misfits. |
| SwiftServer.ConstructCandidateString | server-swift/Sources/azookey-server/azookey_server.swift:59-73 | The loop with `break` computes `Construct`. |
| SwiftServer.Server.constructor | server-swift/Sources/azookey-server/azookey_server.swift:6-12 | The server starts with an empty composing text and no context. |
| SwiftServer.Server.ContextOrEmpty | server-swift/Sources/azookey-server/azookey_server.swift:166 | The context reads as the stored string, or as "" when none is set. |
| SwiftServer.Server.ClearText | server-swift/Sources/azookey-server/azookey_server.swift:149-152 | The composing text is reset to empty, and the context is kept. |
| SwiftServer.Server.SetContext | server-swift/Sources/azookey-server/azookey_server.swift:201-207 | The string is stored as the context, and the composing text is kept. |
| SwiftServer.Server.GetComposedText | server-swift/Sources/azookey-server/azookey_server.swift:163-188 | There is one entry per main result, and their count is reported. Each entry carries its rebuilt text, the completed subtext, the same hiragana and its candidate's count. |
| LegacySwiftServer.FirstEntry | server-swift/Sources/azookey_server.swift:134-141 | The first entry is the rebuilt string when the readings are longer than the hiragana. Otherwise it is the candidate's text. |
| LegacySwiftServer.GetComposedText | server-swift/Sources/azookey_server.swift:124-156 | No results give exactly [hiragana, "", "", "", ""]. Otherwise the list has max(5, n) entries: the first entry, later candidates' texts, then "" padding. |
| LegacySwiftServer.ToListPointer | server-swift/Sources/azookey_server.swift:114-122 | There are count + 1 slots, item i in slot i and nil in the last. |
| LegacySwiftServer.ListPointerReadsBack | server-swift/Sources/azookey_server.swift:114-122 | Reading the slots up to the nil terminator gives back the list. |
| LegacySwiftServer.RebuiltFirstEntry | server-swift/Sources/azookey_server.swift:50-141 | A rebuilt first entry always ends with unconsumed hiragana after the fitting words. |
| WindowPosition.CandidateWindowPosition | crates/ui/src/utils.rs:7-58 | The three successive clamps compute `Placement`. |
| WindowPosition.NeverLeftOfWorkArea | crates/ui/src/utils.rs:51-55 | x is never left of the work area. When the window sticks out on the right and moving it left would cross the left edge, it is placed at the left edge: the left clamp wins over the right one. |
| WindowPosition.FitsHorizontally | crates/ui/src/utils.rs:44-55 | A window no wider than the work area lies within it horizontally. |
| WindowPosition.VerticalChoice | crates/ui/src/utils.rs:36-41 | y is the bottom of the composition when the window fits below it, and `top − height` otherwise. |
| WindowPosition.AxesIndependent | crates/ui/src/utils.rs:37-55 | The horizontal inputs never change y, and the vertical inputs never change x. |
| WindowPosition.DefaultPlacement | crates/ui/src/utils.rs:14-15 | When nothing sticks out the window sits at (left − 15, bottom). |
| Extension.EncodeChar | crates/client/src/extension.rs:23 | A char takes one UTF-16 unit exactly when it is in the basic plane. Otherwise it takes two units, a high and a low surrogate. |
| Extension.EncodeUtf16 | crates/client/src/extension.rs:23-27 | The encoding has between n and 2n units. |
| Extension.DecodeEncode | crates/client/src/extension.rs:23-27 | Decoding the encoding gives back the string. |
| Extension.ZeroUnitsAreNuls | crates/client/src/extension.rs:23 | A 0 unit appears exactly when the string holds NUL. |
| Extension.ToWide16Unpadded | crates/client/src/extension.rs:26-28 | It decodes back to the string: exact UTF-16 with no terminator. |
| Extension.ToWide16 | crates/client/src/extension.rs:22-24 | It is the unpadded encoding plus one 0 unit, and the only 0 when the string has no NUL. |
| Extension.LeBytes | crates/client/src/extension.rs:32 | Two bytes per unit. |
| Extension.FromLeBytes | crates/client/src/extension.rs:32 | Reading bytes pairwise gives ⌊n/2⌋ units. |
| Extension.LeBytesRoundTrip | crates/client/src/extension.rs:32 | Reading the little-endian bytes back gives the units. |
| Extension.FromLeBytesPrefix | crates/client/src/extension.rs:32-33 | Pairwise reading distributes over an even-length prefix. |
| Extension.ToWide | crates/client/src/extension.rs:30-35 | `to_wide` has length 2n + 1. Read as UTF-16 it is the encoding with no NUL unit. |
| Extension.ToWideHasNoNulUnit | crates/client/src/extension.rs:30-106 | `to_wide("a")` is [0x61, 0, 0], of odd length. Read as UTF-16 it is [0x61], with no terminator. |
| Extension.ToWideTerminated | crates/client/src/extension.rs:30-106 | The corrected byte string reads back as `to_wide_16`, the NUL-terminated encoding. |
| Extension.HexDigit | crates/client/src/extension.rs:46 | A digit becomes a lower-case hex character that reads back as the digit. |
| Extension.Hex | crates/client/src/extension.rs:46 | `{:0Nx}` has exactly N hex digits. |
| Extension.HexRoundTrip | crates/client/src/extension.rs:46 | The zero-padded hex reads back as the number. |
| Extension.GuidToString | crates/client/src/extension.rs:43-59 | 38 chars: braces at both ends and dashes at 9, 14, 19 and 24. |
| Extension.GuidSlices | crates/client/src/extension.rs:45-58 | Each field sits at its fixed offset in the string. |
| Extension.PieceAt | crates/client/src/extension.rs:45-58 | A slicing step used to locate the fields. |
| Extension.ParseGuidFields | crates/client/src/extension.rs:43-59 | A string of the braced 8-4-4-4-12 shape parses back to the fields it spells. |
| Extension.GuidRoundTrip | crates/client/src/extension.rs:43-59 | Parsing the string gives back the GUID, so the format loses nothing. |
| Globals.DllModule.constructor | crates/client/src/globals.rs:66-71 | The count starts at 0 with no instance handle, so the module can unload. |
| Globals.DllModule.AddRef | crates/client/src/globals.rs:95-97 | The count goes up by one, with wrap-around, and the previous value is returned. |
| Globals.DllModule.Release | crates/client/src/globals.rs:99-101 | The count goes down by one, with wrap-around, and the previous value is returned. |
| Globals.DllModule.CanUnload | crates/client/src/globals.rs:103-105 | `ref_count <= 0` on the unsigned count holds exactly when the count is 0. |
| Globals.Repeat | crates/client/src/globals.rs:95-101 | n copies of one counter operation. |
| Globals.ApplyConcat | crates/client/src/globals.rs:95-101 | Applying two runs of operations is applying one after the other. |
| Globals.AddRefsCount | crates/client/src/globals.rs:95-97 | n `add_ref` calls raise the count by n, modulo 2^64. |
| Globals.ReleasesCount | crates/client/src/globals.rs:99-101 | n `release` calls lower the count by n, modulo 2^64. |
| Globals.BalancedRefsRestore | crates/client/src/globals.rs:95-105 | n `add_ref` calls then n `release` calls restore the count, so a module that could unload can unload again. |
| DllLock.DllModule.constructor | src/globals.rs:46-52 | Both counters start at 0, so `can_unload` holds. |
| DllLock.DllModule.Lock | src/globals.rs:74-77 | The lock count goes up by one, and the new value is returned. The reference count is kept. |
| DllLock.DllModule.Unlock | src/globals.rs:79-82 | The lock count goes down by one, and the new value is returned. The reference count is kept. |
| DllLock.DllModule.CanUnload | ime/src/dll.rs:52-54 | The module can unload when no reference and no lock is held. `DllCanUnloadNow` turns this into S_OK or S_FALSE. The earlier src/globals.rs:84-86 is the same. |
| DllLock.DllModule.LockThenUnlock | ime/src/dll.rs:42-50 | `lock` then `unlock` restores the lock count. |
| DllLock.DllCanUnloadNow | ime/src/dll.rs:75-88 | The result is S_OK exactly when the mutex was taken and both counters are 0. Otherwise it is S_FALSE, never a failure code. |
| DisplayAttributes.DisplayAttributeInfo.constructor | crates/client/src/tsf/display_attribute.rs:51-58 | The GUID and the attribute are stored. The attribute is also kept as the backup. |
| DisplayAttributes.DisplayAttributeInfo.CopyOf | crates/client/src/tsf/display_attribute.rs:140 | The derived `Clone` copies the GUID, the current attribute and the backup. |
| DisplayAttributes.DisplayAttributeInfo.GetAttributeInfo | crates/client/src/tsf/display_attribute.rs:62-68 | The current attribute is returned. |
| DisplayAttributes.DisplayAttributeInfo.GetGuid | crates/client/src/tsf/display_attribute.rs:70-73 | The GUID is returned. |
| DisplayAttributes.DisplayAttributeInfo.GetDescription | crates/client/src/tsf/display_attribute.rs:81-84 | The description is empty. |
| DisplayAttributes.DisplayAttributeInfo.SetAttributeInfo | client/src/tsf/display_attribute.rs:81-86 | The current attribute is overwritten, and the backup stays. |
| DisplayAttributes.DisplayAttributeInfo.Reset | client/src/tsf/display_attribute.rs:72-75 | The attribute goes back to the backup, the value given at construction. |
| DisplayAttributes.Fetched | crates/client/src/tsf/display_attribute.rs:136-150 | The number fetched is min(count, len − index), or 0 past the end. It is 0 exactly for count 0 or an exhausted cursor. Either the request is filled or the list is exhausted. |
| DisplayAttributes.EnumDisplayAttributeInfo.constructor | crates/client/src/tsf/display_attribute.rs:103-113 | The list holds one fresh attribute object with `GUID_DISPLAY_ATTRIBUTE` and the composition's attribute, and the cursor is 0. |
| DisplayAttributes.EnumDisplayAttributeInfo.Clone | client/src/tsf/display_attribute.rs:111-115 | The clone is a fresh enumerator over a fresh one-element list, with the same cursor. |
| DisplayAttributes.EnumDisplayAttributeInfo.Next | crates/client/src/tsf/display_attribute.rs:124-153 | Count 0 changes nothing and leaves `pcfetched` unwritten. Otherwise the cursor moves by the number fetched, which is then reported. The first slot holds a fresh copy of the last entry fetched, and no other slot changes. |
| DisplayAttributes.EnumDisplayAttributeInfo.Reset | client/src/tsf/display_attribute.rs:147-150 | The cursor goes back to 0. |
| DisplayAttributes.EnumDisplayAttributeInfo.Skip | crates/client/src/tsf/display_attribute.rs:161-166 | The cursor moves forward by count, with no clamp. |
| DisplayAttributes.GetDisplayAttributeInfo | client/src/tsf/display_attribute.rs:27-39 | The lookup succeeds exactly for `GUID_DISPLAY_ATTRIBUTE`. It returns a fresh object with that GUID and the composition's attribute, and a miss is E_FAIL. |
| DisplayAttributes.EnumDisplayAttributeInfos | crates/client/src/tsf/display_attribute.rs:22-25 | The provider hands out a fresh enumerator at the start of the one-element list. |
| LanguageBar.ThroughAnyhow | crates/macros/src/lib.rs:84-96 | The COM wrapper passes success through and turns every error into E_FAIL. |
| LanguageBar.GetInfo | crates/client/src/tsf/language_bar.rs:26-44 | The item info names the text service and the input-mode item as a plain button, with sort 0 and a blank 32-unit description. |
| LanguageBar.GetStatus | crates/client/src/tsf/language_bar.rs:46-49 | The status is always 0. |
| LanguageBar.IconId | crates/client/src/tsf/language_bar.rs:96-99 | Kana uses icon 102, Latin 103. |
| LanguageBar.IconShowsMode | crates/client/src/tsf/language_bar.rs:96-99 | Different modes have different icons. |
| LanguageBar.LanguageBarButton.OnClick | crates/client/src/tsf/language_bar.rs:64-77 | A click switches to the other mode and asks `set_input_mode` for it. |
| LanguageBar.LanguageBarButton.ClickTwice | crates/client/src/tsf/language_bar.rs:64-77 | Two clicks restore the original mode. |
| LanguageBar.LanguageBarButton.GetIcon | crates/client/src/tsf/language_bar.rs:91-113 | The icon loaded is the current mode's. |
| LanguageBar.AdviseSink | crates/client/src/tsf/language_bar.rs:122-139 | The body's intent: a registration succeeds exactly for `ITfLangBarItemSink` with a sink, and yields the fixed cookie. Otherwise the result is E_INVALIDARG. |
| LanguageBar.UnadviseSink | crates/client/src/tsf/language_bar.rs:141-150 | The body's intent: only the fixed cookie is accepted. Any other cookie gives CONNECT_E_CANNOTCONNECT. |
| LanguageBar.AdviseSinkAsWritten | crates/client/src/tsf/language_bar.rs:121-139 | As the caller sees it, success is as intended, but every rejection is E_FAIL. |
| LanguageBar.UnadviseSinkAsWritten | crates/client/src/tsf/language_bar.rs:141-150 | As the caller sees it, success is as intended, but an unknown cookie gives E_FAIL. |
| LanguageBar.ChosenCodesAreLost | crates/client/src/tsf/language_bar.rs:126-146 | A wrong interface or an unknown cookie reaches the caller as E_FAIL, not as the code the body chose. |
| LanguageBar.AdviseThenUnadvise | crates/client/src/tsf/language_bar.rs:122-150 | The cookie `AdviseSink` hands out is the one `UnadviseSink` accepts. |

## Left out

- Composition.Normalise: the client calls `to_fullwidth(text)` with one argument (crates/client/src/engine/composition.rs:192), but the `full_width.rs` of this revision takes `(s, process_alphabet)` (crates/client/src/engine/full_width.rs:150). The two files come from different revisions. The one-argument `to_fullwidth` the client was written against is not part of this model. The model fixes `process_alphabet` to false, so letters stay half width; with true, lowercase letters would also be converted to full width.

- Transport and RPC are out of scope: the named pipe, tonic, the async runtime and retries. Requests are a log and replies come from the oracle `server`.
- The `.expect`/`.unwrap` panics on a failed RPC in `handle_action` are not modelled; the engine oracle always answers.
- The TSF host calls are a call log. This covers the edit session, `ITfComposition` and `set_text` ranges, and the legacy revision's `tip_composition` checks in `set_text` and `end_composition`.
- Every host call is taken to succeed: `start_composition`, `end_composition`, `set_text`, `set_input_mode` and `self.borrow()`/`borrow_mut_composition()`. The `?` early exits of `handle_action` are therefore not modelled. In the source such an exit returns before the final store of spelling, suggestion and state (crates/client/src/engine/composition.rs:179-232), and likewise in the earlier `handle_key`.
- `set_input_mode` and `update_lang_bar` are not part of this model. `SetIMEMode` and the language-bar click record the requested mode and take it as the new mode.
- The conversion engine is not modelled. `KanaKanjiConverter`, `requestCandidates`, `prefixComplete` and the engine's `append_text`/`remove_text`/`clear_text` are oracles.
- The Swift `AppendText`, `RemoveText`, `MoveCursor` and `ShrinkText` entry points are not modelled. Each is a single library call on the composing text.
- `load_config` is left out; the Swift context is just a stored string.
- Swift `String.count` counts grapheme clusters, and the model counts chars.
- The `Int32(correspondingCount)` trap on overflow in the Swift server is not modelled.
- The new Swift `to_list_pointer`, which allocates one block per candidate, is not modelled; only the old nil-terminated list is.
- The current client's `azookey_service` returns a suggestion string, while `ipc_service.rs` returns `Candidates`. These files come from different revisions, so the composition machine takes the engine's reply as a string.
- The current Rust server's `Suggestion` has no `hiragana` field, but the client reads one. The client's projection is modelled over the client's own message type.
- The `SetSelection` client action is never executed by `handle_action` and is not modelled.
- The legacy action loop has no `MoveCursor` arm, although its `ClientAction` declares the variant. The legacy model treats `MoveCursor` as a no-op, and its decision table never produces it.
- The `attributes.get(index)` miss inside `Next` cannot happen while the cursor is below the list length, so neither revision's error value for it is modelled.
- KkcServer.GetComposedText: a negative FFI `length` (`c_int as usize`) is excluded by taking `length` as a natural number at most the number of candidates.
- The `CString::new` panic on an interior NUL in `set_context` is not modelled.
- WindowPosition.CandidateWindowPosition: `i32` overflow of the coordinate arithmetic and the `u32 as i32` size casts are not modelled; coordinates are unbounded integers.
- The `f64` conversion of the window position is not modelled; the result is an integer point.
- The monitor lookup (`MonitorFromRect`, `GetMonitorInfoW`) is a parameter, the work area.
- The registry half of `extension.rs` is not modelled: key creation, `RegSetValueExW` and tree deletion. `set_string` is cited only as the user of `to_wide`.
- The `VKeyExt` key-state probe is not modelled; the Shift and Ctrl states are parameters.
- `GUID::from_u128` is written out as the four GUID fields.
- The `IMEState::get` `try_lock`, the `DllModule` mutex, the atomics and `DllModule::global`'s panic are not modelled. Concurrency is taken as sequential, and a failed lock is the `lockAcquired` parameter.
- `DllModule::get`, `get_path` and the instance handle's use are not modelled; they are OS calls.
- Debug-build overflow panics of `ref_lock += 1` and `ref_lock -= 1` in `lock`/`unlock` are not modelled; the release-build wrap-around is. `add_ref`/`release` use atomic `fetch_add`/`fetch_sub`, which wrap in every build, as modelled.
- `LoadImageW` and the `DllModule::get` failure in `GetIcon` are not modelled; the icon is its resource id.
- `Show`, `GetTooltipString`, `GetText`, `InitMenu` and `OnMenuSelect` are not modelled; they return fixed defaults.
- DisplayAttributes.EnumDisplayAttributeInfo.Skip: a `usize` overflow of the cursor is not modelled.
- The window-server methods of the IPC client are not modelled: `show_window`, `hide_window`, `set_window_position`, `set_candidates` and `set_selection`. They forward over RPC and compute nothing.
- `GUID_LBI_INPUTMODE`, the `ITfLangBarItemSink` IID and `TF_LBI_STYLE_BTN_BUTTON` come from the Windows SDK (msctf.h) rather than from the repository.
- UI, logging, tracing, configuration, the launcher and the build scripts are out of scope.

## Findings

| source | as written | input that shows it | evidently intended | confidence | as-written member | corrected member |
|---|---|---|---|---|---|---|
| crates/client/src/tsf/language_bar.rs:121-150 with crates/macros/src/lib.rs:84-96 | `AdviseSink` and `UnadviseSink` return `E_INVALIDARG` and `CONNECT_E_CANNOTCONNECT` from inside a `#[macros::anyhow]` body, and the wrapper replaces every error with `E_FAIL` | `AdviseSink` with any interface other than `ITfLangBarItemSink`, or `UnadviseSink(1)` | the caller receives the HRESULT the body chose | medium, not executed | LanguageBar.AdviseSinkAsWritten, LanguageBar.UnadviseSinkAsWritten, LanguageBar.ChosenCodesAreLost | LanguageBar.AdviseSink, LanguageBar.UnadviseSink |
| crates/client/src/extension.rs:30-35, used at crates/client/src/extension.rs:93-106 | `to_wide` appends one 0 byte after the little-endian UTF-16 bytes, so a `REG_SZ` value has odd length and no complete UTF-16 NUL terminator | `"a"` gives [0x61, 0, 0] | two 0 bytes, one UTF-16 NUL unit, as in `to_wide_16` | medium, not executed | Extension.ToWide, Extension.ToWideHasNoNulUnit | Extension.ToWideTerminated |
