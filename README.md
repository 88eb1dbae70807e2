# Mute-button serial sync, modelled in Dafny

The browser extension of `mute-button` keeps a hardware mute button in step
with the microphone button of a video-meeting page over a Web Serial link.
Its content script keeps the link in module-level globals (`port`, `reader`,
`inputDone`, `outputDone`, `inputStream`, `outputStream`, `lastMuteState`).
`connect` opens the port and sets up the text streams. `disconnect` tears them
down. A timer-driven `sendMuteValue` polls the page's mute attribute and writes
`0`/`1` plus a newline only when the value changes. `readLoop` clicks the
microphone button for every inbound chunk equal to `"1"`.

This project models those globals and operations and proves what they promise:

- `wire.dfy` (module `Wire`) covers the outbound text format. `writeToStream`
  makes one write per line, each the line plus one `'\n'`. A line-oriented
  receiver splits the wire text back into the lines written.
- `sync_state.dfy` (module `SyncState`) holds the globals as a value
  (`Globals`), with one function per operation: `Connected`, `Disconnected`,
  `TeardownSteps`, `Polled`, `PollChain` and `ToggleCount`. It also defines
  the reference definitions the lemmas compare against: `Deduped`, `Changed`
  and `Consumed`.
- `sync_properties.dfy` (module `SyncProperties`) holds the properties that
  span several calls: writes equal changes, the wire format of a whole
  session, toggles per `"1"` chunk, chunks after `done` ignored, and the last
  value sent surviving a reconnect.
- `content_script.dfy` (module `ContentScript`) is the imperative model. Class
  `ScriptState` has one field per global, plus the text written and the click
  count. Its methods follow the source statement by statement. `Connect`,
  `Disconnect`, `SendMuteValue` and `RunPollTimer` are proved to leave the
  state the matching `SyncState` function gives; `WriteToStream` appends
  `Wire.Framed` of its lines; `ReadLoop` adds `ToggleCount` of its chunks to
  the click count.

Browser objects are reduced to whether each handle is present. The microphone
button's `data-is-muted` attribute is an input (`Option<string>`, `None` when
absent). Its clicks are the counter `toggles`. Decoded inbound data is a
sequence of `(value, done)` chunks.

The code makes these choices, which a reader might not expect:

- `lastMuteState` is never reset. A reconnect keeps the last value sent, so
  the first poll after it writes only on a change (`ReconnectKeepsLastSent`).
- `connect` has no guard against an existing connection.
- `disconnect` calls `port.close()` without a check, so it needs a port; a
  second `disconnect` would throw.
- Inbound chunks are not split on newlines. A chunk `"1\n"` clicks nothing
  (`InboundScenario`).
- `disconnect` leaves `inputStream` set. It clears `inputDone` and
  `outputDone` only inside the reader and output-stream guards.

## Model

| member | source | states |
|---|---|---|
| ContentScript.ScriptState.constructor | extension/js/content_script.js:3-10 | the globals start undefined: no handle, no last value, nothing written |
| ContentScript.ScriptState.Connect | extension/js/content_script.js:16-38 | the new state is `Connected` of the old one: every handle present, `lastMuteState`, writes and clicks unchanged |
| ContentScript.ScriptState.Disconnect | extension/js/content_script.js:45-67 | given a port, the new state is `Disconnected` of the old one and the teardown calls made are `TeardownSteps` of the old state |
| ContentScript.ScriptState.ReadLoop | extension/js/content_script.js:85-101 | clicks grow by the number of `"1"` chunks up to and including the first `done`; the loop ends exactly when a `done` chunk arrives |
| ContentScript.ScriptState.WriteToStream | extension/js/content_script.js:109-116 | the writes made are the lines, in order, each followed by one newline |
| ContentScript.ScriptState.SendMuteValue | extension/js/content_script.js:122-134 | the new state is `Polled` of the old one; it reschedules exactly when a port is present |
| ContentScript.ScriptState.RunPollTimer | extension/js/content_script.js:133 | the timer chain runs every reading while a port is present and stops after one no-op poll without one; the final state is `PollChain` of the old one |
| SyncState.Connected | extension/js/content_script.js:18-32 | after `connect` port, reader, both streams and both `done` promises are present; `lastMuteState`, writes and clicks are unchanged |
| SyncState.TeardownSteps | extension/js/content_script.js:49-65 | the reader is cancelled iff one is present and the writer closed iff an output stream is present, in that order; the port is always closed, last and once |
| SyncState.Disconnected | extension/js/content_script.js:45-67 | after `disconnect` there is no port, reader or output stream, and no `done` promise when the handles were paired; `inputStream`, `lastMuteState`, writes and clicks are unchanged |
| SyncState.PolledValue | extension/js/content_script.js:127-128 | the polled value is 1 exactly when the attribute is the string `"true"`, else 0 |
| SyncState.Polled | extension/js/content_script.js:122-134 | without a port a poll changes nothing; with one, `lastMuteState` becomes the polled value and a write happens iff the value differs from it, the write being that value's text plus `'\n'` (`"0\n"` or `"1\n"`); handles and clicks are unchanged |
| SyncState.Fires | extension/js/content_script.js:89-91 | a chunk clicks the button exactly when its value is the string `"1"` (the empty string and undefined never do) |
| Wire.FramedAt | extension/js/content_script.js:112-114 | the i-th write is the i-th line followed by `'\n'` |
| Wire.FramedAppend | extension/js/content_script.js:112-114 | writing lines `a` then `b` gives the writes of `a` followed by those of `b` |
| Wire.MuteFrame | extension/js/content_script.js:131 | a mute value is written as the single text `"0\n"` or `"1\n"` |
| Wire.OneNewlinePerLine | extension/js/content_script.js:112-114 | for lines without newlines the wire text holds exactly one newline per line |
| Wire.SplitFramed | extension/js/content_script.js:109-116 | splitting the wire text on newlines gives back exactly the lines written |
| SyncProperties.OperationsKeepConsistent | extension/js/content_script.js:16-67 | from the initial state, connect, disconnect and poll keep handles paired and both streams present with a port, so a poll never meets a port without an output stream |
| SyncProperties.WritesEqualChanges | extension/js/content_script.js:129-132 | the number of values written equals the number of readings that differ from the one before, the first compared with the last value sent |
| SyncProperties.DedupedNoRepeats | extension/js/content_script.js:129-132 | no value is written twice in a row, and the first write differs from the last value sent |
| SyncProperties.DedupedLast | extension/js/content_script.js:129-130 | nothing is written iff every reading equals the last value sent; otherwise the last write is the last reading |
| SyncProperties.PollScenario | extension/js/content_script.js:128-132 | readings 0, 0, 1, 1, 0 on a fresh connection write 0, 1, 0 |
| SyncProperties.FirstPollSends | extension/js/content_script.js:129-132 | writing a value only when it differs from the last one sent, then deduplicating the rest from that value, writes exactly what deduplication sends from the last one |
| SyncProperties.PollChainState | extension/js/content_script.js:122-134 | with a port, a poll chain leaves `lastMuteState` at the last reading and changes no handle or click count |
| SyncProperties.PollChainWrites | extension/js/content_script.js:122-134 | with a port, a poll chain writes exactly the deduplicated readings, each followed by one newline |
| SyncProperties.PollChainWithoutPort | extension/js/content_script.js:124-126 | without a port the poll chain changes nothing |
| SyncProperties.TextsHaveNoNewlines | extension/js/content_script.js:131 | mute-value texts are `"0"`/`"1"` and carry no newline |
| SyncProperties.SessionOnWire | extension/js/content_script.js:109-134 | over a session the writes number the changes, and a receiver splitting the wire text on newlines reads back exactly the deduplicated values |
| SyncProperties.ReconnectKeepsLastSent | extension/js/content_script.js:16-67 | after disconnect and connect the first poll writes iff the value differs from the last value sent before, and records that value |
| SyncProperties.FireCountAppend | extension/js/content_script.js:89-94 | one more chunk adds one click iff it is a `"1"` chunk |
| SyncProperties.ConsumedUpTo | extension/js/content_script.js:96-99 | when chunk i is the first `done`, the loop reads chunks 0 through i |
| SyncProperties.ConsumedAll | extension/js/content_script.js:87-100 | without a `done` chunk the loop reads every chunk |
| SyncProperties.ConsumedStopsAtFirstDone | extension/js/content_script.js:87-100 | the chunks read are a prefix of the input with no `done` before the last, which is `done` iff the input has one |
| SyncProperties.ChunksAfterDoneIgnored | extension/js/content_script.js:96-99 | chunks after the first `done` are never read and never click |
| SyncProperties.FireCountIsOnes | extension/js/content_script.js:89-94 | the click count is the number of chunks read whose value is `"1"` |
| SyncProperties.DoneChunkStillFires | extension/js/content_script.js:88-98 | a `"1"` chunk that arrives with `done` still clicks, and nothing after it is read |
| SyncProperties.InboundScenario | extension/js/content_script.js:89-94 | chunks `"1"`, `"0"`, `"1"` click twice; a chunk `"1\n"` clicks nothing |

## Left out

- The Web Serial calls (`requestPort`, `open` at 9600 baud, `pipeTo`, `cancel`, `getWriter().close()`, `close`) are foreign asynchronous I/O. Only their effect on which handles are present is modelled.
- Failures of `requestPort` or `open` during `connect` are not modelled. `Connect` models the successful path only.
- SyncState.TeardownSteps: models the successful teardown only. In the source a rejection from `reader.cancel()` (line 50), `getWriter().close()` (line 58), `await outputDone` (line 59) or `port.close()` (line 65) stops `disconnect` and leaves the later handles set; only the input pipe's rejection (line 51) is swallowed. `SyncState.Disconnected` and `ContentScript.ScriptState.Disconnect` likewise model only that successful path.
- A rejected `reader.read()` (line 88) ends the read loop with no `done` and no `releaseLock`; `ReadLoop` does not model it.
- SyncState.Polled: requires an output stream whenever there is a port, because `disconnect` is modelled as one atomic step. In the source the 500 ms poll keeps running while `disconnect` awaits at lines 50-65, since `port` is nulled only at line 66. A poll that sees a changed value while the writer taken at line 58 still holds the stream, or after line 60 has nulled `outputStream`, sets `lastMuteState` at line 130 and then throws at line 111. That value is recorded as sent but never written, and because `lastMuteState` survives a reconnect, the next session does not send it until it changes. The model does not capture this window.
- `TextEncoderStream`/`TextDecoderStream` are library code. UTF-8 and chunk boundaries are not modelled; decoded chunks are an input sequence of strings.
- `reader.releaseLock()` after `done`, and the lock `getWriter`/`releaseLock` take around each `writeToStream`, are not modelled.
- DOM access is page glue: `querySelector`, `listenForJoinNow`, `listenForLeave`, `addEventListener`, `el.click()`. The attribute is an input and a click is a counter increment. A missing microphone element, on which the source would throw, is not modelled.
- `handleJoinMeeting`'s first `setTimeout` of 100 ms and the 500 ms period are timing. `RunPollTimer` models the chain as consecutive calls.
- The interleaving of `readLoop` with the polls and with `disconnect` is concurrency. `Connect` does not start `ReadLoop`; each is called on its own.
- `console.log` is output only. The global `closed` is declared but never used.
- SyncState.Disconnected: states `!inputDone && !outputDone` only for paired handles, because the source clears those two globals only inside the reader and output-stream guards.
