/** The module-level state of the content script as a value, and each
    operation's effect on it as a function. The class in ContentScript keeps
    the same state in fields and is proved against these functions. */
module SyncState {
  import opened Wrappers
  import opened Wire

  /** `port`, `reader`, `inputDone`, `outputDone`, `inputStream` and
      `outputStream` are handles: only whether each is present matters here.
      `written` is every text handed to the stream writer, in order;
      `toggles` counts the microphone-button clicks the read loop makes. */
  datatype Globals = Globals(
    port: bool,
    reader: bool,
    inputDone: bool,
    outputDone: bool,
    inputStream: bool,
    outputStream: bool,
    lastMuteState: Option<Bit>,
    written: seq<string>,
    toggles: nat)

  /** The globals when the script is loaded: every one undefined. */
  const Initial := Globals(false, false, false, false, false, false, None, [], 0)

  /** The handles `connect` sets in pairs are present together. */
  predicate Paired(s: Globals)
  {
    s.reader == s.inputDone && s.outputStream == s.outputDone
  }

  predicate SameHandles(r: Globals, s: Globals)
  {
    r.port == s.port && r.reader == s.reader && r.inputDone == s.inputDone &&
    r.outputDone == s.outputDone && r.inputStream == s.inputStream &&
    r.outputStream == s.outputStream
  }

  // ---------------------------------------------------------------- connect

  /** `connect` opens the port and sets every stream handle; it neither checks
      for an existing connection nor touches `lastMuteState`. */
  function Connected(s: Globals): (r: Globals)
    ensures r.port && r.reader && r.inputDone && r.outputDone && r.inputStream && r.outputStream
    ensures r.lastMuteState == s.lastMuteState && r.written == s.written && r.toggles == s.toggles
  {
    s.(port := true, outputDone := true, outputStream := true,
       inputDone := true, inputStream := true, reader := true)
  }

  // ------------------------------------------------------------- disconnect

  /** The teardown calls `disconnect` makes, in order. */
  datatype Teardown = CancelReader | CloseWriter | ClosePort

  /** `disconnect` cancels the reader only if there is one, closes the writer
      only if there is an output stream, and always closes the port. */
  function TeardownSteps(s: Globals): (steps: seq<Teardown>)
    ensures CancelReader in steps <==> s.reader
    ensures CloseWriter in steps <==> s.outputStream
    ensures steps != [] && steps[|steps| - 1] == ClosePort && ClosePort !in steps[..|steps| - 1]
    ensures forall i, j :: 0 <= i < j < |steps| ==> steps[i] != steps[j]
    ensures forall i, j :: 0 <= i < |steps| && 0 <= j < |steps| && steps[i] == CloseWriter && steps[j] == CancelReader ==> j < i
  {
    (if s.reader then [CancelReader] else []) +
    (if s.outputStream then [CloseWriter] else []) +
    [ClosePort]
  }

  /** The globals after `disconnect`. It calls `port.close()` without a check,
      so it needs a port. `inputStream` is left as it was. */
  function Disconnected(s: Globals): (r: Globals)
    requires s.port
    ensures !r.port && !r.reader && !r.outputStream
    ensures Paired(s) ==> !r.inputDone && !r.outputDone
    ensures r.inputStream == s.inputStream
    ensures r.lastMuteState == s.lastMuteState && r.written == s.written && r.toggles == s.toggles
  {
    var afterInput := if s.reader then s.(reader := false, inputDone := false) else s;
    var afterOutput :=
      if afterInput.outputStream then afterInput.(outputStream := false, outputDone := false)
      else afterInput;
    afterOutput.(port := false)
  }

  // ----------------------------------------------------------- sendMuteValue

  /** The value the poll reads from the microphone button's `data-is-muted`
      attribute (None when the attribute is absent). */
  function PolledValue(isMuted: Option<string>): (v: Bit)
    ensures v == 1 <==> isMuted == Some("true")
  {
    match isMuted
    case None => 0
    case Some(text) => if text == "true" then 1 else 0
  }

  /** The globals after one `sendMuteValue` call. Writing needs an output
      stream whenever there is a port (otherwise `getWriter` throws). */
  function Polled(s: Globals, isMuted: Option<string>): (r: Globals)
    requires s.port ==> s.outputStream
    ensures !s.port ==> r == s
    ensures s.port ==> r.lastMuteState == Some(PolledValue(isMuted))
    ensures s.port ==> (r.written != s.written <==> s.lastMuteState != Some(PolledValue(isMuted)))
    ensures r.written == s.written || r.written == s.written + ["0\n"] || r.written == s.written + ["1\n"]
    ensures s.port && s.lastMuteState != Some(PolledValue(isMuted)) ==>
      r.written == s.written + [NumberText(PolledValue(isMuted)) + "\n"]
    ensures SameHandles(r, s) && r.toggles == s.toggles
  {
    if !s.port then s
    else
      var v := PolledValue(isMuted);
      if s.lastMuteState != Some(v) then
        MuteFrame(v);
        s.(lastMuteState := Some(v), written := s.written + Framed([NumberText(v)]))
      else s
  }

  /** `sendMuteValue` schedules the next poll only when a port is present. */
  function Reschedules(s: Globals): bool
  {
    s.port
  }

  /** The timer chain started after `connect`: the poll runs on each attribute
      reading in turn and stops after the first run that does not reschedule. */
  function PollChain(s: Globals, readings: seq<Option<string>>): Globals
    requires s.port ==> s.outputStream
    decreases |readings|
  {
    if readings == [] then s
    else
      var r := Polled(s, readings[0]);
      if Reschedules(s) then PollChain(r, readings[1..]) else r
  }

  /** The values a chain of polls reads. */
  function Values(readings: seq<Option<string>>): (vs: seq<Bit>)
    ensures |vs| == |readings|
    ensures forall i :: 0 <= i < |readings| ==> vs[i] == PolledValue(readings[i])
  {
    if readings == [] then [] else [PolledValue(readings[0])] + Values(readings[1..])
  }

  function Texts(vs: seq<Bit>): (ts: seq<string>)
    ensures |ts| == |vs|
  {
    if vs == [] then [] else [NumberText(vs[0])] + Texts(vs[1..])
  }

  /** The values a deduplicating sender writes, starting from the last value
      sent (None when nothing has been sent yet). */
  function Deduped(last: Option<Bit>, vs: seq<Bit>): seq<Bit>
    decreases |vs|
  {
    if vs == [] then []
    else if last == Some(vs[0]) then Deduped(last, vs[1..])
    else [vs[0]] + Deduped(Some(vs[0]), vs[1..])
  }

  /** For each reading, whether it differs from the one before it (the first
      is compared with the last value sent). */
  function Changed(last: Option<Bit>, vs: seq<Bit>): (cs: seq<bool>)
    ensures |cs| == |vs|
  {
    seq(|vs|, i requires 0 <= i < |vs| => (if i == 0 then last else Some(vs[i - 1])) != Some(vs[i]))
  }

  function ChangeCount(last: Option<Bit>, vs: seq<Bit>): nat
  {
    multiset(Changed(last, vs))[true]
  }

  // ---------------------------------------------------------------- readLoop

  /** One result of `reader.read()`: the decoded text (None when undefined)
      and the `done` flag. */
  datatype Chunk = Chunk(value: Option<string>, done: bool)

  /** The loop clicks the button for a chunk whose value is truthy and
      loosely equal to "1"; for a string that is exactly the text "1". */
  function Fires(c: Chunk): (b: bool)
    ensures b <==> c.value == Some("1")
  {
    match c.value
    case None => false
    case Some(text) => text != "" && text == "1"
  }

  /** The chunks the loop reads: all of them up to and including the first
      one marked `done`. */
  function Consumed(chunks: seq<Chunk>): seq<Chunk>
  {
    if chunks == [] then []
    else if chunks[0].done then [chunks[0]]
    else [chunks[0]] + Consumed(chunks[1..])
  }

  function FireCount(chunks: seq<Chunk>): nat
  {
    if chunks == [] then 0
    else (if Fires(chunks[0]) then 1 else 0) + FireCount(chunks[1..])
  }

  /** The clicks one run of the read loop makes. */
  function ToggleCount(chunks: seq<Chunk>): nat
  {
    FireCount(Consumed(chunks))
  }

  predicate HasDone(chunks: seq<Chunk>)
  {
    exists i :: 0 <= i < |chunks| && chunks[i].done
  }

  function ValuesOf(chunks: seq<Chunk>): (vs: seq<Option<string>>)
    ensures |vs| == |chunks|
    ensures forall i :: 0 <= i < |chunks| ==> vs[i] == chunks[i].value
  {
    if chunks == [] then [] else [chunks[0].value] + ValuesOf(chunks[1..])
  }
}
