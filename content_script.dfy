/** The content script's module-level globals as the fields of one object,
    and the functions that update them step by step. Browser objects are
    reduced to whether each handle is present; the microphone button's
    `data-is-muted` attribute is an input and its clicks are a counter. */
module ContentScript {
  import opened Wrappers
  import opened Wire
  import opened SyncState
  import opened SyncProperties

  class ScriptState {
    var port: bool
    var reader: bool
    var inputDone: bool
    var outputDone: bool
    var inputStream: bool
    var outputStream: bool
    var lastMuteState: Option<Bit>
    /** Every text handed to the output stream's writer, in order. */
    var written: seq<string>
    /** Clicks on the microphone button made by the read loop. */
    var toggles: nat

    /** The globals as a value. */
    function View(): Globals
      reads this
    {
      Globals(port, reader, inputDone, outputDone, inputStream, outputStream,
              lastMuteState, written, toggles)
    }

    /** The script as loaded: every global undefined. */
    constructor ()
      ensures View() == Initial
    {
      port, reader, inputDone, outputDone := false, false, false, false;
      inputStream, outputStream := false, false;
      lastMuteState, written, toggles := None, [], 0;
    }

    /** `connect`: opens the port and sets up both streams and the reader. */
    method Connect()
      modifies this
      ensures View() == Connected(old(View()))
    {
      port := true;
      outputDone := true;
      outputStream := true;
      inputDone := true;
      inputStream := true;
      reader := true;
    }

    /** `disconnect`: tears down the input side if there is a reader, the
        output side if there is an output stream, then closes the port. */
    method Disconnect() returns (steps: seq<Teardown>)
      requires port
      modifies this
      ensures View() == Disconnected(old(View()))
      ensures steps == TeardownSteps(old(View()))
    {
      steps := [];
      if reader {
        steps := steps + [CancelReader];
        reader := false;
        inputDone := false;
      }
      if outputStream {
        steps := steps + [CloseWriter];
        outputStream := false;
        outputDone := false;
      }
      steps := steps + [ClosePort];
      port := false;
    }

    /** `readLoop`: reads chunks until one is marked `done`, clicking the
        button for each chunk whose value is "1". Returns whether the loop
        ended; it has not when the chunks run out before a `done`. */
    method ReadLoop(chunks: seq<Chunk>) returns (finished: bool)
      requires reader
      modifies this`toggles
      ensures toggles == old(toggles) + ToggleCount(chunks)
      ensures finished <==> HasDone(chunks)
    {
      finished := false;
      var i := 0;
      while i < |chunks|
        invariant 0 <= i <= |chunks|
        invariant forall j :: 0 <= j < i ==> !chunks[j].done
        invariant toggles == old(toggles) + FireCount(chunks[..i])
      {
        var chunk := chunks[i];
        if chunk.value.Some? && chunk.value.value != "" {
          if chunk.value.value == "1" {
            toggles := toggles + 1;
          }
        }
        FireCountAppend(chunks[..i], chunk);
        assert chunks[..i + 1] == chunks[..i] + [chunk];
        if chunk.done {
          ConsumedUpTo(chunks, i);
          finished := true;
          break;
        }
        i := i + 1;
      }
      if !finished {
        assert chunks[..i] == chunks;
        ConsumedAll(chunks);
      }
    }

    /** `writeToStream`: writes each line followed by a newline, in order. */
    method WriteToStream(lines: seq<string>)
      requires outputStream
      modifies this`written
      ensures written == old(written) + Framed(lines)
    {
      var i := 0;
      while i < |lines|
        invariant 0 <= i <= |lines|
        invariant written == old(written) + Framed(lines[..i])
      {
        assert Framed([lines[i]]) == [lines[i] + "\n"];
        FramedAppend(lines[..i], [lines[i]]);
        assert lines[..i + 1] == lines[..i] + [lines[i]];
        written := written + [lines[i] + "\n"];
        i := i + 1;
      }
      assert lines[..i] == lines;
    }

    /** `sendMuteValue`: without a port it does nothing and stops; otherwise
        it writes the button's mute value when it differs from the last value
        sent, and schedules the next poll. */
    method SendMuteValue(isMuted: Option<string>) returns (rescheduled: bool)
      requires port ==> outputStream
      modifies this
      ensures View() == Polled(old(View()), isMuted)
      ensures rescheduled == Reschedules(old(View()))
    {
      if !port {
        return false;
      }
      var v := PolledValue(isMuted);
      if lastMuteState != Some(v) {
        lastMuteState := Some(v);
        WriteToStream([NumberText(v)]);
      }
      rescheduled := true;
    }

    /** The `setTimeout` chain of polls, one attribute reading per tick. It
        runs every reading while there is a port; without one the first poll
        does nothing and the chain ends. */
    method RunPollTimer(readings: seq<Option<string>>) returns (polls: nat)
      requires port ==> outputStream
      modifies this
      ensures View() == PollChain(old(View()), readings)
      ensures polls == if readings == [] then 0 else if old(port) then |readings| else 1
    {
      polls := 0;
      var again := true;
      while again && polls < |readings|
        invariant 0 <= polls <= |readings|
        invariant port == old(port) && (port ==> outputStream)
        invariant again ==> polls == 0 || port
        invariant again ==> PollChain(View(), readings[polls..]) == PollChain(old(View()), readings)
        invariant !again ==> View() == PollChain(old(View()), readings) && polls == 1 && !port
      {
        assert readings[polls..][1..] == readings[polls + 1..];
        again := SendMuteValue(readings[polls]);
        polls := polls + 1;
      }
    }
  }
}
