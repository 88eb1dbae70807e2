/** What the operations of the content script promise over several calls:
    deduplicated writes, the wire format, toggles per inbound chunk, and the
    state that survives a reconnect. */
module SyncProperties {
  import opened Wrappers
  import opened Wire
  import opened SyncState

  // ------------------------------------------------------ reachable states

  /** Every state the script can reach from `Initial` keeps its handles paired
      and has both streams whenever it has a port, so a poll never finds a
      port without an output stream. */
  predicate Consistent(s: Globals)
  {
    Paired(s) && (s.port ==> s.reader && s.outputStream)
  }

  lemma OperationsKeepConsistent(s: Globals, isMuted: Option<string>)
    requires Consistent(s)
    ensures Consistent(Initial)
    ensures Consistent(Connected(s))
    ensures s.port ==> Consistent(Disconnected(s))
    ensures Consistent(Polled(s, isMuted))
  {
  }

  // --------------------------------------------------------- deduplication

  /** Over a sequence of polls, the number of writes equals the number of
      changes, the not-yet-sent initial state counting as different. */
  lemma {:induction false} WritesEqualChanges(last: Option<Bit>, vs: seq<Bit>)
    ensures |Deduped(last, vs)| == ChangeCount(last, vs)
    decreases |vs|
  {
    if vs != [] {
      var next := Some(vs[0]);
      assert Changed(last, vs) == [last != next] + Changed(next, vs[1..]);
      WritesEqualChanges(next, vs[1..]);
    }
  }

  /** No value is written twice in a row, and the first write differs from
      the last value sent before. */
  lemma {:induction false} DedupedNoRepeats(last: Option<Bit>, vs: seq<Bit>)
    ensures var d := Deduped(last, vs);
      (d != [] ==> Some(d[0]) != last) &&
      forall i :: 0 < i < |d| ==> d[i] != d[i - 1]
    decreases |vs|
  {
    if vs != [] {
      DedupedNoRepeats(Some(vs[0]), vs[1..]);
      if last == Some(vs[0]) {
        DedupedNoRepeats(last, vs[1..]);
      }
    }
  }

  /** Nothing is written exactly when every reading equals the last value
      sent; otherwise the last write is the last reading. */
  lemma {:induction false} DedupedLast(last: Option<Bit>, vs: seq<Bit>)
    ensures Deduped(last, vs) == [] <==> forall i :: 0 <= i < |vs| ==> Some(vs[i]) == last
    ensures var d := Deduped(last, vs); d != [] ==> d[|d| - 1] == vs[|vs| - 1]
    decreases |vs|
  {
    if vs != [] {
      var rest := vs[1..];
      var next := Some(vs[0]);
      if last == next {
        DedupedLast(last, rest);
        assert forall i :: 1 <= i < |vs| ==> vs[i] == rest[i - 1];
      } else {
        DedupedLast(next, rest);
        var d := Deduped(next, rest);
        assert Deduped(last, vs) == [vs[0]] + d;
        if d != [] {
          assert rest[|rest| - 1] == vs[|vs| - 1];
        } else if rest != [] {
          assert Some(rest[|rest| - 1]) == next;
        }
      }
    }
  }

  /** The example poll sequence false, false, true, true, false from a fresh
      connection writes 0, 1, 0: three writes. */
  lemma PollScenario()
    ensures Deduped(None, [0, 0, 1, 1, 0]) == [0, 1, 0]
  {
  }

  // ------------------------------------------------------------ poll chain

  /** With a port present, the timer chain leaves `lastMuteState` at the
      last reading and changes no handle and no toggle count. */
  lemma {:induction false} PollChainState(s: Globals, readings: seq<Option<string>>)
    requires s.port && s.outputStream
    ensures var r := PollChain(s, readings);
      r.lastMuteState == (if readings == [] then s.lastMuteState else Some(PolledValue(readings[|readings| - 1]))) &&
      SameHandles(r, s) && r.toggles == s.toggles
    decreases |readings|
  {
    if readings != [] {
      var rest := readings[1..];
      PollChainState(Polled(s, readings[0]), rest);
      assert rest != [] ==> rest[|rest| - 1] == readings[|readings| - 1];
    }
  }

  lemma DedupedCons(last: Option<Bit>, v: Bit, vs: seq<Bit>)
    ensures Deduped(last, [v] + vs) ==
      if last == Some(v) then Deduped(last, vs) else [v] + Deduped(Some(v), vs)
  {
  }

  lemma FramedTextsCons(v: Bit, d: seq<Bit>)
    ensures Framed(Texts([v] + d)) == [NumberText(v) + "\n"] + Framed(Texts(d))
  {
  }

  /** One deduplicating step: sending `v` when it differs from `last`, then
      the rest from `v`, writes what deduplication sends from `last`. */
  lemma FirstPollSends(w: seq<string>, last: Option<Bit>, v: Bit, vs: seq<Bit>)
    ensures (if last == Some(v) then w else w + [NumberText(v) + "\n"]) +
      Framed(Texts(Deduped(Some(v), vs))) ==
      w + Framed(Texts(Deduped(last, [v] + vs)))
  {
    DedupedCons(last, v, vs);
    if last != Some(v) {
      var d := Deduped(Some(v), vs);
      var x, f := [NumberText(v) + "\n"], Framed(Texts(d));
      FramedTextsCons(v, d);
      assert (w + x) + f == w + (x + f);
    }
  }

  /** With a port present, the timer chain writes exactly the deduplicated
      readings, each followed by one newline. */
  lemma {:induction false} PollChainWrites(s: Globals, readings: seq<Option<string>>)
    requires s.port && s.outputStream
    ensures PollChain(s, readings).written ==
      s.written + Framed(Texts(Deduped(s.lastMuteState, Values(readings))))
    decreases |readings|
  {
    if readings != [] {
      var p := Polled(s, readings[0]);
      var rest := readings[1..];
      PollChainWrites(p, rest);
      var v := PolledValue(readings[0]);
      assert Values(readings) == [v] + Values(rest);
      FirstPollSends(s.written, s.lastMuteState, v, Values(rest));
    }
  }

  /** Without a port the first poll does nothing and the chain stops. */
  lemma PollChainWithoutPort(s: Globals, readings: seq<Option<string>>)
    requires !s.port
    ensures PollChain(s, readings) == s
  {
  }

  /** The text of a mute value is "0" or "1" and holds no newline. */
  lemma {:induction false} TextsHaveNoNewlines(vs: seq<Bit>)
    ensures NoNewlines(Texts(vs))
    ensures forall i :: 0 <= i < |vs| ==> Texts(vs)[i] == NumberText(vs[i])
  {
    if vs != [] {
      TextsHaveNoNewlines(vs[1..]);
      var ts := Texts(vs);
      assert ts == [NumberText(vs[0])] + Texts(vs[1..]);
      forall i | 0 <= i < |vs| ensures ts[i] == NumberText(vs[i]) && '\n' !in ts[i] {
        if i > 0 {
          assert ts[i] == Texts(vs[1..])[i - 1];
        }
      }
    }
  }

  /** Over a whole session the number of writes equals the number of changes,
      and a receiver splitting the wire text on newlines reads back exactly
      the deduplicated values as "0" and "1". */
  lemma SessionOnWire(s: Globals, readings: seq<Option<string>>)
    requires s.port && s.outputStream
    ensures var r := PollChain(s, readings);
      var sent := Deduped(s.lastMuteState, Values(readings));
      |r.written| - |s.written| == ChangeCount(s.lastMuteState, Values(readings)) &&
      |s.written| <= |r.written| &&
      SplitLines(WireText(r.written[|s.written|..])) == Texts(sent)
  {
    var r := PollChain(s, readings);
    var sent := Deduped(s.lastMuteState, Values(readings));
    PollChainWrites(s, readings);
    WritesEqualChanges(s.lastMuteState, Values(readings));
    assert r.written[|s.written|..] == Framed(Texts(sent));
    TextsHaveNoNewlines(sent);
    SplitFramed(Texts(sent));
  }

  // ------------------------------------------------------------- reconnect

  /** Neither `disconnect` nor `connect` forgets the last value sent, so the
      first poll after a reconnect writes only when the value has changed. */
  lemma ReconnectKeepsLastSent(s: Globals, isMuted: Option<string>)
    requires s.port
    ensures var r := Polled(Connected(Disconnected(s)), isMuted);
      (r.written == s.written <==> s.lastMuteState == Some(PolledValue(isMuted))) &&
      r.lastMuteState == Some(PolledValue(isMuted))
  {
  }

  // -------------------------------------------------------------- readLoop

  lemma {:induction false} FireCountAppend(a: seq<Chunk>, c: Chunk)
    ensures FireCount(a + [c]) == FireCount(a) + (if Fires(c) then 1 else 0)
  {
    if a != [] {
      assert (a + [c])[1..] == a[1..] + [c];
      FireCountAppend(a[1..], c);
    } else {
      assert a + [c] == [c];
    }
  }

  /** The loop reads up to and including the first `done` chunk. */
  lemma {:induction false} ConsumedUpTo(chunks: seq<Chunk>, i: nat)
    requires i < |chunks| && chunks[i].done
    requires forall j :: 0 <= j < i ==> !chunks[j].done
    ensures Consumed(chunks) == chunks[..i + 1]
  {
    if i > 0 {
      ConsumedUpTo(chunks[1..], i - 1);
      assert chunks[..i + 1] == [chunks[0]] + chunks[1..][..i];
    }
  }

  /** Without a `done` chunk the loop reads every chunk. */
  lemma {:induction false} ConsumedAll(chunks: seq<Chunk>)
    requires !HasDone(chunks)
    ensures Consumed(chunks) == chunks
  {
    if chunks != [] {
      assert !chunks[0].done;
      assert !HasDone(chunks[1..]) by {
        forall j | 0 <= j < |chunks[1..]| ensures !chunks[1..][j].done {
          assert chunks[1..][j] == chunks[j + 1];
        }
      }
      ConsumedAll(chunks[1..]);
    }
  }

  /** What the loop consumes is a prefix of its input with no `done` before
      its last chunk, which is `done` exactly when the input has one. */
  lemma {:induction false} ConsumedStopsAtFirstDone(chunks: seq<Chunk>)
    ensures var c := Consumed(chunks);
      |c| <= |chunks| && c == chunks[..|c|] &&
      (forall i :: 0 <= i < |c| - 1 ==> !c[i].done) &&
      (HasDone(chunks) <==> c != [] && c[|c| - 1].done)
  {
    if chunks != [] && !chunks[0].done {
      var c := Consumed(chunks);
      var t := Consumed(chunks[1..]);
      ConsumedStopsAtFirstDone(chunks[1..]);
      assert c == [chunks[0]] + t;
      assert chunks[..|c|] == [chunks[0]] + chunks[1..][..|t|];
      if HasDone(chunks) {
        var k :| 0 <= k < |chunks| && chunks[k].done;
        assert chunks[1..][k - 1].done;
      }
      if HasDone(chunks[1..]) {
        var k :| 0 <= k < |chunks[1..]| && chunks[1..][k].done;
        assert chunks[k + 1].done;
      }
    } else if chunks != [] {
      assert chunks[0].done;
    }
  }

  /** Chunks after the first `done` are never read. */
  lemma {:induction false} ChunksAfterDoneIgnored(a: seq<Chunk>, b: seq<Chunk>)
    requires HasDone(a)
    ensures Consumed(a + b) == Consumed(a) && ToggleCount(a + b) == ToggleCount(a)
  {
    var k :| 0 <= k < |a| && a[k].done;
    if !a[0].done {
      assert (a + b)[1..] == a[1..] + b;
      assert a[1..][k - 1].done;
      ChunksAfterDoneIgnored(a[1..], b);
    }
  }

  /** The toggle count is the number of consumed chunks whose value is "1". */
  lemma {:induction false} FireCountIsOnes(chunks: seq<Chunk>)
    ensures FireCount(chunks) == multiset(ValuesOf(chunks))[Some("1")]
  {
    if chunks != [] {
      assert ValuesOf(chunks) == [chunks[0].value] + ValuesOf(chunks[1..]);
      FireCountIsOnes(chunks[1..]);
    }
  }

  /** A chunk that arrives together with `done` is still acted on. */
  lemma DoneChunkStillFires(rest: seq<Chunk>)
    ensures ToggleCount([Chunk(Some("1"), true)] + rest) == 1
  {
    var c := Chunk(Some("1"), true);
    assert ([c] + rest)[0] == c;
    assert Consumed([c] + rest) == [c];
    assert [c][1..] == [];
    assert FireCount([c]) == 1 + FireCount([]);
  }

  /** Inbound "1", "0", "1" clicks the button twice; a chunk that still
      carries its newline, "1\n", clicks nothing, since chunks are not split. */
  lemma InboundScenario()
    ensures ToggleCount([Chunk(Some("1"), false), Chunk(Some("0"), false), Chunk(Some("1"), false)]) == 2
    ensures ToggleCount([Chunk(Some("1\n"), false)]) == 0
  {
  }
}
