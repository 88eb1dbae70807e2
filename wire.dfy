/** The outbound text format of the serial link: what `writeToStream` hands to
    the stream writer, and how a line-oriented receiver reads it back. */
module Wire {

  /** A mute value as the poll computes it: the number 0 or 1. */
  type Bit = v: int | 0 <= v <= 1

  /** The text JavaScript gives the number `v` in `line + '\n'`. */
  function NumberText(v: Bit): string
  {
    if v == 1 then "1" else "0"
  }

  /** The writes one `writeToStream(...lines)` call makes, one per line, in argument order. */
  function Framed(lines: seq<string>): (ws: seq<string>)
    ensures |ws| == |lines|
  {
    if lines == [] then [] else [lines[0] + "\n"] + Framed(lines[1..])
  }

  /** The text on the wire after a sequence of writes. */
  function WireText(ws: seq<string>): string
  {
    if ws == [] then "" else ws[0] + WireText(ws[1..])
  }

  /** Index of the first newline in `t`. */
  function FirstNewline(t: string): (k: nat)
    requires '\n' in t
    ensures k < |t| && t[k] == '\n' && '\n' !in t[..k]
  {
    if t[0] == '\n' then 0 else 1 + FirstNewline(t[1..])
  }

  /** How a line-oriented receiver splits the wire text into lines
      (a trailing unterminated piece counts as a line). */
  function SplitLines(t: string): seq<string>
    decreases |t|
  {
    if '\n' !in t then (if t == "" then [] else [t])
    else
      var k := FirstNewline(t);
      [t[..k]] + SplitLines(t[k + 1..])
  }

  predicate NoNewlines(lines: seq<string>)
  {
    forall i :: 0 <= i < |lines| ==> '\n' !in lines[i]
  }

  /** The i-th write is the i-th line followed by one newline. */
  lemma {:induction false} FramedAt(lines: seq<string>, i: nat)
    requires i < |lines|
    ensures Framed(lines)[i] == lines[i] + "\n"
  {
    if i > 0 {
      FramedAt(lines[1..], i - 1);
    }
  }

  lemma FramedAppend(a: seq<string>, b: seq<string>)
    ensures Framed(a + b) == Framed(a) + Framed(b)
  {
    var l, r := Framed(a + b), Framed(a) + Framed(b);
    assert |l| == |r|;
    forall i | 0 <= i < |l| ensures l[i] == r[i] {
      FramedAt(a + b, i);
      if i < |a| {
        FramedAt(a, i);
        assert (a + b)[i] == a[i];
      } else {
        FramedAt(b, i - |a|);
        assert (a + b)[i] == b[i - |a|];
      }
    }
  }

  /** A mute value is written as the single text "0\n" or "1\n". */
  lemma MuteFrame(v: Bit)
    ensures Framed([NumberText(v)]) == [if v == 1 then "1\n" else "0\n"]
  {
    var t := NumberText(v) + "\n";
    var w := if v == 1 then "1\n" else "0\n";
    assert |t| == |w| == 2 && t[0] == w[0] && t[1] == w[1];
    assert t == w;
    assert Framed([NumberText(v)]) == [t];
  }

  /** Each line followed by exactly one newline: the wire holds one newline per line. */
  lemma {:induction false} OneNewlinePerLine(lines: seq<string>)
    requires NoNewlines(lines)
    ensures multiset(WireText(Framed(lines)))['\n'] == |lines|
  {
    if lines != [] {
      assert Framed(lines)[1..] == Framed(lines[1..]);
      OneNewlinePerLine(lines[1..]);
      assert multiset(lines[0])['\n'] == 0;
    }
  }

  lemma FirstNewlineAfter(l: string, r: string)
    requires '\n' !in l
    ensures '\n' in l + "\n" + r && FirstNewline(l + "\n" + r) == |l|
  {
    var t := l + "\n" + r;
    assert t[|l|] == '\n';
  }

  /** Round trip: a receiver splitting the wire text on newlines gets back the lines written. */
  lemma {:induction false} SplitFramed(lines: seq<string>)
    requires NoNewlines(lines)
    ensures SplitLines(WireText(Framed(lines))) == lines
  {
    if lines == [] {
    } else {
      var rest := WireText(Framed(lines[1..]));
      assert Framed(lines)[1..] == Framed(lines[1..]);
      var t := WireText(Framed(lines));
      assert t == lines[0] + "\n" + rest;
      FirstNewlineAfter(lines[0], rest);
      assert t[..|lines[0]|] == lines[0];
      assert t[|lines[0]| + 1..] == rest;
      SplitFramed(lines[1..]);
    }
  }
}
