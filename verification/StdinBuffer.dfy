/** The input buffer as the program keeps it: fields that `Process` updates, proved against `StdinSplitter.Feed`. */
module StdinBuffer {

  import opened Common
  import opened StdinSplitter

  /** The candidates of growing length; past the end when none is complete. */
  method FindSequenceEnd(remaining: string) returns (seqEnd: nat)
    requires remaining != ""
    ensures seqEnd == SequenceEnd(remaining, 1)
  {
    seqEnd := 1;
    while seqEnd <= |remaining| && IsCompleteSequence(remaining[..seqEnd]) == Incomplete
      invariant 1 <= seqEnd <= |remaining| + 1
      invariant SequenceEnd(remaining, seqEnd) == SequenceEnd(remaining, 1)
    {
      seqEnd := seqEnd + 1;
    }
  }

  /** `cut` takes one sequence at a time, as `Extract` does. */
  ghost predicate TakesSequences(cut: string -> Cut) {
    && cut("") == Cut([], "")
    && forall s, t {:trigger Probe(s, t)} :: Probe(s, t) && s != "" ==>
         var e := if s[0] == ESC then SequenceEnd(s, 1) else 1;
         if |s| < e then cut(s) == Cut([], s)
         else cut(s) == Cut([s[..e]] + cut(s[e..]).sequences, cut(s[e..]).remainder)
  }

  lemma ExtractTakesSequences()
    ensures TakesSequences(Extract)
  {
  }

  /** What is cut so far, and what cutting from `pos` on will add, make up the whole. */
  ghost predicate CutSoFar(cut: string -> Cut, buffer: string, pos: nat, sequences: seq<string>) {
    && pos <= |buffer|
    && cut(buffer).sequences == sequences + cut(buffer[pos..]).sequences
    && cut(buffer).remainder == cut(buffer[pos..]).remainder
  }

  lemma CutStep(cut: string -> Cut, buffer: string, pos: nat, sequences: seq<string>, e: nat)
    requires TakesSequences(cut) && CutSoFar(cut, buffer, pos, sequences) && pos + e <= |buffer| && 1 <= e
    requires e == if buffer[pos] == ESC then SequenceEnd(buffer[pos..], 1) else 1
    ensures CutSoFar(cut, buffer, pos + e, sequences + [buffer[pos..][..e]])
  {
    var remaining := buffer[pos..];
    assert Probe(remaining, "");
    assert remaining[e..] == buffer[pos + e..];
    var rest := cut(buffer[pos + e..]).sequences;
    assert sequences + ([remaining[..e]] + rest) == (sequences + [remaining[..e]]) + rest;
  }

  /** The loop over the buffer. */
  method CutLoop(ghost cut: string -> Cut, buffer: string) returns (c: Cut)
    requires TakesSequences(cut)
    ensures c == cut(buffer)
  {
    var sequences: seq<string> := [];
    var pos := 0;
    assert buffer[0..] == buffer && [] + cut(buffer).sequences == cut(buffer).sequences;
    while pos < |buffer|
      invariant CutSoFar(cut, buffer, pos, sequences)
    {
      var remaining := buffer[pos..];
      var seqEnd := 1;
      if remaining[0] == ESC {
        seqEnd := FindSequenceEnd(remaining);
        if seqEnd > |remaining| {
          assert Probe(remaining, "");
          assert sequences + [] == sequences;
          return Cut(sequences, remaining);
        }
      }
      CutStep(cut, buffer, pos, sequences, seqEnd);
      sequences := sequences + [remaining[..seqEnd]];
      pos := pos + seqEnd;
    }
    assert buffer[pos..] == "" && sequences + [] == sequences;
    c := Cut(sequences, "");
  }

  method ExtractCompleteSequences(buffer: string) returns (c: Cut)
    ensures c == Extract(buffer)
  {
    ExtractTakesSequences();
    c := CutLoop(Extract, buffer);
  }

  class StdinBuffer {
    /** How a buffer is cut: `ExtractCompleteSequences` computes it. */
    const cut: string -> Cut
    var buffer: string
    var pasteMode: bool
    var pasteBuffer: string
    var pendingKittyPrintableCodepoint: Pending
    var emitted: seq<Event>  // what the listeners have received

    ghost function Abstract(): State
      reads this
    {
      State(buffer, pasteMode, pasteBuffer, pendingKittyPrintableCodepoint)
    }

    constructor ()
      ensures cut == Extract
      ensures Abstract() == IDLE && emitted == [] && Settled(Extract, Abstract())
    {
      cut := Extract;
      buffer, pasteMode, pasteBuffer := "", false, "";
      pendingKittyPrintableCodepoint := None;
      emitted := [];
      new;
      assert Extract("") == Cut([], "");
    }

    method EmitDataSequence(sequence: string)
      modifies this`pendingKittyPrintableCodepoint, this`emitted
      ensures var e := EmitOne(old(pendingKittyPrintableCodepoint), sequence);
              pendingKittyPrintableCodepoint == e.pending && emitted == old(emitted) + e.events
    {
      if |sequence| == 1 && pendingKittyPrintableCodepoint == Some(sequence[0] as nat) {
        pendingKittyPrintableCodepoint := None;
        return;
      }
      pendingKittyPrintableCodepoint := KittyPrintable(sequence);
      emitted := emitted + [Data(sequence)];
    }

    method EmitSequences(sequences: seq<string>)
      modifies this`pendingKittyPrintableCodepoint, this`emitted
      ensures var e := EmitAll(old(pendingKittyPrintableCodepoint), sequences);
              pendingKittyPrintableCodepoint == e.pending && emitted == old(emitted) + e.events
    {
      for i := 0 to |sequences|
        invariant var e := EmitAll(old(pendingKittyPrintableCodepoint), sequences[..i]);
                  pendingKittyPrintableCodepoint == e.pending && emitted == old(emitted) + e.events
      {
        EmitAllAppends(old(pendingKittyPrintableCodepoint), sequences[..i], [sequences[i]]);
        assert sequences[..i + 1] == sequences[..i] + [sequences[i]];
        EmitDataSequence(sequences[i]);
      }
      assert sequences[..|sequences|] == sequences;
    }

    /** One chunk of input: state and events as `Feed` has them. */
    method Process(str: string)
      requires !pasteMode ==> pasteBuffer == ""
      modifies this
      ensures var fed := Feed(cut, old(Abstract()), str);
              Abstract() == fed.state && emitted == old(emitted) + fed.events
      ensures !pasteMode ==> pasteBuffer == ""
      decreases |buffer| + |pasteBuffer| + |str|, 2
    {
      if |str| == 0 && |buffer| == 0 {
        EmitDataSequence("");
        return;
      }
      buffer := buffer + str;
      if pasteMode {
        pasteBuffer := pasteBuffer + buffer;
        buffer := "";
        FinishPaste();
        return;
      }
      ProcessBuffer();
    }

    /** Outside a paste: look for the start of one. */
    method ProcessBuffer()
      requires !pasteMode && pasteBuffer == ""
      modifies this
      ensures var fed := Scan(cut, old(buffer), old(pendingKittyPrintableCodepoint));
              Abstract() == fed.state && emitted == old(emitted) + fed.events
      ensures !pasteMode ==> pasteBuffer == ""
      decreases |buffer|, 1
    {
      var startIndex := IndexOf(buffer, PASTE_START);
      if startIndex != -1 {
        EnterPaste(startIndex);
      } else {
        EmitComplete();
      }
    }

    /** No paste begins in the buffer: emit what is complete and keep the rest. */
    method EmitComplete()
      modifies this`buffer, this`pendingKittyPrintableCodepoint, this`emitted
      ensures var c := cut(old(buffer));
              var e := EmitAll(old(pendingKittyPrintableCodepoint), c.sequences);
              && buffer == c.remainder && pendingKittyPrintableCodepoint == e.pending
              && emitted == old(emitted) + e.events
    {
      var result := cut(buffer);
      buffer := result.remainder;
      EmitSequences(result.sequences);
    }

    /** The buffer holds the start of a paste: emit what precedes it and switch over. */
    method EnterPaste(startIndex: nat)
      requires !pasteMode && startIndex + 6 <= |buffer|
      modifies this
      ensures var before := EmitAll(old(pendingKittyPrintableCodepoint), cut(old(buffer)[..startIndex]).sequences);
              var fed := Absorb(cut, old(buffer)[startIndex + 6..], None).After(before.events);
              Abstract() == fed.state && emitted == old(emitted) + fed.events
      ensures !pasteMode ==> pasteBuffer == ""
      decreases |buffer| - 1, 1
    {
      ghost var before := EmitAll(pendingKittyPrintableCodepoint, cut(buffer[..startIndex]).sequences);
      ghost var fed := Absorb(cut, buffer[startIndex + 6..], None);
      JoinEvents(emitted, before.events, fed.events);
      EmitSequences(cut(buffer[..startIndex]).sequences); // none when the marker comes first
      pendingKittyPrintableCodepoint := None;
      buffer := buffer[startIndex + 6..];
      pasteMode := true;
      pasteBuffer := buffer;
      buffer := "";
      FinishPaste();
    }

    /** Delivers the paste if its end has arrived, and processes what follows it. */
    method FinishPaste()
      requires pasteMode && buffer == ""
      modifies this
      ensures var fed := Absorb(cut, old(pasteBuffer), old(pendingKittyPrintableCodepoint));
              Abstract() == fed.state && emitted == old(emitted) + fed.events
      ensures !pasteMode ==> pasteBuffer == ""
      decreases |pasteBuffer|, 0
    {
      var endIndex := IndexOf(pasteBuffer, PASTE_END);
      AbsorbIs(cut, pasteBuffer, pendingKittyPrintableCodepoint, endIndex);
      if endIndex != -1 {
        var pastedContent := pasteBuffer[..endIndex];
        var remaining := pasteBuffer[endIndex + 6..];
        pasteMode := false;
        pasteBuffer := "";
        pendingKittyPrintableCodepoint := None;
        emitted := emitted + [Paste(pastedContent)];
        if |remaining| > 0 {
          Process(remaining);
        }
      }
    }

    /** The timer gave up on the open sequence: it is handed over as it is. */
    method Flush() returns (sequences: seq<string>)
      modifies this`buffer, this`pendingKittyPrintableCodepoint
      ensures if old(buffer) == ""
              then sequences == [] && Abstract() == old(Abstract())
              else sequences == [old(buffer)] && Abstract() == old(Abstract()).(buffer := "", pending := None)
    {
      if |buffer| == 0 {
        return [];
      }
      sequences := [buffer];
      buffer := "";
      pendingKittyPrintableCodepoint := None;
    }
  }
}
