// Request framing: a request is everything up to and including the first blank
// line of the byte stream. Strings stand for byte strings, one char per byte.
module Framing {

  // Concatenation of a list of byte strings.
  ghost function Concat(parts: seq<string>): string {
    if parts == [] then "" else Concat(parts[..|parts| - 1]) + parts[|parts| - 1]
  }

  predicate TerminatorAt(s: string, i: int) {
    0 <= i && i + 4 <= |s| && s[i] == '\r' && s[i + 1] == '\n' && s[i + 2] == '\r' && s[i + 3] == '\n'
  }

  ghost predicate HasComplete(s: string) {
    exists i :: TerminatorAt(s, i)
  }

  // Position just behind the first terminator at or after index `from`, or 0 when there is none.
  function FrameEndFrom(s: string, from: nat): (end: nat)
    requires from <= |s|
    ensures end == 0 <==> forall i :: from <= i ==> !TerminatorAt(s, i)
    ensures end > 0 ==> from + 4 <= end <= |s| && TerminatorAt(s, end - 4)
    ensures forall i :: from <= i < end - 4 ==> !TerminatorAt(s, i)
    decreases |s| - from
  {
    if TerminatorAt(s, from) then from + 4
    else if from == |s| then 0
    else FrameEndFrom(s, from + 1)
  }

  function FrameEnd(s: string): (end: nat)
    ensures end > 0 <==> HasComplete(s)
    ensures end > 0 ==> 4 <= end <= |s| && TerminatorAt(s, end - 4)
    ensures forall i :: i < end - 4 ==> !TerminatorAt(s, i)
  {
    FrameEndFrom(s, 0)
  }

  // A frame holds exactly one terminator, and it is the end of the frame.
  predicate IsFrame(f: string) {
    FrameEnd(f) == |f| && |f| > 0
  }

  // Reference meaning of a received stream: cut it behind each first terminator.
  ghost function Split(s: string): (frames: seq<string>)
    decreases |s|
  {
    if !HasComplete(s) then [] else [s[..FrameEnd(s)]] + Split(s[FrameEnd(s)..])
  }

  lemma FirstFrame(f: string, rest: string)
    requires IsFrame(f)
    ensures FrameEnd(f + rest) == |f| && HasComplete(f + rest)
  {
    assert TerminatorAt(f + rest, |f| - 4);
    var end := FrameEnd(f + rest);
    if end < |f| {
      assert TerminatorAt(f, end - 4);
    }
  }

  lemma CutIsFrame(s: string)
    requires HasComplete(s)
    ensures IsFrame(s[..FrameEnd(s)])
  {
    var f := s[..FrameEnd(s)];
    assert TerminatorAt(f, |f| - 4);
    forall i | i < |f| - 4 ensures !TerminatorAt(f, i) {
      assert TerminatorAt(f, i) ==> TerminatorAt(s, i);
    }
  }

  lemma {:induction false} ConcatFront(f: string, rest: seq<string>)
    ensures Concat([f] + rest) == f + Concat(rest)
  {
    if rest == [] {
      assert [f] + rest == [f];
      assert [f][..0] == [];
    } else {
      var all := [f] + rest;
      assert all[..|all| - 1] == [f] + rest[..|rest| - 1];
      ConcatFront(f, rest[..|rest| - 1]);
    }
  }

  lemma SplitFront(f: string, rest: string)
    requires IsFrame(f)
    ensures Split(f + rest) == [f] + Split(rest)
  {
    FirstFrame(f, rest);
    assert (f + rest)[..|f|] == f && (f + rest)[|f|..] == rest;
  }

  // Frames taken from the front of a stream are the front of its reference split.
  lemma {:induction false} SplitAfterFrames(frames: seq<string>, rest: string)
    requires forall f <- frames :: IsFrame(f)
    ensures Split(Concat(frames) + rest) == frames + Split(rest)
    decreases |frames|
  {
    hide Split, IsFrame;
    if frames == [] {
      assert Concat(frames) + rest == rest;
    } else {
      var f, tail := frames[0], frames[1..];
      assert frames == [f] + tail;
      assert Concat(frames) + rest == f + (Concat(tail) + rest) by { ConcatFront(f, tail); }
      SplitFront(f, Concat(tail) + rest);
      SplitAfterFrames(tail, rest);
    }
  }

  // The reference split is the only way to write a stream as frames followed by
  // a remainder without a terminator.
  lemma SplitIsUnique(frames: seq<string>, rest: string)
    requires forall f <- frames :: IsFrame(f)
    requires !HasComplete(rest)
    ensures frames == Split(Concat(frames) + rest)
  {
    SplitAfterFrames(frames, rest);
  }

  lemma ConcatOfNone()
    ensures Concat([]) == ""
  {
  }

  lemma {:induction false} SplitCovers(s: string) returns (rest: string)
    ensures Concat(Split(s)) + rest == s && !HasComplete(rest)
    ensures forall f <- Split(s) :: IsFrame(f)
    decreases |s|
  {
    hide IsFrame, FrameEnd, Concat;
    if !HasComplete(s) {
      rest := s;
      assert Concat([]) == "" by { ConcatOfNone(); }
    } else {
      var end := FrameEnd(s);
      CutIsFrame(s);
      rest := SplitCovers(s[end..]);
      ConcatFront(s[..end], Split(s[end..]));
      assert s == s[..end] + s[end..];
    }
  }

  // Bytes that arrive later never change how the earlier ones were framed,
  // even when a terminator straddles two arrivals.
  lemma SplitOfMore(s: string, more: string)
    ensures Split(s) <= Split(s + more)
  {
    hide Split, IsFrame;
    var rest := SplitCovers(s);
    var frames := Split(s);
    assert s + more == Concat(frames) + (rest + more);
    SplitAfterFrames(frames, rest + more);
  }
}
