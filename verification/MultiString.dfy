/**
 Decoding the multi-string block that wildcard expansion fills in: NUL-terminated UTF-16 strings,
 one after the other, up to an empty one. A decoded string is kept as its UTF-16 units, because the
 program's conversion to text (WTF-8) loses nothing; but the cursor advances by the number of runes
 of that text, not by the number of units.
 */
module MultiString {
  import opened Errors

  type Unit = u: nat | u < 0x1_0000

  predicate IsHigh(u: Unit) { 0xD800 <= u < 0xDC00 }
  predicate IsLow(u: Unit) { 0xDC00 <= u < 0xE000 }

  predicate StartsWithPair(s: seq<Unit>) {
    |s| >= 2 && IsHigh(s[0]) && IsLow(s[1])
  }

  predicate StartsWithLone(s: seq<Unit>) {
    s != [] && (IsHigh(s[0]) || IsLow(s[0])) && !StartsWithPair(s)
  }

  /**
   `len([]rune(text))`: a surrogate pair is one code point (section 2.1 of RFC 2781), and a lone
   surrogate becomes three bytes that are no valid UTF-8, each counted as a rune of its own.
   */
  function RuneCount(s: seq<Unit>): nat {
    if s == [] then 0
    else if StartsWithPair(s) then 1 + RuneCount(s[2..])
    else if StartsWithLone(s) then 3 + RuneCount(s[1..])
    else 1 + RuneCount(s[1..])
  }

  function Pairs(s: seq<Unit>): nat {
    if s == [] then 0 else if StartsWithPair(s) then 1 + Pairs(s[2..]) else Pairs(s[1..])
  }

  function LoneSurrogates(s: seq<Unit>): nat {
    if s == [] then 0
    else if StartsWithPair(s) then LoneSurrogates(s[2..])
    else (if StartsWithLone(s) then 1 else 0) + LoneSurrogates(s[1..])
  }

  /** The string that starts at position k; none if no NUL follows within the buffer. */
  function Line(buf: seq<Unit>, k: nat): Option<seq<Unit>>
    requires k <= |buf|
    decreases |buf| - k
  {
    if k == |buf| then None
    else if buf[k] == 0 then Some([])
    else match Line(buf, k + 1)
      case None => None
      case Some(rest) => Some([buf[k]] + rest)
  }

  /** The strings read and the cursor at each read, the final empty one included. */
  datatype Decoded = Decoded(lines: seq<seq<Unit>>, cursors: seq<nat>)

  function Prepend(lines: seq<seq<Unit>>, cursors: seq<nat>, d: Option<Decoded>): Option<Decoded> {
    if d.None? then None else Some(Decoded(lines + d.value.lines, cursors + d.value.cursors))
  }

  /** Decoding from position k on; none if the cursor leaves the buffer or a string is not terminated in it. */
  function Decode(buf: seq<Unit>, k: nat): Option<Decoded>
    decreases |buf| - k
  {
    if k >= |buf| then None
    else match Line(buf, k)
      case None => None
      case Some(line) =>
        if line == [] then Some(Decoded([], [k]))
        else Prepend([line], [k], Decode(buf, k + RuneCount(line) + 1))
  }

  method DecodeMultiString(buf: seq<Unit>) returns (d: Option<Decoded>)
    ensures d == Decode(buf, 0)
  {
    if |buf| == 0 {
      return None;
    }
    var lines: seq<seq<Unit>>, cursors: seq<nat> := [], [];
    var nextLineStart := 0;
    var line := Line(buf, 0);
    PrependLaws([], [], [], [], Decode(buf, 0));
    while line.Some? && line.value != []
      invariant nextLineStart < |buf| && line == Line(buf, nextLineStart)
      invariant Decode(buf, 0) == Prepend(lines, cursors, Decode(buf, nextLineStart))
      decreases |buf| - nextLineStart
    {
      PrependLaws(lines, cursors, [line.value], [nextLineStart],
                  Decode(buf, nextLineStart + RuneCount(line.value) + 1));
      lines, cursors := lines + [line.value], cursors + [nextLineStart];
      nextLineStart := nextLineStart + RuneCount(line.value) + 1;
      if nextLineStart >= |buf| {
        return None;
      }
      line := Line(buf, nextLineStart);
    }
    if line.None? {
      return None;
    }
    assert lines + [] == lines;
    return Some(Decoded(lines, cursors + [nextLineStart]));
  }

  lemma PrependLaws(ls: seq<seq<Unit>>, cs: seq<nat>, ls': seq<seq<Unit>>, cs': seq<nat>, d: Option<Decoded>)
    ensures Prepend(ls, cs, Prepend(ls', cs', d)) == Prepend(ls + ls', cs + cs', d)
    ensures Prepend([], [], d) == d
  {
    if d.Some? {
      assert ls + (ls' + d.value.lines) == ls + ls' + d.value.lines;
      assert cs + (cs' + d.value.cursors) == cs + cs' + d.value.cursors;
      assert [] + d.value.lines == d.value.lines && [] + d.value.cursors == d.value.cursors;
    }
  }

  /** On every buffer the cursor strictly increases and stays in bounds. */
  lemma {:induction false} CursorMovesForward(buf: seq<Unit>, k: nat)
    requires Decode(buf, k).Some?
    ensures var cs := Decode(buf, k).value.cursors;
            && |cs| == |Decode(buf, k).value.lines| + 1 && cs[0] == k
            && (forall i :: 0 <= i < |cs| ==> cs[i] < |buf|)
            && (forall i, j :: 0 <= i < j < |cs| ==> cs[i] < cs[j])
    decreases |buf| - k
  {
    var line := Line(buf, k).value;
    if line != [] {
      CursorMovesForward(buf, k + RuneCount(line) + 1);
    }
  }

  // ----- Round trip

  function Block(list: seq<seq<Unit>>): seq<Unit> {
    if list == [] then [0] else list[0] + [0] + Block(list[1..])
  }

  /** Where the strings of a block start, and where its final empty string stands. */
  function Offsets(list: seq<seq<Unit>>, k: nat): seq<nat> {
    if list == [] then [k] else [k] + Offsets(list[1..], k + |list[0]| + 1)
  }

  predicate Proper(s: seq<Unit>) {
    s != [] && 0 !in s
  }

  /** The cursor step over the string is its length: it has as many runes as units. */
  predicate Aligned(s: seq<Unit>) {
    Pairs(s) == 2 * LoneSurrogates(s)
  }

  lemma {:induction false} RunesVersusUnits(s: seq<Unit>)
    ensures RuneCount(s) + Pairs(s) == |s| + 2 * LoneSurrogates(s)
    ensures RuneCount(s) == |s| <==> Aligned(s)
  {
    if s != [] {
      RunesVersusUnits(if StartsWithPair(s) then s[2..] else s[1..]);
    }
  }

  /** Text without any surrogate is aligned. */
  lemma {:induction false} PlainTextIsAligned(s: seq<Unit>)
    requires forall u :: u in s ==> !IsHigh(u) && !IsLow(u)
    ensures Pairs(s) == 0 && LoneSurrogates(s) == 0 && Aligned(s)
  {
    if s != [] {
      assert s[0] in s;
      assert forall u :: u in s[1..] ==> u in s;
      PlainTextIsAligned(s[1..]);
    }
  }

  lemma {:induction false} LineAt(buf: seq<Unit>, k: nat, s: seq<Unit>)
    requires k + |s| < |buf| && buf[k..k + |s|] == s && 0 !in s && buf[k + |s|] == 0
    ensures Line(buf, k) == Some(s)
    decreases |s|
  {
    if s != [] {
      assert buf[k] == s[0] && s[0] in s;
      assert buf[k + 1..k + 1 + |s[1..]|] == s[1..];
      LineAt(buf, k + 1, s[1..]);
      assert s == [s[0]] + s[1..];
    }
  }

  /** The encoded list stands in the buffer from position k on. */
  ghost predicate BlockAt(buf: seq<Unit>, k: nat, list: seq<seq<Unit>>)
    decreases list
  {
    if list == [] then k < |buf| && buf[k] == 0
    else
      var end := k + |list[0]|;
      end < |buf| && buf[k..end] == list[0] && buf[end] == 0 && BlockAt(buf, end + 1, list[1..])
  }

  lemma {:induction false} EncodedBlockStands(before: seq<Unit>, list: seq<seq<Unit>>, after: seq<Unit>)
    ensures BlockAt(before + Block(list) + after, |before|, list)
    decreases list
  {
    if list != [] {
      var before' := before + list[0] + [0];
      EncodedBlockStands(before', list[1..], after);
      assert before + Block(list) + after == before' + Block(list[1..]) + after;
    }
  }

  /** The first string of a block is read, and the cursor moves on by its runes. */
  lemma FirstOfBlock(buf: seq<Unit>, k: nat, list: seq<seq<Unit>>)
    requires list != [] && BlockAt(buf, k, list) && Proper(list[0])
    ensures Decode(buf, k) == Prepend([list[0]], [k], Decode(buf, k + RuneCount(list[0]) + 1))
    ensures BlockAt(buf, k + |list[0]| + 1, list[1..])
    ensures k + |list[0]| < |buf| && buf[k + |list[0]|] == 0
  {
    LineAt(buf, k, list[0]);
  }

  /** What it takes for a block to come back with its offsets, for its first string and for the others. */
  lemma ComposeBlock(k: nat, list: seq<seq<Unit>>, rest: Option<Decoded>)
    requires list != [] && rest == Some(Decoded(list[1..], Offsets(list[1..], k + |list[0]| + 1)))
    ensures Prepend([list[0]], [k], rest) == Some(Decoded(list, Offsets(list, k)))
  {
    assert [list[0]] + list[1..] == list;
  }

  lemma {:induction false} AlignedBlockDecodes(buf: seq<Unit>, k: nat, list: seq<seq<Unit>>)
    requires BlockAt(buf, k, list) && forall i :: 0 <= i < |list| ==> Proper(list[i]) && Aligned(list[i])
    ensures Decode(buf, k) == Some(Decoded(list, Offsets(list, k)))
    decreases list
  {
    if list == [] {
      assert Line(buf, k) == Some([]);
    } else {
      FirstOfBlock(buf, k, list);
      RunesVersusUnits(list[0]);
      AlignedBlockDecodes(buf, k + |list[0]| + 1, list[1..]);
      ComposeBlock(k, list, Decode(buf, k + |list[0]| + 1));
    }
  }

  lemma NextCursors(buf: seq<Unit>, k: nat, list: seq<seq<Unit>>)
    requires list != [] && BlockAt(buf, k, list) && Proper(list[0]) && Decode(buf, k).Some?
    ensures var next := Decode(buf, k + RuneCount(list[0]) + 1);
            next.Some? && next.value.cursors == Decode(buf, k).value.cursors[1..] &&
            |next.value.cursors| > 0 && next.value.cursors[0] == k + RuneCount(list[0]) + 1
  {
    FirstOfBlock(buf, k, list);
    CursorMovesForward(buf, k + RuneCount(list[0]) + 1);
  }

  lemma NextOffsets(list: seq<seq<Unit>>, k: nat)
    requires list != []
    ensures var next := Offsets(list[1..], k + |list[0]| + 1);
            |Offsets(list, k)| > 0 && Offsets(list, k)[1..] == next && |next| > 0 && next[0] == k + |list[0]| + 1
  {
  }

  lemma OnCourseAtFirst(buf: seq<Unit>, k: nat, list: seq<seq<Unit>>)
    requires list != [] && BlockAt(buf, k, list) && Proper(list[0])
    requires Decode(buf, k).Some? && Decode(buf, k).value.cursors == Offsets(list, k)
    ensures Aligned(list[0]) && BlockAt(buf, k + |list[0]| + 1, list[1..])
    ensures var next := Decode(buf, k + |list[0]| + 1);
            next.Some? && next.value.cursors == Offsets(list[1..], k + |list[0]| + 1)
  {
    NextCursors(buf, k, list);
    NextOffsets(list, k);
    RunesVersusUnits(list[0]);
  }

  lemma {:induction false} OnlyAlignedBlocksStayOnCourse(buf: seq<Unit>, k: nat, list: seq<seq<Unit>>)
    requires BlockAt(buf, k, list) && forall s :: s in list ==> Proper(s)
    requires Decode(buf, k).Some? && Decode(buf, k).value.cursors == Offsets(list, k)
    ensures forall s :: s in list ==> Aligned(s)
    decreases list
  {
    if list != [] {
      var s := list[0];
      assert s in list && forall t :: t in list[1..] ==> t in list;
      OnCourseAtFirst(buf, k, list);
      OnlyAlignedBlocksStayOnCourse(buf, k + |s| + 1, list[1..]);
      assert forall t :: t in list ==> t == s || t in list[1..];
    }
  }

  /**
   Decoding a block, whatever follows it: the cursor visits exactly the starts of the strings if and
   only if every string is aligned, and then the decoded list is the list that was encoded.
   */
  lemma BlockRoundTrip(list: seq<seq<Unit>>, after: seq<Unit>)
    requires forall s :: s in list ==> Proper(s)
    ensures (forall s :: s in list ==> Aligned(s))
       <==> Decode(Block(list) + after, 0).Some? && Decode(Block(list) + after, 0).value.cursors == Offsets(list, 0)
    ensures (forall s :: s in list ==> Aligned(s)) ==>
              Decode(Block(list) + after, 0) == Some(Decoded(list, Offsets(list, 0)))
  {
    var buf := Block(list) + after;
    assert [] + Block(list) + after == buf;
    EncodedBlockStands([], list, after);
    if forall s :: s in list ==> Aligned(s) {
      AlignedBlockDecodes(buf, 0, list);
    } else if Decode(buf, 0).Some? && Decode(buf, 0).value.cursors == Offsets(list, 0) {
      OnlyAlignedBlocksStayOnCourse(buf, 0, list);
    }
  }

  // ----- When the list comes back

  /** How many runes the string is short of its units: the cursor lands that much before the next string. */
  function Short(s: seq<Unit>): int {
    Pairs(s) - 2 * LoneSurrogates(s)
  }

  /** All strings but the last are aligned, and the last one brings the cursor to its NUL or to the final one. */
  predicate Readable(list: seq<seq<Unit>>) {
    if list == [] then true
    else if |list| == 1 then Short(list[0]) == 0 || Short(list[0]) == 1
    else Aligned(list[0]) && Readable(list[1..])
  }

  /** One rune less than units brings the cursor to the string's own NUL, which ends the decoding. */
  lemma ShortEndsBlock(buf: seq<Unit>, k: nat, list: seq<seq<Unit>>)
    requires |list| == 1 && BlockAt(buf, k, list) && Proper(list[0]) && Short(list[0]) == 1
    ensures Decode(buf, k).Some? && Decode(buf, k).value.lines == list
  {
    var s := list[0];
    FirstOfBlock(buf, k, list);
    RunesVersusUnits(s);
    assert Line(buf, k + |s|) == Some([]);
    assert Decode(buf, k + |s|) == Some(Decoded([], [k + |s|]));
  }

  lemma {:induction false} ReadableBlockDecodes(buf: seq<Unit>, k: nat, list: seq<seq<Unit>>)
    requires BlockAt(buf, k, list) && Readable(list) && forall i :: 0 <= i < |list| ==> Proper(list[i])
    ensures Decode(buf, k).Some? && Decode(buf, k).value.lines == list
    decreases list
  {
    if list == [] {
      assert Line(buf, k) == Some([]);
    } else if |list| == 1 && Short(list[0]) == 1 {
      ShortEndsBlock(buf, k, list);
    } else {
      FirstOfBlock(buf, k, list);
      RunesVersusUnits(list[0]);
      ReadableBlockDecodes(buf, k + |list[0]| + 1, list[1..]);
      assert list == [list[0]] + list[1..];
    }
  }

  /** The encoded list comes back, whatever follows its block, if it is readable. */
  lemma ReadableListComesBack(list: seq<seq<Unit>>, after: seq<Unit>)
    requires Readable(list) && forall s :: s in list ==> Proper(s)
    ensures Decode(Block(list) + after, 0).Some? && Decode(Block(list) + after, 0).value.lines == list
  {
    assert [] + Block(list) + after == Block(list) + after;
    EncodedBlockStands([], list, after);
    ReadableBlockDecodes(Block(list) + after, 0, list);
  }

  lemma OneStringBlock(s: seq<Unit>)
    ensures Block([s]) == s + [0, 0]
  {
    assert [s][1..] == [];
    assert Block([]) == [0];
    assert s + [0] + [0] == s + [0, 0];
  }

  /** If the first step leaves the cursor inside the string or behind the block, something else is decoded. */
  lemma OffCourseIsSeen(s: seq<Unit>)
    requires Proper(s) && Short(s) != 0 && Short(s) != 1
    ensures !(Decode(Block([s]), 0).Some? && Decode(Block([s]), 0).value.lines == [s])
  {
    var buf := s + [0, 0];
    OneStringBlock(s);
    LineAt(buf, 0, s);
    RunesVersusUnits(s);
    var next := RuneCount(s) + 1;
    if next < |buf| {
      assert next < |s| && buf[next] == s[next] && s[next] in s;
      var d := Decode(buf, next);
      if d.Some? {
        assert d.value.lines != [];
        assert Decode(buf, 0).value.lines == [s] + d.value.lines;
      }
    }
  }

  /** One string comes back, whatever follows, exactly when it has no or one rune less than units. */
  lemma OneStringComesBackIff(s: seq<Unit>)
    requires Proper(s)
    ensures (forall after :: Decode(Block([s]) + after, 0).Some? && Decode(Block([s]) + after, 0).value.lines == [s])
       <==> Short(s) == 0 || Short(s) == 1
  {
    if Short(s) == 0 || Short(s) == 1 {
      forall after ensures Decode(Block([s]) + after, 0).Some? && Decode(Block([s]) + after, 0).value.lines == [s] {
        ReadableListComesBack([s], after);
      }
    } else {
      OffCourseIsSeen(s);
      assert Block([s]) + [] == Block([s]);
    }
  }

  /** Longer lists may come back by coincidence: here the cursor reads the second string inside the first. */
  lemma CoincidenceComesBack()
    ensures var clef: seq<Unit> := [0xD834, 0xDD1E];
            var list := [clef + clef + clef, clef];
            !Readable(list) && Decode(Block(list), 0).Some? && Decode(Block(list), 0).value.lines == list
  {
    var clef: seq<Unit> := [0xD834, 0xDD1E];
    var three := clef + clef + clef;
    var list := [three, clef];
    var buf := three + [0] + clef + [0, 0];
    assert list[1..] == [clef];
    OneStringBlock(clef);
    assert Block(list) == buf;
    assert three[2..] == clef + clef && (clef + clef)[2..] == clef && clef[2..] == [];
    assert RuneCount(clef) == 1 && RuneCount(clef + clef) == 2 && RuneCount(three) == 3;
    assert Pairs(clef) == 1 && Pairs(clef + clef) == 2 && Pairs(three) == 3;
    assert LoneSurrogates(clef) == 0 && LoneSurrogates(clef + clef) == 0 && LoneSurrogates(three) == 0;
    LineAt(buf, 0, three);
    LineAt(buf, 4, clef);
    assert Line(buf, 6) == Some([]);
    assert Decode(buf, 6) == Some(Decoded([], [6]));
    assert Decode(buf, 4).value.lines == [clef] + [];
    assert Decode(buf, 0).value.lines == [three] + [clef];
  }

  /** The encoded list comes back for text without surrogates, with any trailing contents. */
  lemma PlainBlockRoundTrip(list: seq<seq<Unit>>, after: seq<Unit>)
    requires forall s :: s in list ==> Proper(s) && forall u :: u in s ==> !IsHigh(u) && !IsLow(u)
    ensures Decode(Block(list) + after, 0) == Some(Decoded(list, Offsets(list, 0)))
  {
    forall s | s in list ensures Aligned(s) {
      PlainTextIsAligned(s);
    }
    BlockRoundTrip(list, after);
  }

  /** A single pair misaligns the cursor: the string after U+1D11E is lost. */
  lemma PairLosesNextString()
    ensures Block([[0xD834, 0xDD1E], [0x41]]) == [0xD834, 0xDD1E, 0, 0x41, 0, 0]
    ensures Decode([0xD834, 0xDD1E, 0, 0x41, 0, 0], 0) == Some(Decoded([[0xD834, 0xDD1E]], [0, 2]))
  {
    var a: seq<Unit>, b: seq<Unit> := [0xD834, 0xDD1E], [0x41];
    var list := [a, b];
    assert list[1..] == [b] && [b][1..] == [];
    assert Block([]) == [0];
    assert Block([b]) == [0x41, 0, 0];
    var buf: seq<Unit> := [0xD834, 0xDD1E, 0, 0x41, 0, 0];
    LineAt(buf, 0, a);
    assert a[2..] == [];
    assert RuneCount(a) == 1;
    assert Line(buf, 2) == Some([]);
    assert Decode(buf, 2) == Some(Decoded([], [2]));
    assert Decode(buf, 0) == Prepend([a], [0], Decode(buf, 2));
    assert [a] + [] == [a] && [0] + [2] == [0, 2];
  }
}
