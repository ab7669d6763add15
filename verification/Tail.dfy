/** The bounded tail of the prober's output. */
module Tail {
  // Complete lines and an unfinished one, within a number of lines and of bytes.

  newtype byte = x: int | 0 <= x < 256

  const TAIL_BYTES: nat := 64 * 1024
  const NEWLINE: byte := 10

  function Flat(lines: seq<seq<byte>>): seq<byte> {
    if |lines| == 0 then [] else Flat(lines[..|lines| - 1]) + lines[|lines| - 1] + [NEWLINE]
  }

  predicate OneLine(s: seq<byte>) { NEWLINE !in s }

  predicate OnlyLines(lines: seq<seq<byte>>) { forall i | 0 <= i < |lines| :: OneLine(lines[i]) }

  predicate IsSuffix(s: seq<byte>, t: seq<byte>) { |s| <= |t| && t[|t| - |s|..] == s }

  function LastBytes(s: seq<byte>, n: nat): seq<byte> { if |s| <= n then s else s[|s| - n..] }

  /** The place of the first newline, or the length without one. */
  function FirstNewline(s: seq<byte>): (i: nat)
    ensures i <= |s|
  {
    if |s| == 0 || s[0] == NEWLINE then 0 else 1 + FirstNewline(s[1..])
  }

  lemma {:induction false} NewlineAt(s: seq<byte>)
    ensures var i := FirstNewline(s); OneLine(s[..i]) && (i < |s| ==> s[i] == NEWLINE)
  {
    if |s| > 0 && s[0] != NEWLINE {
      NewlineAt(s[1..]);
      var i := FirstNewline(s[1..]);
      assert s[..1 + i] == [s[0]] + s[1..][..i];
    }
  }

  /** The complete lines of a text, and what follows the last of them. */
  function AllLines(t: seq<byte>): seq<seq<byte>> {
    var i := FirstNewline(t);
    if i == |t| then [] else [t[..i]] + AllLines(t[i + 1..])
  }

  function Unfinished(t: seq<byte>): seq<byte> {
    var i := FirstNewline(t);
    if i == |t| then t else Unfinished(t[i + 1..])
  }

  lemma {:induction false} FlatFirst(line: seq<byte>, lines: seq<seq<byte>>)
    ensures Flat([line] + lines) == line + [NEWLINE] + Flat(lines)
  {
    if |lines| > 0 {
      var n := |lines| - 1;
      FlatFirst(line, lines[..n]);
      assert ([line] + lines)[..n + 1] == [line] + lines[..n];
      assert line + [NEWLINE] + Flat(lines[..n]) + lines[n] + [NEWLINE] == line + [NEWLINE] + Flat(lines);
    } else {
      assert [line] + lines == [line];
      assert Flat([line][..0]) == [];
    }
  }

  /** The lines and the rest are the text. */
  lemma {:induction false} Splits(t: seq<byte>)
    ensures Flat(AllLines(t)) + Unfinished(t) == t
    ensures OnlyLines(AllLines(t)) && OneLine(Unfinished(t))
    decreases |t|
  {
    var i := FirstNewline(t);
    CutIs(t);
    NewlineAt(t);
    hide *;
    if i < |t| {
      var rest := t[i + 1..];
      Splits(rest);
      FlatFirst(t[..i], AllLines(rest));
      Rejoin(t, i, Flat(AllLines(rest)), Unfinished(rest));
      LinesFirst(t[..i], AllLines(rest));
    } else {
      assert t[..i] == t;
      NoLines();
      assert [] + t == t;
    }
  }

  lemma Rejoin(t: seq<byte>, i: nat, a: seq<byte>, b: seq<byte>)
    requires i < |t| && t[i] == NEWLINE && a + b == t[i + 1..]
    ensures t[..i] + [NEWLINE] + a + b == t
  {
    assert t == t[..i] + [t[i]] + t[i + 1..];
    assert t[..i] + [NEWLINE] + a + b == t[..i] + [NEWLINE] + (a + b);
  }

  lemma LinesFirst(line: seq<byte>, lines: seq<seq<byte>>)
    requires OneLine(line) && OnlyLines(lines)
    ensures OnlyLines([line] + lines)
  {}

  lemma FirstNewlineIs(s: seq<byte>, i: nat)
    requires i < |s| && OneLine(s[..i]) && s[i] == NEWLINE
    ensures FirstNewline(s) == i
  {
    NewlineAt(s);
    var j := FirstNewline(s);
    hide FirstNewline;
    OneLineAt(s, i, j);
    OneLineAt(s, j, i);
  }

  lemma OneLineAt(s: seq<byte>, i: nat, j: nat)
    ensures j < i <= |s| && OneLine(s[..i]) ==> s[j] != NEWLINE
  {
    if j < i <= |s| { assert s[..i][j] in s[..i]; }
  }

  /** A text that begins with complete lines splits into them and its rest. */
  lemma {:induction false} LinesThen(lines: seq<seq<byte>>, rest: seq<byte>)
    requires OnlyLines(lines)
    ensures AllLines(Flat(lines) + rest) == lines + AllLines(rest)
    ensures Unfinished(Flat(lines) + rest) == Unfinished(rest)
    decreases |lines|
  {
    if |lines| == 0 {
      assert Flat(lines) + rest == rest;
      assert lines + AllLines(rest) == AllLines(rest);
    } else {
      var first, others := lines[0], lines[1..];
      assert lines == [first] + others;
      FlatFirst(first, others);
      var t := Flat(lines) + rest;
      assert t == first + [NEWLINE] + (Flat(others) + rest);
      assert t[..|first|] == first && t[|first| + 1..] == Flat(others) + rest;
      FirstNewlineIs(t, |first|);
      LinesThen(others, rest);
      assert [first] + (others + AllLines(rest)) == lines + AllLines(rest);
    }
  }

  lemma {:induction false} FlatSplit(lines: seq<seq<byte>>, k: nat)
    requires k <= |lines|
    ensures Flat(lines) == Flat(lines[..k]) + Flat(lines[k..])
    ensures |Flat(lines[..k])| >= k
  {
    var n := |lines|;
    if k < n {
      FlatSplit(lines[..n - 1], k);
      assert lines[..n - 1][..k] == lines[..k];
      assert lines[..n - 1][k..] == lines[k..][..n - 1 - k];
    } else {
      assert lines[..k] == lines && Flat(lines[k..]) == [];
      FlatLength(lines);
    }
  }

  lemma {:induction false} FlatLength(lines: seq<seq<byte>>)
    ensures |Flat(lines)| >= |lines|
  {
    if |lines| > 0 { FlatLength(lines[..|lines| - 1]); }
  }

  /** What a write starts from: the old contents and the new bytes, or the last
      bytes when the unfinished line would outgrow the limit. */
  function Text(lines: seq<seq<byte>>, part: seq<byte>, p: seq<byte>): seq<byte> {
    if |p| > TAIL_BYTES then LastBytes(p, TAIL_BYTES)
    else if |part + p| > TAIL_BYTES then LastBytes(part + p, TAIL_BYTES)
    else Flat(lines) + (part + p)
  }

  /** As many of the last lines of a text as the limits allow. */
  ghost predicate LastThatFit(lines: seq<seq<byte>>, text: seq<byte>, max: nat) {
    var all := AllLines(text);
    && |lines| <= |all| && lines == all[|all| - |lines|..]
    && |lines| <= max && |Flat(lines)| + |Unfinished(text)| <= TAIL_BYTES
    && (|lines| < |all| && |lines| < max ==> |Flat(all[|all| - |lines| - 1..])| + |Unfinished(text)| > TAIL_BYTES)
  }

  function LastLines(lines: seq<seq<byte>>, n: nat): seq<seq<byte>> {
    if |lines| <= n then lines else lines[|lines| - n..]
  }

  // ---------------------------------------------------------------- the loops of Write

  /** The loop that cuts complete lines off the unfinished part. */
  method CutLines(before: seq<seq<byte>>, whole: seq<byte>, max: nat) returns (lines: seq<seq<byte>>, part: seq<byte>)
    requires |before| <= max
    ensures part == Unfinished(whole) && lines == LastLines(before + AllLines(whole), max)
  {
    hide AllLines, Unfinished;
    lines, part := before, whole;
    ghost var done: seq<seq<byte>> := [];
    assert before + done == before;
    while true
      invariant done + AllLines(part) == AllLines(whole) && Unfinished(part) == Unfinished(whole)
      invariant lines == LastLines(before + done, max)
      decreases |part|
    {
      var i := FirstNewline(part);
      CutIs(part);
      if i == |part| {
        assert done + [] == done;
        break;
      }
      LastNext(before + done, part[..i], max);
      assert before + (done + [part[..i]]) == before + done + [part[..i]];
      assert done + [part[..i]] + AllLines(part[i + 1..]) == done + AllLines(part);
      done := done + [part[..i]];
      lines := lines + [part[..i]];
      part := part[i + 1..];
      if |lines| > max {
        lines := lines[|lines| - max..];
      }
    }
  }

  lemma CutIs(part: seq<byte>)
    ensures var i := FirstNewline(part);
            if i == |part| then AllLines(part) == [] && Unfinished(part) == part
            else
              && AllLines(part) == [part[..i]] + AllLines(part[i + 1..])
              && Unfinished(part) == Unfinished(part[i + 1..])
  {
    hide FirstNewline, AllLines, Unfinished;
    CutLine(part);
    CutRest(part);
  }

  lemma CutLine(part: seq<byte>)
    ensures var i := FirstNewline(part);
            AllLines(part) == if i == |part| then [] else [part[..i]] + AllLines(part[i + 1..])
  {
    hide FirstNewline;
  }

  lemma CutRest(part: seq<byte>)
    ensures var i := FirstNewline(part); Unfinished(part) == if i == |part| then part else Unfinished(part[i + 1..])
  {
    hide FirstNewline;
  }

  lemma LastNext(lines: seq<seq<byte>>, line: seq<byte>, n: nat)
    ensures LastLines(lines + [line], n) ==
              var more := LastLines(lines, n) + [line];
              if |more| > n then more[|more| - n..] else more
  {}

  /** The loop that counts back how many last lines fit beside the unfinished one. */
  method FitLines(lines: seq<seq<byte>>, part: seq<byte>) returns (kept: seq<seq<byte>>, ghost keep: nat)
    requires |part| <= TAIL_BYTES
    ensures keep <= |lines| && kept == lines[keep..] && |Flat(kept)| + |part| <= TAIL_BYTES
    ensures keep > 0 ==> |Flat(lines[keep - 1..])| + |part| > TAIL_BYTES
  {
    var size, k := |part|, |lines|;
    var i := |lines| - 1;
    assert lines[|lines|..] == [];
    while i >= 0
      invariant -1 <= i < |lines| && k == i + 1
      invariant size == |Flat(lines[k..])| + |part| <= TAIL_BYTES
    {
      FlatBack(lines, i);
      size := size + |lines[i]| + 1;
      if size > TAIL_BYTES { break; }
      k := i;
      i := i - 1;
    }
    keep := k;
    kept := lines[k..];
  }

  lemma FlatBack(lines: seq<seq<byte>>, i: nat)
    requires i < |lines|
    ensures |Flat(lines[i..])| == |Flat(lines[i + 1..])| + |lines[i]| + 1
  {
    assert lines[i..] == [lines[i]] + lines[i + 1..];
    FlatFirst(lines[i], lines[i + 1..]);
  }

  // ---------------------------------------------------------------- what they come to

  /** Whether the unfinished line is cut while old lines stand before it. */
  predicate Cuts(part: seq<byte>, p: seq<byte>) { |p| <= TAIL_BYTES && |part + p| > TAIL_BYTES }

  function LinesBefore(lines: seq<seq<byte>>, p: seq<byte>): seq<seq<byte>> {
    if |p| > TAIL_BYTES then [] else lines
  }

  function PartWith(part: seq<byte>, p: seq<byte>): seq<byte> {
    if |p| > TAIL_BYTES then LastBytes(p, TAIL_BYTES) else LastBytes(part + p, TAIL_BYTES)
  }

  /** Either the lines before and the part are the text, or the part alone is,
      and it fills the limit. */
  lemma TextIs(lines: seq<seq<byte>>, part: seq<byte>, p: seq<byte>)
    ensures var before, whole := LinesBefore(lines, p), PartWith(part, p);
            && |whole| <= TAIL_BYTES
            && if Cuts(part, p) then Text(lines, part, p) == whole && |whole| == TAIL_BYTES
               else Text(lines, part, p) == Flat(before) + whole
  {
    assert Flat([]) + LastBytes(p, TAIL_BYTES) == LastBytes(p, TAIL_BYTES);
  }

  /** Old lines before a cut unfinished line never fit: the limit is used up. */
  lemma FittedIs(before: seq<seq<byte>>, whole: seq<byte>, cut: bool, text: seq<byte>, max: nat,
                 kept: seq<seq<byte>>, keep: nat)
    requires OnlyLines(before)
    requires if cut then text == whole && |whole| == TAIL_BYTES else text == Flat(before) + whole
    requires var lines := LastLines(before + AllLines(whole), max);
             && keep <= |lines| && kept == lines[keep..] && |Flat(kept)| + |Unfinished(whole)| <= TAIL_BYTES
             && (keep > 0 ==> |Flat(lines[keep - 1..])| + |Unfinished(whole)| > TAIL_BYTES)
    ensures LastThatFit(kept, text, max) && Unfinished(whole) == Unfinished(text)
  {
    hide *;
    var all, joined := AllLines(text), before + AllLines(whole);
    var lines := LastLines(joined, max);
    if cut {
      FitsIn(before, all, lines, kept, keep, max);
      if |kept| > |all| { StaleIsTooMuch(kept, all, text, |kept| - |all|); }
    } else {
      LinesThen(before, whole);
      assert joined == [] + all;
      FitsIn([], all, lines, kept, keep, max);
    }
    FitIs(kept, text, max, all);
  }

  lemma FitIs(kept: seq<seq<byte>>, text: seq<byte>, max: nat, all: seq<seq<byte>>)
    requires all == AllLines(text) && |kept| <= |all| && kept == all[|all| - |kept|..] && |kept| <= max
    requires |Flat(kept)| + |Unfinished(text)| <= TAIL_BYTES
    requires |kept| < |all| && |kept| < max ==> |Flat(all[|all| - |kept| - 1..])| + |Unfinished(text)| > TAIL_BYTES
    ensures LastThatFit(kept, text, max)
  {
    hide AllLines, Unfinished, Flat;
  }

  lemma StaleIsTooMuch(kept: seq<seq<byte>>, all: seq<seq<byte>>, text: seq<byte>, d: nat)
    requires all == AllLines(text) && |text| == TAIL_BYTES && 0 < d <= |kept| && kept[d..] == all
    ensures |Flat(kept)| + |Unfinished(text)| > TAIL_BYTES
  {
    Splits(text);
    FlatSplit(kept, d);
  }

  lemma FitsIn(before: seq<seq<byte>>, all: seq<seq<byte>>, lines: seq<seq<byte>>, kept: seq<seq<byte>>, keep: nat,
               max: nat)
    requires lines == LastLines(before + all, max) && keep <= |lines| && kept == lines[keep..]
    ensures |kept| > |all| ==> kept[|kept| - |all|..] == all
    ensures |kept| <= |all| ==> kept == all[|all| - |kept|..]
    ensures |kept| <= max && (|before| == 0 ==> |kept| <= |all|)
    ensures |kept| < |all| && |kept| < max ==> keep > 0 && lines[keep - 1..] == all[|all| - |kept| - 1..]
  {}

  /** What fits of a text is the end of it. */
  lemma FitIsSuffix(kept: seq<seq<byte>>, text: seq<byte>, max: nat)
    requires LastThatFit(kept, text, max)
    ensures IsSuffix(Flat(kept) + Unfinished(text), text)
    ensures OnlyLines(kept) && OneLine(Unfinished(text))
  {
    hide AllLines, Unfinished, Flat, OneLine;
    var all := AllLines(text);
    Splits(text);
    FlatSplit(all, |all| - |kept|);
    var front, back := Flat(all[..|all| - |kept|]), Flat(kept) + Unfinished(text);
    assert text == front + back;
  }

  lemma SuffixTwice(a: seq<byte>, b: seq<byte>, c: seq<byte>)
    requires IsSuffix(a, b) && IsSuffix(b, c)
    ensures IsSuffix(a, c)
  {
    assert c[|c| - |b|..][|b| - |a|..] == c[|c| - |a|..];
  }

  lemma TextIsSuffix(lines: seq<seq<byte>>, part: seq<byte>, p: seq<byte>, written: seq<byte>)
    requires IsSuffix(Flat(lines) + part, written)
    ensures IsSuffix(Text(lines, part, p), written + p)
    ensures Cuts(part, p) ==> IsSuffix(Text(lines, part, p), part + p)
    ensures |p| > TAIL_BYTES ==> IsSuffix(Text(lines, part, p), p)
  {
    var c := Flat(lines) + part;
    SuffixAppend(c, written, p);
    LastIsSuffix(p);
    LastIsSuffix(part + p);
    hide Flat, IsSuffix, LastBytes;
    assert Flat(lines) + (part + p) == c + p;
    PartIsSuffix(lines, part, p);
    if |p| > TAIL_BYTES {
      SuffixAfter(Text(lines, part, p), written, p);
    } else if |part + p| > TAIL_BYTES {
      SuffixTwice(Text(lines, part, p), part + p, c + p);
      SuffixTwice(Text(lines, part, p), c + p, written + p);
    }
  }

  lemma SuffixAppend(a: seq<byte>, b: seq<byte>, p: seq<byte>)
    requires IsSuffix(a, b)
    ensures IsSuffix(a + p, b + p)
  {
    assert b == b[..|b| - |a|] + a;
    assert b + p == b[..|b| - |a|] + (a + p);
  }

  lemma SuffixAfter(a: seq<byte>, b: seq<byte>, p: seq<byte>)
    requires IsSuffix(a, p)
    ensures IsSuffix(a, b + p)
  {
    assert (b + p)[|b + p| - |a|..] == p[|p| - |a|..];
  }

  lemma LastIsSuffix(s: seq<byte>)
    ensures IsSuffix(LastBytes(s, TAIL_BYTES), s)
  {}

  lemma PartIsSuffix(lines: seq<seq<byte>>, part: seq<byte>, p: seq<byte>)
    ensures IsSuffix(part + p, Flat(lines) + part + p)
  {
    hide Flat;
    assert Flat(lines) + part + p == Flat(lines) + (part + p);
  }

  // ---------------------------------------------------------------- the object

  class Output {
    const max: nat
    var lines: seq<seq<byte>>
    var part: seq<byte>
    ghost var written: seq<byte>   // everything written so far

    function Contents(): seq<byte>
      reads this
    {
      Flat(lines) + part
    }

    ghost predicate Valid()
      reads this
    {
      && OnlyLines(lines) && OneLine(part) && |lines| <= max
      && |Contents()| <= TAIL_BYTES && IsSuffix(Contents(), written)
    }

    constructor (max: nat)
      ensures Valid() && this.max == max && written == [] && Contents() == []
    {
      this.max, lines, part, written := max, [], [], [];
    }

    /** Write keeps, of what is kept already and what is written now, as many
        last lines as fit. Where the unfinished line outgrows the limit, nothing
        that stood before it survives. */
    method Write(p: seq<byte>) returns (n: nat)
      requires Valid()
      modifies this
      ensures Valid() && n == |p| && written == old(written) + p
      ensures LastThatFit(lines, Text(old(lines), old(part), p), max)
              && part == Unfinished(Text(old(lines), old(part), p))
      ensures |old(part) + p| > TAIL_BYTES ==> IsSuffix(Contents(), old(part) + p)
    {
      hide AllLines, Unfinished, Flat, OnlyLines, OneLine, Text, LastThatFit, IsSuffix;
      n := |p|;
      ghost var text := Text(lines, part, p);
      ghost var cut := Cuts(part, p);
      TextIs(lines, part, p);
      TextIsSuffix(lines, part, p, written);
      BigIsSuffix(text, part, p);
      written := written + p;
      var q := p;
      if |q| > TAIL_BYTES {
        q := q[|q| - TAIL_BYTES..];
        lines, part := [], [];
      }
      part := part + q;
      if |part| > TAIL_BYTES {
        part := part[|part| - TAIL_BYTES..];
      }
      ghost var before, whole := lines, part;
      assert before == LinesBefore(old(lines), p) && whole == PartWith(old(part), p);
      assert OnlyLines(before) by { NoLines(); }
      lines, part := CutLines(lines, part, max);
      UnfinishedFits(whole);
      ghost var keep;
      lines, keep := FitLines(lines, part);
      FittedIs(before, whole, cut, text, max, lines, keep);
      FitIsSuffix(lines, text, max);
      SuffixTwice(Flat(lines) + part, text, written);
      if |old(part) + p| > TAIL_BYTES { SuffixTwice(Flat(lines) + part, text, old(part) + p); }
    }

    /** String: the kept lines and any unfinished one, joined by newlines. */
    method String() returns (s: seq<byte>)
      requires Valid()
      ensures if part == [] && lines != [] then s + [NEWLINE] == Contents() else s == Contents()
      ensures |s| <= TAIL_BYTES
    {
      hide OnlyLines, OneLine, IsSuffix;
      var all := lines;
      if |part| > 0 {
        all := all + [part];
        JoinIs(lines, part);
      } else if |lines| > 0 {
        JoinIs(lines[..|lines| - 1], lines[|lines| - 1]);
        assert lines == lines[..|lines| - 1] + [lines[|lines| - 1]];
      }
      s := Join(all);
    }
  }

  /** strings.Join with a newline. */
  function Join(lines: seq<seq<byte>>): seq<byte> {
    if |lines| == 0 then []
    else if |lines| == 1 then lines[0]
    else Join(lines[..|lines| - 1]) + [NEWLINE] + lines[|lines| - 1]
  }

  lemma {:induction false} JoinIs(lines: seq<seq<byte>>, last: seq<byte>)
    ensures Join(lines + [last]) == Flat(lines) + last
  {
    var all := lines + [last];
    assert all[..|lines|] == lines;
    if |lines| > 0 {
      var n := |lines| - 1;
      JoinIs(lines[..n], lines[n]);
      assert lines == lines[..n] + [lines[n]];
    }
  }

  lemma NoLines()
    ensures OnlyLines([]) && Flat([]) == []
  {}

  lemma UnfinishedFits(t: seq<byte>)
    ensures |Unfinished(t)| <= |t|
  {
    Splits(t);
    assert |Flat(AllLines(t)) + Unfinished(t)| == |t|;
  }

  lemma BigIsSuffix(text: seq<byte>, part: seq<byte>, p: seq<byte>)
    ensures |p| > TAIL_BYTES && IsSuffix(text, p) ==> IsSuffix(text, part + p)
  {
    if |p| > TAIL_BYTES && IsSuffix(text, p) { SuffixAfter(text, part, p); }
  }
}
