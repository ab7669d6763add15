/** The splitting of long texts. */
module TextBlocks {
  // Byte by byte without a copy, as the bot does it, and over a copy of the runes, as
  // the sender does it. Bytes are decoded as the language's range loop does: what is
  // not UTF-8 by section 3 of RFC 3629 is one rune U+FFFD for each such byte.

  newtype byte = x: int | 0 <= x < 256

  const MAX_MESSAGE_LENGTH: nat := 4000
  const NEWLINE: int := 10
  const RUNE_ERROR: int := 0xFFFD

  // ---------------------------------------------------------------- decoding

  predicate Continues(t: seq<byte>, i: nat) { i < |t| && 0x80 <= t[i] < 0xC0 }

  /** The second byte of a three- or four-byte rune: no overlong form, no
      surrogate and nothing past U+10FFFF. */
  predicate SecondFits(first: byte, second: byte) {
    && 0x80 <= second < 0xC0
    && (first == 0xE0 ==> 0xA0 <= second) && (first == 0xED ==> second < 0xA0)
    && (first == 0xF0 ==> 0x90 <= second) && (first == 0xF4 ==> second < 0x90)
  }

  /** How many bytes the first rune of t takes, 0 if they are not UTF-8. */
  function Form(t: seq<byte>): nat
    requires |t| > 0
  {
    if t[0] < 0x80 then 1
    else if 0xC2 <= t[0] < 0xE0 then if Continues(t, 1) then 2 else 0
    else if 0xE0 <= t[0] < 0xF0 then if |t| > 1 && SecondFits(t[0], t[1]) && Continues(t, 2) then 3 else 0
    else if 0xF0 <= t[0] < 0xF5 then
      if |t| > 1 && SecondFits(t[0], t[1]) && Continues(t, 2) && Continues(t, 3) then 4 else 0
    else 0
  }

  function Width(t: seq<byte>): (w: nat)
    requires |t| > 0
    ensures 1 <= w <= |t|
  {
    if Form(t) == 0 then 1 else Form(t)
  }

  function FirstRune(t: seq<byte>): int
    requires |t| > 0
  {
    match Form(t)
    case 0 => RUNE_ERROR
    case 1 => t[0] as int
    case 2 => (t[0] as int - 0xC0) * 0x40 + (t[1] as int - 0x80)
    case 3 => (t[0] as int - 0xE0) * 0x1000 + (t[1] as int - 0x80) * 0x40 + (t[2] as int - 0x80)
    case _ =>
      (t[0] as int - 0xF0) * 0x4_0000 + (t[1] as int - 0x80) * 0x1000
      + (t[2] as int - 0x80) * 0x40 + (t[3] as int - 0x80)
  }

  /** The runes of a text, as a conversion to a rune slice gives them. */
  function Runes(t: seq<byte>): seq<int> {
    if |t| == 0 then [] else [FirstRune(t)] + Runes(t[Width(t)..])
  }

  /** Where rune k begins. */
  function Offset(t: seq<byte>, k: nat): (i: nat)
    requires k <= |Runes(t)|
    ensures i <= |t|
  {
    if k == 0 then 0 else Width(t) + Offset(t[Width(t)..], k - 1)
  }

  predicate ValidText(t: seq<byte>) {
    |t| > 0 ==> Form(t) != 0 && ValidText(t[Width(t)..])
  }

  // ---------------------------------------------------------------- encoding

  function EncodeRune(r: int): seq<byte> {
    if 0 <= r < 0x80 then [r as byte]
    else if 0x80 <= r < 0x800 then [(0xC0 + r / 0x40) as byte, (0x80 + r % 0x40) as byte]
    else if 0x800 <= r < 0x1_0000 && !(0xD800 <= r < 0xE000) then
      [(0xE0 + r / 0x1000) as byte, (0x80 + r / 0x40 % 0x40) as byte, (0x80 + r % 0x40) as byte]
    else if 0x1_0000 <= r < 0x11_0000 then
      [(0xF0 + r / 0x4_0000) as byte, (0x80 + r / 0x1000 % 0x40) as byte, (0x80 + r / 0x40 % 0x40) as byte,
       (0x80 + r % 0x40) as byte]
    else [0xEF, 0xBF, 0xBD]
  }

  function Encode(runes: seq<int>): seq<byte> {
    if |runes| == 0 then [] else EncodeRune(runes[0]) + Encode(runes[1..])
  }

  // ---------------------------------------------------------------- the cut of the rune slice

  /** The last newline before rune k, -1 without one. */
  function LastNewline(runes: seq<int>, k: nat): int
    requires k <= |runes|
  {
    if k == 0 then -1 else if runes[k - 1] == NEWLINE then k - 1 else LastNewline(runes, k - 1)
  }

  /** How many runes the next chunk takes. */
  function ChunkSize(runes: seq<int>): (n: nat)
    requires |runes| > 0
    ensures 0 < n <= |runes| && n <= MAX_MESSAGE_LENGTH
  {
    var size := if |runes| > MAX_MESSAGE_LENGTH then MAX_MESSAGE_LENGTH else |runes|;
    LastNewlineBound(runes, size);
    if size < |runes| && LastNewline(runes, size) > size / 2 then LastNewline(runes, size) + 1 else size
  }

  lemma {:induction false} LastNewlineBound(runes: seq<int>, k: nat)
    requires k <= |runes|
    ensures -1 <= LastNewline(runes, k) < k
    ensures LastNewline(runes, k) >= 0 ==> runes[LastNewline(runes, k)] == NEWLINE
  {
    if k > 0 { LastNewlineBound(runes, k - 1); }
  }

  /** A chunk of a text that is too long ends after the last newline of its second
      half, or has as many runes as a message may. */
  lemma ChunkEnds(runes: seq<int>)
    requires |runes| > 0
    ensures var n := ChunkSize(runes);
            && (|runes| <= MAX_MESSAGE_LENGTH ==> n == |runes|)
            && (|runes| > MAX_MESSAGE_LENGTH ==>
                  && (forall i | MAX_MESSAGE_LENGTH / 2 < i < MAX_MESSAGE_LENGTH && runes[i] == NEWLINE :: i < n)
                  && (n == MAX_MESSAGE_LENGTH || (MAX_MESSAGE_LENGTH / 2 < n - 1 && runes[n - 1] == NEWLINE)))
  {
    if |runes| > MAX_MESSAGE_LENGTH {
      LastNewlineBound(runes, MAX_MESSAGE_LENGTH);
      NewlinesUpTo(runes, MAX_MESSAGE_LENGTH);
    }
  }

  lemma {:induction false} NewlinesUpTo(runes: seq<int>, k: nat)
    requires k <= |runes|
    ensures forall i | 0 <= i < k && runes[i] == NEWLINE :: i <= LastNewline(runes, k)
  {
    if k > 0 {
      LastNewlineBound(runes, k - 1);
      NewlinesUpTo(runes, k - 1);
    }
  }

  function Chunks(runes: seq<int>): seq<seq<int>> {
    if |runes| == 0 then [] else [runes[..ChunkSize(runes)]] + Chunks(runes[ChunkSize(runes)..])
  }

  /** lastIndexRune. */
  method LastIndexRune(runes: seq<int>, r: int) returns (idx: int)
    ensures -1 <= idx < |runes| && (idx >= 0 ==> runes[idx] == r)
    ensures forall i | idx < i < |runes| :: runes[i] != r
  {
    idx := |runes| - 1;
    while idx >= 0
      invariant -1 <= idx < |runes| && forall i | idx < i < |runes| :: runes[i] != r
    {
      if runes[idx] == r { return; }
      idx := idx - 1;
    }
  }

  lemma {:induction false} LastIs(runes: seq<int>, k: nat, idx: int)
    requires k <= |runes| && -1 <= idx < k && (idx >= 0 ==> runes[idx] == NEWLINE)
    requires forall i | idx < i < k :: runes[i] != NEWLINE
    ensures LastNewline(runes, k) == idx
  {
    if k > 0 && idx != k - 1 { LastIs(runes, k - 1, idx); }
  }

  /** SendLongPlain: a message that fails to send is the last that is tried, and
      without one all chunks are sent. */
  method SendLongPlain(text: seq<byte>, sends: nat -> bool) returns (tried: seq<seq<byte>>, ok: bool)
    ensures |tried| <= |Chunks(Runes(text))|
    ensures forall i | 0 <= i < |tried| :: tried[i] == Encode(Chunks(Runes(text))[i])
    ensures forall i | 0 <= i < |tried| - 1 :: sends(i)
    ensures ok ==> |tried| == |Chunks(Runes(text))| && forall i | 0 <= i < |tried| :: sends(i)
    ensures !ok ==> |tried| > 0 && !sends(|tried| - 1)
  {
    hide Runes, Encode, LastNewline;
    var runes := Runes(text);
    tried := [];
    ghost var done: seq<seq<int>> := [];
    while |runes| > 0
      invariant done + Chunks(runes) == Chunks(Runes(text)) && |tried| == |done|
      invariant forall i | 0 <= i < |tried| :: tried[i] == Encode(done[i]) && sends(i)
      decreases |runes|
    {
      var chunkSize: nat := |runes|;
      if chunkSize > MAX_MESSAGE_LENGTH {
        chunkSize := MAX_MESSAGE_LENGTH;
      }
      var chunk := Encode(runes[..chunkSize]);
      if chunkSize < |runes| {
        SameLast(runes, chunkSize);
        var idx := LastIndexRune(runes[..chunkSize], NEWLINE);
        LastIs(runes[..chunkSize], chunkSize, idx);
        if idx > chunkSize / 2 {
          chunk := Encode(runes[..idx + 1]);
          chunkSize := idx + 1;
        }
      }
      NextChunk(runes, chunkSize);
      assert done + [runes[..chunkSize]] + Chunks(runes[chunkSize..]) == done + Chunks(runes);
      done := done + [runes[..chunkSize]];
      tried := tried + [chunk];
      if !sends(|tried| - 1) {
        return tried, false;
      }
      runes := runes[chunkSize..];
    }
    NoChunks(runes);
    assert done + [] == done;
    ok := true;
  }

  lemma NoChunks(runes: seq<int>)
    ensures |runes| == 0 ==> Chunks(runes) == []
  {}

  lemma NextChunk(runes: seq<int>, n: nat)
    requires |runes| > 0 && n == ChunkSize(runes)
    ensures Chunks(runes) == [runes[..n]] + Chunks(runes[n..])
  {
    hide ChunkSize;
  }

  lemma {:induction false} SameLast(runes: seq<int>, n: nat)
    requires n <= |runes|
    ensures LastNewline(runes[..n], n) == LastNewline(runes, n)
  {
    SamePrefixLast(runes, n, n);
  }

  lemma {:induction false} SamePrefixLast(runes: seq<int>, n: nat, k: nat)
    requires k <= n <= |runes|
    ensures LastNewline(runes[..n], k) == LastNewline(runes, k)
  {
    if k > 0 { SamePrefixLast(runes, n, k - 1); }
  }

  // ---------------------------------------------------------------- runes and offsets

  lemma {:induction false} OffsetNext(t: seq<byte>, k: nat)
    requires k < |Runes(t)|
    ensures Offset(t, k) < |t|
    ensures Offset(t, k + 1) == Offset(t, k) + Width(t[Offset(t, k)..])
    ensures FirstRune(t[Offset(t, k)..]) == Runes(t)[k]
    decreases k
  {
    var w := Width(t);
    if k == 0 {
      assert t[0..] == t;
      assert Offset(t[w..], 0) == 0;
    } else {
      OffsetNext(t[w..], k - 1);
      assert t[w..][Offset(t[w..], k - 1)..] == t[Offset(t, k)..];
    }
  }

  lemma {:induction false} OffsetEnd(t: seq<byte>, k: nat)
    requires k <= |Runes(t)|
    ensures Offset(t, k) == |t| <==> k == |Runes(t)|
    decreases k
  {
    if k > 0 { OffsetEnd(t[Width(t)..], k - 1); }
  }

  /** Cut where a rune begins, a text falls into its runes before and after. */
  lemma {:induction false} CutRunes(t: seq<byte>, k: nat)
    requires k <= |Runes(t)|
    ensures Runes(t[..Offset(t, k)]) == Runes(t)[..k] && Runes(t[Offset(t, k)..]) == Runes(t)[k..]
    decreases k
  {
    hide *;
    if k > 0 {
      OffsetStep(t, k);
      var w, i := Width(t), Offset(t, k);
      var rest, j := t[w..], Offset(t[w..], k - 1);
      CutRunes(rest, k - 1);
      RunesStep(t);
      FrontDecodes(t, i);
      RunesStep(t[..i]);
      assert t[..i][w..] == rest[..j];
      assert t[i..] == rest[j..];
      PrefixStep(FirstRune(t), Runes(rest), k);
    } else {
      NoOffset(t);
      assert t[0..] == t && Runes(t)[0..] == Runes(t);
    }
  }

  lemma NoOffset(t: seq<byte>)
    ensures Offset(t, 0) == 0 && t[..0] == [] && Runes(t[..0]) == [] == Runes(t)[..0]
  {}

  lemma OffsetStep(t: seq<byte>, k: nat)
    requires 0 < k <= |Runes(t)|
    ensures |t| > 0 && k - 1 <= |Runes(t[Width(t)..])| && Offset(t, k) == Width(t) + Offset(t[Width(t)..], k - 1)
  {
    hide Width, FirstRune;
  }

  lemma PrefixStep(f: int, a: seq<int>, k: nat)
    requires 0 < k <= |a| + 1
    ensures ([f] + a)[..k] == [f] + a[..k - 1] && ([f] + a)[k..] == a[k - 1..]
  {}

  lemma RunesStep(t: seq<byte>)
    requires |t| > 0
    ensures Runes(t) == [FirstRune(t)] + Runes(t[Width(t)..])
  {
    hide FirstRune, Width;
  }

  /** A part of the text that holds its first rune begins with the same rune. */
  lemma FrontDecodes(t: seq<byte>, i: nat)
    requires |t| > 0 && Width(t) <= i <= |t|
    ensures Width(t[..i]) == Width(t) && FirstRune(t[..i]) == FirstRune(t)
    ensures Form(t[..i]) == Form(t)
  {}

  // ---------------------------------------------------------------- the byte scan

  /** notificationBlock: the next block, found without copying the text. */
  method NotificationBlock(text: seq<byte>) returns (block: seq<byte>, rest: seq<byte>)
    ensures block + rest == text
    ensures text == [] ==> block == []
    ensures text != [] ==>
              var n := ChunkSize(Runes(text));
              && n <= |Runes(text)| && block == text[..Offset(text, n)] && rest == text[Offset(text, n)..]
              && Runes(block) == Runes(text)[..n] && Runes(rest) == Runes(text)[n..]
                  && |Runes(block)| <= MAX_MESSAGE_LENGTH
  {
    hide Runes, Offset, Width, FirstRune, ChunkSize;
    ghost var runes := Runes(text);
    var end, count, newline, newlineRune: nat := |text|, 0, 0, 0;
    var i: nat := 0;
    StartOf(text);
    while i < |text|
      invariant count <= |runes| && count <= MAX_MESSAGE_LENGTH && i == Offset(text, count)
      invariant Scanned(text, count, newline, newlineRune)
      invariant end == |text|
      decreases |text| - i
    {
      OffsetEnd(text, count);
      OffsetNext(text, count);
      if count == MAX_MESSAGE_LENGTH {
        end := i;
        break;
      }
      var r := FirstRune(text[i..]);
      ScannedNext(text, count, newline, newlineRune, r);
      if r == NEWLINE {
        newline, newlineRune := i + Width(text[i..]), count;
        NewlineWidth(text[i..]);
        newline := i + 1;
      }
      count := count + 1;
      i := i + Width(text[i..]);
    }
    OffsetEnd(text, count);
    if end < |text| && newlineRune > MAX_MESSAGE_LENGTH / 2 {
      end := newline;
    }
    BlockIs(text, count, newline, newlineRune, end);
    block, rest := text[..end], text[end..];
  }

  /** The scan has passed `count` runes: the last newline among them, if it is
      not the first rune, is newlineRune, and `newline` is right after it. */
  ghost predicate Scanned(text: seq<byte>, count: nat, newline: nat, newlineRune: nat) {
    && count <= |Runes(text)|
    && (newlineRune > 0 ==>
          && newlineRune < count && LastNewline(Runes(text), count) == newlineRune
          && newline == Offset(text, newlineRune + 1))
    && (newlineRune == 0 ==> LastNewline(Runes(text), count) <= 0)
  }

  lemma StartOf(text: seq<byte>)
    ensures Offset(text, 0) == 0 && Scanned(text, 0, 0, 0)
  {}

  lemma ScannedNext(text: seq<byte>, count: nat, newline: nat, newlineRune: nat, r: int)
    requires Scanned(text, count, newline, newlineRune) && count < |Runes(text)|
    requires r == Runes(text)[count]
    ensures r != NEWLINE ==> Scanned(text, count + 1, newline, newlineRune)
    ensures r == NEWLINE ==> Scanned(text, count + 1, Offset(text, count + 1), count)
  {
    hide Runes, Offset;
  }

  lemma NewlineWidth(t: seq<byte>)
    requires |t| > 0
    ensures FirstRune(t) == NEWLINE ==> Width(t) == 1
  {}

  /** Where the scan stops is where the rune slice is cut. */
  lemma BlockIs(text: seq<byte>, count: nat, newline: nat, newlineRune: nat, end: nat)
    requires Scanned(text, count, newline, newlineRune) && count <= MAX_MESSAGE_LENGTH
    requires count < MAX_MESSAGE_LENGTH ==> count == |Runes(text)|
    requires var stop := Offset(text, count);
             end == if stop < |text| && newlineRune > MAX_MESSAGE_LENGTH / 2 then newline else stop
    ensures text == [] ==> end == 0
    ensures text != [] ==>
              var n := ChunkSize(Runes(text));
              && end == Offset(text, n) <= |text|
              && Runes(text[..end]) == Runes(text)[..n] && Runes(text[end..]) == Runes(text)[n..]
  {
    var runes := Runes(text);
    OffsetEnd(text, count);
    if text != [] {
      HasRunes(text);
      hide Runes, Offset;
      var n := ChunkSize(runes);
      LastNewlineBound(runes, count);
      assert end == Offset(text, n);
      CutRunes(text, n);
    }
  }

  lemma HasRunes(text: seq<byte>)
    ensures text != [] <==> |Runes(text)| > 0
  {}

  // ---------------------------------------------------------------- the blocks of a whole text

  /** The texts sendNotification sends: the blocks join to the text, each is cut
      where a rune begins and is no longer than a message, and their runes are the
      chunks of the rune slice; of valid text they are the very messages that
      SendLongPlain sends. An empty text is one empty message. */
  method Blocks(text: seq<byte>) returns (blocks: seq<seq<byte>>)
    ensures Joined(blocks) == text
    ensures text == [] ==> blocks == [[]]
    ensures text != [] ==>
              && |blocks| == |Chunks(Runes(text))|
              && (forall i | 0 <= i < |blocks| ::
                    Runes(blocks[i]) == Chunks(Runes(text))[i] && 0 < |Runes(blocks[i])| <= MAX_MESSAGE_LENGTH)
              && (ValidText(text) ==> forall i | 0 <= i < |blocks| :: blocks[i] == Encode(Chunks(Runes(text))[i]))
  {
    hide *;
    if |text| == 0 {
      OneBlock(text);
      return [text];
    }
    blocks := SplitAll(text);
  }

  lemma OneBlock(text: seq<byte>)
    ensures Joined([text]) == text
  {
    assert [text][..0] == [];
  }

  method SplitAll(text: seq<byte>) returns (blocks: seq<seq<byte>>)
    ensures Joined(blocks) == text
    ensures |blocks| == |Chunks(Runes(text))|
    ensures forall i | 0 <= i < |blocks| ::
              Runes(blocks[i]) == Chunks(Runes(text))[i] && 0 < |Runes(blocks[i])| <= MAX_MESSAGE_LENGTH
    ensures ValidText(text) ==> forall i | 0 <= i < |blocks| :: blocks[i] == Encode(Chunks(Runes(text))[i])
  {
    hide Runes, Encode, ValidText, ChunkSize, Offset;
    blocks := [];
    var rest := text;
    ghost var done: seq<seq<int>> := [];
    assert Joined([]) + text == text;
    while |rest| > 0
      invariant Joined(blocks) + rest == text && |blocks| == |done|
      invariant done + Chunks(Runes(rest)) == Chunks(Runes(text))
      invariant forall i | 0 <= i < |blocks| ::
                  Runes(blocks[i]) == done[i] && 0 < |Runes(blocks[i])| <= MAX_MESSAGE_LENGTH
      invariant ValidText(text) ==> ValidText(rest) && forall i | 0 <= i < |blocks| :: blocks[i] == Encode(done[i])
      decreases |rest|
    {
      var block, next := NotificationBlock(rest);
      HasRunes(rest);
      HasRunes(block);
      var n := ChunkSize(Runes(rest));
      SizeIs(Runes(rest));
      NextChunk(Runes(rest), n);
      if ValidText(rest) {
        ValidCut(rest, n);
        RoundTrip(block);
      }
      assert |block| > 0;
      assert done + [Runes(block)] + Chunks(Runes(next)) == done + Chunks(Runes(rest));
      assert (blocks + [block])[..|blocks|] == blocks;
      assert Joined(blocks) + block + next == Joined(blocks) + rest;
      done := done + [Runes(block)];
      blocks := blocks + [block];
      rest := next;
    }
    HasRunes(rest);
    NoChunks(Runes(rest));
    assert done + [] == done && Joined(blocks) + [] == Joined(blocks);
  }

  function Joined(blocks: seq<seq<byte>>): seq<byte> {
    if |blocks| == 0 then [] else Joined(blocks[..|blocks| - 1]) + blocks[|blocks| - 1]
  }

  lemma SizeIs(runes: seq<int>)
    requires |runes| > 0
    ensures 0 < ChunkSize(runes) <= |runes| && ChunkSize(runes) <= MAX_MESSAGE_LENGTH
  {}

  lemma {:induction false} ValidCut(t: seq<byte>, k: nat)
    requires k <= |Runes(t)| && ValidText(t)
    ensures ValidText(t[..Offset(t, k)]) && ValidText(t[Offset(t, k)..])
    decreases k
  {
    if k > 0 {
      var w, i := Width(t), Offset(t, k);
      var rest, j := t[w..], Offset(t[w..], k - 1);
      assert i == w + j;
      ValidCut(rest, k - 1);
      FrontDecodes(t, i);
      hide Runes, Width, Form;
      assert t[..i][w..] == rest[..j];
      assert t[i..] == rest[j..];
    } else {
      assert t[..0] == [] && t[0..] == t;
    }
  }

  /** Encoding the runes of valid text gives the text back. */
  lemma {:induction false} RoundTrip(t: seq<byte>)
    requires ValidText(t)
    ensures Encode(Runes(t)) == t
    decreases |t|
  {
    hide Form, FirstRune, EncodeRune, Width;
    if |t| > 0 {
      var w := Width(t);
      RoundTrip(t[w..]);
      OneRune(t);
      RunesStep(t);
      hide *;
      EncodeStep(FirstRune(t), Runes(t[w..]));
      assert t[..w] + t[w..] == t;
    }
  }

  lemma EncodeStep(r: int, runes: seq<int>)
    ensures Encode([r] + runes) == EncodeRune(r) + Encode(runes)
  {
    hide EncodeRune;
    assert ([r] + runes)[1..] == runes;
  }

  lemma OneRune(t: seq<byte>)
    requires |t| > 0 && Form(t) != 0
    ensures EncodeRune(FirstRune(t)) == t[..Width(t)]
  {
    match Form(t)
    case 1 =>
    case 2 => TwoBytes(t);
    case 3 => ThreeBytes(t);
    case _ => FourBytes(t);
  }

  lemma TwoBytes(t: seq<byte>)
    requires |t| > 0 && Form(t) == 2
    ensures EncodeRune(FirstRune(t)) == t[..2]
  {
    var r := FirstRune(t);
    assert 0x80 <= r < 0x800 && r / 0x40 == t[0] as int - 0xC0 && r % 0x40 == t[1] as int - 0x80;
  }

  lemma ThreeBytes(t: seq<byte>)
    requires |t| > 0 && Form(t) == 3
    ensures EncodeRune(FirstRune(t)) == t[..3]
  {
    var r, a, b, c := FirstRune(t), t[0] as int - 0xE0, t[1] as int - 0x80, t[2] as int - 0x80;
    assert r / 0x40 == a * 0x40 + b && r % 0x40 == c;
    assert r / 0x1000 == a && r / 0x40 % 0x40 == b;
    assert 0x800 <= r < 0x1_0000 && !(0xD800 <= r < 0xE000);
  }

  lemma FourBytes(t: seq<byte>)
    requires |t| > 0 && Form(t) == 4
    ensures EncodeRune(FirstRune(t)) == t[..4]
  {
    var r, a, b, c, d := FirstRune(t), t[0] as int - 0xF0, t[1] as int - 0x80, t[2] as int - 0x80, t[3] as int - 0x80;
    assert r / 0x40 == a * 0x1000 + b * 0x40 + c && r % 0x40 == d;
    assert r / 0x1000 == a * 0x40 + b && r / 0x40 % 0x40 == c;
    assert r / 0x4_0000 == a && r / 0x1000 % 0x40 == b;
    assert 0x1_0000 <= r < 0x11_0000;
  }

  /** The runes UTF-8 encodes: code points but no surrogates. */
  predicate Scalar(r: int) { 0 <= r < 0x11_0000 && !(0xD800 <= r < 0xE000) }

  /** Encoding runes and decoding the bytes gives the runes back, every one of them. */
  lemma {:induction false} DecodesBack(runes: seq<int>)
    requires forall r | r in runes :: Scalar(r)
    ensures ValidText(Encode(runes)) && Runes(Encode(runes)) == runes
  {
    if |runes| > 0 {
      var t := Encode(runes);
      DecodesBack(runes[1..]);
      EncodedRune(runes[0], Encode(runes[1..]));
      assert t[Width(t)..] == Encode(runes[1..]);
      assert runes == [runes[0]] + runes[1..];
    }
  }

  lemma EncodedRune(r: int, rest: seq<byte>)
    requires Scalar(r)
    ensures var t := EncodeRune(r) + rest;
            Form(t) == Width(t) == |EncodeRune(r)| && FirstRune(t) == r
  {
    if r >= 0x1_0000 {
      LongRune(r, rest);
    } else if r >= 0x800 {
      MiddleRune(r, rest);
    }
  }

  lemma MiddleRune(r: int, rest: seq<byte>)
    requires 0x800 <= r < 0x1_0000 && Scalar(r)
    ensures var t := EncodeRune(r) + rest; Form(t) == 3 && FirstRune(t) == r
  {
    var t, h := EncodeRune(r) + rest, r / 0x40;
    assert h / 0x40 == r / 0x1000 && r == h * 0x40 + r % 0x40 && h == r / 0x1000 * 0x40 + h % 0x40;
    assert t[0] as int == 0xE0 + h / 0x40 && t[1] as int == 0x80 + h % 0x40 && t[2] as int == 0x80 + r % 0x40;
    assert SecondFits(t[0], t[1]);
  }

  lemma LongRune(r: int, rest: seq<byte>)
    requires 0x1_0000 <= r < 0x11_0000
    ensures var t := EncodeRune(r) + rest; Form(t) == 4 && FirstRune(t) == r
  {
    var t, h, g := EncodeRune(r) + rest, r / 0x40, r / 0x1000;
    assert r == h * 0x40 + r % 0x40 && h == g * 0x40 + h % 0x40 && g == r / 0x4_0000 * 0x40 + g % 0x40;
    assert t[0] as int == 0xF0 + r / 0x4_0000 && t[1] as int == 0x80 + g % 0x40;
    assert t[2] as int == 0x80 + h % 0x40 && t[3] as int == 0x80 + r % 0x40;
    assert SecondFits(t[0], t[1]);
  }
}
