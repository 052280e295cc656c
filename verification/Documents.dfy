/** Documents as bags of words: building, the serialized byte form, and the walk over all occurrences. */
module Documents {
  type Byte = b: int | 0 <= b < 256

  /** int32_t */
  type Int32 = x: int | -0x8000_0000 <= x < 0x8000_0000

  /** size_t */
  type Size = x: int | 0 <= x < SizeLimit

  const SizeLimit: int := 0x1_0000_0000_0000_0000

  /** Unsigned overflow of a sum of two sizes. */
  function Wrap(x: int): (r: Size)
    requires 0 <= x < 2 * SizeLimit
    ensures r == x % SizeLimit
  {
    if x < SizeLimit then x else x - SizeLimit
  }

  // ---- little-endian numbers -----------------------------------------------------------------

  function ToBytes(x: nat, n: nat): (r: seq<Byte>)
    ensures |r| == n
  {
    if n == 0 then [] else [x % 256] + ToBytes(x / 256, n - 1)
  }

  function FromBytes(bs: seq<Byte>): nat {
    if |bs| == 0 then 0 else bs[0] + 256 * FromBytes(bs[1..])
  }

  function Pow256(n: nat): (r: nat)
    ensures r > 0
  {
    if n == 0 then 1 else 256 * Pow256(n - 1)
  }

  lemma {:induction false} NumberRoundTrip(x: nat, n: nat)
    requires x < Pow256(n)
    ensures FromBytes(ToBytes(x, n)) == x
  {
    if n > 0 {
      NumberRoundTrip(x / 256, n - 1);
      assert ToBytes(x, n)[1..] == ToBytes(x / 256, n - 1);
    }
  }

  lemma {:induction false} BytesRoundTrip(bs: seq<Byte>)
    ensures FromBytes(bs) < Pow256(|bs|) && ToBytes(FromBytes(bs), |bs|) == bs
  {
    if |bs| > 0 {
      BytesRoundTrip(bs[1..]);
      LowByte(bs[0], FromBytes(bs[1..]));
      assert bs == [bs[0]] + bs[1..];
    }
  }

  lemma LowByte(b: nat, x: nat)
    requires b < 256
    ensures (b + 256 * x) % 256 == b && (b + 256 * x) / 256 == x
  {
  }

  lemma PowersOf256()
    ensures Pow256(4) == 0x1_0000_0000 && Pow256(8) == 0x1_0000_0000_0000_0000
  {
    assert Pow256(2) == 0x1_0000 && Pow256(4) == 0x1_0000_0000 && Pow256(6) == 0x1_0000_0000_0000;
  }

  function FromSigned(x: Int32): nat {
    if x < 0 then x + 0x1_0000_0000 else x
  }

  function ToSigned(u: nat): Int32
    requires u < 0x1_0000_0000
  {
    if u < 0x8000_0000 then u else u - 0x1_0000_0000
  }

  function EncodeWord(x: Int32): (r: seq<Byte>)
    ensures |r| == 4
  {
    ToBytes(FromSigned(x), 4)
  }

  function EncodeSize(x: Size): (r: seq<Byte>)
    ensures |r| == 8
  {
    ToBytes(x, 8)
  }

  lemma WordRoundTrip(x: Int32, y: Int32)
    ensures EncodeWord(x) == EncodeWord(y) <==> x == y
  {
    PowersOf256();
    NumberRoundTrip(FromSigned(x), 4);
    NumberRoundTrip(FromSigned(y), 4);
  }

  lemma SizeRoundTrip(x: Size, y: Size)
    ensures EncodeSize(x) == EncodeSize(y) <==> x == y
  {
    PowersOf256();
    NumberRoundTrip(x, 8);
    NumberRoundTrip(y, 8);
  }

  // ---- the serialized form -------------------------------------------------------------------

  function EncodeWords(ws: seq<Int32>): (r: seq<Byte>)
    ensures |r| == 4 * |ws|
  {
    if |ws| == 0 then [] else EncodeWords(ws[..|ws| - 1]) + EncodeWord(ws[|ws| - 1])
  }

  function EncodeSizes(xs: seq<Size>): (r: seq<Byte>)
    ensures |r| == 8 * |xs|
  {
    if |xs| == 0 then [] else EncodeSizes(xs[..|xs| - 1]) + EncodeSize(xs[|xs| - 1])
  }

  /** The number of words, the words, and the accumulated counts. */
  function Encode(words: seq<Int32>, accum: seq<Size>): (r: seq<Byte>)
    requires |words| < SizeLimit
    ensures |r| == 8 + 4 * |words| + 8 * |accum|
  {
    EncodeSize(|words|) + EncodeWords(words) + EncodeSizes(accum)
  }

  lemma {:induction false} WordsInjective(a: seq<Int32>, b: seq<Int32>)
    requires |a| == |b| && EncodeWords(a) == EncodeWords(b)
    ensures a == b
  {
    if |a| > 0 {
      var m := |a| - 1;
      var ea, eb := EncodeWords(a), EncodeWords(b);
      assert ea[..4 * m] == EncodeWords(a[..m]) && eb[..4 * m] == EncodeWords(b[..m]);
      assert ea[4 * m..] == EncodeWord(a[m]) && eb[4 * m..] == EncodeWord(b[m]);
      WordsInjective(a[..m], b[..m]);
      WordRoundTrip(a[m], b[m]);
      assert a == a[..m] + [a[m]] && b == b[..m] + [b[m]];
    }
  }

  lemma {:induction false} SizesInjective(a: seq<Size>, b: seq<Size>)
    requires |a| == |b| && EncodeSizes(a) == EncodeSizes(b)
    ensures a == b
  {
    if |a| > 0 {
      var m := |a| - 1;
      var ea, eb := EncodeSizes(a), EncodeSizes(b);
      assert ea[..8 * m] == EncodeSizes(a[..m]) && eb[..8 * m] == EncodeSizes(b[..m]);
      assert ea[8 * m..] == EncodeSize(a[m]) && eb[8 * m..] == EncodeSize(b[m]);
      SizesInjective(a[..m], b[..m]);
      SizeRoundTrip(a[m], b[m]);
      assert a == a[..m] + [a[m]] && b == b[..m] + [b[m]];
    }
  }

  /** A buffer that begins with the bytes of two documents begins with one document's. */
  lemma RoundTrip(buf: seq<Byte>, w1: seq<Int32>, a1: seq<Size>, w2: seq<Int32>, a2: seq<Size>)
    requires |a1| == |w1| + 1 && |a2| == |w2| + 1
    requires |w1| < SizeLimit && |w2| < SizeLimit
    requires Encode(w1, a1) <= buf && Encode(w2, a2) <= buf
    ensures w1 == w2 && a1 == a2
  {
    var e1, e2 := Encode(w1, a1), Encode(w2, a2);
    assert buf[..8] == e1[..8] == EncodeSize(|w1|);
    assert buf[..8] == e2[..8] == EncodeSize(|w2|);
    SizeRoundTrip(|w1|, |w2|);
    assert e1 == buf[..|e1|] == e2;
    var k := 8 + 4 * |w1|;
    assert EncodeWords(w1) == e1[8..k] == EncodeWords(w2);
    assert EncodeSizes(a1) == e1[k..] == EncodeSizes(a2);
    WordsInjective(w1, w2);
    SizesInjective(a1, a2);
  }

  /** Stores n little-endian bytes of x at off. */
  method PutBytes(buf: array<Byte>, off: nat, x: nat, n: nat)
    requires off + n <= buf.Length
    modifies buf
    ensures buf[..off + n] == old(buf[..off]) + ToBytes(x, n)
    ensures forall k :: off + n <= k < buf.Length ==> buf[k] == old(buf[k])
  {
    var rest := x;
    for i := 0 to n
      invariant buf[..off + i] + ToBytes(rest, n - i) == old(buf[..off]) + ToBytes(x, n)
      invariant forall k :: off + n <= k < buf.Length ==> buf[k] == old(buf[k])
    {
      ghost var before := buf[..off + i];
      ghost var bytes := ToBytes(rest, n - i);
      buf[off + i] := rest % 256;
      assert buf[..off + i + 1] == before + [bytes[0]];
      assert bytes == [bytes[0]] + ToBytes(rest / 256, n - i - 1);
      rest := rest / 256;
    }
  }

  /** Reads n little-endian bytes at off. */
  method GetBytes(buf: array<Byte>, off: nat, n: nat) returns (x: nat)
    requires off + n <= buf.Length
    ensures x == FromBytes(buf[off..off + n])
  {
    x := 0;
    for i := n downto 0
      invariant x == FromBytes(buf[off + i..off + n])
    {
      assert buf[off + i..off + n][1..] == buf[off + i + 1..off + n];
      x := buf[off + i] + 256 * x;
    }
  }

  // ---- building and walking ------------------------------------------------------------------

  /** Counts accumulated so far: they start at zero and never fall. */
  predicate Accumulated(words: seq<Int32>, accum: seq<Size>) {
    |accum| == |words| + 1 && accum[0] == 0 && forall i, j :: 0 <= i <= j < |accum| ==> accum[i] <= accum[j]
  }

  function Repeat(x: int, n: nat): (r: seq<int>)
    ensures |r| == n && forall i :: 0 <= i < n ==> r[i] == x
  {
    seq(n, i => x)
  }

  /** The bag of words spelled out: the first i words, each as often as it occurs. */
  function Expand(words: seq<Int32>, accum: seq<Size>, i: nat): (r: seq<int>)
    requires Accumulated(words, accum) && i <= |words|
    ensures |r| == accum[i]
  {
    if i == 0 then [] else Expand(words, accum, i - 1) + Repeat(words[i - 1], accum[i] - accum[i - 1])
  }

  /** Token t belongs to the word whose stretch it lies in. */
  lemma {:induction false} ExpandAt(words: seq<Int32>, accum: seq<Size>, i: nat, k: nat, t: nat)
    requires Accumulated(words, accum) && k < i <= |words| && accum[k] <= t < accum[k + 1]
    ensures accum[k + 1] <= accum[i] && Expand(words, accum, i)[t] == words[k]
  {
    if k < i - 1 {
      ExpandAt(words, accum, i - 1, k, t);
    }
  }

  class Document {
    var words: seq<Int32>
    var accumTokenCount: seq<Size>
    var wordTopics: seq<int>
    var numTokens: Size

    /** One accumulated count more than words, the last being the number of tokens. */
    predicate Built()
      reads this
    {
      |accumTokenCount| == |words| + 1 && numTokens == accumTokenCount[|words|]
    }

    /** And the counts never wrapped around. */
    ghost predicate Valid()
      reads this
    {
      Built() && Accumulated(words, accumTokenCount)
    }

    constructor ()
    {
    }

    function NumOfOccurrences(i: nat): nat
      requires Valid() && i < |words|
      reads this
    {
      accumTokenCount[i + 1] - accumTokenCount[i]
    }

    method InitAppendWord()
      modifies this
      ensures Valid() && words == [] && wordTopics == old(wordTopics)
    {
      words := [];
      accumTokenCount := [0];
      numTokens := 0;
    }

    /** Adds a word with its count; earlier words and counts stay.  The total wraps around like size_t, and the
        document stays a bag of words exactly as long as it does not. */
    method AppendWord(wordId: Int32, count: Size)
      requires Built()
      modifies this
      ensures Built() && words == old(words) + [wordId] && accumTokenCount == old(accumTokenCount) + [numTokens]
      ensures numTokens == Wrap(old(numTokens) + count) && wordTopics == old(wordTopics)
      ensures old(Valid()) ==> (Valid() <==> old(numTokens) + count < SizeLimit)
      ensures old(Valid()) && Valid() ==>
                Expand(words, accumTokenCount, |words|)
                == old(if Valid() then Expand(words, accumTokenCount, |words|) else []) + Repeat(wordId, count)
    {
      ghost var w, a, n := words, accumTokenCount, numTokens;
      words := words + [wordId];
      accumTokenCount := accumTokenCount + [Wrap(accumTokenCount[|words| - 1] + count)];
      numTokens := Wrap(numTokens + count);
      if old(Valid()) {
        if n + count < SizeLimit {
          ExpandPrefix(w, a, words, accumTokenCount, |w|);
        } else {
          assert accumTokenCount[|w|] == n > accumTokenCount[|w| + 1];
        }
      }
    }

    /** One topic per occurrence, from a generator of values 1..K. */
    method RandomInitWordTopics(draws: seq<int>, K: nat)
      requires Valid() && |draws| == numTokens && forall i :: 0 <= i < |draws| ==> 1 <= draws[i] <= K
      modifies this`wordTopics
      ensures |wordTopics| == numTokens
      ensures forall i :: 0 <= i < numTokens ==> wordTopics[i] == draws[i] - 1 && 0 <= wordTopics[i] < K
    {
      wordTopics := [];
      for i := 0 to |words|
        invariant |wordTopics| == accumTokenCount[i]
        invariant forall k :: 0 <= k < |wordTopics| ==> wordTopics[k] == draws[k] - 1
      {
        for j := NumOfOccurrences(i) downto 0
          invariant |wordTopics| == accumTokenCount[i + 1] - j
          invariant forall k :: 0 <= k < |wordTopics| ==> wordTopics[k] == draws[k] - 1
        {
          assert accumTokenCount[i + 1] <= accumTokenCount[|words|];
          wordTopics := wordTopics + [draws[|wordTopics|] - 1];
        }
      }
    }

    function SerializedDocSize(): nat
      reads this
    {
      8 + |words| * 4 + |accumTokenCount| * 8
    }

    /** Writes exactly SerializedDocSize bytes. */
    method SerializeDoc(buf: array<Byte>)
      requires |words| < SizeLimit && SerializedDocSize() <= buf.Length
      modifies buf
      ensures buf[..SerializedDocSize()] == Encode(words, accumTokenCount)
      ensures forall k :: SerializedDocSize() <= k < buf.Length ==> buf[k] == old(buf[k])
    {
      PutSize(buf, 0, |words|);
      assert buf[..8] == EncodeSize(|words|);
      WriteWords(buf, 8, words);
      ghost var head := buf[..8 + 4 * |words|];
      assert head == EncodeSize(|words|) + EncodeWords(words);
      WriteSizes(buf, 8 + 4 * |words|, accumTokenCount);
      assert buf[..SerializedDocSize()] == head + EncodeSizes(accumTokenCount);
    }

    /** Reads a document back: its bytes are those at the front of the buffer. */
    method DeserializeDoc(buf: array<Byte>)
      requires buf.Length >= 8 && 8 + 4 * FromBytes(buf[..8]) + 8 * (FromBytes(buf[..8]) + 1) <= buf.Length
      modifies this
      ensures Built() && |words| < SizeLimit
      ensures SerializedDocSize() <= buf.Length && Encode(words, accumTokenCount) == buf[..SerializedDocSize()]
      ensures wordTopics == old(wordTopics)
    {
      words, accumTokenCount := ReadBoth(buf);
      numTokens := accumTokenCount[|words|];
    }
  }

  /** Reading back what was written restores words, accumulated counts and token count, in a buffer of any
      larger size. */
  method WriteAndRead(doc: Document, copy: Document, buf: array<Byte>)
    requires doc.Built() && |doc.words| < SizeLimit && doc.SerializedDocSize() <= buf.Length && copy != doc
    modifies copy, buf
    ensures copy.words == doc.words && copy.accumTokenCount == doc.accumTokenCount && copy.numTokens == doc.numTokens
    ensures doc.Valid() ==> copy.Valid()
  {
    doc.SerializeDoc(buf);
    ghost var all := buf[..];
    FrontOf(all, doc.words, doc.accumTokenCount);
    copy.DeserializeDoc(buf);
    assert Encode(copy.words, copy.accumTokenCount) == all[..copy.SerializedDocSize()];
    RoundTrip(all, doc.words, doc.accumTokenCount, copy.words, copy.accumTokenCount);
  }

  /** A buffer that begins with a document is long enough to be read. */
  lemma FrontOf(buf: seq<Byte>, words: seq<Int32>, accum: seq<Size>)
    requires |words| < SizeLimit && |accum| == |words| + 1 && Encode(words, accum) <= buf
    ensures |buf| >= 8 && FromBytes(buf[..8]) == |words|
  {
    assert buf[..8] == Encode(words, accum)[..8] == EncodeSize(|words|);
    PowersOf256();
    NumberRoundTrip(|words|, 8);
  }

  /** The number of words, then the words, then one count more than words. */
  method ReadBoth(buf: array<Byte>) returns (ws: seq<Int32>, xs: seq<Size>)
    requires buf.Length >= 8 && 8 + 4 * FromBytes(buf[..8]) + 8 * (FromBytes(buf[..8]) + 1) <= buf.Length
    ensures |xs| == |ws| + 1 && |ws| < SizeLimit
    ensures 8 + 4 * |ws| + 8 * |xs| <= buf.Length && Encode(ws, xs) == buf[..8 + 4 * |ws| + 8 * |xs|]
  {
    assert buf[..8] == buf[0..8];
    var n: nat := ReadSize(buf, 0);
    ws := ReadWords(buf, 8, n);
    xs := ReadSizes(buf, 8 + 4 * n, n + 1);
    Join(buf[..], 8, 8 + 4 * n, 8 + 4 * n + 8 * (n + 1));
  }

  lemma Join(b: seq<Byte>, i: nat, j: nat, k: nat)
    requires i <= j <= k <= |b|
    ensures b[..k] == b[0..i] + b[i..j] + b[j..k]
  {
  }

  method PutSize(buf: array<Byte>, off: nat, x: Size)
    requires off + 8 <= buf.Length
    modifies buf
    ensures buf[..off + 8] == old(buf[..off]) + EncodeSize(x)
    ensures forall k :: off + 8 <= k < buf.Length ==> buf[k] == old(buf[k])
  {
    PutBytes(buf, off, x, 8);
  }

  method PutWord(buf: array<Byte>, off: nat, x: Int32)
    requires off + 4 <= buf.Length
    modifies buf
    ensures buf[..off + 4] == old(buf[..off]) + EncodeWord(x)
    ensures forall k :: off + 4 <= k < buf.Length ==> buf[k] == old(buf[k])
  {
    PutBytes(buf, off, FromSigned(x), 4);
  }

  method WriteWords(buf: array<Byte>, off: nat, ws: seq<Int32>)
    requires off + 4 * |ws| <= buf.Length
    modifies buf
    ensures buf[..off + 4 * |ws|] == old(buf[..off]) + EncodeWords(ws)
    ensures forall k :: off + 4 * |ws| <= k < buf.Length ==> buf[k] == old(buf[k])
  {
    for i := 0 to |ws|
      invariant buf[..off + 4 * i] == old(buf[..off]) + EncodeWords(ws[..i])
      invariant forall k :: off + 4 * i <= k < buf.Length ==> buf[k] == old(buf[k])
    {
      assert ws[..i + 1][..i] == ws[..i];
      PutWord(buf, off + 4 * i, ws[i]);
    }
    assert ws[..|ws|] == ws;
  }

  method WriteSizes(buf: array<Byte>, off: nat, xs: seq<Size>)
    requires off + 8 * |xs| <= buf.Length
    modifies buf
    ensures buf[..off + 8 * |xs|] == old(buf[..off]) + EncodeSizes(xs)
    ensures forall k :: off + 8 * |xs| <= k < buf.Length ==> buf[k] == old(buf[k])
  {
    for i := 0 to |xs|
      invariant buf[..off + 8 * i] == old(buf[..off]) + EncodeSizes(xs[..i])
      invariant forall k :: off + 8 * i <= k < buf.Length ==> buf[k] == old(buf[k])
    {
      assert xs[..i + 1][..i] == xs[..i];
      PutSize(buf, off + 8 * i, xs[i]);
    }
    assert xs[..|xs|] == xs;
  }

  method ReadWord(buf: array<Byte>, off: nat) returns (x: Int32)
    requires off + 4 <= buf.Length
    ensures EncodeWord(x) == buf[off..off + 4]
  {
    PowersOf256();
    BytesRoundTrip(buf[off..off + 4]);
    var u := GetBytes(buf, off, 4);
    x := ToSigned(u);
  }

  method ReadSize(buf: array<Byte>, off: nat) returns (x: Size)
    requires off + 8 <= buf.Length
    ensures EncodeSize(x) == buf[off..off + 8] && x == FromBytes(buf[off..off + 8])
  {
    PowersOf256();
    BytesRoundTrip(buf[off..off + 8]);
    x := GetBytes(buf, off, 8);
  }

  method ReadWords(buf: array<Byte>, off: nat, n: nat) returns (ws: seq<Int32>)
    requires off + 4 * n <= buf.Length
    ensures |ws| == n && EncodeWords(ws) == buf[off..off + 4 * n]
  {
    ws := [];
    for i := 0 to n
      invariant |ws| == i && EncodeWords(ws) == buf[off..off + 4 * i]
    {
      var x := ReadWord(buf, off + 4 * i);
      assert (ws + [x])[..i] == ws;
      ws := ws + [x];
    }
  }

  method ReadSizes(buf: array<Byte>, off: nat, n: nat) returns (xs: seq<Size>)
    requires off + 8 * n <= buf.Length
    ensures |xs| == n && EncodeSizes(xs) == buf[off..off + 8 * n]
  {
    xs := [];
    for i := 0 to n
      invariant |xs| == i && EncodeSizes(xs) == buf[off..off + 8 * i]
    {
      var x := ReadSize(buf, off + 8 * i);
      assert (xs + [x])[..i] == xs;
      xs := xs + [x];
    }
  }

  lemma {:induction false} ExpandPrefix(w: seq<Int32>, a: seq<Size>, w2: seq<Int32>, a2: seq<Size>, i: nat)
    requires Accumulated(w, a) && Accumulated(w2, a2) && w <= w2 && a <= a2 && i <= |w|
    ensures Expand(w2, a2, i) == Expand(w, a, i)
  {
    if i > 0 {
      ExpandPrefix(w, a, w2, a2, i - 1);
    }
  }

  // ---- the iterator --------------------------------------------------------------------------

  class WordOccurrenceIterator {
    const doc: Document
    var wordIndex: nat
    var wordOccurIndex: nat

    /** Past the last token, or inside the stretch of the current word. */
    ghost predicate Valid()
      reads this, doc
    {
      doc.Valid() && Inside()
    }

    ghost predicate Inside()
      requires doc.Valid()
      reads this, doc
    {
      if wordIndex == |doc.words| then wordOccurIndex == doc.numTokens
      else wordIndex < |doc.words| &&
           doc.accumTokenCount[wordIndex] <= wordOccurIndex < doc.accumTokenCount[wordIndex + 1]
    }

    constructor (d: Document)
      requires d.Valid()
      ensures Valid() && doc == d && wordOccurIndex == 0
    {
      doc := d;
      wordIndex := 0;
      wordOccurIndex := 0;
      new;
      SkipWordsWithZeroOccurrences();
    }

    method SkipWordsWithZeroOccurrences()
      requires doc.Valid() && wordIndex <= |doc.words| && wordOccurIndex == doc.accumTokenCount[wordIndex]
      modifies this`wordIndex
      ensures Valid()
    {
      while wordIndex != |doc.words| && doc.NumOfOccurrences(wordIndex) == 0
        invariant wordIndex <= |doc.words| && wordOccurIndex == doc.accumTokenCount[wordIndex]
        decreases |doc.words| - wordIndex
      {
        wordIndex := wordIndex + 1;
      }
    }

    method End() returns (r: bool)
      requires Valid()
      ensures r <==> wordOccurIndex == doc.numTokens
    {
      r := wordIndex == |doc.words|;
    }

    /** The next occurrence, whichever word it belongs to. */
    method Next()
      requires Valid() && wordOccurIndex < doc.numTokens
      modifies this`wordIndex, this`wordOccurIndex
      ensures Valid() && wordOccurIndex == old(wordOccurIndex) + 1
    {
      wordOccurIndex := wordOccurIndex + 1;
      if wordOccurIndex > doc.accumTokenCount[wordIndex + 1] - 1 {
        wordIndex := wordIndex + 1;
        SkipWordsWithZeroOccurrences();
      }
    }

    /** The word this occurrence spells. */
    method Word() returns (w: int)
      requires Valid() && wordOccurIndex < doc.numTokens
      ensures w == Expand(doc.words, doc.accumTokenCount, |doc.words|)[wordOccurIndex]
    {
      ExpandAt(doc.words, doc.accumTokenCount, |doc.words|, wordIndex, wordOccurIndex);
      w := doc.words[wordIndex];
    }

    method Topic() returns (t: int)
      requires Valid() && wordOccurIndex < |doc.wordTopics|
      ensures t == doc.wordTopics[wordOccurIndex]
    {
      t := doc.wordTopics[wordOccurIndex];
    }

    method SetTopic(t: int)
      requires Valid() && wordOccurIndex < |doc.wordTopics|
      modifies doc`wordTopics
      ensures Valid() && doc.wordTopics == old(doc.wordTopics)[wordOccurIndex := t]
    {
      doc.wordTopics := doc.wordTopics[wordOccurIndex := t];
    }
  }

  /** One turn of the walk. */
  method Visit(it: WordOccurrenceIterator) returns (w: int, t: int, done: bool)
    requires it.Valid() && it.wordOccurIndex < it.doc.numTokens == |it.doc.wordTopics|
    modifies it
    ensures it.Valid() && it.wordOccurIndex == old(it.wordOccurIndex) + 1
    ensures w == Expand(it.doc.words, it.doc.accumTokenCount, |it.doc.words|)[old(it.wordOccurIndex)]
    ensures t == it.doc.wordTopics[old(it.wordOccurIndex)] && (done <==> it.wordOccurIndex == it.doc.numTokens)
  {
    w := it.Word();
    t := it.Topic();
    it.Next();
    done := it.End();
  }

  lemma TakeNext<T>(s: seq<T>, k: nat)
    requires k < |s|
    ensures s[..k + 1] == s[..k] + [s[k]]
  {
  }

  /** The walk every sampler makes: each token once, in order, under its word and with its topic. */
  method Walk(doc: Document) returns (words: seq<int>, topics: seq<int>)
    requires doc.Valid() && |doc.wordTopics| == doc.numTokens
    ensures words == Expand(doc.words, doc.accumTokenCount, |doc.words|) && topics == doc.wordTopics
  {
    words, topics := [], [];
    ghost var spelled, given, n := Expand(doc.words, doc.accumTokenCount, |doc.words|), doc.wordTopics, doc.numTokens;
    var it := new WordOccurrenceIterator(doc);
    var done := it.End();
    while !done
      invariant it.Valid() && it.doc == doc && it.wordOccurIndex <= n
      invariant done <==> it.wordOccurIndex == n
      invariant words == spelled[..it.wordOccurIndex]
      invariant topics == given[..it.wordOccurIndex]
      decreases n - it.wordOccurIndex
    {
      TakeNext(spelled, it.wordOccurIndex);
      TakeNext(given, it.wordOccurIndex);
      var w, t;
      w, t, done := Visit(it);
      words := words + [w];
      topics := topics + [t];
    }
  }
}
