/**
 The RouterOS API wire format: words with a length prefix of one to five bytes, sentences ended by an empty word,
 and the client that writes a command and reads replies from a socket that delivers bytes in chunks of any size.
 Words are byte strings; their text encoding is not part of the framing.
 */
module RouterOsApi {
  import opened SetFacts

  type Byte = b: int | 0 <= b < 256

  type Word = seq<Byte>

  // ----- The length code -----

  function EncodeLen(n: nat): (r: seq<Byte>)
    ensures 1 <= |r| <= 5
  {
    if n < 0x80 then [n]
    else if n < 0x4000 then [n / 0x100 + 0x80, n % 0x100]
    else if n < 0x20_0000 then [n / 0x1_0000 + 0xC0, n / 0x100 % 0x100, n % 0x100]
    else if n < 0x1000_0000 then [n / 0x100_0000 + 0xE0, n / 0x1_0000 % 0x100, n / 0x100 % 0x100, n % 0x100]
    else [0xF0, n / 0x100_0000 % 0x100, n / 0x1_0000 % 0x100, n / 0x100 % 0x100, n % 0x100]
  }

  /** Big-endian numbers of two, three and four bytes. */
  function Two(a: int, b: int): int { a * 0x100 + b }
  function Three(a: int, b: int, c: int): int { a * 0x1_0000 + b * 0x100 + c }
  function Four(a: int, b: int, c: int, d: int): int { a * 0x100_0000 + b * 0x1_0000 + c * 0x100 + d }

  /** The length at the head of a byte string and what follows it, if the string is long enough. */
  function DecodeLen(s: seq<Byte>): (r: Option<(nat, seq<Byte>)>)
    ensures r.Some? ==> |r.value.1| < |s| && r.value.1 == s[|s| - |r.value.1|..]
  {
    if |s| < 1 then None
    else if s[0] < 0x80 then Some((s[0], s[1..]))
    else if s[0] < 0xC0 then
      if |s| < 2 then None else Some((Two(s[0] - 0x80, s[1]), s[2..]))
    else if s[0] < 0xE0 then
      if |s| < 3 then None else Some((Three(s[0] - 0xC0, s[1], s[2]), s[3..]))
    else if s[0] < 0xF0 then
      if |s| < 4 then None else Some((Four(s[0] - 0xE0, s[1], s[2], s[3]), s[4..]))
    else
      if |s| < 5 then None else Some((Four(s[1], s[2], s[3], s[4]), s[5..]))
  }

  const WRAP := 0x1_0000_0000

  /**
   The arithmetic above is the bit arithmetic of the wire format: masks select ranges, and the marks do not overlap
   the bits.
   */
  lemma {:induction false} MarksAndMasks(b: bv8)
    ensures b & 0x80 == 0 <==> b < 0x80
    ensures b & 0xC0 == 0x80 <==> 0x80 <= b < 0xC0
    ensures b & 0xE0 == 0xC0 <==> 0xC0 <= b < 0xE0
    ensures b & 0xF0 == 0xE0 <==> 0xE0 <= b < 0xF0
    ensures 0x80 <= b < 0xC0 ==> b & !0xC0 == b - 0x80
    ensures 0xC0 <= b < 0xE0 ==> b & !0xE0 == b - 0xC0
    ensures 0xE0 <= b < 0xF0 ==> b & !0xF0 == b - 0xE0
    ensures b < 0x40 ==> b | 0x80 == b + 0x80
    ensures b < 0x20 ==> b | 0xC0 == b + 0xC0
    ensures b < 0x10 ==> b | 0xE0 == b + 0xE0
  {
  }

  lemma {:induction false} TwoBytes(n: nat)
    ensures n == Two(n / 0x100, n % 0x100)
  {
  }

  lemma {:induction false} ThreeBytes(n: nat)
    ensures n == Three(n / 0x1_0000, n / 0x100 % 0x100, n % 0x100)
  {
    TwoBytes(n);
    TwoBytes(n / 0x100);
    assert n / 0x100 / 0x100 == n / 0x1_0000;
  }

  lemma {:induction false} FourBytes(n: nat)
    ensures n == Four(n / 0x100_0000, n / 0x1_0000 % 0x100, n / 0x100 % 0x100, n % 0x100)
  {
    TwoBytes(n);
    ThreeBytes(n / 0x100);
    assert n / 0x100 / 0x1_0000 == n / 0x100_0000 && n / 0x100 / 0x100 == n / 0x1_0000;
  }

  lemma {:induction false} NextByte(a: nat, r: nat)
    ensures (a * 0x100 + r) / 0x100 == a + r / 0x100 && (a * 0x100 + r) % 0x100 == r % 0x100
  {
  }

  lemma {:induction false} ByteByByte(n: nat)
    ensures n / 0x100 / 0x100 == n / 0x1_0000 && n / 0x100 / 0x100 / 0x100 == n / 0x100_0000
  {
  }

  lemma {:induction false} LowerBytes(q: nat, r: nat)
    ensures var n := q * WRAP + r;
            && n % 0x100 == r % 0x100 && n / 0x100 % 0x100 == r / 0x100 % 0x100
            && n / 0x100 / 0x100 % 0x100 == r / 0x100 / 0x100 % 0x100
            && n / 0x100 / 0x100 / 0x100 % 0x100 == r / 0x100 / 0x100 / 0x100 % 0x100
  {
    NextByte(q * 0x100_0000, r);
    NextByte(q * 0x1_0000, r / 0x100);
    NextByte(q * 0x100, r / 0x100 / 0x100);
    NextByte(q, r / 0x100 / 0x100 / 0x100);
  }

  lemma {:induction false} TopByte(r: nat)
    requires r < WRAP
    ensures r / 0x100_0000 % 0x100 == r / 0x100_0000
  {
  }

  /** The low four bytes of a longer number are the bytes of its remainder. */
  lemma {:induction false} LowBytes(n: nat)
    ensures n / 0x100_0000 % 0x100 == n % WRAP / 0x100_0000
    ensures n / 0x1_0000 % 0x100 == n % WRAP / 0x1_0000 % 0x100
    ensures n / 0x100 % 0x100 == n % WRAP / 0x100 % 0x100
    ensures n % 0x100 == n % WRAP % 0x100
  {
    LowerBytes(n / WRAP, n % WRAP);
    TopByte(n % WRAP);
    ByteByByte(n);
    ByteByByte(n % WRAP);
  }

  /** The number that bytes spell, the most significant first. */
  function BigEndian(s: seq<Byte>): nat { if s == [] then 0 else BigEndian(s[..|s| - 1]) * 0x100 + s[|s| - 1] }

  lemma {:induction false} Spelled(a: Byte, b: Byte, c: Byte, d: Byte)
    ensures BigEndian([a]) == a && BigEndian([a, b]) == Two(a, b) && BigEndian([a, b, c]) == Three(a, b, c)
    ensures BigEndian([a, b, c, d]) == Four(a, b, c, d)
  {
    assert [a][..0] == [] && [a, b][..1] == [a] && [a, b, c][..2] == [a, b] && [a, b, c, d][..3] == [a, b, c];
  }

  /**
   The code of a length on the wire: in as few bytes as hold it with its mark, most significant first, the mark in the
   highest bits of the first byte; a length of 2^28 or more follows a byte of its own, as far as four bytes hold it.
   */
  lemma {:induction false} LenCodeIs(n: nat)
    ensures n < 0x80 ==> |EncodeLen(n)| == 1 && BigEndian(EncodeLen(n)) == n
    ensures 0x80 <= n < 0x4000 ==> |EncodeLen(n)| == 2 && BigEndian(EncodeLen(n)) == 0x8000 + n
    ensures 0x4000 <= n < 0x20_0000 ==> |EncodeLen(n)| == 3 && BigEndian(EncodeLen(n)) == 0xC0_0000 + n
    ensures 0x20_0000 <= n < 0x1000_0000 ==> |EncodeLen(n)| == 4 && BigEndian(EncodeLen(n)) == 0xE000_0000 + n
    ensures n >= 0x1000_0000 ==>
              |EncodeLen(n)| == 5 && EncodeLen(n)[0] == 0xF0 && BigEndian(EncodeLen(n)[1..]) == n % 0x1_0000_0000
  {
    if n < 0x80 {
      Spelled(n, 0, 0, 0);
    } else if n < 0x4000 {
      TwoBytes(n);
      Spelled(n / 0x100 + 0x80, n % 0x100, 0, 0);
    } else if n < 0x20_0000 {
      ThreeBytes(n);
      Spelled(n / 0x1_0000 + 0xC0, n / 0x100 % 0x100, n % 0x100, 0);
    } else if n < 0x1000_0000 {
      FourBytes(n);
      Spelled(n / 0x100_0000 + 0xE0, n / 0x1_0000 % 0x100, n / 0x100 % 0x100, n % 0x100);
    } else {
      LowBytes(n);
      FourBytes(n % WRAP);
      Spelled(n / 0x100_0000 % 0x100, n / 0x1_0000 % 0x100, n / 0x100 % 0x100, n % 0x100);
    }
  }

  lemma {:induction false} DecodeForms(a: Byte, b: Byte, c: Byte, d: Byte, e: Byte)
    ensures a < 0x80 ==> DecodeLen([a]) == Some((a, []))
    ensures 0x80 <= a < 0xC0 ==> DecodeLen([a, b]) == Some((Two(a - 0x80, b), []))
    ensures 0xC0 <= a < 0xE0 ==> DecodeLen([a, b, c]) == Some((Three(a - 0xC0, b, c), []))
    ensures 0xE0 <= a < 0xF0 ==> DecodeLen([a, b, c, d]) == Some((Four(a - 0xE0, b, c, d), []))
    ensures 0xF0 <= a ==> DecodeLen([a, b, c, d, e]) == Some((Four(b, c, d, e), []))
  {
  }

  lemma {:induction false} ShortCode(n: nat)
    requires n < 0x20_0000
    ensures DecodeLen(EncodeLen(n)) == Some((n, []))
  {
    if n < 0x80 {
      DecodeForms(n, 0, 0, 0, 0);
    } else if n < 0x4000 {
      TwoBytes(n);
      DecodeForms(n / 0x100 + 0x80, n % 0x100, 0, 0, 0);
    } else {
      ThreeBytes(n);
      DecodeForms(n / 0x1_0000 + 0xC0, n / 0x100 % 0x100, n % 0x100, 0, 0);
    }
  }

  lemma {:induction false} FourByteCode(n: nat)
    requires 0x20_0000 <= n < 0x1000_0000
    ensures DecodeLen(EncodeLen(n)) == Some((n, []))
  {
    FourBytes(n);
    DecodeForms(n / 0x100_0000 + 0xE0, n / 0x1_0000 % 0x100, n / 0x100 % 0x100, n % 0x100, 0);
  }

  lemma {:induction false} FiveByteCode(n: nat)
    requires n >= 0x1000_0000
    ensures DecodeLen(EncodeLen(n)) == Some((n % WRAP, []))
  {
    var b3, b2, b1, b0 := n / 0x100_0000 % 0x100, n / 0x1_0000 % 0x100, n / 0x100 % 0x100, n % 0x100;
    assert Four(b3, b2, b1, b0) == n % WRAP by {
      FourBytes(n % WRAP);
      LowBytes(n);
    }
    DecodeForms(0xF0, b3, b2, b1, b0);
  }

  /** A code decodes to its length, modulo what the five-byte form can hold. */
  lemma {:induction false} CodeValue(n: nat)
    ensures DecodeLen(EncodeLen(n)) == Some((n % WRAP, []))
  {
    if n < 0x20_0000 {
      ShortCode(n);
      SmallRemainder(n);
    } else if n < 0x1000_0000 {
      FourByteCode(n);
      SmallRemainder(n);
    } else {
      FiveByteCode(n);
    }
  }

  /** What follows a complete code is left alone. */
  lemma {:induction false} DecodePrefix(code: seq<Byte>, rest: seq<Byte>)
    requires DecodeLen(code).Some? && DecodeLen(code).value.1 == []
    ensures DecodeLen(code + rest) == Some((DecodeLen(code).value.0, rest))
  {
    var s := code + rest;
    assert forall i | 0 <= i < |code| :: s[i] == code[i];
    assert s[|code|..] == rest;
  }

  /**
   Decoding a written length gives it back, modulo what the five-byte form can hold, and consumes exactly its code.
   */
  lemma {:induction false} LenRoundTrip(n: nat, rest: seq<Byte>)
    ensures DecodeLen(EncodeLen(n) + rest) == Some((n % WRAP, rest))
  {
    CodeValue(n);
    DecodePrefix(EncodeLen(n), rest);
  }

  /** The code is prefix-free across its five forms: two codes that start the same string are the same. */
  lemma {:induction false} LenPrefixFree(m: nat, n: nat, x: seq<Byte>, y: seq<Byte>)
    requires m < WRAP && n < WRAP && EncodeLen(m) + x == EncodeLen(n) + y
    ensures m == n && x == y
  {
    Decodes(EncodeLen(m) + x, m, x);
    Decodes(EncodeLen(n) + y, n, y);
  }

  lemma {:induction false} Decodes(s: seq<Byte>, n: nat, rest: seq<Byte>)
    requires n < WRAP && s == EncodeLen(n) + rest
    ensures DecodeLen(s) == Some((n, rest))
  {
    LenRoundTrip(n, rest);
    SmallRemainder(n);
  }

  lemma {:induction false} SmallRemainder(n: nat)
    requires n < WRAP
    ensures n % WRAP == n
  {
  }

  // ----- Words and sentences -----

  function EncodeWord(w: Word): seq<Byte> { EncodeLen(|w|) + w }

  function EncodeWords(ws: seq<Word>): seq<Byte> {
    if ws == [] then [] else EncodeWord(ws[0]) + EncodeWords(ws[1..])
  }

  function EncodeSentence(ws: seq<Word>): seq<Byte> { EncodeWords(ws) + EncodeWord([]) }

  /** The words up to the first empty one, and the bytes after it. */
  function ParseSentence(s: seq<Byte>): (r: Option<(seq<Word>, seq<Byte>)>)
    ensures r.Some? ==> |r.value.1| < |s|
    decreases |s|
  {
    match DecodeLen(s)
    case None => None
    case Some((n, rest)) =>
      if n == 0 then Some(([], rest))
      else if |rest| < n then None
      else
        match ParseSentence(rest[n..])
        case None => None
        case Some((ws, end)) => Some(([rest[..n]] + ws, end))
  }

  /** A word that the format can carry. */
  predicate Sendable(w: Word) { 0 < |w| < WRAP }

  /** One turn of the parser, for whatever precedes the length. */
  lemma {:induction false} ParseTurn(s: seq<Byte>, n: nat, w: Word, tail: seq<Byte>)
    requires DecodeLen(s) == Some((n, w + tail)) && 0 < n == |w|
    ensures ParseSentence(s) ==
              match ParseSentence(tail) { case None => None case Some((vs, end)) => Some(([w] + vs, end)) }
  {
    assert (w + tail)[..n] == w && (w + tail)[n..] == tail;
  }

  lemma {:induction false} Regroup(a: seq<Byte>, w: seq<Byte>, b: seq<Byte>, c: seq<Byte>, rest: seq<Byte>)
    ensures a + w + b + c + rest == a + (w + (b + c + rest))
  {
  }

  lemma {:induction false} SentenceSplit(w: Word, ws: seq<Word>, rest: seq<Byte>)
    ensures EncodeSentence([w] + ws) + rest == EncodeLen(|w|) + (w + (EncodeSentence(ws) + rest))
  {
    assert ([w] + ws)[0] == w && ([w] + ws)[1..] == ws;
    Regroup(EncodeLen(|w|), w, EncodeWords(ws), EncodeWord([]), rest);
  }

  lemma {:induction false} ParseFirst(w: Word, ws: seq<Word>, rest: seq<Byte>)
    requires Sendable(w)
    ensures ParseSentence(EncodeSentence([w] + ws) + rest) ==
              match ParseSentence(EncodeSentence(ws) + rest)
              case None => None
              case Some((vs, end)) => Some(([w] + vs, end))
  {
    var tail := EncodeSentence(ws) + rest;
    SentenceSplit(w, ws, rest);
    Decodes(EncodeSentence([w] + ws) + rest, |w|, w + tail);
    ParseTurn(EncodeSentence([w] + ws) + rest, |w|, w, tail);
  }

  lemma {:induction false} ParseEnd(rest: seq<Byte>)
    ensures ParseSentence(EncodeSentence([]) + rest) == Some(([], rest))
  {
    assert EncodeSentence([]) + rest == EncodeLen(0) + rest;
    LenRoundTrip(0, rest);
  }

  /** A first word that cannot be sent comes back with another length, or ends the sentence. */
  lemma {:induction false} ParseBad(w: Word, ws: seq<Word>, rest: seq<Byte>)
    requires !Sendable(w)
    ensures var r := ParseSentence(EncodeSentence([w] + ws) + rest);
            r.Some? ==> r.value.0 == [] || |r.value.0[0]| != |w|
  {
    var tail := w + (EncodeSentence(ws) + rest);
    SentenceSplit(w, ws, rest);
    LenRoundTrip(|w|, tail);
  }

  /**
   The round trip: reading a written sentence gives its words back and consumes exactly its bytes, if and only if
   every word is non-empty and shorter than 2^32 bytes.
   */
  lemma {:induction false} SentenceRoundTrip(ws: seq<Word>, rest: seq<Byte>)
    ensures ParseSentence(EncodeSentence(ws) + rest) == Some((ws, rest)) <==>
              forall i | 0 <= i < |ws| :: Sendable(ws[i])
  {
    hide ParseSentence, EncodeSentence, Sendable;
    if ws == [] {
      ParseEnd(rest);
    } else {
      var w, tail := ws[0], ws[1..];
      assert ws == [w] + tail;
      if Sendable(w) {
        ParseFirst(w, tail, rest);
        SentenceRoundTrip(tail, rest);
        var r := ParseSentence(EncodeSentence(tail) + rest);
        if r.Some? && [w] + r.value.0 == ws {
          assert ([w] + r.value.0)[1..] == r.value.0;
        }
        assert forall i | 1 <= i < |ws| :: ws[i] == tail[i - 1];
      } else {
        ParseBad(w, tail, rest);
      }
    }
  }

  function EncodeSentences(ss: seq<seq<Word>>): seq<Byte> {
    if ss == [] then [] else EncodeSentence(ss[0]) + EncodeSentences(ss[1..])
  }

  predicate AllSendable(ss: seq<seq<Word>>) {
    forall i, j | 0 <= i < |ss| && 0 <= j < |ss[i]| :: Sendable(ss[i][j])
  }

  // ----- Replies -----

  const DONE: Word := [0x21, 0x64, 0x6F, 0x6E, 0x65]
  const FATAL: Word := [0x21, 0x66, 0x61, 0x74, 0x61, 0x6C]
  const TRAP: Word := [0x21, 0x74, 0x72, 0x61, 0x70]

  predicate Last(sentence: seq<Word>) { sentence != [] && sentence[0] in [DONE, FATAL, TRAP] }

  predicate Fails(sentence: seq<Word>) { sentence != [] && sentence[0] in [FATAL, TRAP] }

  /** A word that is the text in ASCII. */
  predicate Spells(w: Word, text: string) { |w| == |text| && forall i | 0 <= i < |w| :: w[i] == text[i] as int }

  lemma {:induction false} SpelledOnce(v: Word, w: Word, text: string)
    requires Spells(v, text)
    ensures Spells(w, text) <==> w == v
  {
  }

  /** The words that end a reply, and which of them say that the command failed. */
  lemma {:induction false} EndingWords(ws: seq<Word>)
    ensures Fails(ws) <==> ws != [] && (Spells(ws[0], "!fatal") || Spells(ws[0], "!trap"))
    ensures Last(ws) <==> ws != [] && (Spells(ws[0], "!done") || Spells(ws[0], "!fatal") || Spells(ws[0], "!trap"))
  {
    if ws != [] {
      SpelledOnce(DONE, ws[0], "!done");
      SpelledOnce(FATAL, ws[0], "!fatal");
      SpelledOnce(TRAP, ws[0], "!trap");
    }
  }

  /** The sentences up to the first that ends the reply, and the bytes after it. */
  function ParseReplies(s: seq<Byte>): (r: Option<(seq<seq<Word>>, seq<Byte>)>)
    ensures r.Some? ==> r.value.0 != [] && Last(r.value.0[|r.value.0| - 1])
    decreases |s|
  {
    match ParseSentence(s)
    case None => None
    case Some((ws, rest)) =>
      if Last(ws) then Some(([ws], rest))
      else
        match ParseReplies(rest)
        case None => None
        case Some((ss, end)) => Some(([ws] + ss, end))
  }

  lemma {:induction false} ParseRepliesTurn(s: seq<Byte>, ws: seq<Word>, rest: seq<Byte>)
    requires ParseSentence(s) == Some((ws, rest))
    ensures ParseReplies(s) ==
              if Last(ws) then Some(([ws], rest))
              else match ParseReplies(rest) { case None => None case Some((ss, end)) => Some(([ws] + ss, end)) }
  {
  }

  /** Sentences sent one after the other come back one by one, up to and including the one that ends the reply. */
  lemma {:induction false} RepliesRoundTrip(ss: seq<seq<Word>>, rest: seq<Byte>)
    requires ss != [] && AllSendable(ss) && Last(ss[|ss| - 1])
    requires forall i | 0 <= i < |ss| - 1 :: !Last(ss[i])
    ensures ParseReplies(EncodeSentences(ss) + rest) == Some((ss, rest))
  {
    hide ParseReplies, ParseSentence, EncodeSentence, Last, Sendable;
    var tail := ss[1..];
    var more := EncodeSentences(tail) + rest;
    assert EncodeSentences(ss) + rest == EncodeSentence(ss[0]) + more;
    SentenceRoundTrip(ss[0], more);
    ParseRepliesTurn(EncodeSentence(ss[0]) + more, ss[0], more);
    assert ss == [ss[0]] + tail;
    if |ss| == 1 {
      assert tail == [] && [] + rest == rest && [ss[0]] == ss;
    } else {
      assert ParseReplies(more) == Some((tail, rest)) by {
        assert forall i | 0 <= i < |tail| :: tail[i] == ss[i + 1];
        RepliesRoundTrip(tail, rest);
      }
    }
  }

  // ----- The client -----

  /** The far end of the connection: what it will still send before it closes, and what it has been sent. */
  class Socket {
    var incoming: seq<Byte>
    var outgoing: seq<Byte>

    /** At most n bytes, but at least one unless the peer has closed; how many is not up to the caller. */
    method Recv(n: nat) returns (chunk: seq<Byte>)
      requires n > 0
      modifies this
      ensures outgoing == old(outgoing) && chunk + incoming == old(incoming)
      ensures |chunk| <= n && (chunk == [] <==> old(incoming) == [])
    {
      if incoming == [] {
        return [];
      }
      var k: nat := *;
      if k < 1 || k > n || k > |incoming| {
        k := 1;
      }
      chunk := incoming[..k];
      incoming := incoming[k..];
    }

    method SendAll(data: seq<Byte>)
      modifies this
      ensures incoming == old(incoming) && outgoing == old(outgoing) + data
    {
      outgoing := outgoing + data;
    }
  }

  datatype Outcome = Closed | Replies(replies: seq<seq<Word>>) | ApiError(sentence: seq<Word>)

  class Api {
    const sock: Socket

    constructor (sock: Socket)
      ensures this.sock == sock
    {
      this.sock := sock;
    }

    /** Exactly n bytes whatever the chunks, or none if the connection ends first. */
    method RecvExact(n: nat) returns (data: Option<seq<Byte>>)
      modifies sock
      ensures sock.outgoing == old(sock.outgoing)
      ensures |old(sock.incoming)| >= n ==>
                data == Some(old(sock.incoming)[..n]) && sock.incoming == old(sock.incoming)[n..]
      ensures |old(sock.incoming)| < n ==> data == None && sock.incoming == []
    {
      var got: seq<Byte> := [];
      while |got| < n
        invariant |got| <= n && got + sock.incoming == old(sock.incoming)
        invariant sock.outgoing == old(sock.outgoing)
        decreases n - |got|
      {
        ghost var before := sock.incoming;
        var chunk := sock.Recv(n - |got|);
        if chunk == [] {
          return None;
        }
        assert got + (chunk + sock.incoming) == got + chunk + sock.incoming;
        got := got + chunk;
      }
      data := Some(got);
    }

    method ReadLen() returns (r: Option<nat>)
      modifies sock
      ensures sock.outgoing == old(sock.outgoing)
      ensures match DecodeLen(old(sock.incoming))
              case None => r == None && sock.incoming == []
              case Some((n, rest)) => r == Some(n) && sock.incoming == rest
    {
      var first := RecvExact(1);
      if first == None {
        return None;
      }
      var byte := first.value[0];
      if byte < 0x80 {
        return Some(byte);
      }
      var more := if byte < 0xC0 then 1 else if byte < 0xE0 then 2 else if byte < 0xF0 then 3 else 4;
      var data := RecvExact(more);
      if data == None {
        return None;
      }
      var d := data.value;
      if byte < 0xC0 {
        r := Some(Two(byte - 0x80, d[0]));
      } else if byte < 0xE0 {
        r := Some(Three(byte - 0xC0, d[0], d[1]));
      } else if byte < 0xF0 {
        r := Some(Four(byte - 0xE0, d[0], d[1], d[2]));
      } else {
        r := Some(Four(d[0], d[1], d[2], d[3]));
      }
    }

    method ReadSentence() returns (r: Option<seq<Word>>)
      modifies sock
      ensures sock.outgoing == old(sock.outgoing)
      ensures match ParseSentence(old(sock.incoming))
              case None => r == None && sock.incoming == []
              case Some((ws, rest)) => r == Some(ws) && sock.incoming == rest
    {
      var words: seq<Word> := [];
      PrependedNone(ParseSentence(sock.incoming));
      while true
        invariant sock.outgoing == old(sock.outgoing)
        invariant ParseSentence(old(sock.incoming)) == Prepended(words, ParseSentence(sock.incoming))
        decreases |sock.incoming|
      {
        ghost var before := sock.incoming;
        var length := ReadLen();
        if length == None {
          return None;
        }
        if length.value == 0 {
          assert words + [] == words;
          return Some(words);
        }
        var data := RecvExact(length.value);
        if data == None {
          return None;
        }
        PrependedMore(words, data.value, ParseSentence(sock.incoming));
        words := words + [data.value];
      }
    }

    method WriteWord(w: Word)
      modifies sock
      ensures sock.incoming == old(sock.incoming) && sock.outgoing == old(sock.outgoing) + EncodeWord(w)
    {
      sock.SendAll(EncodeLen(|w|) + w);
    }

    method WriteSentence(words: seq<Word>)
      modifies sock
      ensures sock.incoming == old(sock.incoming) && sock.outgoing == old(sock.outgoing) + EncodeSentence(words)
    {
      var i := 0;
      while i < |words|
        invariant i <= |words| && sock.incoming == old(sock.incoming)
        invariant sock.outgoing + EncodeWords(words[i..]) == old(sock.outgoing) + EncodeWords(words)
      {
        ghost var sent := sock.outgoing;
        WriteWord(words[i]);
        assert words[i..][0] == words[i] && words[i..][1..] == words[i + 1..];
        assert sent + (EncodeWord(words[i]) + EncodeWords(words[i + 1..])) ==
               sent + EncodeWord(words[i]) + EncodeWords(words[i + 1..]);
        i := i + 1;
      }
      assert words[i..] == [] && sock.outgoing + [] == sock.outgoing;
      ghost var sent := sock.outgoing;
      WriteWord([]);
      assert old(sock.outgoing) + EncodeWords(words) + EncodeWord([]) ==
             old(sock.outgoing) + (EncodeWords(words) + EncodeWord([]));
    }

    method ReadReplies() returns (r: Outcome)
      modifies sock
      ensures sock.outgoing == old(sock.outgoing)
      ensures match ParseReplies(old(sock.incoming))
              case None => r == Closed && sock.incoming == []
              case Some((ss, rest)) =>
                && sock.incoming == rest
                && r == if Fails(ss[|ss| - 1]) then ApiError(ss[|ss| - 1]) else Replies(ss)
    {
      var replies: seq<seq<Word>> := [];
      PrependedNone(ParseReplies(sock.incoming));
      while true
        invariant sock.outgoing == old(sock.outgoing)
        invariant ParseReplies(old(sock.incoming)) == Prepended(replies, ParseReplies(sock.incoming))
        decreases |sock.incoming|
      {
        ghost var before := sock.incoming;
        var sentence := ReadSentence();
        if sentence == None {
          return Closed;
        }
        ParseRepliesTurn(before, sentence.value, sock.incoming);
        PrependedMore(replies, sentence.value, ParseReplies(sock.incoming));
        replies := replies + [sentence.value];
        if Last(sentence.value) {
          if Fails(sentence.value) {
            return ApiError(sentence.value);
          }
          return Replies(replies);
        }
      }
    }

    /**
     Write a command and read its replies: exactly one encoded sentence leaves, and exactly the replies are consumed.
     */
    method Command(words: seq<Word>) returns (r: Outcome)
      modifies sock
      ensures sock.outgoing == old(sock.outgoing) + EncodeSentence(words)
      ensures match ParseReplies(old(sock.incoming))
              case None => r == Closed && sock.incoming == []
              case Some((ss, rest)) =>
                && sock.incoming == rest
                && r == if Fails(ss[|ss| - 1]) then ApiError(ss[|ss| - 1]) else Replies(ss)
    {
      WriteSentence(words);
      r := ReadReplies();
    }
  }

  /** A parse whose first items are already known. */
  function Prepended<T>(known: seq<T>, r: Option<(seq<T>, seq<Byte>)>): Option<(seq<T>, seq<Byte>)> {
    match r
    case None => None
    case Some((more, rest)) => Some((known + more, rest))
  }

  lemma {:induction false} PrependedNone<T>(r: Option<(seq<T>, seq<Byte>)>)
    ensures Prepended([], r) == r
  {
    if r.Some? {
      assert [] + r.value.0 == r.value.0;
    }
  }

  lemma {:induction false} PrependedMore<T>(known: seq<T>, x: T, r: Option<(seq<T>, seq<Byte>)>)
    ensures Prepended(known + [x], r) ==
              Prepended(known, match r { case None => None case Some((more, rest)) => Some(([x] + more, rest)) })
  {
    if r.Some? {
      assert known + [x] + r.value.0 == known + ([x] + r.value.0);
    }
  }
}
