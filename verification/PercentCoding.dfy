/** UTF-8 and percent-encoding, as `quote` and `unquote` apply them to a query string.
    Percent-encoding is that of section 2.1 of RFC 3986. */
module PercentCoding {

  type Byte = b: int | 0 <= b < 256

  // ---- UTF-8 --------------------------------------------------------------------------

  function EncodeChar(c: char): (bs: seq<Byte>)
    ensures bs != []
  {
    var n := c as int;
    if n < 0x80 then [n]
    else if n < 0x800 then [0xC0 + n / 64, 0x80 + n % 64]
    else if n < 0x1_0000 then [0xE0 + n / 4096, 0x80 + n / 64 % 64, 0x80 + n % 64]
    else [0xF0 + n / 262144, 0x80 + n / 4096 % 64, 0x80 + n / 64 % 64, 0x80 + n % 64]
  }

  function Encode(s: string): seq<Byte> {
    if s == [] then [] else EncodeChar(s[0]) + Encode(s[1..])
  }

  predicate Continuation(b: Byte) {
    0x80 <= b < 0xC0
  }

  /** The six bits a continuation byte carries. */
  function Six(b: Byte): int {
    b as int - 0x80
  }

  predicate Scalar(n: int) {
    0 <= n < 0xD800 || 0xE000 <= n < 0x11_0000
  }

  /** The first character of a byte string and how many bytes it takes; a byte that
      starts no character is replaced on its own. */
  function DecodeFirst(bs: seq<Byte>): (r: (char, nat))
    requires bs != []
    ensures 1 <= r.1 <= |bs|
  {
    var b: int := bs[0];
    if b < 0x80 then (b as char, 1)
    else if 0xC2 <= b < 0xE0 && |bs| >= 2 && Continuation(bs[1]) then
      (((b - 0xC0) * 64 + Six(bs[1])) as char, 2)
    else if 0xE0 <= b < 0xF0 && |bs| >= 3 && Continuation(bs[1]) && Continuation(bs[2]) then
      var n := (b - 0xE0) * 4096 + Six(bs[1]) * 64 + Six(bs[2]);
      if n >= 0x800 && Scalar(n) then (n as char, 3) else ('\U{FFFD}', 1)
    else if 0xF0 <= b < 0xF5 && |bs| >= 4 && Continuation(bs[1]) && Continuation(bs[2]) && Continuation(bs[3]) then
      var n := (b - 0xF0) * 262144 + Six(bs[1]) * 4096 + Six(bs[2]) * 64 + Six(bs[3]);
      if n >= 0x1_0000 && Scalar(n) then (n as char, 4) else ('\U{FFFD}', 1)
    else ('\U{FFFD}', 1)
  }

  function Decode(bs: seq<Byte>): string
    decreases |bs|
  {
    if bs == [] then [] else
      var (c, n) := DecodeFirst(bs);
      [c] + Decode(bs[n..])
  }

  lemma Digits64(n: int)
    requires 0 <= n
    ensures n == n / 64 * 64 + n % 64
    ensures n == n / 4096 * 4096 + n / 64 % 64 * 64 + n % 64
    ensures n == n / 262144 * 262144 + n / 4096 % 64 * 4096 + n / 64 % 64 * 64 + n % 64
  {
    assert n / 4096 == n / 64 / 64;
    assert n / 262144 == n / 4096 / 64;
  }

  lemma {:induction false} DecodeEncodedChar(c: char, rest: seq<Byte>)
    ensures DecodeFirst(EncodeChar(c) + rest) == (c, |EncodeChar(c)|)
  {
    var n := c as int;
    Digits64(n);
    var bs := EncodeChar(c) + rest;
    assert forall i | 0 <= i < |EncodeChar(c)| :: bs[i] == EncodeChar(c)[i];
  }

  lemma {:induction false} DecodeEncode(s: string)
    ensures Decode(Encode(s)) == s
  {
    if s != [] {
      DecodeEncodedChar(s[0], Encode(s[1..]));
      assert Encode(s)[|EncodeChar(s[0])|..] == Encode(s[1..]);
      DecodeEncode(s[1..]);
    }
  }

  /** A byte that starts no character is replaced on its own. */
  lemma {:induction false} StrayByte(b: Byte, rest: seq<Byte>)
    requires 0x80 <= b < 0xC2 || b >= 0xF5
    ensures Decode([b] + rest) == ['\U{FFFD}'] + Decode(rest)
  {
    assert ([b] + rest)[1..] == rest;
  }

  // ---- percent-encoding ----------------------------------------------------------------

  predicate Alphanumeric(c: char) {
    'a' <= c <= 'z' || 'A' <= c <= 'Z' || '0' <= c <= '9'
  }

  /** What `quote` leaves alone: the unreserved characters and, by default, the slash. */
  predicate Safe(c: char) {
    Alphanumeric(c) || c in "_.-~/"
  }

  function HexDigit(d: int): (c: char)
    requires 0 <= d < 16
  {
    if d < 10 then (d + '0' as int) as char else (d - 10 + 'A' as int) as char
  }

  /** The value of a hexadecimal digit of either case; 16 for any other character. */
  function HexValue(c: char): (d: int)
    ensures 0 <= d <= 16
  {
    if '0' <= c <= '9' then c as int - '0' as int
    else if 'A' <= c <= 'F' then c as int - 'A' as int + 10
    else if 'a' <= c <= 'f' then c as int - 'a' as int + 10
    else 16
  }

  function QuoteByte(b: Byte): (s: string)
    ensures s != []
  {
    if b < 0x80 && Safe(b as char) then [b as char] else ['%', HexDigit(b / 16), HexDigit(b % 16)]
  }

  function QuoteBytes(bs: seq<Byte>): string {
    if bs == [] then "" else QuoteByte(bs[0]) + QuoteBytes(bs[1..])
  }

  function Quote(s: string): string {
    QuoteBytes(Encode(s))
  }

  /** `unquote_to_bytes`: an escape gives its byte, anything else its own encoding. */
  function UnquoteBytes(s: string): seq<Byte>
    decreases |s|
  {
    if s == [] then []
    else if s[0] == '%' && |s| >= 3 && HexValue(s[1]) < 16 && HexValue(s[2]) < 16 then
      [HexValue(s[1]) * 16 + HexValue(s[2])] + UnquoteBytes(s[3..])
    else EncodeChar(s[0]) + UnquoteBytes(s[1..])
  }

  function Unquote(s: string): string {
    Decode(UnquoteBytes(s))
  }

  lemma {:induction false} UnquoteQuotedByte(b: Byte, rest: string)
    ensures UnquoteBytes(QuoteByte(b) + rest) == [b] + UnquoteBytes(rest)
  {
    var s := QuoteByte(b) + rest;
    if b < 0x80 && Safe(b as char) {
      assert s[0] == b as char && s[1..] == rest;
    } else {
      assert s[0] == '%' && s[1] == HexDigit(b / 16) && s[2] == HexDigit(b % 16) && s[3..] == rest;
      assert HexValue(HexDigit(b / 16)) == b / 16 && HexValue(HexDigit(b % 16)) == b % 16;
    }
  }

  lemma {:induction false} UnquoteQuotedBytes(bs: seq<Byte>)
    ensures UnquoteBytes(QuoteBytes(bs)) == bs
  {
    if bs != [] {
      UnquoteQuotedByte(bs[0], QuoteBytes(bs[1..]));
      UnquoteQuotedBytes(bs[1..]);
    }
  }

  /** Decoding undoes encoding, for every string. */
  lemma {:induction false} UnquoteQuote(s: string)
    ensures Unquote(Quote(s)) == s
  {
    UnquoteQuotedBytes(Encode(s));
    DecodeEncode(s);
  }

  /** The characters an encoded value can hold: none separates fields, marks a fragment,
      stands for a space or is trimmed. */
  predicate Plain(c: char) {
    Safe(c) || c == '%'
  }

  predicate AllPlain(s: string) {
    forall i | 0 <= i < |s| :: Plain(s[i])
  }

  lemma {:induction false} QuotedBytesPlain(bs: seq<Byte>)
    ensures AllPlain(QuoteBytes(bs))
  {
    if bs != [] { QuotedBytesPlain(bs[1..]); }
  }

  /** An encoded value never contains a separator. */
  lemma {:induction false} QuotedPlain(s: string)
    ensures AllPlain(Quote(s))
    ensures Quote(s) == [] <==> s == []
  {
    QuotedBytesPlain(Encode(s));
  }

  // ---- what an encoded value looks like -------------------------------------------------

  lemma {:induction false} EncodeInOrder(a: string, b: string)
    ensures Encode(a + b) == Encode(a) + Encode(b)
  {
    hide EncodeChar;
    if a == [] {
      assert a + b == b;
    } else {
      assert (a + b)[1..] == a[1..] + b;
      EncodeInOrder(a[1..], b);
    }
  }

  lemma {:induction false} QuoteBytesInOrder(a: seq<Byte>, b: seq<Byte>)
    ensures QuoteBytes(a + b) == QuoteBytes(a) + QuoteBytes(b)
  {
    hide QuoteByte;
    if a == [] {
      assert a + b == b;
    } else {
      assert (a + b)[1..] == a[1..] + b;
      QuoteBytesInOrder(a[1..], b);
    }
  }

  lemma {:induction false} QuoteInOrder(a: string, b: string)
    ensures Quote(a + b) == Quote(a) + Quote(b)
  {
    EncodeInOrder(a, b);
    QuoteBytesInOrder(Encode(a), Encode(b));
  }

  lemma HexDigits(d: int)
    requires 0 <= d < 16
    ensures HexDigit(d) == "0123456789ABCDEF"[d]
  {
    var h := "0123456789ABCDEF";
    assert h[0] == '0' && h[1] == '1' && h[2] == '2' && h[3] == '3' && h[4] == '4' && h[5] == '5' && h[6] == '6';
    assert h[7] == '7' && h[8] == '8' && h[9] == '9' && h[10] == 'A' && h[11] == 'B' && h[12] == 'C';
    assert h[13] == 'D' && h[14] == 'E' && h[15] == 'F';
    assert d == 0 || d == 1 || d == 2 || d == 3 || d == 4 || d == 5 || d == 6 || d == 7
      || d == 8 || d == 9 || d == 10 || d == 11 || d == 12 || d == 13 || d == 14 || d == 15;
  }

  /** Unreserved characters and the slash stand for themselves, any other ASCII character
      is a percent sign and two upper-case hexadecimal digits. */
  lemma {:induction false} QuoteExact(c: char)
    requires c as int < 0x80
    ensures Quote([c]) ==
      if 'a' <= c <= 'z' || 'A' <= c <= 'Z' || '0' <= c <= '9' || c in "_.-~/" then [c]
      else ['%', "0123456789ABCDEF"[c as int / 16], "0123456789ABCDEF"[c as int % 16]]
  {
    QuoteOne(c, [c as int]);
    HexDigits(c as int / 16);
    HexDigits(c as int % 16);
    assert [c as int][1..] == [];
  }

  lemma {:induction false} QuoteSafe(s: string)
    requires forall i | 0 <= i < |s| :: Safe(s[i])
    ensures Quote(s) == s
  {
    if s != [] {
      QuoteInOrder([s[0]], s[1..]);
      QuoteExact(s[0]);
      QuoteSafe(s[1..]);
      assert s == [s[0]] + s[1..];
    }
  }

  lemma {:induction false} QuoteOne(c: char, bs: seq<Byte>)
    requires EncodeChar(c) == bs
    ensures Quote([c]) == QuoteBytes(bs)
  {
    assert [c][1..] == [];
    assert Encode([c]) == bs;
  }

  /** A byte of a longer encoding is always escaped. */
  lemma {:induction false} QuoteHigh(hi: int, lo: int)
    requires 8 <= hi < 16 && 0 <= lo < 16
    ensures QuoteByte(16 * hi + lo) == ['%', "0123456789ABCDEF"[hi], "0123456789ABCDEF"[lo]]
  {
    HexDigits(hi);
    HexDigits(lo);
    assert (16 * hi + lo) / 16 == hi && (16 * hi + lo) % 16 == lo;
  }

  lemma {:induction false} QuoteBytesMore(bs: seq<Byte>, b: Byte)
    ensures QuoteBytes(bs + [b]) == QuoteBytes(bs) + QuoteByte(b)
  {
    hide QuoteByte;
    QuoteBytesInOrder(bs, [b]);
    assert [b][1..] == [];
  }

  /** Two, three and four bytes of UTF-8: an accented e, the euro sign, a smiling face. */
  lemma {:induction false} QuoteAccent()
    ensures Quote(['\U{E9}']) == ['%', 'C', '3'] + ['%', 'A', '9']
  {
    QuoteOne('\U{E9}', [0xC3, 0xA9]);
    hide QuoteByte, QuoteBytes, Quote, EncodeChar;
    QuoteHigh(12, 3);
    QuoteHigh(10, 9);
    Sequence2(0xC3, 0xA9);
  }

  lemma {:induction false} QuoteEuro()
    ensures Quote(['\U{20AC}']) == ['%', 'E', '2'] + ['%', '8', '2'] + ['%', 'A', 'C']
  {
    QuoteOne('\U{20AC}', [0xE2, 0x82, 0xAC]);
    hide QuoteByte, QuoteBytes, Quote, EncodeChar;
    QuoteHigh(14, 2);
    QuoteHigh(8, 2);
    QuoteHigh(10, 12);
    Sequence3(0xE2, 0x82, 0xAC);
  }

  lemma {:induction false} QuoteSmile()
    ensures Quote(['\U{1F600}']) == ['%', 'F', '0'] + ['%', '9', 'F'] + ['%', '9', '8'] + ['%', '8', '0']
  {
    QuoteOne('\U{1F600}', [0xF0, 0x9F, 0x98, 0x80]);
    hide QuoteByte, QuoteBytes, Quote, EncodeChar;
    QuoteHigh(15, 0);
    QuoteHigh(9, 15);
    QuoteHigh(9, 8);
    QuoteHigh(8, 0);
    Sequence4(0xF0, 0x9F, 0x98, 0x80);
  }

  lemma {:induction false} Sequence2(a: Byte, b: Byte)
    ensures QuoteBytes([a, b]) == QuoteByte(a) + QuoteByte(b)
  {
    hide QuoteByte;
    assert [a][1..] == [] && QuoteBytes([a]) == QuoteByte(a);
    QuoteBytesMore([a], b);
    assert [a] + [b] == [a, b];
  }

  lemma {:induction false} Sequence3(a: Byte, b: Byte, c: Byte)
    ensures QuoteBytes([a, b, c]) == QuoteByte(a) + QuoteByte(b) + QuoteByte(c)
  {
    hide QuoteByte, QuoteBytes;
    Sequence2(a, b);
    QuoteBytesMore([a, b], c);
    assert [a, b] + [c] == [a, b, c];
  }

  lemma {:induction false} Sequence4(a: Byte, b: Byte, c: Byte, d: Byte)
    ensures QuoteBytes([a, b, c, d]) == QuoteByte(a) + QuoteByte(b) + QuoteByte(c) + QuoteByte(d)
  {
    hide QuoteByte, QuoteBytes;
    Sequence3(a, b, c);
    QuoteBytesMore([a, b, c], d);
    assert [a, b, c] + [d] == [a, b, c, d];
  }

  lemma {:induction false} UnquoteAfter(bs: seq<Byte>, rest: string)
    ensures UnquoteBytes(QuoteBytes(bs) + rest) == bs + UnquoteBytes(rest)
  {
    hide QuoteByte, UnquoteBytes;
    if bs == [] {
      assert QuoteBytes(bs) + rest == rest;
    } else {
      UnquoteAfter(bs[1..], rest);
      UnquoteQuotedByte(bs[0], QuoteBytes(bs[1..]) + rest);
      assert QuoteBytes(bs) + rest == QuoteByte(bs[0]) + (QuoteBytes(bs[1..]) + rest);
    }
  }

  lemma {:induction false} SpaceFirst(b: string)
    ensures UnquoteBytes(" " + Quote(b)) == Encode(" " + b)
  {
    var text := " " + Quote(b);
    assert text[0] == ' ' && text[1..] == Quote(b);
    assert EncodeChar(' ') == [0x20];
    UnquoteQuotedBytes(Encode(b));
    assert (" " + b)[0] == ' ' && (" " + b)[1..] == b;
  }

  /** A bare space between encoded values is read as a space. */
  lemma {:induction false} SpaceBetween(a: string, b: string)
    ensures Unquote(Quote(a) + " " + Quote(b)) == a + " " + b
  {
    var text := " " + Quote(b);
    assert Quote(a) + " " + Quote(b) == Quote(a) + text;
    UnquoteAfter(Encode(a), text);
    SpaceFirst(b);
    EncodeInOrder(a, " " + b);
    assert a + " " + b == a + (" " + b);
    DecodeEncode(a + " " + b);
  }
}
