/** Nested-encoding detection in app/input_scanner.py: the decode loop, and that it sees
    through every layer of Base64 (section 4 of RFC 4648) put around ASCII text. */
module Encoding {
  import opened Records
  import opened Text
  import opened Policy

  type Byte = b: int | 0 <= b < 256

  // ----- Base64

  /** The alphabet of section 4: value to character. */
  function CharOf(v: int): char
    requires 0 <= v < 64
  {
    if v < 26 then ('A' as int + v) as char
    else if v < 52 then ('a' as int + (v - 26)) as char
    else if v < 62 then ('0' as int + (v - 52)) as char
    else if v == 62 then '+' else '/'
  }

  function ValueOf(c: char): Option<int> {
    if 'A' <= c <= 'Z' then Some(c as int - 'A' as int)
    else if 'a' <= c <= 'z' then Some(c as int - 'a' as int + 26)
    else if '0' <= c <= '9' then Some(c as int - '0' as int + 52)
    else if c == '+' then Some(62)
    else if c == '/' then Some(63)
    else None
  }

  function Quad(a: Byte, b: Byte, c: Byte): string {
    [CharOf(a / 4), CharOf(a % 4 * 16 + b / 16), CharOf(b % 16 * 4 + c / 64), CharOf(c % 64)]
  }

  function Encode(bytes: seq<Byte>): string {
    if bytes == [] then ""
    else if |bytes| == 1 then [CharOf(bytes[0] / 4), CharOf(bytes[0] % 4 * 16), '=', '=']
    else if |bytes| == 2 then
      [CharOf(bytes[0] / 4), CharOf(bytes[0] % 4 * 16 + bytes[1] / 16), CharOf(bytes[1] % 16 * 4), '=']
    else Quad(bytes[0], bytes[1], bytes[2]) + Encode(bytes[3..])
  }

  function FirstByte(v: int, w: int): int { v * 4 + w / 16 }
  function SecondByte(w: int, x: int): int { w % 16 * 16 + x / 4 }
  function ThirdByte(x: int, y: int): int { x % 4 * 64 + y }

  predicate Sextet(o: Option<int>) {
    o.Some? && 0 <= o.value < 64
  }

  /** Decoding of a whole text: quads of alphabet characters, the last of which may end
      in one or two padding characters. */
  function Decode(s: string): Option<seq<Byte>> {
    if s == "" then Some([])
    else if |s| < 4 || !Sextet(ValueOf(s[0])) || !Sextet(ValueOf(s[1])) then None
    else
      var v, w := ValueOf(s[0]).value, ValueOf(s[1]).value;
      if |s| == 4 && s[2] == '=' && s[3] == '=' then Some([FirstByte(v, w)])
      else if !Sextet(ValueOf(s[2])) then None
      else
        var x := ValueOf(s[2]).value;
        if |s| == 4 && s[3] == '=' then Some([FirstByte(v, w), SecondByte(w, x)])
        else if !Sextet(ValueOf(s[3])) then None
        else
          match Decode(s[4..])
          case None => None
          case Some(rest) => Some([FirstByte(v, w), SecondByte(w, x), ThirdByte(x, ValueOf(s[3]).value)] + rest)
  }

  /** A number below 2^24 in four digits. */
  function Digits(n: nat): string
    requires n < 0x100_0000
  {
    [CharOf(n / 262144), CharOf(n / 4096 % 64), CharOf(n / 64 % 64), CharOf(n % 64)]
  }

  lemma DigitsOfSum(v: int, w: int, x: int, y: int)
    requires 0 <= v < 64 && 0 <= w < 64 && 0 <= x < 64 && 0 <= y < 64
    ensures 0 <= v * 262144 + w * 4096 + x * 64 + y < 0x100_0000
    ensures Digits(v * 262144 + w * 4096 + x * 64 + y) == [CharOf(v), CharOf(w), CharOf(x), CharOf(y)]
  {
    var n := v * 262144 + w * 4096 + x * 64 + y;
    assert n % 64 == y && n / 64 == v * 4096 + w * 64 + x;
    assert n / 64 % 64 == x && n / 4096 == v * 64 + w;
    assert n / 4096 % 64 == w && n / 262144 == v;
  }

  lemma SplitBytes(a: Byte, b: Byte, c: Byte)
    ensures a * 65536 + b * 256 + c
            == a / 4 * 262144 + (a % 4 * 16 + b / 16) * 4096 + (b % 16 * 4 + c / 64) * 64 + c % 64
  {
    assert a == a / 4 * 4 + a % 4 && b == b / 16 * 16 + b % 16 && c == c / 64 * 64 + c % 64;
  }

  /** The four characters are the base-64 digits of the number whose base-256 digits are
      the three bytes. */
  lemma QuadDigits(a: Byte, b: Byte, c: Byte)
    ensures Quad(a, b, c) == Digits(a * 65536 + b * 256 + c)
  {
    SplitBytes(a, b, c);
    DigitsOfSum(a / 4, a % 4 * 16 + b / 16, b % 16 * 4 + c / 64, c % 64);
  }

  /** Missing bytes count as 0, and padding stands for the digits they leave unused. */
  lemma OneByteDigits(a: Byte)
    ensures Encode([a]) == Digits(a * 65536)[..2] + "=="
  {
    QuadDigits(a, 0, 0);
  }

  lemma TwoByteDigits(a: Byte, b: Byte)
    ensures Encode([a, b]) == Digits(a * 65536 + b * 256)[..3] + "="
  {
    QuadDigits(a, b, 0);
  }

  /** Test vectors of section 10, and one for the last two characters of the alphabet. */
  lemma SectionTenVectors()
    ensures Encode([0x66]) == "Zg==" && Encode([0x66, 0x6F]) == "Zm8=" && Encode([0x66, 0x6F, 0x6F]) == "Zm9v"
    ensures Encode([0x66, 0x6F, 0x6F, 0x62, 0x61, 0x72]) == "Zm9vYmFy"
    ensures Encode([0xFB, 0xFF, 0xBF]) == "+/+/"
  {
    assert [0x66, 0x6F, 0x6F, 0x62, 0x61, 0x72][3..] == [0x62, 0x61, 0x72];
  }

  lemma CharRoundTrip(v: int)
    requires 0 <= v < 64
    ensures ValueOf(CharOf(v)) == Some(v) && CharOf(v) != '=' && !IsSpace(CharOf(v)) && CharOf(v) as int < 128
  {
  }

  lemma QuadRoundTrip(a: Byte, b: Byte, c: Byte)
    ensures FirstByte(a / 4, a % 4 * 16 + b / 16) == a
    ensures SecondByte(a % 4 * 16 + b / 16, b % 16 * 4 + c / 64) == b
    ensures ThirdByte(b % 16 * 4 + c / 64, c % 64) == c
  {
  }

  /** A quad of alphabet characters in front of a text decodes to three bytes. */
  lemma DecodeQuad(v: int, w: int, x: int, y: int, tail: string)
    requires 0 <= v < 64 && 0 <= w < 64 && 0 <= x < 64 && 0 <= y < 64
    ensures Decode([CharOf(v), CharOf(w), CharOf(x), CharOf(y)] + tail)
         == match Decode(tail)
            case None => None
            case Some(rest) => Some([FirstByte(v, w), SecondByte(w, x), ThirdByte(x, y)] + rest)
  {
    CharRoundTrip(v);
    CharRoundTrip(w);
    CharRoundTrip(x);
    CharRoundTrip(y);
    var s := [CharOf(v), CharOf(w), CharOf(x), CharOf(y)] + tail;
    assert s[4..] == tail;
  }

  lemma DecodeBytes(a: Byte, b: Byte, c: Byte, tail: string, rest: seq<Byte>)
    requires Decode(tail) == Some(rest)
    ensures Decode(Quad(a, b, c) + tail) == Some([a, b, c] + rest)
  {
    QuadRoundTrip(a, b, c);
    DecodeQuad(a / 4, a % 4 * 16 + b / 16, b % 16 * 4 + c / 64, c % 64, tail);
  }

  lemma DecodeOnePadded(v: int, w: int)
    requires 0 <= v < 64 && 0 <= w < 64
    ensures Decode([CharOf(v), CharOf(w), '=', '=']) == Some([FirstByte(v, w)])
  {
    CharRoundTrip(v);
    CharRoundTrip(w);
  }

  lemma DecodeTwoPadded(v: int, w: int, x: int)
    requires 0 <= v < 64 && 0 <= w < 64 && 0 <= x < 64
    ensures Decode([CharOf(v), CharOf(w), CharOf(x), '=']) == Some([FirstByte(v, w), SecondByte(w, x)])
  {
    CharRoundTrip(v);
    CharRoundTrip(w);
    CharRoundTrip(x);
  }

  lemma OneRoundTrip(a: Byte)
    ensures Decode(Encode([a])) == Some([a])
  {
    QuadRoundTrip(a, 0, 0);
    DecodeOnePadded(a / 4, a % 4 * 16);
    assert Encode([a]) == [CharOf(a / 4), CharOf(a % 4 * 16), '=', '='];
  }

  lemma TwoRoundTrip(a: Byte, b: Byte)
    ensures Decode(Encode([a, b])) == Some([a, b])
  {
    QuadRoundTrip(a, b, 0);
    DecodeTwoPadded(a / 4, a % 4 * 16 + b / 16, b % 16 * 4);
    assert Encode([a, b]) == [CharOf(a / 4), CharOf(a % 4 * 16 + b / 16), CharOf(b % 16 * 4), '='];
  }

  lemma EncodeQuad(bytes: seq<Byte>)
    requires |bytes| > 2
    ensures Encode(bytes) == Quad(bytes[0], bytes[1], bytes[2]) + Encode(bytes[3..])
  {
  }

  /** Decoding undoes encoding, for every byte sequence. */
  lemma {:induction false} Base64RoundTrip(bytes: seq<Byte>)
    ensures Decode(Encode(bytes)) == Some(bytes)
  {
    if |bytes| == 0 {
    } else if |bytes| == 1 {
      assert bytes == [bytes[0]];
      OneRoundTrip(bytes[0]);
    } else if |bytes| == 2 {
      assert bytes == [bytes[0], bytes[1]];
      TwoRoundTrip(bytes[0], bytes[1]);
    } else {
      Base64RoundTrip(bytes[3..]);
      EncodeQuad(bytes);
      DecodeBytes(bytes[0], bytes[1], bytes[2], Encode(bytes[3..]), bytes[3..]);
      assert bytes == [bytes[0], bytes[1], bytes[2]] + bytes[3..];
    }
  }

  predicate Ascii(s: string) {
    forall i | 0 <= i < |s| :: s[i] as int < 128
  }

  predicate NoSpaces(s: string) {
    forall i | 0 <= i < |s| :: !IsSpace(s[i])
  }

  /** A text of alphabet and padding characters. */
  predicate Encodes(s: string) {
    forall i | 0 <= i < |s| :: s[i] == '=' || ValueOf(s[i]).Some?
  }

  lemma EncodesIsPlain(s: string)
    requires Encodes(s)
    ensures Ascii(s) && NoSpaces(s)
  {
  }

  /** Encoded text uses the alphabet only, and is longer than what it encodes. */
  lemma {:induction false} EncodedShape(bytes: seq<Byte>)
    ensures Encodes(Encode(bytes))
    ensures |bytes| <= |Encode(bytes)| && (bytes != [] ==> |bytes| < |Encode(bytes)|)
  {
    if |bytes| == 1 {
      CharRoundTrip(bytes[0] / 4);
      CharRoundTrip(bytes[0] % 4 * 16);
    } else if |bytes| == 2 {
      CharRoundTrip(bytes[0] / 4);
      CharRoundTrip(bytes[0] % 4 * 16 + bytes[1] / 16);
      CharRoundTrip(bytes[1] % 16 * 4);
    } else if |bytes| > 2 {
      EncodedShape(bytes[3..]);
      QuadEncodes(bytes[0], bytes[1], bytes[2]);
    }
  }

  lemma QuadEncodes(a: Byte, b: Byte, c: Byte)
    ensures Encodes(Quad(a, b, c))
  {
    CharRoundTrip(a / 4);
    CharRoundTrip(a % 4 * 16 + b / 16);
    CharRoundTrip(b % 16 * 4 + c / 64);
    CharRoundTrip(c % 64);
  }

  /** The bytes of an ASCII text. */
  function BytesOf(s: string): (r: seq<Byte>)
    requires Ascii(s)
    ensures |r| == |s|
  {
    if s == "" then [] else [s[0] as int] + BytesOf(s[1..])
  }

  /** Base64 of an ASCII text. */
  function EncodeText(s: string): (r: string)
    requires Ascii(s)
    ensures Ascii(r)
  {
    EncodedShape(BytesOf(s));
    EncodesIsPlain(Encode(BytesOf(s)));
    Encode(BytesOf(s))
  }

  /** ASCII text under k layers of Base64. */
  function Layers(s: string, k: nat): (r: string)
    requires Ascii(s)
    ensures Ascii(r)
  {
    if k == 0 then s else EncodeText(Layers(s, k - 1))
  }

  // ----- the decode loop

  /** The decoders the loop tries. Hexadecimal is left open, and so is Base64 on texts
      that are not in the standard form. */
  datatype Decoders = Decoders(base64: string -> Option<seq<Byte>>, hex: string -> Option<seq<Byte>>,
                               utf8: seq<Byte> -> string)

  ghost predicate DecodersOk(d: Decoders) {
    && (forall s | Decode(s).Some? :: d.base64(s) == Decode(s))
    && (forall s | Ascii(s) :: d.utf8(BytesOf(s)) == s)
  }

  function Accept(decoded: string, current: string): Option<string> {
    if decoded != current && |decoded| > 10 then Some(Strip(decoded)) else None
  }

  /** One round: what remains when a layer comes off, if one does. */
  function Peel(d: Decoders, current: string): Option<string> {
    var viaBase64 := if d.base64(current).Some? then Accept(d.utf8(d.base64(current).value), current) else None;
    if viaBase64.Some? then viaBase64
    else if d.hex(current).Some? then Accept(d.utf8(d.hex(current).value), current)
    else None
  }

  function Depth(d: Decoders, current: string, rounds: nat): (depth: nat)
    ensures depth <= rounds
    decreases rounds
  {
    if rounds == 0 then 0
    else match Peel(d, current)
      case None => 0
      case Some(next) => 1 + Depth(d, next, rounds - 1)
  }

  method DetectNestedEncoding(d: Decoders, text: string, maxDepth: nat) returns (depth: nat)
    ensures depth == Depth(d, Strip(text), maxDepth) <= maxDepth
  {
    depth := 0;
    var current := Strip(text);
    for round := 0 to maxDepth
      invariant depth == round
      invariant Depth(d, Strip(text), maxDepth) == depth + Depth(d, current, maxDepth - round)
    {
      var next := Peel(d, current);
      if next.None? {
        return;
      }
      depth := depth + 1;
      current := next.value;
    }
  }

  lemma NoSpacesStripped(s: string)
    requires NoSpaces(s)
    ensures Strip(s) == s
  {
    StripFixed(s);
  }

  /** The text `outer` is one layer of Base64 around `inner`. */
  ghost predicate Wraps(d: Decoders, outer: string, inner: string) {
    && d.base64(outer).Some? && d.utf8(d.base64(outer).value) == inner
    && NoSpaces(outer) && |inner| < |outer|
  }

  lemma EncodeTextWraps(d: Decoders, s: string)
    requires DecodersOk(d) && Ascii(s) && s != ""
    ensures Wraps(d, EncodeText(s), s)
  {
    var bytes := BytesOf(s);
    Base64RoundTrip(bytes);
    EncodedShape(bytes);
    EncodesIsPlain(Encode(bytes));
    assert d.base64(Encode(bytes)) == Some(bytes);
    assert d.utf8(bytes) == s;
  }

  /** Peeling takes one layer off, if more than ten characters lie below it. */
  lemma PeelWrap(d: Decoders, outer: string, inner: string)
    requires Wraps(d, outer, inner) && |inner| > 10
    ensures Strip(outer) == outer && Peel(d, outer) == Some(Strip(inner))
  {
    NoSpacesStripped(outer);
  }

  /** A chain of texts, each a layer around the one before. */
  ghost predicate Chain(d: Decoders, texts: seq<string>) {
    && texts != [] && |texts[0]| > 10
    && forall i | 0 < i < |texts| :: Wraps(d, texts[i], texts[i - 1])
  }

  lemma {:induction false} ChainCounted(d: Decoders, texts: seq<string>, inner: string, outer: string, k: nat,
                                        rounds: nat)
    requires Chain(d, texts) && |texts| == k + 1 && texts[0] == inner && texts[k] == outer
    ensures |outer| > 10
    ensures Depth(d, Strip(outer), rounds) == if rounds <= k then rounds else k + Depth(d, Strip(inner), rounds - k)
    decreases k
  {
    if k > 0 {
      assert Wraps(d, texts[k], texts[k - 1]);
      ChainCounted(d, texts[..k], inner, texts[k - 1], k - 1, if rounds > 0 then rounds - 1 else 0);
      PeelWrap(d, texts[k], texts[k - 1]);
    }
  }

  /** The texts of 0 to k layers. */
  function Tower(s: string, k: nat): (r: seq<string>)
    requires Ascii(s)
    ensures |r| == k + 1 && r[0] == s && r[k] == Layers(s, k)
  {
    if k == 0 then [s] else Tower(s, k - 1) + [Layers(s, k)]
  }

  lemma {:induction false} TowerIsChain(d: Decoders, s: string, k: nat)
    requires DecodersOk(d) && Ascii(s) && |s| > 10
    ensures Chain(d, Tower(s, k)) && |Layers(s, k)| > 10
  {
    if k > 0 {
      TowerIsChain(d, s, k - 1);
      EncodeTextWraps(d, Layers(s, k - 1));
      var lower, t := Tower(s, k - 1), Tower(s, k);
      forall i | 0 < i < |t|
        ensures Wraps(d, t[i], t[i - 1])
      {
        if i < k {
          assert t[i] == lower[i] && t[i - 1] == lower[i - 1];
        }
      }
    }
  }

  /** k layers of Base64 around ASCII text longer than ten characters count as k, or as the
      number of rounds if that is less; after them the text itself is looked at. */
  lemma LayersCounted(d: Decoders, s: string, k: nat, rounds: nat)
    requires DecodersOk(d) && Ascii(s) && |s| > 10
    ensures Depth(d, Strip(Layers(s, k)), rounds) == if rounds <= k then rounds else k + Depth(d, Strip(s), rounds - k)
  {
    TowerIsChain(d, s, k);
    ChainCounted(d, Tower(s, k), s, Layers(s, k), k, rounds);
  }

  // ----- what a depth means, in terms of the decoders

  /** A decoder gives nothing new: it fails, or gives the text itself or at most ten
      characters. */
  predicate Idle(d: Decoders, decoded: Option<seq<Byte>>, text: string) {
    decoded.None? || d.utf8(decoded.value) == text || |d.utf8(decoded.value)| <= 10
  }

  /** Neither decoder gives anything new. */
  predicate Bare(d: Decoders, text: string) {
    Idle(d, d.base64(text), text) && Idle(d, d.hex(text), text)
  }

  /** One round takes text to next: what Base64 gives, or else what hexadecimal gives,
      stripped. */
  predicate Removes(d: Decoders, text: string, next: string) {
    || (!Idle(d, d.base64(text), text) && next == Strip(d.utf8(d.base64(text).value)))
    || (Idle(d, d.base64(text), text) && !Idle(d, d.hex(text), text) && next == Strip(d.utf8(d.hex(text).value)))
  }

  /** From a text, one round after the other, until nothing new comes or the rounds are
      used up. */
  predicate Unwraps(d: Decoders, text: string, rounds: nat, texts: seq<string>) {
    && texts != [] && texts[0] == text && |texts| <= rounds + 1
    && (forall i | 0 <= i < |texts| - 1 :: Removes(d, texts[i], texts[i + 1]))
    && (|texts| == rounds + 1 || Bare(d, texts[|texts| - 1]))
  }

  lemma PeelIsRemoval(d: Decoders, text: string)
    ensures Peel(d, text).None? <==> Bare(d, text)
    ensures forall next :: Removes(d, text, next) <==> Peel(d, text) == Some(next)
  {
  }

  lemma {:induction false} Unwrapped(d: Decoders, text: string, rounds: nat) returns (texts: seq<string>)
    ensures Unwraps(d, text, rounds, texts)
    decreases rounds
  {
    PeelIsRemoval(d, text);
    if rounds == 0 || Peel(d, text).None? {
      texts := [text];
    } else {
      var rest := Unwrapped(d, Peel(d, text).value, rounds - 1);
      texts := [text] + rest;
    }
  }

  lemma {:induction false} UnwrappedDepth(d: Decoders, text: string, rounds: nat, texts: seq<string>)
    requires Unwraps(d, text, rounds, texts)
    ensures Depth(d, text, rounds) == |texts| - 1
    decreases rounds
  {
    PeelIsRemoval(d, text);
    if |texts| > 1 {
      assert Removes(d, texts[0], texts[1]);
      assert forall i | 0 <= i < |texts| - 1 :: texts[1..][i] == texts[i + 1];
      UnwrappedDepth(d, texts[1], rounds - 1, texts[1..]);
    }
  }

  /** The depth is n if and only if n removals lead from the text to one that no decoder
      makes anything new of, or use up the rounds. */
  lemma DepthExactly(d: Decoders, text: string, rounds: nat, n: nat)
    ensures Depth(d, text, rounds) == n <==> exists texts :: |texts| == n + 1 && Unwraps(d, text, rounds, texts)
  {
    var texts := Unwrapped(d, text, rounds);
    UnwrappedDepth(d, text, rounds, texts);
    forall other | Unwraps(d, text, rounds, other)
      ensures |other| == |texts|
    {
      UnwrappedDepth(d, text, rounds, other);
    }
  }

  /** Nothing else is counted: around a text that no decoder makes anything new of, k
      layers have depth k, up to the rounds. */
  lemma BareLayersCounted(d: Decoders, s: string, k: nat, rounds: nat)
    requires DecodersOk(d) && Ascii(s) && |s| > 10 && Bare(d, Strip(s))
    ensures Depth(d, Strip(Layers(s, k)), rounds) == if rounds <= k then rounds else k
  {
    LayersCounted(d, s, k, rounds);
    PeelIsRemoval(d, Strip(s));
  }

  // ----- the scan

  /** The remaining pattern families of one message, left open: labels and a score. */
  type Families = string -> (set<ScanLabel>, nat)

  function MessageLabels(d: Decoders, rest: Families, text: string): set<ScanLabel> {
    (if Depth(d, Strip(text), 3) >= 2 then {Obfuscation} else {}) + rest(text).0
  }

  function MessageScore(d: Decoders, rest: Families, text: string): nat {
    (if Depth(d, Strip(text), 3) >= 2 then 20 else 0) + rest(text).1
  }

  function AllLabels(d: Decoders, rest: Families, messages: seq<string>): set<ScanLabel> {
    if messages == [] then {}
    else AllLabels(d, rest, messages[..|messages| - 1]) + MessageLabels(d, rest, messages[|messages| - 1])
  }

  function TotalScore(d: Decoders, rest: Families, messages: seq<string>): nat {
    if messages == [] then 0
    else TotalScore(d, rest, messages[..|messages| - 1]) + MessageScore(d, rest, messages[|messages| - 1])
  }

  method ScanMessages(d: Decoders, rest: Families, messages: seq<string>) returns (scan: Scan)
    ensures scan.labels == AllLabels(d, rest, messages)
    ensures scan.score == if TotalScore(d, rest, messages) < 100 then TotalScore(d, rest, messages) else 100
  {
    var labels: set<ScanLabel> := {};
    var score := 0;
    for i := 0 to |messages|
      invariant labels == AllLabels(d, rest, messages[..i])
      invariant score == TotalScore(d, rest, messages[..i])
    {
      assert messages[..i + 1][..i] == messages[..i];
      var depth := DetectNestedEncoding(d, messages[i], 3);
      if depth >= 2 {
        labels := labels + {Obfuscation};
        score := score + 20;
      }
      var (more, points) := rest(messages[i]);
      labels := labels + more;
      score := score + points;
    }
    assert messages[..|messages|] == messages;
    scan := Scan(if score < 100 then score else 100, labels);
  }

  /** Two rounds each remove a layer from a message. */
  ghost predicate TwoLayers(d: Decoders, message: string) {
    exists once, twice :: Removes(d, Strip(message), once) && Removes(d, once, twice)
  }

  lemma DepthTwo(d: Decoders, text: string)
    ensures Depth(d, text, 3) >= 2 <==> exists once, twice :: Removes(d, text, once) && Removes(d, once, twice)
  {
    PeelIsRemoval(d, text);
    if Peel(d, text).Some? {
      var once := Peel(d, text).value;
      PeelIsRemoval(d, once);
      assert Depth(d, text, 3) == 1 + Depth(d, once, 2);
      assert Removes(d, text, once);
      assert Depth(d, once, 2) >= 1 <==> Peel(d, once).Some?;
    }
  }

  /** The messages that two rounds unwrap. */
  ghost function Wrapped(d: Decoders, messages: seq<string>): set<nat> {
    set i: nat | 0 <= i < |messages| && TwoLayers(d, messages[i])
  }

  function RestScore(rest: Families, messages: seq<string>): nat {
    if messages == [] then 0 else RestScore(rest, messages[..|messages| - 1]) + rest(messages[|messages| - 1]).1
  }

  lemma WrappedLast(d: Decoders, messages: seq<string>)
    requires messages != []
    ensures var n := |messages| - 1;
            && (forall i | i in Wrapped(d, messages[..n]) :: i < n)
            && Wrapped(d, messages) == Wrapped(d, messages[..n]) + if TwoLayers(d, messages[n]) then {n} else {}
  {
    assert forall i | 0 <= i < |messages| - 1 :: messages[..|messages| - 1][i] == messages[i];
  }

  /** A label comes from some message's patterns, or is the obfuscation label and some
      message unwraps twice. */
  ghost predicate LabelledBy(d: Decoders, rest: Families, message: string, l: ScanLabel) {
    l in rest(message).0 || (l == Obfuscation && TwoLayers(d, message))
  }

  lemma MessageLabelled(d: Decoders, rest: Families, message: string, l: ScanLabel)
    ensures l in MessageLabels(d, rest, message) <==> LabelledBy(d, rest, message, l)
  {
    DepthTwo(d, Strip(message));
  }

  lemma {:induction false} LabelsExactly(d: Decoders, rest: Families, messages: seq<string>, l: ScanLabel)
    ensures l in AllLabels(d, rest, messages) <==>
              exists i | 0 <= i < |messages| :: LabelledBy(d, rest, messages[i], l)
  {
    if messages != [] {
      var n := |messages| - 1;
      LabelsExactly(d, rest, messages[..n], l);
      MessageLabelled(d, rest, messages[n], l);
      assert forall i | 0 <= i < n :: messages[..n][i] == messages[i];
    }
  }

  lemma {:induction false} ScoreExactly(d: Decoders, rest: Families, messages: seq<string>)
    ensures TotalScore(d, rest, messages) == RestScore(rest, messages) + 20 * |Wrapped(d, messages)|
  {
    if messages == [] {
      assert Wrapped(d, messages) == {};
    } else {
      var n := |messages| - 1;
      ScoreExactly(d, rest, messages[..n]);
      DepthTwo(d, Strip(messages[n]));
      WrappedLast(d, messages);
      assert MessageScore(d, rest, messages[n])
             == rest(messages[n]).1 + if TwoLayers(d, messages[n]) then 20 else 0;
    }
  }

  /** Nested encoding adds its label, and 20 points a message, exactly for the messages from
      which two rounds each remove a layer. */
  lemma ScanExactly(d: Decoders, rest: Families, messages: seq<string>, l: ScanLabel)
    ensures l in AllLabels(d, rest, messages) <==>
              exists i | 0 <= i < |messages| :: LabelledBy(d, rest, messages[i], l)
    ensures TotalScore(d, rest, messages) == RestScore(rest, messages) + 20 * |Wrapped(d, messages)|
  {
    LabelsExactly(d, rest, messages, l);
    ScoreExactly(d, rest, messages);
  }

  /** Two or more layers of Base64 around any ASCII text longer than ten characters, in
      any message, always bring the obfuscation label and at least 20 points. */
  lemma {:induction false} LayeredMessageIsObfuscation(d: Decoders, rest: Families, messages: seq<string>, i: nat,
                                                       s: string, k: nat)
    requires DecodersOk(d) && i < |messages| && Ascii(s) && |s| > 10 && 2 <= k
    requires messages[i] == Layers(s, k)
    ensures Obfuscation in AllLabels(d, rest, messages) && TotalScore(d, rest, messages) >= 20
  {
    if i == |messages| - 1 {
      LayersCounted(d, s, k, 3);
    } else {
      LayeredMessageIsObfuscation(d, rest, messages[..|messages| - 1], i, s, k);
    }
  }
}
