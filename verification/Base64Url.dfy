/** base64url without padding (section 5 of RFC 4648), as src/auth/jwt.ts builds it on btoa and atob. */
module Base64Url {
  import opened Wrappers

  newtype byte = b: int | 0 <= b < 256

  type sextet = n: int | 0 <= n < 64

  /** A character of a binary string: U+0000 to U+00FF, one per byte. */
  type latin = c: char | c < '\U{100}' witness '\0'

  // ---- btoa and atob -------------------------------------------------------

  /** The standard alphabet. */
  function ToChar(n: sextet): char
  {
    if n < 26 then 'A' + n as char
    else if n < 52 then 'a' + (n - 26) as char
    else if n < 62 then '0' + (n - 52) as char
    else if n == 62 then '+' else '/'
  }

  function FromChar(c: char): Option<sextet> {
    if 'A' <= c <= 'Z' then Some(c as int - 'A' as int)
    else if 'a' <= c <= 'z' then Some(c as int - 'a' as int + 26)
    else if '0' <= c <= '9' then Some(c as int - '0' as int + 52)
    else if c == '+' then Some(62)
    else if c == '/' then Some(63)
    else None
  }

  function Code(c: latin): (n: int)
    ensures 0 <= n < 256
  {
    c as int
  }

  function S1(a: int): sextet
    requires 0 <= a < 256
  {
    a / 4
  }

  function S2(a: int, b: int): sextet
    requires 0 <= a < 256 && 0 <= b < 256
  {
    a % 4 * 16 + b / 16
  }

  function S3(b: int, c: int): sextet
    requires 0 <= b < 256 && 0 <= c < 256
  {
    b % 16 * 4 + c / 64
  }

  function S4(c: int): sextet
    requires 0 <= c < 256
  {
    c % 64
  }

  /** The three bytes of four sextets, as binary characters. */
  function Octets(w: sextet, x: sextet, y: sextet, z: sextet): (s: seq<latin>)
    ensures |s| == 3
  {
    [O1(w, x), O2(x, y), O3(y, z)]
  }

  function O1(w: sextet, x: sextet): latin {
    Latin(w * 4 + x / 16)
  }

  function O2(x: sextet, y: sextet): latin {
    Latin(x % 16 * 16 + y / 4)
  }

  function O3(y: sextet, z: sextet): latin {
    Latin(y % 4 * 64 + z)
  }

  function Latin(n: int): latin
    requires 0 <= n < 256
  {
    n as char
  }

  /** The sextets of up to three bytes. */
  function Sextets3(p: latin, q: latin, r: latin): (n: seq<sextet>)
    ensures |n| == 4
  {
    [S1(Code(p)), S2(Code(p), Code(q)), S3(Code(q), Code(r)), S4(Code(r))]
  }

  /** The sextets of the last one or two bytes. */
  function LastSextets(s: seq<latin>): (n: seq<sextet>)
    requires 0 < |s| <= 2
    ensures |n| == |s| + 1
  {
    var a := Code(s[0]);
    if |s| == 1 then [S1(a), S2(a, 0)] else
      var b := Code(s[1]);
      [S1(a), S2(a, b), S3(b, 0)]
  }

  /** `btoa`: three bytes to four characters, padded with `=`. */
  function Btoa(s: seq<latin>): string
  {
    if s == [] then ""
    else if |s| <= 2 then Chars(LastSextets(s)) + (if |s| == 1 then "==" else "=")
    else Chars(Sextets3(s[0], s[1], s[2])) + Btoa(s[3..])
  }

  function Chars(n: seq<sextet>): (s: string)
    ensures |s| == |n| && forall i | 0 <= i < |n| :: s[i] == ToChar(n[i])
  {
    seq(|n|, i requires 0 <= i < |n| => ToChar(n[i]))
  }

  predicate IsAsciiSpace(c: char) {
    c == '\t' || c == '\n' || c == '\U{0C}' || c == '\r' || c == ' '
  }

  function DropAsciiSpace(s: string): string {
    if s == "" then ""
    else if IsAsciiSpace(s[0]) then DropAsciiSpace(s[1..])
    else [s[0]] + DropAsciiSpace(s[1..])
  }

  /** Up to two `=` at the end of text whose length is a multiple of four. */
  function DropPadding(s: string): string {
    if |s| % 4 == 0 && |s| > 0 && s[|s| - 1] == '=' then
      if s[|s| - 2] == '=' then s[..|s| - 2] else s[..|s| - 1]
    else s
  }

  function Sextets(s: string): Option<seq<sextet>> {
    if s == "" then Some([]) else
      var n, rest := FromChar(s[0]), Sextets(s[1..]);
      if n.None? || rest.None? then None else Some([n.value] + rest.value)
  }

  function Bytes(n: seq<sextet>): Option<seq<latin>>
  {
    if n == [] then Some([])
    else if |n| == 1 then None
    else if |n| == 2 then Some([O1(n[0], n[1])])
    else if |n| == 3 then Some([O1(n[0], n[1]), O2(n[1], n[2])])
    else
      var rest := Bytes(n[4..]);
      if rest.None? then None else Some(Octets(n[0], n[1], n[2], n[3]) + rest.value)
  }

  /** `atob`: None where it throws. */
  function Atob(text: string): Option<seq<latin>> {
    var n := Sextets(DropPadding(DropAsciiSpace(text)));
    if n.None? then None else Bytes(n.value)
  }

  // ---- The two functions ---------------------------------------------------

  function Replace(s: string, from: char, to: char): (r: string)
    ensures |r| == |s|
    ensures forall i | 0 <= i < |s| :: r[i] == if s[i] == from then to else s[i]
  {
    if s == "" then "" else [if s[0] == from then to else s[0]] + Replace(s[1..], from, to)
  }

  /** `s.replace(/=+$/, '')` */
  function StripTrailingPadding(s: string): string {
    if s != "" && s[|s| - 1] == '=' then StripTrailingPadding(s[..|s| - 1]) else s
  }

  function Binary(data: seq<byte>): (s: seq<latin>)
    ensures |s| == |data|
    ensures forall i | 0 <= i < |data| :: s[i] as int == data[i] as int
  {
    seq(|data|, i requires 0 <= i < |data| => Latin(data[i] as int))
  }

  function Encode(data: seq<byte>): string {
    StripTrailingPadding(Replace(Replace(Btoa(Binary(data)), '+', '-'), '/', '_'))
  }

  function CharCodes(s: seq<latin>): seq<byte> {
    seq(|s|, i requires 0 <= i < |s| => Code(s[i]) as byte)
  }

  function Decode(text: string): Option<seq<byte>> {
    var binary := Atob(Replace(Replace(text, '-', '+'), '_', '/'));
    if binary.None? then None else Some(CharCodes(binary.value))
  }

  method Base64UrlEncode(data: seq<byte>) returns (text: string)
    ensures text == Encode(data)
  {
    var binary: seq<latin> := [];
    for i := 0 to |data|
      invariant binary == Binary(data[..i])
    {
      binary := binary + [Latin(data[i] as int)];
    }
    assert data[..|data|] == data;
    text := StripTrailingPadding(Replace(Replace(Btoa(binary), '+', '-'), '/', '_'));
  }

  method Base64UrlDecode(text: string) returns (data: Option<seq<byte>>)
    ensures data == Decode(text)
  {
    var padded := Replace(Replace(text, '-', '+'), '_', '/');
    var binary := Atob(padded);
    if binary.None? { return None; }
    var bytes := new byte[|binary.value|];
    for i := 0 to |binary.value|
      invariant bytes[..i] == CharCodes(binary.value[..i])
    {
      bytes[i] := Code(binary.value[i]) as byte;
    }
    assert bytes[..] == bytes[..|binary.value|];
    assert binary.value[..|binary.value|] == binary.value;
    data := Some(bytes[..]);
  }

  // ---- Round trip ----------------------------------------------------------

  /** The unpadded encoding in sextets. */
  function Groups(s: seq<latin>): (n: seq<sextet>)
  {
    if s == [] then [] else if |s| <= 2 then LastSextets(s)
    else Sextets3(s[0], s[1], s[2]) + Groups(s[3..])
  }

  lemma Digits16(high: int, low: int)
    requires 0 <= low < 16
    ensures (high * 16 + low) % 16 == low && (high * 16 + low) / 16 == high
  {
  }

  lemma Digits4(high: int, low: int)
    requires 0 <= low < 4
    ensures (high * 4 + low) % 4 == low && (high * 4 + low) / 4 == high
  {
  }

  lemma HighByte(p: int, low: int)
    requires 0 <= p < 256 && 0 <= low < 16
    ensures p / 4 * 4 + (p % 4 * 16 + low) / 16 == p
  {
    Digits16(p % 4, low);
  }

  lemma MiddleByte(high: int, q: int, low: int)
    requires 0 <= q < 256 && 0 <= high < 4 && 0 <= low < 4
    ensures (high * 16 + q / 16) % 16 * 16 + (q % 16 * 4 + low) / 4 == q
  {
    Digits16(high, q / 16);
    Digits4(q % 16, low);
  }

  lemma LowByte(high: int, r: int)
    requires 0 <= r < 256 && 0 <= high < 16
    ensures (high * 4 + r / 64) % 4 * 64 + r % 64 == r
  {
    Digits4(high, r / 64);
  }

  lemma FirstByte(p: latin, b: int)
    requires 0 <= b < 256
    ensures O1(S1(Code(p)), S2(Code(p), b)) == p
  {
    HighByte(Code(p), b / 16);
  }

  lemma SecondByte(a: int, q: latin, c: int)
    requires 0 <= a < 256 && 0 <= c < 256
    ensures O2(S2(a, Code(q)), S3(Code(q), c)) == q
  {
    MiddleByte(a % 4, Code(q), c / 64);
  }

  lemma ThirdByte(b: int, r: latin)
    requires 0 <= b < 256
    ensures O3(S3(b, Code(r)), S4(Code(r))) == r
  {
    LowByte(b % 16, Code(r));
  }

  lemma ThreeBytes(p: latin, q: latin, r: latin)
    ensures var n := Sextets3(p, q, r); Octets(n[0], n[1], n[2], n[3]) == [p, q, r]
  {
    FirstByte(p, Code(q));
    SecondByte(Code(p), q, Code(r));
    ThirdByte(Code(q), r);
  }

  lemma LastRead(s: seq<latin>)
    requires 0 < |s| <= 2
    ensures Bytes(LastSextets(s)) == Some(s)
  {
    if |s| == 1 {
      FirstByte(s[0], 0);
      assert s == [s[0]];
    } else {
      FirstByte(s[0], Code(s[1]));
      SecondByte(Code(s[0]), s[1], 0);
      assert s == [s[0], s[1]];
    }
  }

  lemma BytesStep(n: seq<sextet>, rest: seq<sextet>, s: seq<latin>)
    requires |n| == 4 && Bytes(rest) == Some(s)
    ensures Bytes(n + rest) == Some(Octets(n[0], n[1], n[2], n[3]) + s)
  {
    assert (n + rest)[4..] == rest;
  }

  lemma {:induction false} GroupsRead(s: seq<latin>)
    ensures Bytes(Groups(s)) == Some(s)
    decreases |s|
  {
    if 0 < |s| <= 2 {
      LastRead(s);
    } else if |s| > 2 {
      var p, q, r, tail := s[0], s[1], s[2], s[3..];
      GroupsRead(tail);
      assert s == [p, q, r] + tail;
      ReadStep(p, q, r, tail);
    }
  }

  lemma ReadStep(p: latin, q: latin, r: latin, tail: seq<latin>)
    requires Bytes(Groups(tail)) == Some(tail)
    ensures Bytes(Groups([p, q, r] + tail)) == Some([p, q, r] + tail)
  {
    var s := [p, q, r] + tail;
    assert s[3..] == tail;
    BytesStep(Sextets3(p, q, r), Groups(tail), tail);
    ThreeBytes(p, q, r);
  }

  lemma AlphabetRoundTrip(n: sextet)
    ensures FromChar(ToChar(n)) == Some(n)
    ensures ToChar(n) != '=' && !IsAsciiSpace(ToChar(n)) && ToChar(n) != '.' && ToChar(n) != '-' && ToChar(n) != '_'
  {
  }

  lemma {:induction false} CharsRead(n: seq<sextet>)
    ensures Sextets(Chars(n)) == Some(n)
  {
    if n != [] {
      AlphabetRoundTrip(n[0]);
      CharsRead(n[1..]);
      assert Chars(n)[1..] == Chars(n[1..]);
      assert n == [n[0]] + n[1..];
    }
  }

  /** How many `=` the padded encoding of a length has. */
  function PadCount(n: nat): nat {
    if n % 3 == 0 then 0 else 3 - n % 3
  }

  function Pad(k: nat): (s: string)
    ensures |s| == k && forall i | 0 <= i < k :: s[i] == '='
  {
    if k == 0 then "" else Pad(k - 1) + "="
  }

  lemma {:induction false} BtoaIsPaddedChars(s: seq<latin>)
    ensures Btoa(s) == Chars(Groups(s)) + Pad(PadCount(|s|))
    decreases |s|
  {
    if 0 < |s| <= 2 {
      assert Pad(1) == "=" && Pad(2) == "==";
    } else if |s| > 2 {
      var head, tail, pad := Sextets3(s[0], s[1], s[2]), Groups(s[3..]), Pad(PadCount(|s| - 3));
      BtoaIsPaddedChars(s[3..]);
      CharsAppend(head, tail);
      assert Chars(head) + (Chars(tail) + pad) == Chars(head) + Chars(tail) + pad;
      assert PadCount(|s|) == PadCount(|s| - 3);
    }
  }

  lemma CharsAppend(a: seq<sextet>, b: seq<sextet>)
    ensures Chars(a + b) == Chars(a) + Chars(b)
  {
  }

  lemma {:induction false} StripPad(s: string, k: nat)
    requires s == "" || s[|s| - 1] != '='
    ensures StripTrailingPadding(s + Pad(k)) == s
  {
    if k == 0 {
      assert s + Pad(0) == s;
    } else {
      assert (s + Pad(k))[..|s + Pad(k)| - 1] == s + Pad(k - 1);
      StripPad(s, k - 1);
    }
  }

  /** The URL-safe spelling of a sextet. */
  function UrlChar(n: sextet): char
  {
    if n == 62 then '-' else if n == 63 then '_' else ToChar(n)
  }

  function UrlChars(n: seq<sextet>): (s: string)
    ensures |s| == |n| && forall i | 0 <= i < |n| :: s[i] == UrlChar(n[i])
  {
    seq(|n|, i requires 0 <= i < |n| => UrlChar(n[i]))
  }

  lemma UrlSpelling(n: seq<sextet>)
    ensures Replace(Replace(UrlChars(n), '-', '+'), '_', '/') == Chars(n)
    ensures forall i | 0 <= i < |n| :: UrlChars(n)[i] != '.' && UrlChars(n)[i] != '=' && UrlChars(n)[i] != '+' && UrlChars(n)[i] != '/'
  {
    forall i | 0 <= i < |n|
      ensures Replace(Replace(UrlChars(n), '-', '+'), '_', '/')[i] == Chars(n)[i]
      ensures UrlChars(n)[i] != '.' && UrlChars(n)[i] != '=' && UrlChars(n)[i] != '+' && UrlChars(n)[i] != '/'
    {
      AlphabetRoundTrip(n[i]);
    }
  }

  lemma EncodeIsUrlChars(data: seq<byte>)
    ensures Encode(data) == UrlChars(Groups(Binary(data)))
  {
    var s := Binary(data);
    var n := Groups(s);
    var k := PadCount(|s|);
    BtoaIsPaddedChars(s);
    UrlSpelling(n);
    var spelled := Replace(Replace(Chars(n) + Pad(k), '+', '-'), '/', '_');
    forall i | 0 <= i < |n| ensures spelled[i] == UrlChars(n)[i] {
      AlphabetRoundTrip(n[i]);
    }
    assert spelled == UrlChars(n) + Pad(k);
    StripPad(UrlChars(n), k);
  }

  lemma {:induction false} NoSpaceToDrop(s: string)
    requires forall i | 0 <= i < |s| :: !IsAsciiSpace(s[i])
    ensures DropAsciiSpace(s) == s
  {
    if s != "" {
      NoSpaceToDrop(s[1..]);
      assert s == [s[0]] + s[1..];
    }
  }

  lemma AtobReads(s: seq<latin>)
    ensures Atob(Chars(Groups(s))) == Some(s)
  {
    var n := Groups(s);
    forall i | 0 <= i < |n| ensures !IsAsciiSpace(Chars(n)[i]) && Chars(n)[i] != '=' {
      AlphabetRoundTrip(n[i]);
    }
    NoSpaceToDrop(Chars(n));
    assert DropPadding(Chars(n)) == Chars(n);
    CharsRead(n);
    GroupsRead(s);
  }

  /** Decoding an encoding gives back every byte sequence. */
  lemma RoundTrip(data: seq<byte>)
    ensures Decode(Encode(data)) == Some(data)
  {
    var s := Binary(data);
    EncodeIsUrlChars(data);
    UrlSpelling(Groups(s));
    AtobReads(s);
    assert Replace(Replace(Encode(data), '-', '+'), '_', '/') == Chars(Groups(s));
    CodesOfBinary(data);
  }

  lemma CodesOfBinary(data: seq<byte>)
    ensures CharCodes(Binary(data)) == data
  {
  }

  /** Three bytes and their four sextets are the same 24-bit number, most significant first. */
  lemma SextetsAreBigEndian(p: latin, q: latin, r: latin)
    ensures var n := Sextets3(p, q, r);
            var w: int, x: int, y: int, z: int := n[0], n[1], n[2], n[3];
            ((w * 64 + x) * 64 + y) * 64 + z == (Code(p) * 256 + Code(q)) * 256 + Code(r)
  {
    var a, b, c := Code(p), Code(q), Code(r);
    assert a == a / 4 * 4 + a % 4 && b == b / 16 * 16 + b % 16 && c == c / 64 * 64 + c % 64;
  }

  /** The encoding uses only letters, digits, `-` and `_`; its length is that of section 5 of RFC 4648 without padding. */
  lemma EncodingAlphabet(data: seq<byte>)
    ensures forall c | c in Encode(data) :: 'A' <= c <= 'Z' || 'a' <= c <= 'z' || '0' <= c <= '9' || c == '-' || c == '_'
    ensures |Encode(data)| == (4 * |data| + 2) / 3
  {
    EncodeIsUrlChars(data);
    GroupCount(Binary(data));
    var n := Groups(Binary(data));
    forall c | c in UrlChars(n)
      ensures 'A' <= c <= 'Z' || 'a' <= c <= 'z' || '0' <= c <= '9' || c == '-' || c == '_'
    {
      var i :| 0 <= i < |n| && UrlChars(n)[i] == c;
    }
  }

  lemma {:induction false} GroupCount(s: seq<latin>)
    ensures |Groups(s)| == (4 * |s| + 2) / 3
    decreases |s|
  {
    if |s| > 2 { GroupCount(s[3..]); }
  }

  // ---- The alphabet and the rest of atob -----------------------------------

  /** The URL-safe alphabet by character codes: A to Z, a to z, 0 to 9, `-`, `_`. */
  lemma AlphabetIs(n: sextet)
    ensures UrlChar(n) as int ==
      if n < 26 then 65 + n else if n < 52 then 97 + (n - 26) else if n < 62 then 48 + (n - 52)
      else if n == 62 then 45 else 95
  {
  }

  /** The last one or two bytes are followed by zero bits. */
  lemma LastIsBigEndian(p: latin, q: latin)
    ensures var n := LastSextets([p]);
            var w: int, x: int := n[0], n[1];
            w * 64 + x == Code(p) * 16
    ensures var n := LastSextets([p, q]);
            var w: int, x: int, y: int := n[0], n[1], n[2];
            (w * 64 + x) * 64 + y == (Code(p) * 256 + Code(q)) * 4
    ensures Code(p) == p as int
  {
    var a, b := Code(p), Code(q);
    assert a == a / 4 * 4 + a % 4 && b == b / 16 * 16 + b % 16;
  }

  predicate AsciiBlank(s: string) {
    forall i | 0 <= i < |s| :: s[i] as int == 9 || s[i] as int == 10 || s[i] as int == 12 || s[i] as int == 13 || s[i] as int == 32
  }

  lemma {:induction false} DropAppend(a: string, b: string)
    ensures DropAsciiSpace(a + b) == DropAsciiSpace(a) + DropAsciiSpace(b)
  {
    if a == "" {
      assert a + b == b;
    } else {
      assert (a + b)[1..] == a[1..] + b;
      DropAppend(a[1..], b);
    }
  }

  lemma {:induction false} DropBlank(s: string)
    requires AsciiBlank(s)
    ensures DropAsciiSpace(s) == ""
  {
    if s != "" { DropBlank(s[1..]); }
  }

  lemma BlanksDrop(text: string, cut: nat, blank: string)
    requires cut <= |text| && AsciiBlank(blank) && forall i | 0 <= i < |text| :: !IsAsciiSpace(text[i])
    ensures DropAsciiSpace(text[..cut] + blank + text[cut..]) == text
  {
    DropAppend(text[..cut] + blank, text[cut..]);
    DropAppend(text[..cut], blank);
    DropBlank(blank);
    NoSpaceToDrop(text[..cut]);
    NoSpaceToDrop(text[cut..]);
    assert text[..cut] + "" + text[cut..] == text;
  }

  lemma BtoaHasNoSpace(s: seq<latin>)
    ensures forall i | 0 <= i < |Btoa(s)| :: !IsAsciiSpace(Btoa(s)[i])
  {
    var n := Groups(s);
    BtoaIsPaddedChars(s);
    forall i | 0 <= i < |Btoa(s)| ensures !IsAsciiSpace(Btoa(s)[i]) {
      if i < |n| { AlphabetRoundTrip(n[i]); }
    }
  }

  /** `atob` reads what `btoa` wrote, padding included, whatever blanks stand in it. */
  lemma AtobReadsPadded(s: seq<latin>, cut: nat, blank: string)
    requires cut <= |Btoa(s)| && AsciiBlank(blank)
    ensures Atob(Btoa(s)[..cut] + blank + Btoa(s)[cut..]) == Some(s)
  {
    BtoaHasNoSpace(s);
    BlanksDrop(Btoa(s), cut, blank);
    PaddingDrops(s);
    CharsRead(Groups(s));
    GroupsRead(s);
  }

  lemma PadDrops(body: string, k: nat)
    requires k <= 2 && (|body| + k) % 4 == 0 && (body == "" ==> k == 0) && '=' !in body
    ensures DropPadding(body + Pad(k)) == body
  {
    var text := body + Pad(k);
    if k == 0 {
      assert text == body;
    } else if k == 1 {
      assert text[|text| - 1] == '=' && text[|text| - 2] == body[|body| - 1];
      assert text[..|text| - 1] == body;
    } else {
      assert text[|text| - 1] == '=' && text[|text| - 2] == '=';
      assert text[..|text| - 2] == body;
    }
  }

  lemma PaddingDrops(s: seq<latin>)
    ensures DropPadding(Btoa(s)) == Chars(Groups(s))
  {
    BtoaIsPaddedChars(s);
    GroupCount(s);
    PadFits(|s|);
    NoPadding(Groups(s));
    PadDrops(Chars(Groups(s)), PadCount(|s|));
  }

  lemma PadFits(n: nat)
    ensures ((4 * n + 2) / 3 + PadCount(n)) % 4 == 0 && PadCount(n) <= 2
    ensures (4 * n + 2) / 3 == 0 ==> PadCount(n) == 0
  {
    var q, r := n / 3, n % 3;
    assert n == 3 * q + r;
    assert (4 * n + 2) / 3 == 4 * q + (4 * r + 2) / 3;
  }

  lemma NoPadding(n: seq<sextet>)
    ensures '=' !in Chars(n)
  {
    forall c | c in Chars(n) ensures c != '=' {
      var i :| 0 <= i < |n| && Chars(n)[i] == c;
      AlphabetRoundTrip(n[i]);
    }
  }

  /** A text with a character outside the two alphabets, blanks and padding, or of an impossible length, is refused. */
  lemma {:induction false} ForeignCharacter(s: string, i: nat)
    requires i < |s| && !('A' <= s[i] <= 'Z' || 'a' <= s[i] <= 'z' || '0' <= s[i] <= '9' || s[i] == '+' || s[i] == '/')
    ensures Sextets(s) == None
  {
    if i > 0 { ForeignCharacter(s[1..], i - 1); }
  }

  lemma {:induction false} LoneSextet(n: seq<sextet>)
    requires |n| % 4 == 1
    ensures Bytes(n) == None
    decreases |n|
  {
    if |n| > 1 { LoneSextet(n[4..]); }
  }
}
