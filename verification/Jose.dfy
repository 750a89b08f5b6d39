/** Compact serializations of JWS and JWE, split into fields and joined again. */
module Jose {
  import opened Wrappers
  import opened Hex

  datatype JwsBody = JwsBody(header: string, payload: string, signature: string)

  datatype JweBody = JweBody(header: string, iv: string, encryptedPayload: string, tag: string, encryptedKey: string)

  // ----- dotted strings -----

  function Dots(s: string): nat {
    if s == "" then 0 else (if s[0] == '.' then 1 else 0) + Dots(s[1..])
  }

  predicate DotFree(s: string) {
    '.' !in s
  }

  // The parts between the dots, one more than there are dots.
  function Split(s: string): (parts: seq<string>)
    ensures |parts| >= 1
  {
    if s == "" then [""]
    else if s[0] == '.' then [""] + Split(s[1..])
    else
      var rest := Split(s[1..]);
      [[s[0]] + rest[0]] + rest[1..]
  }

  function Join(parts: seq<string>): string
    requires |parts| >= 1
  {
    if |parts| == 1 then parts[0] else parts[0] + "." + Join(parts[1..])
  }

  lemma {:induction false} SplitParts(s: string)
    ensures |Split(s)| == Dots(s) + 1 && forall p :: p in Split(s) ==> DotFree(p)
  {
    if s != "" {
      SplitParts(s[1..]);
      assert forall p :: p in Split(s)[1..] ==> p in Split(s[1..]);
      assert Split(s[1..])[0] in Split(s[1..]);
    }
  }

  lemma {:induction false} JoinSplit(s: string)
    ensures Join(Split(s)) == s
  {
    if s != "" {
      JoinSplit(s[1..]);
      var rest := Split(s[1..]);
      if s[0] == '.' {
        assert Split(s)[1..] == rest;
        assert Join(Split(s)) == "." + s[1..];
      } else {
        assert Split(s)[1..] == rest[1..];
        assert Join(Split(s)) == [s[0]] + Join(rest);
      }
    }
  }

  lemma {:induction false} SplitField(p: string, s: string)
    requires DotFree(p)
    ensures Split(p) == [p]
    ensures Split(p + "." + s) == [p] + Split(s)
  {
    var t := p + "." + s;
    if p == "" {
      assert t[1..] == s;
    } else {
      assert t[1..] == p[1..] + "." + s;
      assert forall c :: c in p[1..] ==> c in p;
      SplitField(p[1..], s);
      assert [p[0]] + p[1..] == p;
      assert Split(t) == [[p[0]] + Split(t[1..])[0]] + Split(t[1..])[1..];
    }
  }

  lemma {:induction false} SplitJoin(parts: seq<string>)
    requires |parts| >= 1 && forall p :: p in parts ==> DotFree(p)
    ensures Split(Join(parts)) == parts
  {
    if |parts| == 1 {
      SplitField(parts[0], "");
    } else {
      SplitJoin(parts[1..]);
      SplitField(parts[0], Join(parts[1..]));
    }
  }

  lemma {:induction false} JoinConcat(a: seq<string>, b: seq<string>)
    requires |a| >= 1 && |b| >= 1
    ensures Join(a + b) == Join(a) + "." + Join(b)
  {
    if |a| == 1 {
      assert (a + b)[1..] == b;
    } else {
      JoinConcat(a[1..], b);
      assert (a + b)[1..] == a[1..] + b;
      assert Join(a + b) == a[0] + "." + (Join(a[1..]) + "." + Join(b));
    }
  }

  // ----- the two forms -----

  function DottedJws(b: JwsBody): string {
    b.header + "." + b.payload + "." + b.signature
  }

  function DottedJwe(b: JweBody): string {
    b.header + "." + b.encryptedKey + "." + b.iv + "." + b.encryptedPayload + "." + b.tag
  }

  function JwsParts(b: JwsBody): seq<string> {
    [b.header, b.payload, b.signature]
  }

  function JweParts(b: JweBody): seq<string> {
    [b.header, b.encryptedKey, b.iv, b.encryptedPayload, b.tag]
  }

  lemma JwsJoined(b: JwsBody)
    ensures Join(JwsParts(b)) == DottedJws(b)
  {
    var p := JwsParts(b);
    var q := [b.payload, b.signature];
    assert p[1..] == q && q[1..] == [b.signature];
    assert Join(q) == b.payload + "." + b.signature;
  }

  lemma JweJoined(b: JweBody)
    ensures Join(JweParts(b)) == DottedJwe(b)
  {
    var p := JweParts(b);
    var q := [b.encryptedKey, b.iv, b.encryptedPayload, b.tag];
    var r := [b.iv, b.encryptedPayload, b.tag];
    var t := [b.encryptedPayload, b.tag];
    assert p[1..] == q && q[1..] == r && r[1..] == t && t[1..] == [b.tag];
    assert Join(t) == b.encryptedPayload + "." + b.tag;
    assert Join(r) == b.iv + "." + Join(t);
    assert Join(q) == b.encryptedKey + "." + Join(r);
  }

  function ParsedJws(s: string): Option<JwsBody> {
    var p := Split(s);
    if |p| < 3 then None else Some(JwsBody(p[0], p[1], p[2]))
  }

  function ParsedJwe(s: string): Option<JweBody> {
    var p := Split(s);
    if |p| < 5 then None else Some(JweBody(p[0], p[2], p[3], p[4], p[1]))
  }

  // The parts as they are drawn, one at a time.
  class Parts {
    var rest: seq<string>

    constructor (input: string)
      ensures rest == Split(input)
    {
      rest := Split(input);
    }

    method Next() returns (part: Option<string>)
      modifies this
      ensures part == if old(rest) == [] then None else Some(old(rest)[0])
      ensures rest == if old(rest) == [] then [] else old(rest)[1..]
    {
      if rest == [] { return None; }
      part := Some(rest[0]);
      rest := rest[1..];
    }
  }

  method JwsFromDottedStr(input: string) returns (r: Option<JwsBody>)
    ensures r == ParsedJws(input)
    ensures r.None? <==> Dots(input) < 2
  {
    SplitParts(input);
    var data := new Parts(input);
    var header := data.Next();
    if header.None? { return None; }
    var payload := data.Next();
    if payload.None? { return None; }
    var signature := data.Next();
    if signature.None? { return None; }
    r := Some(JwsBody(header.value, payload.value, signature.value));
  }

  method JweFromStr(input: string) returns (r: Option<JweBody>)
    ensures r == ParsedJwe(input)
    ensures r.None? <==> Dots(input) < 4
  {
    SplitParts(input);
    var data := new Parts(input);
    var header := data.Next();
    if header.None? { return None; }
    var encryptedKey := data.Next();
    if encryptedKey.None? { return None; }
    var iv := data.Next();
    if iv.None? { return None; }
    var encryptedPayload := data.Next();
    if encryptedPayload.None? { return None; }
    var tag := data.Next();
    if tag.None? { return None; }
    r := Some(JweBody(header.value, iv.value, encryptedPayload.value, tag.value, encryptedKey.value));
  }

  // ----- round trips -----

  // A body survives the trip exactly when none of its fields holds a dot.
  lemma JwsBodyRoundTrip(b: JwsBody)
    ensures ParsedJws(DottedJws(b)) == Some(b) <==> forall p :: p in JwsParts(b) ==> DotFree(p)
  {
    JwsJoined(b);
    SplitParts(DottedJws(b));
    if forall p :: p in JwsParts(b) ==> DotFree(p) { SplitJoin(JwsParts(b)); }
    if ParsedJws(DottedJws(b)) == Some(b) {
      var q := Split(DottedJws(b));
      assert q[0] in q && q[1] in q && q[2] in q;
    }
  }

  lemma JweBodyRoundTrip(b: JweBody)
    ensures ParsedJwe(DottedJwe(b)) == Some(b) <==> forall p :: p in JweParts(b) ==> DotFree(p)
  {
    JweJoined(b);
    SplitParts(DottedJwe(b));
    if forall p :: p in JweParts(b) ==> DotFree(p) { SplitJoin(JweParts(b)); }
    if ParsedJwe(DottedJwe(b)) == Some(b) {
      var q := Split(DottedJwe(b));
      assert q[0] in q && q[1] in q && q[2] in q && q[3] in q && q[4] in q;
    }
  }

  // Whatever follows the last field is dropped.
  lemma DroppedParts(s: string, n: nat)
    requires 0 < n <= |Split(s)|
    ensures Join(Split(s)[..n]) == s <==> |Split(s)| == n
    ensures |Split(s)| > n ==> s == Join(Split(s)[..n]) + "." + Join(Split(s)[n..])
  {
    var p := Split(s);
    JoinSplit(s);
    assert p == p[..n] + p[n..];
    if |p| > n { JoinConcat(p[..n], p[n..]); } else { assert p[..n] == p; }
  }

  // A string survives the trip exactly when it has the right number of dots.
  lemma JwsStringRoundTrip(s: string)
    ensures ParsedJws(s).Some? <==> Dots(s) >= 2
    ensures ParsedJws(s).Some? ==> (DottedJws(ParsedJws(s).value) == s <==> Dots(s) == 2)
  {
    SplitParts(s);
    if Dots(s) >= 2 {
      var b := ParsedJws(s).value;
      JwsJoined(b);
      assert JwsParts(b) == Split(s)[..3];
      DroppedParts(s, 3);
    }
  }

  lemma JweStringRoundTrip(s: string)
    ensures ParsedJwe(s).Some? <==> Dots(s) >= 4
    ensures ParsedJwe(s).Some? ==> (DottedJwe(ParsedJwe(s).value) == s <==> Dots(s) == 4)
  {
    SplitParts(s);
    if Dots(s) >= 4 {
      var b := ParsedJwe(s).value;
      JweJoined(b);
      assert JweParts(b) == Split(s)[..5];
      DroppedParts(s, 5);
    }
  }

  // ----- UTF-8 (RFC 3629, section 4) -----

  predicate Tail(b: seq<byte>, i: nat) {
    i < |b| && 0x80 <= b[i] <= 0xBF
  }

  // The length of the first character, 0 if the bytes begin with none.
  function CharLength(b: seq<byte>): (n: nat)
    ensures n <= |b|
  {
    if b == [] then 0
    else if b[0] <= 0x7F then 1
    else if 0xC2 <= b[0] <= 0xDF && Tail(b, 1) then 2
    else if |b| < 3 || !Tail(b, 1) || !Tail(b, 2) then 0
    else if b[0] == 0xE0 then if b[1] >= 0xA0 then 3 else 0
    else if b[0] == 0xED then if b[1] <= 0x9F then 3 else 0
    else if 0xE1 <= b[0] <= 0xEF then 3
    else if !Tail(b, 3) then 0
    else if b[0] == 0xF0 then if b[1] >= 0x90 then 4 else 0
    else if 0xF1 <= b[0] <= 0xF3 then 4
    else if b[0] == 0xF4 then if b[1] <= 0x8F then 4 else 0
    else 0
  }

  predicate Utf8(b: seq<byte>) {
    b == [] || (CharLength(b) > 0 && Utf8(b[CharLength(b)..]))
  }

  predicate Scalar(c: int) {
    0 <= c < 0xD800 || 0xE000 <= c < 0x110000
  }

  // A character as one to four bytes.
  function EncodeScalar(c: int): (b: seq<byte>)
    requires Scalar(c)
    ensures 1 <= |b| <= 4
  {
    if c < 0x80 then [c]
    else if c < 0x800 then [0xC0 + c / 64, 0x80 + c % 64]
    else if c < 0x10000 then [0xE0 + c / 4096, 0x80 + c / 64 % 64, 0x80 + c % 64]
    else [0xF0 + c / 262144, 0x80 + c / 4096 % 64, 0x80 + c / 64 % 64, 0x80 + c % 64]
  }

  function EncodeText(cs: seq<int>): seq<byte>
    requires forall c :: c in cs ==> Scalar(c)
  {
    if cs == [] then [] else EncodeScalar(cs[0]) + EncodeText(cs[1..])
  }

  lemma EncodedLength(c: int, rest: seq<byte>)
    requires Scalar(c)
    ensures CharLength(EncodeScalar(c) + rest) == |EncodeScalar(c)|
  {
  }

  lemma SixBits(x: int, y: int)
    requires 0 <= y < 64
    ensures (64 * x + y) / 64 == x && (64 * x + y) % 64 == y
  {
  }

  lemma TwelveBits(x: int, y: int, z: int)
    requires 0 <= y < 64 && 0 <= z < 64
    ensures var c := 64 * (64 * x + y) + z; c / 4096 == x && c / 64 == 64 * x + y && c / 64 % 64 == y && c % 64 == z
  {
    SixBits(64 * x + y, z);
    SixBits(x, y);
  }

  lemma EighteenBits(w: int, x: int, y: int, z: int)
    requires 0 <= x < 64 && 0 <= y < 64 && 0 <= z < 64
    ensures var c := 64 * (64 * (64 * w + x) + y) + z;
            c / 262144 == w && c / 4096 == 64 * w + x && c / 4096 % 64 == x && c / 64 % 64 == y && c % 64 == z
  {
    TwelveBits(64 * w + x, y, z);
    SixBits(w, x);
  }

  // The character that the first bytes are the form of.
  lemma FirstScalar(b: seq<byte>) returns (c: int)
    requires CharLength(b) > 0
    ensures Scalar(c) && EncodeScalar(c) == b[..CharLength(b)]
  {
    var n := CharLength(b);
    var w: int := b[0];
    if n == 1 {
      c := w;
    } else if n == 2 {
      var x: int := b[1];
      c := 64 * (w - 0xC0) + (x - 0x80);
      SixBits(w - 0xC0, x - 0x80);
    } else if n == 3 {
      var x: int, y: int := b[1], b[2];
      c := 64 * (64 * (w - 0xE0) + (x - 0x80)) + (y - 0x80);
      TwelveBits(w - 0xE0, x - 0x80, y - 0x80);
    } else {
      var x: int, y: int, z: int := b[1], b[2], b[3];
      c := 64 * (64 * (64 * (w - 0xF0) + (x - 0x80)) + (y - 0x80)) + (z - 0x80);
      EighteenBits(w - 0xF0, x - 0x80, y - 0x80, z - 0x80);
    }
  }

  // The bytes that are UTF-8 are those of the texts.
  lemma {:induction false} TextIsUtf8(cs: seq<int>)
    requires forall c :: c in cs ==> Scalar(c)
    ensures Utf8(EncodeText(cs))
  {
    if cs != [] {
      TextIsUtf8(cs[1..]);
      EncodedLength(cs[0], EncodeText(cs[1..]));
      var b := EncodeText(cs);
      assert b[CharLength(b)..] == EncodeText(cs[1..]);
    }
  }

  lemma {:induction false} Utf8IsText(b: seq<byte>)
    requires Utf8(b)
    ensures exists cs: seq<int> :: (forall c :: c in cs ==> Scalar(c)) && EncodeText(cs) == b
  {
    hide CharLength, EncodeScalar;
    if b == [] {
      assert EncodeText([]) == b;
    } else {
      var n := CharLength(b);
      Utf8IsText(b[n..]);
      var rest: seq<int> :| (forall c :: c in rest ==> Scalar(c)) && EncodeText(rest) == b[n..];
      var c := FirstScalar(b);
      var cs := [c] + rest;
      assert cs[1..] == rest && b == b[..n] + b[n..];
      assert EncodeText(cs) == b;
    }
  }

  lemma Utf8Exactly(b: seq<byte>)
    ensures Utf8(b) <==> exists cs: seq<int> :: (forall c :: c in cs ==> Scalar(c)) && EncodeText(cs) == b
  {
    hide Utf8, EncodeText;
    if Utf8(b) { Utf8IsText(b); }
    if cs: seq<int> :| (forall c :: c in cs ==> Scalar(c)) && EncodeText(cs) == b { TextIsUtf8(cs); }
  }

  // Text of seven-bit characters is UTF-8.
  lemma {:induction false} AsciiIsUtf8(b: seq<byte>)
    requires forall i :: 0 <= i < |b| ==> b[i] <= 0x7F
    ensures Utf8(b)
  {
    if b != [] { AsciiIsUtf8(b[1..]); }
  }

  // ----- sign, then encrypt -----

  // The RSA and JSON libraries, for one key pair. `payload` and `open` give back the bytes of a valid token.
  datatype Library = Library(
    sign: seq<byte> -> string,
    payload: string -> Option<seq<byte>>,
    toJson: JwsBody -> seq<byte>,
    fromJson: seq<byte> -> Option<JwsBody>,
    seal: seq<byte> -> string,
    open: string -> Option<seq<byte>>)

  ghost predicate Undoes(lib: Library) {
    && (forall m :: lib.payload(lib.sign(m)) == Some(m) && Dots(lib.sign(m)) == 2)
    && (forall b :: lib.fromJson(lib.toJson(b)) == Some(b) && Utf8(lib.toJson(b)))
    && (forall m :: lib.open(lib.seal(m)) == Some(m) && Dots(lib.seal(m)) == 4)
  }

  // Both layers turn the bytes they recover into a string.
  function AsString(bytes: Option<seq<byte>>): Option<seq<byte>> {
    if bytes.Some? && Utf8(bytes.value) then bytes else None
  }

  function EncryptJose(lib: Library, m: seq<byte>): Option<JweBody> {
    match ParsedJws(lib.sign(m))
    case None => None
    case Some(jws) => ParsedJwe(lib.seal(lib.toJson(jws)))
  }

  function DecryptJose(lib: Library, b: JweBody): Option<seq<byte>> {
    match AsString(lib.open(DottedJwe(b)))
    case None => None
    case Some(json) =>
      match lib.fromJson(json)
      case None => None
      case Some(jws) => AsString(lib.payload(DottedJws(jws)))
  }

  // Every message can be encrypted; what comes back is the message if it is the UTF-8 form of a text, and an error
  // otherwise.
  lemma DecryptEncryptJose(lib: Library, m: seq<byte>)
    requires Undoes(lib)
    ensures EncryptJose(lib, m).Some?
    ensures DecryptJose(lib, EncryptJose(lib, m).value) == Some(m) <==>
            exists cs: seq<int> :: (forall c :: c in cs ==> Scalar(c)) && EncodeText(cs) == m
    ensures DecryptJose(lib, EncryptJose(lib, m).value) == Some(m) <==> Utf8(m)
    ensures !Utf8(m) ==> DecryptJose(lib, EncryptJose(lib, m).value) == None
  {
    hide Dots, ParsedJws, ParsedJwe, DottedJws, DottedJwe, Utf8, EncodeText;
    Utf8Exactly(m);
    JwsStringRoundTrip(lib.sign(m));
    JweStringRoundTrip(lib.seal(lib.toJson(ParsedJws(lib.sign(m)).value)));
  }

  // For instance, a message that is the one byte 0xFF is encrypted and cannot be decrypted.
  lemma BinaryMessageIsLost(lib: Library)
    requires Undoes(lib)
    ensures EncryptJose(lib, [0xFF]).Some? && DecryptJose(lib, EncryptJose(lib, [0xFF]).value) == None
  {
    hide EncryptJose, DecryptJose;
    assert CharLength([0xFF]) == 0;
    DecryptEncryptJose(lib, [0xFF]);
  }

  // The order of the fields (RFC 7516, section 7.1; RFC 7515, section 7.1).
  lemma FieldOrder(a: string, b: string, c: string, d: string, e: string)
    ensures DottedJwe(JweBody(a, c, d, e, b)) == a + "." + b + "." + c + "." + d + "." + e
    ensures DottedJws(JwsBody(a, b, c)) == a + "." + b + "." + c
  {
  }

  // What is sent is a token that seals the JSON of the fields of the signed message, and nothing else is read than
  // what the library opens and verifies.
  lemma SignedThenSealed(lib: Library, m: seq<byte>, b: JweBody)
    requires Undoes(lib)
    ensures EncryptJose(lib, m).Some?
    ensures exists jws :: DottedJws(jws) == lib.sign(m) && DottedJwe(EncryptJose(lib, m).value) == lib.seal(lib.toJson(jws))
    ensures DecryptJose(lib, b).Some? ==>
              exists json, jws :: lib.open(DottedJwe(b)) == Some(json) && lib.fromJson(json) == Some(jws)
                                  && lib.payload(DottedJws(jws)) == DecryptJose(lib, b)
  {
    hide Dots, ParsedJws, ParsedJwe, DottedJws, DottedJwe, Utf8;
    JwsStringRoundTrip(lib.sign(m));
    var jws := ParsedJws(lib.sign(m)).value;
    JweStringRoundTrip(lib.seal(lib.toJson(jws)));
    assert DottedJws(jws) == lib.sign(m);
  }
}
