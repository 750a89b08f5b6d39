/** AES-256-GCM as the vault uses it: the nonce sequence, and messages that carry their own nonce. */
module Aes {
  import opened Wrappers
  import opened Hex
  import opened Arithmetic

  const NONCE_LEN := 12
  const KEY_LEN := 32
  const TWO96: nat := 0x1_00000000_00000000_00000000
  const TWO128: nat := 0x1_00000000_00000000_00000000_00000000

  type u128 = x: int | 0 <= x < 0x1_00000000_00000000_00000000_00000000

  type Bytes = seq<byte>

  // ----- big-endian numbers -----

  function Power(w: nat): (p: nat)
    ensures p > 0
  {
    if w == 0 then 1 else 256 * Power(w - 1)
  }

  // The last `w` bytes of `n`, most significant first.
  function ToBigEndian(n: nat, w: nat): (s: Bytes)
    ensures |s| == w
  {
    if w == 0 then [] else ToBigEndian(n / 256, w - 1) + [n % 256]
  }

  function FromBigEndian(s: Bytes): nat {
    if s == [] then 0 else 256 * FromBigEndian(s[..|s| - 1]) + s[|s| - 1]
  }

  lemma {:induction false} ToFrom(s: Bytes)
    ensures ToBigEndian(FromBigEndian(s), |s|) == s && FromBigEndian(s) < Power(|s|)
  {
    if s != [] {
      ToFrom(s[..|s| - 1]);
      assert s == s[..|s| - 1] + [s[|s| - 1]];
    }
  }

  // The i-th byte from the right counts 256 to the i.
  lemma {:induction false} BigEndianAt(n: nat, w: nat, i: nat)
    requires i < w
    ensures ToBigEndian(n, w)[w - 1 - i] == n / Power(i) % 256
  {
    if i == 0 {
      assert n / Power(0) == n;
    } else {
      BigEndianAt(n / 256, w - 1, i - 1);
      DivideTwice(n, Power(i - 1));
    }
  }

  lemma DivideTwice(n: nat, p: nat)
    requires p > 0
    ensures n / 256 / p == n / (256 * p)
  {
    var q := n / 256;
    var c, r := q / p, q % p;
    assert q == p * c + r;
    assert n == 256 * (p * c + r) + n % 256 == (256 * p) * c + (256 * r + n % 256);
    var c', r' := n / (256 * p), n % (256 * p);
    assert n == (256 * p) * c' + r';
    if c' > c { TimesGrows(256 * p, c + 1, c'); }
    if c' < c { TimesGrows(256 * p, c' + 1, c); }
  }

  lemma SplitDigit(n: nat, p: nat)
    requires p > 0
    ensures n % (256 * p) == 256 * ((n / 256) % p) + n % 256
  {
    var q, d := n / 256, n % 256;
    var r, c := q % p, q / p;
    assert n == 256 * (c * p + r) + d == (256 * p) * c + (256 * r + d) by {
      assert q == c * p + r;
    }
    assert 0 <= 256 * r + d < 256 * p;
    ModUnique(n, 256 * p, c, 256 * r + d);
  }

  lemma {:induction false} FromTo(n: nat, w: nat)
    ensures FromBigEndian(ToBigEndian(n, w)) == n % Power(w)
  {
    if w > 0 {
      FromTo(n / 256, w - 1);
      assert ToBigEndian(n, w)[..w - 1] == ToBigEndian(n / 256, w - 1);
      SplitDigit(n, Power(w - 1));
    }
  }

  lemma {:induction false} Suffix(n: nat, w: nat, v: nat)
    requires v <= w
    ensures ToBigEndian(n, w)[w - v..] == ToBigEndian(n, v)
  {
    if v > 0 {
      Suffix(n / 256, w - 1, v - 1);
      assert ToBigEndian(n, w)[w - v..] == ToBigEndian(n / 256, w - 1)[w - v..] + [n % 256];
    }
  }

  lemma {:induction false} LeadingZeros(z: nat, s: Bytes)
    ensures FromBigEndian(seq(z, _ => 0) + s) == FromBigEndian(s)
  {
    var t := seq(z, _ => 0) + s;
    if s != [] {
      assert t[..|t| - 1] == seq(z, _ => 0) + s[..|s| - 1];
      LeadingZeros(z, s[..|s| - 1]);
    } else {
      assert t == seq(z, _ => 0);
      AllZeros(z);
    }
  }

  lemma {:induction false} AllZeros(z: nat)
    ensures FromBigEndian(seq(z, _ => 0)) == 0
  {
    if z > 0 {
      assert seq(z, _ => 0)[..z - 1] == seq(z - 1, _ => 0);
      AllZeros(z - 1);
    }
  }

  lemma Powers()
    ensures Power(12) == TWO96 && Power(16) == TWO128
  {
    assert Power(4) == 0x1_00000000;
    assert Power(8) == 0x1_00000000_00000000;
    assert Power(12) == TWO96;
  }

  // ----- the nonce sequence -----

  function Current(counter: u128): (nonce: Bytes)
    ensures |nonce| == NONCE_LEN
  {
    ToBigEndian(counter, 16)[4..]
  }

  function FromNonce(nonce: Bytes): (counter: u128)
    requires |nonce| == NONCE_LEN
    ensures counter < TWO96
  {
    LeadingZeros(4, nonce);
    ToFrom(nonce);
    Powers();
    FromBigEndian(seq(4, _ => 0) + nonce)
  }

  function WrappingAdd1(counter: u128): u128 {
    (counter + 1) % TWO128
  }

  // What `n` calls of advance return.
  function Advances(counter: u128, n: nat): (nonces: seq<Bytes>)
    ensures |nonces| == n
    decreases n
  {
    if n == 0 then [] else [Current(counter)] + Advances(WrappingAdd1(counter), n - 1)
  }

  lemma CurrentOfNonce(nonce: Bytes)
    requires |nonce| == NONCE_LEN
    ensures Current(FromNonce(nonce)) == nonce
  {
    LeadingZeros(4, nonce);
    ToFrom(nonce);
    Suffix(FromNonce(nonce), 16, 12);
  }

  lemma NonceOfCurrent(counter: u128)
    ensures FromNonce(Current(counter)) == counter % TWO96
  {
    hide ToBigEndian, FromBigEndian, Power;
    LeadingZeros(4, Current(counter));
    Suffix(counter, 16, 12);
    FromTo(counter, 12);
    Powers();
  }

  lemma SameResidue(n: nat)
    ensures (n % TWO128) % TWO96 == n % TWO96
  {
    assert TWO128 == 0x1_00000000 * TWO96;
    var q, r := n / TWO128, n % TWO128;
    assert n == q * 0x1_00000000 * TWO96 + r;
    var c, d := r / TWO96, r % TWO96;
    assert n == TWO96 * (q * 0x1_00000000 + c) + d;
    ModUnique(n, TWO96, q * 0x1_00000000 + c, d);
  }

  lemma CurrentIsBigEndian(counter: u128, n: nat)
    requires counter == n % TWO128
    ensures Current(counter) == ToBigEndian(n % TWO96, 12)
  {
    hide ToBigEndian, FromBigEndian, Power;
    Suffix(counter, 16, 12);
    FromTo(counter, 12);
    Powers();
    SameResidue(n);
    ToFrom(ToBigEndian(counter, 12));
  }

  lemma NextResidue(counter: u128, i: nat)
    requires i > 0
    ensures (WrappingAdd1(counter) + i - 1) % TWO96 == (counter + i) % TWO96
  {
    var n := WrappingAdd1(counter) + i - 1;
    if counter + 1 == TWO128 {
      assert counter + i == n + TWO128;
      ModUnique(n + TWO128, TWO96, n / TWO96 + 0x1_00000000, n % TWO96);
    }
  }

  // The i-th of n successive nonces is the 96-bit big-endian form of s + i.
  lemma {:induction false} AdvancesAt(counter: u128, n: nat, i: nat)
    requires i < n
    ensures Advances(counter, n)[i] == ToBigEndian((counter + i) % TWO96, 12)
    decreases n
  {
    hide ToBigEndian, Current, WrappingAdd1, TWO96;
    if i == 0 {
      assert counter % TWO128 == counter;
      CurrentIsBigEndian(counter, counter);
    } else {
      AdvancesAt(WrappingAdd1(counter), n - 1, i - 1);
      NextResidue(counter, i);
    }
  }

  lemma NonceIsNumber(a: nat, b: nat)
    requires a < TWO96 && b < TWO96
    ensures ToBigEndian(a, 12) == ToBigEndian(b, 12) <==> a == b
  {
    hide ToBigEndian, FromBigEndian, Power;
    FromTo(a, 12);
    FromTo(b, 12);
    Powers();
  }

  lemma SameResidues(x: nat, y: nat)
    requires x < y
    ensures x % TWO96 == y % TWO96 <==> (y - x) % TWO96 == 0
  {
    if x % TWO96 == y % TWO96 {
      TimesGrows(TWO96, x / TWO96, y / TWO96);
      ModUnique(y - x, TWO96, y / TWO96 - x / TWO96, 0);
    }
    if (y - x) % TWO96 == 0 {
      ModUnique(y, TWO96, x / TWO96 + (y - x) / TWO96, x % TWO96);
    }
  }

  // Two of n successive nonces agree only 2^96 calls apart, so n up to 2^96 are pairwise distinct.
  lemma NoncesDistinct(counter: u128, n: nat, i: nat, j: nat)
    requires i < j < n
    ensures Advances(counter, n)[i] == Advances(counter, n)[j] <==> (j - i) % TWO96 == 0
    ensures n <= TWO96 ==> Advances(counter, n)[i] != Advances(counter, n)[j]
  {
    hide ToBigEndian, Advances;
    AdvancesAt(counter, n, i);
    AdvancesAt(counter, n, j);
    NonceIsNumber((counter + i) % TWO96, (counter + j) % TWO96);
    SameResidues(counter + i, counter + j);
  }

  class NonceSequence {
    var counter: u128

    constructor FromBytes(bytes: Bytes)
      requires |bytes| == NONCE_LEN
      ensures counter == FromNonce(bytes)
    {
      var sequenceNumber := seq(16, _ => 0);
      sequenceNumber := sequenceNumber[..4] + bytes;
      LeadingZeros(4, bytes);
      assert sequenceNumber == seq(4, _ => 0) + bytes;
      assert FromNonce(bytes) == FromBigEndian(sequenceNumber);
      counter := FromBigEndian(sequenceNumber);
    }

    method Advance() returns (nonce: Bytes)
      modifies this
      ensures nonce == Current(old(counter)) && counter == WrappingAdd1(old(counter))
      ensures Advances(old(counter), 1) == [nonce]
    {
      nonce := ToBigEndian(counter, 16)[4..];
      counter := (counter + 1) % TWO128;
    }
  }

  // ----- sealed messages -----

  datatype Aead = Aead(seal: (Bytes, Bytes, Bytes) -> Bytes, open: (Bytes, Bytes, Bytes) -> Option<Bytes>)

  // What AES-256-GCM promises of a key, a nonce and a message.
  ghost predicate Opens(aead: Aead) {
    forall key, nonce, m ::
      |key| == KEY_LEN && |nonce| == NONCE_LEN ==> aead.open(key, nonce, aead.seal(key, nonce, m)) == Some(m)
  }

  // A message too short to hold a nonce is not refused: slicing it panics.
  datatype Opened = Plain(bytes: Bytes) | Refused | Panicked

  function Encrypted(aead: Aead, key: Bytes, random: Bytes, m: Bytes): Option<Bytes> {
    if |key| == KEY_LEN then Some(random + aead.seal(key, random, m)) else None
  }

  function Decrypted(aead: Aead, key: Bytes, message: Bytes): Opened {
    if |key| != KEY_LEN then Refused
    else if |message| < NONCE_LEN then Panicked
    else
      match aead.open(key, message[..NONCE_LEN], message[NONCE_LEN..])
      case Some(m) => Plain(m)
      case None => Refused
  }

  method Encrypt(aead: Aead, key: Bytes, random: Bytes, input: Bytes) returns (message: Option<Bytes>)
    requires |random| == NONCE_LEN
    ensures message == Encrypted(aead, key, random, input)
    ensures message.Some? <==> |key| == 32
    ensures message.Some? ==> |message.value| >= 12 && message.value[..12] == random
                              && message.value[12..] == aead.seal(key, random, input)
  {
    var nonces := new NonceSequence.FromBytes(random);
    CurrentOfNonce(random);
    var current := Current(nonces.counter);
    if |key| != KEY_LEN { return None; }
    var nonce := nonces.Advance();
    message := Some(current + aead.seal(key, nonce, input));
  }

  method Decrypt(aead: Aead, key: Bytes, message: Bytes) returns (r: Opened)
    ensures r == Decrypted(aead, key, message)
    ensures r == Panicked <==> |key| == 32 && |message| < 12
    ensures forall m :: r == Plain(m) <==>
              |key| == 32 && |message| >= 12 && aead.open(key, message[..12], message[12..]) == Some(m)
    ensures r == Refused <==>
              |key| != 32 || (|message| >= 12 && aead.open(key, message[..12], message[12..]).None?)
  {
    if |key| != KEY_LEN { return Refused; }
    if |message| < NONCE_LEN { return Panicked; }
    var nonces := new NonceSequence.FromBytes(message[..NONCE_LEN]);
    CurrentOfNonce(message[..NONCE_LEN]);
    var nonce := nonces.Advance();
    var m := aead.open(key, nonce, message[NONCE_LEN..]);
    r := if m.Some? then Plain(m.value) else Refused;
  }

  lemma DecryptEncrypt(aead: Aead, key: Bytes, random: Bytes, m: Bytes)
    requires Opens(aead) && |random| == NONCE_LEN
    ensures Encrypted(aead, key, random, m).Some? <==> |key| == KEY_LEN
    ensures |key| == KEY_LEN ==> Decrypted(aead, key, Encrypted(aead, key, random, m).value) == Plain(m)
  {
    if |key| == KEY_LEN {
      var message := Encrypted(aead, key, random, m).value;
      assert message[..NONCE_LEN] == random && message[NONCE_LEN..] == aead.seal(key, random, m);
    }
  }
}
