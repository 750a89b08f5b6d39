/** Lower-case hexadecimal coding of byte strings. */
module Hex {
  import opened Wrappers

  type byte = x: int | 0 <= x < 256

  function Digit(n: int): (c: char)
    requires 0 <= n < 16
    ensures c != '_'
    ensures Nibble(c) == Some(n)
  {
    if n < 10 then '0' + n as char else 'a' + (n - 10) as char
  }

  function Nibble(c: char): (n: Option<int>)
    ensures n.Some? ==> 0 <= n.value < 16
  {
    if '0' <= c <= '9' then Some((c - '0') as int)
    else if 'a' <= c <= 'f' then Some((c - 'a') as int + 10)
    else if 'A' <= c <= 'F' then Some((c - 'A') as int + 10)
    else None
  }

  function Pair(b: byte): string {
    [Digit(b / 16), Digit(b % 16)]
  }

  function Encode(bytes: seq<byte>): (s: string)
    ensures |s| == 2 * |bytes|
  {
    if bytes == [] then ""
    else Pair(bytes[0]) + Encode(bytes[1..])
  }

  // An odd length or a character that is no digit is an error.
  function Decode(s: string): (r: Option<seq<byte>>)
    ensures r.Some? ==> |s| == 2 * |r.value|
  {
    if s == "" then Some([])
    else if |s| == 1 then None
    else
      match (Nibble(s[0]), Nibble(s[1]), Decode(s[2..]))
      case (Some(hi), Some(lo), Some(rest)) => Some([16 * hi + lo] + rest)
      case _ => None
  }

  lemma {:induction false} DecodeEncode(bytes: seq<byte>)
    ensures Decode(Encode(bytes)) == Some(bytes)
  {
    if bytes != [] {
      DecodeEncode(bytes[1..]);
      assert Encode(bytes)[2..] == Encode(bytes[1..]);
      assert bytes == [bytes[0]] + bytes[1..];
    }
  }

  lemma EncodeHead(bytes: seq<byte>)
    ensures Encode(bytes) == if bytes == [] then "" else Pair(bytes[0]) + Encode(bytes[1..])
  {
  }

  lemma Regroup(h: string, x: string, y: string)
    ensures h + (x + y) == (h + x) + y
  {
  }

  lemma {:induction false} EncodeConcat(a: seq<byte>, b: seq<byte>)
    ensures Encode(a + b) == Encode(a) + Encode(b)
  {
    hide Encode, Pair;
    EncodeHead(a);
    EncodeHead(a + b);
    if a == [] {
      assert a + b == b;
    } else {
      assert (a + b)[1..] == a[1..] + b;
      EncodeConcat(a[1..], b);
      Regroup(Pair(a[0]), Encode(a[1..]), Encode(b));
    }
  }

  lemma DigitIs(n: nat)
    requires n < 16
    ensures Digit(n) == "0123456789abcdef"[n]
  {
  }

  // Each byte is two lower-case digits, the high half first.
  lemma {:induction false} EncodeAt(bytes: seq<byte>, i: nat)
    requires i < |bytes|
    ensures Encode(bytes)[2 * i] == "0123456789abcdef"[bytes[i] / 16]
    ensures Encode(bytes)[2 * i + 1] == "0123456789abcdef"[bytes[i] % 16]
  {
    hide Digit, Encode;
    EncodeHead(bytes);
    if i == 0 {
      DigitIs(bytes[0] / 16);
      DigitIs(bytes[0] % 16);
    } else {
      EncodeAt(bytes[1..], i - 1);
      assert Encode(bytes)[2..] == Encode(bytes[1..]);
      assert Encode(bytes)[2 * i] == Encode(bytes)[2..][2 * (i - 1)];
      assert Encode(bytes)[2 * i + 1] == Encode(bytes)[2..][2 * (i - 1) + 1];
    }
  }

  predicate HexDigit(c: char) {
    '0' <= c <= '9' || 'a' <= c <= 'f' || 'A' <= c <= 'F'
  }

  lemma NibbleAccepts(c: char)
    ensures Nibble(c).Some? <==> HexDigit(c)
  {
  }

  // The letters count on from nine, in either case.
  lemma NibbleValues()
    ensures Nibble('0') == Some(0) && Nibble('9') == Some(9)
    ensures Nibble('a') == Nibble('A') == Some(10) && Nibble('f') == Nibble('F') == Some(15)
    ensures forall c, d :: HexDigit(c) && HexDigit(d) && d == c + 1 as char ==> Nibble(d) == Some(Nibble(c).value + 1)
  {
  }

  // What can be decoded: an even number of digits, in either case.
  lemma {:induction false} DecodeAccepts(s: string)
    ensures Decode(s).Some? <==> |s| % 2 == 0 && forall c :: c in s ==> HexDigit(c)
  {
    hide HexDigit, Nibble;
    if |s| >= 2 {
      DecodeAccepts(s[2..]);
      NibbleAccepts(s[0]);
      NibbleAccepts(s[1]);
      assert s == [s[0], s[1]] + s[2..];
    }
  }
}

/** Redis keys of the KV tables: how they are printed, and when two of them can coincide. */
module Keys {
  import opened Hex

  datatype PartitionKey =
    | CombinationKey(combination: string)
    | Fingerprint(fingerprintHash: seq<byte>)
    | HashTable(dataHash: seq<byte>)
    | Locker(merchantId: string, customerId: string, lockerId: string)
    | ReverseLookup(lookupId: string)
    | Vault(entityId: string, vaultId: string)

  function KeyString(k: PartitionKey): string {
    match k
    case CombinationKey(combination) => combination
    case Fingerprint(hash) => "fingerprint_" + Encode(hash)
    case HashTable(hash) => "hash_table_" + Encode(hash)
    case Locker(m, c, l) => "locker_" + (m + "_" + (c + "_" + l))
    case ReverseLookup(id) => "reverse_lookup_" + id
    case Vault(e, v) => "vault_" + (e + "_" + v)
  }

  // The printed forms, column by column.
  lemma PrintedForms(a: string, b: string, c: string, hash: seq<byte>)
    ensures KeyString(CombinationKey(a)) == a
    ensures KeyString(Fingerprint(hash)) == "fingerprint_" + Encode(hash)
    ensures KeyString(HashTable(hash)) == "hash_table_" + Encode(hash)
    ensures KeyString(Locker(a, b, c)) == "locker_" + a + "_" + b + "_" + c
    ensures KeyString(ReverseLookup(a)) == "reverse_lookup_" + a
    ensures KeyString(Vault(a, b)) == "vault_" + a + "_" + b
  {
    assert "locker_" + (a + "_" + (b + "_" + c)) == "locker_" + a + "_" + b + "_" + c;
    assert "vault_" + (a + "_" + b) == "vault_" + a + "_" + b;
  }

  // Keys whose printed form can be read back: the columns before the last hold no separator.
  predicate WellFormed(k: PartitionKey) {
    match k
    case CombinationKey(_) => false
    case Locker(m, c, _) => '_' !in m && '_' !in c
    case Vault(e, _) => '_' !in e
    case _ => true
  }

  // Two keys that do not share a Redis hash.
  predicate Apart(k: PartitionKey, k': PartitionKey) {
    KeyString(k) == KeyString(k') ==> k == k'
  }

  // Keys that can be in use together.
  ghost predicate Distinct(keys: iset<PartitionKey>) {
    forall k, k' :: k in keys && k' in keys ==> Apart(k, k')
  }

  lemma DropPrefix(p: string, a: string, b: string)
    requires p + a == p + b
    ensures a == b
  {
    assert (p + a)[|p|..] == a;
    assert (p + b)[|p|..] == b;
  }

  lemma {:induction false} SplitUnique(a: string, b: string, a': string, b': string)
    requires '_' !in a && '_' !in a'
    requires a + "_" + b == a' + "_" + b'
    ensures a == a' && b == b'
  {
    var s := a + "_" + b;
    assert s[|a|] == '_' && s[|a'|] == '_';
    assert forall i | 0 <= i < |a| :: s[i] == a[i];
    assert forall i | 0 <= i < |a'| :: s[i] == a'[i];
    assert |a| == |a'|;
    assert a == s[..|a|] == a';
    assert b == s[|a| + 1..] == b';
  }

  // Keys of different tables never share a string.
  lemma TablesDisjoint(k: PartitionKey, k': PartitionKey)
    requires !k.CombinationKey? && !k'.CombinationKey?
    requires KeyString(k) == KeyString(k')
    ensures k.Fingerprint? == k'.Fingerprint? && k.HashTable? == k'.HashTable?
    ensures k.Locker? == k'.Locker? && k.ReverseLookup? == k'.ReverseLookup? && k.Vault? == k'.Vault?
  {
    assert KeyString(k)[0] == KeyString(k')[0];
  }

  lemma KeyStringInjective(k: PartitionKey, k': PartitionKey)
    requires WellFormed(k) && WellFormed(k')
    requires KeyString(k) == KeyString(k')
    ensures k == k'
  {
    TablesDisjoint(k, k');
    match k
    case Fingerprint(h) =>
      DropPrefix("fingerprint_", Encode(h), Encode(k'.fingerprintHash));
      DecodeEncode(h);
      DecodeEncode(k'.fingerprintHash);
    case HashTable(h) =>
      DropPrefix("hash_table_", Encode(h), Encode(k'.dataHash));
      DecodeEncode(h);
      DecodeEncode(k'.dataHash);
    case Locker(m, c, l) =>
      DropPrefix("locker_", m + "_" + (c + "_" + l), k'.merchantId + "_" + (k'.customerId + "_" + k'.lockerId));
      SplitUnique(m, c + "_" + l, k'.merchantId, k'.customerId + "_" + k'.lockerId);
      SplitUnique(c, l, k'.customerId, k'.lockerId);
    case ReverseLookup(id) =>
      DropPrefix("reverse_lookup_", id, k'.lookupId);
    case Vault(e, v) =>
      DropPrefix("vault_", e + "_" + v, k'.entityId + "_" + k'.vaultId);
      SplitUnique(e, v, k'.entityId, k'.vaultId);
  }

  lemma WellFormedDistinct()
    ensures Distinct(iset k | WellFormed(k))
  {
    hide KeyString;
    forall k, k' | WellFormed(k) && WellFormed(k') && KeyString(k) == KeyString(k')
      ensures k == k'
    {
      KeyStringInjective(k, k');
    }
  }

  // Moving a separator from one column into its neighbour.
  lemma Resplit(a: string, b: string)
    requires '_' in a || '_' in b
    ensures exists a', b' :: a' + "_" + b' == a + "_" + b && (a', b') != (a, b)
  {
    if i :| 0 <= i < |a| && a[i] == '_' {
      var a', b' := a[..i], a[i + 1..] + "_" + b;
      assert a == a' + "_" + a[i + 1..];
      assert a' + "_" + b' == a + "_" + b;
    } else {
      var i :| 0 <= i < |b| && b[i] == '_';
      var a', b' := a + "_" + b[..i], b[i + 1..];
      assert b == b[..i] + "_" + b';
      assert a' + "_" + b' == a + "_" + b;
    }
  }

  ghost predicate VaultTwin(e: string, v: string, e': string, v': string) {
    (e', v') != (e, v) && KeyString(Vault(e', v')) == KeyString(Vault(e, v))
  }

  // A Vault key shares its string with another Vault key exactly when one of its columns has a separator.
  lemma VaultKeyShared(e: string, v: string)
    ensures (exists e', v' :: VaultTwin(e, v, e', v')) <==> '_' in e || '_' in v
  {
    if '_' in e || '_' in v {
      Resplit(e, v);
      var e', v' :| e' + "_" + v' == e + "_" + v && (e', v') != (e, v);
      assert VaultTwin(e, v, e', v');
    } else {
      forall e', v' | VaultTwin(e, v, e', v')
        ensures false
      {
        DropPrefix("vault_", e + "_" + v, e' + "_" + v');
        OneSeparator(e, v, e', v');
      }
    }
  }

  // A string with a single separator splits there only.
  lemma OneSeparator(a: string, b: string, a': string, b': string)
    requires '_' !in a && '_' !in b
    requires a + "_" + b == a' + "_" + b'
    ensures a == a' && b == b'
  {
    var s := a + "_" + b;
    assert s[|a'|] == '_';
    assert forall i | 0 <= i < |s| && i != |a| :: s[i] == if i < |a| then a[i] else b[i - |a| - 1];
    assert |a| == |a'|;
    assert a == s[..|a|] == a';
    assert b == s[|a| + 1..] == b';
  }

  ghost predicate LockerTwin(m: string, c: string, l: string, m': string, c': string, l': string) {
    (m', c', l') != (m, c, l) && KeyString(Locker(m', c', l')) == KeyString(Locker(m, c, l))
  }

  lemma LockerTwinFrom(m: string, c: string, l: string, m': string, c': string, l': string)
    requires m' + "_" + (c' + "_" + l') == m + "_" + (c + "_" + l)
    requires (m', c', l') != (m, c, l)
    ensures LockerTwin(m, c, l, m', c', l')
  {
  }

  // The same for Locker keys, over their three columns.
  lemma LockerKeyShared(m: string, c: string, l: string)
    ensures (exists m', c', l' :: LockerTwin(m, c, l, m', c', l'))
       <==> '_' in m || '_' in c || '_' in l
  {
    if '_' in c || '_' in l {
      Resplit(c, l);
      var c', l' :| c' + "_" + l' == c + "_" + l && (c', l') != (c, l);
      LockerTwinFrom(m, c, l, m, c', l');
    } else if '_' in m {
      Resplit(m, c);
      var m', c' :| m' + "_" + c' == m + "_" + c && (m', c') != (m, c);
      assert m' + "_" + (c' + "_" + l) == (m' + "_" + c') + "_" + l;
      assert m + "_" + (c + "_" + l) == (m + "_" + c) + "_" + l;
      LockerTwinFrom(m, c, l, m', c', l);
    } else {
      forall m', c', l' | LockerTwin(m, c, l, m', c', l')
        ensures false
      {
        DropPrefix("locker_", m + "_" + (c + "_" + l), m' + "_" + (c' + "_" + l'));
        TwoSeparators(m, c, l, m', c', l');
      }
    }
  }

  lemma TwoSeparators(m: string, c: string, l: string, m': string, c': string, l': string)
    requires '_' !in m && '_' !in c && '_' !in l
    requires m + "_" + (c + "_" + l) == m' + "_" + (c' + "_" + l')
    ensures m == m' && c == c' && l == l'
  {
    var s := m + "_" + (c + "_" + l);
    var p, q := |m'|, |m'| + 1 + |c'|;
    assert s == m' + "_" + c' + "_" + l';
    assert s[p] == '_' && s[q] == '_';
    var a, b := |m|, |m| + 1 + |c|;
    forall i | 0 <= i < |s| && i != a && i != b
      ensures s[i] != '_'
    {
      assert s[i] == if i < a then m[i] else if i < b then c[i - a - 1] else l[i - b - 1];
    }
    assert p == a || p == b;
    assert q == a || q == b;
    assert p == a && q == b;
    assert m == s[..a] == m';
    assert c == s[a + 1..b] == c';
    assert l == s[b + 1..] == l';
  }

  // The shard a stream entry goes to, for a given CRC-32 and number of partitions.
  function PartitionNumber(crc32: string -> nat, partitions: nat, k: PartitionKey): (n: nat)
    requires partitions > 0
    ensures n < partitions
  {
    crc32(KeyString(k)) % partitions
  }

  // A key rebuilt from its printed form addresses the same Redis hash and the same shard.
  lemma RebuiltKey(crc32: string -> nat, partitions: nat, k: PartitionKey)
    requires partitions > 0
    ensures KeyString(CombinationKey(KeyString(k))) == KeyString(k)
    ensures PartitionNumber(crc32, partitions, CombinationKey(KeyString(k))) == PartitionNumber(crc32, partitions, k)
    ensures PartitionNumber(crc32, partitions, k) == crc32(KeyString(k)) % partitions
  {
  }
}
