/** Card number validation: characters, length, and the Luhn check. */
module Validations {
  import opened Wrappers

  const MIN_CARD_NUMBER_LENGTH := 8
  const MAX_CARD_NUMBER_LENGTH := 19

  type u8 = x: int | 0 <= x < 256

  datatype Verdict = Accepted | Rejected | BadCharacter | BadLength

  // ----- characters -----

  predicate IsWhitespace(c: char) {
    '\t' <= c <= '\r' || c == ' ' || c == '\U{85}' || c == '\U{A0}' || c == '\U{1680}'
    || '\U{2000}' <= c <= '\U{200A}' || c == '\U{2028}' || c == '\U{2029}' || c == '\U{202F}'
    || c == '\U{205F}' || c == '\U{3000}'
  }

  function StripWhitespace(s: string): string {
    if s == "" then ""
    else StripWhitespace(s[..|s| - 1]) + if IsWhitespace(s[|s| - 1]) then "" else [s[|s| - 1]]
  }

  // The characters with the White_Space property of Unicode, one by one.
  const WHITE_SPACE: set<char> := {
    '\U{9}', '\U{A}', '\U{B}', '\U{C}', '\U{D}', '\U{20}', '\U{85}', '\U{A0}', '\U{1680}', '\U{2000}', '\U{2001}',
    '\U{2002}', '\U{2003}', '\U{2004}', '\U{2005}', '\U{2006}', '\U{2007}', '\U{2008}', '\U{2009}', '\U{200A}',
    '\U{2028}', '\U{2029}', '\U{202F}', '\U{205F}', '\U{3000}'}

  // Those characters go, and every other one stays in its place.
  lemma StripCharacter(c: char)
    ensures StripWhitespace([c]) == if c in WHITE_SPACE then "" else [c]
  {
    assert [c][..0] == "";
  }

  lemma {:induction false} StripConcat(a: string, b: string)
    ensures StripWhitespace(a + b) == StripWhitespace(a) + StripWhitespace(b)
  {
    if b == "" {
      assert a + b == a;
    } else {
      assert (a + b)[..|a + b| - 1] == a + b[..|b| - 1];
      StripConcat(a, b[..|b| - 1]);
    }
  }

  predicate AllDigits(s: string) {
    forall i :: 0 <= i < |s| ==> '0' <= s[i] <= '9'
  }

  predicate Digits(number: seq<u8>) {
    forall i :: 0 <= i < |number| ==> number[i] <= 9
  }

  // Every character as a digit, or nothing as soon as one is none.
  method ValidateCardNumberChars(number: string) returns (r: Option<seq<u8>>)
    ensures r.Some? <==> AllDigits(number)
    ensures r.Some? ==> |r.value| == |number| && Digits(r.value)
                        && forall i :: 0 <= i < |number| ==> r.value[i] == (number[i] - '0') as int
  {
    var data: seq<u8> := [];
    for i := 0 to |number|
      invariant |data| == i && Digits(data)
      invariant forall j :: 0 <= j < i ==> '0' <= number[j] <= '9' && data[j] == (number[j] - '0') as int
    {
      if !('0' <= number[i] <= '9') { return None; }
      data := data + [(number[i] - '0') as int];
    }
    r := Some(data);
  }

  // ----- the check of ISO/IEC 7812-1 Annex B -----

  // From the right, every second digit counts double, less 9 when that has two digits.
  function Weighted(digit: int, fromRight: nat): int {
    if fromRight % 2 == 0 then digit else if 2 * digit > 9 then 2 * digit - 9 else 2 * digit
  }

  function IsoSum(number: seq<u8>): int {
    if number == [] then 0 else Weighted(number[0], |number| - 1) + IsoSum(number[1..])
  }

  predicate Passes(number: seq<u8>) {
    IsoSum(number) % 10 == 0
  }

  function Wrap(x: int): u8 {
    x % 256
  }

  // One term of the sum, with every operation in eight bits.
  function Term(idx: nat, element: u8): u8 {
    var doubled := Wrap(element * 2);
    Wrap(Wrap(Wrap(doubled / 10 + doubled % 10) * (Wrap(idx) % 2)) + Wrap(element * (Wrap(idx + 1) % 2)))
  }

  lemma WrapSmall(x: int)
    requires 0 <= x < 256
    ensures Wrap(x) == x
  {
  }

  lemma WrapParity(x: int)
    ensures Wrap(x) % 2 == x % 2
  {
    EvenShift(128 * (x / 256), x % 256);
  }

  lemma EvenShift(k: int, r: int)
    ensures (2 * k + r) % 2 == r % 2
  {
  }

  lemma CrossSum(element: u8)
    requires element <= 9
    ensures (2 * element) / 10 + (2 * element) % 10 == if 2 * element > 9 then 2 * element - 9 else 2 * element
  {
  }

  lemma TermIsWeighted(idx: nat, element: u8)
    requires element <= 9
    ensures Term(idx, element) == Weighted(element, idx) <= 9
  {
    hide Wrap;
    WrapParity(idx);
    WrapParity(idx + 1);
    CrossSum(element);
    WrapSmall(element * 2);
    var crossed := (2 * element) / 10 + (2 * element) % 10;
    assert 0 <= crossed <= 9;
    WrapSmall(crossed);
    WrapSmall(0);
    WrapSmall(element);
    if idx % 2 == 0 {
      assert (idx + 1) % 2 == 1;
      assert Wrap(crossed * (Wrap(idx) % 2)) == 0;
      assert Wrap(element * (Wrap(idx + 1) % 2)) == element;
    } else {
      assert (idx + 1) % 2 == 0;
      assert Wrap(crossed * (Wrap(idx) % 2)) == crossed;
      assert Wrap(element * (Wrap(idx + 1) % 2)) == 0;
    }
  }

  lemma {:induction false} SumBound(number: seq<u8>)
    requires Digits(number)
    ensures 0 <= IsoSum(number) <= 9 * |number|
  {
    if number != [] {
      SumBound(number[1..]);
    }
  }

  // The eight-bit loop. It is the check of the standard on every digit string it can sum without wrapping.
  method Luhn(number: seq<u8>) returns (valid: bool)
    ensures Digits(number) && 9 * |number| < 256 ==> (valid <==> Passes(number))
  {
    hide Wrap, Term, Weighted;
    var sum: u8 := 0;
    var idx := 0;
    while idx < |number|
      invariant 0 <= idx <= |number|
      invariant Digits(number) && 9 * |number| < 256 ==> sum == IsoSum(number[|number| - idx..])
    {
      var element := number[|number| - 1 - idx];
      ghost var rest := number[|number| - 1 - idx..];
      assert rest[1..] == number[|number| - idx..];
      if Digits(number) && 9 * |number| < 256 {
        TermIsWeighted(idx, element);
        SumBound(rest);
        WrapSmall(sum + Term(idx, element));
      }
      sum := Wrap(sum + Term(idx, element));
      idx := idx + 1;
    }
    assert number[0..] == number;
    valid := sum % 10 == 0;
  }

  function Spelled(s: string): (number: seq<u8>)
    requires AllDigits(s)
    ensures Digits(number)
  {
    seq(|s|, i requires 0 <= i < |s| => (s[i] - '0') as int)
  }

  // What a caller is promised: 8 to 19 digits, white space aside, that pass the check of the standard.
  predicate ValidCardNumber(cardNumber: string) {
    var s := StripWhitespace(cardNumber);
    AllDigits(s) && MIN_CARD_NUMBER_LENGTH <= |s| <= MAX_CARD_NUMBER_LENGTH && Passes(Spelled(s))
  }

  method SanitizeCardNumber(cardNumber: string) returns (v: Verdict)
    ensures v == Accepted <==> ValidCardNumber(cardNumber)
    ensures v == BadCharacter <==> !AllDigits(StripWhitespace(cardNumber))
    ensures v == BadLength <==> AllDigits(StripWhitespace(cardNumber)) && !(8 <= |StripWhitespace(cardNumber)| <= 19)
  {
    var stripped := StripWhitespace(cardNumber);
    var data := ValidateCardNumberChars(stripped);
    if data.None? { return BadCharacter; }
    if !(MIN_CARD_NUMBER_LENGTH <= |data.value| <= MAX_CARD_NUMBER_LENGTH) { return BadLength; }
    var valid := Luhn(data.value);
    assert data.value == Spelled(stripped);
    v := if valid then Accepted else Rejected;
  }

  // ----- what the check catches, for digit strings of every length -----

  lemma {:induction false} SumUpdate(number: seq<u8>, i: nat, x: u8)
    requires i < |number|
    ensures IsoSum(number[i := x])
         == IsoSum(number) - Weighted(number[i], |number| - 1 - i) + Weighted(x, |number| - 1 - i)
  {
    if i == 0 {
      assert number[i := x][1..] == number[1..];
    } else {
      assert number[i := x][1..] == number[1..][i - 1 := x];
      SumUpdate(number[1..], i - 1, x);
    }
  }

  lemma ModShift(sum: int, d: int)
    requires sum % 10 == 0
    ensures (sum + d) % 10 == d % 10
  {
    assert sum == 10 * (sum / 10);
  }

  lemma SmallMultiple(d: int)
    requires d % 10 == 0 && -9 <= d <= 9
    ensures d == 0
  {
  }

  lemma WeightedDistinct(a: u8, b: u8, p: nat)
    requires a <= 9 && b <= 9
    ensures a != b ==> Weighted(a, p) != Weighted(b, p)
    ensures 0 <= Weighted(a, p) <= 9
  {
  }

  lemma SingleDigitError(number: seq<u8>, i: nat, x: u8)
    requires Digits(number) && Passes(number) && i < |number| && x <= 9 && x != number[i]
    ensures !Passes(number[i := x])
  {
    hide Weighted, IsoSum;
    var p := |number| - 1 - i;
    SumUpdate(number, i, x);
    WeightedDistinct(x, number[i], p);
    WeightedDistinct(number[i], x, p);
    ModShift(IsoSum(number), Weighted(x, p) - Weighted(number[i], p));
    if Passes(number[i := x]) { SmallMultiple(Weighted(x, p) - Weighted(number[i], p)); }
  }

  // Swapping neighbours goes unnoticed exactly when they are equal or are 0 and 9.
  lemma AdjacentTransposition(number: seq<u8>, i: nat)
    requires Digits(number) && Passes(number) && i + 1 < |number|
    ensures Passes(number[i := number[i + 1]][i + 1 := number[i]])
       <==> number[i] == number[i + 1] || (number[i], number[i + 1]) == (0, 9) || (number[i], number[i + 1]) == (9, 0)
  {
    hide Weighted, IsoSum;
    var a, b, p := number[i], number[i + 1], |number| - 1 - i;
    SumUpdate(number, i, b);
    SumUpdate(number[i := b], i + 1, a);
    SwapDifference(a, b, p);
    ModShift(IsoSum(number), Weighted(b, p) - Weighted(a, p) + Weighted(a, p - 1) - Weighted(b, p - 1));
  }

  lemma SwapDifference(a: u8, b: u8, p: nat)
    requires a <= 9 && b <= 9 && p >= 1
    ensures (Weighted(b, p) - Weighted(a, p) + Weighted(a, p - 1) - Weighted(b, p - 1)) % 10 == 0
       <==> a == b || (a, b) == (0, 9) || (a, b) == (9, 0)
  {
  }
}
