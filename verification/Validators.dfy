/** The second-stage checks on numeric matches: SSN shapes, card schemes and the Luhn checksum. */
module Validators {
  import opened Wrappers

  predicate IsDigit(c: char) {
    '0' <= c <= '9'
  }

  /** The characters that may separate the groups of a written number. */
  predicate IsSeparator(c: char) {
    c in {' ', '-', '.', ',', '_', '/', '\U{A0}', '\t', '\n', '\r',
          '\U{2010}', '\U{2011}', '\U{2012}', '\U{2013}', '\U{2014}', '\U{2212}'}
  }

  predicate IsRunChar(c: char) {
    IsDigit(c) || IsSeparator(c)
  }

  predicate AllDigits(s: string) {
    forall i :: 0 <= i < |s| ==> IsDigit(s[i])
  }

  function DigitsOf(text: string): (digits: string)
    ensures AllDigits(digits) && |digits| <= |text|
    ensures AllDigits(text) ==> digits == text
  {
    if text == "" then ""
    else if IsDigit(text[0]) then [text[0]] + DigitsOf(text[1..])
    else DigitsOf(text[1..])
  }

  function Value(c: char): (d: nat)
    requires IsDigit(c)
    ensures d < 10
  {
    (c - '0') as nat
  }

  function Number(digits: string): nat
    requires AllDigits(digits)
  {
    if digits == "" then 0 else 10 * Number(digits[..|digits| - 1]) + Value(digits[|digits| - 1])
  }

  // --------------------------------------------------------------- checksum

  /** What a digit adds: itself, or its double with nine cast out in every second place from the right. */
  function Weight(d: nat, doubled: bool): (w: nat)
    requires d < 10
    ensures w < 10
  {
    if !doubled then d else if 2 * d > 9 then 2 * d - 9 else 2 * d
  }

  function LuhnSum(digits: string): nat
    requires AllDigits(digits)
  {
    if digits == "" then 0
    else Weight(Value(digits[0]), (|digits| - 1) % 2 == 1) + LuhnSum(digits[1..])
  }

  predicate LuhnOk(text: string) {
    13 <= |DigitsOf(text)| <= 19 && LuhnSum(DigitsOf(text)) % 10 == 0
  }

  /** The checksum as it is computed: over the digits from the right. */
  method LuhnCheck(text: string) returns (ok: bool)
    ensures ok == LuhnOk(text)
  {
    var digits := DigitsOf(text);
    if !(13 <= |digits| <= 19) {
      return false;
    }
    var total := 0;
    for index := 0 to |digits|
      invariant total == LuhnSum(digits[|digits| - index..])
    {
      var place := |digits| - 1 - index;
      var digit := Value(digits[place]);
      if index % 2 == 1 {
        digit := digit * 2;
        if digit > 9 {
          digit := digit - 9;
        }
      }
      assert digits[place..][1..] == digits[place + 1..];
      total := total + digit;
    }
    return total % 10 == 0;
  }

  /** Whether place `i` of a number of `n` digits is one that is doubled. */
  predicate Doubled(n: nat, i: nat) {
    (n - 1 - i) % 2 == 1
  }

  lemma {:induction false} ReplaceOne(digits: string, i: nat, c: char)
    requires AllDigits(digits) && i < |digits| && IsDigit(c)
    ensures AllDigits(digits[i := c])
    ensures LuhnSum(digits[i := c])
         == LuhnSum(digits) - Weight(Value(digits[i]), Doubled(|digits|, i)) + Weight(Value(c), Doubled(|digits|, i))
  {
    if i == 0 {
      assert digits[0 := c][1..] == digits[1..];
    } else {
      assert digits[i := c][1..] == digits[1..][i - 1 := c];
      ReplaceOne(digits[1..], i - 1, c);
    }
  }

  /** Every single-digit substitution is caught, at every length. */
  lemma SubstitutionCaught(digits: string, i: nat, c: char)
    requires AllDigits(digits) && LuhnOk(digits)
    requires i < |digits| && IsDigit(c) && c != digits[i]
    ensures !LuhnOk(digits[i := c])
  {
    hide LuhnSum, DigitsOf;
    ReplaceOne(digits, i, c);
    assert DigitsOf(digits[i := c]) == digits[i := c] && DigitsOf(digits) == digits;
    WeightsDiffer(Value(digits[i]), Value(c), Doubled(|digits|, i));
  }

  lemma WeightsDiffer(a: nat, b: nat, doubled: bool)
    requires a < 10 && b < 10 && a != b
    ensures (Weight(b, doubled) - Weight(a, doubled)) % 10 != 0
  {
  }

  function Swap(digits: string, i: nat): string
    requires i + 1 < |digits|
  {
    digits[i := digits[i + 1]][i + 1 := digits[i]]
  }

  /** What the checksum loses when two neighbours are exchanged, the first of them doubled or not. */
  function SwapLoss(a: nat, b: nat, doubled: bool): int
    requires a < 10 && b < 10
  {
    Weight(a, doubled) + Weight(b, !doubled) - Weight(b, doubled) - Weight(a, !doubled)
  }

  lemma DoubledNext(n: nat, i: nat)
    ensures Doubled(n, i + 1) <==> !Doubled(n, i)
  {
  }

  lemma SwapSum(digits: string, i: nat)
    requires AllDigits(digits) && i + 1 < |digits|
    ensures AllDigits(Swap(digits, i)) && |Swap(digits, i)| == |digits|
    ensures LuhnSum(Swap(digits, i))
         == LuhnSum(digits) - SwapLoss(Value(digits[i]), Value(digits[i + 1]), Doubled(|digits|, i))
  {
    hide LuhnSum, Weight, Value, Doubled;
    var once := digits[i := digits[i + 1]];
    ReplaceOne(digits, i, digits[i + 1]);
    ReplaceOne(once, i + 1, digits[i]);
    assert |once| == |digits| && once[i + 1] == digits[i + 1];
    DoubledNext(|digits|, i);
  }

  /** The loss is below ten, and nothing exactly for equal digits or a 0 beside a 9. */
  lemma LossIsSmall(a: nat, b: nat, doubled: bool)
    requires a < 10 && b < 10
    ensures -10 < SwapLoss(a, b, doubled) < 10
    ensures SwapLoss(a, b, doubled) == 0 <==> a == b || (a == 0 && b == 9) || (a == 9 && b == 0)
  {
  }

  lemma SmallLossShows(sum: nat, loss: int)
    requires sum % 10 == 0 && -10 < loss < 10
    ensures (sum - loss) % 10 == 0 <==> loss == 0
  {
  }

  /** Exchanging two neighbours is caught exactly when they differ and are not a 0 beside a 9. */
  lemma TranspositionCaught(digits: string, i: nat)
    requires AllDigits(digits) && LuhnOk(digits) && i + 1 < |digits|
    ensures LuhnOk(Swap(digits, i)) <==> digits[i] == digits[i + 1] || {digits[i], digits[i + 1]} == {'0', '9'}
  {
    hide LuhnSum, DigitsOf, SwapLoss, Swap;
    var a, b := digits[i], digits[i + 1];
    SwapSum(digits, i);
    assert DigitsOf(Swap(digits, i)) == Swap(digits, i) && DigitsOf(digits) == digits;
    LossIsSmall(Value(a), Value(b), Doubled(|digits|, i));
    SmallLossShows(LuhnSum(digits), SwapLoss(Value(a), Value(b), Doubled(|digits|, i)));
    ZeroAndNine(a, b);
  }

  lemma ZeroAndNine(a: char, b: char)
    ensures {a, b} == {'0', '9'} <==> (a == '0' && b == '9') || (a == '9' && b == '0')
  {
    assert {a, b} == {'0', '9'} ==> '0' in {a, b} && '9' in {a, b};
  }

  lemma LastPlaceCounts(prefix: string, c: char)
    requires AllDigits(prefix) && IsDigit(c)
    ensures AllDigits(prefix + [c]) && LuhnSum(prefix + [c]) == LuhnSum(prefix + "0") + Value(c)
  {
    var zero := prefix + "0";
    ReplaceOne(zero, |prefix|, c);
    assert zero[|prefix| := c] == prefix + [c];
  }

  /** Every prefix of an acceptable length has exactly one digit that completes it. */
  lemma OneCheckDigit(prefix: string) returns (check: char)
    requires AllDigits(prefix) && 12 <= |prefix| <= 18
    ensures IsDigit(check)
    ensures forall c :: IsDigit(c) ==> (LuhnOk(prefix + [c]) <==> c == check)
  {
    LastPlaceCounts(prefix, '0');
    var sum := LuhnSum(prefix + "0");
    check := Completing(sum);
    hide LuhnSum, DigitsOf;
    forall c | IsDigit(c)
      ensures LuhnOk(prefix + [c]) <==> c == check
    {
      LastPlaceCounts(prefix, c);
      assert DigitsOf(prefix + [c]) == prefix + [c];
      OneCompletes(sum, c);
    }
  }

  /** The digit that lifts a sum to the next multiple of ten. */
  function Completing(sum: nat): (c: char)
    ensures IsDigit(c) && Value(c) == (10 - sum % 10) % 10
  {
    '0' + ((10 - sum % 10) % 10) as char
  }

  lemma OneCompletes(sum: nat, c: char)
    requires IsDigit(c)
    ensures (sum + Value(c)) % 10 == 0 <==> c == Completing(sum)
  {
    assert Value(c) == Value(Completing(sum)) <==> c == Completing(sum);
  }

  // ---------------------------------------------------------- shapes and schemes

  /** SSN shapes that are issued: nine digits, no reserved area, no empty group or serial. */
  predicate SsnOk(text: string) {
    var digits := DigitsOf(text);
    && |digits| == 9
    && digits[..3] !in {"000", "666"} && digits[0] != '9'
    && digits[3..5] != "00" && digits[5..] != "0000"
  }

  datatype Scheme = Visa | Amex | Mastercard | Discover | Diners | Jcb | UnionPay

  /** The numbers a scheme issues: each by its own lengths and leading digits. */
  predicate Issues(scheme: Scheme, digits: string) {
    AllDigits(digits) && match scheme {
      case Visa => |digits| in {13, 16, 19} && digits[0] == '4'
      case Amex => |digits| == 15 && digits[..2] in {"34", "37"}
      case Mastercard =>
        |digits| == 16 && (digits[..2] in {"51", "52", "53", "54", "55"} || 2221 <= Number(digits[..4]) <= 2720)
      case Discover =>
        |digits| in {16, 19} && (digits[..4] == "6011" || digits[..2] == "65" || 644 <= Number(digits[..3]) <= 649)
      case Diners => |digits| == 14 && (digits[..2] in {"36", "38"} || 300 <= Number(digits[..3]) <= 305)
      case Jcb => |digits| == 16 && 3528 <= Number(digits[..4]) <= 3589
      case UnionPay => 16 <= |digits| <= 19 && digits[..2] == "62"
    }
  }

  lemma LeadingNumbers(digits: string)
    requires AllDigits(digits) && |digits| >= 4
    ensures Number(digits[..3]) == 100 * Value(digits[0]) + 10 * Value(digits[1]) + Value(digits[2])
    ensures Number(digits[..4]) == 10 * Number(digits[..3]) + Value(digits[3])
  {
    assert digits[..4][..3] == digits[..3] && digits[..3][..2] == digits[..2] && digits[..2][..1] == digits[..1];
    assert digits[..1][..0] == "" && Number("") == 0;
    assert Number(digits[..1]) == Value(digits[0]);
    assert Number(digits[..2]) == 10 * Number(digits[..1]) + Value(digits[1]);
  }

  /** What a scheme's rule says of a number's length and its first two digits. */
  predicate Leads(scheme: Scheme, length: nat, first: nat, second: nat) {
    match scheme
    case Visa => first == 4
    case Amex => length == 15 && first == 3
    case Mastercard => first == 2 || (first == 5 && second >= 1)
    case Discover => first == 6 && second != 2
    case Diners => length == 14 && first == 3
    case Jcb => length == 16 && first == 3
    case UnionPay => first == 6 && second == 2
  }

  lemma IssuesLeads(scheme: Scheme, digits: string)
    requires Issues(scheme, digits)
    ensures AllDigits(digits) && |digits| >= 4 && Leads(scheme, |digits|, Value(digits[0]), Value(digits[1]))
  {
    LeadingNumbers(digits);
    hide Number, AllDigits;
    assert digits[..2][0] == digits[0] && digits[..2][1] == digits[1];
    assert digits[..4][0] == digits[0] && digits[..4][1] == digits[1];
    assert Value(digits[2]) < 10 && Value(digits[3]) < 10;
  }

  /** No number belongs to two schemes, so the order of the table makes no difference. */
  lemma SchemesAreDisjoint(a: Scheme, b: Scheme, digits: string)
    requires Issues(a, digits) && Issues(b, digits)
    ensures a == b
  {
    hide Issues;
    IssuesLeads(a, digits);
    IssuesLeads(b, digits);
  }

  /** The scheme that issues the number: the one whose rule fits, if any does. */
  function CardScheme(digits: string): (scheme: Option<Scheme>)
    ensures scheme.Some? ==> AllDigits(digits) && 13 <= |digits| <= 19
    ensures scheme.Some? ==> Issues(scheme.value, digits)
  {
    var length := |digits|;
    if length == 0 || !AllDigits(digits) then None
    else
      var head4 := if length >= 4 then Number(digits[..4]) else -1;
      var head3 := if length >= 3 then Number(digits[..3]) else -1;
      var head2 := if length >= 2 then digits[..2] else "";
      if digits[0] == '4' && length in {13, 16, 19} then Some(Visa)
      else if head2 in {"34", "37"} && length == 15 then Some(Amex)
      else if (head2 in {"51", "52", "53", "54", "55"} || 2221 <= head4 <= 2720) && length == 16 then Some(Mastercard)
      else if ((length >= 4 && digits[..4] == "6011") || head2 == "65" || 644 <= head3 <= 649) && length in {16, 19}
      then Some(Discover)
      else if (head2 in {"36", "38"} || 300 <= head3 <= 305) && length == 14 then Some(Diners)
      else if 3528 <= head4 <= 3589 && length == 16 then Some(Jcb)
      else if head2 == "62" && 16 <= length <= 19 then Some(UnionPay)
      else None
  }

  /** A number is given a scheme exactly if the scheme issues it. */
  lemma SchemeExactly(digits: string, s: Scheme)
    ensures CardScheme(digits) == Some(s) <==> Issues(s, digits)
  {
    if Issues(s, digits) {
      hide Number, AllDigits;
      assert CardScheme(digits).Some?;
      SchemesAreDisjoint(s, CardScheme(digits).value, digits);
    }
  }

  predicate IsCard(text: string) {
    var digits := DigitsOf(text);
    13 <= |digits| <= 19 && CardScheme(digits).Some? && LuhnOk(digits)
  }

  /** Layout never matters: a card is judged by its digits, and its length test is implied by its scheme. */
  lemma CardIsItsDigits(text: string)
    ensures IsCard(text) <==> CardScheme(DigitsOf(text)).Some? && LuhnOk(text)
    ensures IsCard(text) <==> IsCard(DigitsOf(text))
  {
    assert DigitsOf(DigitsOf(text)) == DigitsOf(text);
  }
}
