/**
 The human-readable part of an invoice (BOLT #11): the network and, in pico bitcoin, an amount that is
 written with the largest multiplier that leaves it whole.
*/
module InvoiceAmount {
  import opened Common

  datatype Parsed = Parsed(network: string, pico: Option<nat>) | Invalid

  predicate Letter(c: char) { 'a' <= c <= 'z' }

  predicate Digit(c: char) { '0' <= c <= '9' }

  // ---------------------------------------------------------------------------
  // Decimal numerals

  function DigitChar(d: nat): (c: char)
    requires d < 10
    ensures Digit(c) && c as int == 48 + d
  {
    '0' + d as char
  }

  function Decimal(n: nat): (s: string)
    ensures s != [] && forall i :: 0 <= i < |s| ==> Digit(s[i])
  {
    if n < 10 then [DigitChar(n)] else Decimal(n / 10) + [DigitChar(n % 10)]
  }

  predicate Digits(s: string) {
    forall i :: 0 <= i < |s| ==> Digit(s[i])
  }

  /** `BigInt(s)`. */
  function DecimalValue(s: string): nat
    requires Digits(s)
    decreases |s|
  {
    if s == [] then 0 else 10 * DecimalValue(s[..|s| - 1]) + (s[|s| - 1] as int - 48)
  }

  lemma {:induction false} ValueOfDecimal(n: nat)
    ensures DecimalValue(Decimal(n)) == n
  {
    if n >= 10 {
      ValueOfDecimal(n / 10);
      assert Decimal(n)[..|Decimal(n)| - 1] == Decimal(n / 10);
    } else {
      assert Decimal(n)[..0] == [];
    }
  }

  // ---------------------------------------------------------------------------
  // Writing an amount

  /** The zeros a numeral ends with. */
  function TrailingZeros(s: string): (z: nat)
    ensures z <= |s|
    ensures forall i :: |s| - z <= i < |s| ==> s[i] == '0'
    ensures z < |s| ==> s[|s| - z - 1] != '0'
    decreases |s|
  {
    if s == [] || s[|s| - 1] != '0' then 0 else 1 + TrailingZeros(s[..|s| - 1])
  }

  /** None is the exception for zero. */
  method LsdIndex(s: string) returns (r: Option<nat>)
    ensures r == if TrailingZeros(s) == |s| then None else Some(TrailingZeros(s))
  {
    var i := |s| - 1;
    while i >= 0
      invariant -1 <= i < |s|
      invariant forall k :: i < k < |s| ==> s[k] == '0'
    {
      if s[i] != '0' {
        return Some(|s| - i - 1);
      }
      i := i - 1;
    }
    return None;
  }

  /** The letter of a multiplier; none for whole bitcoin. */
  function MinimumMultiplier(lsdIndex: nat): string {
    if lsdIndex < 3 then "p"
    else if lsdIndex < 6 then "n"
    else if lsdIndex < 9 then "u"
    else if lsdIndex < 12 then "m"
    else ""
  }

  /** The pico bitcoin of a multiplier; None is the exception for an unknown letter. */
  function HrpToPico(multiplier: string): (r: Option<nat>)
    ensures r.Some? ==> r.value > 0
  {
    if multiplier == "" then Some(1_000_000_000_000)
    else if multiplier == "m" then Some(1_000_000_000)
    else if multiplier == "u" then Some(1_000_000)
    else if multiplier == "n" then Some(1_000)
    else if multiplier == "p" then Some(1)
    else None
  }

  lemma {:induction false} MultiplierIsKnown(lsdIndex: nat)
    ensures HrpToPico(MinimumMultiplier(lsdIndex)).Some?
  {
  }

  /** Nothing is written for an absent amount, nor for zero. */
  function AmountOf(pico: Option<nat>): string {
    if pico.None? || pico.value == 0 then ""
    else
      var multiplier := MinimumMultiplier(TrailingZeros(Decimal(pico.value)));
      MultiplierIsKnown(TrailingZeros(Decimal(pico.value)));
      Decimal(pico.value / HrpToPico(multiplier).value) + multiplier
  }

  function PrefixOf(network: string, pico: Option<nat>): string {
    "ln" + network + AmountOf(pico)
  }

  /** `encodePico` and the empty string that stands for none. */
  method EncodePico(pico: Option<nat>) returns (r: string)
    ensures r == AmountOf(pico)
  {
    if pico.None? || pico.value == 0 { return ""; }
    var text := Decimal(pico.value);
    NotAllZeros(pico.value);
    var lsdIndex := LsdIndex(text);
    MultiplierIsKnown(lsdIndex.value);
    var multiplier := MinimumMultiplier(lsdIndex.value);
    return Decimal(pico.value / HrpToPico(multiplier).value) + multiplier;
  }

  /** How often ten divides a number. */
  function Tens(n: nat): nat {
    if n > 0 && n % 10 == 0 then 1 + Tens(n / 10) else 0
  }

  lemma {:induction false} ZerosAreTens(n: nat)
    requires n > 0
    ensures TrailingZeros(Decimal(n)) == Tens(n)
  {
    var s := Decimal(n);
    if n >= 10 {
      assert s[..|s| - 1] == Decimal(n / 10);
      assert s[|s| - 1] == '0' <==> n % 10 == 0;
      if n % 10 == 0 {
        ZerosAreTens(n / 10);
      }
    }
  }

  lemma {:induction false} NotAllZeros(n: nat)
    requires n > 0
    ensures TrailingZeros(Decimal(n)) < |Decimal(n)|
  {
    var s := Decimal(n);
    if n >= 10 {
      NotAllZeros(n / 10);
      assert s[..|s| - 1] == Decimal(n / 10);
    }
  }

  lemma {:induction false} Ten(n: nat)
    requires Tens(n) >= 1
    ensures n == 10 * (n / 10) && n / 10 > 0 && Tens(n / 10) == Tens(n) - 1
  {
  }

  lemma {:induction false} Thousand(n: nat)
    requires Tens(n) >= 3
    ensures n == 1_000 * (n / 1_000) && n / 1_000 > 0 && Tens(n / 1_000) == Tens(n) - 3
  {
    hide Tens;
    Ten(n);
    Ten(n / 10);
    Ten(n / 10 / 10);
    var a := n / 10 / 10 / 10;
    assert n == 1_000 * a;
    assert n / 1_000 == a;
  }

  lemma {:induction false} UnitOf(lsdIndex: nat)
    ensures HrpToPico(MinimumMultiplier(lsdIndex)) == Some(
              if lsdIndex < 3 then 1 else if lsdIndex < 6 then 1_000 else if lsdIndex < 9 then 1_000_000
              else if lsdIndex < 12 then 1_000_000_000 else 1_000_000_000_000)
  {
  }

  lemma {:induction false} DividesBack(n: nat, unit: nat, quotient: nat)
    requires unit in [1, 1_000, 1_000_000, 1_000_000_000, 1_000_000_000_000]
    requires n == unit * quotient
    ensures n / unit * unit == n
  {
    if unit == 1 {
    } else if unit == 1_000 {
      assert n / 1_000 == quotient;
    } else if unit == 1_000_000 {
      assert n / 1_000_000 == quotient;
    } else if unit == 1_000_000_000 {
      assert n / 1_000_000_000 == quotient;
    } else {
      assert n / 1_000_000_000_000 == quotient;
    }
  }

  /** The multiplier divides the amount. */
  lemma {:induction false} AmountIsWhole(n: nat)
    requires n > 0
    ensures var unit := HrpToPico(MinimumMultiplier(Tens(n))).value; n / unit * unit == n
  {
    UnitOf(Tens(n));
    hide Tens, HrpToPico, MinimumMultiplier;
    if Tens(n) < 3 {
      DividesBack(n, 1, n);
    } else {
      Thousand(n);
      var a := n / 1_000;
      if Tens(n) < 6 {
        DividesBack(n, 1_000, a);
      } else {
        Thousand(a);
        var b := a / 1_000;
        if Tens(n) < 9 {
          DividesBack(n, 1_000_000, b);
        } else {
          Thousand(b);
          var c := b / 1_000;
          if Tens(n) < 12 {
            DividesBack(n, 1_000_000_000, c);
          } else {
            Thousand(c);
            DividesBack(n, 1_000_000_000_000, c / 1_000);
          }
        }
      }
    }
  }

  // ---------------------------------------------------------------------------
  // Reading a prefix

  function LetterRun(s: string): (n: nat)
    ensures n <= |s| && (forall i :: 0 <= i < n ==> Letter(s[i])) && (n < |s| ==> !Letter(s[n]))
  {
    if s == [] || !Letter(s[0]) then 0 else 1 + LetterRun(s[1..])
  }

  function DigitRun(s: string): (n: nat)
    ensures n <= |s| && Digits(s[..n]) && (n < |s| ==> !Digit(s[n]))
  {
    if s == [] || !Digit(s[0]) then 0 else 1 + DigitRun(s[1..])
  }

  predicate ValidNetwork(network: string) {
    network == "bc" || network == "tb" || network == "bcrt" || network == "sb" || network == "tbs"
  }

  /** Network letters, then digits, and what follows. */
  datatype Tokens = Tokens(network: string, digits: string, tail: string)

  function TokensOf(rest: string): (t: Tokens)
    ensures Digits(t.digits)
  {
    var after := rest[LetterRun(rest)..];
    Tokens(rest[..LetterRun(rest)], after[..DigitRun(after)], after[DigitRun(after)..])
  }

  /** The last letter behind the digits is the multiplier. */
  function ParsedTokens(t: Tokens): Parsed
    requires Digits(t.digits)
  {
    var multiplier := if t.tail == [] then "" else [t.tail[|t.tail| - 1]];
    if t.digits == [] && t.tail != [] then Invalid
    else if exists i :: 0 <= i < |t.tail| && !Letter(t.tail[i]) then Invalid
    else Valued(t.network, t.digits, multiplier)
  }

  function Valued(network: string, digits: string, multiplier: string): Parsed
    requires Digits(digits)
  {
    var unit := HrpToPico(multiplier);
    if digits != [] && unit.None? then Invalid
    else
      var pico := if digits == [] then None else Some(DecimalValue(digits) * unit.value);
      if !ValidNetwork(network) || pico == Some(0) then Invalid else Parsed(network, pico)
  }

  function ParsedOf(prefix: string): Parsed {
    if |prefix| < 2 || prefix[..2] != "ln" then Invalid else ParsedTokens(TokensOf(prefix[2..]))
  }

  /** Where the loop stands after k characters behind "ln". */
  ghost predicate Scanned(
      rest: string, k: nat, network: string, tempValue: string, multiplier: string, hasNetwork: bool, hasAmount: bool)
    requires k <= |rest|
  {
    var l := LetterRun(rest);
    var after := rest[l..];
    var d := DigitRun(after);
    && (!hasNetwork ==> k <= l && network == rest[..k] && tempValue == "" && !hasAmount)
    && (hasNetwork ==> k > l && network == rest[..l])
    && (hasNetwork && !hasAmount ==> k - l <= d && tempValue == after[..k - l])
    && (!hasAmount ==> multiplier == "")
    && (hasAmount ==> hasNetwork && 0 < d < k - l && tempValue == after[..d] && multiplier == [rest[k - 1]])
    && (hasAmount ==> forall i :: l + d <= i < k ==> Letter(rest[i]))
  }

  /** A character that stops the loop. */
  lemma {:induction false} StopsAt(rest: string, k: nat)
    requires k < |rest|
    requires var l := LetterRun(rest); var d := DigitRun(rest[l..]);
             (k == l && d == 0) || (k >= l + d && !Letter(rest[k]))
    ensures ParsedTokens(TokensOf(rest)) == Invalid
  {
    hide Valued;
    var l := LetterRun(rest);
    var d, t := DigitRun(rest[l..]), TokensOf(rest);
    if k >= l + d {
      assert t.tail[k - l - d] == rest[k];
    }
  }

  /** One turn of the loop, or an exception. */
  method ScanCharacter(
      ghost rest: string, ghost k: nat, c: char,
      network0: string, tempValue0: string, multiplier0: string, hasNetwork0: bool, hasAmount0: bool)
    returns (ok: bool, network: string, tempValue: string, multiplier: string, hasNetwork: bool, hasAmount: bool)
    requires k < |rest| && c == rest[k] && Scanned(rest, k, network0, tempValue0, multiplier0, hasNetwork0, hasAmount0)
    ensures ok ==> Scanned(rest, k + 1, network, tempValue, multiplier, hasNetwork, hasAmount)
    ensures !ok ==> ParsedTokens(TokensOf(rest)) == Invalid
  {
    hide ParsedTokens, TokensOf, LetterRun, DigitRun;
    network, tempValue, multiplier, hasNetwork, hasAmount := network0, tempValue0, multiplier0, hasNetwork0, hasAmount0;
    ok := true;
    ghost var l := LetterRun(rest);
    assert k >= l ==> rest[l..][k - l] == c;
    if !hasNetwork {
      if Letter(c) { network := network + [c]; }
      else { hasNetwork := true; }
    }
    if hasNetwork && !hasAmount {
      if Digit(c) { tempValue := tempValue + [c]; }
      else if tempValue != "" { hasAmount := true; }
      else {
        ok := false;
        StopsAt(rest, k);
        return;
      }
    }
    if hasAmount {
      if Letter(c) { multiplier := [c]; }
      else {
        ok := false;
        StopsAt(rest, k);
      }
    }
  }

  method ParsePrefix(prefix: string) returns (r: Parsed)
    ensures r == ParsedOf(prefix)
  {
    hide HrpToPico, DecimalValue, LetterRun, DigitRun, TokensOf, ParsedTokens;
    if |prefix| < 2 || prefix[..2] != "ln" { return Invalid; }
    var network, tempValue, multiplier, hasNetwork, hasAmount := "", "", "", false, false;
    ghost var rest := prefix[2..];
    var i := 2;
    while i < |prefix|
      invariant 2 <= i <= |prefix|
      invariant Scanned(rest, i - 2, network, tempValue, multiplier, hasNetwork, hasAmount)
    {
      hide Scanned;
      var ok;
      ok, network, tempValue, multiplier, hasNetwork, hasAmount :=
        ScanCharacter(rest, i - 2, prefix[i], network, tempValue, multiplier, hasNetwork, hasAmount);
      if !ok { return Invalid; }
      i := i + 1;
    }
    ScannedAll(rest, network, tempValue, multiplier, hasNetwork, hasAmount);
    var value: Option<nat> := None;
    if tempValue != "" {
      var unit := HrpToPico(multiplier);
      if unit.None? { return Invalid; }
      value := Some(DecimalValue(tempValue) * unit.value);
    }
    if !ValidNetwork(network) { return Invalid; }
    if value == Some(0) { return Invalid; }
    return Parsed(network, value);
  }

  lemma {:induction false} ScannedAll(
      rest: string, network: string, tempValue: string, multiplier: string, hasNetwork: bool, hasAmount: bool)
    requires Scanned(rest, |rest|, network, tempValue, multiplier, hasNetwork, hasAmount)
    ensures Digits(tempValue)
    ensures ParsedTokens(TokensOf(rest)) == Valued(network, tempValue, multiplier)
  {
    hide Valued;
    var l := LetterRun(rest);
    var d, t := DigitRun(rest[l..]), TokensOf(rest);
    assert network == t.network;
    assert tempValue == t.digits;
    assert forall i :: 0 <= i < |t.tail| ==> t.tail[i] == rest[l + d + i];
    assert multiplier == if t.tail == [] then "" else [t.tail[|t.tail| - 1]];
  }

  // ---------------------------------------------------------------------------
  // Round trip

  /** A prefix gives back the network and the exact amount if and only if the network is known and the amount not zero. */
  lemma {:induction false} PrefixRoundTripIff(network: string, pico: Option<nat>)
    ensures ParsedOf(PrefixOf(network, pico)) == Parsed(network, pico) <==> ValidNetwork(network) && pico != Some(0)
  {
    if ValidNetwork(network) && pico != Some(0) {
      PrefixParses(network, pico);
    }
  }

  lemma {:induction false} NetworkIsLetters(network: string)
    requires ValidNetwork(network)
    ensures forall i :: 0 <= i < |network| ==> Letter(network[i])
  {
  }

  lemma {:induction false} TokensBack(network: string, digits: string, tail: string)
    requires (forall i :: 0 <= i < |network| ==> Letter(network[i])) && Digits(digits)
    requires digits == [] ==> tail == []
    requires tail != [] ==> !Digit(tail[0])
    ensures TokensOf(network + (digits + tail)) == Tokens(network, digits, tail)
  {
    hide LetterRun, DigitRun;
    var after := digits + tail;
    var rest := network + after;
    assert forall i :: 0 <= i < |network| ==> rest[i] == network[i];
    assert after != [] ==> rest[|network|] == digits[0];
    assert LetterRun(rest) == |network|;
    assert rest[|network|..] == after && rest[..|network|] == network;
    assert forall i :: 0 <= i < |digits| ==> after[i] == digits[i];
    assert tail != [] ==> after[|digits|] == tail[0];
    assert DigitRun(after) == |digits|;
    assert after[..|digits|] == digits && after[|digits|..] == tail;
  }

  lemma {:induction false} BehindLn(network: string, amount: string)
    ensures var prefix := "ln" + network + amount;
            |prefix| >= 2 && prefix[..2] == "ln" && prefix[2..] == network + amount
  {
  }

  lemma {:induction false} PrefixParses(network: string, pico: Option<nat>)
    requires ValidNetwork(network) && pico != Some(0)
    ensures ParsedOf(PrefixOf(network, pico)) == Parsed(network, pico)
  {
    NetworkIsLetters(network);
    hide Decimal, HrpToPico, ValidNetwork, TokensOf, ParsedTokens, AmountOf;
    var prefix, amount := PrefixOf(network, pico), AmountOf(pico);
    BehindLn(network, amount);
    if pico.None? {
      NothingParses(network);
    } else {
      AmountParses(network, pico.value);
    }
  }

  lemma {:induction false} NothingParses(network: string)
    requires ValidNetwork(network) && forall i :: 0 <= i < |network| ==> Letter(network[i])
    ensures ParsedTokens(TokensOf(network + AmountOf(None))) == Parsed(network, None)
  {
    hide TokensOf, ValidNetwork;
    TokensBack(network, "", "");
    assert "" + "" == "" && AmountOf(None) == "";
  }

  lemma {:induction false} AmountParses(network: string, n: nat)
    requires n > 0 && ValidNetwork(network) && forall i :: 0 <= i < |network| ==> Letter(network[i])
    ensures ParsedTokens(TokensOf(network + AmountOf(Some(n)))) == Parsed(network, Some(n))
  {
    hide Decimal, HrpToPico, MinimumMultiplier, Tens, DecimalValue, TrailingZeros, TokensOf, ValidNetwork;
    ZerosAreTens(n);
    AmountIsWhole(n);
    MultiplierIsLetter(Tens(n));
    MultiplierIsKnown(Tens(n));
    var multiplier := MinimumMultiplier(Tens(n));
    var unit := HrpToPico(multiplier).value;
    ValueOfDecimal(n / unit);
    assert AmountOf(Some(n)) == Decimal(n / unit) + multiplier;
    hide AmountOf;
    TokensBack(network, Decimal(n / unit), multiplier);
    assert multiplier != "" ==> multiplier == [multiplier[|multiplier| - 1]];
  }

  lemma {:induction false} MultiplierIsLetter(lsdIndex: nat)
    ensures var m := MinimumMultiplier(lsdIndex); m == "" || (|m| == 1 && Letter(m[0]) && !Digit(m[0]))
  {
  }
}
