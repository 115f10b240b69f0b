/**
 * The machine-readable zone of a passport (src/kyc/mrz.service.ts): check digits as in
 * section 4.9 of ICAO Doc 9303 Part 3, and exactly which misreadings of one character they catch.
 * `upper` is the case mapping of the host language.
 */
module Mrz {
  import opened Wrappers
  import opened Money

  function CharValue(c: char): int {
    if c == '<' then 0
    else if '0' <= c <= '9' then c as int - 48
    else if 'A' <= c <= 'Z' then c as int - 55
    else -1
  }

  function Weight(i: nat): nat {
    if i % 3 == 0 then 7 else if i % 3 == 1 then 3 else 1
  }

  predicate Readable(s: string) {
    forall i :: 0 <= i < |s| ==> CharValue(s[i]) >= 0
  }

  function WeightedSum(s: string): int {
    if |s| == 0 then 0 else WeightedSum(s[..|s| - 1]) + CharValue(s[|s| - 1]) * Weight(|s| - 1)
  }

  /** The check digit of a field, -1 for a character that has no value. */
  function DigitOf(s: string): int {
    if Readable(s) then WeightedSum(s) % 10 else -1
  }

  method CheckDigit(input: string) returns (digit: int)
    ensures digit == DigitOf(input)
  {
    var weights := [7, 3, 1];
    var sum := 0;
    for i := 0 to |input|
      invariant Readable(input[..i]) && sum == WeightedSum(input[..i])
    {
      assert input[..i + 1][..i] == input[..i];
      var v := CharValue(input[i]);
      if v < 0 {
        return -1;
      }
      sum := sum + v * weights[i % 3];
    }
    assert input[..|input|] == input;
    return sum % 10;
  }

  /** The characters in the order of their values, as section 4.9 of ICAO Doc 9303 Part 3 lists them; the filler counts as 0. */
  const IN_ORDER := "0123456789ABCDEFGHIJKLMNOPQRSTUVWXYZ"

  lemma ValuesInOrder(c: char)
    ensures forall k :: 0 <= k < |IN_ORDER| ==> CharValue(IN_ORDER[k]) == k
    ensures c != '<' && c !in IN_ORDER ==> CharValue(c) == -1
    ensures CharValue('<') == 0
  {
    if c != '<' && CharValue(c) >= 0 {
      assert IN_ORDER[CharValue(c)] == c;
    }
  }

  lemma {:induction false} OneMoreCharacter(s: string, c: char, longer: string)
    requires longer == s + [c]
    ensures WeightedSum(longer) == WeightedSum(s) + CharValue(c) * Weight(|s|)
  {
    assert longer[..|longer| - 1] == s;
  }

  lemma DateStart()
    ensures WeightedSum("520") == 5 * 7 + 2 * 3 + 0 * 1
  {
    OneMoreCharacter("", '5', "5");
    OneMoreCharacter("5", '2', "52");
    OneMoreCharacter("52", '0', "520");
  }

  /** The worked examples of that section: a date, and a document number with fillers. */
  lemma DateExample()
    ensures DigitOf("520727") == 3
  {
    DateStart();
    OneMoreCharacter("520", '7', "5207");
    OneMoreCharacter("5207", '2', "52072");
    OneMoreCharacter("52072", '7', "520727");
  }

  lemma DocumentNumber()
    ensures WeightedSum("AB2134") == 10 * 7 + 11 * 3 + 2 * 1 + 1 * 7 + 3 * 3 + 4 * 1
  {
    OneMoreCharacter("", 'A', "A");
    OneMoreCharacter("A", 'B', "AB");
    OneMoreCharacter("AB", '2', "AB2");
    OneMoreCharacter("AB2", '1', "AB21");
    OneMoreCharacter("AB21", '3', "AB213");
    OneMoreCharacter("AB213", '4', "AB2134");
  }

  lemma DocumentExample()
    ensures DigitOf("AB2134<<<") == 5
  {
    DocumentNumber();
    OneMoreCharacter("AB2134", '<', "AB2134<");
    OneMoreCharacter("AB2134<", '<', "AB2134<<");
    OneMoreCharacter("AB2134<<", '<', "AB2134<<<");
  }

  /** A field agrees with the character that claims to be its check digit; only a decimal digit is a number. */
  predicate Agrees(field: string, cd: char) {
    DigitOf(field) >= 0 && IsDigit(cd) && DigitOf(field) == DigitValue(cd)
  }

  function RemoveSpaces(s: string): string {
    if |s| == 0 then "" else RemoveSpaces(s[..|s| - 1]) + if IsSpace(s[|s| - 1]) then "" else [s[|s| - 1]]
  }

  /** Upper case without white space; the line breaks removed first in the source are white space too. */
  function Cleaned(upper: string -> string, raw: string): string {
    RemoveSpaces(upper(raw))
  }

  /** The second line's fields and check digits that go into the composite check digit. */
  function Composite(m: string): string
    requires |m| == 88
  {
    m[44..54] + m[57..64] + m[65..87]
  }

  predicate Accepted(m: string) {
    && |m| == 88
    && Agrees(m[44..53], m[53]) && Agrees(m[57..63], m[63]) && Agrees(m[65..71], m[71])
    && Agrees(Composite(m), m[87])
  }

  lemma SliceOfTail(m: string, k: nat, a: nat, b: nat)
    requires k + a <= k + b <= |m|
    ensures m[k..][a..b] == m[k + a..k + b]
  {
  }

  lemma SecondLine(m: string)
    requires |m| == 88
    ensures var l2 := m[44..];
            && l2[0..9] == m[44..53] && l2[10..13] == m[54..57] && l2[13..19] == m[57..63]
            && l2[21..27] == m[65..71] && l2[28..42] == m[72..86]
  {
    SliceOfTail(m, 44, 0, 9);
    SliceOfTail(m, 44, 10, 13);
    SliceOfTail(m, 44, 13, 19);
    SliceOfTail(m, 44, 21, 27);
    SliceOfTail(m, 44, 28, 42);
  }

  lemma CompositeOfParts(m: string)
    requires |m| == 88
    ensures m[44..53] + [m[53]] + m[57..63] + [m[63]] + m[65..71] + [m[71]] + m[72..86] + [m[86]] == Composite(m)
  {
    assert m[44..53] + [m[53]] == m[44..54] && m[57..63] + [m[63]] == m[57..64];
    assert m[65..71] + [m[71]] == m[65..72] && m[72..86] + [m[86]] == m[72..87];
    assert m[65..72] + m[72..87] == m[65..87];
    var a, b, c, d := m[44..53] + [m[53]], m[57..63], m[65..71], m[72..86];
    assert a + b + [m[63]] == a + (b + [m[63]]);
    assert a + (b + [m[63]]) + c + [m[71]] == a + (b + [m[63]]) + (c + [m[71]]);
    assert a + (b + [m[63]]) + (c + [m[71]]) + d + [m[86]] == a + (b + [m[63]]) + ((c + [m[71]]) + (d + [m[86]]));
  }

  datatype MrzError = BadLength(received: nat) | BadDocumentNumber | BadBirthDate | BadExpiryDate | BadComposite
  datatype MrzFields = MrzFields(documentNumber: string, nationality: string, birthDate: string, sex: char, expiryDate: string)
  datatype MrzResult = MrzResult(valid: bool, fields: Option<MrzFields>, errors: seq<MrzError>)

  function RemoveFillers(s: string): string {
    if |s| == 0 then "" else RemoveFillers(s[..|s| - 1]) + if s[|s| - 1] == '<' then "" else [s[|s| - 1]]
  }

  lemma CountSnoc(s: string, x: char, c: char)
    ensures multiset(s + [x])[c] == multiset(s)[c] + if x == c then 1 else 0
  {
  }

  /** Exactly the fillers go, and exactly the white space. */
  lemma {:induction false} OnlyFillersGo(s: string, c: char)
    ensures multiset(RemoveFillers(s))[c] == if c == '<' then 0 else multiset(s)[c]
  {
    if |s| > 0 {
      var shorter, last := s[..|s| - 1], s[|s| - 1];
      assert s == shorter + [last];
      OnlyFillersGo(shorter, c);
      CountSnoc(shorter, last, c);
      CountSnoc(RemoveFillers(shorter), last, c);
      assert RemoveFillers(s) == if last == '<' then RemoveFillers(shorter) else RemoveFillers(shorter) + [last];
    }
  }

  lemma {:induction false} OnlySpacesGo(s: string, c: char)
    ensures multiset(RemoveSpaces(s))[c] == if IsSpace(c) then 0 else multiset(s)[c]
  {
    if |s| > 0 {
      var shorter, last := s[..|s| - 1], s[|s| - 1];
      assert s == shorter + [last];
      OnlySpacesGo(shorter, c);
      CountSnoc(shorter, last, c);
      CountSnoc(RemoveSpaces(shorter), last, c);
      assert RemoveSpaces(s) == if IsSpace(last) then RemoveSpaces(shorter) else RemoveSpaces(shorter) + [last];
    }
  }

  method Matches(field: string, cd: char) returns (ok: bool)
    ensures ok == Agrees(field, cd)
  {
    var digit := CheckDigit(field);
    var claimed := if IsDigit(cd) then Some(DigitValue(cd)) else None;
    ok := !(digit < 0 || Some(digit) != claimed);
  }

  method ParseTd3(upper: string -> string, raw: string) returns (result: MrzResult)
    ensures var m := Cleaned(upper, raw);
            && (result.valid <==> Accepted(m)) && (result.valid <==> result.errors == [])
            && (result.fields.Some? <==> |m| == 88)
            && (|m| == 88 ==>
                  && result.fields.value == MrzFields(RemoveFillers(m[44..53]), m[54..57], m[57..63], m[64], m[65..71])
                  && (BadDocumentNumber in result.errors <==> !Agrees(m[44..53], m[53]))
                  && (BadBirthDate in result.errors <==> !Agrees(m[57..63], m[63]))
                  && (BadExpiryDate in result.errors <==> !Agrees(m[65..71], m[71]))
                  && (BadComposite in result.errors <==> !Agrees(Composite(m), m[87])))
            && (|m| != 88 ==> result.errors == [BadLength(|m|)])
  {
    var errors: seq<MrzError> := [];
    var cleaned := Cleaned(upper, raw);
    if |cleaned| != 88 {
      return MrzResult(false, None, [BadLength(|cleaned|)]);
    }
    var l2 := cleaned[44..];
    SecondLine(cleaned);
    var documentNumber, docCd, nationality := l2[0..9], l2[9], l2[10..13];
    var birthDate, birthCd, sex := l2[13..19], l2[19], l2[20];
    var expiryDate, expiryCd := l2[21..27], l2[27];
    var personalNumber, personalCd, finalCd := l2[28..42], l2[42], l2[43];
    var ok := Matches(documentNumber, docCd);
    if !ok {
      errors := errors + [BadDocumentNumber];
    }
    ok := Matches(birthDate, birthCd);
    if !ok {
      errors := errors + [BadBirthDate];
    }
    ok := Matches(expiryDate, expiryCd);
    if !ok {
      errors := errors + [BadExpiryDate];
    }
    var composite := documentNumber + [docCd] + birthDate + [birthCd] + expiryDate + [expiryCd] + personalNumber + [personalCd];
    CompositeOfParts(cleaned);
    ok := Matches(composite, finalCd);
    if !ok {
      errors := errors + [BadComposite];
    }
    return MrzResult(|errors| == 0, Some(MrzFields(RemoveFillers(documentNumber), nationality, birthDate, sex, expiryDate)), errors);
  }

  // ---- What a changed character does ----

  lemma {:induction false} SumAfterChange(s: string, i: nat, c: char)
    requires i < |s|
    ensures WeightedSum(s[i := c]) == WeightedSum(s) + (CharValue(c) - CharValue(s[i])) * Weight(i)
  {
    var t := s[i := c];
    if i == |s| - 1 {
      assert t[..i] == s[..i];
    } else {
      assert t[..|s| - 1] == s[..|s| - 1][i := c];
      SumAfterChange(s[..|s| - 1], i, c);
    }
  }

  /** 7, 3 and 1 have inverses modulo 10. */
  lemma WeightIsInvertible(sum: int, w: int, a: int, b: int)
    requires w == 7 || w == 3 || w == 1
    ensures (sum + (a - b) * w) % 10 == sum % 10 <==> a % 10 == b % 10
  {
    OddMultiple(sum, a - b);
    TenApart(a, b);
  }

  lemma DropTens(x: int, tens: int)
    ensures (x + 10 * tens) % 10 == x % 10
  {
  }

  lemma OddMultiple(sum: int, d: int)
    ensures (sum + 7 * d) % 10 == sum % 10 <==> d % 10 == 0
    ensures (sum + 3 * d) % 10 == sum % 10 <==> d % 10 == 0
    ensures (sum + d) % 10 == sum % 10 <==> d % 10 == 0
  {
    var q, r, s := d / 10, d % 10, sum % 10;
    DropTens(s + 7 * r, sum / 10 + 7 * q);
    DropTens(s + 3 * r, sum / 10 + 3 * q);
    DropTens(s + r, sum / 10 + q);
    SmallOdd(s, r);
  }

  lemma SmallOdd(s: nat, r: nat)
    requires s < 10 && r < 10
    ensures (s + 7 * r) % 10 == s <==> r == 0
    ensures (s + 3 * r) % 10 == s <==> r == 0
    ensures (s + r) % 10 == s <==> r == 0
  {
  }

  lemma TenApart(a: int, b: int)
    ensures (a - b) % 10 == 0 <==> a % 10 == b % 10
  {
  }

  predicate SameDigit(a: char, b: char) {
    CharValue(a) >= 0 && CharValue(b) >= 0 && CharValue(a) % 10 == CharValue(b) % 10
  }

  /** One character of a field: the check digit still agrees exactly if the value is the same modulo 10. */
  lemma FieldChange(s: string, cd: char, i: nat, c: char)
    requires i < |s| && Agrees(s, cd)
    ensures Agrees(s[i := c], cd) <==> SameDigit(c, s[i])
  {
    var t := s[i := c];
    if CharValue(c) >= 0 {
      assert Readable(t);
      SumAfterChange(s, i, c);
      WeightIsInvertible(WeightedSum(s), Weight(i), CharValue(c), CharValue(s[i]));
    } else {
      assert t[i] == c;
    }
  }

  /** Where a character of the second line stands in the composite, if it does. */
  function InComposite(p: nat): Option<nat> {
    if 44 <= p < 54 then Some(p - 44)
    else if 57 <= p < 64 then Some(p - 47)
    else if 65 <= p < 87 then Some(p - 48)
    else None
  }

  lemma CompositeAfterChange(m: string, p: nat, c: char)
    requires |m| == 88 && p < 88
    ensures |Composite(m)| == 39
    ensures InComposite(p).Some? ==>
              var q := InComposite(p).value; q < 39 && Composite(m)[q] == m[p] && Composite(m[p := c]) == Composite(m)[q := c]
    ensures InComposite(p).None? ==> Composite(m[p := c]) == Composite(m)
  {
    if 44 <= p < 54 {
      assert m[p := c][44..54] == m[44..54][p - 44 := c];
    } else if 57 <= p < 64 {
      assert m[p := c][57..64] == m[57..64][p - 57 := c];
    } else if 65 <= p < 87 {
      assert m[p := c][65..87] == m[65..87][p - 65 := c];
    }
  }

  /** What may stand at one position instead of the character of an accepted zone without being noticed. */
  predicate Unnoticed(p: nat, was: char, c: char) {
    if p in {53, 63, 71, 87} then c == was
    else if InComposite(p).Some? then SameDigit(c, was)
    else true
  }

  lemma SliceAfterChange(m: string, p: nat, c: char, from: nat, to: nat)
    requires p < |m| && from <= to <= |m|
    ensures m[p := c][from..to] == if from <= p < to then m[from..to][p - from := c] else m[from..to]
  {
  }

  /** A field and its check digit, after a change somewhere in the zone. */
  lemma CheckAfterChange(m: string, p: nat, c: char, from: nat, to: nat)
    requires p < |m| && from < to < |m| && Agrees(m[from..to], m[to])
    ensures Agrees(m[p := c][from..to], m[p := c][to]) <==>
            (from <= p < to ==> SameDigit(c, m[p])) && (p == to ==> c == m[p])
  {
    SliceAfterChange(m, p, c, from, to);
    if from <= p < to {
      FieldChange(m[from..to], m[to], p - from, c);
    }
  }

  /**
   * An accepted zone with one character replaced is accepted exactly if the replacement is
   * unnoticeable: in the document number, the dates, the personal number and its check digit,
   * a character of the same value modulo 10; at the other check digits nothing but the digit
   * itself; elsewhere anything.
   */
  lemma OneCharacterChanged(m: string, p: nat, c: char)
    requires Accepted(m) && p < 88
    ensures Accepted(m[p := c]) <==> Unnoticed(p, m[p], c)
  {
    CheckAfterChange(m, p, c, 44, 53);
    CheckAfterChange(m, p, c, 57, 63);
    CheckAfterChange(m, p, c, 65, 71);
    CompositeAfterChange(m, p, c);
    if InComposite(p).Some? {
      FieldChange(Composite(m), m[87], InComposite(p).value, c);
    }
  }

  // ---- Two neighbours swapped ----

  function Swapped(s: string, i: nat): string
    requires i + 1 < |s|
  {
    s[i := s[i + 1]][i + 1 := s[i]]
  }

  /** Neighbouring weights differ by 4, 2 or -6, so a swap changes the sum by an even multiple. */
  lemma SwapIsSeen(sum: int, i: nat, a: int, b: int)
    ensures (sum + (b - a) * Weight(i) + (a - b) * Weight(i + 1)) % 10 == sum % 10 <==> a % 5 == b % 5
  {
    var d := b - a;
    assert (i + 1) % 3 == (i % 3 + 1) % 3;
    if i % 3 == 0 {
      assert (b - a) * Weight(i) + (a - b) * Weight(i + 1) == 4 * d;
    } else if i % 3 == 1 {
      assert (b - a) * Weight(i) + (a - b) * Weight(i + 1) == 2 * d;
    } else {
      assert (b - a) * Weight(i) + (a - b) * Weight(i + 1) == -6 * d;
    }
    EvenMultiple(sum, d);
    FiveApart(a, b);
  }

  lemma EvenMultiple(sum: int, d: int)
    ensures (sum + 4 * d) % 10 == sum % 10 <==> d % 5 == 0
    ensures (sum + 2 * d) % 10 == sum % 10 <==> d % 5 == 0
    ensures (sum - 6 * d) % 10 == sum % 10 <==> d % 5 == 0
  {
    var q, r, s := d / 5, d % 5, sum % 10;
    DropTens(s + 4 * r, sum / 10 + 2 * q);
    DropTens(s + 2 * r, sum / 10 + q);
    DropTens(s - 6 * r, sum / 10 - 3 * q);
    SmallEven(s, r);
  }

  lemma SmallEven(s: nat, r: nat)
    requires s < 10 && r < 5
    ensures (s + 4 * r) % 10 == s <==> r == 0
    ensures (s + 2 * r) % 10 == s <==> r == 0
    ensures (s - 6 * r) % 10 == s <==> r == 0
  {
  }

  lemma FiveApart(a: int, b: int)
    ensures (b - a) % 5 == 0 <==> a % 5 == b % 5
  {
  }

  lemma SwapStaysReadable(s: string, i: nat)
    requires i + 1 < |s|
    ensures Readable(Swapped(s, i)) <==> Readable(s)
  {
    var t := Swapped(s, i);
    assert t[i] == s[i + 1] && t[i + 1] == s[i] && forall k :: 0 <= k < |s| && k != i && k != i + 1 ==> t[k] == s[k];
  }

  lemma SumAfterSwap(s: string, i: nat)
    requires i + 1 < |s|
    ensures WeightedSum(Swapped(s, i))
            == WeightedSum(s) + (CharValue(s[i + 1]) - CharValue(s[i])) * Weight(i) + (CharValue(s[i]) - CharValue(s[i + 1])) * Weight(i + 1)
  {
    var once := s[i := s[i + 1]];
    SumAfterChange(s, i, s[i + 1]);
    SumAfterChange(once, i + 1, s[i]);
    assert Swapped(s, i) == once[i + 1 := s[i]];
  }

  lemma FieldSwap(s: string, cd: char, i: nat)
    requires i + 1 < |s| && Agrees(s, cd)
    ensures Agrees(Swapped(s, i), cd) <==> CharValue(s[i]) % 5 == CharValue(s[i + 1]) % 5
  {
    SwapStaysReadable(s, i);
    SumAfterSwap(s, i);
    SwapIsSeen(WeightedSum(s), i, CharValue(s[i]), CharValue(s[i + 1]));
  }

  /** Two neighbours of the document number, a date or the personal number. */
  predicate Neighbours(p: nat) {
    44 <= p < 52 || 57 <= p < 62 || 65 <= p < 70 || 72 <= p < 85
  }

  lemma CheckAfterSwap(m: string, p: nat, from: nat, to: nat)
    requires p + 1 < |m| && from < to < |m| && Agrees(m[from..to], m[to])
    requires (from <= p && p + 1 < to) || p + 1 < from || p > to
    ensures Agrees(Swapped(m, p)[from..to], Swapped(m, p)[to]) <==>
            (from <= p < to ==> CharValue(m[p]) % 5 == CharValue(m[p + 1]) % 5)
  {
    if from <= p < to {
      assert Swapped(m, p)[from..to] == Swapped(m[from..to], p - from);
      FieldSwap(m[from..to], m[to], p - from);
    } else {
      assert Swapped(m, p)[from..to] == m[from..to];
    }
  }

  /** Swapping two neighbours of a field passes unnoticed exactly if their values agree modulo 5. */
  lemma NeighboursSwapped(m: string, p: nat)
    requires Accepted(m) && Neighbours(p)
    ensures Accepted(Swapped(m, p)) <==> CharValue(m[p]) % 5 == CharValue(m[p + 1]) % 5
  {
    CheckAfterSwap(m, p, 44, 53);
    CheckAfterSwap(m, p, 57, 63);
    CheckAfterSwap(m, p, 65, 71);
    CompositeAfterChange(m, p, m[p + 1]);
    CompositeAfterChange(m[p := m[p + 1]], p + 1, m[p]);
    var q := InComposite(p).value;
    assert Composite(m[p := m[p + 1]]) == Composite(m)[q := m[p + 1]];
    CompositeAfterChange(m, p + 1, m[p]);
    assert Composite(Swapped(m, p)) == Swapped(Composite(m), q);
    FieldSwap(Composite(m), m[87], q);
  }
}
