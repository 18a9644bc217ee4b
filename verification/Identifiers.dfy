/**
 Identifiers shared by both services: UUID text, its lower-case form, and the
 order in which the program sorts identifiers (and in which Inventory locks part rows).
 */
module Identifiers {

  datatype Option<+T> = None | Some(value: T) {
    function GetOr(default: T): T {
      if Some? then value else default
    }
  }

  type PartId = string
  type OrderId = string
  type Time = nat

  /** JavaScript's `<` on strings: code unit by code unit, a proper prefix first. */
  predicate Before(a: string, b: string) {
    if b == [] then false
    else if a == [] then true
    else if a[0] != b[0] then a[0] < b[0]
    else Before(a[1..], b[1..])
  }

  /** The texts agree up to k, where a ends or has the smaller character. */
  predicate FirstDifference(a: string, b: string, k: nat) {
    k <= |a| && k < |b| && (forall i :: 0 <= i < k ==> a[i] == b[i]) && (k == |a| || a[k] < b[k])
  }

  lemma {:induction false} BeforeDiffers(a: string, b: string) returns (k: nat)
    requires Before(a, b)
    ensures FirstDifference(a, b, k)
  {
    if a == [] || a[0] != b[0] {
      k := 0;
    } else {
      k := BeforeDiffers(a[1..], b[1..]);
      k := k + 1;
      assert forall i :: 0 < i < k ==> a[i] == a[1..][i - 1] && b[i] == b[1..][i - 1];
    }
  }

  lemma {:induction false} DiffersBefore(a: string, b: string, k: nat)
    requires FirstDifference(a, b, k)
    ensures Before(a, b)
  {
    if k > 0 {
      DiffersBefore(a[1..], b[1..], k - 1);
    }
  }

  /** The first difference decides; a proper prefix comes first. */
  lemma BeforeIsLexicographic(a: string, b: string)
    ensures Before(a, b) <==> exists k :: FirstDifference(a, b, k)
  {
    hide Before, FirstDifference;
    if Before(a, b) { var k := BeforeDiffers(a, b); }
    if k :| FirstDifference(a, b, k) { DiffersBefore(a, b, k); }
  }

  lemma {:induction false} BeforeTotal(a: string, b: string)
    ensures a == b || Before(a, b) || Before(b, a)
    ensures !(Before(a, b) && Before(b, a))
    ensures !Before(a, a)
  {
    if a != [] {
      if b != [] && a[0] == b[0] {
        BeforeTotal(a[1..], b[1..]);
        assert a == [a[0]] + a[1..] && b == [b[0]] + b[1..];
      }
      BeforeTotal(a[1..], a[1..]);
    }
  }

  lemma {:induction false} BeforeTransitive(a: string, b: string, c: string)
    requires Before(a, b) && Before(b, c)
    ensures Before(a, c)
  {
    if a != [] && a[0] == b[0] == c[0] {
      BeforeTransitive(a[1..], b[1..], c[1..]);
    }
  }

  function LowerChar(c: char): char {
    if 'A' <= c <= 'Z' then (c as int + 32) as char else c
  }

  /** `toLowerCase()` on the ASCII text of a UUID. */
  function ToLower(s: string): (r: string)
    ensures |r| == |s|
  {
    seq(|s|, i requires 0 <= i < |s| => LowerChar(s[i]))
  }

  /** The same letter up to the case of an ASCII letter. */
  predicate SameLetter(a: char, b: char) {
    || a == b
    || ('A' <= a <= 'Z' && b as int == a as int + 32)
    || ('A' <= b <= 'Z' && a as int == b as int + 32)
  }

  /** The same text up to the case of its ASCII letters. */
  predicate SameText(a: string, b: string) {
    |a| == |b| && forall i :: 0 <= i < |a| ==> SameLetter(a[i], b[i])
  }

  predicate NoCapitals(s: string) {
    forall i :: 0 <= i < |s| ==> !('A' <= s[i] <= 'Z')
  }

  /** `ToLower` picks from the texts that agree up to case the one without capitals. */
  lemma LowerIsCanonical(s: string)
    ensures NoCapitals(ToLower(s)) && SameText(s, ToLower(s))
    ensures forall t :: NoCapitals(t) && SameText(s, t) ==> t == ToLower(s)
  {
    forall t | NoCapitals(t) && SameText(s, t) ensures t == ToLower(s) {
      assert forall i :: 0 <= i < |s| ==> SameLetter(s[i], t[i]) && t[i] == ToLower(s)[i];
    }
  }

  /** Two texts have one lower-case form exactly when they agree up to case. */
  lemma SameLowerIffSameText(a: string, b: string)
    ensures ToLower(a) == ToLower(b) <==> SameText(a, b)
  {
    if ToLower(a) == ToLower(b) {
      forall i | 0 <= i < |a| ensures SameLetter(a[i], b[i]) { assert ToLower(a)[i] == ToLower(b)[i]; }
    }
  }

  lemma ToLowerIdempotent(s: string)
    ensures ToLower(ToLower(s)) == ToLower(s)
  {
  }

  predicate HexDigit(c: char) {
    '0' <= c <= '9' || 'a' <= c <= 'f' || 'A' <= c <= 'F'
  }

  lemma HexDigits(c: char)
    ensures HexDigit(c) <==> c in "0123456789abcdefABCDEF"
  {
    var digits := "0123456789abcdefABCDEF";
    if '0' <= c <= '9' { assert c == digits[c as int - '0' as int]; }
    if 'a' <= c <= 'f' { assert c == digits[10 + c as int - 'a' as int]; }
    if 'A' <= c <= 'F' { assert c == digits[16 + c as int - 'A' as int]; }
  }

  /** The pattern 8-4-4-4-12 in hexadecimal, either case. */
  predicate IsUuid(s: string) {
    && |s| == 36
    && forall i :: 0 <= i < 36 ==> if i in {8, 13, 18, 23} then s[i] == '-' else HexDigit(s[i])
  }

  /** A UUID as both services store it: lower case. */
  predicate IsLowerUuid(s: string) {
    IsUuid(s) && ToLower(s) == s
  }

  lemma LowerUuid(s: string)
    requires IsUuid(s)
    ensures IsLowerUuid(ToLower(s)) && '"' !in ToLower(s)
  {
    ToLowerIdempotent(s);
  }

  lemma UuidHasNoQuote(s: string)
    requires IsUuid(s)
    ensures '"' !in s
  {
  }

  predicate Hex(s: string) {
    forall i :: 0 <= i < |s| ==> HexDigit(s[i])
  }

  /** Five groups of 8, 4, 4, 4 and 12 hexadecimal digits with hyphens between them. */
  predicate FiveGroups(s: string) {
    && |s| == 36 && Hex(s[..8]) && Hex(s[9..13]) && Hex(s[14..18]) && Hex(s[19..23]) && Hex(s[24..])
    && s == s[..8] + "-" + s[9..13] + "-" + s[14..18] + "-" + s[19..23] + "-" + s[24..]
  }

  lemma HexAt(s: string, from: nat, to: nat, i: nat)
    requires from <= i < to <= |s| && Hex(s[from..to])
    ensures HexDigit(s[i])
  {
    assert s[from..to][i - from] == s[i];
  }

  lemma GroupsAreUuid(s: string)
    requires FiveGroups(s)
    ensures IsUuid(s)
  {
    hide Hex, HexDigit;
    assert s[8] == '-' && s[13] == '-' && s[18] == '-' && s[23] == '-';
    assert s[..8] == s[0..8] && s[24..] == s[24..36];
    forall i | 0 <= i < 36 && i !in {8, 13, 18, 23} ensures HexDigit(s[i]) {
      var (from, to) := if i < 8 then (0, 8) else if i < 13 then (9, 13) else if i < 18 then (14, 18)
                        else if i < 23 then (19, 23) else (24, 36);
      HexAt(s, from, to, i);
    }
  }

  /** A UUID is exactly such a text. */
  lemma UuidIsFiveGroups(s: string)
    ensures IsUuid(s) <==> FiveGroups(s)
  {
    if FiveGroups(s) { GroupsAreUuid(s); }
    if IsUuid(s) {
      assert s == s[..8] + "-" + s[9..13] + "-" + s[14..18] + "-" + s[19..23] + "-" + s[24..];
    }
  }
}
