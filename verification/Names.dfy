/** Names of pods and of their volume claims.

    A pod is named after its set and its ordinal, and the controller recovers both
    by matching the name against the pattern "(.*)-([0-9]+)$" and reading the
    digits as a 32-bit integer. */
module Names {
  import opened Slots

  // ------------------------------------------------------------------ decimals

  predicate IsDigit(c: char) {
    '0' <= c <= '9'
  }

  predicate AllDigits(s: string) {
    forall i :: 0 <= i < |s| ==> IsDigit(s[i])
  }

  /** The decimal digits of a natural number. */
  function Digits(n: nat): (s: string)
    ensures |s| > 0 && AllDigits(s)
  {
    var last := '0' + (n % 10) as char;
    if n < 10 then [last] else Digits(n / 10) + [last]
  }

  /** `%d`. */
  function Decimal(n: int): string {
    if n < 0 then "-" + Digits(-n) else Digits(n)
  }

  /** The number a string of digits denotes. */
  function Value(s: string): nat
    requires AllDigits(s)
  {
    if s == "" then 0 else 10 * Value(s[..|s| - 1]) + (s[|s| - 1] - '0') as nat
  }

  lemma {:induction false} ValueOfDigits(n: nat)
    ensures Value(Digits(n)) == n
  {
    var s := Digits(n);
    if n >= 10 {
      ValueOfDigits(n / 10);
      assert s[..|s| - 1] == Digits(n / 10);
    } else {
      assert Value(s[..0]) == 0;
    }
  }

  /** One more digit. */
  lemma ValueSnoc(s: string, c: char)
    requires AllDigits(s) && '0' <= c <= '9'
    ensures AllDigits(s + [c]) && Value(s + [c]) == 10 * Value(s) + (c as int - '0' as int)
  {
    assert (s + [c])[..|s|] == s;
  }

  /** The last digit is the remainder, the digits before it are those of the quotient. */
  lemma DigitsSnoc(q: nat, r: nat)
    requires r < 10
    ensures Digits(10 * q + r) == (if q == 0 then "" else Digits(q)) + [r as char + '0']
  {
  }

  /** Every digit, printed. */
  lemma AllTenDigits()
    ensures Digits(1234567890) == "1234567890"
  {
    assert Digits(1) == "1";
    hide Digits;
    DigitsSnoc(1, 2);
    DigitsSnoc(12, 3);
    DigitsSnoc(123, 4);
    DigitsSnoc(1234, 5);
    DigitsSnoc(12345, 6);
    DigitsSnoc(123456, 7);
    DigitsSnoc(1234567, 8);
    DigitsSnoc(12345678, 9);
    DigitsSnoc(123456789, 0);
  }

  // ------------------------------------------------------------------- parsing

  /** The position of the last `c` in `s`, or -1. */
  function LastIndex(s: string, c: char): (i: int)
    ensures -1 <= i < |s|
    ensures 0 <= i ==> s[i] == c
    ensures forall j :: i < j < |s| ==> s[j] != c
  {
    if s == "" then -1
    else if s[|s| - 1] == c then |s| - 1
    else LastIndex(s[..|s| - 1], c)
  }

  /** Go's `.` does not match a newline, so an unanchored greedy `(.*)` captures
      what follows the last newline. */
  function LastLine(s: string): string {
    s[LastIndex(s, '\n') + 1..]
  }

  /** getParentNameAndOrdinal. Digits never contain a dash, so the greedy match
      ends its first group at the last dash of the name. */
  function ParentNameAndOrdinal(name: string): (string, int) {
    var dash := LastIndex(name, '-');
    if 0 <= dash && dash + 1 < |name| && AllDigits(name[dash + 1..]) then
      var value := Value(name[dash + 1..]);
      (LastLine(name[..dash]), if value <= MAX_INT32 then value else -1)
    else
      ("", -1)
  }

  function ParentName(name: string): string {
    ParentNameAndOrdinal(name).0
  }

  function Ordinal(name: string): (ordinal: int)
    ensures -1 <= ordinal <= MAX_INT32
  {
    ParentNameAndOrdinal(name).1
  }

  function PodName(setName: string, ordinal: int): string {
    setName + "-" + Decimal(ordinal)
  }

  function ClaimName(claim: string, setName: string, ordinal: int): string {
    claim + "-" + setName + "-" + Decimal(ordinal)
  }

  // ------------------------------------------------------------------ theorems

  lemma LastIndexIs(s: string, c: char, k: nat, suffix: string)
    requires k < |s| && s[k] == c && s[k + 1..] == suffix && c !in suffix
    ensures LastIndex(s, c) == k
  {
    hide LastIndex;
    forall j | k < j < |s|
      ensures s[j] != c
    {
      assert s[j] == suffix[j - k - 1];
    }
  }

  /** The split of a string at its last dash is unique. */
  lemma LastDash(prefix: string, suffix: string)
    requires '-' !in suffix
    ensures LastIndex(prefix + "-" + suffix, '-') == |prefix|
  {
    hide LastIndex;
    LastIndexIs(prefix + "-" + suffix, '-', |prefix|, suffix);
  }

  lemma ParseDigits(prefix: string, digits: string)
    requires digits != "" && AllDigits(digits)
    ensures ParentNameAndOrdinal(prefix + "-" + digits)
            == (LastLine(prefix), if Value(digits) <= MAX_INT32 then Value(digits) else -1)
  {
    var name := prefix + "-" + digits;
    LastDash(prefix, digits);
    assert name[|prefix| + 1..] == digits && name[..|prefix|] == prefix;
  }

  /** What parsing a generated name yields, for every set name and ordinal. A negative
      ordinal is printed with a second dash and parsed as positive. */
  lemma ParsePodName(setName: string, ordinal: int)
    ensures ParentName(PodName(setName, ordinal)) == LastLine(if 0 <= ordinal then setName else setName + "-")
    ensures Ordinal(PodName(setName, ordinal))
            == if -MAX_INT32 <= ordinal < 0 then -ordinal else if 0 <= ordinal <= MAX_INT32 then ordinal else -1
  {
    hide LastIndex, LastLine, ParentNameAndOrdinal, Digits, Value, AllDigits;
    if 0 <= ordinal {
      ParseDigits(setName, Digits(ordinal));
      ValueOfDigits(ordinal);
    } else {
      assert PodName(setName, ordinal) == (setName + "-") + "-" + Digits(-ordinal);
      ParseDigits(setName + "-", Digits(-ordinal));
      ValueOfDigits(-ordinal);
    }
  }

  /** The name round-trips exactly when the set's name is a single line and the ordinal
      is a natural number of 32 bits; dashes and digits in the set's name do not matter. */
  lemma ParseRoundTrip(setName: string, ordinal: int)
    ensures ParentNameAndOrdinal(PodName(setName, ordinal)) == (setName, ordinal)
            <==> '\n' !in setName && 0 <= ordinal <= MAX_INT32
  {
    ParsePodName(setName, ordinal);
    hide LastIndex;
    var i := LastIndex(setName, '\n');
    if '\n' in setName {
      assert |LastLine(setName)| < |setName|;
    } else {
      assert i == -1;
      assert LastLine(setName) == setName;
    }
  }

  lemma {:induction false} ValueLeadingZero(digits: string)
    requires digits != "" && AllDigits(digits)
    ensures AllDigits("0" + digits) && Value("0" + digits) == Value(digits)
  {
    var s := "0" + digits;
    var front := digits[..|digits| - 1];
    assert s[..|s| - 1] == "0" + front;
    if front == "" {
      assert "0" + front == "0" && "0"[..0] == "";
      assert Value("0") == 10 * Value("") + 0;
    } else {
      ValueLeadingZero(front);
    }
  }

  /** A name with a leading zero has the ordinal of the generated one. */
  lemma LeadingZero(setName: string, ordinal: nat)
    requires ordinal <= MAX_INT32
    ensures Ordinal(setName + "-" + ("0" + Digits(ordinal))) == ordinal
  {
    hide LastIndex, LastLine, ParentNameAndOrdinal, Digits, Value, AllDigits;
    ValueLeadingZero(Digits(ordinal));
    ParseDigits(setName, "0" + Digits(ordinal));
    ValueOfDigits(ordinal);
  }

  /** A negative ordinal is printed with a second dash and parsed as positive. */
  lemma NegativeOrdinalMisparsed(setName: string)
    ensures PodName(setName, -1) == PodName(setName + "-", 1)
    ensures Ordinal(PodName(setName, -1)) == 1
  {
    assert Digits(1) == "1";
    assert setName + "-" + ("-" + "1") == (setName + "-") + "-" + "1";
    ParsePodName(setName + "-", 1);
  }

  lemma DigitsInjective(m: nat, n: nat)
    requires Digits(m) == Digits(n)
    ensures m == n
  {
    ValueOfDigits(m);
    ValueOfDigits(n);
  }

  /** Splitting off the last dash recovers both halves. */
  lemma SplitLastDash(p1: string, s1: string, p2: string, s2: string)
    requires '-' !in s1 && '-' !in s2
    requires p1 + "-" + s1 == p2 + "-" + s2
    ensures p1 == p2 && s1 == s2
  {
    LastDash(p1, s1);
    LastDash(p2, s2);
    var whole := p1 + "-" + s1;
    assert p1 == whole[..|p1|] && s1 == whole[|p1| + 1..];
    assert p2 == whole[..|p2|] && s2 == whole[|p2| + 1..];
  }

  /** Pod names are injective over set and ordinal. */
  lemma PodNameInjective(set1: string, o1: nat, set2: string, o2: nat)
    requires PodName(set1, o1) == PodName(set2, o2)
    ensures set1 == set2 && o1 == o2
  {
    SplitLastDash(set1, Digits(o1), set2, Digits(o2));
    DigitsInjective(o1, o2);
  }

  /** Claim names are injective over template and ordinal within one set. */
  lemma ClaimNameInjective(setName: string, claim1: string, o1: nat, claim2: string, o2: nat)
    requires ClaimName(claim1, setName, o1) == ClaimName(claim2, setName, o2)
    ensures claim1 == claim2 && o1 == o2
  {
    var p1, p2 := claim1 + "-" + setName, claim2 + "-" + setName;
    SplitLastDash(p1, Digits(o1), p2, Digits(o2));
    DigitsInjective(o1, o2);
    assert claim1 == p1[..|claim1|] && claim2 == p2[..|claim2|];
  }

  /** The second set's name is the first one's behind a prefix that ends the first
      template's name. */
  ghost predicate Overlap(claim1: string, set1: string, claim2: string, set2: string) {
    exists x: string :: set2 == x + "-" + set1 && claim1 == claim2 + "-" + x
  }

  /** Two claim names are equal exactly if template, set and ordinal are the same, or if the
      ordinals are and a part of one set's name belongs to the other's template. */
  lemma ClaimNamesEqual(claim1: string, set1: string, o1: nat, claim2: string, set2: string, o2: nat)
    ensures ClaimName(claim1, set1, o1) == ClaimName(claim2, set2, o2)
            <==> o1 == o2 && ((claim1 == claim2 && set1 == set2)
                              || Overlap(claim1, set1, claim2, set2) || Overlap(claim2, set2, claim1, set1))
  {
    hide Overlap, Digits;
    var p1, p2 := claim1 + "-" + set1, claim2 + "-" + set2;
    if ClaimName(claim1, set1, o1) == ClaimName(claim2, set2, o2) {
      SplitLastDash(p1, Digits(o1), p2, Digits(o2));
      DigitsInjective(o1, o2);
      if |set1| < |set2| {
        SplitsOverlap(claim1, set1, claim2, set2);
      } else if |set2| < |set1| {
        SplitsOverlap(claim2, set2, claim1, set1);
      } else {
        assert claim1 == p1[..|claim1|] && claim2 == p2[..|claim2|];
        assert set1 == p1[|claim1| + 1..] && set2 == p2[|claim2| + 1..];
      }
    } else {
      if Overlap(claim1, set1, claim2, set2) {
        OverlapSplits(claim1, set1, claim2, set2);
      }
      if Overlap(claim2, set2, claim1, set1) {
        OverlapSplits(claim2, set2, claim1, set1);
      }
    }
  }

  lemma SplitsOverlap(claim1: string, set1: string, claim2: string, set2: string)
    requires claim1 + "-" + set1 == claim2 + "-" + set2 && |set1| < |set2|
    ensures Overlap(claim1, set1, claim2, set2)
  {
    var p := claim1 + "-" + set1;
    var x := claim1[|claim2| + 1..];
    assert claim1 == p[..|claim1|] && claim2 == p[..|claim2|] && p[|claim2|] == '-';
    assert claim1 == claim2 + "-" + x;
    assert set2 == p[|claim2| + 1..];
    assert set2 == x + "-" + set1;
  }

  lemma OverlapSplits(claim1: string, set1: string, claim2: string, set2: string)
    requires Overlap(claim1, set1, claim2, set2)
    ensures claim1 + "-" + set1 == claim2 + "-" + set2
  {
    var x :| set2 == x + "-" + set1 && claim1 == claim2 + "-" + x;
    assert claim2 + "-" + (x + "-" + set1) == (claim2 + "-" + x) + "-" + set1;
  }

  /** Two sets can share a claim name. */
  lemma ClaimNamesClashAcrossSets(ordinal: int)
    ensures ClaimName("data-a", "b", ordinal) == ClaimName("data", "a-b", ordinal)
  {
    assert "data-a" + "-" + "b" == "data" + "-" + "a-b";
  }
}
