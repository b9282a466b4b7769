/** Generated task identifiers: `task-<nanoseconds>-<counter>`. */
module TaskIds {

  const DIGITS: string := "0123456789"

  function DecimalNat(n: nat): (s: string)
    ensures |s| > 0
    ensures forall c :: c in s ==> c in DIGITS
  {
    if n < 10 then [DIGITS[n]] else DecimalNat(n / 10) + [DIGITS[n % 10]]
  }

  /** The `%d` verb: a leading dash for a negative number. */
  function Decimal(n: int): string {
    if n < 0 then "-" + DecimalNat(-n) else DecimalNat(n)
  }

  function GeneratedId(nano: int, counter: nat): (id: string)
    ensures |id| > 0
  {
    "task-" + Decimal(nano) + "-" + DecimalNat(counter)
  }

  function DigitValue(c: char): int {
    c as int - '0' as int
  }

  /** The number that a string of digits denotes. */
  function Parse(s: string): int {
    if s == "" then 0 else 10 * Parse(s[..|s| - 1]) + DigitValue(s[|s| - 1])
  }

  lemma DigitParses(n: nat)
    requires n < 10
    ensures DigitValue(DIGITS[n]) == n
  {
    assert DIGITS == ['0', '1', '2', '3', '4', '5', '6', '7', '8', '9'];
  }

  /** Reading back what was printed gives the number. */
  lemma {:induction false} ParseDecimalNat(n: nat)
    ensures Parse(DecimalNat(n)) == n
  {
    var s := DecimalNat(n);
    DigitParses(n % 10);
    assert s[|s| - 1] == DIGITS[n % 10];
    if n >= 10 {
      assert s[..|s| - 1] == DecimalNat(n / 10);
      ParseDecimalNat(n / 10);
    } else {
      assert s[..|s| - 1] == "";
    }
  }

  /** A generated identifier is the word task, the time and the counter, between dashes. */
  lemma GeneratedIdShape(nano: nat, counter: nat)
    ensures GeneratedId(nano, counter) == "task-" + DecimalNat(nano) + "-" + DecimalNat(counter)
    ensures Parse(DecimalNat(nano)) == nano && Parse(DecimalNat(counter)) == counter
  {
    ParseDecimalNat(nano);
    ParseDecimalNat(counter);
  }

  lemma DigitInjective(a: nat, b: nat)
    requires a < 10 && b < 10 && DIGITS[a] == DIGITS[b]
    ensures a == b
  {
  }

  /** Decimal printing loses nothing. */
  lemma {:induction false} DecimalNatInjective(a: nat, b: nat)
    requires DecimalNat(a) == DecimalNat(b)
    ensures a == b
    decreases a
  {
    var s, t := DecimalNat(a), DecimalNat(b);
    assert s[|s| - 1] == DIGITS[a % 10] && t[|t| - 1] == DIGITS[b % 10];
    DigitInjective(a % 10, b % 10);
    if a < 10 || b < 10 {
      assert |s| == 1;
    } else {
      assert s[..|s| - 1] == DecimalNat(a / 10) && t[..|t| - 1] == DecimalNat(b / 10);
      DecimalNatInjective(a / 10, b / 10);
    }
  }

  lemma NoLaterDash(x: string, d: string)
    requires '-' !in d
    ensures (x + "-" + d)[|x|] == '-'
    ensures forall k :: |x| < k < |x + "-" + d| ==> (x + "-" + d)[k] != '-'
  {
    forall k | |x| < k < |x + "-" + d| ensures (x + "-" + d)[k] != '-' {
      assert (x + "-" + d)[k] == d[k - |x| - 1];
    }
  }

  /** Cutting at the last dash is unambiguous: what follows it has no dash. */
  lemma LastDashSplit(x: string, d: string, y: string, e: string)
    requires '-' !in d && '-' !in e
    requires x + "-" + d == y + "-" + e
    ensures x == y && d == e
  {
    NoLaterDash(x, d);
    NoLaterDash(y, e);
    var s := x + "-" + d;
    assert |x| == |y|;
    assert s[..|x|] == x && s[..|y|] == y;
    assert s[|x| + 1..] == d && s[|y| + 1..] == e;
  }

  /** Two generated identifiers are equal only when their counters are, whatever the
      clock returned. */
  lemma GeneratedIdsDiffer(n1: int, c1: nat, n2: int, c2: nat)
    requires GeneratedId(n1, c1) == GeneratedId(n2, c2)
    ensures c1 == c2
  {
    LastDashSplit("task-" + Decimal(n1), DecimalNat(c1), "task-" + Decimal(n2), DecimalNat(c2));
    DecimalNatInjective(c1, c2);
  }
}
