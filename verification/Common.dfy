/** Small datatypes, and facts about sequences and numbers written out, that the other modules share. */
module Common {

  datatype Option<+T> = None | Some(value: T)

  /** No element occurs twice. */
  ghost predicate Distinct<T(!new)>(s: seq<T>) {
    forall i, j :: 0 <= i < j < |s| ==> s[i] != s[j]
  }

  function Elements<T>(s: seq<T>): set<T> {
    set x | x in s
  }

  /** Strictly inside `d`, as a path is inside a directory. */
  predicate Below<T(==)>(p: seq<T>, d: seq<T>) {
    |d| < |p| && d <= p
  }

  lemma Regroup<T>(xs: seq<T>, ys: seq<T>, zs: seq<T>)
    ensures xs + (ys + zs) == xs + ys + zs
  {
  }

  lemma DistinctTogether<T(!new)>(a: seq<T>, b: seq<T>)
    requires Distinct(a) && Distinct(b) && Elements(a) !! Elements(b)
    ensures Distinct(a + b) && Elements(a + b) == Elements(a) + Elements(b)
  {
    var all := a + b;
    forall i, j | 0 <= i < j < |all| ensures all[i] != all[j] {
      if i < |a| <= j {
        assert all[i] in Elements(a) && all[j] in Elements(b);
      }
    }
  }

  // ----- numbers as text -----

  const DIGITS := "0123456789"

  function Decimal(n: nat): string {
    if n < 10 then [DIGITS[n]] else Decimal(n / 10) + [DIGITS[n % 10]]
  }

  function DigitOf(c: char): nat {
    if '0' <= c <= '9' then c as int - '0' as int else 0
  }

  function Undecimal(s: string): nat {
    if s == [] then 0 else 10 * Undecimal(s[..|s| - 1]) + DigitOf(s[|s| - 1])
  }

  lemma DigitReadsBack(d: nat)
    requires d < 10
    ensures DigitOf(DIGITS[d]) == d
  {
  }

  lemma {:induction false} DecimalReadsBack(n: nat)
    ensures Undecimal(Decimal(n)) == n
  {
    if n < 10 {
      DigitReadsBack(n);
      assert Undecimal([]) == 0;
    } else {
      var s, tens := Decimal(n), Decimal(n / 10);
      assert s[..|s| - 1] == tens && s[|s| - 1] == DIGITS[n % 10];
      DecimalReadsBack(n / 10);
      DigitReadsBack(n % 10);
    }
  }
}
