/**
 * Identifiers handed out by the id generator (`helper.getId`, a Snowflake
 * generator in the repository): the n-th id is the decimal numeral of n.
 */
module Ids {

  function DigitChar(d: nat): (c: char)
    requires d < 10
    ensures '0' <= c <= '9'
  {
    ('0' as int + d) as char
  }

  /** The decimal numeral of `n`, most significant digit first. */
  function Decimal(n: nat): (r: string)
    ensures |r| >= 1
    ensures forall i :: 0 <= i < |r| ==> '0' <= r[i] <= '9'
    ensures n < 10 <==> |r| == 1
  {
    if n < 10 then [DigitChar(n)] else Decimal(n / 10) + [DigitChar(n % 10)]
  }

  /** Distinct counters give distinct ids, so an id is never handed out twice. */
  lemma {:induction false} DecimalInjective(a: nat, b: nat)
    requires Decimal(a) == Decimal(b)
    ensures a == b
    decreases a
  {
    if a >= 10 && b >= 10 {
      var sa, sb := Decimal(a), Decimal(b);
      assert DigitChar(a % 10) == sa[|sa| - 1] == sb[|sb| - 1] == DigitChar(b % 10);
      assert Decimal(a / 10) == sa[..|sa| - 1] == sb[..|sb| - 1] == Decimal(b / 10);
      DecimalInjective(a / 10, b / 10);
    } else {
      assert Decimal(a)[0] == Decimal(b)[0];
    }
  }

  /** The ids handed out before the counter reached `n`. */
  ghost function IssuedUpTo(n: nat): set<string>
  {
    if n == 0 then {} else IssuedUpTo(n - 1) + {Decimal(n - 1)}
  }

  /** No counter value at or past `n` yields an id handed out before `n`. */
  lemma {:induction false} NotYetIssued(m: nat, n: nat)
    requires n <= m
    ensures Decimal(m) !in IssuedUpTo(n)
    decreases n
  {
    if n > 0 {
      NotYetIssued(m, n - 1);
      if Decimal(m) == Decimal(n - 1) {
        DecimalInjective(m, n - 1);
      }
    }
  }

  /**
   * The process-wide id source (`helper.getId`). `issued` records the ids
   * handed out so far.
   */
  class Generator {
    var next: nat
    ghost var issued: set<string>

    ghost predicate Valid()
      reads this
    {
      issued == IssuedUpTo(next)
    }

    constructor ()
      ensures Valid() && next == 0 && issued == {}
    {
      next := 0;
      issued := {};
    }

    /** Hands out the numeral of the counter, an id never handed out before, and advances. */
    method Generate() returns (id: string)
      requires Valid()
      modifies this
      ensures Valid()
      ensures id == Decimal(old(next)) && next == old(next) + 1
      ensures id !in old(issued) && issued == old(issued) + {id}
    {
      id := Decimal(next);
      NotYetIssued(next, next);
      next := next + 1;
      issued := issued + {id};
    }
  }
}
