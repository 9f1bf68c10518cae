/**
 * Python's ordering of `str` values: code point by code point, and a proper
 * prefix comes first. Dafny's own `<` on sequences means "proper prefix", so
 * the order `list.sort` uses on the `time` strings is defined here.
 */
module TextOrder {

  /** `a <= b` on Python strings. */
  predicate StrLe(a: string, b: string)
    decreases |a|
  {
    if a == [] then true
    else if b == [] then false
    else if a[0] != b[0] then a[0] < b[0]
    else StrLe(a[1..], b[1..])
  }

  /** `a < b` on Python strings, the only comparison `list.sort` makes. */
  predicate StrLt(a: string, b: string)
  {
    StrLe(a, b) && a != b
  }

  lemma {:induction false} StrLeReflexive(a: string)
    ensures StrLe(a, a)
  {
    if a != [] {
      StrLeReflexive(a[1..]);
    }
  }

  lemma {:induction false} StrLeTotal(a: string, b: string)
    ensures StrLe(a, b) || StrLe(b, a)
  {
    if a != [] && b != [] && a[0] == b[0] {
      StrLeTotal(a[1..], b[1..]);
    }
  }

  lemma {:induction false} StrLeAntisymmetric(a: string, b: string)
    requires StrLe(a, b) && StrLe(b, a)
    ensures a == b
  {
    if a != [] && b != [] {
      StrLeAntisymmetric(a[1..], b[1..]);
      assert a == [a[0]] + a[1..] && b == [b[0]] + b[1..];
    }
  }

  lemma {:induction false} StrLeTransitive(a: string, b: string, c: string)
    requires StrLe(a, b) && StrLe(b, c)
    ensures StrLe(a, c)
  {
    if a != [] && b != [] && c != [] && a[0] == b[0] && b[0] == c[0] {
      StrLeTransitive(a[1..], b[1..], c[1..]);
    }
  }

  /** The strict order is the complement of the reversed non-strict one. */
  lemma StrLtIsNotReverseLe(a: string, b: string)
    ensures StrLt(a, b) <==> !StrLe(b, a)
  {
  }

  /**
   * Comparing two strings that start with prefixes of equal length: the
   * prefixes decide unless they are equal, and then the rest decides.
   */
  lemma {:induction false} StrLeConcat(x1: string, x2: string, y1: string, y2: string)
    requires |x1| == |y1|
    ensures StrLe(x1 + x2, y1 + y2) <==> if x1 == y1 then StrLe(x2, y2) else StrLe(x1, y1)
  {
    if x1 == [] {
      assert x1 + x2 == x2 && y1 + y2 == y2;
    } else {
      assert (x1 + x2)[0] == x1[0] && (y1 + y2)[0] == y1[0];
      assert (x1 + x2)[1..] == x1[1..] + x2 && (y1 + y2)[1..] == y1[1..] + y2;
      StrLeConcat(x1[1..], x2, y1[1..], y2);
      if x1[0] == y1[0] {
        assert x1 == y1 <==> x1[1..] == y1[1..] by {
          assert x1 == [x1[0]] + x1[1..] && y1 == [y1[0]] + y1[1..];
        }
      }
    }
  }
}
