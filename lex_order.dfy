/** Python's comparison of `str` values: lexicographic on code points, a
    proper prefix sorting first. Database `ORDER BY` on the text columns is
    taken to use the same order. */
module LexOrder {

  /** `a <= b` for Python strings. */
  predicate LexLe(a: string, b: string)
    decreases |a|
  {
    a == [] || (b != [] && (a[0] < b[0] || (a[0] == b[0] && LexLe(a[1..], b[1..]))))
  }

  lemma {:induction false} LexLeReflexive(a: string)
    ensures LexLe(a, a)
    decreases |a|
  {
    if a != [] {
      LexLeReflexive(a[1..]);
    }
  }

  lemma {:induction false} LexLeAntisymmetric(a: string, b: string)
    requires LexLe(a, b) && LexLe(b, a)
    ensures a == b
    decreases |a|
  {
    if a != [] && b != [] {
      LexLeAntisymmetric(a[1..], b[1..]);
      assert a == [a[0]] + a[1..] && b == [b[0]] + b[1..];
    }
  }

  lemma {:induction false} LexLeTransitive(a: string, b: string, c: string)
    requires LexLe(a, b) && LexLe(b, c)
    ensures LexLe(a, c)
    decreases |a|
  {
    if a != [] && b != [] && c != [] && a[0] == b[0] == c[0] {
      LexLeTransitive(a[1..], b[1..], c[1..]);
    }
  }

  lemma {:induction false} LexLeTotal(a: string, b: string)
    ensures LexLe(a, b) || LexLe(b, a)
    decreases |a|
  {
    if a != [] && b != [] && a[0] == b[0] {
      LexLeTotal(a[1..], b[1..]);
    }
  }

  /** Two strings that agree up to a position where the first has the smaller
      character are ordered, whatever follows. */
  lemma {:induction false} LexLtAtFirstDifference(a: string, b: string, k: nat)
    requires k < |a| && k < |b| && a[..k] == b[..k] && a[k] < b[k]
    ensures LexLe(a, b) && !LexLe(b, a)
    decreases k
  {
    if k > 0 {
      assert a[1..][..k - 1] == a[..k][1..] && b[1..][..k - 1] == b[..k][1..];
      LexLtAtFirstDifference(a[1..], b[1..], k - 1);
    }
  }

  /** The greatest string of a non-empty list; `ORDER BY ... DESC` then
      `.first()`. */
  function LexMax(ss: seq<string>): (m: string)
    requires ss != []
    ensures m in ss
    ensures forall s :: s in ss ==> LexLe(s, m)
    decreases |ss|
  {
    if |ss| == 1 then
      LexLeReflexive(ss[0]);
      ss[0]
    else
      var rest := LexMax(ss[1..]);
      LexLeTotal(rest, ss[0]);
      LexLeReflexive(ss[0]);
      if LexLe(rest, ss[0]) then
        assert forall s :: s in ss[1..] ==> LexLe(s, ss[0]) by {
          forall s | s in ss[1..] ensures LexLe(s, ss[0]) {
            LexLeTransitive(s, rest, ss[0]);
          }
        }
        assert forall s :: s in ss ==> s == ss[0] || s in ss[1..];
        ss[0]
      else
        assert forall s :: s in ss ==> s == ss[0] || s in ss[1..];
        rest
  }
}
