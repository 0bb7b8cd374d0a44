/**
 * String operations the database performs for the services: ordering names,
 * case-insensitive substring search, and rendering a counter in decimal.
 */
module Text {

  // ---------------------------------------------------------------------------
  // orderBy name asc: lexicographic order by character code
  // ---------------------------------------------------------------------------

  predicate LexLeq(a: string, b: string) {
    if a == [] then true
    else if b == [] then false
    else if a[0] != b[0] then a[0] < b[0]
    else LexLeq(a[1..], b[1..])
  }

  lemma {:induction false} LexLeqTotal(a: string, b: string)
    ensures LexLeq(a, b) || LexLeq(b, a)
  {
    if a != [] && b != [] && a[0] == b[0] {
      LexLeqTotal(a[1..], b[1..]);
    }
  }

  lemma {:induction false} LexLeqTransitive(a: string, b: string, c: string)
    requires LexLeq(a, b) && LexLeq(b, c)
    ensures LexLeq(a, c)
  {
    if a != [] && b != [] && c != [] && a[0] == b[0] && b[0] == c[0] {
      LexLeqTransitive(a[1..], b[1..], c[1..]);
    }
  }

  // ---------------------------------------------------------------------------
  // contains, mode: "insensitive"
  // ---------------------------------------------------------------------------

  function LowerChar(c: char): char {
    if 'A' <= c <= 'Z' then (c as int + 32) as char else c
  }

  /** ASCII lower-casing (the database's full Unicode folding is not modelled). */
  function Lower(s: string): (r: string)
    ensures |r| == |s| && forall i :: 0 <= i < |s| ==> r[i] == LowerChar(s[i])
  {
    if s == [] then [] else [LowerChar(s[0])] + Lower(s[1..])
  }

  /** `q` occurs in `s` starting at position `i`. */
  ghost predicate OccursAt(q: string, s: string, i: int) {
    0 <= i <= |s| - |q| && s[i..i + |q|] == q
  }

  /** `q` occurs in `s` at some position. */
  ghost predicate OccursIn(q: string, s: string) {
    exists i :: OccursAt(q, s, i)
  }

  /** Substring test, scanning `s` from the left. */
  function Contains(s: string, q: string): (r: bool)
    ensures r <==> OccursIn(q, s)
  {
    if |q| > |s| then false
    else if q <= s then
      assert OccursAt(q, s, 0);
      true
    else
      var rest := Contains(s[1..], q);
      assert rest ==> OccursIn(q, s) by {
        if rest {
          var i :| OccursAt(q, s[1..], i);
          assert s[i + 1..i + 1 + |q|] == s[1..][i..i + |q|];
          assert OccursAt(q, s, i + 1);
        }
      }
      assert OccursIn(q, s) ==> rest by {
        if OccursIn(q, s) {
          var i :| OccursAt(q, s, i);
          assert i != 0 by { assert s[..|q|] == s[0..|q|]; }
          assert s[1..][i - 1..i - 1 + |q|] == s[i..i + |q|];
          assert OccursAt(q, s[1..], i - 1);
        }
      }
      rest
  }

  /** Case-insensitive substring test. */
  function ContainsInsensitive(s: string, q: string): (r: bool)
    ensures r <==> OccursIn(Lower(q), Lower(s))
  {
    Contains(Lower(s), Lower(q))
  }

  // ---------------------------------------------------------------------------
  // template literal `${n}` for a natural number
  // ---------------------------------------------------------------------------

  function Digit(d: nat): char
    requires d < 10
  {
    "0123456789"[d]
  }

  function Decimal(n: nat): (r: string)
    ensures |r| >= 1 && (n < 10 <==> |r| == 1)
  {
    if n < 10 then [Digit(n)] else Decimal(n / 10) + [Digit(n % 10)]
  }

  lemma DigitInjective(a: nat, b: nat)
    requires a < 10 && b < 10 && Digit(a) == Digit(b)
    ensures a == b
  {
  }

  /** Different numbers render as different strings. */
  lemma {:induction false} DecimalInjective(m: nat, n: nat)
    requires Decimal(m) == Decimal(n)
    ensures m == n
  {
    if m < 10 || n < 10 {
      assert m < 10 && n < 10;
      DigitInjective(m, n);
    } else {
      var dm, dn := Decimal(m), Decimal(n);
      assert dm[|dm| - 1] == Digit(m % 10) && dn[|dn| - 1] == Digit(n % 10);
      DigitInjective(m % 10, n % 10);
      assert dm[..|dm| - 1] == Decimal(m / 10);
      assert dn[..|dn| - 1] == Decimal(n / 10);
      DecimalInjective(m / 10, n / 10);
    }
  }

  /** `c.repeat(n)`. */
  function Repeat(c: char, n: nat): (r: string)
    ensures |r| == n && forall i :: 0 <= i < n ==> r[i] == c
  {
    if n == 0 then "" else [c] + Repeat(c, n - 1)
  }
}
