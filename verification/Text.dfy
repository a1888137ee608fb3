/** Facts about text that the client identifiers and the rendered policies rest on: decimal
    numerals, cutting at the last dash, and the byte order that sort.Strings uses. */
module Text {

  // ---------- decimal numerals (the %d of fmt.Sprintf on a non-negative int) ----------

  predicate IsDigit(c: char) {
    '0' <= c <= '9'
  }

  function Decimal(n: nat): (s: string)
    ensures s != []
    ensures forall c :: c in s ==> IsDigit(c)
  {
    if n < 10 then ["0123456789"[n]] else Decimal(n / 10) + ["0123456789"[n % 10]]
  }

  /** Reads a numeral back. */
  function Numeral(s: string): int
    requires forall c :: c in s ==> IsDigit(c)
  {
    if s == [] then 0
    else 10 * Numeral(s[..|s| - 1]) + (s[|s| - 1] as int - '0' as int)
  }

  lemma {:induction false} DecimalRoundTrip(n: nat)
    ensures Numeral(Decimal(n)) == n
    ensures |Decimal(n)| > 1 ==> Decimal(n)[0] != '0'
  {
    if n >= 10 {
      DecimalRoundTrip(n / 10);
      var s := Decimal(n);
      assert s[..|s| - 1] == Decimal(n / 10);
    }
  }

  lemma DecimalInjective(m: nat, n: nat)
    requires Decimal(m) == Decimal(n)
    ensures m == n
  {
    DecimalRoundTrip(m);
    DecimalRoundTrip(n);
  }

  // ---------- concatenation ----------

  lemma SameEnd(a: string, b: string, x: string, y: string)
    requires a + x == b + y
    requires |x| == |y|
    ensures a == b && x == y
  {
    assert |a| == |b|;
    assert a == (a + x)[..|a|] && b == (b + y)[..|b|];
    assert x == (a + x)[|a|..] && y == (b + y)[|b|..];
  }

  /** A separator that neither tail contains splits a text in one way only. */
  lemma LastSeparator(a: string, b: string, x: string, y: string, sep: char)
    requires a + [sep] + x == b + [sep] + y
    requires sep !in x && sep !in y
    ensures a == b && x == y
  {
    LastOccurrence(a, x, sep);
    LastOccurrence(b, y, sep);
    SameEnd(a + [sep], b + [sep], x, y);
    SameEnd(a, b, [sep], [sep]);
  }

  lemma LastOccurrence(a: string, x: string, sep: char)
    requires sep !in x
    ensures var s := a + [sep] + x;
      s[|a|] == sep && forall i :: |a| < i < |s| ==> s[i] != sep
  {
    var s := a + [sep] + x;
    forall i | |a| < i < |s| ensures s[i] != sep {
      assert s[i] == x[i - |a| - 1];
    }
  }

  // ---------- byte order ----------

  predicate Before(a: string, b: string) {
    if b == [] then false
    else if a == [] then true
    else a[0] < b[0] || (a[0] == b[0] && Before(a[1..], b[1..]))
  }

  lemma {:induction false} BeforeIrreflexive(a: string)
    ensures !Before(a, a)
  {
    if a != [] { BeforeIrreflexive(a[1..]); }
  }

  lemma {:induction false} BeforeTransitive(a: string, b: string, c: string)
    requires Before(a, b) && Before(b, c)
    ensures Before(a, c)
  {
    if a != [] && a[0] == b[0] == c[0] { BeforeTransitive(a[1..], b[1..], c[1..]); }
  }

  lemma {:induction false} BeforeTotal(a: string, b: string)
    ensures a == b || Before(a, b) || Before(b, a)
  {
    if a != [] && b != [] && a[0] == b[0] {
      BeforeTotal(a[1..], b[1..]);
      assert a == [a[0]] + a[1..] && b == [b[0]] + b[1..];
    }
  }

  /** A shorter text comes before its continuations; otherwise the first difference decides. */
  lemma {:induction false} BeforeExactly(a: string, b: string)
    ensures Before(a, b) <==> a < b || exists i: nat :: DiffersBelow(a, b, i)
  {
    if a != [] && b != [] {
      var a', b' := a[1..], b[1..];
      assert a == [a[0]] + a' && b == [b[0]] + b';
      assert a[0] < b[0] <==> DiffersBelow(a, b, 0);
      if a[0] == b[0] {
        BeforeExactly(a', b');
        forall i: nat { DiffersLater(a, b, i); }
        hide DiffersBelow, Before;
        forall i: nat | DiffersBelow(a, b, i) ensures exists j: nat :: DiffersBelow(a', b', j) {
          if i > 0 { assert DiffersBelow(a', b', i - 1); }
        }
      } else {
        forall i: nat | i > 0 && DiffersBelow(a, b, i) { SameStart(a, b, i); }
      }
    }
  }

  /** The texts agree before place `i`, and there `a` has the smaller byte. */
  predicate DiffersBelow(a: string, b: string, i: nat) {
    i < |a| && i < |b| && a[..i] == b[..i] && a[i] < b[i]
  }

  lemma SameStart(a: string, b: string, i: nat)
    requires DiffersBelow(a, b, i) && i > 0
    ensures a[0] == b[0]
  {
    assert a[..i][0] == a[0] && b[..i][0] == b[0];
  }

  lemma DiffersLater(a: string, b: string, i: nat)
    requires a != [] && b != [] && a[0] == b[0]
    ensures DiffersBelow(a[1..], b[1..], i) <==> DiffersBelow(a, b, i + 1)
  {
    if i < |a| - 1 && i < |b| - 1 {
      assert a[..i + 1] == [a[0]] + a[1..][..i] && b[..i + 1] == [b[0]] + b[1..][..i];
      assert a[..i + 1][1..] == a[1..][..i] && b[..i + 1][1..] == b[1..][..i];
    }
  }

  /** Strictly increasing, so in particular without repetitions. */
  ghost predicate Increasing(s: seq<string>) {
    forall i, j :: 0 <= i < j < |s| ==> Before(s[i], s[j])
  }

  function Elements(s: seq<string>): set<string> {
    set x | x in s
  }

  /** There is one increasing listing of a set: rendering from a sorted listing is
      deterministic however the map it came from was iterated. */
  lemma {:induction false} IncreasingUnique(s: seq<string>, t: seq<string>)
    requires Increasing(s) && Increasing(t)
    requires Elements(s) == Elements(t)
    ensures s == t
  {
    if s == [] {
      assert forall i :: 0 <= i < |t| ==> t[i] in Elements(t);
    } else {
      assert s[0] in Elements(t);
      assert t != [] && t[0] in Elements(s);
      var i :| 0 <= i < |s| && s[i] == t[0];
      var j :| 0 <= j < |t| && t[j] == s[0];
      BeforeIrreflexive(s[0]);
      if i > 0 {
        assert Before(s[0], t[0]);
        if j > 0 { BeforeTransitive(s[0], t[0], s[0]); }
        assert false;
      }
      assert s[0] == t[0];
      TailElements(s);
      TailElements(t);
      IncreasingUnique(s[1..], t[1..]);
      assert s == [s[0]] + s[1..] && t == [t[0]] + t[1..];
    }
  }

  lemma TailElements(s: seq<string>)
    requires s != [] && Increasing(s)
    ensures Increasing(s[1..])
    ensures Elements(s[1..]) == Elements(s) - {s[0]}
  {
    BeforeIrreflexive(s[0]);
    assert s[0] !in s[1..];
    assert s == [s[0]] + s[1..];
  }

  /** The in-place sort of a duplicate-free list, as insertion into a growing sorted list. */
  method SortStrings(items: set<string>) returns (sorted: seq<string>)
    ensures Increasing(sorted) && Elements(sorted) == items
  {
    sorted := [];
    var rest := items;
    while rest != {}
      invariant Increasing(sorted) && Elements(sorted) == items - rest
      invariant rest <= items
      decreases |rest|
    {
      var x :| x in rest;
      sorted := Insert(sorted, x);
      rest := rest - {x};
    }
  }

  method Insert(s: seq<string>, x: string) returns (t: seq<string>)
    requires Increasing(s) && x !in s
    ensures Increasing(t) && Elements(t) == Elements(s) + {x}
  {
    var i := 0;
    while i < |s| && Before(s[i], x)
      invariant 0 <= i <= |s|
      invariant forall k :: 0 <= k < i ==> Before(s[k], x)
    {
      i := i + 1;
    }
    t := s[..i] + [x] + s[i..];
    forall k | i <= k < |s| ensures Before(x, s[k]) {
      BeforeTotal(s[i], x);
      if i < k { BeforeTransitive(x, s[i], s[k]); }
    }
    assert Elements(t) == Elements(s) + {x} by {
      assert s == s[..i] + s[i..];
    }
  }
}
