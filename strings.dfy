/**
 * The parts of Python's `str` behaviour the handlers depend on: `lower()`,
 * `strip()`, the ordering `sorted` uses on strings, and `sorted` itself on a
 * list of strings.
 */
module Strings {

  /** `str.lower` on one character, for the ASCII letters. */
  function LowerChar(c: char): char
  {
    if 'A' <= c <= 'Z' then (c as int + 32) as char else c
  }

  /** `str.lower`, restricted to ASCII letters (see README, "Left out"). */
  function Lower(s: string): (r: string)
    ensures |r| == |s|
  {
    seq(|s|, i requires 0 <= i < |s| => LowerChar(s[i]))
  }

  /** The characters Python's `str.isspace` accepts, which `str.strip()` removes. */
  predicate IsSpace(c: char)
  {
    var n := c as int;
    (9 <= n <= 13) || (28 <= n <= 32) || n == 0x85 || n == 0xA0 || n == 0x1680
    || (0x2000 <= n <= 0x200A) || n == 0x2028 || n == 0x2029 || n == 0x202F
    || n == 0x205F || n == 0x3000
  }

  predicate AllSpace(s: string)
  {
    forall i :: 0 <= i < |s| ==> IsSpace(s[i])
  }

  function StripLeft(s: string): string
  {
    if |s| > 0 && IsSpace(s[0]) then StripLeft(s[1..]) else s
  }

  function StripRight(s: string): string
  {
    if |s| > 0 && IsSpace(s[|s| - 1]) then StripRight(s[..|s| - 1]) else s
  }

  /** `str.strip()` with no argument. */
  function Strip(s: string): string
  {
    StripRight(StripLeft(s))
  }

  lemma {:induction false} StripLeftPadded(pad: string, t: string)
    requires AllSpace(pad)
    requires |t| > 0 && !IsSpace(t[0])
    ensures StripLeft(pad + t) == t
  {
    if pad == [] {
      assert pad + t == t;
    } else {
      assert (pad + t)[1..] == pad[1..] + t;
      StripLeftPadded(pad[1..], t);
    }
  }

  lemma {:induction false} StripRightPadded(t: string, pad: string)
    requires AllSpace(pad)
    requires |t| > 0 && !IsSpace(t[|t| - 1])
    ensures StripRight(t + pad) == t
  {
    if pad == [] {
      assert t + pad == t;
    } else {
      var n := |t + pad|;
      assert (t + pad)[..n - 1] == t + pad[..|pad| - 1];
      StripRightPadded(t, pad[..|pad| - 1]);
    }
  }

  /**
   * Surrounding whitespace of any Python kind is removed by `strip()`: a core
   * that starts and ends with a non-space character comes back unchanged.
   */
  lemma StripPadded(left: string, core: string, right: string)
    requires AllSpace(left) && AllSpace(right)
    requires |core| > 0 && !IsSpace(core[0]) && !IsSpace(core[|core| - 1])
    ensures Strip(left + core + right) == core
  {
    assert left + core + right == left + (core + right);
    StripLeftPadded(left, core + right);
    StripRightPadded(core, right);
  }

  /** Python's `<=` on `str`: lexicographic by code point, a proper prefix first. */
  predicate LexLe(a: string, b: string)
  {
    |a| == 0 || (|b| > 0 && (a[0] < b[0] || (a[0] == b[0] && LexLe(a[1..], b[1..]))))
  }

  lemma {:induction false} LexLeTotal(a: string, b: string)
    ensures LexLe(a, b) || LexLe(b, a)
  {
    if |a| > 0 && |b| > 0 && a[0] == b[0] {
      LexLeTotal(a[1..], b[1..]);
    }
  }

  lemma {:induction false} LexLeAntisymmetric(a: string, b: string)
    requires LexLe(a, b) && LexLe(b, a)
    ensures a == b
  {
    if |a| > 0 && |b| > 0 {
      LexLeAntisymmetric(a[1..], b[1..]);
      assert a == [a[0]] + a[1..];
      assert b == [b[0]] + b[1..];
    }
  }

  lemma {:induction false} LexLeTransitive(a: string, b: string, c: string)
    requires LexLe(a, b) && LexLe(b, c)
    ensures LexLe(a, c)
  {
    if |a| > 0 && |b| > 0 && |c| > 0 && a[0] == b[0] && b[0] == c[0] {
      LexLeTransitive(a[1..], b[1..], c[1..]);
    }
  }

  predicate Sorted(s: seq<string>)
  {
    forall i, j :: 0 <= i < j < |s| ==> LexLe(s[i], s[j])
  }

  function Insert(x: string, s: seq<string>): (r: seq<string>)
    ensures multiset(r) == multiset(s) + multiset{x}
    ensures Sorted(s) ==> Sorted(r)
  {
    if s == [] then [x]
    else if LexLe(x, s[0]) then
      InsertFrontSorted(x, s);
      [x] + s
    else
      var rest := Insert(x, s[1..]);
      assert s == [s[0]] + s[1..];
      InsertBehindSorted(x, s, rest);
      [s[0]] + rest
  }

  lemma InsertFrontSorted(x: string, s: seq<string>)
    requires |s| > 0 && LexLe(x, s[0])
    ensures Sorted(s) ==> Sorted([x] + s)
  {
    if Sorted(s) {
      forall j | 0 < j < |s| ensures LexLe(x, s[j]) {
        LexLeTransitive(x, s[0], s[j]);
      }
    }
  }

  lemma InsertBehindSorted(x: string, s: seq<string>, rest: seq<string>)
    requires |s| > 0 && !LexLe(x, s[0])
    requires multiset(rest) == multiset(s[1..]) + multiset{x}
    requires Sorted(s[1..]) ==> Sorted(rest)
    ensures Sorted(s) ==> Sorted([s[0]] + rest)
  {
    if Sorted(s) {
      LexLeTotal(x, s[0]);
      forall j | 0 <= j < |rest| ensures LexLe(s[0], rest[j]) {
        assert rest[j] in multiset(rest);
        if rest[j] != x {
          assert rest[j] in multiset(s[1..]);
          var k :| 0 <= k < |s[1..]| && s[1..][k] == rest[j];
          assert s[k + 1] == rest[j];
        }
      }
      assert Sorted(s[1..]) by {
        forall i, j | 0 <= i < j < |s[1..]| ensures LexLe(s[1..][i], s[1..][j]) {
          assert s[1..][i] == s[i + 1] && s[1..][j] == s[j + 1];
        }
      }
    }
  }

  /** `sorted(xs)` on a list of strings. */
  function Sort(s: seq<string>): (r: seq<string>)
    ensures Sorted(r)
    ensures multiset(r) == multiset(s)
  {
    if s == [] then []
    else
      assert s == [s[0]] + s[1..];
      Insert(s[0], Sort(s[1..]))
  }

  /** Two sorted lists with the same elements are the same list. */
  lemma {:induction false} SortedUnique(a: seq<string>, b: seq<string>)
    requires Sorted(a) && Sorted(b)
    requires multiset(a) == multiset(b)
    ensures a == b
  {
    assert |a| == |b| by {
      assert |a| == |multiset(a)| && |b| == |multiset(b)|;
    }
    if a != [] {
      assert a[0] == b[0] by {
        assert b[0] in multiset(a) && a[0] in multiset(b);
        SortedHeadLeast(a, b[0]);
        SortedHeadLeast(b, a[0]);
        LexLeAntisymmetric(a[0], b[0]);
      }
      assert multiset(a[1..]) == multiset(b[1..]) by {
        DropHead(a);
        DropHead(b);
      }
      SortedTail(a);
      SortedTail(b);
      SortedUnique(a[1..], b[1..]);
      assert a == [a[0]] + a[1..] && b == [b[0]] + b[1..];
    }
  }

  /** The head of a sorted list precedes every element of it. */
  lemma SortedHeadLeast(a: seq<string>, x: string)
    requires Sorted(a) && x in multiset(a)
    ensures LexLe(a[0], x)
  {
    var i :| 0 <= i < |a| && a[i] == x;
    if i == 0 {
      LexLeTotal(x, x);
    }
  }

  lemma DropHead(a: seq<string>)
    requires |a| > 0
    ensures multiset(a[1..]) == multiset(a) - multiset{a[0]}
  {
    assert a == [a[0]] + a[1..];
  }

  lemma SortedTail(a: seq<string>)
    requires Sorted(a) && |a| > 0
    ensures Sorted(a[1..])
  {
    forall i, j | 0 <= i < j < |a[1..]| ensures LexLe(a[1..][i], a[1..][j]) {
      assert a[1..][i] == a[i + 1] && a[1..][j] == a[j + 1];
    }
  }

  /** `sorted` depends only on the elements, not on their order: equal multisets sort alike, and only they. */
  lemma SortCanonical(a: seq<string>, b: seq<string>)
    ensures Sort(a) == Sort(b) <==> multiset(a) == multiset(b)
  {
    if multiset(a) == multiset(b) {
      SortedUnique(Sort(a), Sort(b));
    }
  }
}
