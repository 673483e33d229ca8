/** Strings as the source uses them: prefixes, the first occurrence of a byte and
    the ascending order `sort.Strings` produces. */
module Text {

  /** The position of the first `c` in `s`, or `|s|` when there is none. */
  function IndexOf(s: string, c: char): (i: nat)
    ensures i <= |s|
    ensures c !in s[..i]
    ensures i < |s| ==> s[i] == c
  {
    if s == [] then 0
    else if s[0] == c then 0
    else
      var i := 1 + IndexOf(s[1..], c);
      assert s[..i] == [s[0]] + s[1..][..i - 1];
      i
  }

  /** A string without `c` up to its end is cut exactly at a `c` that follows it. */
  lemma {:induction false} IndexOfAfter(a: string, c: char, b: string)
    requires c !in a
    ensures IndexOf(a + [c] + b, c) == |a|
  {
    var s := a + [c] + b;
    if a == [] {
      assert s[0] == c;
    } else {
      assert s[0] == a[0] && s[1..] == a[1..] + [c] + b;
      IndexOfAfter(a[1..], c, b);
    }
  }

  /** Strict lexicographic order. */
  predicate Before(a: string, b: string) {
    b != [] && (a == [] || a[0] < b[0] || (a[0] == b[0] && Before(a[1..], b[1..])))
  }

  lemma {:induction false} BeforeTotal(a: string, b: string)
    ensures Before(a, b) || a == b || Before(b, a)
  {
    if a != [] && b != [] && a[0] == b[0] {
      BeforeTotal(a[1..], b[1..]);
      if a[1..] == b[1..] {
        assert a == [a[0]] + a[1..] && b == [b[0]] + b[1..];
      }
    }
  }

  lemma {:induction false} BeforeAsymmetric(a: string, b: string)
    requires Before(a, b)
    ensures !Before(b, a) && a != b
  {
    if a != [] && a[0] == b[0] {
      BeforeAsymmetric(a[1..], b[1..]);
    }
  }

  lemma {:induction false} BeforeTransitive(a: string, b: string, c: string)
    requires Before(a, b) && Before(b, c)
    ensures Before(a, c)
  {
    if a != [] && a[0] == b[0] == c[0] {
      BeforeTransitive(a[1..], b[1..], c[1..]);
    }
  }

  /** Where two strings first differ, the smaller character comes first, and the end before any. */
  lemma {:induction false} FirstDifferenceDecides(p: string, a: string, b: string)
    requires b != "" && (a == "" || a[0] < b[0])
    ensures Before(p + a, p + b)
  {
    if p == "" {
      assert p + a == a && p + b == b;
    } else {
      assert (p + a)[1..] == p[1..] + a && (p + b)[1..] == p[1..] + b;
      FirstDifferenceDecides(p[1..], a, b);
    }
  }

  /** `k` is the first key of `s`. */
  predicate IsFirst(s: set<string>, k: string) {
    k in s && forall j :: j in s && j != k ==> Before(k, j)
  }

  lemma {:induction false} FirstExists(s: set<string>)
    requires s != {}
    ensures exists k :: IsFirst(s, k)
    decreases |s|
  {
    var k :| k in s;
    if s == {k} {
      assert IsFirst(s, k);
    } else {
      var rest := s - {k};
      assert s == rest + {k};
      FirstExists(rest);
      var f :| IsFirst(rest, f);
      BeforeTotal(k, f);
      var best := if Before(k, f) then k else f;
      forall j | j in s && j != best
        ensures Before(best, j)
      {
        if best == k && j != f { BeforeTransitive(k, f, j); }
      }
      assert IsFirst(s, best);
    }
  }

  lemma FirstUnique(s: set<string>)
    ensures forall j, k :: IsFirst(s, j) && IsFirst(s, k) ==> j == k
  {
    forall j, k | IsFirst(s, j) && IsFirst(s, k)
      ensures j == k
    {
      if Before(j, k) { BeforeAsymmetric(j, k); }
    }
  }

  ghost predicate Ascending(keys: seq<string>) {
    forall i, j :: 0 <= i < j < |keys| ==> Before(keys[i], keys[j])
  }

  /** Every key once. */
  ghost predicate Enumerates(keys: seq<string>, s: set<string>) {
    && (forall k :: k in keys <==> k in s)
    && (forall i, j :: 0 <= i < j < |keys| ==> keys[i] != keys[j])
  }

  /** The keys of `s` in the order of `sort.Strings`. */
  function SortedKeys(s: set<string>): (keys: seq<string>)
    ensures Ascending(keys) && Enumerates(keys, s)
    decreases |s|
  {
    if s == {} then []
    else
      FirstExists(s);
      FirstUnique(s);
      var k :| k in s && IsFirst(s, k);
      var rest := SortedKeys(s - {k});
      var keys := [k] + rest;
      assert Ascending(keys) && Enumerates(keys, s) by {
        forall i, j | 0 <= i < j < |keys| ensures Before(keys[i], keys[j]) && keys[i] != keys[j] {
          if i == 0 { assert keys[j] in rest; } else { assert keys[i] == rest[i - 1] && keys[j] == rest[j - 1]; }
        }
      }
      keys
  }

  /** There is one ascending enumeration of a set, so sorting leaves no choice. */
  lemma {:induction false} SortedKeysUnique(s: set<string>, keys: seq<string>)
    requires Ascending(keys) && Enumerates(keys, s)
    ensures keys == SortedKeys(s)
    decreases |s|
  {
    var want := SortedKeys(s);
    assert keys != [] ==> keys[0] in s;
    if s != {} {
      FirstExists(s);
      var k :| IsFirst(s, k);
      HeadIsFirst(s, keys, k);
      HeadIsFirst(s, want, k);
      TailEnumerates(s, keys);
      TailEnumerates(s, want);
      SortedKeysUnique(s - {k}, keys[1..]);
      SortedKeysUnique(s - {k}, want[1..]);
    }
  }

  lemma HeadIsFirst(s: set<string>, keys: seq<string>, k: string)
    requires Ascending(keys) && Enumerates(keys, s) && IsFirst(s, k)
    ensures keys != [] && keys[0] == k
  {
    assert k in keys;
    if keys[0] != k {
      var i :| 0 <= i < |keys| && keys[i] == k;
      assert keys[0] in s;
      BeforeAsymmetric(k, keys[0]);
    }
  }

  lemma TailEnumerates(s: set<string>, keys: seq<string>)
    requires Ascending(keys) && Enumerates(keys, s) && keys != []
    ensures Ascending(keys[1..]) && Enumerates(keys[1..], s - {keys[0]})
  {
    forall k ensures k in keys[1..] <==> k in s - {keys[0]} {
      if k in keys[1..] {
        var i :| 0 <= i < |keys[1..]| && keys[1..][i] == k;
        assert keys[i + 1] == k && keys[0] != keys[i + 1];
      }
      if k in s - {keys[0]} {
        var i :| 0 <= i < |keys| && keys[i] == k;
        assert keys[1..][i - 1] == k;
      }
    }
  }
}
