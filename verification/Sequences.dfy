/** Order-preserving removal of duplicates, and small facts about text. */
module Sequences {

  ghost predicate Distinct<T>(s: seq<T>) {
    forall i, j | 0 <= i < j < |s| :: s[i] != s[j]
  }

  /** Where `x` first occurs in `s`. */
  function IndexOf<T(==)>(s: seq<T>, x: T): (i: nat)
    requires x in s
    ensures i < |s| && s[i] == x && x !in s[..i]
  {
    if s[0] == x then 0
    else
      assert s == [s[0]] + s[1..];
      1 + IndexOf(s[1..], x)
  }

  /** The elements that `keep` accepts, each at its first occurrence. */
  function FirstOccurrences<T(==)>(s: seq<T>, keep: T -> bool): seq<T> {
    if s == [] then []
    else
      var n := |s| - 1;
      var earlier := FirstOccurrences(s[..n], keep);
      if keep(s[n]) && s[n] !in s[..n] then earlier + [s[n]] else earlier
  }

  /** One more element, as a loop with a `seen` set takes it. */
  lemma FirstOccurrencesStep<T>(s: seq<T>, keep: T -> bool, i: nat)
    requires i < |s|
    ensures FirstOccurrences(s[..i + 1], keep) ==
      FirstOccurrences(s[..i], keep) + (if keep(s[i]) && s[i] !in s[..i] then [s[i]] else [])
    ensures forall x :: x in s[..i + 1] <==> x in s[..i] || x == s[i]
  {
    assert s[..i + 1][..i] == s[..i];
    assert s[..i + 1] == s[..i] + [s[i]];
  }

  lemma {:induction false} FirstOccurrencesMember<T>(s: seq<T>, keep: T -> bool, x: T)
    ensures x in FirstOccurrences(s, keep) <==> x in s && keep(x)
  {
    if s != [] {
      var n := |s| - 1;
      FirstOccurrencesMember(s[..n], keep, x);
      assert s == s[..n] + [s[n]];
    }
  }

  lemma {:induction false} FirstOccurrencesDistinct<T>(s: seq<T>, keep: T -> bool)
    ensures Distinct(FirstOccurrences(s, keep))
  {
    if s != [] {
      var n := |s| - 1;
      FirstOccurrencesDistinct(s[..n], keep);
      FirstOccurrencesMember(s[..n], keep, s[n]);
    }
  }

  lemma {:induction false} IndexIs<T>(s: seq<T>, x: T, i: nat)
    requires i < |s| && s[i] == x && x !in s[..i]
    ensures x in s && IndexOf(s, x) == i
  {
    if i > 0 {
      assert s[..i] == [s[0]] + s[1..][..i - 1];
      IndexIs(s[1..], x, i - 1);
    }
  }

  lemma IndexOfPrefix<T>(s: seq<T>, n: nat, x: T)
    requires n <= |s| && x in s[..n]
    ensures x in s && IndexOf(s, x) == IndexOf(s[..n], x)
  {
    var i := IndexOf(s[..n], x);
    assert s[..n][..i] == s[..i];
    IndexIs(s, x, i);
  }

  /** What is kept keeps its order. */
  lemma {:induction false} FirstOccurrencesOrdered<T>(s: seq<T>, keep: T -> bool, i: nat, j: nat)
    requires i < j < |FirstOccurrences(s, keep)|
    ensures var r := FirstOccurrences(s, keep); r[i] in s && r[j] in s && IndexOf(s, r[i]) < IndexOf(s, r[j])
  {
    var n := |s| - 1;
    var r, earlier := FirstOccurrences(s, keep), FirstOccurrences(s[..n], keep);
    FirstOccurrencesMember(s[..n], keep, earlier[i]);
    IndexOfPrefix(s, n, r[i]);
    if j < |earlier| {
      FirstOccurrencesOrdered(s[..n], keep, i, j);
      FirstOccurrencesMember(s[..n], keep, earlier[j]);
      IndexOfPrefix(s, n, r[j]);
    } else {
      assert r[j] == s[n] && s[n] !in s[..n];
      IndexIs(s, s[n], n);
    }
  }

  /** `s.toLowerCase()` on hex addresses, whose letters are all ASCII. */
  function Lower(s: string): (r: string)
    ensures |r| == |s|
  {
    seq(|s|, i requires 0 <= i < |s| => if 'A' <= s[i] <= 'Z' then s[i] - 'A' + 'a' else s[i])
  }

  /** Two texts agree in lower case exactly when they differ in nothing but the case of ASCII letters. */
  lemma SameLower(a: string, b: string)
    ensures Lower(a) == Lower(b) <==>
      && |a| == |b|
      && forall i | 0 <= i < |a| ::
           || a[i] == b[i]
           || ('A' <= a[i] <= 'Z' && b[i] as int == a[i] as int + 32)
           || ('A' <= b[i] <= 'Z' && a[i] as int == b[i] as int + 32)
  {
    if |a| == |b| {
      forall i | 0 <= i < |a| ensures
        Lower(a)[i] == Lower(b)[i] <==>
          || a[i] == b[i]
          || ('A' <= a[i] <= 'Z' && b[i] as int == a[i] as int + 32)
          || ('A' <= b[i] <= 'Z' && a[i] as int == b[i] as int + 32)
      {
        LowerUnit(a[i], Lower(a)[i]);
        LowerUnit(b[i], Lower(b)[i]);
      }
    }
  }

  lemma LowerUnit(c: char, l: char)
    requires l == if 'A' <= c <= 'Z' then c - 'A' + 'a' else c
    ensures l as int == c as int + (if 'A' <= c <= 'Z' then 32 else 0)
    ensures !('A' <= l <= 'Z')
  {
  }

  /** `url.replace(/\/+$/, "")`. */
  function StripTrailingSlashes(url: string): (base: string)
    ensures base <= url && (base == [] || base[|base| - 1] != '/')
    ensures forall i | |base| <= i < |url| :: url[i] == '/'
  {
    if url == [] || url[|url| - 1] != '/' then url
    else StripTrailingSlashes(url[..|url| - 1])
  }
}
