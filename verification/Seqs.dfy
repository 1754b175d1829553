/** Sequence facts used in several modules. */
module Seqs {
  lemma ConcatAssoc<T>(a: seq<T>, b: seq<T>, c: seq<T>)
    ensures (a + b) + c == a + (b + c)
  {
  }

  /** out is all with some elements left out. */
  ghost predicate Subsequence<T>(out: seq<T>, all: seq<T>)
    decreases all
  {
    out == [] ||
    (all != [] && ((out[0] == all[0] && Subsequence(out[1..], all[1..])) || Subsequence(out, all[1..])))
  }

  lemma {:induction false} SubsequenceAll<T>(s: seq<T>)
    ensures Subsequence(s, s)
    decreases s
  {
    if s != [] { SubsequenceAll(s[1..]); }
  }

  lemma SubsequenceSkip<T>(s: seq<T>, a: seq<T>, b: seq<T>)
    requires a != [] && Subsequence(s, a[1..] + b)
    ensures Subsequence(s, a + b)
  {
    assert (a + b)[1..] == a[1..] + b;
  }

  lemma {:induction false} SubsequencePrefix<T>(p: seq<T>, s: seq<T>, t: seq<T>)
    requires Subsequence(s, t)
    ensures Subsequence(p + s, p + t)
    decreases p
  {
    if p == [] {
      assert p + s == s && p + t == t;
    } else {
      SubsequencePrefix(p[1..], s, t);
      assert (p + s)[1..] == p[1..] + s && (p + t)[1..] == p[1..] + t;
    }
  }

  lemma {:induction false} SubsequenceSnoc<T>(s: seq<T>, t: seq<T>, e: T)
    requires Subsequence(s, t)
    ensures Subsequence(s, t + [e]) && Subsequence(s + [e], t + [e])
    decreases t
  {
    if t == [] {
      assert s + [e] == [e] && t + [e] == [e];
    } else {
      assert (t + [e])[1..] == t[1..] + [e];
      if s != [] && s[0] == t[0] && Subsequence(s[1..], t[1..]) {
        SubsequenceSnoc(s[1..], t[1..], e);
        assert (s + [e])[1..] == s[1..] + [e];
      } else if s != [] {
        SubsequenceSnoc(s, t[1..], e);
      } else {
        SubsequenceSnoc([], t[1..], e);
        assert s + [e] == [] + [e];
      }
    }
  }

  lemma {:induction false} SubsequenceTake<T>(s: seq<T>, t: seq<T>, n: nat)
    requires Subsequence(s, t) && n <= |s|
    ensures Subsequence(s[..n], t)
    decreases t
  {
    if n > 0 {
      if s[0] == t[0] && Subsequence(s[1..], t[1..]) {
        SubsequenceTake(s[1..], t[1..], n - 1);
        assert s[..n][1..] == s[1..][..n - 1];
      } else {
        SubsequenceTake(s, t[1..], n);
      }
    }
  }
}
