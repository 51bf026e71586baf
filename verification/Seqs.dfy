/** Filtering of sequences, as the store's `for ... append` loops do it. */
module Seqs {

  function Filter<T>(f: T -> bool, s: seq<T>): seq<T> {
    if s == [] then []
    else Filter(f, s[..|s| - 1]) + (if f(s[|s| - 1]) then [s[|s| - 1]] else [])
  }

  lemma {:induction false} FilterSnoc<T>(f: T -> bool, s: seq<T>, i: nat)
    requires i < |s|
    ensures Filter(f, s[..i + 1]) == Filter(f, s[..i]) + (if f(s[i]) then [s[i]] else [])
  {
    assert s[..i + 1][..i] == s[..i];
  }

  lemma {:induction false} FilterCat<T>(f: T -> bool, s: seq<T>, t: seq<T>)
    ensures Filter(f, s + t) == Filter(f, s) + Filter(f, t)
  {
    if t == [] {
      assert s + t == s;
    } else {
      assert (s + t)[..|s + t| - 1] == s + t[..|t| - 1];
      FilterCat(f, s, t[..|t| - 1]);
    }
  }

  lemma {:induction false} FilterCommute<T>(f: T -> bool, g: T -> bool, s: seq<T>)
    ensures Filter(f, Filter(g, s)) == Filter(g, Filter(f, s))
  {
    if s != [] {
      var init, last := s[..|s| - 1], [s[|s| - 1]];
      FilterCommute(f, g, init);
      FilterCat(f, Filter(g, init), if g(last[0]) then last else []);
      FilterCat(g, Filter(f, init), if f(last[0]) then last else []);
      assert Filter(f, last) == (if f(last[0]) then last else []) by { assert last[..0] == []; }
      assert Filter(g, last) == (if g(last[0]) then last else []) by { assert last[..0] == []; }
    }
  }

  lemma {:induction false} FilterMember<T>(f: T -> bool, s: seq<T>, x: T)
    ensures x in Filter(f, s) <==> x in s && f(x)
  {
    if s != [] {
      FilterMember(f, s[..|s| - 1], x);
      assert s == s[..|s| - 1] + [s[|s| - 1]];
    }
  }

  lemma {:induction false} FilterAll<T>(f: T -> bool, s: seq<T>)
    requires forall i :: 0 <= i < |s| ==> f(s[i])
    ensures Filter(f, s) == s
  {
    if s != [] {
      FilterAll(f, s[..|s| - 1]);
    }
  }

  lemma {:induction false} FilterNone<T>(f: T -> bool, s: seq<T>)
    requires forall i :: 0 <= i < |s| ==> !f(s[i])
    ensures Filter(f, s) == []
  {
    if s != [] {
      FilterNone(f, s[..|s| - 1]);
    }
  }

  /** Two filters that agree on every element of a sequence agree on the sequence. */
  lemma {:induction false} FilterAgree<T>(f: T -> bool, g: T -> bool, s: seq<T>)
    requires forall i :: 0 <= i < |s| ==> f(s[i]) == g(s[i])
    ensures Filter(f, s) == Filter(g, s)
  {
    if s != [] {
      FilterAgree(f, g, s[..|s| - 1]);
    }
  }

  /** A sequence that satisfies f up to position a, not from a to b, and again from b on. */
  lemma {:induction false} FilterBlock<T>(f: T -> bool, s: seq<T>, a: nat, b: nat)
    requires a <= b <= |s|
    requires forall i :: a <= i < b ==> f(s[i])
    requires forall i :: 0 <= i < a || b <= i < |s| ==> !f(s[i])
    ensures Filter(f, s) == s[a..b]
  {
    FilterSplit(f, s, b);
    FilterSplit(f, s[..b], a);
    assert s[..b][..a] == s[..a] && s[..b][a..] == s[a..b];
    FilterNone(f, s[..a]);
    FilterAll(f, s[a..b]);
    FilterNone(f, s[b..]);
  }

  /** The complement of FilterBlock: f holds outside the block only. */
  lemma {:induction false} FilterOutside<T>(f: T -> bool, s: seq<T>, a: nat, b: nat)
    requires a <= b <= |s|
    requires forall i :: a <= i < b ==> !f(s[i])
    requires forall i :: 0 <= i < a || b <= i < |s| ==> f(s[i])
    ensures Filter(f, s) == s[..a] + s[b..]
  {
    FilterSplit(f, s, b);
    FilterSplit(f, s[..b], a);
    assert s[..b][..a] == s[..a];
    FilterAll(f, s[..a]);
    FilterNone(f, s[..b][a..]);
    FilterAll(f, s[b..]);
  }

  lemma {:induction false} FilterSplit<T>(f: T -> bool, s: seq<T>, i: nat)
    requires i <= |s|
    ensures Filter(f, s) == Filter(f, s[..i]) + Filter(f, s[i..])
  {
    assert s == s[..i] + s[i..];
    FilterCat(f, s[..i], s[i..]);
  }

  /** An element that passes, directly followed by one that does not. */
  lemma {:induction false} FilterStep<T>(f: T -> bool, s: seq<T>, i: nat)
    requires i + 1 < |s| && f(s[i]) && !f(s[i + 1])
    ensures Filter(f, s) == Filter(f, s[..i]) + [s[i]] + Filter(f, s[i + 2..])
  {
    FilterSplit(f, s, i + 2);
    FilterSnoc(f, s, i + 1);
    FilterSnoc(f, s, i);
  }
}
