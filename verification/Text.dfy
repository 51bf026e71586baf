/** The few string operations of Go's `strings` package that the modelled code relies on. */
module Text {

  // unicode.IsSpace
  predicate IsSpace(c: char) {
    c == ' ' || '\t' <= c <= '\r' || c == '\U{85}' || c == '\U{A0}' || c == '\U{1680}'
    || '\U{2000}' <= c <= '\U{200A}' || c == '\U{2028}' || c == '\U{2029}' || c == '\U{202F}'
    || c == '\U{205F}' || c == '\U{3000}'
  }

  /** Below the non-ASCII blanks these are the tab, the line and page breaks, and the space. */
  lemma {:induction false} AsciiSpaces(c: char)
    ensures c < '\U{80}' ==>
              (IsSpace(c) <==> c == ' ' || c == '\t' || c == '\n' || c == '\U{B}' || c == '\U{C}' || c == '\r')
  {
  }

  function TrimLeft(s: string): string {
    if s != [] && IsSpace(s[0]) then TrimLeft(s[1..]) else s
  }

  function TrimRight(s: string): string {
    if s != [] && IsSpace(s[|s| - 1]) then TrimRight(s[..|s| - 1]) else s
  }

  // strings.TrimSpace
  function TrimSpace(s: string): string {
    TrimRight(TrimLeft(s))
  }

  predicate Free(c: char, s: string) {
    c !in s
  }

  // strings.Index and strings.LastIndex of one character (the length, or zero, when it is absent).
  function First(c: char, s: string): nat {
    if s == [] || s[0] == c then 0 else 1 + First(c, s[1..])
  }

  function Last(c: char, s: string): nat {
    if s == [] then 0 else if s[|s| - 1] == c then |s| - 1 else Last(c, s[..|s| - 1])
  }

  lemma {:induction false} FirstAfterFree(c: char, a: string, x: string)
    requires Free(c, a)
    ensures First(c, a + [c] + x) == |a|
  {
    if a == [] {
    } else {
      assert (a + [c] + x)[1..] == a[1..] + [c] + x;
      FirstAfterFree(c, a[1..], x);
    }
  }

  lemma {:induction false} LastBeforeFree(c: char, x: string, a: string)
    requires Free(c, a)
    ensures Last(c, x + [c] + a) == |x|
  {
    if a == [] {
    } else {
      var n := |a| - 1;
      assert (x + [c] + a)[..|x| + 1 + n] == x + [c] + a[..n];
      LastBeforeFree(c, x, a[..n]);
    }
  }

  /** A separator that occurs in neither head makes a concatenation split in only one way. */
  lemma {:induction false} SplitAtFirst(c: char, a: string, x: string, b: string, y: string)
    requires Free(c, a) && Free(c, b)
    requires a + [c] + x == b + [c] + y
    ensures a == b && x == y
  {
    FirstAfterFree(c, a, x);
    FirstAfterFree(c, b, y);
    assert a == (a + [c] + x)[..|a|] && b == (b + [c] + y)[..|b|];
    assert x == (a + [c] + x)[|a| + 1..] && y == (b + [c] + y)[|b| + 1..];
  }

  /** The mirror image of SplitAtFirst: a separator that occurs in neither tail. */
  lemma {:induction false} SplitAtLast(c: char, x: string, a: string, y: string, b: string)
    requires Free(c, a) && Free(c, b)
    requires x + [c] + a == y + [c] + b
    ensures a == b && x == y
  {
    LastBeforeFree(c, x, a);
    LastBeforeFree(c, y, b);
    assert x == (x + [c] + a)[..|x|] && y == (y + [c] + b)[..|y|];
    assert a == (x + [c] + a)[|x| + 1..] && b == (y + [c] + b)[|y| + 1..];
  }

  lemma {:induction false} CutAtFirst(c: char, s: string) returns (a: string, b: string)
    requires !Free(c, s)
    ensures Free(c, a) && s == a + [c] + b
  {
    if s[0] == c {
      a, b := [], s[1..];
    } else {
      assert c in s[1..];
      var a', b' := CutAtFirst(c, s[1..]);
      a, b := [s[0]] + a', b';
    }
  }

  // strings.Count of one character.
  function Count(c: char, s: string): nat {
    if s == [] then 0 else (if s[0] == c then 1 else 0) + Count(c, s[1..])
  }

  lemma {:induction false} CountCat(c: char, a: string, b: string)
    ensures Count(c, a + b) == Count(c, a) + Count(c, b)
  {
    if a == [] {
      assert a + b == b;
    } else {
      assert (a + b)[1..] == a[1..] + b;
      CountCat(c, a[1..], b);
    }
  }

  lemma {:induction false} CountFree(c: char, s: string)
    ensures Count(c, s) == 0 <==> Free(c, s)
  {
    if s != [] {
      CountFree(c, s[1..]);
      assert s == [s[0]] + s[1..];
    }
  }

  lemma {:induction false} TrimLeftIs(a: string, t: string)
    requires (forall c :: c in a ==> IsSpace(c)) && (t != [] ==> !IsSpace(t[0]))
    ensures TrimLeft(a + t) == t
  {
    if a == [] {
      assert a + t == t;
    } else {
      assert (a + t)[0] == a[0] && (a + t)[1..] == a[1..] + t;
      TrimLeftIs(a[1..], t);
    }
  }

  lemma {:induction false} TrimRightIs(t: string, b: string)
    requires (forall c :: c in b ==> IsSpace(c)) && (t != [] ==> !IsSpace(t[|t| - 1]))
    ensures TrimRight(t + b) == t
  {
    if b == [] {
      assert t + b == t;
    } else {
      var n := |t + b| - 1;
      assert (t + b)[n] == b[|b| - 1] && (t + b)[..n] == t + b[..|b| - 1];
      TrimRightIs(t, b[..|b| - 1]);
    }
  }

  /** Trimming takes away exactly the white space around a text. */
  lemma {:induction false} TrimSpaceIs(a: string, t: string, b: string)
    requires (forall c :: c in a + b ==> IsSpace(c)) && (t != [] ==> !IsSpace(t[0]) && !IsSpace(t[|t| - 1]))
    ensures TrimSpace(a + t + b) == t
  {
    assert forall c :: c in a ==> c in a + b;
    assert forall c :: c in b ==> c in a + b;
    if t == [] {
      assert a + t + b == a + b + t;
      TrimLeftIs(a + b, t);
    } else {
      assert a + t + b == a + (t + b);
      TrimLeftIs(a, t + b);
      TrimRightIs(t, b);
    }
  }

  lemma {:induction false} TrimmedAway(s: string)
    ensures TrimSpace(s) != "" <==> exists c :: c in s && !IsSpace(c)
  {
    TrimLeftAway(s);
    if TrimLeft(s) != [] {
      TrimRightAway(TrimLeft(s));
    }
  }

  lemma {:induction false} TrimLeftAway(s: string)
    ensures TrimLeft(s) == [] <==> forall c :: c in s ==> IsSpace(c)
    ensures TrimLeft(s) != [] ==> TrimLeft(s)[0] in s && !IsSpace(TrimLeft(s)[0])
  {
    if s != [] && IsSpace(s[0]) {
      TrimLeftAway(s[1..]);
      assert forall c :: c in s <==> c == s[0] || c in s[1..];
    }
  }

  lemma {:induction false} TrimRightAway(s: string)
    requires s != [] && !IsSpace(s[0])
    ensures TrimRight(s) != []
  {
    if IsSpace(s[|s| - 1]) {
      TrimRightAway(s[..|s| - 1]);
    }
  }
}
