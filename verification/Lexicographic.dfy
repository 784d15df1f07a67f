/** The byte order of bytes.Compare and strings.Compare. */
module Lexicographic {

  /** Compare(a, b) < 0. */
  predicate Less(a: seq<int>, b: seq<int>) {
    b != [] && (a == [] || a[0] < b[0] || (a[0] == b[0] && Less(a[1..], b[1..])))
  }

  lemma {:induction false} LessAt(a: seq<int>, b: seq<int>, i: nat)
    requires i < |a| && i < |b| && a[..i] == b[..i] && a[i] < b[i]
    ensures Less(a, b) && !Less(b, a)
    decreases i
  {
    if i > 0 {
      assert a[0] == a[..i][0] && b[0] == b[..i][0];
      assert a[1..][..i - 1] == a[..i][1..] && b[1..][..i - 1] == b[..i][1..];
      LessAt(a[1..], b[1..], i - 1);
    }
  }

  lemma {:induction false} PrefixNotLess(key: seq<int>, prefix: seq<int>)
    requires prefix <= key
    ensures !Less(key, prefix)
    decreases |prefix|
  {
    if prefix != [] {
      PrefixNotLess(key[1..], prefix[1..]);
    }
  }

  lemma {:induction false} StrictPrefix(a: seq<int>, b: seq<int>)
    requires a < b
    ensures Less(a, b)
    decreases |a|
  {
    if a != [] {
      StrictPrefix(a[1..], b[1..]);
    }
  }

  lemma {:induction false} LessTrans(a: seq<int>, b: seq<int>, c: seq<int>)
    requires Less(a, b) && Less(b, c)
    ensures Less(a, c)
    decreases |a|
  {
    if a != [] && a[0] == b[0] == c[0] {
      LessTrans(a[1..], b[1..], c[1..]);
    }
  }

  /** Different sequences are ordered one way or the other, and never both ways. */
  lemma {:induction false} LessTotal(a: seq<int>, b: seq<int>)
    ensures a != b ==> (Less(a, b) <==> !Less(b, a))
    ensures a == b ==> !Less(a, b)
    decreases |a|
  {
    if a != [] && b != [] && a[0] == b[0] {
      LessTotal(a[1..], b[1..]);
      assert a == [a[0]] + a[1..] && b == [b[0]] + b[1..];
    }
  }

  function Codes(s: string): seq<int> {
    seq(|s|, i requires 0 <= i < |s| => s[i] as int)
  }

  lemma CodesInjective(s: string, t: string)
    requires Codes(s) == Codes(t)
    ensures s == t
  {
    forall i | 0 <= i < |s|
      ensures s[i] == t[i]
    {
      assert Codes(s)[i] == Codes(t)[i];
    }
  }
}
