/** String helpers whose meaning comes from PHP or SQL: `empty()`, `implode`,
    `LIKE '%…%'` and the lexicographic comparison of string keys. */
module Text {

  /** PHP `empty()` on a string: both "" and "0" are empty. */
  predicate PhpEmpty(s: string) {
    s == "" || s == "0"
  }

  /** Total length of the parts, without separators. */
  function TotalLength(parts: seq<string>): nat {
    if parts == [] then 0 else |parts[0]| + TotalLength(parts[1..])
  }

  /** PHP `implode(sep, parts)`. */
  function Join(parts: seq<string>, sep: string): (r: string)
    ensures parts == [] ==> r == ""
    ensures |parts| == 1 ==> r == parts[0]
    ensures parts != [] ==> parts[0] <= r
    ensures parts != [] ==> |r| == TotalLength(parts) + (|parts| - 1) * |sep|
  {
    if parts == [] then ""
    else if |parts| == 1 then parts[0]
    else parts[0] + sep + Join(parts[1..], sep)
  }

  /** SQL `hay LIKE '%needle%'` with no wildcard inside `needle`: a substring test. */
  predicate Contains(hay: string, needle: string)
    decreases |hay|
  {
    needle <= hay || (|hay| > 0 && Contains(hay[1..], needle))
  }

  lemma {:induction false} ContainsInfix(pre: string, needle: string, post: string)
    ensures Contains(pre + needle + post, needle)
  {
    if pre == [] {
      assert pre + needle + post == needle + post;
    } else {
      assert (pre + needle + post)[1..] == pre[1..] + needle + post;
      ContainsInfix(pre[1..], needle, post);
    }
  }

  /** The converse of ContainsInfix: a match is an occurrence of the needle. */
  lemma {:induction false} ContainsSplit(hay: string, needle: string)
    requires Contains(hay, needle)
    ensures exists pre, post :: hay == pre + needle + post
    decreases |hay|
  {
    if needle <= hay {
      assert hay == [] + needle + hay[|needle|..];
    } else {
      ContainsSplit(hay[1..], needle);
      var pre, post :| hay[1..] == pre + needle + post;
      assert hay == [hay[0]] + pre + needle + post;
      assert hay == ([hay[0]] + pre) + needle + post;
    }
  }

  /** Lexicographic order of code points, the order in which the store compares ids. */
  predicate StrLess(a: string, b: string)
    decreases |a|
  {
    if |a| == 0 then |b| > 0
    else if |b| == 0 then false
    else a[0] < b[0] || (a[0] == b[0] && StrLess(a[1..], b[1..]))
  }

  lemma {:induction false} StrLessIrreflexive(a: string)
    ensures !StrLess(a, a)
  {
    if |a| > 0 {
      StrLessIrreflexive(a[1..]);
    }
  }

  lemma {:induction false} StrLessTransitive(a: string, b: string, c: string)
    requires StrLess(a, b) && StrLess(b, c)
    ensures StrLess(a, c)
  {
    if |a| > 0 && a[0] == b[0] && b[0] == c[0] {
      StrLessTransitive(a[1..], b[1..], c[1..]);
    }
  }

  lemma {:induction false} StrLessTrichotomy(a: string, b: string)
    ensures a == b || StrLess(a, b) || StrLess(b, a)
  {
    if |a| > 0 && |b| > 0 && a[0] == b[0] {
      StrLessTrichotomy(a[1..], b[1..]);
      if a[1..] == b[1..] {
        assert a == [a[0]] + a[1..] && b == [b[0]] + b[1..];
      }
    }
  }

  lemma StrLessAsymmetric(a: string, b: string)
    requires StrLess(a, b)
    ensures !StrLess(b, a)
  {
    if StrLess(b, a) {
      StrLessTransitive(a, b, a);
      StrLessIrreflexive(a);
    }
  }
}
