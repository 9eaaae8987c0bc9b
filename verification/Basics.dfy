/** Vocabulary shared by every component: optional values, the byte order on
    strings, splitting at a colon, and sums over finite sets. */
module Basics {

  datatype Option<+T> = None | Some(value: T)

  // ---- the order Go's `<` puts on strings ----

  predicate Less(a: string, b: string) {
    b != "" && (a == "" || a[0] < b[0] || (a[0] == b[0] && Less(a[1..], b[1..])))
  }

  lemma {:induction false} LessTotal(a: string, b: string)
    ensures Less(a, b) || a == b || Less(b, a)
  {
    if a != "" && b != "" && a[0] == b[0] {
      LessTotal(a[1..], b[1..]);
      assert a == [a[0]] + a[1..] && b == [b[0]] + b[1..];
    }
  }

  lemma {:induction false} LessAsymmetric(a: string, b: string)
    requires Less(a, b)
    ensures !Less(b, a) && a != b
  {
    if a != "" && a[0] == b[0] {
      LessAsymmetric(a[1..], b[1..]);
    }
  }

  lemma {:induction false} LessTransitive(a: string, b: string, c: string)
    requires Less(a, b) && Less(b, c)
    ensures Less(a, c)
  {
    if a != "" && a[0] == b[0] && b[0] == c[0] {
      LessTransitive(a[1..], b[1..], c[1..]);
    }
  }

  /** The order is that of the first difference, a shorter string before its extensions. */
  lemma {:induction false} LessExactly(a: string, b: string)
    ensures Less(a, b) <==> a < b || exists k :: DifferAt(a, b, k) && a[k] < b[k]
  {
    if a != "" && b != "" && a[0] == b[0] {
      LessExactly(a[1..], b[1..]);
      assert a == [a[0]] + a[1..] && b == [b[0]] + b[1..];
      if k :| DifferAt(a, b, k) && a[k] < b[k] { assert DifferAt(a[1..], b[1..], k - 1); }
      if k :| DifferAt(a[1..], b[1..], k) && a[1..][k] < b[1..][k] { assert DifferAt(a, b, k + 1); }
    } else if a != "" && b != "" {
      assert DifferAt(a, b, 0);
      assert forall k :: DifferAt(a, b, k) ==> k == 0;
    }
  }

  ghost predicate DifferAt(a: string, b: string, k: int) {
    0 <= k < |a| && k < |b| && a[k] != b[k] && forall j :: 0 <= j < k ==> a[j] == b[j]
  }

  function Lower(s: string): string {
    seq(|s|, i requires 0 <= i < |s| => if 'A' <= s[i] <= 'Z' then s[i] - 'A' + 'a' else s[i])
  }

  // ---- strings.Cut(s, ":") ----

  function Cut(s: string): Option<(string, string)> {
    if s == "" then None
    else if s[0] == ':' then Some(("", s[1..]))
    else match Cut(s[1..])
      case None => None
      case Some((head, tail)) => Some(([s[0]] + head, tail))
  }

  predicate ColonFree(s: string) { ':' !in s }

  /** Joining with a colon and cutting again gives the two halves back exactly
      when the first half holds no colon. */
  lemma {:induction false} CutUndoesJoin(a: string, b: string)
    ensures Cut(a + ":" + b) == Some((a, b)) <==> ColonFree(a)
  {
    var s := a + ":" + b;
    if a != "" {
      assert s[1..] == a[1..] + ":" + b;
      CutUndoesJoin(a[1..], b);
      CutHead(s);
      assert a == [a[0]] + a[1..];
      if a[0] != ':' {
        assert ColonFree(a) <==> ColonFree(a[1..]);
        CutSomewhere(a[1..], b);
      }
    } else {
      assert s[1..] == b;
    }
  }

  lemma {:induction false} CutSomewhere(a: string, b: string)
    ensures Cut(a + ":" + b).Some?
  {
    if a != "" {
      assert (a + ":" + b)[1..] == a[1..] + ":" + b;
      CutSomewhere(a[1..], b);
    }
  }

  lemma {:induction false} CutHead(s: string)
    ensures match Cut(s) case Some((head, tail)) => ColonFree(head) && s == head + ":" + tail case None => ColonFree(s)
  {
    if s != "" && s[0] != ':' {
      CutHead(s[1..]);
      assert s == [s[0]] + s[1..];
    }
  }

  /** `order` names each of `keys` once. */
  ghost predicate Lists(order: seq<string>, keys: set<string>) {
    && (forall k :: k in order <==> k in keys)
    && (forall i, j :: 0 <= i < j < |order| ==> order[i] != order[j])
  }

  // ---- finite sums ----

  ghost function SumOver<K(!new)>(keys: set<K>, f: K -> int): int {
    if keys == {} then 0 else
      var k :| k in keys;
      f(k) + SumOver(keys - {k}, f)
  }

  lemma {:induction false} SumRemove<K(!new)>(keys: set<K>, f: K -> int, x: K)
    requires x in keys
    ensures SumOver(keys, f) == f(x) + SumOver(keys - {x}, f)
    decreases keys
  {
    var k :| k in keys && SumOver(keys, f) == f(k) + SumOver(keys - {k}, f);
    if k != x {
      SumRemove(keys - {k}, f, x);
      SumRemove(keys - {x}, f, k);
      assert keys - {k} - {x} == keys - {x} - {k};
    }
  }

  lemma {:induction false} SumCongruent<K(!new)>(keys: set<K>, f: K -> int, g: K -> int)
    requires forall k :: k in keys ==> f(k) == g(k)
    ensures SumOver(keys, f) == SumOver(keys, g)
  {
    if keys != {} {
      var k :| k in keys;
      SumRemove(keys, f, k);
      SumRemove(keys, g, k);
      SumCongruent(keys - {k}, f, g);
    }
  }

  /** Keys on which the summand is zero may be added freely. */
  lemma {:induction false} SumWiden<K(!new)>(keys: set<K>, more: set<K>, f: K -> int)
    requires keys <= more
    requires forall k :: k in more - keys ==> f(k) == 0
    ensures SumOver(more, f) == SumOver(keys, f)
    decreases more - keys
  {
    if more - keys == {} {
      assert forall k :: k in more ==> k in keys || k in more - keys;
      assert keys == more;
    } else {
      var k :| k in more - keys;
      SumRemove(more, f, k);
      SumWiden(keys, more - {k}, f);
    }
  }

  /** Changing the summand at one key changes the sum by the same amount. */
  lemma SumUpdateOne<K(!new)>(keys: set<K>, f: K -> int, g: K -> int, x: K)
    requires x in keys
    requires forall k :: k in keys && k != x ==> f(k) == g(k)
    ensures SumOver(keys, g) - SumOver(keys, f) == g(x) - f(x)
  {
    SumRemove(keys, f, x);
    SumRemove(keys, g, x);
    SumCongruent(keys - {x}, f, g);
  }

  lemma {:induction false} SumMonotone<K(!new)>(keys: set<K>, f: K -> int, g: K -> int)
    requires forall k :: k in keys ==> f(k) <= g(k)
    ensures SumOver(keys, f) <= SumOver(keys, g)
  {
    if keys != {} {
      var k :| k in keys;
      SumRemove(keys, f, k);
      SumRemove(keys, g, k);
      SumMonotone(keys - {k}, f, g);
    }
  }

  lemma {:induction false} SumAdd<K(!new)>(keys: set<K>, whole: K -> int, f: K -> int, g: K -> int)
    requires forall k :: k in keys ==> whole(k) == f(k) + g(k)
    ensures SumOver(keys, whole) == SumOver(keys, f) + SumOver(keys, g)
  {
    if keys != {} {
      var k :| k in keys;
      SumRemove(keys, whole, k);
      SumRemove(keys, f, k);
      SumRemove(keys, g, k);
      SumAdd(keys - {k}, whole, f, g);
    }
  }

  /** Summands that lie below others pointwise, and sum to the same, are the same. */
  lemma SumsMeet<K(!new)>(keys: set<K>, f: K -> int, g: K -> int, x: K)
    requires (forall k :: k in keys ==> f(k) <= g(k)) && SumOver(keys, f) == SumOver(keys, g) && x in keys
    ensures f(x) == g(x)
  {
    SumRemove(keys, f, x);
    SumRemove(keys, g, x);
    SumMonotone(keys - {x}, f, g);
  }
}
