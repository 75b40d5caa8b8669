/**
 * The two-party room id of the `ready` handler: the two user ids sorted
 * (with the default comparison of JavaScript's `Array.prototype.sort`,
 * i.e. lexicographically) and joined with `_`.
 */
module Rooms {

  /** Lexicographic order on strings: a proper prefix comes first. */
  predicate LexLeq(a: string, b: string)
    decreases |a|
  {
    |a| == 0 || (|b| > 0 && (a[0] < b[0] || (a[0] == b[0] && LexLeq(a[1..], b[1..]))))
  }

  lemma {:induction false} LexLeqTotal(a: string, b: string)
    ensures LexLeq(a, b) || LexLeq(b, a)
    decreases |a|
  {
    if |a| > 0 && |b| > 0 && a[0] == b[0] {
      LexLeqTotal(a[1..], b[1..]);
    }
  }

  lemma {:induction false} LexLeqAntisymmetric(a: string, b: string)
    requires LexLeq(a, b) && LexLeq(b, a)
    ensures a == b
    decreases |a|
  {
    if |a| > 0 {
      LexLeqAntisymmetric(a[1..], b[1..]);
      assert a == [a[0]] + a[1..];
      assert b == [b[0]] + b[1..];
    }
  }

  /** `[a, b].sort().join('_')`. */
  function RoomId(a: string, b: string): (r: string)
    ensures r == a + "_" + b || r == b + "_" + a
  {
    if LexLeq(a, b) then a + "_" + b else b + "_" + a
  }

  /** Both participants compute the same room, whoever opens it. */
  lemma RoomIdSymmetric(a: string, b: string)
    ensures RoomId(a, b) == RoomId(b, a)
  {
    if LexLeq(a, b) && LexLeq(b, a) {
      LexLeqAntisymmetric(a, b);
    } else {
      LexLeqTotal(a, b);
    }
  }

  /** Position of the first `_` in `s` (its length when there is none). */
  function FirstUnderscore(s: string): (k: nat)
    ensures k <= |s|
  {
    if s == [] || s[0] == '_' then 0 else 1 + FirstUnderscore(s[1..])
  }

  lemma {:induction false} FirstUnderscoreOfJoin(a: string, b: string)
    requires '_' !in a
    ensures FirstUnderscore(a + "_" + b) == |a|
  {
    if a != [] {
      assert (a + "_" + b)[1..] == a[1..] + "_" + b;
      FirstUnderscoreOfJoin(a[1..], b);
    }
  }

  /** Joining with `_` can be undone when the left part has no `_`. */
  lemma JoinInjective(a: string, b: string, c: string, d: string)
    requires '_' !in a && '_' !in c
    requires a + "_" + b == c + "_" + d
    ensures a == c && b == d
  {
    var s := a + "_" + b;
    FirstUnderscoreOfJoin(a, b);
    FirstUnderscoreOfJoin(c, d);
    assert a == s[..|a|] == c;
    assert b == s[|a| + 1..] == d;
  }

  /**
   * For ids without `_` (generated ids are over A-Z0-9) the room id is the
   * pair in sorted order: the part before `_` is the lexicographically
   * smaller id and the two parts are exactly the two participants.
   */
  lemma RoomIdDecodes(a: string, b: string, lo: string, hi: string)
    requires '_' !in a && '_' !in b && '_' !in lo && '_' !in hi
    requires RoomId(a, b) == lo + "_" + hi
    ensures (lo == a && hi == b) || (lo == b && hi == a)
    ensures LexLeq(lo, hi)
  {
    LexLeqTotal(a, b);
    if LexLeq(a, b) {
      JoinInjective(a, b, lo, hi);
    } else {
      JoinInjective(b, a, lo, hi);
    }
  }

  /** Two underscore-free pairs share a room iff they are the same unordered pair. */
  lemma RoomIdInjective(a: string, b: string, c: string, d: string)
    requires '_' !in a && '_' !in b && '_' !in c && '_' !in d
    ensures RoomId(a, b) == RoomId(c, d) <==> ((a == c && b == d) || (a == d && b == c))
  {
    if RoomId(a, b) == RoomId(c, d) {
      if LexLeq(c, d) {
        RoomIdDecodes(a, b, c, d);
      } else {
        RoomIdDecodes(a, b, d, c);
      }
    } else if a == d && b == c {
      RoomIdSymmetric(a, b);
    }
  }
}
