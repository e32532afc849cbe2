/**
 * The natural order of Java strings (`String.compareTo`): lexicographic by
 * character, a proper prefix before its extensions. `TreeSet<String>` and the
 * usage comparator both sort by it.
 */
module StringOrder {

  predicate Less(a: string, b: string)
    decreases |a|
  {
    if |a| == 0 then |b| > 0
    else if |b| == 0 then false
    else if a[0] != b[0] then a[0] < b[0]
    else Less(a[1..], b[1..])
  }

  lemma {:induction false} LessIrreflexive(a: string)
    ensures !Less(a, a)
    decreases |a|
  {
    if |a| > 0 {
      LessIrreflexive(a[1..]);
    }
  }

  lemma {:induction false} LessTransitive(a: string, b: string, c: string)
    requires Less(a, b) && Less(b, c)
    ensures Less(a, c)
    decreases |a|
  {
    if |a| > 0 && a[0] == b[0] && b[0] == c[0] {
      LessTransitive(a[1..], b[1..], c[1..]);
    }
  }

  lemma {:induction false} LessTotal(a: string, b: string)
    ensures a == b || Less(a, b) || Less(b, a)
    decreases |a|
  {
    if |a| > 0 && |b| > 0 && a[0] == b[0] {
      LessTotal(a[1..], b[1..]);
      if a[1..] == b[1..] {
        assert a == [a[0]] + a[1..] && b == [b[0]] + b[1..];
      }
    }
  }

  lemma LessAsymmetric(a: string, b: string)
    requires Less(a, b)
    ensures !Less(b, a) && a != b
  {
    LessIrreflexive(a);
    if Less(b, a) {
      LessTransitive(a, b, a);
    }
  }

  /** Every element is strictly below every later one: sorted and duplicate-free. */
  predicate StrictlyIncreasing(s: seq<string>) {
    forall i, j :: 0 <= i < j < |s| ==> Less(s[i], s[j])
  }

  lemma PrependBelow(x: string, s: seq<string>)
    requires StrictlyIncreasing(s)
    requires forall k :: k in s ==> Less(x, k)
    ensures StrictlyIncreasing([x] + s)
  {
    var r := [x] + s;
    forall i, j | 0 <= i < j < |r| ensures Less(r[i], r[j]) {
      if i > 0 {
        assert r[i] == s[i - 1] && r[j] == s[j - 1];
      } else {
        assert r[j] == s[j - 1];
      }
    }
  }

  /** `TreeSet.add`: the sorted set with `x` added once. */
  function Insert(s: seq<string>, x: string): (r: seq<string>)
    requires StrictlyIncreasing(s)
    ensures StrictlyIncreasing(r)
    ensures forall k :: k in r <==> k in s || k == x
    decreases |s|
  {
    if |s| == 0 then [x]
    else if x == s[0] then s
    else if Less(x, s[0]) then
      InsertFrontProof(s, x);
      [x] + s
    else
      var rest := Insert(s[1..], x);
      InsertTailProof(s, x, rest);
      [s[0]] + rest
  }

  lemma InsertFrontProof(s: seq<string>, x: string)
    requires StrictlyIncreasing(s) && |s| > 0 && Less(x, s[0])
    ensures StrictlyIncreasing([x] + s)
  {
    forall k | k in s ensures Less(x, k) {
      var j :| 0 <= j < |s| && s[j] == k;
      if j > 0 {
        LessTransitive(x, s[0], k);
      }
    }
    PrependBelow(x, s);
  }

  lemma InsertTailProof(s: seq<string>, x: string, rest: seq<string>)
    requires StrictlyIncreasing(s) && |s| > 0 && x != s[0] && !Less(x, s[0])
    requires StrictlyIncreasing(rest)
    requires forall k :: k in rest <==> k in s[1..] || k == x
    ensures StrictlyIncreasing([s[0]] + rest)
  {
    LessTotal(x, s[0]);
    forall k | k in rest ensures Less(s[0], k) {
      if k != x {
        var j :| 0 <= j < |s[1..]| && s[1..][j] == k;
        assert s[j + 1] == k;
      }
    }
    PrependBelow(s[0], rest);
  }

  /**
   * A strictly increasing sequence is determined by its elements: the sorted
   * set does not depend on the order in which elements were added.
   */
  lemma {:induction false} IncreasingUnique(a: seq<string>, b: seq<string>)
    requires StrictlyIncreasing(a) && StrictlyIncreasing(b)
    requires forall k :: k in a <==> k in b
    ensures a == b
    decreases |a|
  {
    assert |a| > 0 ==> a[0] in a;
    assert |b| > 0 ==> b[0] in b;
    if |a| > 0 {
      assert |b| > 0;
      if a[0] != b[0] {
        var j :| 0 <= j < |b| && b[j] == a[0];
        var i :| 0 <= i < |a| && a[i] == b[0];
        assert j > 0 && i > 0;
        LessAsymmetric(b[0], a[0]);
        assert false;
      }
      forall k ensures k in a[1..] <==> k in b[1..] {
        if k in a[1..] {
          var i :| 0 <= i < |a[1..]| && a[1..][i] == k;
          assert Less(a[0], a[i + 1]);
          LessIrreflexive(k);
          assert k in b && k != b[0];
          var j :| 0 <= j < |b| && b[j] == k;
          assert b[1..][j - 1] == k;
        }
        if k in b[1..] {
          var j :| 0 <= j < |b[1..]| && b[1..][j] == k;
          assert Less(b[0], b[j + 1]);
          LessIrreflexive(k);
          assert k in a && k != a[0];
          var i :| 0 <= i < |a| && a[i] == k;
          assert a[1..][i - 1] == k;
        }
      }
      IncreasingUnique(a[1..], b[1..]);
      assert a == [a[0]] + a[1..] && b == [b[0]] + b[1..];
    }
  }
}
