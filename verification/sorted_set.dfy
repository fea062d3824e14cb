/**
 * The Redis sorted set behind the `webhooks:timeline` key, as the commands
 * ZADD, ZREM and ZRANGE ... REV see it: members are kept in ascending
 * order of score, ties broken by the byte order of the member, and each
 * member appears once.
 */
module SortedSet {

  datatype Scored = Scored(member: string, score: int)

  /**
   * Strict lexicographic order of strings. Comparing code points is the same
   * as comparing their UTF-8 bytes, which is what Redis does.
   */
  predicate LexLess(a: string, b: string)
    decreases |a|
  {
    if |a| == 0 then |b| > 0
    else if |b| == 0 then false
    else if a[0] != b[0] then a[0] < b[0]
    else LexLess(a[1..], b[1..])
  }

  lemma {:induction false} LexLessIrreflexive(a: string)
    ensures !LexLess(a, a)
    decreases |a|
  {
    if |a| > 0 {
      LexLessIrreflexive(a[1..]);
    }
  }

  lemma {:induction false} LexLessTransitive(a: string, b: string, c: string)
    requires LexLess(a, b) && LexLess(b, c)
    ensures LexLess(a, c)
    decreases |a|
  {
    if |a| > 0 && a[0] == b[0] && b[0] == c[0] {
      LexLessTransitive(a[1..], b[1..], c[1..]);
    }
  }

  lemma {:induction false} LexLessTotal(a: string, b: string)
    requires a != b
    ensures LexLess(a, b) || LexLess(b, a)
    decreases |a|
  {
    if |a| > 0 && |b| > 0 && a[0] == b[0] {
      assert a == [a[0]] + a[1..] && b == [b[0]] + b[1..];
      LexLessTotal(a[1..], b[1..]);
    }
  }

  /** The order in which the set keeps its entries. */
  predicate Before(x: Scored, y: Scored) {
    x.score < y.score || (x.score == y.score && LexLess(x.member, y.member))
  }

  lemma BeforeTransitive(x: Scored, y: Scored, z: Scored)
    requires Before(x, y) && Before(y, z)
    ensures Before(x, z)
  {
    if x.score == y.score == z.score {
      LexLessTransitive(x.member, y.member, z.member);
    }
  }

  lemma BeforeTotal(x: Scored, y: Scored)
    requires x.member != y.member
    ensures Before(x, y) || Before(y, x)
  {
    LexLessTotal(x.member, y.member);
  }

  predicate Ordered(z: seq<Scored>) {
    forall i, j :: 0 <= i < j < |z| ==> Before(z[i], z[j])
  }

  predicate DistinctMembers(z: seq<Scored>) {
    forall i, j :: 0 <= i < j < |z| ==> z[i].member != z[j].member
  }

  /** A well-formed sorted set. */
  predicate Valid(z: seq<Scored>) {
    Ordered(z) && DistinctMembers(z)
  }

  /** The sorted sets Redis can hold. */
  type ZSet = z: seq<Scored> | Valid(z) witness []

  function Members(z: seq<Scored>): set<string> {
    set e | e in z :: e.member
  }

  lemma ConsValid(x: Scored, r: seq<Scored>)
    requires Valid(r)
    requires forall e :: e in r ==> Before(x, e) && x.member != e.member
    ensures Valid([x] + r)
  {
    var s := [x] + r;
    forall i, j | 0 <= i < j < |s|
      ensures Before(s[i], s[j]) && s[i].member != s[j].member
    {
      if i > 0 {
        assert s[i] == r[i - 1] && s[j] == r[j - 1];
      } else {
        assert s[j] == r[j - 1];
        assert s[j] in r;
      }
    }
  }

  /** ZREM of every member in `ms`. */
  function RemoveAll(z: seq<Scored>, ms: set<string>): (r: seq<Scored>)
    ensures forall e :: e in r <==> e in z && e.member !in ms
    ensures |r| <= |z|
    decreases |z|
  {
    if |z| == 0 then []
    else if z[0].member in ms then RemoveAll(z[1..], ms)
    else [z[0]] + RemoveAll(z[1..], ms)
  }

  lemma {:induction false} RemoveAllValid(z: seq<Scored>, ms: set<string>)
    requires Valid(z)
    ensures Valid(RemoveAll(z, ms))
    ensures Members(RemoveAll(z, ms)) == Members(z) - ms
    decreases |z|
  {
    var r := RemoveAll(z, ms);
    if |z| > 0 {
      var tail := z[1..];
      assert Valid(tail) by {
        forall i, j | 0 <= i < j < |tail|
          ensures Before(tail[i], tail[j]) && tail[i].member != tail[j].member
        {
          assert tail[i] == z[i + 1] && tail[j] == z[j + 1];
        }
      }
      RemoveAllValid(tail, ms);
      if z[0].member !in ms {
        forall e | e in RemoveAll(tail, ms)
          ensures Before(z[0], e) && z[0].member != e.member
        {
          var j :| 0 <= j < |tail| && tail[j] == e;
          assert z[j + 1] == e;
        }
        ConsValid(z[0], RemoveAll(tail, ms));
      }
    }
    assert Members(r) == Members(z) - ms by {
      forall m
        ensures m in Members(r) <==> m in Members(z) - ms
      {
        if m in Members(z) - ms {
          var e :| e in z && e.member == m;
          assert e in r;
        }
      }
    }
  }

  /** ZREM of every member of `ms` on a well-formed set. */
  function Remove(z: ZSet, ms: set<string>): (r: ZSet)
    ensures Members(r) == Members(z) - ms
    ensures forall e :: e in r <==> e in z && e.member !in ms
  {
    RemoveAllValid(z, ms);
    RemoveAll(z, ms)
  }

  /** Removing the same members again changes nothing. */
  lemma {:induction false} RemoveAgain(z: seq<Scored>, ms: set<string>)
    ensures RemoveAll(RemoveAll(z, ms), ms) == RemoveAll(z, ms)
    decreases |z|
  {
    if |z| > 0 {
      RemoveAgain(z[1..], ms);
      if z[0].member !in ms {
        var r := RemoveAll(z[1..], ms);
        assert ([z[0]] + r)[1..] == r;
      }
    }
  }

  /** Places `x` at its position in the order. */
  function Insert(z: seq<Scored>, x: Scored): (r: seq<Scored>)
    ensures forall e :: e in r <==> e in z || e == x
    ensures |r| == |z| + 1
    decreases |z|
  {
    if |z| == 0 then [x]
    else if Before(x, z[0]) then [x] + z
    else [z[0]] + Insert(z[1..], x)
  }

  lemma {:induction false} InsertValid(z: seq<Scored>, x: Scored)
    requires Valid(z)
    requires x.member !in Members(z)
    ensures Valid(Insert(z, x))
    decreases |z|
  {
    if |z| > 0 {
      var tail := z[1..];
      assert Valid(tail) by {
        forall i, j | 0 <= i < j < |tail|
          ensures Before(tail[i], tail[j]) && tail[i].member != tail[j].member
        {
          assert tail[i] == z[i + 1] && tail[j] == z[j + 1];
        }
      }
      assert z[0] in z;
      if Before(x, z[0]) {
        forall e | e in z
          ensures Before(x, e) && x.member != e.member
        {
          var j :| 0 <= j < |z| && z[j] == e;
          if j > 0 { BeforeTransitive(x, z[0], e); }
        }
        ConsValid(x, z);
      } else {
        BeforeTotal(x, z[0]);
        assert Members(tail) <= Members(z) by {
          forall m | m in Members(tail) ensures m in Members(z) {
            var e :| e in tail && e.member == m;
            assert e in z;
          }
        }
        InsertValid(tail, x);
        forall e | e in Insert(tail, x)
          ensures Before(z[0], e) && z[0].member != e.member
        {
          if e != x {
            var j :| 0 <= j < |tail| && tail[j] == e;
            assert z[j + 1] == e;
          }
        }
        ConsValid(z[0], Insert(tail, x));
      }
    }
  }

  /** ZADD: sets the score of `m`, adding it when it is not yet a member. */
  function Add(z: ZSet, m: string, score: int): (r: ZSet)
    ensures Members(r) == Members(z) + {m}
    ensures Scored(m, score) in r
    ensures forall e: Scored :: e.member != m ==> (e in r <==> e in z)
  {
    RemoveAllValid(z, {m});
    var rest := RemoveAll(z, {m});
    InsertValid(rest, Scored(m, score));
    var r := Insert(rest, Scored(m, score));
    assert Members(r) == Members(z) + {m} by {
      forall n
        ensures n in Members(r) <==> n in Members(z) + {m}
      {
        if n in Members(z) && n != m {
          var e :| e in z && e.member == n;
          assert e in r;
        }
        if n == m {
          assert Scored(m, score) in r;
        }
      }
    }
    r
  }

  /**
   * Whether Redis reads `i` as an index at all: a signed 64-bit integer.
   * Any other value makes the command fail with "value is not an integer
   * or out of range".
   */
  predicate IndexInRange(i: int) {
    -0x8000_0000_0000_0000 <= i <= 0x7FFF_FFFF_FFFF_FFFF
  }

  /**
   * The number of entries `ZRANGE key 0 stop` returns from a set of `len`
   * entries, for a `stop` that `IndexInRange` accepts: a negative `stop`
   * counts from the end, and an index past the end is clamped to the last
   * entry.
   */
  function RangeCount(len: nat, stop: int): (n: nat)
    ensures n <= len
    ensures stop >= 0 ==> n == (if stop + 1 < len then stop + 1 else len)
    ensures stop < 0 ==> n == (if len + stop + 1 > 0 then len + stop + 1 else 0)
  {
    var last := if stop < 0 then len + stop else stop;
    if last < 0 || len == 0 then 0
    else if last >= len then len
    else last + 1
  }

  /**
   * `ZRANGE key 0 stop REV`: the highest-ranked `RangeCount` entries,
   * highest first.
   */
  function RangeRev(z: seq<Scored>, stop: int): (r: seq<Scored>)
    ensures |r| == RangeCount(|z|, stop)
    ensures forall i :: 0 <= i < |r| ==> r[i] == z[|z| - 1 - i]
    ensures Ordered(z) ==> forall i, j :: 0 <= i < j < |r| ==> Before(r[j], r[i])
  {
    seq(RangeCount(|z|, stop), i requires 0 <= i < RangeCount(|z|, stop) => z[|z| - 1 - i])
  }

  /**
   * The range takes the top of the order: every entry it leaves out ranks
   * below every entry it selects.
   */
  lemma RangeRevTop(z: seq<Scored>, stop: int)
    requires Ordered(z)
    ensures var r := RangeRev(z, stop);
      forall e, i :: e in z && e !in r && 0 <= i < |r| ==> Before(e, r[i])
  {
    var r := RangeRev(z, stop);
    forall k | |z| - |r| <= k < |z| ensures z[k] in r {
      assert r[|z| - 1 - k] == z[k];
    }
    forall e, i | e in z && e !in r && 0 <= i < |r| ensures Before(e, r[i]) {
      var j :| 0 <= j < |z| && z[j] == e;
      assert j < |z| - |r|;
      assert r[i] == z[|z| - 1 - i];
    }
  }

  /** The member names of a range, in range order. */
  function MemberNames(r: seq<Scored>): (ids: seq<string>)
    ensures |ids| == |r|
    ensures forall i :: 0 <= i < |r| ==> ids[i] == r[i].member
  {
    seq(|r|, i requires 0 <= i < |r| => r[i].member)
  }

  /** Removing a member that is absent changes nothing. */
  lemma {:induction false} RemoveAbsent(z: seq<Scored>, ms: set<string>)
    requires forall e :: e in z ==> e.member !in ms
    ensures RemoveAll(z, ms) == z
    decreases |z|
  {
    if |z| > 0 {
      assert z[0] in z;
      forall e | e in z[1..] ensures e.member !in ms { assert e in z; }
      RemoveAbsent(z[1..], ms);
      assert z == [z[0]] + z[1..];
    }
  }

  /** An entry ranked after every entry goes to the end. */
  lemma {:induction false} InsertLast(z: seq<Scored>, x: Scored)
    requires forall e :: e in z ==> Before(e, x)
    ensures Insert(z, x) == z + [x]
    decreases |z|
  {
    if |z| > 0 {
      assert z[0] in z;
      LexLessIrreflexive(x.member);
      assert !Before(x, z[0]) by {
        if Before(x, z[0]) { BeforeTransitive(x, z[0], x); }
      }
      forall e | e in z[1..] ensures Before(e, x) { assert e in z; }
      InsertLast(z[1..], x);
      assert z == [z[0]] + z[1..];
    }
  }

  /** ZADD of a new member whose score is above every score appends it. */
  lemma AddNewest(z: ZSet, m: string, score: int)
    requires m !in Members(z)
    requires forall e :: e in z ==> e.score < score
    ensures Add(z, m, score) == z + [Scored(m, score)]
  {
    forall e | e in z ensures e.member !in {m} {
      assert e.member in Members(z);
    }
    RemoveAbsent(z, {m});
    InsertLast(z, Scored(m, score));
  }
}
