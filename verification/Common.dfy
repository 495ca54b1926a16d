/** Shared vocabulary: optional values, results, the clock, per-key counters
    and the few facts about finite sets that several components need. */
module Common {

  datatype Option<+T> = None | Some(value: T)

  datatype Result<+T, +E> = Ok(value: T) | Err(error: E)

  // Every row key is a UUID in the database; only its identity matters here.
  type Id = nat

  // Points in time and durations, in microseconds (the resolution Postgres stores).
  type Time = int

  const SECOND: Time := 1_000_000

  /** A counter that has never been bumped reads zero. */
  function Count(counters: map<Id, nat>, id: Id): nat {
    if id in counters then counters[id] else 0
  }

  function Bump(counters: map<Id, nat>, id: Id): map<Id, nat> {
    counters[id := Count(counters, id) + 1]
  }

  function Elements<T>(s: seq<T>): set<T> {
    set x | x in s
  }

  predicate OccursAt(text: string, target: string, i: nat) {
    i + |target| <= |text| && text[i..i + |target|] == target
  }

  predicate Contains(text: string, target: string) {
    exists i :: 0 <= i <= |text| && OccursAt(text, target, i)
  }

  predicate Distinct<T(==)>(s: seq<T>) {
    forall i, j :: 0 <= i < j < |s| ==> s[i] != s[j]
  }

  lemma SubsetSize<T>(a: set<T>, b: set<T>)
    requires a <= b
    ensures |a| <= |b|
    ensures |b - a| == |b| - |a|
  {
    assert b == a + (b - a);
    assert |a + (b - a)| == |a| + |b - a|;
  }

  lemma {:induction false} DistinctSize<T>(s: seq<T>)
    requires Distinct(s)
    ensures |Elements(s)| == |s|
  {
    if s == [] {
      assert Elements(s) == {};
    } else {
      var init, last := s[..|s| - 1], s[|s| - 1];
      DistinctSize(init);
      assert s == init + [last];
      assert Elements(s) == Elements(init) + {last};
      assert last !in init;
    }
  }

  ghost predicate IsLeast<T(!new)>(s: set<T>, key: T -> int, x: T) {
    x in s && forall y :: y in s ==> key(x) <= key(y)
  }

  lemma LeastExtends<T(!new)>(s: set<T>, key: T -> int, x: T, m: T)
    requires x in s && IsLeast(s - {x}, key, m)
    ensures IsLeast(s, key, if key(x) <= key(m) then x else m)
  {
    assert forall y :: y in s ==> y == x || y in s - {x};
  }

  /** A nonempty finite set has an element on which `key` is least. */
  lemma {:induction false} LeastExists<T(!new)>(s: set<T>, key: T -> int)
    requires s != {}
    ensures exists x :: x in s && forall y :: y in s ==> key(x) <= key(y)
  {
    var x :| x in s;
    if s - {x} == {} {
      assert s == {x};
      assert IsLeast(s, key, x);
    } else {
      LeastExists(s - {x}, key);
      var m :| m in s - {x} && forall y :: y in s - {x} ==> key(m) <= key(y);
      LeastExtends(s, key, x, m);
    }
  }

  lemma ElementsGrow<T>(s: seq<T>, i: nat)
    requires i < |s|
    ensures Elements(s[..i + 1]) == Elements(s[..i]) + {s[i]}
    ensures Distinct(s) ==> s[i] !in Elements(s[..i])
  {
    assert s[..i + 1] == s[..i] + [s[i]];
  }

  lemma ElementsAppend<T>(s: seq<T>, t: seq<T>, x: T)
    ensures Elements(s + (t + [x])) == Elements(s + t) + {x}
  {
    assert s + (t + [x]) == s + t + [x];
  }

  lemma Associates<T>(a: seq<T>, b: seq<T>, c: seq<T>)
    ensures a + (b + c) == (a + b) + c
  {
  }

  lemma ContainsMeans(text: string, target: string)
    ensures Contains(text, target) <==> exists pre, post :: text == pre + target + post
  {
    if i :| 0 <= i <= |text| && OccursAt(text, target, i) {
      assert text == text[..i] + target + text[i + |target|..];
    }
    if pre, post :| text == pre + target + post {
      assert text[|pre|..|pre| + |target|] == target;
      assert OccursAt(text, target, |pre|);
    }
  }
}
