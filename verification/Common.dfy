/** Shared vocabulary: optional values, clock readings and the few facts about finite sets that
    every other module needs. */
module Common {

  datatype Option<+T> = None | Some(value: T)

  /** Clock readings and durations, in nanoseconds. `ZERO_TIME` is the "zero" reading of an unset clock. */
  type Time = int
  const ZERO_TIME: Time := 0
  const SECOND: int := 1_000_000_000
  const HOUR: int := 3600 * SECOND

  /** A duration cut down to whole seconds, towards zero. */
  function WholeSeconds(d: int): (r: int)
    ensures d >= 0 ==> r <= d < r + SECOND
    ensures d <= 0 ==> r - SECOND < d <= r
  {
    if d >= 0 then d / SECOND * SECOND else -((-d) / SECOND * SECOND)
  }

  function Max(a: int, b: int): int {
    if a < b then b else a
  }

  lemma MaxByExists<T>(s: set<T>, key: T --> int)
    requires s != {}
    requires forall x :: x in s ==> key.requires(x)
    ensures exists m :: m in s && forall x :: x in s ==> key(x) <= key(m)
  {
    var y :| y in s;
    var rest := s - {y};
    if rest == {} {
      assert s == rest + {y};
    } else {
      MaxByExists(rest, key);
      var m :| m in rest && forall x :: x in rest ==> key(x) <= key(m);
      var top := if key(m) < key(y) then y else m;
      forall x | x in s ensures key(x) <= key(top) {
        assert x == y || x in rest;
      }
    }
  }

  lemma MaxExists(s: set<nat>)
    requires s != {}
    ensures exists m :: m in s && forall x :: x in s ==> x <= m
  {
    var key := (x: nat) => x as int;
    MaxByExists(s, key);
    var m :| m in s && forall x :: x in s ==> key(x) <= key(m);
    assert forall x :: x in s ==> key(x) == x;
  }

  /** The largest member: what `ORDER BY id DESC LIMIT 1` selects. */
  ghost function MaxOf(s: set<nat>): (m: nat)
    requires s != {}
    ensures m in s
    ensures forall x :: x in s ==> x <= m
  {
    MaxExists(s);
    var m :| m in s && forall x :: x in s ==> x <= m;
    m
  }

  lemma SubsetSize<T>(a: set<T>, b: set<T>)
    requires a <= b
    ensures |a| <= |b|
    ensures |a| == |b| ==> a == b
    decreases b
  {
    if a != {} {
      var x :| x in a;
      SubsetSize(a - {x}, b - {x});
      assert a == (a - {x}) + {x} && b == (b - {x}) + {x};
    }
  }

  /** The rows of a query, in some order. */
  method Rows<T(==)>(s: set<T>) returns (rows: seq<T>)
    ensures forall x :: x in rows <==> x in s
    ensures forall i :: 0 <= i < |rows| ==> rows[i] in s
    ensures forall i, j :: 0 <= i < j < |rows| ==> rows[i] != rows[j]
    ensures |rows| == |s|
  {
    var rest := s;
    rows := [];
    while rest != {}
      invariant rest <= s && |rows| + |rest| == |s|
      invariant forall x :: x in s <==> x in rows || x in rest
      invariant forall i :: 0 <= i < |rows| ==> rows[i] !in rest
      invariant forall i, j :: 0 <= i < j < |rows| ==> rows[i] != rows[j]
      decreases rest
    {
      var x :| x in rest;
      rows, rest := rows + [x], rest - {x};
    }
  }
}
