/** Suggesting a configuration name: Levenshtein distance over bytes, computed in two rows. */
module EditDistance {
  import opened Basics
  import opened Outcomes

  type Byte = x: int | 0 <= x < 256

  type Bytes = seq<Byte>

  function Differ(x: Byte, y: Byte): nat {
    if x == y then 0 else 1
  }

  function Front(a: Bytes): Bytes
    requires a != []
  {
    a[..|a| - 1]
  }

  function Last(a: Bytes): Byte
    requires a != []
  {
    a[|a| - 1]
  }

  /** The recursive definition, looking at the last bytes. */
  function Distance(a: Bytes, b: Bytes): nat
    decreases |a| + |b|
  {
    if a == [] then |b|
    else if b == [] then |a|
    else
      Min(Min(Distance(a, Front(b)) + 1, Distance(Front(a), b) + 1), Distance(Front(a), Front(b)) + Differ(Last(a), Last(b)))
  }

  /** One row of the table: the distances from `a` to every prefix of `b`. */
  ghost function Row(a: Bytes, b: Bytes): seq<nat> {
    seq(|b| + 1, j requires 0 <= j <= |b| => Distance(a, b[..j]))
  }

  lemma FirstRow(b: Bytes, row: seq<nat>)
    requires |row| == |b| + 1 && forall j :: 0 <= j <= |b| ==> row[j] == j
    ensures row == Row([], b)
  {
  }

  lemma NextCell(a: Bytes, x: Byte, b: Bytes, j: nat)
    requires j < |b|
    ensures Row(a + [x], b)[j + 1]
         == Min(Min(Row(a + [x], b)[j] + 1, Row(a, b)[j + 1] + 1), Row(a, b)[j] + Differ(x, b[j]))
  {
    var b' := b[..j + 1];
    assert Front(b') == b[..j] && Last(b') == b[j] && Front(a + [x]) == a;
  }

  /** The inner loop: from the row of `a` to the row of `a` followed by `x`. */
  method NextRow(ghost a: Bytes, x: Byte, i: nat, right: Bytes, previous: seq<nat>) returns (current: seq<nat>)
    requires previous == Row(a, right) && i == |a|
    ensures current == Row(a + [x], right)
  {
    current := [i + 1];
    assert current == Row(a + [x], right)[..1];
    for j := 0 to |right|
      invariant current == Row(a + [x], right)[..j + 1]
    {
      NextCell(a, x, right, j);
      current := current + [Min(Min(current[j] + 1, previous[j + 1] + 1), previous[j] + Differ(x, right[j]))];
    }
  }

  method ComputeDistance(left: Bytes, right: Bytes) returns (distance: nat)
    ensures distance == Distance(left, right)
  {
    var previous := seq(|right| + 1, j requires 0 <= j <= |right| => j);
    FirstRow(right, previous);
    for i := 0 to |left|
      invariant previous == Row(left[..i], right)
    {
      assert left[..i + 1] == left[..i] + [left[i]];
      previous := NextRow(left[..i], left[i], i, right, previous);
    }
    assert left[..|left|] == left && right[..|right|] == right;
    distance := previous[|right|];
  }

  // ---- a metric ----

  lemma {:induction false} Symmetric(a: Bytes, b: Bytes)
    ensures Distance(a, b) == Distance(b, a)
    decreases |a| + |b|
  {
    if a != [] && b != [] {
      Symmetric(a, Front(b));
      Symmetric(Front(a), b);
      Symmetric(Front(a), Front(b));
    }
  }

  /** The distance is zero exactly between equal strings. */
  lemma {:induction false} ZeroMeansEqual(a: Bytes, b: Bytes)
    ensures Distance(a, b) == 0 <==> a == b
    decreases |a| + |b|
  {
    if a != [] && b != [] {
      ZeroMeansEqual(Front(a), Front(b));
      assert a == Front(a) + [Last(a)] && b == Front(b) + [Last(b)];
    }
  }

  lemma {:induction false} LengthBounds(a: Bytes, b: Bytes)
    ensures |a| <= Distance(a, b) + |b| && Distance(a, b) <= |a| + |b|
    decreases |a| + |b|
  {
    if a != [] && b != [] {
      LengthBounds(a, Front(b));
      LengthBounds(Front(a), b);
      LengthBounds(Front(a), Front(b));
    }
  }

  lemma {:induction false} Triangle(a: Bytes, b: Bytes, c: Bytes)
    ensures Distance(a, c) <= Distance(a, b) + Distance(b, c)
    decreases |a| + |b| + |c|
  {
    if a == [] {
      Symmetric(b, c);
      LengthBounds(c, b);
    } else if c == [] {
      LengthBounds(a, b);
    } else if b == [] {
      LengthBounds(a, c);
    } else {
      Triangle(Front(a), b, c);
      Triangle(a, b, Front(c));
      Triangle(a, Front(b), c);
      Triangle(a, Front(b), Front(c));
      Triangle(Front(a), Front(b), c);
      Triangle(Front(a), Front(b), Front(c));
    }
  }

  // ---- an independent reading: the cheapest edit script ----

  datatype Edit = Keep(x: Byte) | Change(x: Byte, y: Byte) | Insert(y: Byte) | Delete(x: Byte)

  function From(e: Edit): Bytes {
    if e.Insert? then [] else [e.x]
  }

  function To(e: Edit): Bytes {
    match e
    case Keep(x) => [x]
    case Change(_, y) => [y]
    case Insert(y) => [y]
    case Delete(_) => []
  }

  function Price(e: Edit): nat {
    if e.Keep? then 0 else 1
  }

  function Source(script: seq<Edit>): Bytes {
    if script == [] then [] else Source(script[..|script| - 1]) + From(script[|script| - 1])
  }

  function Target(script: seq<Edit>): Bytes {
    if script == [] then [] else Target(script[..|script| - 1]) + To(script[|script| - 1])
  }

  function Cost(script: seq<Edit>): nat {
    if script == [] then 0 else Cost(script[..|script| - 1]) + Price(script[|script| - 1])
  }

  lemma ScriptAppend(script: seq<Edit>, e: Edit)
    ensures Source(script + [e]) == Source(script) + From(e)
    ensures Target(script + [e]) == Target(script) + To(e)
    ensures Cost(script + [e]) == Cost(script) + Price(e)
  {
    assert (script + [e])[..|script|] == script;
  }

  /** One edit moves the distance by at most its price. */
  lemma OneEdit(a: Bytes, b: Bytes, e: Edit)
    ensures Distance(a + From(e), b + To(e)) <= Distance(a, b) + Price(e)
  {
    var a', b' := a + From(e), b + To(e);
    assert From(e) != [] ==> Front(a') == a && Last(a') == From(e)[0];
    assert To(e) != [] ==> Front(b') == b && Last(b') == To(e)[0];
    assert From(e) == [] ==> a' == a;
    assert To(e) == [] ==> b' == b;
  }

  /** No script that turns `Source` into `Target` is cheaper than the distance. */
  lemma {:induction false} NoCheaperScript(script: seq<Edit>)
    ensures Distance(Source(script), Target(script)) <= Cost(script)
  {
    if script != [] {
      var front, e := script[..|script| - 1], script[|script| - 1];
      NoCheaperScript(front);
      OneEdit(Source(front), Target(front), e);
    }
  }

  /** The last edit of a cheapest script, and the strings before it. */
  lemma LastEdit(a: Bytes, b: Bytes) returns (a': Bytes, b': Bytes, e: Edit)
    requires a != [] || b != []
    ensures a == a' + From(e) && b == b' + To(e) && Distance(a, b) == Distance(a', b') + Price(e)
  {
    assert a != [] ==> a == Front(a) + [Last(a)];
    assert b != [] ==> b == Front(b) + [Last(b)];
    if a == [] || (b != [] && Distance(a, b) == Distance(a, Front(b)) + 1) {
      a', b', e := a, Front(b), Insert(Last(b));
      assert a + [] == a;
    } else if b == [] || Distance(a, b) == Distance(Front(a), b) + 1 {
      a', b', e := Front(a), b, Delete(Last(a));
      assert b + [] == b;
    } else {
      a', b' := Front(a), Front(b);
      e := if Last(a) == Last(b) then Keep(Last(a)) else Change(Last(a), Last(b));
    }
  }

  /** Some script attains the distance, so the distance is the least cost of turning `a` into `b`. */
  lemma {:induction false} CheapestScript(a: Bytes, b: Bytes) returns (script: seq<Edit>)
    ensures Source(script) == a && Target(script) == b && Cost(script) == Distance(a, b)
    decreases |a| + |b|
  {
    if a == [] && b == [] {
      script := [];
    } else {
      var a', b', e := LastEdit(a, b);
      var front := CheapestScript(a', b');
      ScriptAppend(front, e);
      script := front + [e];
    }
  }

  // ---- the suggestion ----

  /** The first of `allowed` at least distance, as `min_by_key` picks it. */
  function Nearest(name: Bytes, allowed: seq<Bytes>): (r: Bytes)
    requires allowed != []
    ensures r in allowed
    ensures forall c :: c in allowed ==> Distance(name, r) <= Distance(name, c)
  {
    if |allowed| == 1 then allowed[0]
    else
      var best, last := Nearest(name, allowed[..|allowed| - 1]), allowed[|allowed| - 1];
      if Distance(name, last) < Distance(name, best) then last else best
  }

  lemma LastIsNearer(name: Bytes, allowed: seq<Bytes>)
    requires |allowed| > 1
    requires forall j :: 0 <= j < |allowed| - 1 ==> Distance(name, allowed[j]) > Distance(name, allowed[|allowed| - 1])
    ensures Distance(name, Nearest(name, allowed[..|allowed| - 1])) > Distance(name, allowed[|allowed| - 1])
  {
    var front := allowed[..|allowed| - 1];
    var k :| 0 <= k < |front| && front[k] == Nearest(name, front);
    assert allowed[k] == front[k];
  }

  /** Of several equally near candidates the first one is taken. */
  lemma {:induction false} NearestIsFirst(name: Bytes, allowed: seq<Bytes>, i: nat)
    requires i < |allowed| && Distance(name, allowed[i]) == Distance(name, Nearest(name, allowed))
    requires forall j :: 0 <= j < i ==> Distance(name, allowed[j]) > Distance(name, allowed[i])
    ensures Nearest(name, allowed) == allowed[i]
  {
    var n := |allowed| - 1;
    if i < n {
      var front := allowed[..n];
      assert allowed[i] == front[i];
      assert Distance(name, Nearest(name, front)) <= Distance(name, front[i]);
      NearestIsFirst(name, front, i);
    } else if n > 0 {
      LastIsNearer(name, allowed);
    }
  }

  /** A suggestion is a true nearest candidate within three edits; there is none only if all are further. */
  function Closest(name: Bytes, allowed: seq<Bytes>): (r: Option<Bytes>)
    ensures r.Some? ==> r.value in allowed && Distance(name, r.value) <= 3
    ensures r.Some? ==> forall c :: c in allowed ==> Distance(name, r.value) <= Distance(name, c)
    ensures r.None? <==> forall c :: c in allowed ==> Distance(name, c) > 3
  {
    if allowed == [] then None
    else
      var best := Nearest(name, allowed);
      if Distance(name, best) <= 3 then Some(best) else None
  }
}
