/**
 Bounded edit distance between domain names, and the closest known provider.
 */
module DomainTypo {
  import opened Prelude

  function Min(x: nat, y: nat): nat {
    if x < y then x else y
  }

  function Init(s: string): string
    requires s != []
  {
    s[..|s| - 1]
  }

  function Last(s: string): char
    requires s != []
  {
    s[|s| - 1]
  }

  // ---------------------------------------------- edit distance, by its meaning

  /** A way of turning one string into another, read from the right end. */
  datatype Script = Done | Keep(rest: Script) | Replace(rest: Script) | Add(rest: Script) | Drop(rest: Script)

  ghost predicate Turns(s: Script, a: string, b: string)
    decreases s
  {
    match s
    case Done => a == [] && b == []
    case Keep(rest) => a != [] && b != [] && Last(a) == Last(b) && Turns(rest, Init(a), Init(b))
    case Replace(rest) => a != [] && b != [] && Turns(rest, Init(a), Init(b))
    case Add(rest) => b != [] && Turns(rest, a, Init(b))
    case Drop(rest) => a != [] && Turns(rest, Init(a), b)
  }

  function Edits(s: Script): nat {
    match s
    case Done => 0
    case Keep(rest) => Edits(rest)
    case _ => 1 + Edits(s.rest)
  }

  /** The recurrence the table is filled with. */
  function Distance(a: string, b: string): nat
    decreases |a| + |b|
  {
    if a == [] then |b|
    else if b == [] then |a|
    else
      Min(Distance(Init(a), Init(b)) + (if Last(a) == Last(b) then 0 else 1),
          Min(Distance(a, Init(b)) + 1, Distance(Init(a), b) + 1))
  }

  lemma {:induction false} NoScriptIsShorter(s: Script, a: string, b: string)
    requires Turns(s, a, b)
    ensures Distance(a, b) <= Edits(s)
    decreases s
  {
    match s
    case Done =>
    case Keep(rest) => NoScriptIsShorter(rest, Init(a), Init(b));
    case Replace(rest) => NoScriptIsShorter(rest, Init(a), Init(b));
    case Add(rest) => NoScriptIsShorter(rest, a, Init(b)); EmptyDistance(a, Init(b));
    case Drop(rest) => NoScriptIsShorter(rest, Init(a), b); EmptyDistance(Init(a), b);
  }

  lemma EmptyDistance(a: string, b: string)
    ensures a == [] ==> Distance(a, b) == |b|
    ensures b == [] ==> Distance(a, b) == |a|
  {
  }

  lemma {:induction false} SomeScriptIsAsShort(a: string, b: string) returns (s: Script)
    ensures Turns(s, a, b) && Edits(s) == Distance(a, b)
    decreases |a| + |b|
  {
    if a == [] && b == [] {
      s := Done;
    } else if a == [] || (b != [] && Distance(a, b) == Distance(a, Init(b)) + 1) {
      s := SomeScriptIsAsShort(a, Init(b));
      s := Add(s);
    } else if b == [] || Distance(a, b) == Distance(Init(a), b) + 1 {
      s := SomeScriptIsAsShort(Init(a), b);
      s := Drop(s);
    } else {
      s := SomeScriptIsAsShort(Init(a), Init(b));
      s := if Last(a) == Last(b) then Keep(s) else Replace(s);
    }
  }

  /** `d` is the least number of single-character edits that turns `a` into `b`. */
  ghost predicate IsEditDistance(a: string, b: string, d: nat) {
    && (exists s :: Turns(s, a, b) && Edits(s) == d)
    && (forall s :: Turns(s, a, b) ==> d <= Edits(s))
  }

  lemma DistanceIsEditDistance(a: string, b: string)
    ensures IsEditDistance(a, b, Distance(a, b))
    ensures forall d: nat :: IsEditDistance(a, b, d) ==> d == Distance(a, b)
  {
    var best := SomeScriptIsAsShort(a, b);
    forall s | Turns(s, a, b)
      ensures Distance(a, b) <= Edits(s)
    {
      NoScriptIsShorter(s, a, b);
    }
  }

  // ----------------------------------------------------- facts behind the cuts

  lemma {:induction false} DistanceToSelf(a: string)
    ensures Distance(a, a) == 0
  {
    if a != [] { DistanceToSelf(Init(a)); }
  }

  lemma {:induction false} LengthsBound(a: string, b: string)
    ensures |a| <= |b| + Distance(a, b) && |b| <= |a| + Distance(a, b)
    decreases |a| + |b|
  {
    if a != [] && b != [] {
      LengthsBound(Init(a), Init(b));
      LengthsBound(a, Init(b));
      LengthsBound(Init(a), b);
    }
  }

  /** `floor` bounds a whole row of the table: the distances from `a` to the prefixes of `b`. */
  ghost predicate RowAbove(a: string, b: string, floor: nat) {
    forall j :: 0 <= j <= |b| ==> floor <= Distance(a, b[..j])
  }

  /** Row minima never decrease. */
  lemma {:induction false} NextRowAbove(a: string, b: string, floor: nat, j: nat)
    requires a != [] && RowAbove(Init(a), b, floor) && j <= |b|
    ensures floor <= Distance(a, b[..j])
    decreases j
  {
    assert floor <= Distance(Init(a), b[..j]);
    if j == 0 {
      assert Distance(Init(a), b[..0]) == |Init(a)|;
    } else {
      assert Init(b[..j]) == b[..j - 1];
      assert floor <= Distance(Init(a), b[..j - 1]);
      NextRowAbove(a, b, floor, j - 1);
    }
  }

  lemma {:induction false} LaterRowsAbove(a: string, b: string, floor: nat, i: nat)
    requires i <= |a| && RowAbove(a[..i], b, floor)
    ensures RowAbove(a, b, floor)
    decreases |a| - i
  {
    if i == |a| {
      assert a[..i] == a;
    } else {
      assert Init(a[..i + 1]) == a[..i];
      forall j | 0 <= j <= |b|
        ensures floor <= Distance(a[..i + 1], b[..j])
      {
        NextRowAbove(a[..i + 1], b, floor, j);
      }
      LaterRowsAbove(a, b, floor, i + 1);
    }
  }

  // ------------------------------------------------------------ the algorithm

  /** The first cells of the row of `a` against `b`. */
  ghost predicate IsRow(row: seq<nat>, a: string, b: string) {
    |row| <= |b| + 1 && forall j :: 0 <= j < |row| ==> row[j] == Distance(a, b[..j])
  }

  lemma {:induction false} Recurrence(a: string, b: string)
    requires a != [] && b != []
    ensures Distance(a, b) ==
      Min(Distance(Init(a), Init(b)) + (if Last(a) == Last(b) then 0 else 1),
          Min(Distance(a, Init(b)) + 1, Distance(Init(a), b) + 1))
  {
  }

  lemma {:induction false} CellByRecurrence(a: string, b: string, j: nat)
    requires a != [] && 1 <= j <= |b|
    ensures Distance(a, b[..j]) ==
      Min(Distance(Init(a), b[..j - 1]) + (if Last(a) == b[j - 1] then 0 else 1),
          Min(Distance(a, b[..j - 1]) + 1, Distance(Init(a), b[..j]) + 1))
  {
    hide Distance;
    Recurrence(a, b[..j]);
    assert Init(b[..j]) == b[..j - 1];
  }

  method NextRow(previous: seq<nat>, a: string, b: string) returns (current: seq<nat>, rowMin: nat)
    requires a != [] && |previous| == |b| + 1 && IsRow(previous, Init(a), b)
    ensures |current| == |b| + 1 && IsRow(current, a, b)
    ensures RowAbove(a, b, rowMin)
    ensures exists j :: 0 <= j <= |b| && rowMin == Distance(a, b[..j])
  {
    hide Distance;
    current, rowMin := [|a|], |a|;
    EmptyDistance(a, b[..0]);
    for j := 1 to |b| + 1
      invariant |current| == j && IsRow(current, a, b)
      invariant forall k :: 0 <= k < j ==> rowMin <= current[k]
      invariant exists k :: 0 <= k < j && rowMin == current[k]
    {
      var substitution := previous[j - 1] + (if a[|a| - 1] == b[j - 1] then 0 else 1);
      var insertion := current[j - 1] + 1;
      var deletion := previous[j] + 1;
      var value := Min(substitution, Min(insertion, deletion));
      CellByRecurrence(a, b, j);
      current := current + [value];
      if value < rowMin { rowMin := value; }
    }
  }

  lemma FirstRow(row: seq<nat>, b: string)
    requires |row| == |b| + 1 && forall i :: 0 <= i <= |b| ==> row[i] == i
    ensures IsRow(row, [], b)
  {
    hide Distance;
    forall j | 0 <= j < |row|
      ensures row[j] == Distance([], b[..j])
    {
      EmptyDistance([], b[..j]);
    }
  }

  lemma WholeRow(a: string, b: string, floor: nat)
    requires RowAbove(a, b, floor)
    ensures floor <= Distance(a, b)
  {
    hide Distance;
    assert b[..|b|] == b;
  }

  lemma LastCell(row: seq<nat>, a: string, b: string)
    requires |row| == |b| + 1 && IsRow(row, a, b)
    ensures row[|b|] == Distance(a, b)
  {
    hide Distance;
    assert b[..|b|] == b;
  }

  /** The true distance whenever it is within the limit, and otherwise something above the limit. */
  method Levenshtein(a: string, b: string, limit: nat) returns (d: nat)
    ensures Distance(a, b) <= limit ==> d == Distance(a, b)
    ensures Distance(a, b) > limit ==> d > limit
  {
    hide Distance, RowAbove, IsRow;
    LengthsBound(a, b);
    if a == b {
      DistanceToSelf(a);
      return 0;
    }
    if |a| > |b| + limit || |b| > |a| + limit { return limit + 1; }
    var previous: seq<nat> := seq(|b| + 1, i requires 0 <= i <= |b| => i);
    FirstRow(previous, b);
    assert a[..0] == [];
    for i := 1 to |a| + 1
      invariant |previous| == |b| + 1 && IsRow(previous, a[..i - 1], b)
    {
      assert Init(a[..i]) == a[..i - 1];
      var current, rowMin := NextRow(previous, a[..i], b);
      if rowMin > limit {
        LaterRowsAbove(a, b, rowMin, i);
        WholeRow(a, b, rowMin);
        return limit + 1;
      }
      previous := current;
    }
    assert a[..|a|] == a;
    LastCell(previous, a, b);
    return previous[|b|];
  }

  const MIN_LENGTH_FOR_DISTANCE_MATCH: nat := 8
  const MIN_LENGTH_FOR_TWO_EDITS: nat := 10

  /** `k` is the earliest entry at the least distance, and that distance is allowed. */
  ghost predicate IsClosest(domain: string, known: seq<string>, k: nat) {
    && k < |known| && Distance(domain, known[k]) <= (if |domain| < 10 then 1 else 2)
    && (forall i :: 0 <= i < |known| ==> Distance(domain, known[k]) <= Distance(domain, known[i]))
    && (forall i :: 0 <= i < k ==> Distance(domain, known[k]) < Distance(domain, known[i]))
  }

  method ClosestKnownDomain(domain: string, known: seq<string>) returns (best: Option<string>)
    ensures |domain| < 8 ==> best.None?
    ensures |domain| >= 8 ==>
      match best
      case None => forall i :: 0 <= i < |known| ==> Distance(domain, known[i]) > if |domain| < 10 then 1 else 2
      case Some(name) => exists k: nat :: IsClosest(domain, known, k) && name == known[k]
  {
    hide Distance;
    if |domain| < MIN_LENGTH_FOR_DISTANCE_MATCH { return None; }
    var maxDistance := if |domain| < MIN_LENGTH_FOR_TWO_EDITS then 1 else 2;
    best := None;
    var bestDistance: nat := maxDistance + 1;
    ghost var at: nat := 0;
    for i := 0 to |known|
      invariant bestDistance <= maxDistance + 1
      invariant best.None? ==> bestDistance == maxDistance + 1
      invariant best.Some? ==>
        && at < i && best.value == known[at] && bestDistance == Distance(domain, known[at]) <= maxDistance
        && (forall k :: 0 <= k < at ==> bestDistance < Distance(domain, known[k]))
      invariant forall k :: 0 <= k < i ==> bestDistance <= Distance(domain, known[k])
    {
      var distance := Levenshtein(domain, known[i], maxDistance);
      if distance < bestDistance {
        bestDistance := distance;
        best := Some(known[i]);
        at := i;
      }
    }
    if bestDistance > maxDistance { return None; }
    assert IsClosest(domain, known, at);
  }
}
