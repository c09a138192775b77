/**
 The interval set kept by a slice manager: a sorted map from the first index of
 a run to the index of its last element (both inclusive).
 */
module Intervals {
  import opened Prelude

  type Runs = map<nat, nat>

  ghost predicate Covers(m: Runs, i: int) {
    exists s :: s in m && s <= i <= m[s]
  }

  /** Sorted, disjoint, non-adjacent and inside `[0, n)`. */
  ghost predicate NormalForm(m: Runs, n: nat) {
    && (forall s :: s in m ==> s <= m[s] < n)
    && (forall s, t :: s in m && t in m && s < t ==> m[s] + 1 < t)
  }

  // ---------------------------------------------------------------------
  // Ordered-map queries
  // ---------------------------------------------------------------------

  lemma {:induction false} Least(ks: set<nat>) returns (least: nat)
    requires ks != {}
    ensures least in ks && forall j :: j in ks ==> least <= j
  {
    var k :| k in ks;
    var rest := ks - {k};
    assert forall j :: j in ks ==> j == k || j in rest;
    least := k;
    if rest != {} {
      var l := Least(rest);
      least := if k <= l then k else l;
    }
  }

  lemma LeastExists(ks: set<nat>)
    requires ks != {}
    ensures exists k :: k in ks && forall j :: j in ks ==> k <= j
  {
    var k := Least(ks);
  }

  lemma {:induction false} Greatest(ks: set<nat>) returns (most: nat)
    requires ks != {}
    ensures most in ks && forall j :: j in ks ==> j <= most
  {
    var k :| k in ks;
    var rest := ks - {k};
    assert forall j :: j in ks ==> j == k || j in rest;
    most := k;
    if rest != {} {
      var l := Greatest(rest);
      most := if k <= l then l else k;
    }
  }

  lemma GreatestExists(ks: set<nat>)
    requires ks != {}
    ensures exists k :: k in ks && forall j :: j in ks ==> j <= k
  {
    var k := Greatest(ks);
  }

  /** `range(c..).next()`: the least key that is at least `c`. */
  function NextKey<V>(m: map<nat, V>, c: nat): (r: Option<nat>)
    ensures r.None? ==> forall k :: k in m ==> k < c
    ensures r.Some? ==> r.value in m && c <= r.value
    ensures r.Some? ==> forall k :: k in m && c <= k ==> r.value <= k
  {
    var ks := set k | k in m.Keys && c <= k;
    if ks == {} then
      assert forall k :: k in m && c <= k ==> k in ks;
      None
    else
      LeastExists(ks);
      var least :| least in ks && forall j :: j in ks ==> least <= j;
      assert forall k :: k in m && c <= k ==> k in ks;
      Some(least)
  }

  lemma NextKeyIs<V>(m: map<nat, V>, c: nat, k: nat)
    requires k in m && c <= k && forall j :: j in m && c <= j ==> k <= j
    ensures NextKey(m, c) == Some(k)
  {
    assert NextKey(m, c).Some?;
  }

  /** `range(..c).next_back()`: the greatest key below `c`. */
  function PrevKey<V>(m: map<nat, V>, c: nat): (r: Option<nat>)
    ensures r.None? ==> forall k :: k in m ==> c <= k
    ensures r.Some? ==> r.value in m && r.value < c
    ensures r.Some? ==> forall k :: k in m && k < c ==> k <= r.value
  {
    var ks := set k | k in m.Keys && k < c;
    if ks == {} then
      assert forall k :: k in m && k < c ==> k in ks;
      None
    else
      GreatestExists(ks);
      var most :| most in ks && forall j :: j in ks ==> j <= most;
      assert forall k :: k in m && k < c ==> k in ks;
      Some(most)
  }

  // ---------------------------------------------------------------------
  // Adding a slice
  // ---------------------------------------------------------------------

  /** The first run that starts at or after `start` and ends past `end`. */
  function FirstPast(m: Runs, start: nat, end: nat): (r: Option<nat>)
    ensures r.None? ==> forall k :: k in m && start <= k ==> m[k] <= end
    ensures r.Some? ==> r.value in m && start <= r.value && m[r.value] > end
    ensures r.Some? ==> forall k :: k in m && start <= k && m[k] > end ==> r.value <= k
  {
    var past := map k | k in m && m[k] > end :: m[k];
    var r := NextKey(past, start);
    assert forall k :: k in m && m[k] > end ==> k in past;
    r
  }

  /** `FirstPast` looks at the runs from `start` on only. */
  lemma FirstPastCongruence(a: Runs, b: Runs, start: nat, end: nat)
    requires forall k :: start <= k ==> (k in a <==> k in b)
    requires forall k :: start <= k && k in a ==> a[k] == b[k]
    ensures FirstPast(a, start, end) == FirstPast(b, start, end)
  {
    var ra, rb := FirstPast(a, start, end), FirstPast(b, start, end);
    if ra.Some? {
      assert ra.value in b && start <= ra.value && b[ra.value] > end;
    }
    if rb.Some? {
      assert rb.value in a && start <= rb.value && a[rb.value] > end;
    }
  }

  lemma FirstPastIs(m: Runs, start: nat, end: nat, k: nat)
    requires k in m && start <= k && m[k] > end
    requires forall j :: j in m && start <= j && m[j] > end ==> k <= j
    ensures FirstPast(m, start, end) == Some(k) && AbsorbEnd(m, start, end) == m[k]
  {
    var r := FirstPast(m, start, end);
    assert r.Some?;
  }

  /** Where the slice `[start, end]` ends once it has absorbed `FirstPast`. */
  function AbsorbEnd(m: Runs, start: nat, end: nat): (e: nat)
    ensures end <= e
  {
    match FirstPast(m, start, end)
    case None => end
    case Some(k) => m[k]
  }

  /** The runs that survive: those left of `start` and those past the absorbed end. */
  function Surviving(m: Runs, start: nat, e: nat): (r: Runs)
    ensures forall k :: k in r <==> k in m && (k < start || m[k] > e)
    ensures forall k :: k in r ==> r[k] == m[k]
  {
    map k | k in m && (k < start || m[k] > e) :: m[k]
  }

  /** Put `[start, e]` among the surviving runs; `prev` is the one before it. */
  function Placed(rest: Runs, prev: Option<nat>, start: nat, e: nat): Runs
    requires prev.Some? ==> prev.value in rest
  {
    match prev
    case Some(p) =>
      if rest[p] >= e then rest
      else if rest[p] + 1 >= start then rest[p := e]
      else rest[start := e]
    case None => rest[start := e]
  }

  function Add(m: Runs, start: nat, end: nat): Runs {
    var e := AbsorbEnd(m, start, end);
    var rest := Surviving(m, start, e);
    Placed(rest, PrevKey(rest, start), start, e)
  }

  /** No uncovered index lies between `end` and the run that would be absorbed. */
  predicate NoGap(m: Runs, start: nat, end: nat) {
    match FirstPast(m, start, end)
    case None => true
    case Some(k) => k <= end + 1
  }

  /**
   What `Add` does to a normal form: one run `[f, r[f]]` holds the whole of
   `[start, e]`; every other run of the result is an untouched run of `m` well
   clear of it, and every run of `m` is either untouched or inside it.
   */
  ghost predicate Shape(m: Runs, n: nat, r: Runs, f: nat, start: nat, e: nat) {
    && f in r && f <= start <= e <= r[f] < n
    && (f < start ==> f in m && start <= m[f] + 1)
    && (r[f] == e || (f in m && r[f] == m[f]))
    && (forall k :: k in r && k != f ==> k in m && r[k] == m[k] && (m[k] + 1 < f || r[f] + 1 < k))
    && (forall k :: k in m ==> (k in r && k != f && r[k] == m[k]) || (f <= k && m[k] <= r[f]))
  }

  /** What is left of `m` around `[start, e]`. */
  ghost predicate Around(m: Runs, n: nat, rest: Runs, start: nat, e: nat) {
    && NormalForm(m, n) && start <= e < n
    && (forall k :: k in rest <==> k in m && (k < start || e < m[k]))
    && (forall k :: k in rest ==> rest[k] == m[k])
    && (forall k :: k in rest && start <= k ==> e + 1 < k)
  }

  /** The new slice joins the run before it. */
  lemma JoinShape(m: Runs, n: nat, rest: Runs, p: nat, start: nat, e: nat)
    requires Around(m, n, rest, start, e)
    requires p in rest && p < start <= rest[p] + 1 && forall k :: k in rest && k < start ==> k <= p
    ensures Shape(m, n, if rest[p] >= e then rest else rest[p := e], p, start, e)
  {
  }

  /** The new slice stands alone. */
  lemma AloneShape(m: Runs, n: nat, rest: Runs, start: nat, e: nat)
    requires Around(m, n, rest, start, e)
    requires forall k :: k in rest && k < start ==> rest[k] + 1 < start
    ensures Shape(m, n, rest[start := e], start, start, e)
  {
  }

  lemma SurvivingAround(m: Runs, n: nat, start: nat, end: nat)
    requires NormalForm(m, n) && start <= end < n
    ensures var e := AbsorbEnd(m, start, end); Around(m, n, Surviving(m, start, e), start, e)
  {
    var e := AbsorbEnd(m, start, end);
    assert forall k :: k in m && start <= k && e < m[k] ==> e + 1 < k;
  }

  lemma PlacedShape(m: Runs, n: nat, rest: Runs, prev: Option<nat>, start: nat, e: nat) returns (f: nat)
    requires Around(m, n, rest, start, e)
    requires prev.None? ==> forall k :: k in rest ==> start <= k
    requires prev.Some? ==> prev.value in rest && prev.value < start
    requires prev.Some? ==> forall k :: k in rest && k < start ==> k <= prev.value
    ensures Shape(m, n, Placed(rest, prev, start, e), f, start, e)
  {
    if prev.Some? && start <= rest[prev.value] + 1 {
      f := prev.value;
      JoinShape(m, n, rest, f, start, e);
    } else {
      f := start;
      AloneShape(m, n, rest, start, e);
    }
  }

  lemma AddShape(m: Runs, n: nat, start: nat, end: nat) returns (f: nat)
    requires NormalForm(m, n) && start <= end < n
    ensures Shape(m, n, Add(m, start, end), f, start, AbsorbEnd(m, start, end))
  {
    var e := AbsorbEnd(m, start, end);
    var rest := Surviving(m, start, e);
    SurvivingAround(m, n, start, end);
    f := PlacedShape(m, n, rest, PrevKey(rest, start), start, e);
  }

  lemma ShapeNormalForm(m: Runs, n: nat, r: Runs, f: nat, start: nat, e: nat)
    requires NormalForm(m, n) && Shape(m, n, r, f, start, e)
    ensures NormalForm(r, n)
  {
  }

  lemma ShapeCovers(m: Runs, n: nat, r: Runs, f: nat, start: nat, e: nat, i: int)
    requires NormalForm(m, n) && Shape(m, n, r, f, start, e)
    ensures Covers(r, i) <==> Covers(m, i) || start <= i <= e
  {
    if Covers(m, i) {
      var s :| s in m && s <= i <= m[s];
      assert (s in r && s <= i <= r[s]) || (f in r && f <= i <= r[f]);
    }
    if start <= i <= e {
      assert f in r && f <= i <= r[f];
    }
  }

  lemma AddNormalForm(m: Runs, n: nat, start: nat, end: nat)
    requires NormalForm(m, n) && start <= end < n
    ensures NormalForm(Add(m, start, end), n)
  {
    var f := AddShape(m, n, start, end);
    ShapeNormalForm(m, n, Add(m, start, end), f, start, AbsorbEnd(m, start, end));
  }

  /** The new coverage is the old one plus `[start, AbsorbEnd]`, exactly. */
  lemma AddCovers(m: Runs, n: nat, start: nat, end: nat, i: int)
    requires NormalForm(m, n) && start <= end < n
    ensures Covers(Add(m, start, end), i) <==> Covers(m, i) || start <= i <= AbsorbEnd(m, start, end)
  {
    var f := AddShape(m, n, start, end);
    ShapeCovers(m, n, Add(m, start, end), f, start, AbsorbEnd(m, start, end), i);
  }

  /** `Add` is plain union exactly when it meets no gap. */
  lemma AddIsUnionIffNoGap(m: Runs, n: nat, start: nat, end: nat)
    requires NormalForm(m, n) && start <= end < n
    ensures (forall i :: Covers(Add(m, start, end), i) <==> Covers(m, i) || start <= i <= end)
       <==> NoGap(m, start, end)
  {
    forall i ensures Covers(Add(m, start, end), i) <==> Covers(m, i) || start <= i <= AbsorbEnd(m, start, end) {
      AddCovers(m, n, start, end, i);
    }
    match FirstPast(m, start, end)
    case None =>
    case Some(k) =>
      if k <= end + 1 {
        forall i | end < i <= m[k] ensures Covers(m, i) {
          assert k in m && k <= i <= m[k];
        }
      } else {
        // the index just before the absorbed run was uncovered
        assert !Covers(m, k - 1);
        assert Covers(Add(m, start, end), k - 1);
      }
  }

  /** In normal form a single run `[0, n - 1]` is the same thing as full coverage. */
  lemma FullIffCovered(m: Runs, n: nat)
    requires NormalForm(m, n)
    ensures (|m| == 1 && 0 in m && m[0] == n - 1) <==> (0 < n && forall i :: 0 <= i < n ==> Covers(m, i))
  {
    if |m| == 1 && 0 in m && m[0] == n - 1 {
      forall i | 0 <= i < n ensures Covers(m, i) {
        assert 0 in m && 0 <= i <= m[0];
      }
    }
    if 0 < n && forall i :: 0 <= i < n ==> Covers(m, i) {
      assert Covers(m, 0);
      assert 0 in m;
      assert m[0] + 1 < n ==> Covers(m, m[0] + 1);
      assert forall k :: k in m ==> k == 0;
      assert m.Keys == {0};
    }
  }

  // ---------------------------------------------------------------------
  // Removing a slice
  // ---------------------------------------------------------------------

  /** Drop the runs from `start` on that end by `end`; restart the next one after `end`. */
  function Trim(m: Runs, start: nat, end: nat): Runs {
    var rest := Surviving(m, start, end);
    match FirstPast(m, start, end)
    case None => rest
    case Some(k) => (map j | j in rest && j != k :: rest[j])[end + 1 := m[k]]
  }

  function Remove(m: Runs, start: nat, end: nat): Runs {
    if start == end then m
    else
      match PrevKey(m, start)
      case Some(p) =>
        if m[p] > end then m[p := start - 1][end + 1 := m[p]]
        else Trim(m[p := start - 1], start, end)
      case None => Trim(m, start, end)
  }

  /** `r` is `m` without the runs from `start` to `k`, and with `k` restarted after `end`. */
  ghost predicate Restarted(m: Runs, r: Runs, start: nat, end: nat, k: nat) {
    && k in m && start <= k && end < m[k] && end + 1 in r && r[end + 1] == m[k]
    && (forall j :: j in r && j != end + 1 ==> j in m && (j < start || k < j) && r[j] == m[j])
    && (forall j :: j in m && (j < start || k < j) ==> j in r && j != end + 1)
  }

  lemma TrimRestarts(m: Runs, n: nat, start: nat, end: nat, k: nat)
    requires NormalForm(m, n) && start <= end < n && FirstPast(m, start, end) == Some(k)
    requires forall p :: p in m && p < start ==> m[p] < start
    ensures Restarted(m, Trim(m, start, end), start, end, k)
  {
    assert forall j :: j in m && k < j ==> end < m[j];
  }

  lemma RestartedKeeps(m: Runs, n: nat, r: Runs, start: nat, end: nat, k: nat, i: int)
    requires NormalForm(m, n) && start <= end < n && Restarted(m, r, start, end, k)
    requires forall j :: j in m && start <= j < k ==> m[j] <= end
    requires if i < start then Covers(m, i) else end < i && (Covers(m, i) || i <= k)
    ensures Covers(r, i)
  {
    if end < i <= k {
      assert end + 1 in r && end + 1 <= i <= r[end + 1];
    } else {
      var s :| s in m && s <= i <= m[s];
      if s == k {
        assert end + 1 in r && end + 1 <= i <= r[end + 1];
      } else {
        assert s in r && s <= i <= r[s];
      }
    }
  }

  lemma RestartedOnly(m: Runs, n: nat, r: Runs, start: nat, end: nat, k: nat, i: int)
    requires NormalForm(m, n) && start <= end < n && Restarted(m, r, start, end, k)
    requires forall p :: p in m && p < start ==> m[p] < start
    requires Covers(r, i)
    ensures if i < start then Covers(m, i) else end < i && (Covers(m, i) || i <= k)
  {
    var s :| s in r && s <= i <= r[s];
    if s == end + 1 {
      assert k < i ==> k in m && k <= i <= m[k];
    } else {
      assert s in m && s <= i <= m[s];
    }
  }

  /** Trimming removes `[start, end]`, and fills the gap up to the run that ends past `end`. */
  lemma TrimCovers(m: Runs, n: nat, start: nat, end: nat, i: int)
    requires NormalForm(m, n) && start <= end < n
    requires forall p :: p in m && p < start ==> m[p] < start
    ensures Covers(Trim(m, start, end), i) <==>
      if i < start then Covers(m, i)
      else end < i && (Covers(m, i) || (FirstPast(m, start, end).Some? && i <= FirstPast(m, start, end).value))
  {
    var r := Trim(m, start, end);
    match FirstPast(m, start, end)
    case None =>
      if Covers(m, i) && i < start {
        var s :| s in m && s <= i <= m[s];
        assert s in r;
      }
    case Some(k) =>
      TrimRestarts(m, n, start, end, k);
      if Covers(r, i) {
        RestartedOnly(m, n, r, start, end, k, i);
      }
      if if i < start then Covers(m, i) else end < i && (Covers(m, i) || i <= k) {
        RestartedKeeps(m, n, r, start, end, k, i);
      }
  }

  /** When `Remove` takes away `[start, end]` and changes nothing else. */
  ghost predicate RemovesExactly(m: Runs, start: nat, end: nat) {
    if start == end then !Covers(m, start)
    else
      match PrevKey(m, start)
      case None => NoGap(m, start, end)
      case Some(p) => start <= m[p] + 1 && (end < m[p] || NoGap(m, start, end))
  }

  ghost predicate IsDifference(r: Runs, m: Runs, start: nat, end: nat) {
    forall i :: Covers(r, i) <==> Covers(m, i) && !(start <= i <= end)
  }

  lemma TrimIsDifferenceIffNoGap(m: Runs, n: nat, start: nat, end: nat)
    requires NormalForm(m, n) && start <= end < n
    requires forall p :: p in m && p < start ==> m[p] < start
    ensures IsDifference(Trim(m, start, end), m, start, end) <==> NoGap(m, start, end)
  {
    var r := Trim(m, start, end);
    forall i ensures Covers(r, i) <==>
      if i < start then Covers(m, i)
      else end < i && (Covers(m, i) || (FirstPast(m, start, end).Some? && i <= FirstPast(m, start, end).value)) {
      TrimCovers(m, n, start, end, i);
    }
    match FirstPast(m, start, end)
    case None =>
    case Some(k) =>
      assert Covers(m, k) by { assert k in m && k <= k <= m[k]; }
      if end + 1 < k {
        assert Covers(r, k - 1) && !Covers(m, k - 1);
      }
  }

  /** The split case: the run before `start` also ends past `end`. */
  lemma SplitIsDifference(m: Runs, n: nat, p: nat, start: nat, end: nat)
    requires NormalForm(m, n) && p in m && p < start < end < m[p]
    ensures IsDifference(m[p := start - 1][end + 1 := m[p]], m, start, end)
  {
    var r := m[p := start - 1][end + 1 := m[p]];
    assert end + 1 !in m;
    forall i ensures Covers(r, i) <==> Covers(m, i) && !(start <= i <= end) {
      if Covers(m, i) && !(start <= i <= end) {
        var s :| s in m && s <= i <= m[s];
        if s == p {
          assert if i < start then r[p] == start - 1 else r[end + 1] == m[p];
        } else {
          assert s in r && r[s] == m[s];
        }
      }
      if Covers(r, i) {
        var s :| s in r && s <= i <= r[s];
        assert if s == p || s == end + 1 then p <= i <= m[p] else s in m && r[s] == m[s];
      }
    }
  }

  /** Truncating the run before `start` changes coverage inside `[start, end]` only. */
  lemma CutCovers(m: Runs, n: nat, p: nat, start: nat, end: nat, i: int)
    requires NormalForm(m, n) && p in m && p < start <= m[p] + 1 <= end + 1
    requires i < start || end < i
    ensures Covers(m[p := start - 1], i) <==> Covers(m, i)
  {
    var cut := m[p := start - 1];
    if Covers(m, i) {
      var s :| s in m && s <= i <= m[s];
      assert s in cut && s <= i <= cut[s];
    }
    if Covers(cut, i) {
      var s :| s in cut && s <= i <= cut[s];
      assert s in m && s <= i <= m[s];
    }
  }

  lemma CutKeepsShape(m: Runs, n: nat, p: nat, start: nat, end: nat)
    requires NormalForm(m, n) && start < end < n
    requires PrevKey(m, start) == Some(p) && start <= m[p] + 1 <= end + 1
    ensures NormalForm(m[p := start - 1], n)
    ensures FirstPast(m[p := start - 1], start, end) == FirstPast(m, start, end)
  {
    FirstPastCongruence(m, m[p := start - 1], start, end);
  }

  lemma DifferenceCongruence(r: Runs, a: Runs, b: Runs, start: nat, end: nat)
    requires forall i :: i < start || end < i ==> (Covers(a, i) <==> Covers(b, i))
    ensures IsDifference(r, a, start, end) <==> IsDifference(r, b, start, end)
  {
  }

  lemma CutIsDifference(m: Runs, n: nat, p: nat, start: nat, end: nat)
    requires NormalForm(m, n) && start < end < n
    requires PrevKey(m, start) == Some(p) && start <= m[p] + 1 <= end + 1
    ensures IsDifference(Trim(m[p := start - 1], start, end), m, start, end) <==> NoGap(m, start, end)
  {
    var cut := m[p := start - 1];
    CutKeepsShape(m, n, p, start, end);
    TrimIsDifferenceIffNoGap(cut, n, start, end);
    forall i | i < start || end < i ensures Covers(cut, i) <==> Covers(m, i) {
      CutCovers(m, n, p, start, end, i);
    }
    DifferenceCongruence(Trim(cut, start, end), cut, m, start, end);
  }

  /** A run that ends before `start - 1` is widened, so the removal adds coverage. */
  lemma WidenedIsNoDifference(m: Runs, n: nat, p: nat, start: nat, end: nat)
    requires NormalForm(m, n) && start < end < n
    requires PrevKey(m, start) == Some(p) && m[p] + 1 < start
    ensures !IsDifference(Trim(m[p := start - 1], start, end), m, start, end)
  {
    var r := Trim(m[p := start - 1], start, end);
    assert p in m[p := start - 1] && p < start;
    assert p in r && r[p] == start - 1;
    assert Covers(r, start - 1);
    NotCovered(m, n, p, start);
  }

  lemma NotCovered(m: Runs, n: nat, p: nat, start: nat)
    requires NormalForm(m, n) && PrevKey(m, start) == Some(p) && m[p] + 1 < start
    ensures !Covers(m, start - 1)
  {
    forall s | s in m && s < start ensures m[s] < start - 1 {
      assert s == p || m[s] + 1 < p;
    }
  }

  /** Removal is set difference exactly under `RemovesExactly`. */
  lemma RemoveIsDifferenceIff(m: Runs, n: nat, start: nat, end: nat)
    requires NormalForm(m, n) && start <= end < n
    ensures IsDifference(Remove(m, start, end), m, start, end) <==> RemovesExactly(m, start, end)
  {
    if start != end {
      match PrevKey(m, start)
      case None =>
        TrimIsDifferenceIffNoGap(m, n, start, end);
      case Some(p) =>
        if end < m[p] {
          SplitIsDifference(m, n, p, start, end);
        } else if m[p] + 1 < start {
          WidenedIsNoDifference(m, n, p, start, end);
        } else {
          CutIsDifference(m, n, p, start, end);
        }
    }
  }

  lemma TrimNormalForm(m: Runs, n: nat, start: nat, end: nat)
    requires start < end
    requires forall s :: s in m ==> s <= m[s] < n
    requires forall s, t :: s in m && t in m && s < t && start <= t ==> m[s] < t && (start <= s ==> m[s] + 1 < t)
    requires forall s, t :: s in m && t in m && s < t < start ==> m[s] + 1 < t
    requires forall s :: s in m && s < start ==> m[s] < start
    ensures NormalForm(Trim(m, start, end), n)
  {
    match FirstPast(m, start, end)
    case None =>
    case Some(k) =>
      assert forall j :: j in m && start <= j && j != k && end < m[j] ==> m[k] + 1 < j;
  }

  lemma SplitNormalForm(m: Runs, n: nat, p: nat, start: nat, end: nat)
    requires NormalForm(m, n) && p in m && p < start <= end < m[p]
    ensures NormalForm(m[p := start - 1][end + 1 := m[p]], n)
  {
  }

  lemma CutTrimNormalForm(m: Runs, n: nat, p: nat, start: nat, end: nat)
    requires NormalForm(m, n) && start < end && start <= n && p in m && p < start && m[p] <= end
    requires forall k :: k in m && k < start ==> k <= p
    ensures NormalForm(Trim(m[p := start - 1], start, end), n)
  {
    TrimNormalForm(m[p := start - 1], n, start, end);
  }

  /** Removal keeps the normal form, also where it is not set difference. */
  lemma RemoveNormalForm(m: Runs, n: nat, start: nat, end: nat)
    requires NormalForm(m, n) && start <= end && start <= n
    ensures NormalForm(Remove(m, start, end), n)
  {
    if start != end {
      match PrevKey(m, start)
      case None =>
        TrimNormalForm(m, n, start, end);
      case Some(p) =>
        if m[p] > end {
          SplitNormalForm(m, n, p, start, end);
        } else {
          CutTrimNormalForm(m, n, p, start, end);
        }
    }
  }

  /** The case `ack` meets: the pending bytes of an outgoing message are a suffix. */
  lemma RemoveFromSuffix(m: Runs, n: nat, p: nat, end: nat)
    requires p < n && m == map[p := n - 1]
    ensures Remove(m, 0, end) ==
      if end == 0 then m else if n - 1 <= end then map[] else map[end + 1 := n - 1]
  {
    if end != 0 {
      assert PrevKey(m, 0).None?;
      var rest := Surviving(m, 0, end);
      if n - 1 <= end {
        assert FirstPast(m, 0, end).None?;
        assert rest == map[];
      } else {
        assert p in m && m[p] > end;
        assert FirstPast(m, 0, end) == Some(p);
        var others := map j | j in rest && j != p :: rest[j];
        assert others == map[];
      }
    }
  }
}
