/** Python's substring search (`p in s`, `s.find(p)`) and `s.split(sep)` with an explicit,
    non-empty separator. The source applies them both to `bytes` (the game log) and to `str`
    (a player's `name#tag`), so they are stated over any sequence. */
module PyStr {
  import opened Wrappers

  /** Python truthiness of `None` or a `str`. */
  predicate Truthy(s: Option<string>)
  {
    s.Some? && s.value != ""
  }

  /** `p` occurs in `s` starting at index `i`. */
  predicate OccursAt<T(==)>(s: seq<T>, p: seq<T>, i: int)
  {
    0 <= i && i + |p| <= |s| && forall k :: 0 <= k < |p| ==> s[i + k] == p[k]
  }

  /** The first occurrence of `p` in `s` at or after `from`, as `s.find(p, from)` (None for -1). */
  function FindFrom<T(==)>(s: seq<T>, p: seq<T>, from: nat): (r: Option<nat>)
    ensures r.Some? ==> from <= r.value && r.value + |p| <= |s|
    decreases |s| - from
  {
    if from + |p| > |s| then None
    else if OccursAt(s, p, from) then Some(from)
    else FindFrom(s, p, from + 1)
  }

  /** `FindFrom` finds an occurrence, the first one at or after `from`, and reports none only
      when there is none. */
  lemma {:induction false} FindFromSpec<T>(s: seq<T>, p: seq<T>, from: nat)
    ensures FindFrom(s, p, from).Some? ==> OccursAt(s, p, FindFrom(s, p, from).value)
    ensures FindFrom(s, p, from).Some? ==> forall j :: from <= j < FindFrom(s, p, from).value ==> !OccursAt(s, p, j)
    ensures FindFrom(s, p, from).None? ==> forall j :: from <= j ==> !OccursAt(s, p, j)
    decreases |s| - from
  {
    if from + |p| <= |s| && !OccursAt(s, p, from) {
      FindFromSpec(s, p, from + 1);
    }
  }

  function Find<T(==)>(s: seq<T>, p: seq<T>): Option<nat>
  {
    FindFrom(s, p, 0)
  }

  /** Python's `p in s` for `bytes` and `str`. */
  predicate Contains<T(==)>(s: seq<T>, p: seq<T>)
  {
    Find(s, p).Some?
  }

  /** The pieces of `s[start..]` between successive non-overlapping occurrences of `sep`,
      scanning from the left. */
  function SplitFrom<T(==)>(s: seq<T>, sep: seq<T>, start: nat): (r: seq<seq<T>>)
    requires |sep| > 0 && start <= |s|
    ensures |r| >= 1
    decreases |s| - start
  {
    var f := FindFrom(s, sep, start);
    if f.None? then [s[start..]]
    else [s[start..f.value]] + SplitFrom(s, sep, f.value + |sep|)
  }

  /** `s.split(sep)`. */
  function Split<T(==)>(s: seq<T>, sep: seq<T>): (r: seq<seq<T>>)
    requires |sep| > 0
    ensures |r| >= 1
    ensures |r| == 1 <==> !Contains(s, sep)
  {
    SplitFrom(s, sep, 0)
  }

  /** `sep.join(pieces)`, the reference that `Split` undoes. */
  function Join<T>(pieces: seq<seq<T>>, sep: seq<T>): seq<T>
    requires |pieces| >= 1
  {
    if |pieces| == 1 then pieces[0] else pieces[0] + sep + Join(pieces[1..], sep)
  }

  lemma JoinUnfold<T>(head: seq<T>, rest: seq<seq<T>>, sep: seq<T>)
    requires |rest| >= 1
    ensures Join([head] + rest, sep) == head + sep + Join(rest, sep)
  {
    assert ([head] + rest)[1..] == rest;
  }

  /** An occurrence inside a slice is an occurrence in the whole sequence. */
  lemma OccursInSlice<T>(s: seq<T>, a: nat, b: nat, p: seq<T>, j: int)
    requires a <= b <= |s| && OccursAt(s[a..b], p, j)
    ensures OccursAt(s, p, a + j)
  {
  }

  /** A one-element pattern occurs exactly where that element is. */
  lemma OccursSingle<T>(s: seq<T>, c: T, i: int)
    ensures OccursAt(s, [c], i) <==> 0 <= i < |s| && s[i] == c
  {
    if 0 <= i < |s| {
      assert s[i + 0] == s[i] && [c][0] == c;
    }
  }

  /** Occurrences in a suffix are the occurrences in the whole sequence, shifted. */
  lemma OccursInSuffix<T>(s: seq<T>, a: nat, p: seq<T>, q: nat)
    requires a <= |s|
    ensures OccursAt(s[a..], p, q) <==> OccursAt(s, p, a + q)
  {
  }

  /** `Find` returns exactly the occurrence that has none before it. */
  lemma {:induction false} FindFromIs<T>(s: seq<T>, p: seq<T>, from: nat, x: nat)
    requires from <= x && OccursAt(s, p, x)
    requires forall j :: from <= j < x ==> !OccursAt(s, p, j)
    ensures FindFrom(s, p, from) == Some(x)
    decreases x - from
  {
    if from < x {
      FindFromIs(s, p, from + 1, x);
    }
  }

  /** Joining the pieces with the separator gives back the original sequence. */
  lemma {:induction false} SplitFromJoin<T>(s: seq<T>, sep: seq<T>, start: nat)
    requires |sep| > 0 && start <= |s|
    ensures Join(SplitFrom(s, sep, start), sep) == s[start..]
    decreases |s| - start
  {
    var f := FindFrom(s, sep, start);
    if f.Some? {
      var i := f.value;
      FindFromSpec(s, sep, start);
      SplitFromJoin(s, sep, i + |sep|);
      JoinUnfold(s[start..i], SplitFrom(s, sep, i + |sep|), sep);
      assert s[i..i + |sep|] == sep;
      assert s[start..] == s[start..i] + s[i..i + |sep|] + s[i + |sep|..];
    }
  }

  lemma SplitJoin<T>(s: seq<T>, sep: seq<T>)
    requires |sep| > 0
    ensures Join(Split(s, sep), sep) == s
  {
    SplitFromJoin(s, sep, 0);
  }

  /** One step of `SplitFrom` past the next separator. */
  lemma SplitFromUnfold<T>(s: seq<T>, sep: seq<T>, start: nat, i: nat)
    requires |sep| > 0 && start <= |s| && FindFrom(s, sep, start) == Some(i)
    ensures SplitFrom(s, sep, start) == [s[start..i]] + SplitFrom(s, sep, i + |sep|)
  {
  }

  /** A stretch in which no occurrence starts does not contain `sep`. */
  lemma StretchFree<T>(s: seq<T>, sep: seq<T>, start: nat, e: nat)
    requires |sep| > 0 && start <= e <= |s|
    requires forall q :: start <= q < e ==> !OccursAt(s, sep, q)
    ensures !Contains(s[start..e], sep)
  {
    if Contains(s[start..e], sep) {
      FindFromSpec(s[start..e], sep, 0);
      var j := Find(s[start..e], sep).value;
      OccursInSlice(s, start, e, sep, j);
      assert false;
    }
  }

  /** Piece `k` from `start` is piece `k - 1` after the next separator. */
  lemma SplitFromIndexStep<T>(s: seq<T>, sep: seq<T>, start: nat, e: nat, k: nat)
    requires |sep| > 0 && start <= |s| && FindFrom(s, sep, start) == Some(e)
    requires 0 < k < |SplitFrom(s, sep, start)|
    ensures e + |sep| <= |s| && k - 1 < |SplitFrom(s, sep, e + |sep|)|
    ensures SplitFrom(s, sep, start)[k] == SplitFrom(s, sep, e + |sep|)[k - 1]
  {
    SplitFromUnfold(s, sep, start, e);
  }

  /** The first piece from `start` does not contain the separator, and it is the only piece
      when no separator follows `start`. */
  lemma SplitFromHeadFree<T>(s: seq<T>, sep: seq<T>, start: nat)
    requires |sep| > 0 && start <= |s|
    ensures !Contains(SplitFrom(s, sep, start)[0], sep)
    ensures FindFrom(s, sep, start).None? ==> |SplitFrom(s, sep, start)| == 1
  {
    var f := FindFrom(s, sep, start);
    FindFromSpec(s, sep, start);
    if f.None? {
      StretchFree(s, sep, start, |s|);
      assert s[start..|s|] == s[start..];
    } else {
      SplitFromUnfold(s, sep, start, f.value);
      StretchFree(s, sep, start, f.value);
    }
  }

  /** No piece of a split contains the separator. */
  lemma {:induction false} SplitFromPiecesFree<T>(s: seq<T>, sep: seq<T>, start: nat, k: nat)
    requires |sep| > 0 && start <= |s| && k < |SplitFrom(s, sep, start)|
    ensures !Contains(SplitFrom(s, sep, start)[k], sep)
    decreases |s| - start
  {
    SplitFromHeadFree(s, sep, start);
    if k != 0 {
      var e := FindFrom(s, sep, start).value;
      SplitFromIndexStep(s, sep, start, e, k);
      SplitFromPiecesFree(s, sep, e + |sep|, k - 1);
    }
  }

  lemma SplitPiecesFree<T>(s: seq<T>, sep: seq<T>, k: nat)
    requires |sep| > 0 && k < |Split(s, sep)|
    ensures !Contains(Split(s, sep)[k], sep)
  {
    SplitFromPiecesFree(s, sep, 0, k);
  }

  /** The first piece from `start` ends where the first occurrence of `sep` at or after
      `start` begins, or at the end of `s` when there is none. */
  lemma SplitFromHeadAt<T>(s: seq<T>, sep: seq<T>, start: nat, e: nat)
    requires |sep| > 0 && start <= e <= |s|
    requires forall q :: start <= q < e ==> !OccursAt(s, sep, q)
    requires e == |s| || OccursAt(s, sep, e)
    ensures SplitFrom(s, sep, start)[0] == s[start..e]
  {
    if OccursAt(s, sep, e) {
      FindFromIs(s, sep, start, e);
    } else {
      FindFromSpec(s, sep, start);
    }
  }

  lemma SplitHeadAt<T>(s: seq<T>, sep: seq<T>, e: nat)
    requires |sep| > 0 && e <= |s|
    requires forall q :: 0 <= q < e ==> !OccursAt(s, sep, q)
    requires e == |s| || OccursAt(s, sep, e)
    ensures Split(s, sep)[0] == s[..e]
  {
    SplitFromHeadAt(s, sep, 0, e);
  }

  /** The second piece of a split starts just after the first separator. */
  lemma SplitSecond<T>(s: seq<T>, sep: seq<T>, i: nat)
    requires |sep| > 0 && Find(s, sep) == Some(i)
    ensures |Split(s, sep)| >= 2
    ensures Split(s, sep)[1] == SplitFrom(s, sep, i + |sep|)[0]
  {
  }
}
