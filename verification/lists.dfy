/**
 * Two small list rules of labelImg.py: the recent-files list
 * (`addRecentFile`) and the wrap-around row choice of `nextBoxSelect` and
 * `prevBoxSelect`.
 */
module Lists {
  import opened Wrappers

  /** `maxRecent`: the recent-files list keeps at most this many paths. */
  const MaxRecent: nat := 7

  predicate Distinct<T(==)>(s: seq<T>) {
    forall i, j | 0 <= i < j < |s| :: s[i] != s[j]
  }

  /** `list.remove`: drop the first occurrence of x, keeping the order of the rest. */
  function RemoveFirst<T(==)>(s: seq<T>, x: T): (r: seq<T>)
    ensures x in s ==> |r| == |s| - 1
    ensures x !in s ==> r == s
    ensures forall y | y in r :: y in s
    ensures forall y | y in s && y != x :: y in r
    ensures Distinct(s) ==> Distinct(r) && x !in r
  {
    if |s| == 0 then []
    else if s[0] == x then s[1..]
    else
      var rest := RemoveFirst(s[1..], x);
      assert Distinct(s) ==> s[0] !in s[1..];
      [s[0]] + rest
  }

  /**
   * `addRecentFile`: the path goes to the front; an earlier occurrence is
   * removed, and otherwise a full list loses its last (oldest) path.
   */
  function AddRecentFile(recent: seq<string>, path: string): (r: seq<string>)
    ensures |r| > 0 && r[0] == path
    ensures forall x | x in r :: x == path || x in recent
    ensures forall x | x in recent && x != path :: x in r || (|recent| >= MaxRecent && x == recent[|recent| - 1])
    ensures Distinct(recent) ==> Distinct(r)
    ensures |recent| <= MaxRecent ==> |r| <= MaxRecent
  {
    if path in recent then
      var rest := RemoveFirst(recent, path);
      assert Distinct(recent) ==> path !in rest;
      [path] + rest
    else if |recent| >= MaxRecent then
      var rest := recent[..|recent| - 1];
      assert forall x | x in recent && x != recent[|recent| - 1] :: x in rest;
      [path] + rest
    else [path] + recent
  }

  /** Adding the same path twice is the same as adding it once. */
  lemma AddRecentFileIdempotent(recent: seq<string>, path: string)
    ensures AddRecentFile(AddRecentFile(recent, path), path) == AddRecentFile(recent, path)
  {
    var r := AddRecentFile(recent, path);
    assert r[0] == path;
    assert RemoveFirst(r, path) == r[1..];
  }

  /**
   * `nextBoxSelect`: the row after the remembered one (or the first row
   * when none is remembered), wrapping to the first row after the last.
   * None for an empty list.
   */
  function NextBoxIndex(count: nat, row: Option<nat>): (r: Option<nat>)
    ensures r.None? <==> count == 0
    ensures r.Some? ==> r.value < count
  {
    if count == 0 then None
    else if count == 1 then Some(0)
    else
      var index: int := if row.Some? then row.value else -1;
      if index + 1 < count then Some(index + 1) else Some(0)
  }

  /**
   * `prevBoxSelect`: the row before the remembered one (the first row when
   * none is remembered), wrapping to the last row before the first. A
   * remembered row two or more past the end of the list names no row, and
   * the source then fails on the missing item; the model answers None.
   */
  function PrevBoxIndex(count: nat, row: Option<nat>): (r: Option<nat>)
    ensures count == 0 ==> r.None?
    ensures r.Some? ==> r.value < count
    ensures count > 0 && (row.None? || row.value <= count) ==> r.Some?
  {
    if count == 0 then None
    else if count == 1 then Some(0)
    else
      var index: nat := if row.Some? then row.value else 1;
      if index > 0 then (if index - 1 < count then Some(index - 1) else None)
      else Some(count - 1)
  }

  /** With two or more rows, next and previous undo each other, wrapping at both ends. */
  lemma NextPrevInverse(count: nat, i: nat)
    requires count >= 2 && i < count
    ensures PrevBoxIndex(count, NextBoxIndex(count, Some(i))) == Some(i)
    ensures NextBoxIndex(count, PrevBoxIndex(count, Some(i))) == Some(i)
    ensures NextBoxIndex(count, Some(count - 1)) == Some(0) && PrevBoxIndex(count, Some(0)) == Some(count - 1)
  {
  }

  /** Without a remembered row both directions start at the first row. */
  lemma NoRowStartsAtFirst(count: nat)
    requires count > 0
    ensures NextBoxIndex(count, None) == Some(0) && PrevBoxIndex(count, None) == Some(0)
  {
  }
}
