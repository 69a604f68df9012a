/**
 The toggle-membership list two components keep in React state
 (`prev.includes(id) ? prev.filter(x => x !== id) : [...prev, id]`):
 the selected habits and the expanded resource sections.
 */
module Membership {

  predicate NoDuplicates(xs: seq<string>) {
    forall i, j :: 0 <= i < j < |xs| ==> xs[i] != xs[j]
  }

  /** `xs.filter(y => y !== x)`: every other element, in order. */
  function Remove(xs: seq<string>, x: string): (r: seq<string>)
    ensures forall y :: y in r <==> y in xs && y != x
    ensures |r| <= |xs|
    ensures x !in xs ==> r == xs
    decreases |xs|
  {
    if |xs| == 0 then []
    else if xs[0] == x then Remove(xs[1..], x)
    else [xs[0]] + Remove(xs[1..], x)
  }

  /** Deleting the one occurrence of `x` from a duplicate-free list splices it out. */
  lemma {:induction false} RemoveUnique(xs: seq<string>, x: string, k: nat)
    requires NoDuplicates(xs)
    requires k < |xs| && xs[k] == x
    ensures Remove(xs, x) == xs[..k] + xs[k + 1..]
    decreases |xs|
  {
    NoDuplicatesTail(xs);
    if k == 0 {
      var r := Remove(xs[1..], x);
      assert r == xs[1..];
      assert xs[..0] + xs[1..] == xs[1..];
    } else {
      assert xs[0] != x;
      var r := Remove(xs[1..], x);
      RemoveUnique(xs[1..], x, k - 1);
      assert Remove(xs, x) == [xs[0]] + r;
      SpliceCons(xs, k);
    }
  }

  lemma NoDuplicatesTail(xs: seq<string>)
    requires NoDuplicates(xs) && xs != []
    ensures NoDuplicates(xs[1..])
    ensures xs[0] !in xs[1..]
  {
    forall i, j | 0 <= i < j < |xs[1..]| ensures xs[1..][i] != xs[1..][j] {
      assert xs[1..][i] == xs[i + 1] && xs[1..][j] == xs[j + 1];
    }
  }

  lemma SpliceCons(xs: seq<string>, k: nat)
    requires 0 < k < |xs|
    ensures [xs[0]] + (xs[1..][..k - 1] + xs[1..][k..]) == xs[..k] + xs[k + 1..]
  {
    assert xs[1..][..k - 1] == xs[1..k];
    assert xs[1..][k..] == xs[k + 1..];
    assert [xs[0]] + xs[1..k] == xs[..k];
  }

  /** One toggle: drop `x` when it is present, append it otherwise. */
  function Toggle(xs: seq<string>, x: string): (r: seq<string>)
    ensures x in r <==> x !in xs
    ensures forall y :: y != x ==> (y in r <==> y in xs)
    ensures x !in xs ==> r == xs + [x]
  {
    if x in xs then Remove(xs, x) else xs + [x]
  }

  lemma {:induction false} RemoveKeepsNoDuplicates(xs: seq<string>, x: string)
    requires NoDuplicates(xs)
    ensures NoDuplicates(Remove(xs, x))
    decreases |xs|
  {
    if |xs| > 0 {
      assert NoDuplicates(xs[1..]);
      RemoveKeepsNoDuplicates(xs[1..], x);
      if xs[0] != x {
        assert xs[0] !in Remove(xs[1..], x);
      }
    }
  }

  /** A toggle never introduces a duplicate. */
  lemma ToggleKeepsNoDuplicates(xs: seq<string>, x: string)
    requires NoDuplicates(xs)
    ensures NoDuplicates(Toggle(xs, x))
  {
    if x in xs {
      RemoveKeepsNoDuplicates(xs, x);
    }
  }

  /** Toggling the same element twice restores the original membership. */
  lemma ToggleTwice(xs: seq<string>, x: string)
    ensures forall y :: y in Toggle(Toggle(xs, x), x) <==> y in xs
  {
  }

  /** On a duplicate-free list, adding and then removing an absent element gives the list back. */
  lemma ToggleTwiceAbsent(xs: seq<string>, x: string)
    requires NoDuplicates(xs) && x !in xs
    ensures Toggle(Toggle(xs, x), x) == xs
  {
    var ys := xs + [x];
    assert NoDuplicates(ys);
    RemoveUnique(ys, x, |xs|);
    assert ys[..|xs|] == xs;
  }

  /** The list after a run of toggles. */
  function ToggleAll(xs: seq<string>, toggles: seq<string>): seq<string>
    decreases |toggles|
  {
    if |toggles| == 0 then xs else ToggleAll(Toggle(xs, toggles[0]), toggles[1..])
  }

  /** Any run of toggles keeps a duplicate-free list duplicate-free. */
  lemma {:induction false} ToggleAllNoDuplicates(xs: seq<string>, toggles: seq<string>)
    requires NoDuplicates(xs)
    ensures NoDuplicates(ToggleAll(xs, toggles))
    decreases |toggles|
  {
    if |toggles| > 0 {
      ToggleKeepsNoDuplicates(xs, toggles[0]);
      ToggleAllNoDuplicates(Toggle(xs, toggles[0]), toggles[1..]);
    }
  }

  /** After a run of toggles an element is present exactly when its presence before and
      the parity of its toggle count disagree. */
  lemma {:induction false} ToggleAllParity(xs: seq<string>, toggles: seq<string>, y: string)
    ensures y in ToggleAll(xs, toggles) <==> ((y in xs) != (multiset(toggles)[y] % 2 == 1))
    decreases |toggles|
  {
    if |toggles| > 0 {
      var t, rest := toggles[0], toggles[1..];
      var ys := Toggle(xs, t);
      assert ToggleAll(xs, toggles) == ToggleAll(ys, rest);
      ToggleAllParity(ys, rest, y);
      ToggleMember(xs, t, y);
      CountHead(toggles, y);
      var n := multiset(rest)[y];
      assert (n + 1) % 2 == 1 <==> n % 2 != 1;
    }
  }

  lemma ToggleMember(xs: seq<string>, t: string, y: string)
    ensures y in Toggle(xs, t) <==> ((y in xs) != (y == t))
  {
  }

  lemma CountHead(toggles: seq<string>, y: string)
    requires toggles != []
    ensures multiset(toggles)[y] == (if y == toggles[0] then 1 else 0) + multiset(toggles[1..])[y]
  {
    assert toggles == [toggles[0]] + toggles[1..];
  }
}
