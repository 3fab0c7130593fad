/** The list operation behind the platform badges: an id is toggled in or out
    of an ordered list of selected ids. It is generic in the element type, so
    it describes both the `string[]` the page stores and the `PlatformId`
    list the rest of the model uses. */
module Selection {

  /** No element occurs twice. */
  predicate NoDup<T(==,!new)>(s: seq<T>) {
    forall i, j :: 0 <= i < j < |s| ==> s[i] != s[j]
  }

  /** `s.filter(y => y !== x)`: every occurrence of `x` goes, everything else
      stays. */
  function Remove<T(==,!new)>(s: seq<T>, x: T): (r: seq<T>)
    ensures x !in r
    ensures forall y :: y != x ==> (y in r <==> y in s)
    ensures multiset(r) == multiset(s)[x := 0]
    ensures |r| == |s| - multiset(s)[x]
    ensures x !in s ==> r == s
  {
    if |s| == 0 then []
    else
      assert s == [s[0]] + s[1..];
      if s[0] == x then Remove(s[1..], x)
      else [s[0]] + Remove(s[1..], x)
  }

  /** Removal works piecewise: the survivors of `s + t` are the survivors of
      `s` followed by the survivors of `t`. Together with the single-element
      case this fixes `Remove` completely, so the kept elements stay in their
      original relative order. */
  lemma {:induction false} RemoveConcat<T(!new)>(s: seq<T>, t: seq<T>, x: T)
    ensures Remove(s + t, x) == Remove(s, x) + Remove(t, x)
  {
    if |s| == 0 {
      assert s + t == t;
    } else {
      assert (s + t)[0] == s[0];
      assert (s + t)[1..] == s[1..] + t;
      RemoveConcat(s[1..], t, x);
    }
  }

  /** On one element, `Remove` keeps it exactly when it differs from `x`. */
  lemma RemoveSingle<T(!new)>(y: T, x: T)
    ensures Remove([y], x) == if y == x then [] else [y]
  {
    assert [y][1..] == [];
  }

  /** `prev.includes(id) ? prev.filter(...) : [...prev, id]`. */
  function Toggle<T(==,!new)>(s: seq<T>, x: T): (r: seq<T>)
    ensures x in r <==> x !in s
    ensures forall y :: y != x ==> (y in r <==> y in s)
    ensures x !in s ==> |r| == |s| + 1 && r[..|s|] == s && r[|s|] == x
    ensures x in s ==> multiset(r) == multiset(s)[x := 0]
  {
    if x in s then Remove(s, x) else s + [x]
  }

  /** Toggling twice gives back the original membership. From an absent id it
      gives back exactly the original list; from a present id the id comes
      back at the end instead of at its old position. */
  lemma ToggleTwice<T(!new)>(s: seq<T>, x: T)
    ensures forall y :: y in Toggle(Toggle(s, x), x) <==> y in s
    ensures x !in s ==> Toggle(Toggle(s, x), x) == s
    ensures x in s ==> Toggle(Toggle(s, x), x) == Remove(s, x) + [x]
  {
    if x !in s {
      RemoveConcat(s, [x], x);
      RemoveSingle(x, x);
      assert s + [] == s;
    }
  }

  /** Filtering keeps a duplicate-free list duplicate-free. */
  lemma {:induction false} RemoveKeepsNoDup<T(!new)>(s: seq<T>, x: T)
    requires NoDup(s)
    ensures NoDup(Remove(s, x))
  {
    if |s| > 0 {
      assert NoDup(s[1..]) by {
        forall i, j | 0 <= i < j < |s[1..]| ensures s[1..][i] != s[1..][j] {
          assert s[1..][i] == s[i + 1] && s[1..][j] == s[j + 1];
        }
      }
      RemoveKeepsNoDup(s[1..], x);
      if s[0] != x {
        var t := Remove(s[1..], x);
        assert s[0] !in s[1..] by {
          forall k | 0 <= k < |s[1..]| ensures s[1..][k] != s[0] {
            assert s[1..][k] == s[k + 1];
          }
        }
        assert s[0] !in t;
        ConsKeepsNoDup(s[0], t);
      }
    }
  }

  /** The filter's keep step: an element put in front of a duplicate-free
      rest that does not hold it. */
  lemma ConsKeepsNoDup<T(!new)>(a: T, t: seq<T>)
    requires NoDup(t) && a !in t
    ensures NoDup([a] + t)
  {
    var u := [a] + t;
    forall i, j | 0 <= i < j < |u| ensures u[i] != u[j] {
      assert u[j] == t[j - 1];
      if i > 0 {
        assert u[i] == t[i - 1];
      }
    }
  }

  /** `[...prev, id]` with an absent id keeps a duplicate-free list
      duplicate-free. */
  lemma AppendKeepsNoDup<T(!new)>(t: seq<T>, a: T)
    requires NoDup(t) && a !in t
    ensures NoDup(t + [a])
  {
    var u := t + [a];
    forall i, j | 0 <= i < j < |u| ensures u[i] != u[j] {
      assert u[i] == t[i];
      if j < |t| {
        assert u[j] == t[j];
      }
    }
  }

  /** Toggling keeps a duplicate-free list duplicate-free. */
  lemma ToggleKeepsNoDup<T(!new)>(s: seq<T>, x: T)
    requires NoDup(s)
    ensures NoDup(Toggle(s, x))
  {
    if x in s {
      RemoveKeepsNoDup(s, x);
    } else {
      AppendKeepsNoDup(s, x);
    }
  }

  /** The list after toggling `ids` one after another, starting from `s`. */
  function Toggles<T(==,!new)>(s: seq<T>, ids: seq<T>): seq<T>
    decreases |ids|
  {
    if |ids| == 0 then s
    else Toggle(Toggles(s, ids[..|ids| - 1]), ids[|ids| - 1])
  }

  /** From the empty selection, any run of toggles gives a duplicate-free
      list, and an id is selected exactly when it was toggled an odd number
      of times. */
  lemma {:induction false} TogglesFromEmpty<T(!new)>(ids: seq<T>)
    ensures NoDup(Toggles([], ids))
    ensures forall x :: x in Toggles([], ids) <==> multiset(ids)[x] % 2 == 1
  {
    if |ids| > 0 {
      var p := ids[..|ids| - 1];
      var last := ids[|ids| - 1];
      assert ids == p + [last];
      assert multiset(ids) == multiset(p) + multiset{last};
      TogglesFromEmpty(p);
      ToggleKeepsNoDup(Toggles([], p), last);
    }
  }
}
