/**
  The canonical qualifier key of a pool-creator bean.

  The qualifier names of a bean are added one by one to a sorted set (a TreeSet
  ordered by the names' own comparison), and the set is then rendered name by
  name and joined with "_". The name type, its ordering and its rendering belong
  to the container and are parameters here: `N` is the name type, `less` the
  strict ordering behind compareTo and `show` the rendering of toString.
*/
module QualifierKeys {

  /** The separator placed between rendered names. */
  const Separator := "_"

  /** `less` orders the names strictly and totally, as compareTo does for a TreeSet. */
  ghost predicate StrictTotalOrder<N(!new)>(less: (N, N) -> bool) {
    && (forall x :: !less(x, x))
    && (forall x, y, z :: less(x, y) && less(y, z) ==> less(x, z))
    && (forall x, y :: x != y ==> less(x, y) || less(y, x))
  }

  /** The iteration order of a TreeSet: strictly ascending, hence free of repetitions. */
  ghost predicate StrictlySorted<N>(s: seq<N>, less: (N, N) -> bool) {
    forall i, j :: 0 <= i < j < |s| ==> less(s[i], s[j])
  }

  /**
    TreeSet.add on the set held as its ascending sequence: `x` goes before the
    first element it is less than, and a name the ordering finds equal to one
    already present is not added again.
  */
  function Insert<N(!new)>(s: seq<N>, x: N, less: (N, N) -> bool): (r: seq<N>)
    ensures StrictTotalOrder(less) && StrictlySorted(s, less) ==>
              && StrictlySorted(r, less)
              && forall y :: y in r <==> y in s || y == x
  {
    if |s| == 0 then [x]
    else if less(x, s[0]) then [x] + s
    else if less(s[0], x) then
      var tail := Insert(s[1..], x, less);
      assert StrictTotalOrder(less) && StrictlySorted(s, less) ==> forall y :: y in tail ==> less(s[0], y);
      [s[0]] + tail
    else s
  }

  /** The TreeSet after adding `names` in order to an empty one. */
  function TreeSetOf<N(!new)>(names: seq<N>, less: (N, N) -> bool): (r: seq<N>)
    ensures StrictTotalOrder(less) ==>
              && StrictlySorted(r, less)
              && forall y :: y in r <==> y in names
  {
    if |names| == 0 then []
    else Insert(TreeSetOf(names[..|names| - 1], less), names[|names| - 1], less)
  }

  /** Each name rendered with toString, in order. */
  function Rendered<N>(names: seq<N>, show: N -> string): (r: seq<string>)
    ensures |r| == |names|
    ensures forall i :: 0 <= i < |names| ==> r[i] == show(names[i])
  {
    if |names| == 0 then [] else [show(names[0])] + Rendered(names[1..], show)
  }

  /** Collectors.joining(sep): the parts with `sep` between neighbours. */
  function Join(parts: seq<string>, sep: string): string {
    if |parts| == 0 then ""
    else if |parts| == 1 then parts[0]
    else parts[0] + sep + Join(parts[1..], sep)
  }

  /** Joining one more part appends the separator and that part to the joined prefix. */
  lemma {:induction false} JoinAppend(parts: seq<string>, x: string, sep: string)
    requires |parts| != 0
    ensures Join(parts + [x], sep) == Join(parts, sep) + sep + x
  {
    if |parts| != 1 {
      assert (parts + [x])[1..] == parts[1..] + [x];
      JoinAppend(parts[1..], x, sep);
    }
  }

  /**
    The key under which a bean with qualifier names `qualifiers` is recorded: a
    bean without qualifiers gets the empty key, and a bean with a single
    qualifier the rendering of that name.
  */
  function Key<N(!new)>(qualifiers: seq<N>, less: (N, N) -> bool, show: N -> string): (key: string)
    ensures |qualifiers| == 0 ==> key == ""
    ensures |qualifiers| == 1 ==> key == show(qualifiers[0])
  {
    assert |qualifiers| == 1 ==> qualifiers[..0] == [] && TreeSetOf(qualifiers, less) == [qualifiers[0]];
    Join(Rendered(TreeSetOf(qualifiers, less), show), Separator)
  }

  /** Computes the key as the validation step does: one TreeSet.add per qualifier, then the join. */
  method CanonicalKey<N(!new)>(qualifiers: seq<N>, less: (N, N) -> bool, show: N -> string)
    returns (key: string)
    ensures key == Key(qualifiers, less, show)
  {
    var names: seq<N> := [];
    for i := 0 to |qualifiers|
      invariant names == TreeSetOf(qualifiers[..i], less)
    {
      assert qualifiers[..i + 1][..i] == qualifiers[..i];
      names := Insert(names, qualifiers[i], less);
    }
    assert qualifiers[..|qualifiers|] == qualifiers;
    key := Join(Rendered(names, show), Separator);
  }

  /** A strictly sorted sequence is determined by its elements. */
  lemma {:induction false} SortedUnique<N(!new)>(s: seq<N>, t: seq<N>, less: (N, N) -> bool)
    requires StrictTotalOrder(less)
    requires StrictlySorted(s, less) && StrictlySorted(t, less)
    requires forall y :: y in s <==> y in t
    ensures s == t
  {
    assert |s| != 0 ==> s[0] in t;
    assert |t| != 0 ==> t[0] in s;
    if |s| != 0 {
      assert forall y :: y in s ==> y == s[0] || less(s[0], y);
      assert forall y :: y in t ==> y == t[0] || less(t[0], y);
      assert s[0] == t[0];
      forall y
        ensures y in s[1..] <==> y in t[1..]
      {
        if y in s[1..] {
          var i :| 1 <= i < |s| && s[i] == y;
          assert less(s[0], y);
          assert y != t[0] && y in t;
        }
        if y in t[1..] {
          var j :| 1 <= j < |t| && t[j] == y;
          assert less(t[0], y);
          assert y != s[0] && y in s;
        }
      }
      SortedUnique(s[1..], t[1..], less);
      assert s == [s[0]] + s[1..] && t == [t[0]] + t[1..];
    }
  }

  /**
    The key depends only on the set of qualifier names: reordering or repeating
    them gives the same key.
  */
  lemma KeyDependsOnlyOnNames<N(!new)>(a: seq<N>, b: seq<N>, less: (N, N) -> bool, show: N -> string)
    requires StrictTotalOrder(less)
    requires forall y :: y in a <==> y in b
    ensures Key(a, less, show) == Key(b, less, show)
  {
    SortedUnique(TreeSetOf(a, less), TreeSetOf(b, less), less);
  }

  /** Two beans whose qualifier lists are permutations of each other get the same key. */
  lemma KeyIgnoresOrder<N(!new)>(a: seq<N>, b: seq<N>, less: (N, N) -> bool, show: N -> string)
    requires StrictTotalOrder(less)
    requires multiset(a) == multiset(b)
    ensures Key(a, less, show) == Key(b, less, show)
  {
    forall y
      ensures y in a <==> y in b
    {
      assert y in a <==> y in multiset(a);
      assert y in b <==> y in multiset(b);
    }
    KeyDependsOnlyOnNames(a, b, less, show);
  }

  /** Repeating a qualifier that is already present does not change the key. */
  lemma KeyIgnoresRepetition<N(!new)>(a: seq<N>, x: N, less: (N, N) -> bool, show: N -> string)
    requires StrictTotalOrder(less)
    requires x in a
    ensures Key(a + [x], less, show) == Key(a, less, show)
  {
    KeyDependsOnlyOnNames(a + [x], a, less, show);
  }

  /**
    The key is not injective: two different sets of names can render to the same
    key because "_" may occur inside a rendered name. Here {0} renders as "a_b"
    and {1, 2} as "a" and "b".
  */
  lemma KeyCollides()
    ensures var less := (x: int, y: int) => x < y;
            var show := (x: int) => if x == 0 then "a_b" else if x == 1 then "a" else "b";
            Key([0], less, show) == Key([1, 2], less, show) == "a_b"
  {
    var less := (x: int, y: int) => x < y;
    var show := (x: int) => if x == 0 then "a_b" else if x == 1 then "a" else "b";
    assert [1, 2][..1] == [1];
    assert TreeSetOf([1], less) == [1];
    assert TreeSetOf([1, 2], less) == [1, 2];
    assert Rendered([1, 2], show) == ["a", "b"];
    assert TreeSetOf([0], less) == [0];
  }
}
