/** Which associations a duplication follows, and in what order: the include/exclude filter,
    the classification of macros, and the reordering that moves `:through` associations back. */
module Selection {
  import opened Records

  /** `a` is `b` with some elements left out, the rest in their order. */
  predicate IsSubsequence<T(==)>(a: seq<T>, b: seq<T>)
    decreases |b|
  {
    a == [] || (b != [] && if a[0] == b[0] then IsSubsequence(a[1..], b[1..]) else IsSubsequence(a, b[1..]))
  }

  /** `s` is a shuffle of `a` and `b`: every element of `s` comes from exactly one of them, and
      each of `a` and `b` appears in `s` in its own order. */
  predicate Interleaving<T(==)>(s: seq<T>, a: seq<T>, b: seq<T>)
    decreases |s|
  {
    if s == [] then a == [] && b == []
    else
      (a != [] && a[0] == s[0] && Interleaving(s[1..], a[1..], b)) ||
      (b != [] && b[0] == s[0] && Interleaving(s[1..], a, b[1..]))
  }

  lemma {:induction false} InterleavingIsPermutation<T>(s: seq<T>, a: seq<T>, b: seq<T>)
    requires Interleaving(s, a, b)
    ensures multiset(s) == multiset(a) + multiset(b)
    decreases |s|
  {
    if s != [] {
      assert s == [s[0]] + s[1..];
      if a != [] && a[0] == s[0] && Interleaving(s[1..], a[1..], b) {
        InterleavingIsPermutation(s[1..], a[1..], b);
        assert a == [a[0]] + a[1..];
      } else {
        InterleavingIsPermutation(s[1..], a, b[1..]);
        assert b == [b[0]] + b[1..];
      }
    }
  }

  /** `find_all`: the elements of `s` that satisfy `keep`, in their order and with their
      multiplicity. */
  function Filter<T(!new)>(s: seq<T>, keep: T -> bool): (r: seq<T>)
    ensures IsSubsequence(r, s)
    ensures forall x :: multiset(r)[x] == if keep(x) then multiset(s)[x] else 0
    ensures forall x :: x in r <==> x in s && keep(x)
    decreases |s|
  {
    if s == [] then []
    else
      var rest := Filter(s[1..], keep);
      assert s == [s[0]] + s[1..];
      if keep(s[0]) then
        assert ([s[0]] + rest)[1..] == rest;
        [s[0]] + rest
      else
        rest
  }

  /** DUPLICABLE_ASSOCIATIONS of the class, or the empty list when the constant is missing. */
  function DefaultAssociations(cls: ModelClass): (names: seq<string>)
  {
    cls.duplicableAssociations.GetOr([])
  }

  /** `options[:associations] || default_associations`: a given list wins even when empty. */
  function AssociationsToBuild(given: Option<seq<string>>, cls: ModelClass): (names: seq<string>)
  {
    if given.Some? then given.value else DefaultAssociations(cls)
  }

  /** `options[:exclude_associations] || []`. */
  function AssociationsToAvoid(given: Option<seq<string>>): (names: seq<string>)
  {
    given.GetOr([])
  }

  /** Whether the filter lets an association through: the include list decides when it has
      elements, and the exclude list otherwise. */
  predicate Chosen(a: Association, build: seq<string>, avoid: seq<string>) {
    if |build| > 0 then a.name in build else a.name !in avoid
  }

  lemma {:induction false} SubsequenceOfItself<T>(s: seq<T>)
    ensures IsSubsequence(s, s)
    decreases |s|
  {
    if s != [] {
      SubsequenceOfItself(s[1..]);
    }
  }

  /** `all_associations`. */
  function AllAssociations(reflections: seq<Association>, build: seq<string>, avoid: seq<string>): (r: seq<Association>)
    ensures |build| == 0 && |avoid| == 0 ==> r == reflections
    ensures IsSubsequence(r, reflections)
    ensures forall a :: multiset(r)[a] == if Chosen(a, build, avoid) then multiset(reflections)[a] else 0
    ensures forall a :: a in r <==> a in reflections && Chosen(a, build, avoid)
  {
    if |build| == 0 && |avoid| == 0 then
      SubsequenceOfItself(reflections);
      reflections
    else if |build| > 0 then
      Filter(reflections, (a: Association) => a.name in build)
    else
      Filter(reflections, (a: Association) => a.name !in avoid)
  }

  /** What the options select from the reflections. A given include list wins even when it is
      empty (an empty array is truthy), and then the exclude list alone decides, whatever
      DUPLICABLE_ASSOCIATIONS says. With no include list the class constant takes its place,
      and a missing or empty constant lets the exclude list decide. */
  lemma OptionSelection(reflections: seq<Association>, cls: ModelClass,
                        build: Option<seq<string>>, avoid: Option<seq<string>>)
    ensures var r := AllAssociations(reflections, AssociationsToBuild(build, cls), AssociationsToAvoid(avoid));
            var named := if build.Some? then build.value else cls.duplicableAssociations.GetOr([]);
            && IsSubsequence(r, reflections)
            && (forall a :: a in r <==>
                  (a in reflections && if |named| > 0 then a.name in named else a.name !in avoid.GetOr([])))
            && (build == Some([]) && avoid.None? ==> r == reflections)
            && (build.None? && avoid.None? && cls.duplicableAssociations.GetOr([]) == [] ==> r == reflections)
  {
  }

  /** The test `duplicable_associations` applies: the macro is one of has_many and has_one, and
      it is not a has_many with a `:through` option. */
  predicate Duplicable(a: Association) {
    var shouldKeep := a.macro in {HasMany, HasOne};
    if a.macro == HasMany && a.through then false else shouldKeep
  }

  /** `duplicable_associations`: has_one (with or without `:through`) and plain has_many are
      kept in their order; belongs_to, has_and_belongs_to_many and has_many `:through` are not. */
  function DuplicableAssociations(all: seq<Association>): (r: seq<Association>)
    ensures IsSubsequence(r, all)
    ensures forall a :: a in r <==> a in all && (a.macro == HasOne || (a.macro == HasMany && !a.through))
    ensures forall a :: multiset(r)[a] == if a.macro == HasOne || (a.macro == HasMany && !a.through) then multiset(all)[a] else 0
  {
    Filter(all, Duplicable)
  }

  predicate IsThrough(a: Association) { a.through }

  predicate IsDirect(a: Association) { !a.through }

  /** The two lists `sort_through_associations` ends with: the associations left in place and
      the `:through` ones it took out, in the order it took them. */
  datatype Split = Split(kept: seq<Association>, moved: seq<Association>)

  /** The scan `sort_through_associations` performs. Deleting the current element from the
      array being iterated shifts its successor into the current slot, and the iteration
      then steps past it: the element after a moved one is never looked at and stays. */
  function ThroughScan(s: seq<Association>): Split
    decreases |s|
  {
    if s == [] then Split([], [])
    else if !s[0].through then
      var rest := ThroughScan(s[1..]);
      Split([s[0]] + rest.kept, rest.moved)
    else if |s| == 1 then Split([], [s[0]])
    else
      var rest := ThroughScan(s[2..]);
      Split([s[1]] + rest.kept, [s[0]] + rest.moved)
  }

  /** Moving the first element of `b` to the end of `a` leaves the concatenation unchanged. */
  lemma ShiftOne<T>(a: seq<T>, b: seq<T>)
    requires b != []
    ensures a + b == (a + [b[0]]) + b[1..]
  {
    assert b == [b[0]] + b[1..];
  }

  /** One step of the scan, seen from the whole input: with `kept` and `moved` already decided
      and `rest` still to go, a direct head is kept; a `:through` head is moved and its
      successor kept without being examined. */
  lemma ThroughScanStep(s: seq<Association>, kept: seq<Association>, moved: seq<Association>, rest: seq<Association>)
    requires rest != []
    requires ThroughScan(s).kept == kept + ThroughScan(rest).kept
    requires ThroughScan(s).moved == moved + ThroughScan(rest).moved
    ensures !rest[0].through ==>
              && ThroughScan(s).kept == (kept + [rest[0]]) + ThroughScan(rest[1..]).kept
              && ThroughScan(s).moved == moved + ThroughScan(rest[1..]).moved
    ensures rest[0].through && |rest| == 1 ==>
              && ThroughScan(s).kept == kept + ThroughScan([]).kept
              && ThroughScan(s).moved == (moved + [rest[0]]) + ThroughScan([]).moved
    ensures rest[0].through && |rest| >= 2 ==>
              && ThroughScan(s).kept == (kept + [rest[1]]) + ThroughScan(rest[2..]).kept
              && ThroughScan(s).moved == (moved + [rest[0]]) + ThroughScan(rest[2..]).moved
  {
    var step := ThroughScan(rest);
    if !rest[0].through {
      var next := ThroughScan(rest[1..]);
      assert step.kept == [rest[0]] + next.kept && step.moved == next.moved;
      PushFront(kept, rest[0], next.kept);
    } else if |rest| == 1 {
      assert step == Split([], [rest[0]]);
    } else {
      var next := ThroughScan(rest[2..]);
      assert step.kept == [rest[1]] + next.kept && step.moved == [rest[0]] + next.moved;
      PushFront(kept, rest[1], next.kept);
      PushFront(moved, rest[0], next.moved);
    }
  }

  /** Appending `x` to the front part instead of the back part leaves the concatenation as it is. */
  lemma PushFront<T>(a: seq<T>, x: T, b: seq<T>)
    ensures a + ([x] + b) == (a + [x]) + b
  {
  }

  /** The associations in the order `sort_through_associations` leaves them. */
  function SortedThrough(s: seq<Association>): seq<Association> {
    ThroughScan(s).kept + ThroughScan(s).moved
  }

  /** The input is a shuffle of what stays and what moves, so the reordering is a permutation in
      which both groups keep their relative order; only `:through` associations move, and
      every association that is not `:through` stays. */
  lemma {:induction false} ThroughScanShape(s: seq<Association>)
    ensures Interleaving(s, ThroughScan(s).kept, ThroughScan(s).moved)
    ensures forall a :: a in ThroughScan(s).moved ==> a.through
    ensures Filter(ThroughScan(s).kept, IsDirect) == Filter(s, IsDirect)
    decreases |s|
  {
    var sp := ThroughScan(s);
    if s == [] {
    } else if !s[0].through {
      ThroughScanShape(s[1..]);
      var rest := ThroughScan(s[1..]);
      assert ([s[0]] + rest.kept)[1..] == rest.kept;
      assert sp.kept[1..] == rest.kept;
    } else if |s| == 1 {
      assert sp.moved[1..] == [];
      assert s[1..] == [];
    } else {
      ThroughScanShape(s[2..]);
      var rest := ThroughScan(s[2..]);
      assert sp.moved[1..] == rest.moved;
      assert sp.kept[1..] == rest.kept;
      assert s[1..][1..] == s[2..];
      assert Interleaving(s[1..], sp.kept, rest.moved);
      if IsDirect(s[1]) {
        assert Filter(s[1..], IsDirect) == [s[1]] + Filter(s[2..], IsDirect);
        assert Filter(sp.kept, IsDirect) == [s[1]] + Filter(rest.kept, IsDirect);
      } else {
        assert Filter(s[1..], IsDirect) == Filter(s[2..], IsDirect);
        assert Filter(sp.kept, IsDirect) == Filter(rest.kept, IsDirect);
      }
    }
  }

  lemma SortThroughIsPermutation(s: seq<Association>)
    ensures multiset(SortedThrough(s)) == multiset(s)
  {
    ThroughScanShape(s);
    InterleavingIsPermutation(s, ThroughScan(s).kept, ThroughScan(s).moved);
  }

  /** No two `:through` associations are next to each other. */
  predicate NoAdjacentThrough(s: seq<Association>) {
    forall i :: 0 < i < |s| ==> !(s[i - 1].through && s[i].through)
  }

  /** Every `:through` association comes after every other one. */
  predicate ThroughLast(s: seq<Association>) {
    forall i, j :: 0 <= i < j < |s| && s[i].through ==> s[j].through
  }

  /** When no two `:through` associations are adjacent, the reordering does what the comment in
      the source promises: the direct associations in order, then the `:through` ones in order. */
  lemma {:induction false} SortThroughSeparated(s: seq<Association>)
    requires NoAdjacentThrough(s)
    ensures SortedThrough(s) == Filter(s, IsDirect) + Filter(s, IsThrough)
    ensures ThroughLast(SortedThrough(s))
    decreases |s|
  {
    SeparatedScan(s);
    DirectThenThrough(Filter(s, IsDirect), Filter(s, IsThrough));
  }

  lemma DirectThenThrough(d: seq<Association>, t: seq<Association>)
    requires forall a :: a in d ==> !a.through
    requires forall a :: a in t ==> a.through
    ensures ThroughLast(d + t)
  {
    forall i, j | 0 <= i < j < |d + t| && (d + t)[i].through ensures (d + t)[j].through {
      assert i >= |d|;
      assert (d + t)[j] == t[j - |d|] && t[j - |d|] in t;
    }
  }

  lemma {:induction false} SeparatedScan(s: seq<Association>)
    requires NoAdjacentThrough(s)
    ensures ThroughScan(s).kept == Filter(s, IsDirect)
    ensures ThroughScan(s).moved == Filter(s, IsThrough)
    decreases |s|
  {
    if s == [] {
    } else if !s[0].through {
      assert NoAdjacentThrough(s[1..]) by {
        forall i | 0 < i < |s[1..]| ensures !(s[1..][i - 1].through && s[1..][i].through) {
          assert s[1..][i - 1] == s[i] && s[1..][i] == s[i + 1];
        }
      }
      SeparatedScan(s[1..]);
    } else if |s| == 1 {
    } else {
      assert !s[1].through by {
        assert !(s[0].through && s[1].through);
      }
      assert NoAdjacentThrough(s[2..]) by {
        forall i | 0 < i < |s[2..]| ensures !(s[2..][i - 1].through && s[2..][i].through) {
          assert s[2..][i - 1] == s[i + 1] && s[2..][i] == s[i + 2];
        }
      }
      SeparatedScan(s[2..]);
      assert s[1..][1..] == s[2..];
    }
  }

  /** An association that is not `:through` is never moved. */
  lemma {:induction false} DirectStays(s: seq<Association>, a: Association)
    requires a in s && !a.through
    ensures a in ThroughScan(s).kept
    decreases |s|
  {
    if !s[0].through {
      if a != s[0] {
        DirectStays(s[1..], a);
      }
    } else if a != s[1] {
      assert a in s[2..];
      DirectStays(s[2..], a);
    }
  }

  /** The iteration skips the successor of every association it moves: when the first two
      associations are both `:through` and some association is not, the second `:through`
      association ends up first, ahead of a direct one. */
  lemma AdjacentThroughStays(s: seq<Association>, direct: Association)
    requires |s| >= 2 && s[0].through && s[1].through
    requires direct in s && !direct.through
    ensures SortedThrough(s)[0] == s[1]
    ensures !ThroughLast(SortedThrough(s))
  {
    DirectStays(s, direct);
    var kept := ThroughScan(s).kept;
    assert kept[0] == s[1];
    var j :| 0 <= j < |kept| && kept[j] == direct;
    var r := SortedThrough(s);
    assert r[0] == s[1] && r[j] == direct && 0 < j;
  }
}
