/** The duplication as a function of the shared state: what `Duplicate.create` and `execute`
    leave in the identifier table, the list of copies and the database, and the facts about
    them. The class in module RailsDeepCopy is proved to follow these functions. */
module Engine {
  import opened Records
  import opened Selection
  import opened Overrides

  /** The state shared by every level of one duplication: the identifier table (`id_hash`),
      the list of copies made so far (`duplicated_objects`) and the next identifier the
      database assigns. */
  datatype World = World(idHash: map<string, Value>, copies: seq<Copy>, nextId: nat)

  /** Whether the database saves a copy when asked with the given `validate` flag. */
  type Acceptance = (Copy, bool) -> bool

  /** `setup_associations`: the associations a Duplicate built for `r` follows, in order. */
  function Arrange(r: Record, build: seq<string>, avoid: seq<string>): seq<Association> {
    SortedThrough(DuplicableAssociations(AllAssociations(Reflections(r), build, avoid)))
  }

  /** The copy of `r` after `implement_new_object_differences` with these changes. */
  function Prepared(r: Record, changes: map<string, Value>): Copy {
    Copy(r.cls, Overridden(r.attributes, MergedOverrides(r.cls.duplicableDefaults, changes)), None)
  }

  /** `Duplicate.create(r, options)` started in world `w`. */
  function Run(r: Record, given: Option<map<string, Value>>, build: Option<seq<string>>,
               avoid: Option<seq<string>>, w: World, accepts: Acceptance): World
    decreases Size(r), 3, 0
  {
    Visit(r, ConstructionChanges(given, w.idHash),
          Arrange(r, AssociationsToBuild(build, r.cls), AssociationsToAvoid(avoid)), w, accepts)
  }

  /** `execute` on a Duplicate for `r` whose changes and associations are already set up:
      prepare the copy, save it without validation, record its identifier if the save
      succeeded, append it, duplicate the related records association by association, and
      finally delete the entry for its class. */
  function Visit(r: Record, changes: map<string, Value>, assocs: seq<Association>, w: World,
                 accepts: Acceptance): World
    decreases Size(r), 2, 0
  {
    var copy := Prepared(r, changes);
    var ok := accepts(copy, false);
    var field := IdField(r.cls);
    var saved := if ok then copy.(id := Some(w.nextId)) else copy;
    var started := World(if ok then w.idHash[field := IdValue(saved)] else w.idHash,
                        w.copies + [saved],
                        if ok then w.nextId + 1 else w.nextId);
    var done := VisitAssociations(r, assocs, started, accepts);
    done.(idHash := done.idHash - {field})
  }

  /** The outer loop of `execute` over `assocs`. */
  function VisitAssociations(r: Record, assocs: seq<Association>, w: World, accepts: Acceptance): World
    decreases Size(r), 1, |assocs|
  {
    if assocs == [] then w
    else
      var last := assocs[|assocs| - 1];
      VisitRecords(r, RelatedRecords(r, last.name), VisitAssociations(r, assocs[..|assocs| - 1], w, accepts), accepts)
  }

  /** The inner loop of `execute`: a child Duplicate for each related record, sharing the
      identifier table and the list, with no changes of its own. */
  function VisitRecords(r: Record, rs: seq<Record>, w: World, accepts: Acceptance): World
    requires forall c :: c in rs ==> Size(c) < Size(r)
    decreases Size(r), 0, |rs|
  {
    if rs == [] then w
    else Run(rs[|rs| - 1], None, None, None, VisitRecords(r, rs[..|rs| - 1], w, accepts), accepts)
  }

  // The records a duplication visits, in the order it visits them: a reference definition
  // that does not depend on the shared state.

  function RunVisited(r: Record, build: Option<seq<string>>, avoid: Option<seq<string>>): seq<Record>
    decreases Size(r), 3, 0
  {
    Visited(r, Arrange(r, AssociationsToBuild(build, r.cls), AssociationsToAvoid(avoid)))
  }

  function Visited(r: Record, assocs: seq<Association>): seq<Record>
    decreases Size(r), 2, 0
  {
    [r] + AssociationsVisited(r, assocs)
  }

  function AssociationsVisited(r: Record, assocs: seq<Association>): seq<Record>
    decreases Size(r), 1, |assocs|
  {
    if assocs == [] then []
    else
      var last := assocs[|assocs| - 1];
      AssociationsVisited(r, assocs[..|assocs| - 1]) + RecordsVisited(r, RelatedRecords(r, last.name))
  }

  function RecordsVisited(r: Record, rs: seq<Record>): seq<Record>
    requires forall c :: c in rs ==> Size(c) < Size(r)
    decreases Size(r), 0, |rs|
  {
    if rs == [] then []
    else RecordsVisited(r, rs[..|rs| - 1]) + RunVisited(rs[|rs| - 1], None, None)
  }

  /** The identifier fields of the classes of `rs`. */
  function IdFields(rs: seq<Record>): set<string> {
    set x | x in rs :: IdField(x.cls)
  }

  lemma IdFieldsConcat(a: seq<Record>, b: seq<Record>)
    ensures IdFields(a + b) == IdFields(a) + IdFields(b)
  {
    assert forall x :: x in a + b <==> x in a || x in b;
  }

  /** `c` is a copy of `x`: the same class and the same attribute names. */
  predicate CopyOf(c: Copy, x: Record) {
    c.cls == x.cls && c.attributes.Keys == x.attributes.Keys
  }

  /** Going from `w` to `w2` while visiting `visited`: one copy per visited record is appended in
      visiting order, the earlier copies stay, every visited class's identifier entry is gone
      and nothing else in the table changed, and identifiers are only ever handed out forward. */
  ghost predicate Extends(w: World, w2: World, visited: seq<Record>) {
    && |w2.copies| == |w.copies| + |visited|
    && w2.copies[..|w.copies|] == w.copies
    && (forall k :: 0 <= k < |visited| ==> CopyOf(w2.copies[|w.copies| + k], visited[k]))
    && w2.idHash == w.idHash - IdFields(visited)
    && w.nextId <= w2.nextId
    && FreshIds(w, w2)
  }

  /** Every identifier on a copy appended between `w` and `w2` was handed out in between, and
      the identifiers increase in the order the copies were appended: no two copies share one. */
  ghost predicate FreshIds(w: World, w2: World) {
    && (forall k :: |w.copies| <= k < |w2.copies| && w2.copies[k].id.Some? ==>
          w.nextId <= w2.copies[k].id.value < w2.nextId)
    && (forall k, l :: |w.copies| <= k < l < |w2.copies| && w2.copies[k].id.Some? && w2.copies[l].id.Some? ==>
          w2.copies[k].id.value < w2.copies[l].id.value)
  }

  lemma FreshIdsChain(w0: World, w1: World, w2: World)
    requires |w0.copies| <= |w1.copies| <= |w2.copies| && w2.copies[..|w1.copies|] == w1.copies
    requires w0.nextId <= w1.nextId <= w2.nextId
    requires FreshIds(w0, w1) && FreshIds(w1, w2)
    ensures FreshIds(w0, w2)
  {
    forall k | |w0.copies| <= k < |w1.copies| ensures w2.copies[k] == w1.copies[k] {
      assert w2.copies[k] == w2.copies[..|w1.copies|][k];
    }
  }

  lemma ExtendsChain(w0: World, w1: World, w2: World, t1: seq<Record>, t2: seq<Record>)
    requires Extends(w0, w1, t1) && Extends(w1, w2, t2)
    ensures Extends(w0, w2, t1 + t2)
  {
    FreshIdsChain(w0, w1, w2);
    IdFieldsConcat(t1, t2);
    assert w2.copies[..|w0.copies|] == w2.copies[..|w1.copies|][..|w0.copies|];
    forall k | 0 <= k < |t1 + t2| ensures CopyOf(w2.copies[|w0.copies| + k], (t1 + t2)[k]) {
      if k < |t1| {
        assert w2.copies[|w0.copies| + k] == w2.copies[..|w1.copies|][|w0.copies| + k];
      } else {
        assert w2.copies[|w0.copies| + k] == w2.copies[|w1.copies| + (k - |t1|)];
      }
    }
  }

  /** A duplication appends exactly one copy per visited record, in pre-order (the record
      before what its associations reach, associations in order), and leaves the table as it
      found it minus the entries of every visited class. */
  lemma {:induction false} RunExtends(r: Record, given: Option<map<string, Value>>, build: Option<seq<string>>,
                                      avoid: Option<seq<string>>, w: World, accepts: Acceptance)
    ensures Extends(w, Run(r, given, build, avoid, w, accepts), RunVisited(r, build, avoid))
    decreases Size(r), 3, 0
  {
    VisitExtends(r, ConstructionChanges(given, w.idHash),
                 Arrange(r, AssociationsToBuild(build, r.cls), AssociationsToAvoid(avoid)), w, accepts);
  }

  lemma {:induction false} VisitExtends(r: Record, changes: map<string, Value>, assocs: seq<Association>,
                                        w: World, accepts: Acceptance)
    ensures Extends(w, Visit(r, changes, assocs, w, accepts), Visited(r, assocs))
    decreases Size(r), 2, 0
  {
    var copy := Prepared(r, changes);
    var ok := accepts(copy, false);
    var field := IdField(r.cls);
    var saved := if ok then copy.(id := Some(w.nextId)) else copy;
    var started := World(if ok then w.idHash[field := IdValue(saved)] else w.idHash,
                        w.copies + [saved],
                        if ok then w.nextId + 1 else w.nextId);
    var done := VisitAssociations(r, assocs, started, accepts);
    AssociationsExtends(r, assocs, started, accepts);
    assert started.idHash - {field} == w.idHash - {field};
    ExtendsAroundVisit(r, saved, w, started, done, AssociationsVisited(r, assocs));
  }

  /** One `execute` assembled from its parts: its own copy appended and its own entry written,
      then the associations visited, then its own entry deleted. */
  lemma ExtendsAroundVisit(r: Record, saved: Copy, w: World, started: World, done: World, t: seq<Record>)
    requires CopyOf(saved, r) && started.copies == w.copies + [saved]
    requires started.idHash - {IdField(r.cls)} == w.idHash - {IdField(r.cls)}
    requires w.nextId <= started.nextId && FreshIds(w, started)
    requires Extends(started, done, t)
    ensures Extends(w, done.(idHash := done.idHash - {IdField(r.cls)}), [r] + t)
  {
    var field := IdField(r.cls);
    var result := done.(idHash := done.idHash - {field});
    FreshIdsChain(w, started, done);
    IdFieldsConcat([r], t);
    assert IdFields([r]) == {field};
    calc {
      result.idHash;
      (started.idHash - IdFields(t)) - {field};
      (started.idHash - {field}) - IdFields(t);
      (w.idHash - {field}) - IdFields(t);
      w.idHash - IdFields([r] + t);
    }
    assert result.copies[..|w.copies|] == done.copies[..|started.copies|][..|w.copies|];
    forall k | 0 <= k < |[r] + t| ensures CopyOf(result.copies[|w.copies| + k], ([r] + t)[k]) {
      if k == 0 {
        assert result.copies[|w.copies|] == done.copies[..|started.copies|][|w.copies|];
      } else {
        assert result.copies[|w.copies| + k] == done.copies[|started.copies| + (k - 1)];
      }
    }
  }

  lemma {:induction false} AssociationsExtends(r: Record, assocs: seq<Association>, w: World, accepts: Acceptance)
    ensures Extends(w, VisitAssociations(r, assocs, w, accepts), AssociationsVisited(r, assocs))
    decreases Size(r), 1, |assocs|
  {
    if assocs == [] {
      assert w.copies[..|w.copies|] == w.copies;
    } else {
      var front := assocs[..|assocs| - 1];
      var rs := RelatedRecords(r, assocs[|assocs| - 1].name);
      var mid := VisitAssociations(r, front, w, accepts);
      AssociationsExtends(r, front, w, accepts);
      RecordsExtends(r, rs, mid, accepts);
      ExtendsChain(w, mid, VisitRecords(r, rs, mid, accepts), AssociationsVisited(r, front), RecordsVisited(r, rs));
    }
  }

  lemma {:induction false} RecordsExtends(r: Record, rs: seq<Record>, w: World, accepts: Acceptance)
    requires forall c :: c in rs ==> Size(c) < Size(r)
    ensures Extends(w, VisitRecords(r, rs, w, accepts), RecordsVisited(r, rs))
    decreases Size(r), 0, |rs|
  {
    if rs == [] {
      assert w.copies[..|w.copies|] == w.copies;
    } else {
      var front := rs[..|rs| - 1];
      var c := rs[|rs| - 1];
      var mid := VisitRecords(r, front, w, accepts);
      RecordsExtends(r, front, w, accepts);
      RunExtends(c, None, None, None, mid, accepts);
      ExtendsChain(w, mid, Run(c, None, None, None, mid, accepts), RecordsVisited(r, front), RunVisited(c, None, None));
    }
  }

  /** Every copy made while visiting `visited` whose record has attribute `f` holds `v` there. */
  ghost predicate Stamped(w: World, w2: World, visited: seq<Record>, f: string, v: Value) {
    && |w2.copies| == |w.copies| + |visited|
    && forall k :: 0 <= k < |visited| && f in visited[k].attributes ==>
         f in w2.copies[|w.copies| + k].attributes && w2.copies[|w.copies| + k].attributes[f] == v
  }

  lemma StampedChain(w0: World, w1: World, w2: World, t1: seq<Record>, t2: seq<Record>, f: string, v: Value)
    requires Extends(w0, w1, t1) && Extends(w1, w2, t2)
    requires Stamped(w0, w1, t1, f, v) && Stamped(w1, w2, t2, f, v)
    ensures Stamped(w0, w2, t1 + t2, f, v)
  {
    forall k | 0 <= k < |t1 + t2| && f in (t1 + t2)[k].attributes
      ensures f in w2.copies[|w0.copies| + k].attributes && w2.copies[|w0.copies| + k].attributes[f] == v
    {
      if k < |t1| {
        assert w2.copies[|w0.copies| + k] == w2.copies[..|w1.copies|][|w0.copies| + k];
      } else {
        assert w2.copies[|w0.copies| + k] == w2.copies[|w1.copies| + (k - |t1|)];
      }
    }
  }

  /** While the table maps `f` to `v` and nothing visited closes that entry, every copy whose
      record has attribute `f` is given `v` for it: the identifier table wins over the class
      defaults. */
  lemma {:induction false} RunStamped(r: Record, given: Option<map<string, Value>>, build: Option<seq<string>>,
                                      avoid: Option<seq<string>>, w: World, accepts: Acceptance, f: string, v: Value)
    requires f in w.idHash && w.idHash[f] == v
    requires f !in IdFields(RunVisited(r, build, avoid))
    ensures Stamped(w, Run(r, given, build, avoid, w, accepts), RunVisited(r, build, avoid), f, v)
    decreases Size(r), 3, 0
  {
    VisitStamped(r, ConstructionChanges(given, w.idHash),
                 Arrange(r, AssociationsToBuild(build, r.cls), AssociationsToAvoid(avoid)), w, accepts, f, v);
  }

  lemma {:induction false} VisitStamped(r: Record, changes: map<string, Value>, assocs: seq<Association>,
                                        w: World, accepts: Acceptance, f: string, v: Value)
    requires f in w.idHash && w.idHash[f] == v && f in changes && changes[f] == v
    requires f !in IdFields(Visited(r, assocs))
    ensures Stamped(w, Visit(r, changes, assocs, w, accepts), Visited(r, assocs), f, v)
    decreases Size(r), 2, 0
  {
    var copy := Prepared(r, changes);
    var ok := accepts(copy, false);
    var field := IdField(r.cls);
    var saved := if ok then copy.(id := Some(w.nextId)) else copy;
    var started := World(if ok then w.idHash[field := IdValue(saved)] else w.idHash,
                        w.copies + [saved],
                        if ok then w.nextId + 1 else w.nextId);
    var done := VisitAssociations(r, assocs, started, accepts);
    var t := AssociationsVisited(r, assocs);
    IdFieldsConcat([r], t);
    assert field in IdFields([r]);
    AssociationsExtends(r, assocs, started, accepts);
    AssociationsStamped(r, assocs, started, accepts, f, v);
    VisitOwnCopy(r, changes, assocs, w, accepts);
    ShiftStamped(w, started, done, r, t, f, v);
  }

  lemma {:induction false} AssociationsStamped(r: Record, assocs: seq<Association>, w: World, accepts: Acceptance,
                                               f: string, v: Value)
    requires f in w.idHash && w.idHash[f] == v
    requires f !in IdFields(AssociationsVisited(r, assocs))
    ensures Stamped(w, VisitAssociations(r, assocs, w, accepts), AssociationsVisited(r, assocs), f, v)
    decreases Size(r), 1, |assocs|
  {
    if assocs != [] {
      var front := assocs[..|assocs| - 1];
      var rs := RelatedRecords(r, assocs[|assocs| - 1].name);
      var mid := VisitAssociations(r, front, w, accepts);
      IdFieldsConcat(AssociationsVisited(r, front), RecordsVisited(r, rs));
      AssociationsExtends(r, front, w, accepts);
      AssociationsStamped(r, front, w, accepts, f, v);
      RecordsExtends(r, rs, mid, accepts);
      RecordsStamped(r, rs, mid, accepts, f, v);
      StampedChain(w, mid, VisitRecords(r, rs, mid, accepts), AssociationsVisited(r, front), RecordsVisited(r, rs), f, v);
    }
  }

  lemma {:induction false} RecordsStamped(r: Record, rs: seq<Record>, w: World, accepts: Acceptance, f: string, v: Value)
    requires forall c :: c in rs ==> Size(c) < Size(r)
    requires f in w.idHash && w.idHash[f] == v
    requires f !in IdFields(RecordsVisited(r, rs))
    ensures Stamped(w, VisitRecords(r, rs, w, accepts), RecordsVisited(r, rs), f, v)
    decreases Size(r), 0, |rs|
  {
    if rs != [] {
      var front := rs[..|rs| - 1];
      var c := rs[|rs| - 1];
      var mid := VisitRecords(r, front, w, accepts);
      IdFieldsConcat(RecordsVisited(r, front), RunVisited(c, None, None));
      RecordsExtends(r, front, w, accepts);
      RecordsStamped(r, front, w, accepts, f, v);
      RunExtends(c, None, None, None, mid, accepts);
      RunStamped(c, None, None, None, mid, accepts, f, v);
      StampedChain(w, mid, Run(c, None, None, None, mid, accepts), RecordsVisited(r, front), RunVisited(c, None, None), f, v);
    }
  }

  /** The point of the identifier table: once a copy is saved under a new identifier, every
      copy made below it whose record has that class's `_id` attribute refers to the new
      identifier, provided no record below it has the same identifier field (a record of the
      same class would close the entry early). */
  lemma DescendantsSeeParentId(r: Record, changes: map<string, Value>, assocs: seq<Association>,
                               w: World, accepts: Acceptance)
    requires accepts(Prepared(r, changes), false)
    requires IdField(r.cls) !in IdFields(AssociationsVisited(r, assocs))
    ensures var w2 := Visit(r, changes, assocs, w, accepts);
            var t := Visited(r, assocs);
            var f := IdField(r.cls);
            && |w2.copies| == |w.copies| + |t|
            && w2.copies[|w.copies|].id == Some(w.nextId)
            && forall k :: 1 <= k < |t| && f in t[k].attributes ==>
                 f in w2.copies[|w.copies| + k].attributes && w2.copies[|w.copies| + k].attributes[f] == Id(w.nextId)
  {
    var copy := Prepared(r, changes);
    var field := IdField(r.cls);
    var saved := copy.(id := Some(w.nextId));
    var started := World(w.idHash[field := IdValue(saved)], w.copies + [saved], w.nextId + 1);
    var done := VisitAssociations(r, assocs, started, accepts);
    var t := AssociationsVisited(r, assocs);
    AssociationsExtends(r, assocs, started, accepts);
    AssociationsStamped(r, assocs, started, accepts, field, Id(w.nextId));
    VisitOwnCopy(r, changes, assocs, w, accepts);
    ShiftStamped(w, started, done, r, t, field, Id(w.nextId));
  }

  /** The copies stamped below a record, counted from the record's own copy. */
  lemma ShiftStamped(w: World, started: World, done: World, r: Record, t: seq<Record>, f: string, v: Value)
    requires |started.copies| == |w.copies| + 1
    requires Stamped(started, done, t, f, v)
    ensures forall k :: 1 <= k < |[r] + t| && f in ([r] + t)[k].attributes ==>
              f in done.copies[|w.copies| + k].attributes && done.copies[|w.copies| + k].attributes[f] == v
  {
    forall k | 1 <= k < |[r] + t| && f in ([r] + t)[k].attributes
      ensures f in done.copies[|w.copies| + k].attributes && done.copies[|w.copies| + k].attributes[f] == v
    {
      assert ([r] + t)[k] == t[k - 1];
    }
  }

  /** A refused save writes nothing into the table, yet the copy is still appended (without an
      identifier) and the related records are still duplicated: they see whatever the table
      already held for the class's field, such as the identifier of a same-class ancestor. */
  lemma RefusedSaveKeepsTable(r: Record, changes: map<string, Value>, assocs: seq<Association>,
                              w: World, accepts: Acceptance, v: Value)
    requires !accepts(Prepared(r, changes), false)
    requires IdField(r.cls) in w.idHash && w.idHash[IdField(r.cls)] == v
    requires IdField(r.cls) !in IdFields(AssociationsVisited(r, assocs))
    ensures var w2 := Visit(r, changes, assocs, w, accepts);
            var t := Visited(r, assocs);
            var f := IdField(r.cls);
            && |w2.copies| == |w.copies| + |t|
            && w2.copies[|w.copies|] == Prepared(r, changes)
            && w2 == (var d := VisitAssociations(r, assocs, w.(copies := w.copies + [Prepared(r, changes)]), accepts);
                      d.(idHash := d.idHash - {f}))
            && forall k :: 1 <= k < |t| && f in t[k].attributes ==>
                 f in w2.copies[|w.copies| + k].attributes && w2.copies[|w.copies| + k].attributes[f] == v
  {
    var copy := Prepared(r, changes);
    var field := IdField(r.cls);
    var started := World(w.idHash, w.copies + [copy], w.nextId);
    var done := VisitAssociations(r, assocs, started, accepts);
    var t := AssociationsVisited(r, assocs);
    AssociationsExtends(r, assocs, started, accepts);
    AssociationsStamped(r, assocs, started, accepts, field, v);
    VisitOwnCopy(r, changes, assocs, w, accepts);
    ShiftStamped(w, started, done, r, t, field, v);
  }

  /** What a copy of `x` holds for attribute `f` when neither the table nor the changes name
      it: the class default if DUPLICABLE_DEFAULTS has one, the record's own value otherwise. */
  function Kept(x: Record, f: string): Value
    requires f in x.attributes
  {
    Overridden(x.attributes, x.cls.duplicableDefaults.GetOr(map[]))[f]
  }

  /** Every copy made while visiting `visited` whose record has attribute `f` keeps the value
      `Kept` gives: nothing the duplication wrote reached that attribute. */
  ghost predicate Unstamped(w: World, w2: World, visited: seq<Record>, f: string) {
    && |w2.copies| == |w.copies| + |visited|
    && forall k :: 0 <= k < |visited| && f in visited[k].attributes ==>
         f in w2.copies[|w.copies| + k].attributes && w2.copies[|w.copies| + k].attributes[f] == Kept(visited[k], f)
  }

  lemma UnstampedChain(w0: World, w1: World, w2: World, t1: seq<Record>, t2: seq<Record>, f: string)
    requires Extends(w0, w1, t1) && Extends(w1, w2, t2)
    requires Unstamped(w0, w1, t1, f) && Unstamped(w1, w2, t2, f)
    ensures Unstamped(w0, w2, t1 + t2, f)
  {
    forall k | 0 <= k < |t1 + t2| && f in (t1 + t2)[k].attributes
      ensures f in w2.copies[|w0.copies| + k].attributes && w2.copies[|w0.copies| + k].attributes[f] == Kept((t1 + t2)[k], f)
    {
      if k < |t1| {
        assert w2.copies[|w0.copies| + k] == w2.copies[..|w1.copies|][|w0.copies| + k];
      } else {
        assert w2.copies[|w0.copies| + k] == w2.copies[|w1.copies| + (k - |t1|)];
      }
    }
  }

  /** While neither the table nor the given changes hold `f` and nothing visited writes it,
      every copy keeps its class default or its own value for `f`. */
  lemma {:induction false} RunUnstamped(r: Record, given: Option<map<string, Value>>, build: Option<seq<string>>,
                                        avoid: Option<seq<string>>, w: World, accepts: Acceptance, f: string)
    requires f !in w.idHash && f !in given.GetOr(map[])
    requires f !in IdFields(RunVisited(r, build, avoid))
    ensures Unstamped(w, Run(r, given, build, avoid, w, accepts), RunVisited(r, build, avoid), f)
    decreases Size(r), 3, 0
  {
    VisitUnstamped(r, ConstructionChanges(given, w.idHash),
                   Arrange(r, AssociationsToBuild(build, r.cls), AssociationsToAvoid(avoid)), w, accepts, f);
  }

  lemma {:induction false} VisitUnstamped(r: Record, changes: map<string, Value>, assocs: seq<Association>,
                                          w: World, accepts: Acceptance, f: string)
    requires f !in w.idHash && f !in changes
    requires f !in IdFields(Visited(r, assocs))
    ensures Unstamped(w, Visit(r, changes, assocs, w, accepts), Visited(r, assocs), f)
    decreases Size(r), 2, 0
  {
    var copy := Prepared(r, changes);
    var ok := accepts(copy, false);
    var field := IdField(r.cls);
    var saved := if ok then copy.(id := Some(w.nextId)) else copy;
    var started := World(if ok then w.idHash[field := IdValue(saved)] else w.idHash,
                        w.copies + [saved],
                        if ok then w.nextId + 1 else w.nextId);
    var done := VisitAssociations(r, assocs, started, accepts);
    var t := AssociationsVisited(r, assocs);
    IdFieldsConcat([r], t);
    assert field in IdFields([r]);
    AssociationsExtends(r, assocs, started, accepts);
    AssociationsUnstamped(r, assocs, started, accepts, f);
    VisitOwnCopy(r, changes, assocs, w, accepts);
    ShiftUnstamped(w, started, done, r, t, f);
    if f in r.attributes {
      PreparedKeeps(r, changes, f);
    }
  }

  /** A copy keeps `Kept` for an attribute its changes do not name. */
  lemma PreparedKeeps(r: Record, changes: map<string, Value>, f: string)
    requires f in r.attributes && f !in changes
    ensures f in Prepared(r, changes).attributes && Prepared(r, changes).attributes[f] == Kept(r, f)
  {
  }

  lemma {:induction false} AssociationsUnstamped(r: Record, assocs: seq<Association>, w: World, accepts: Acceptance,
                                                 f: string)
    requires f !in w.idHash
    requires f !in IdFields(AssociationsVisited(r, assocs))
    ensures Unstamped(w, VisitAssociations(r, assocs, w, accepts), AssociationsVisited(r, assocs), f)
    decreases Size(r), 1, |assocs|
  {
    if assocs != [] {
      var front := assocs[..|assocs| - 1];
      var rs := RelatedRecords(r, assocs[|assocs| - 1].name);
      var mid := VisitAssociations(r, front, w, accepts);
      IdFieldsConcat(AssociationsVisited(r, front), RecordsVisited(r, rs));
      AssociationsExtends(r, front, w, accepts);
      AssociationsUnstamped(r, front, w, accepts, f);
      RecordsExtends(r, rs, mid, accepts);
      RecordsUnstamped(r, rs, mid, accepts, f);
      UnstampedChain(w, mid, VisitRecords(r, rs, mid, accepts), AssociationsVisited(r, front), RecordsVisited(r, rs), f);
    }
  }

  lemma {:induction false} RecordsUnstamped(r: Record, rs: seq<Record>, w: World, accepts: Acceptance, f: string)
    requires forall c :: c in rs ==> Size(c) < Size(r)
    requires f !in w.idHash
    requires f !in IdFields(RecordsVisited(r, rs))
    ensures Unstamped(w, VisitRecords(r, rs, w, accepts), RecordsVisited(r, rs), f)
    decreases Size(r), 0, |rs|
  {
    if rs != [] {
      var front := rs[..|rs| - 1];
      var c := rs[|rs| - 1];
      var mid := VisitRecords(r, front, w, accepts);
      IdFieldsConcat(RecordsVisited(r, front), RunVisited(c, None, None));
      RecordsExtends(r, front, w, accepts);
      RecordsUnstamped(r, front, w, accepts, f);
      RunExtends(c, None, None, None, mid, accepts);
      RunUnstamped(c, None, None, None, mid, accepts, f);
      UnstampedChain(w, mid, Run(c, None, None, None, mid, accepts), RecordsVisited(r, front), RunVisited(c, None, None), f);
    }
  }

  /** The copies left unstamped below a record, counted from the record's own copy. */
  lemma ShiftUnstamped(w: World, started: World, done: World, r: Record, t: seq<Record>, f: string)
    requires |started.copies| == |w.copies| + 1
    requires Unstamped(started, done, t, f)
    ensures forall k :: 1 <= k < |[r] + t| && f in ([r] + t)[k].attributes ==>
              f in done.copies[|w.copies| + k].attributes && done.copies[|w.copies| + k].attributes[f] == Kept(([r] + t)[k], f)
  {
    forall k | 1 <= k < |[r] + t| && f in ([r] + t)[k].attributes
      ensures f in done.copies[|w.copies| + k].attributes && done.copies[|w.copies| + k].attributes[f] == Kept(([r] + t)[k], f)
    {
      assert ([r] + t)[k] == t[k - 1];
    }
  }

  /** The usual refused save: the table holds nothing for the class's field, so nothing is
      written under it (not even nil), the copy is appended without an identifier, and every
      copy made below it keeps the foreign key of the record it copies, or the class default. */
  lemma RefusedSaveNoEntry(r: Record, changes: map<string, Value>, assocs: seq<Association>,
                           w: World, accepts: Acceptance)
    requires !accepts(Prepared(r, changes), false)
    requires IdField(r.cls) !in w.idHash && IdField(r.cls) !in changes
    requires IdField(r.cls) !in IdFields(AssociationsVisited(r, assocs))
    ensures var w2 := Visit(r, changes, assocs, w, accepts);
            var t := Visited(r, assocs);
            var f := IdField(r.cls);
            && |w2.copies| == |w.copies| + |t|
            && w2.copies[|w.copies|] == Prepared(r, changes)
            && f !in w2.idHash
            && w2 == (var d := VisitAssociations(r, assocs, w.(copies := w.copies + [Prepared(r, changes)]), accepts);
                      d.(idHash := d.idHash - {f}))
            && forall k :: 1 <= k < |t| && f in t[k].attributes ==>
                 f in w2.copies[|w.copies| + k].attributes && w2.copies[|w.copies| + k].attributes[f] == Kept(t[k], f)
  {
    var copy := Prepared(r, changes);
    var field := IdField(r.cls);
    var started := World(w.idHash, w.copies + [copy], w.nextId);
    var done := VisitAssociations(r, assocs, started, accepts);
    var t := AssociationsVisited(r, assocs);
    AssociationsExtends(r, assocs, started, accepts);
    AssociationsUnstamped(r, assocs, started, accepts, field);
    VisitOwnCopy(r, changes, assocs, w, accepts);
    ShiftUnstamped(w, started, done, r, t, field);
  }

  /** Branch isolation: when a Duplicate returns, the table holds no entry it did not hold on
      entry, the remaining entries are unchanged, and the entry for its own class is gone. A
      sibling started afterwards therefore sees none of the identifiers written below it. */
  lemma VisitClosesItsEntries(r: Record, changes: map<string, Value>, assocs: seq<Association>,
                              w: World, accepts: Acceptance)
    ensures var h := Visit(r, changes, assocs, w, accepts).idHash;
            && IdField(r.cls) !in h
            && h.Keys <= w.idHash.Keys
            && forall k :: k in h ==> h[k] == w.idHash[k]
  {
    VisitExtends(r, changes, assocs, w, accepts);
    assert r in Visited(r, assocs);
  }

  /** When no record below `r` has an identifier field already in the table, the table after
      `execute` is the table before it without the entry for `r`'s class. */
  lemma IdHashRestored(r: Record, changes: map<string, Value>, assocs: seq<Association>,
                       w: World, accepts: Acceptance)
    requires forall x :: x in AssociationsVisited(r, assocs) ==> IdField(x.cls) !in w.idHash
    ensures Visit(r, changes, assocs, w, accepts).idHash == w.idHash - {IdField(r.cls)}
  {
    VisitExtends(r, changes, assocs, w, accepts);
    IdFieldsConcat([r], AssociationsVisited(r, assocs));
    assert IdFields([r]) == {IdField(r.cls)};
  }

  /** A record below `r` deletes the entry for its own class when it finishes, even when that
      entry was written by an ancestor of the same class. */
  lemma DescendantClosesAncestorEntry(r: Record, changes: map<string, Value>, assocs: seq<Association>,
                                      w: World, accepts: Acceptance, d: Record)
    requires d in AssociationsVisited(r, assocs)
    ensures IdField(d.cls) !in Visit(r, changes, assocs, w, accepts).idHash
  {
    VisitExtends(r, changes, assocs, w, accepts);
    assert d in Visited(r, assocs);
  }

  /** `Duplicate.create` with a fresh list returns the copy of the record it was given,
      prepared with the given changes overridden by the table, and saved when the database
      accepts it; the list ends with one copy per visited record. */
  lemma CreateReturnsRootCopy(r: Record, given: Option<map<string, Value>>, build: Option<seq<string>>,
                              avoid: Option<seq<string>>, idHash: map<string, Value>, nextId: nat,
                              accepts: Acceptance)
    ensures var w2 := Run(r, given, build, avoid, World(idHash, [], nextId), accepts);
            var root := Prepared(r, ConstructionChanges(given, idHash));
            && 0 < |w2.copies| == |RunVisited(r, build, avoid)|
            && w2.copies[0] == if accepts(root, false) then root.(id := Some(nextId)) else root
  {
    var w := World(idHash, [], nextId);
    VisitOwnCopy(r, ConstructionChanges(given, idHash),
                 Arrange(r, AssociationsToBuild(build, r.cls), AssociationsToAvoid(avoid)), w, accepts);
    RunExtends(r, given, build, avoid, w, accepts);
  }

  /** `execute` appends its own copy right after the copies already in the list, saved under
      the next identifier when the database accepts it, and keeps the earlier copies. */
  lemma VisitOwnCopy(r: Record, changes: map<string, Value>, assocs: seq<Association>,
                     w: World, accepts: Acceptance)
    ensures var w2 := Visit(r, changes, assocs, w, accepts);
            var copy := Prepared(r, changes);
            && |w.copies| < |w2.copies|
            && w2.copies[..|w.copies|] == w.copies
            && w2.copies[|w.copies|] == if accepts(copy, false) then copy.(id := Some(w.nextId)) else copy
  {
    var copy := Prepared(r, changes);
    var ok := accepts(copy, false);
    var field := IdField(r.cls);
    var saved := if ok then copy.(id := Some(w.nextId)) else copy;
    var started := World(if ok then w.idHash[field := IdValue(saved)] else w.idHash,
                        w.copies + [saved],
                        if ok then w.nextId + 1 else w.nextId);
    var done := VisitAssociations(r, assocs, started, accepts);
    AssociationsExtends(r, assocs, started, accepts);
    assert done.copies[..|w.copies|] == done.copies[..|started.copies|][..|w.copies|];
    assert done.copies[|w.copies|] == done.copies[..|started.copies|][|w.copies|];
  }
}
