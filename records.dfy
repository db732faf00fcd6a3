/** Records, their classes and the association descriptors that reflection reports.
    A record is a finite tree: its links lead to the records each association returns. */
module Records {

  datatype Option<+T> = None | Some(value: T) {
    function GetOr(default: T): T {
      match this
      case Some(v) => v
      case None => default
    }
  }

  /** An attribute value. Identifiers assigned by the database are `Id` values. */
  datatype Value = Null | Id(n: nat) | Number(i: int) | Text(s: string)

  /** The association macros of ActiveRecord. */
  datatype Macro = HasOne | HasMany | BelongsTo | HasAndBelongsToMany

  /** One reflected association: its name, its macro, and whether `:through` is among its options. */
  datatype Association = Association(name: string, macro: Macro, through: bool)

  /** What the engine reads from a record's class: its name, the underscored form of that name
      (supplied by the host's inflector), and the optional constants DUPLICABLE_ASSOCIATIONS and
      DUPLICABLE_DEFAULTS. */
  datatype ModelClass = ModelClass(
    name: string,
    underscored: string,
    duplicableAssociations: Option<seq<string>>,
    duplicableDefaults: Option<map<string, Value>>)

  /** What reading an association returns: nil, a single record, or a collection. */
  datatype Related = Nil | One(record: Record) | Many(records: seq<Record>)

  datatype Link = Link(association: Association, target: Related)

  /** A persisted source record: its class, its attribute columns and, for each reflected
      association in declaration order, what reading it returns. */
  datatype Record = Record(cls: ModelClass, attributes: map<string, Value>, links: seq<Link>)

  /** An in-memory copy: the class, the attribute columns and the identifier, absent until saved. */
  datatype Copy = Copy(cls: ModelClass, attributes: map<string, Value>, id: Option<nat>)

  /** `dup`: same class and attributes, no identifier. */
  function Dup(r: Record): (c: Copy)
  {
    Copy(r.cls, r.attributes, None)
  }

  /** What `reflect_on_all_associations` reports for the record's class. */
  function Reflections(r: Record): (s: seq<Association>)
  {
    seq(|r.links|, i requires 0 <= i < |r.links| => r.links[i].association)
  }

  /** The number of records in the tree rooted at `r`. */
  function Size(r: Record): nat
    decreases r, |r.links| + 1, 0
  {
    1 + LinksSize(r, |r.links|)
  }

  /** The sizes of what the first `n` links of `r` reach. */
  function LinksSize(r: Record, n: nat): nat
    requires n <= |r.links|
    decreases r, n, 0
  {
    if n == 0 then 0
    else
      LinksSize(r, n - 1) +
      match r.links[n - 1].target
      case Nil => 0
      case One(x) => Size(x)
      case Many(xs) => ForestSize(r, n - 1, |xs|)
  }

  /** The sizes of the first `m` records of the collection behind link `i` of `r`. */
  function ForestSize(r: Record, i: nat, m: nat): nat
    requires i < |r.links| && r.links[i].target.Many? && m <= |r.links[i].target.records|
    decreases r, i, m
  {
    if m == 0 then 0 else ForestSize(r, i, m - 1) + Size(r.links[i].target.records[m - 1])
  }

  /** The size of what link `i` of `r` reaches. */
  function TargetSize(r: Record, i: nat): nat
    requires i < |r.links|
  {
    match r.links[i].target
    case Nil => 0
    case One(x) => Size(x)
    case Many(xs) => ForestSize(r, i, |xs|)
  }

  lemma {:induction false} ForestBound(r: Record, i: nat, j: nat, m: nat)
    requires i < |r.links| && r.links[i].target.Many? && j < m <= |r.links[i].target.records|
    ensures Size(r.links[i].target.records[j]) <= ForestSize(r, i, m)
    decreases m
  {
    if j < m - 1 {
      ForestBound(r, i, j, m - 1);
    }
  }

  lemma {:induction false} LinksBound(r: Record, i: nat, n: nat)
    requires i < n <= |r.links|
    ensures TargetSize(r, i) <= LinksSize(r, n)
    decreases n
  {
    if i < n - 1 {
      LinksBound(r, i, n - 1);
    }
  }

  /** `[x].flatten.compact` applied to what link `i` of `r` returns: nil becomes the empty
      list, a single record a one-element list, a collection stays as it is. */
  function Objects(r: Record, i: nat): (rs: seq<Record>)
    requires i < |r.links|
    ensures forall c :: c in rs ==> Size(c) <= TargetSize(r, i)
  {
    match r.links[i].target
    case Nil => []
    case One(x) => [x]
    case Many(xs) =>
      assert forall j :: 0 <= j < |xs| ==> Size(xs[j]) <= ForestSize(r, i, |xs|) by {
        forall j | 0 <= j < |xs| {
          ForestBound(r, i, j, |xs|);
        }
      }
      xs
  }

  /** `send(name)` on `r`, normalised with `Objects`: what the first link from index `i` on
      whose association is called `name` returns, or nothing if no such link exists. */
  function RelatedFrom(r: Record, name: string, i: nat): (rs: seq<Record>)
    requires i <= |r.links|
    ensures forall c :: c in rs ==> Size(c) < Size(r)
    ensures forall k :: i <= k < |r.links| && r.links[k].association.name == name
              && (forall m :: i <= m < k ==> r.links[m].association.name != name)
              ==> rs == Objects(r, k)
    decreases |r.links| - i
  {
    if i == |r.links| then []
    else if r.links[i].association.name == name then
      LinksBound(r, i, |r.links|);
      Objects(r, i)
    else RelatedFrom(r, name, i + 1)
  }

  /** The records `send(name)` reaches from `r`, as a list. */
  function RelatedRecords(r: Record, name: string): (rs: seq<Record>)
    ensures forall c :: c in rs ==> Size(c) < Size(r)
  {
    RelatedFrom(r, name, 0)
  }
}
