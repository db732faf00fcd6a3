/** The `Duplicate` class and the objects its instances share. Every method is proved to
    follow the functions of module Engine, about which the properties are proved. */
module RailsDeepCopy {
  import opened Records
  import opened Selection
  import opened Overrides
  import opened Engine

  /** The identifier table: one hash, shared by reference by every Duplicate of a duplication. */
  class IdHash {
    var entries: map<string, Value>

    constructor ()
      ensures entries == map[]
    {
      entries := map[];
    }
  }

  /** The list of copies (`duplicated_objects`), shared by reference like the table. */
  class CopyList {
    var items: seq<Copy>

    constructor ()
      ensures items == []
    {
      items := [];
    }
  }

  /** The database behind `save`: it accepts or refuses a copy, and on acceptance assigns the
      next identifier. */
  class Database {
    var nextId: nat
    const accepts: Acceptance

    constructor (firstId: nat, accepts: Acceptance)
      ensures nextId == firstId && this.accepts == accepts
    {
      nextId := firstId;
      this.accepts := accepts;
    }

    method Save(c: Copy, validate: bool) returns (ok: bool, saved: Copy)
      modifies this
      ensures ok == accepts(c, validate)
      ensures ok ==> saved == c.(id := Some(old(nextId))) && nextId == old(nextId) + 1
      ensures !ok ==> saved == c && nextId == old(nextId)
    {
      ok := accepts(c, validate);
      if ok {
        saved := c.(id := Some(nextId));
        nextId := nextId + 1;
      } else {
        saved := c;
      }
    }
  }

  /** The options hash; an absent key is `None`. */
  datatype Options = Options(
    changes: Option<map<string, Value>>,
    associations: Option<seq<string>>,
    excludeAssociations: Option<seq<string>>,
    skipValidations: Option<bool>,
    idHash: Option<IdHash>,
    duplicatedObjects: Option<CopyList>)

  /** The shared objects the options hand over. */
  function Shared(options: Options): set<object> {
    (if options.idHash.Some? then {options.idHash.value} else {}) +
    (if options.duplicatedObjects.Some? then {options.duplicatedObjects.value} else {})
  }

  /** The table a Duplicate built with these options starts from. */
  function GivenEntries(options: Options): map<string, Value>
    reads Shared(options)
  {
    if options.idHash.Some? then options.idHash.value.entries else map[]
  }

  /** The list a Duplicate built with these options starts from. */
  function GivenItems(options: Options): seq<Copy>
    reads Shared(options)
  {
    if options.duplicatedObjects.Some? then options.duplicatedObjects.value.items else []
  }

  class Duplicate {
    const objectToDuplicate: Record
    var newObject: Copy
    const changes: map<string, Value>
    const associationsToBuild: seq<string>
    const associationsToAvoid: seq<string>
    const skipValidations: bool
    const idHash: IdHash
    const duplicatedObjects: CopyList
    const db: Database
    var associations: seq<Association>

    /** `initialize`: take the shared table and list from the options or start new ones, merge
        the table over the given changes, and set up the associations to follow. */
    constructor (objectToDuplicate: Record, options: Options, db: Database)
      ensures this.objectToDuplicate == objectToDuplicate && this.db == db
      ensures newObject == Dup(objectToDuplicate)
      ensures options.idHash.Some? ==> idHash == options.idHash.value
      ensures options.idHash.None? ==> fresh(idHash) && idHash.entries == map[]
      ensures options.duplicatedObjects.Some? ==> duplicatedObjects == options.duplicatedObjects.value
      ensures options.duplicatedObjects.None? ==> fresh(duplicatedObjects) && duplicatedObjects.items == []
      ensures changes == ConstructionChanges(options.changes, idHash.entries)
      ensures associationsToBuild == AssociationsToBuild(options.associations, objectToDuplicate.cls)
      ensures associationsToAvoid == AssociationsToAvoid(options.excludeAssociations)
      ensures skipValidations
      ensures associations == Arrange(objectToDuplicate, associationsToBuild, associationsToAvoid)
    {
      this.objectToDuplicate := objectToDuplicate;
      newObject := Dup(objectToDuplicate);
      associationsToBuild := AssociationsToBuild(options.associations, objectToDuplicate.cls);
      associationsToAvoid := AssociationsToAvoid(options.excludeAssociations);
      skipValidations := SkipValidations(options.skipValidations);
      var table: IdHash;
      if options.idHash.Some? {
        table := options.idHash.value;
      } else {
        table := new IdHash();
      }
      idHash := table;
      changes := ConstructionChanges(options.changes, table.entries);
      var list: CopyList;
      if options.duplicatedObjects.Some? {
        list := options.duplicatedObjects.value;
      } else {
        list := new CopyList();
      }
      duplicatedObjects := list;
      this.db := db;
      associations := [];
      new;
      SetupAssociations();
    }

    /** `setup_associations`. */
    method SetupAssociations()
      modifies this`associations
      ensures associations == Arrange(objectToDuplicate, associationsToBuild, associationsToAvoid)
    {
      associations := DuplicableAssociations(AllAssociations(Reflections(objectToDuplicate), associationsToBuild, associationsToAvoid));
      SortThroughAssociations();
    }

    /** `sort_through_associations`: iterate over the array by index, and on a `:through`
        association remember it and delete it from the same array; then append what was
        removed. The deletion shifts the next association into the current slot, which the
        iteration then steps over. */
    method SortThroughAssociations()
      modifies this`associations
      ensures associations == SortedThrough(old(associations))
    {
      ghost var original := associations;
      var throughAssociations: seq<Association> := [];
      ghost var kept: seq<Association> := [];
      ghost var rest := associations;
      var i := 0;
      while i < |associations|
        invariant associations == kept + rest
        invariant |kept| == i || (|kept| + 1 == i && rest == [])
        invariant ThroughScan(original).kept == kept + ThroughScan(rest).kept
        invariant ThroughScan(original).moved == throughAssociations + ThroughScan(rest).moved
        decreases |associations| - i
      {
        var association := associations[i];
        assert |kept| == i && association == rest[0];
        ThroughScanStep(original, kept, throughAssociations, rest);
        if association.through {
          assert associations[..i] + associations[i + 1..] == kept + rest[1..];
          throughAssociations := throughAssociations + [association];
          associations := associations[..i] + associations[i + 1..];
          if |rest| >= 2 {
            ShiftOne(kept, rest[1..]);
            assert rest[1..][1..] == rest[2..];
            kept, rest := kept + [rest[1]], rest[2..];
          } else {
            rest := [];
          }
        } else {
          ShiftOne(kept, rest);
          kept, rest := kept + [rest[0]], rest[1..];
        }
        i := i + 1;
      }
      associations := associations + throughAssociations;
    }

    /** `implement_new_object_differences`: write every entry of the defaults merged with the
        changes onto the copy, skipping names that are not attributes of the copy. */
    method ImplementNewObjectDifferences()
      modifies this`newObject
      ensures newObject == old(newObject).(attributes := Overridden(old(newObject.attributes),
                                                                    MergedOverrides(old(newObject.cls.duplicableDefaults), changes)))
    {
      var hash := MergedOverrides(newObject.cls.duplicableDefaults, changes);
      ghost var start := newObject;
      var pending := hash.Keys;
      while pending != {}
        invariant pending <= hash.Keys
        invariant newObject == start.(attributes := newObject.attributes)
        invariant newObject.attributes.Keys == start.attributes.Keys
        invariant forall k :: k in start.attributes ==>
                    newObject.attributes[k] == if k in hash && k !in pending then hash[k] else start.attributes[k]
        decreases pending
      {
        var attribute :| attribute in pending;
        if attribute in newObject.attributes {
          newObject := newObject.(attributes := newObject.attributes[attribute := hash[attribute]]);
        }
        pending := pending - {attribute};
      }
      assert newObject.attributes == Overridden(start.attributes, hash);
    }

    /** `new_object_id_field`. */
    function NewObjectIdField(): string
      reads this
    {
      IdField(newObject.cls)
    }

    /** `validate?`. */
    predicate Validate()
      reads this
    {
      !skipValidations
    }

    /** `update_id_hash`: record the copy's identifier under its class's field. */
    method UpdateIdHash()
      modifies idHash
      ensures idHash.entries == old(idHash.entries)[NewObjectIdField() := IdValue(newObject)]
    {
      idHash.entries := idHash.entries[NewObjectIdField() := IdValue(newObject)];
    }

    /** `remove_id_from_id_hash`: delete the entry for the copy's class. */
    method RemoveIdFromIdHash()
      modifies idHash
      ensures idHash.entries == old(idHash.entries) - {NewObjectIdField()}
    {
      idHash.entries := idHash.entries - {NewObjectIdField()};
    }

    /** `execute`: the table, the list and the database end as Engine.Visit says, and the first
        element of the shared list is returned. */
    method Execute() returns (first: Copy)
      requires newObject == Dup(objectToDuplicate) && skipValidations
      modifies this`newObject, idHash, duplicatedObjects, db
      ensures var w := Visit(objectToDuplicate, changes, associations,
                             World(old(idHash.entries), old(duplicatedObjects.items), old(db.nextId)), db.accepts);
              idHash.entries == w.idHash && duplicatedObjects.items == w.copies && db.nextId == w.nextId
      ensures 0 < |duplicatedObjects.items| && first == duplicatedObjects.items[0]
      ensures |old(duplicatedObjects.items)| < |duplicatedObjects.items|
              && newObject == duplicatedObjects.items[|old(duplicatedObjects.items)|]
      decreases Size(objectToDuplicate), 2
    {
      ImplementNewObjectDifferences();
      var ok, saved := db.Save(newObject, Validate());
      newObject := saved;
      if ok {
        UpdateIdHash();
      }
      duplicatedObjects.items := duplicatedObjects.items + [newObject];
      ghost var started := World(idHash.entries, duplicatedObjects.items, db.nextId);
      CreateAssociations();
      RemoveIdFromIdHash();
      VisitExtends(objectToDuplicate, changes, associations,
                   World(old(idHash.entries), old(duplicatedObjects.items), old(db.nextId)), db.accepts);
      VisitOwnCopy(objectToDuplicate, changes, associations,
                   World(old(idHash.entries), old(duplicatedObjects.items), old(db.nextId)), db.accepts);
      first := duplicatedObjects.items[0];
    }

    /** The outer loop of `execute`: the related records of each association in turn. */
    method CreateAssociations()
      modifies idHash, duplicatedObjects, db
      ensures World(idHash.entries, duplicatedObjects.items, db.nextId)
              == VisitAssociations(objectToDuplicate, associations,
                                   World(old(idHash.entries), old(duplicatedObjects.items), old(db.nextId)), db.accepts)
      decreases Size(objectToDuplicate), 1
    {
      ghost var started := World(idHash.entries, duplicatedObjects.items, db.nextId);
      var i := 0;
      while i < |associations|
        invariant 0 <= i <= |associations|
        invariant World(idHash.entries, duplicatedObjects.items, db.nextId)
                  == VisitAssociations(objectToDuplicate, associations[..i], started, db.accepts)
      {
        var objects := RelatedRecords(objectToDuplicate, associations[i].name);
        CreateChildren(objects);
        assert associations[..i + 1][..i] == associations[..i];
        i := i + 1;
      }
      assert associations[..i] == associations;
    }

    /** The inner loop of `execute`: a child Duplicate for each related record, sharing the
        identifier table and the list. */
    method CreateChildren(objects: seq<Record>)
      requires forall c :: c in objects ==> Size(c) < Size(objectToDuplicate)
      modifies idHash, duplicatedObjects, db
      ensures World(idHash.entries, duplicatedObjects.items, db.nextId)
              == VisitRecords(objectToDuplicate, objects,
                              World(old(idHash.entries), old(duplicatedObjects.items), old(db.nextId)), db.accepts)
      decreases Size(objectToDuplicate), 0
    {
      ghost var before := World(idHash.entries, duplicatedObjects.items, db.nextId);
      var j := 0;
      while j < |objects|
        invariant 0 <= j <= |objects|
        invariant World(idHash.entries, duplicatedObjects.items, db.nextId)
                  == VisitRecords(objectToDuplicate, objects[..j], before, db.accepts)
      {
        var child := Create(objects[j], Options(None, None, None, None, Some(idHash), Some(duplicatedObjects)), db);
        assert objects[..j + 1][..j] == objects[..j];
        j := j + 1;
      }
      assert objects[..j] == objects;
    }

    /** `self.create`: build a Duplicate and execute it. The shared objects of the options, and
        the database, end as Engine.Run says; the first element of the list is returned. */
    static method Create(objectToDuplicate: Record, options: Options, db: Database) returns (first: Copy)
      modifies db, Shared(options)
      ensures var w := Run(objectToDuplicate, options.changes, options.associations, options.excludeAssociations,
                           World(old(GivenEntries(options)), old(GivenItems(options)), old(db.nextId)), db.accepts);
              && db.nextId == w.nextId
              && (options.idHash.Some? ==> options.idHash.value.entries == w.idHash)
              && (options.duplicatedObjects.Some? ==> options.duplicatedObjects.value.items == w.copies)
              && 0 < |w.copies| && first == w.copies[0]
      decreases Size(objectToDuplicate), 3
    {
      var d := new Duplicate(objectToDuplicate, options, db);
      first := d.Execute();
    }
  }
}
