# rails_deep_copy in Dafny

A model of `RailsDeepCopy::Duplicate`, the recursive deep-copy engine for ActiveRecord
records. A duplication copies a record and then, association by association, every record
reachable through the associations it follows. Four pieces of bookkeeping are modelled:

- **Association selection**: an include or exclude list of names, then only `has_one`,
  `has_one :through` and plain `has_many` associations are kept.
- **Reordering**: `:through` associations are moved to the end of the list.
- **Attribute overrides**: the changes, merged with the identifier table and the class's
  DUPLICABLE_DEFAULTS, are written onto the copy.
- **Identifier table and accumulator**: a table from `<class>_id` field names to the
  identifier of the copy being built, and a list of copies. Both are shared by reference by
  every level of the recursion.

The model has five modules:

- `Records` — the data. A source record is a finite tree: its class, its attribute columns,
  and for each reflected association what reading it returns (nil, one record or a
  collection). A copy is a class, attribute columns and an identifier, absent until saved.
- `Selection` — the pure filters `all_associations` and `duplicable_associations`. It also
  holds `ThroughScan`, the reference definition of what `sort_through_associations` does.
- `Overrides` — the merge of changes, table and defaults, the identifier field name, and
  the validation flag.
- `Engine` — the whole duplication as a function of the shared state (`Run`, `Visit`). It
  holds the lemmas about that function:
  - pre-order accumulation;
  - fresh, increasing identifiers;
  - the table's stack discipline;
  - children seeing their parent's identifier.
- `RailsDeepCopy` — the class `Duplicate` with its fields, and the shared objects `IdHash`,
  `CopyList` and `Database`. Its methods use loops that update in place. `Execute` and
  `Create` are proved to leave the shared objects exactly as `Engine.Visit` and
  `Engine.Run` say.

`save` is `Database.Save`. It consults a fixed acceptance function of the copy and the
`validate` flag, which stands for the database and its validations. On acceptance it assigns
the next identifier from a counter.

The code differs from the comment at lib/rails_deep_copy.rb:49. The comment says every `:through` association is moved last, but
`sort_through_associations` deletes from the array it is iterating over. The association
after each moved one therefore shifts into the current slot and is never examined. The model
follows the code:

- `ThroughScan` skips the successor.
- `SortThroughSeparated` proves the promised order whenever no two `:through` associations
  are adjacent.
- `AdjacentThroughStays` shows the order breaks when two are adjacent.

Validation is never requested: `options[:skip_validations] || true` is true for every input,
even an explicit `false`, so `validate?` is always false.

## Model

| member | source | states |
|---|---|---|
| Records.RelatedRecords | lib/rails_deep_copy.rb:93 | reading an association yields only records strictly smaller than the parent, so the recursion ends |
| Records.RelatedFrom | lib/rails_deep_copy.rb:93 | reading an association returns `[x].flatten.compact` of the first link with that name, and every record returned is strictly smaller than the parent |
| Selection.Filter | lib/rails_deep_copy.rb:31-33 | `find_all` keeps exactly the elements satisfying the test, in order and with their multiplicity |
| Selection.OptionSelection | lib/rails_deep_copy.rb:10-35 | with the options applied, an association is selected iff it is reflected and named in the include list when that list (the given one, else DUPLICABLE_ASSOCIATIONS) has elements, and otherwise not named in the exclude list; order is kept; an explicit empty include list selects every reflection even when the class constant is set; with no options and a missing or empty constant, every reflection is selected |
| Selection.AllAssociations | lib/rails_deep_copy.rb:27-35 | all reflections when both lists are empty; otherwise, in original order, those named in a non-empty include list, or those not named in the exclude list |
| Selection.DuplicableAssociations | lib/rails_deep_copy.rb:37-45 | an association is kept iff it is has_one (through or not) or a has_many without `:through`; order and multiplicity preserved |
| Selection.ThroughScanShape | lib/rails_deep_copy.rb:47-57 | the input interleaves the kept and the moved associations, each group in its original order; only `:through` associations move; every direct one stays |
| Selection.SortThroughIsPermutation | lib/rails_deep_copy.rb:47-57 | the reordered list is a permutation of the input |
| Selection.SortThroughSeparated | lib/rails_deep_copy.rb:49-57 | with no two adjacent `:through` associations, the result is the direct associations in order followed by the `:through` ones in order |
| Selection.DirectStays | lib/rails_deep_copy.rb:50-55 | an association without `:through` is never moved to the end |
| Selection.AdjacentThroughStays | lib/rails_deep_copy.rb:50-55 | two leading adjacent `:through` associations leave the second one first, ahead of a direct association, so not all `:through` associations end last |
| Overrides.ConstructionChanges | lib/rails_deep_copy.rb:9-14 | the changes cover the given changes and the table; a table entry wins a clash; with no changes given they are exactly the table |
| Overrides.MergedOverrides | lib/rails_deep_copy.rb:65-66 | an explicit change wins over a class default; defaults fill in the other keys |
| Overrides.Overridden | lib/rails_deep_copy.rb:67-69 | no attribute is added; attributes named in the hash take its value; the others keep theirs |
| Overrides.IdFieldInjective | lib/rails_deep_copy.rb:72-74 | two classes share a field exactly when their underscored names agree |
| Overrides.SkipValidations | lib/rails_deep_copy.rb:12 | the flag is true whatever is given, so `validate?`, its negation, is always false and every save is asked without validation |
| Engine.RunExtends | lib/rails_deep_copy.rb:19-21 | a duplication appends one copy per visited record in pre-order and keeps the earlier copies; it removes the table entries of every visited class and changes nothing else; identifiers are fresh and increase in visiting order |
| Engine.VisitExtends | lib/rails_deep_copy.rb:88-102 | the same for `execute`: its own copy first, then what each association reaches, in order |
| Engine.AssociationsExtends | lib/rails_deep_copy.rb:92-98 | the outer loop appends the copies of what each association reaches, in association order |
| Engine.RecordsExtends | lib/rails_deep_copy.rb:94-97 | the inner loop appends the copies of each related record's subtree, in order |
| Engine.RunStamped | lib/rails_deep_copy.rb:13-14 | the table is merged over the changes of every Duplicate, so while it maps a field to a value that no visited class closes, every copy having that attribute receives that value (written by lines 64-70) |
| Engine.VisitStamped | lib/rails_deep_copy.rb:64-70 | the table entry overrides defaults and attributes on every copy below that has the attribute |
| Engine.RunUnstamped | lib/rails_deep_copy.rb:13-14 | while neither the table nor the given changes hold a field and no visited class writes it, every copy having that attribute keeps the class default, or else the record's own value |
| Engine.VisitUnstamped | lib/rails_deep_copy.rb:64-70 | with the field absent from the table and the changes, the copy and every copy below keep the class default for it, or else the record's own value |
| Engine.DescendantsSeeParentId | lib/rails_deep_copy.rb:80-98 | after a successful save the copy holds the next identifier, and, provided no descendant's class has the same `_id` field, every descendant copy having that attribute refers to the new identifier |
| Engine.RefusedSaveKeepsTable | lib/rails_deep_copy.rb:90-97 | after a refused save nothing is written to the table: the whole result is the associations visited from the unchanged table with the unsaved copy appended, then the class's entry deleted; the related records are still duplicated, and every descendant copy having the class's `_id` attribute receives the value the table already held for it (for example a same-class ancestor's identifier), provided no descendant shares the field |
| Engine.RefusedSaveNoEntry | lib/rails_deep_copy.rb:90-97 | the usual refused save, with no entry for the class's `_id` field in the table or the changes: the result is the associations visited from the unchanged table with the unsaved copy appended, no entry (not even nil) is left for the field, and every descendant copy having that attribute keeps its record's foreign key or the class default, provided no descendant shares the field |
| Engine.VisitClosesItsEntries | lib/rails_deep_copy.rb:84-86 | on return the own class's entry is gone, no entry was added, and the surviving entries are unchanged (siblings never see each other's identifiers) |
| Engine.IdHashRestored | lib/rails_deep_copy.rb:100 | with no descendant class already in the table, the table on return is the table on entry minus the own entry |
| Engine.DescendantClosesAncestorEntry | lib/rails_deep_copy.rb:84-86 | a descendant deletes its class's entry on return, even one written by a same-class ancestor |
| Engine.CreateReturnsRootCopy | lib/rails_deep_copy.rb:101 | with a fresh list, the first copy is the root's prepared copy, saved under the next identifier if accepted, and the list holds one copy per visited record |
| Engine.VisitOwnCopy | lib/rails_deep_copy.rb:89-91 | `execute` appends its own copy right after the existing copies, saved under the next identifier when accepted, and keeps the earlier copies |
| RailsDeepCopy.IdHash.constructor | lib/rails_deep_copy.rb:13 | a new table is empty |
| RailsDeepCopy.CopyList.constructor | lib/rails_deep_copy.rb:15 | a new accumulator is empty |
| RailsDeepCopy.Database.Save | lib/rails_deep_copy.rb:90 | accepted copies get the counter's identifier and the counter advances; refused copies and the counter stay as they were |
| RailsDeepCopy.Duplicate.constructor | lib/rails_deep_copy.rb:6-17 | shares the table and the list given in the options, or starts empty ones; the changes are merged with the table; validations are skipped; the associations are set up |
| RailsDeepCopy.Duplicate.SetupAssociations | lib/rails_deep_copy.rb:59-62 | the associations are the duplicable ones among those selected, reordered by the scan |
| RailsDeepCopy.Duplicate.SortThroughAssociations | lib/rails_deep_copy.rb:47-57 | the in-place deletion loop yields the scan's order, kept associations followed by the moved ones |
| RailsDeepCopy.Duplicate.ImplementNewObjectDifferences | lib/rails_deep_copy.rb:64-70 | the attribute loop leaves the copy overridden by the defaults merged with the changes, nothing else changed |
| RailsDeepCopy.Duplicate.UpdateIdHash | lib/rails_deep_copy.rb:80-82 | the shared table maps the class's field to the copy's identifier (nil for a copy without one) and nothing else changes |
| RailsDeepCopy.Duplicate.RemoveIdFromIdHash | lib/rails_deep_copy.rb:84-86 | the shared table loses the class's field and nothing else |
| RailsDeepCopy.Duplicate.CreateAssociations | lib/rails_deep_copy.rb:92-98 | the outer loop leaves the shared table, list and counter as `Engine.VisitAssociations` says: the related records of each association in turn |
| RailsDeepCopy.Duplicate.CreateChildren | lib/rails_deep_copy.rb:94-97 | each related record is duplicated in order with the shared table and list, ending as `Engine.VisitRecords` says |
| RailsDeepCopy.Duplicate.Execute | lib/rails_deep_copy.rb:88-102 | the shared table, list and counter end as `Engine.Visit` says, so every Engine lemma holds of them; the new object is the list entry appended at the position the list had on entry; the list's first element is returned |
| RailsDeepCopy.Duplicate.Create | lib/rails_deep_copy.rb:19-21 | the shared objects of the options and the counter end as `Engine.Run` says; the first element of the list is returned |

## Left out

- Reflection (`reflect_on_all_associations`, `macro`, `options`) is replaced by the
  association descriptors stored in each record.
- The names of associations and attributes are strings. Symbols and the `to_s` comparison
  at line 68 are not distinguished.
- Persistence and validation rules are reduced to an acceptance function of the copy and
  the `validate` flag, plus an identifier counter. Database errors raised by `save` are not
  modelled.
- `dup`, `send("#{attribute}=")` and `send(association.name)` are operations on the
  attribute map and on the record's links. An attribute writer's type casting is not
  modelled. An association is read by looking up the first link with its name; the names
  always come from the record's own links.
- `String#underscore` comes from ActiveSupport inflection. A class's underscored name is
  supplied with the class rather than computed.
- The `rescue` on a missing DUPLICABLE_ASSOCIATIONS or DUPLICABLE_DEFAULTS constant is an
  optional value. Other exceptions the `rescue` would swallow are not modelled.
- Defaults given as a `false` or `nil` constant are modelled as a missing constant.
- Cyclic association graphs are excluded: records are finite trees, and the source would
  recurse without end on a cycle.
- `merge!` at line 14 mutates a changes hash the caller passed in. Aliasing with the caller
  is not modelled; the model computes the merged value.
- `@associations.delete(association)` removes every element equal to the association. The
  model removes the element at the current position, as the reflections of one class are
  distinct.
- Ruby hash iteration order is not modelled. The attribute loop picks keys in any order;
  the result does not depend on the order, since distinct keys write distinct attributes.
- The `associations` and `id_hash` accessors are modelled as fields of the class. Writing
  them from outside a duplication is not modelled.
- The flattening at line 56 assumes the moved associations are plain descriptors, as they
  are.
- `options.fetch(:duplicated_objects, [])` at line 15 keeps an explicit `nil`, and `<<` at
  line 91 then raises. `Options` treats an explicit `nil` as an absent key, which is right
  for every other option since they go through `||`.
- Rails `dup` clears the primary key and the timestamp columns of the copy. `Dup` keeps the
  attribute map as it is.
