/** The attribute values a copy is given before it is saved, the identifier field named after
    a class, and the validation flag. */
module Overrides {
  import opened Records

  /** `(options[:changes] || {}).merge!(id_hash)`: the caller's changes with every entry of the
      identifier table written over them. */
  function ConstructionChanges(given: Option<map<string, Value>>, idHash: map<string, Value>): (changes: map<string, Value>)
    ensures changes.Keys == given.GetOr(map[]).Keys + idHash.Keys
    ensures forall k :: k in idHash ==> changes[k] == idHash[k]
    ensures forall k :: k in given.GetOr(map[]) && k !in idHash ==> changes[k] == given.value[k]
    ensures given.None? ==> changes == idHash
  {
    given.GetOr(map[]) + idHash
  }

  /** `defaults ? defaults.merge(@changes) : @changes` with DUPLICABLE_DEFAULTS as `defaults`:
      an explicit change wins over a default for the same attribute. */
  function MergedOverrides(defaults: Option<map<string, Value>>, changes: map<string, Value>): (hash: map<string, Value>)
    ensures hash.Keys == defaults.GetOr(map[]).Keys + changes.Keys
    ensures forall k :: k in changes ==> hash[k] == changes[k]
    ensures forall k :: k in defaults.GetOr(map[]) && k !in changes ==> hash[k] == defaults.value[k]
  {
    if defaults.Some? then defaults.value + changes else changes
  }

  /** The attributes after writing every entry of `hash` whose key is an existing attribute:
      no attribute is added, those named in `hash` take its value, the others keep theirs. */
  function Overridden(attributes: map<string, Value>, hash: map<string, Value>): (result: map<string, Value>)
    ensures result.Keys == attributes.Keys
    ensures forall k :: k in attributes ==> result[k] == if k in hash then hash[k] else attributes[k]
  {
    attributes + map k | k in hash.Keys * attributes.Keys :: hash[k]
  }

  /** `new_object_id_field`: the underscored class name followed by `_id`. */
  function IdField(cls: ModelClass): (field: string)
  {
    cls.underscored + "_id"
  }

  /** Two classes share an identifier field exactly when their underscored names agree. */
  lemma IdFieldInjective(a: ModelClass, b: ModelClass)
    ensures IdField(a) == IdField(b) <==> a.underscored == b.underscored
  {
    if IdField(a) == IdField(b) {
      assert |a.underscored| == |b.underscored|;
      assert a.underscored == IdField(a)[..|a.underscored|];
    }
  }

  /** `options[:skip_validations] || true`: Ruby's `||` returns its left operand when that is
      truthy and its right operand otherwise, so the result is true whatever is given. */
  function SkipValidations(given: Option<bool>): (skip: bool)
    ensures skip
  {
    if given == Some(true) then given.value else true
  }

  /** `@new_object.id`: the assigned identifier, or nil before a successful save. */
  function IdValue(c: Copy): (v: Value)
  {
    match c.id
    case Some(n) => Id(n)
    case None => Null
  }
}
