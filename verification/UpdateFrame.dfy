/** An update changes only the documented mutable fields. */
module UpdateFrame {
  import opened Outcome
  import opened Model
  import opened Keyspace
  import opened Services
  import opened Invariants
  import Store

  /** Re-running normalization on a stored record touches nothing but a requested weight of zero. */
  lemma UpdateChangesOnlyMutableFields(db: State, input: UpdateInput, now: Time)
    requires WellPlaced(db) && Update(db, input, now).1.Ok?
    ensures GetInstance(db, input.namespace, input.service, input.instanceID).Ok?
    ensures var before := GetInstance(db, input.namespace, input.service, input.instanceID).value;
            var (db', r) := Update(db, input, now);
            && GetInstance(db', input.namespace, input.service, input.instanceID) == r
            && r.value == before.(
                 weight :=
                   if input.weight.None? then before.weight
                   else if input.weight.value == 0 then 100
                   else input.weight.value,
                 metadata := if input.metadata.Some? then input.metadata else before.metadata,
                 version := if input.version.Some? then input.version.value else before.version,
                 updatedAt := now,
                 revision := db.revision + 1)
            && before.revision == input.expected
  {
    StoredInstance(db, input.namespace, input.service, input.instanceID);
    var before := GetInstance(db, input.namespace, input.service, input.instanceID).value;
    UpdatedFromNormal(before, input, now);
    hide WellPlaced, UpdatedInstance, Normalize, Instance.Valid, CheckWrite;
  }

  lemma UpdatedFromNormal(before: Instance, input: UpdateInput, now: Time)
    requires Normalize(before) == before
    ensures UpdatedInstance(before, input, now) == before.(
              weight :=
                if input.weight.None? then before.weight
                else if input.weight.value == 0 then 100
                else input.weight.value,
              metadata := if input.metadata.Some? then input.metadata else before.metadata,
              version := if input.version.Some? then input.version.value else before.version,
              updatedAt := now)
  {
    assert before.group != "" || |DEFAULT_GROUP| > 0;
  }
}
