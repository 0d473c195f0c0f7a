/** What snapshots show and what a discovery watch passes on, spelled out. */
module DiscoveryLaws {
  import opened Outcome
  import opened Model
  import opened Keyspace
  import opened Services
  import opened Invariants
  import opened AccessModes
  import opened RegistryLaws
  import opened Views
  import opened Watching
  import opened DiscoveryServiceObject
  import Store

  /**
   * A snapshot is answered exactly for a readable namespace, with the stored instances of the service, or of
   * the namespace, that the given filters let through; unhealthy ones only if they are asked for.
   */
  lemma SnapshotShowsExactly(db: State, input: SnapshotInput, r: Result<seq<Instance>>, i: Instance)
    requires WellPlaced(db) && ListReturns(r, db, FilterOf(input))
    ensures r.Ok? <==> Readable(db, input.namespace)
    ensures r.Ok? ==>
              (i in r.value <==>
                 && i.namespace == input.namespace && (input.service == "" || i.service == input.service)
                 && GetInstance(db, i.namespace, i.service, i.instanceID) == Ok(i)
                 && (i.status == Health || input.healthyOnly == Some(false))
                 && (input.group == "" || i.group == input.group)
                 && (input.version == "" || i.version == input.version)
                 && (forall key :: key in input.metadata ==>
                       || (key in i.Meta() && i.Meta()[key] == input.metadata[key])
                       || (key !in i.Meta() && input.metadata[key] == "")))
  {
    ReadCheckExactly(db, input.namespace, false);
    StoredMode(db, input.namespace);
    if r.Ok? {
      assert ValidName(input.namespace) && SlashFree(input.namespace);
      hide WellPlaced, CheckRead, IsListing, Readable, ValidName;
      ListingShowsExactly(db, FilterOf(input), r.value, i);
    }
  }

  // ---------------------------------------------------------------------- streams

  /** Every item is a change of an instance, so nothing ends the stream. */
  predicate OnlyInstances(feed: seq<Feed>) {
    forall n :: 0 <= n < |feed| ==> feed[n].Change? && feed[n].event.value.InstanceV?
  }

  /** What the next item adds to a stream that has not ended: its event, unless it is the put of an unhealthy instance. */
  lemma {:induction false} NextItemAdds(feed: seq<Feed>, item: Feed, healthyOnly: bool)
    requires OnlyInstances(feed)
    ensures Translated(feed + [item], healthyOnly) == Translated(feed, healthyOnly) +
            match item
            case Compacted(revision) => [Reset(revision)]
            case Change(e) =>
              if !e.value.InstanceV? || (healthyOnly && e.kind == Store.PutEvent && e.value.instance.status != Health) then []
              else [Changed(e.kind, e.key, e.revision, e.value.instance)]
    decreases |feed|
  {
    if feed == [] {
      assert feed + [item] == [item] + [];
      ToldFirst(item, [], healthyOnly);
      NothingToTell(healthyOnly);
    } else {
      assert feed == [feed[0]] + feed[1..] && feed + [item] == [feed[0]] + (feed[1..] + [item]);
      NextItemAdds(feed[1..], item, healthyOnly);
      ToldFirst(feed[0], feed[1..], healthyOnly);
      ToldFirst(feed[0], feed[1..] + [item], healthyOnly);
      hide Translated;
    }
  }

  /** A compaction or a foreign document is the end: whatever follows is never passed on. */
  lemma {:induction false} NothingAfterTheEnd(feed: seq<Feed>, end: Feed, rest: seq<Feed>, healthyOnly: bool)
    requires OnlyInstances(feed) && (end.Compacted? || !end.event.value.InstanceV?)
    ensures Translated(feed + [end] + rest, healthyOnly) == Translated(feed + [end], healthyOnly)
    decreases |feed|
  {
    if feed == [] {
      assert feed + [end] + rest == [end] + rest && feed + [end] == [end] + [];
      ToldFirst(end, rest, healthyOnly);
      ToldFirst(end, [], healthyOnly);
    } else {
      assert feed + [end] + rest == [feed[0]] + (feed[1..] + [end] + rest);
      assert feed + [end] == [feed[0]] + (feed[1..] + [end]);
      NothingAfterTheEnd(feed[1..], end, rest, healthyOnly);
      ToldFirst(feed[0], feed[1..] + [end] + rest, healthyOnly);
      ToldFirst(feed[0], feed[1..] + [end], healthyOnly);
      hide Translated;
    }
  }
}
