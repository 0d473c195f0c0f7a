/** Which agent cards are accepted, what a put leaves behind and what discovery then answers, field by field. */
module AgentLaws {
  import opened Outcome
  import opened Model
  import opened Keyspace
  import opened Services
  import opened Invariants
  import opened CapabilityIndex
  import opened AccessModes
  import opened ConfigLaws
  import opened Views
  import Store
  import Text

  predicate StorableCard(card: AgentCard) {
    && ValidName(card.namespace) && ValidName(card.service) && ValidInstanceID(card.agentID)
    && card.capabilities != [] && (forall c :: c in card.capabilities ==> ValidCapability(c))
    && card.protocols != [] && (forall p :: p in card.protocols ==> ValidProtocol(p))
    && (card.authMode == NoAuth || card.authMode == StaticToken || card.authMode == MTLS)
    && ValidMetadata(card.metadata)
  }

  lemma CardIsStorable(card: AgentCard)
    ensures card.Valid() <==> StorableCard(card)
  {
    hide ValidName, ValidInstanceID, ValidCapability, ValidProtocol, ValidMetadata;
  }

  lemma UnreadableIsForbidden(db: State, ns: string)
    requires WellPlaced(db)
    ensures Readable(db, ns) ==> CheckRead(db, ns, false) == Ok(())
    ensures Writable(db, ns) && !Readable(db, ns) ==> CheckRead(db, ns, false) == Err(Forbidden)
  {
    hide WellPlaced, ValidName;
    StoredMode(db, ns);
    ReadCheckExactly(db, ns, false);
    hide CheckRead;
  }

  lemma StoredCard(db: State, ns: string, agent: string)
    requires WellPlaced(db) && CardK(ns, agent) in db.data
    ensures db.data[CardK(ns, agent)].value.CardV? && db.data[CardK(ns, agent)].revision > 0
  {
    RevisionsArePositive(db, CardK(ns, agent));
    assert Placed(CardK(ns, agent), db.data[CardK(ns, agent)].value);
  }

  /**
   * A card is created exactly where there is none and updated exactly at its stored revision; both
   * need a writable namespace, and the update, which reads the card first, a readable one too.
   */
  lemma CardPutAcceptedExactly(db: State, card: AgentCard, expected: int, created: Time, updated: Time)
    requires WellPlaced(db)
    ensures var k := CardK(card.namespace, card.agentID);
            var (db', r) := PutCard(db, card, expected, created, updated);
            && (r.Ok? <==>
                  && Writable(db, card.namespace) && StorableCard(card) && ExpectedAt(db, k, expected)
                  && (expected != 0 ==> Readable(db, card.namespace)))
            && (r.Err? ==>
                  && db' == db
                  && r.code ==
                     if !Writable(db, card.namespace) then ClosedCode(db, card.namespace)
                     else if !StorableCard(card) then InvalidArgument
                     else if expected == 0 then AlreadyExists
                     else if expected < 0 then Conflict
                     else if !Readable(db, card.namespace) then Forbidden
                     else if k !in db.data then NotFound
                     else Conflict)
  {
    hide WellPlaced, CheckWrite, CheckRead, StorableCard, AgentCard.Valid, Writable, Readable, ClosedCode, Reindexed, Store.Write;
    CardIsStorable(card);
    ClosedIsRefused(db, card.namespace);
    UnreadableIsForbidden(db, card.namespace);
    if CardK(card.namespace, card.agentID) in db.data {
      StoredCard(db, card.namespace, card.agentID);
    }
  }

  /** An accepted put stores the card as sent, created when the card it replaces was and updated now. */
  lemma CardPutStores(db: State, card: AgentCard, expected: int, created: Time, updated: Time)
    requires WellPlaced(db) && PutCard(db, card, expected, created, updated).1.Ok?
    ensures var k := CardK(card.namespace, card.agentID);
            var (db', r) := PutCard(db, card, expected, created, updated);
            var born := if k in db.data && db.data[k].value.CardV? then db.data[k].value.card.createdAt else created;
            && r.value == card.(createdAt := born, updatedAt := updated, revision := db.revision + 1)
            && GetCard(db', card.namespace, card.agentID, true) == r
  {
    hide WellPlaced, PutCard, PreparedCard, Reindexed;
    var k := CardK(card.namespace, card.agentID);
    PutCardReplacesWhatItRead(db, card, expected, created, updated);
    var (next, previous) := PreparedCard(db, card, expected, created, updated).value;
    PreparedFields(db, card, expected, created, updated);
    AnsweredCard(db, card, expected, created, updated);
    ReindexedEntries(Store.Write(db, k, CardV(next), 0), next, previous, k);
  }

  /** Then the agent has one index entry per listed capability and no other, naming its service. */
  lemma CardPutIndexes(db: State, card: AgentCard, expected: int, created: Time, updated: Time, capability: string)
    requires WellPlaced(db) && IndexAgrees(db) && PutCard(db, card, expected, created, updated).1.Ok?
    ensures var (db', e) := (PutCard(db, card, expected, created, updated).0, CapabilityK(card.namespace, capability, card.agentID));
            && (e in db'.data <==> capability in card.capabilities)
            && (e in db'.data ==> db'.data[e].value == EntryV(CapabilityEntry(card.agentID, card.service)))
  {
    CardPutStores(db, card, expected, created, updated);
    PutCardKeepsAgreement(db, card, expected, created, updated);
    hide WellPlaced, PutCard, IndexAgrees;
    AgreementAt(PutCard(db, card, expected, created, updated).0, card.namespace, capability, card.agentID);
  }

  /** Everything but the card and its own index entries stays as it was. */
  lemma CardPutTouchesNothingElse(db: State, card: AgentCard, expected: int, created: Time, updated: Time, other: Key)
    requires WellPlaced(db) && PutCard(db, card, expected, created, updated).1.Ok?
    requires other != CardK(card.namespace, card.agentID)
    requires !(other.CapabilityK? && other.ns == card.namespace && other.agent == card.agentID)
    ensures Same(db, PutCard(db, card, expected, created, updated).0, other)
  {
    hide WellPlaced, PutCard, PreparedCard, Reindexed;
    PutCardReplacesWhatItRead(db, card, expected, created, updated);
    var (next, previous) := PreparedCard(db, card, expected, created, updated).value;
    ReindexedEntries(Store.Write(db, CardK(card.namespace, card.agentID), CardV(next), 0), next, previous, other);
  }

  lemma AgreementAt(db: State, ns: string, capability: string, agent: string)
    requires IndexAgrees(db)
    ensures IndexedAt(db, ns, capability, agent)
  {
  }

  lemma PreparedFields(db: State, card: AgentCard, expected: int, created: Time, updated: Time)
    requires PreparedCard(db, card, expected, created, updated).Ok?
    ensures var (next, previous) := PreparedCard(db, card, expected, created, updated).value;
            next == card.(createdAt := if previous.Some? then previous.value.createdAt else created, updatedAt := updated)
  {
    hide GetCard;
  }

  lemma AnsweredCard(db: State, card: AgentCard, expected: int, created: Time, updated: Time)
    requires PutCard(db, card, expected, created, updated).1.Ok?
    ensures PreparedCard(db, card, expected, created, updated).Ok?
    ensures PutCard(db, card, expected, created, updated).1.value ==
            PreparedCard(db, card, expected, created, updated).value.0.(revision := db.revision + 1)
  {
    hide CheckWrite, AgentCard.Valid, Reindexed, PreparedCard;
  }

  /** Discovery is answered exactly to readers of the namespace who ask for a well-formed capability, in order. */
  lemma DiscoveryAnswers(db: State, input: DiscoverInput, r: Result<seq<DiscoveryResult>>)
    requires WellPlaced(db) && DiscoverReturns(r, db, input)
    ensures r.Ok? <==> (input.admin || Readable(db, input.namespace)) && ValidCapability(input.capability)
    ensures r.Ok? ==>
              forall a, b :: 0 <= a < b < |r.value| ==>
                || Text.Less(r.value[a].agentID, r.value[b].agentID)
                || (r.value[a].agentID == r.value[b].agentID && !Text.Less(r.value[b].address, r.value[a].address))
  {
    ReadCheckExactly(db, input.namespace, input.admin);
    hide WellPlaced, CheckRead, Readable, ValidCapability, Text.Less, IsJoin;
    if r.Ok? {
      forall a, b | 0 <= a < b < |r.value|
        ensures ResultOrder(r.value[a], r.value[b])
        ensures Text.LessEq(r.value[a].address, r.value[b].address) ==> !Text.Less(r.value[b].address, r.value[a].address)
      {
        Text.LessIsTotal(r.value[a].address, r.value[b].address);
      }
    }
  }

  /** Discovery by any capability of a card just put answers every running instance of its agent. */
  lemma AcceptedCardIsDiscovered(db: State, card: AgentCard, expected: int, created: Time, updated: Time,
                                 input: DiscoverInput, results: seq<DiscoveryResult>, pairs: seq<(AgentCard, Instance)>,
                                 id: string)
    requires WellPlaced(db) && PutCard(db, card, expected, created, updated).1.Ok?
    requires IsSortedJoin(results, pairs, PutCard(db, card, expected, created, updated).0, input)
    requires input.namespace == card.namespace && input.capability in card.capabilities
    requires input.protocol == "" || input.protocol in card.protocols
    requires GetInstance(db, card.namespace, card.service, id).Ok?
    requires var i := GetInstance(db, card.namespace, card.service, id).value;
             i.agentID == card.agentID && (input.includeUnhealthy || i.status == Health)
    ensures var i := GetInstance(db, card.namespace, card.service, id).value;
            exists r :: r in results &&
              r.agentID == card.agentID && r.service == card.service && r.address == i.address && r.port == i.port &&
              r.status == i.status && r.protocols == card.protocols && r.authMode == card.authMode && r.metadata == card.metadata
  {
    FoundInstance(db, card.namespace, card.service, id);
    CardPutStores(db, card, expected, created, updated);
    var (db', r) := PutCard(db, card, expected, created, updated);
    var i := GetInstance(db, card.namespace, card.service, id).value;
    CardPutTouchesNothingElse(db, card, expected, created, updated, InstanceK(card.namespace, card.service, id));
    hide WellPlaced, PutCard, IsSortedJoin, Instance.Valid, Normalize, CheckRead;
    StoredEndpointsHaveResults(results, pairs, db', input, r.value, i);
  }
}
