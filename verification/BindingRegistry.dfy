/** The registry of Zabbix host ids in CMDBuild: written by the binding service from events, read by the
    converter when it routes an update to a host. */
module BindingRegistry {
  import opened Text
  import opened BindingPublisher

  datatype Binding = Binding(
    ownerClass: string, ownerCardId: string, ownerCode: Option<string>, hostProfile: string, hostId: Option<string>,
    hostName: Option<string>, status: Option<string>, rulesVersion: Option<string>)

  /** How CMDBuild compares filter values and card addresses, and the lookup limit the services ask with. */
  datatype Server = Server(exact: bool, limit: int)

  /** Binding cards in creation order, a card's id being its position, and the main host id attribute of every
      source card. */
  datatype Store = Store(bindings: seq<Binding>, mains: map<(string, string), Option<string>>)

  /** An answer to the read a writer makes first; a refusal is status 400 or 404, and an answer that yields nothing has
      no document, no data or a card without an id. */
  datatype ReadFault = Answers | Refuses | Breaks | YieldsNothing

  /** A write may get lost on the way there, or its answer on the way back. */
  datatype WriteFault = Writes | LosesRequest | LosesAnswer

  datatype Faults = Faults(read: ReadFault, write: WriteFault)

  datatype Effect = Effect(store: Store, sent: bool, raised: bool)

  /** What a reader asks for. */
  datatype Ask = Ask(sourceClass: string, sourceCardId: string, hostProfile: string, isMainProfile: bool)

  function Norm(server: Server, text: string): string {
    if server.exact then text else Fold(text)
  }

  function BindingKey(server: Server, binding: Binding): (string, string, string) {
    (Norm(server, binding.ownerClass), Norm(server, binding.ownerCardId), Norm(server, binding.hostProfile))
  }

  function AskKey(server: Server, ask: Ask): (string, string, string) {
    (Norm(server, ask.sourceClass), Norm(server, ask.sourceCardId), Norm(server, ask.hostProfile))
  }

  function CardKey(server: Server, ask: Ask): (string, string) {
    (Norm(server, ask.sourceClass), Norm(server, ask.sourceCardId))
  }

  function AskOf(event: BindingEvent): Ask {
    Ask(event.sourceClass, event.sourceCardId, event.hostProfile, event.isMainProfile)
  }

  /** The cards a filter finds. */
  function Positions(server: Server, bindings: seq<Binding>, key: (string, string, string)): (r: seq<nat>)
    ensures forall k :: 0 <= k < |r| ==> r[k] < |bindings| && BindingKey(server, bindings[r[k]]) == key
  {
    if bindings == [] then []
    else
      var last := |bindings| - 1;
      Positions(server, bindings[..last], key) + (if BindingKey(server, bindings[last]) == key then [last] else [])
  }

  /** The answer to a lookup: as many of them as the limit allows, but at least one. */
  function Lookup(server: Server, bindings: seq<Binding>, ask: Ask): (r: seq<nat>)
    ensures forall k :: 0 <= k < |r| ==> r[k] < |bindings| && BindingKey(server, bindings[r[k]]) == AskKey(server, ask)
  {
    var found, limit := Positions(server, bindings, AskKey(server, ask)), if server.limit < 1 then 1 else server.limit;
    if |found| <= limit then found else found[..limit]
  }

  predicate IsOwn(binding: Binding, ask: Ask) {
    && Same(binding.ownerClass, ask.sourceClass) && Same(binding.ownerCardId, ask.sourceCardId)
    && Same(binding.hostProfile, ask.hostProfile)
  }

  predicate DeletedStatus(status: Option<string>) {
    status.Some? && Same(status.value, "deleted")
  }

  predicate Deleted(event: BindingEvent) {
    DeletedStatus(Some(event.bindingStatus)) || Same(event.operation, "host.delete")
  }

  // ---------------------------------------------------------------- the reader

  function FirstActive(bindings: seq<Binding>, found: seq<nat>, ask: Ask): Option<string>
    requires forall k :: 0 <= k < |found| ==> found[k] < |bindings|
  {
    if found == [] then None
    else
      var binding := bindings[found[0]];
      if IsOwn(binding, ask) && !DeletedStatus(binding.status) && !Missing(binding.hostId) then binding.hostId
      else FirstActive(bindings, found[1..], ask)
  }

  /** The stored host id the converter gets; a card that does not exist raises, which reads as nothing. */
  function Resolve(server: Server, store: Store, ask: Ask): Option<string> {
    if Blank(ask.sourceClass) || Blank(ask.sourceCardId) then None
    else if ask.isMainProfile then
      if CardKey(server, ask) in store.mains then store.mains[CardKey(server, ask)] else None
    else FirstActive(store.bindings, Lookup(server, store.bindings, ask), ask)
  }

  // ---------------------------------------------------------------- the writer

  function Send(store: Store, updated: Store, fault: WriteFault): Effect {
    match fault
    case Writes => Effect(updated, true, false)
    case LosesRequest => Effect(store, true, true)
    case LosesAnswer => Effect(updated, true, true)
  }

  predicate BindingValueMatches(left: Option<string>, right: Option<string>) {
    (Missing(left) && Missing(right)) || SameScalar(left, right)
  }

  function UpdateMainHostId(server: Server, store: Store, event: BindingEvent, faults: Faults): Effect {
    var key := CardKey(server, AskOf(event));
    var desired := if Deleted(event) then None else Some(event.zabbixHostId);
    if faults.read.Refuses? || (faults.read.Answers? && key !in store.mains) then Effect(store, false, false)
    else if faults.read.Answers? && BindingValueMatches(store.mains[key], desired) then Effect(store, false, false)
    else if key !in store.mains then Effect(store, true, true)
    else Send(store, store.(mains := store.mains[key := desired]), faults.write)
  }

  function FirstOwn(bindings: seq<Binding>, found: seq<nat>, ask: Ask): (r: Option<nat>)
    requires forall k :: 0 <= k < |found| ==> found[k] < |bindings|
    ensures r.Some? ==> r.value < |bindings|
  {
    if found == [] then None
    else if IsOwn(bindings[found[0]], ask) then Some(found[0])
    else FirstOwn(bindings, found[1..], ask)
  }

  function BindingBody(event: BindingEvent): Binding {
    Binding(event.sourceClass, event.sourceCardId, event.sourceCode, event.hostProfile, Some(event.zabbixHostId),
            event.zabbixHostName, Some(event.bindingStatus), event.rulesVersion)
  }

  predicate ProfileBindingMatches(binding: Binding, event: BindingEvent) {
    && IsOwn(binding, AskOf(event)) && SameScalar(binding.ownerCode, event.sourceCode)
    && SameScalar(binding.hostId, Some(event.zabbixHostId)) && SameScalar(binding.hostName, event.zabbixHostName)
    && SameScalar(binding.status, Some(event.bindingStatus)) && SameScalar(binding.rulesVersion, event.rulesVersion)
  }

  function UpsertProfileBinding(server: Server, store: Store, event: BindingEvent, faults: Faults): Effect {
    var found := if faults.read.YieldsNothing? then None
      else FirstOwn(store.bindings, Lookup(server, store.bindings, AskOf(event)), AskOf(event));
    if faults.read.Refuses? || faults.read.Breaks? then Effect(store, false, true)
    else if found.None? then Send(store, store.(bindings := store.bindings + [BindingBody(event)]), faults.write)
    else if ProfileBindingMatches(store.bindings[found.value], event) then Effect(store, false, false)
    else Send(store, store.(bindings := store.bindings[found.value := BindingBody(event)]), faults.write)
  }

  function Apply(server: Server, store: Store, event: BindingEvent, faults: Faults): Effect {
    if event.isMainProfile then UpdateMainHostId(server, store, event, faults)
    else UpsertProfileBinding(server, store, event, faults)
  }

  /** The store as the binding service changes it, one request at a time. */
  class Cmdbuild {
    const server: Server
    var bindings: seq<Binding>
    var mains: map<(string, string), Option<string>>

    function Contents(): Store
      reads this
    {
      Store(bindings, mains)
    }

    constructor (server: Server, mains: map<(string, string), Option<string>>)
      ensures Contents() == Store([], mains) && this.server == server
    {
      this.server := server;
      this.mains := mains;
      bindings := [];
    }

    method PutMain(key: (string, string), value: Option<string>, fault: WriteFault) returns (raised: bool)
      modifies this`mains
      ensures key !in old(mains) ==> mains == old(mains) && raised
      ensures key in old(mains) ==>
          raised == !fault.Writes? && mains == if fault.LosesRequest? then old(mains) else old(mains)[key := value]
    {
      if key in mains && !fault.LosesRequest? {
        mains := mains[key := value];
        raised := fault.LosesAnswer?;
      } else {
        raised := true;
      }
    }

    method WriteBinding(position: Option<nat>, body: Binding, fault: WriteFault) returns (raised: bool)
      requires position.Some? ==> position.value < |bindings|
      modifies this`bindings
      ensures raised == !fault.Writes?
      ensures bindings ==
              if fault.LosesRequest? then old(bindings)
              else if position.None? then old(bindings) + [body] else old(bindings)[position.value := body]
    {
      raised := !fault.Writes?;
      if !fault.LosesRequest? {
        bindings := if position.None? then bindings + [body] else bindings[position.value := body];
      }
    }

    /** ApplyAsync. */
    method ApplyEvent(event: BindingEvent, faults: Faults) returns (sent: bool, raised: bool)
      modifies this
      ensures Effect(Contents(), sent, raised) == Apply(server, old(Contents()), event, faults)
    {
      hide Norm, Blank, Same, Deleted, IsOwn, Missing, SameScalar, BindingBody;
      if event.isMainProfile {
        var desired := if Deleted(event) then None else Some(event.zabbixHostId);
        var key := CardKey(server, AskOf(event));
        if faults.read.Refuses? || (faults.read.Answers? && key !in mains) {
          return false, false;
        }
        if faults.read.Answers? && BindingValueMatches(mains[key], desired) {
          return false, false;
        }
        sent := true;
        raised := PutMain(key, desired, faults.write);
      } else {
        if faults.read.Refuses? || faults.read.Breaks? {
          return false, true;
        }
        var existing := if faults.read.YieldsNothing? then None
          else FirstOwn(bindings, Lookup(server, bindings, AskOf(event)), AskOf(event));
        if existing.Some? && ProfileBindingMatches(bindings[existing.value], event) {
          return false, false;
        }
        sent := true;
        raised := WriteBinding(existing, BindingBody(event), faults.write);
      }
    }
  }

  // ---------------------------------------------------------------- one card per key

  /** No two binding cards have the same class, card and profile. */
  ghost predicate OneCardPerKey(server: Server, store: Store) {
    forall i, j :: 0 <= i < j < |store.bindings| ==>
        BindingKey(server, store.bindings[i]) != BindingKey(server, store.bindings[j])
  }

  lemma {:induction false} PositionsUnique(server: Server, bindings: seq<Binding>, i: nat)
    requires i < |bindings|
    requires forall i, j :: 0 <= i < j < |bindings| ==>
               BindingKey(server, bindings[i]) != BindingKey(server, bindings[j])
    ensures Positions(server, bindings, BindingKey(server, bindings[i])) == [i]
  {
    hide BindingKey;
    var last := |bindings| - 1;
    if i == last {
      PositionsNone(server, bindings[..last], BindingKey(server, bindings[i]));
    } else {
      PositionsUnique(server, bindings[..last], i);
    }
  }

  lemma {:induction false} PositionsNone(server: Server, bindings: seq<Binding>, key: (string, string, string))
    requires forall i :: 0 <= i < |bindings| ==> BindingKey(server, bindings[i]) != key
    ensures Positions(server, bindings, key) == []
  {
    hide BindingKey;
    if bindings != [] {
      PositionsNone(server, bindings[..|bindings| - 1], key);
    }
  }

  lemma OwnFound(server: Server, binding: Binding, ask: Ask)
    requires BindingKey(server, binding) == AskKey(server, ask)
    ensures IsOwn(binding, ask)
  {
  }

  /** What a lookup finds when there is one card per key: that card, if it is there. */
  lemma LookupShape(server: Server, store: Store, ask: Ask)
    requires OneCardPerKey(server, store)
    ensures |Lookup(server, store.bindings, ask)| <= 1
    ensures Lookup(server, store.bindings, ask) == [] <==>
            forall i :: 0 <= i < |store.bindings| ==> BindingKey(server, store.bindings[i]) != AskKey(server, ask)
    ensures FirstOwn(store.bindings, Lookup(server, store.bindings, ask), ask) ==
            if Lookup(server, store.bindings, ask) == [] then None else Some(Lookup(server, store.bindings, ask)[0])
  {
    hide BindingKey, AskKey, IsOwn;
    var key := AskKey(server, ask);
    if i :| 0 <= i < |store.bindings| && BindingKey(server, store.bindings[i]) == key {
      PositionsUnique(server, store.bindings, i);
      OwnFound(server, store.bindings[i], ask);
    } else {
      PositionsNone(server, store.bindings, key);
    }
  }

  lemma BodyKey(server: Server, event: BindingEvent)
    ensures BindingKey(server, BindingBody(event)) == AskKey(server, AskOf(event))
  {
  }

  ghost predicate HasCard(server: Server, store: Store, key: (string, string, string)) {
    exists i :: 0 <= i < |store.bindings| && BindingKey(server, store.bindings[i]) == key
  }

  /** The lookup yields nothing although there is a card, and the card that is created gets there. */
  ghost predicate Duplicates(server: Server, store: Store, event: BindingEvent, faults: Faults) {
    && !event.isMainProfile && faults.read.YieldsNothing? && !faults.write.LosesRequest?
    && HasCard(server, store, AskKey(server, AskOf(event)))
  }

  /** An event makes a second card for a key exactly when the lookup of a card that is there yields nothing and the
      creation gets there; whatever else fails. */
  lemma ApplyKeepsOneCard(server: Server, store: Store, event: BindingEvent, faults: Faults)
    requires OneCardPerKey(server, store)
    ensures OneCardPerKey(server, Apply(server, store, event, faults).store)
            <==> !Duplicates(server, store, event, faults)
    ensures Apply(server, store, event, faults).store.mains.Keys == store.mains.Keys
  {
    hide BindingKey, AskKey, IsOwn, BindingBody, ProfileBindingMatches, BindingValueMatches, Deleted, Norm, Lookup;
    hide FirstOwn;
    LookupShape(server, store, AskOf(event));
    BodyKey(server, event);
    if Duplicates(server, store, event, faults) {
      var after := Apply(server, store, event, faults).store;
      var i :| 0 <= i < |store.bindings| && BindingKey(server, store.bindings[i]) == AskKey(server, AskOf(event));
      assert after.bindings[i] == store.bindings[i] && after.bindings[|store.bindings|] == BindingBody(event);
    }
  }

  // ---------------------------------------------------------------- one event

  const FAULTLESS := Faults(Answers, Writes)

  /** The event changed the store, or found it as it would leave it. */
  predicate Effective(event: BindingEvent, faults: Faults) {
    && !faults.write.LosesRequest?
    && if event.isMainProfile then !faults.read.Refuses? else faults.read.Answers? || faults.read.YieldsNothing?
  }

  predicate Addresses(server: Server, event: BindingEvent, ask: Ask) {
    && event.isMainProfile == ask.isMainProfile && CardKey(server, AskOf(event)) == CardKey(server, ask)
    && (event.isMainProfile || AskKey(server, AskOf(event)) == AskKey(server, ask))
  }

  /** Applying the event now would write nothing. */
  predicate Settled(server: Server, store: Store, event: BindingEvent) {
    !Apply(server, store, event, FAULTLESS).sent
  }

  /** A host id as a reader sees it: nothing when it is blank, and up to case. */
  function Seen(hostId: Option<string>): Option<string> {
    if Missing(hostId) then None else Some(Fold(hostId.value))
  }

  function SaidBy(event: BindingEvent): Option<string> {
    if Deleted(event) then None else Some(Fold(event.zabbixHostId))
  }

  lemma NormSame(server: Server, left: string, right: string)
    requires Norm(server, left) == Norm(server, right)
    ensures Same(left, right)
  {
  }

  /** Host ids without letters are seen exactly. */
  lemma SeenExactly(left: string, right: string)
    requires Same(left, right) && forall c :: c in right ==> !('a' <= c <= 'z' || 'A' <= c <= 'Z')
    ensures left == right
  {
    assert |left| == |Fold(left)| == |right|;
    forall i | 0 <= i < |left|
      ensures left[i] == right[i]
    {
      assert right[i] in right && FoldChar(left[i]) == Fold(left)[i] == FoldChar(right[i]);
    }
  }

  lemma BodyMatches(event: BindingEvent)
    ensures ProfileBindingMatches(BindingBody(event), event)
  {
    hide Fold;
  }

  lemma MainSettles(server: Server, store: Store, event: BindingEvent, faults: Faults)
    requires event.isMainProfile && Effective(event, faults)
    ensures Settled(server, Apply(server, store, event, faults).store, event)
  {
    hide Deleted, Norm, Missing, SameScalar;
    MatchesItself();
  }

  /** After an effective profile event its card is the one looked up and says what the event says. */
  lemma ProfileCard(server: Server, store: Store, event: BindingEvent, faults: Faults) returns (i: nat)
    requires OneCardPerKey(server, store) && !event.isMainProfile && Effective(event, faults)
    ensures var after := Apply(server, store, event, faults).store;
            i < |after.bindings| && BindingKey(server, after.bindings[i]) == AskKey(server, AskOf(event)) &&
            ProfileBindingMatches(after.bindings[i], event)
  {
    hide BindingKey, AskKey, IsOwn, BindingBody, ProfileBindingMatches, Norm, Lookup, FirstOwn;
    LookupShape(server, store, AskOf(event));
    BodyMatches(event);
    BodyKey(server, event);
    var found := Lookup(server, store.bindings, AskOf(event));
    i := if found == [] || faults.read.YieldsNothing? then |store.bindings| else found[0];
  }

  lemma ApplySettles(server: Server, store: Store, event: BindingEvent, faults: Faults)
    requires OneCardPerKey(server, store) && Effective(event, faults) && !Duplicates(server, store, event, faults)
    ensures Settled(server, Apply(server, store, event, faults).store, event)
  {
    if event.isMainProfile {
      MainSettles(server, store, event, faults);
    } else {
      var after := Apply(server, store, event, faults).store;
      var i := ProfileCard(server, store, event, faults);
      ApplyKeepsOneCard(server, store, event, faults);
      assert OneCardPerKey(server, after);
      CardSettles(server, after, event, i);
    }
  }

  lemma CardSettles(server: Server, store: Store, event: BindingEvent, i: nat)
    requires OneCardPerKey(server, store) && !event.isMainProfile && i < |store.bindings|
    requires BindingKey(server, store.bindings[i]) == AskKey(server, AskOf(event))
             && ProfileBindingMatches(store.bindings[i], event)
    ensures Settled(server, store, event)
  {
    hide BindingKey, AskKey, IsOwn, BindingBody, ProfileBindingMatches, Norm, Lookup, FirstOwn;
    LookupShape(server, store, AskOf(event));
    var j := Lookup(server, store.bindings, AskOf(event))[0];
    assert i == j;
  }

  lemma MatchesItself()
    ensures forall value :: SameScalar(value, value)
  {
  }

  lemma SettledResolves(server: Server, store: Store, event: BindingEvent, ask: Ask)
    requires OneCardPerKey(server, store) && Settled(server, store, event) && Shaped(event)
             && Addresses(server, event, ask)
    requires ask.isMainProfile ==> CardKey(server, ask) in store.mains
    ensures Seen(Resolve(server, store, ask)) == SaidBy(event)
  {
    hide Settled, OneCardPerKey, Norm, Seen, SaidBy, Lookup, FirstActive;
    AddressedNotBlank(server, event, ask);
    if event.isMainProfile {
      SettledMain(server, store, event, ask);
    } else {
      SettledProfile(server, store, event, ask);
    }
  }

  lemma SettledProfile(server: Server, store: Store, event: BindingEvent, ask: Ask)
    requires OneCardPerKey(server, store) && Settled(server, store, event) && Shaped(event)
    requires !event.isMainProfile && AskKey(server, AskOf(event)) == AskKey(server, ask)
    ensures Seen(FirstActive(store.bindings, Lookup(server, store.bindings, ask), ask)) == SaidBy(event)
  {
    hide Blank, Fold, Norm, BindingKey, AskKey, IsOwn, ProfileBindingMatches, Lookup, FirstOwn, Deleted, DeletedStatus;
    hide FirstActive;
    LookupShape(server, store, ask);
    LookupShape(server, store, AskOf(event));
    SameLookup(server, store.bindings, ask, AskOf(event));
    var i := Lookup(server, store.bindings, ask)[0];
    assert Lookup(server, store.bindings, ask) == [i];
    OwnFound(server, store.bindings[i], ask);
    SettledCard(store.bindings[i], event);
    ActiveOfOne(store.bindings, i, ask);
  }

  lemma ActiveOfOne(bindings: seq<Binding>, i: nat, ask: Ask)
    requires i < |bindings| && IsOwn(bindings[i], ask) && !Missing(bindings[i].hostId)
    ensures FirstActive(bindings, [i], ask) == if DeletedStatus(bindings[i].status) then None else bindings[i].hostId
  {
    hide IsOwn, Missing, DeletedStatus;
    assert [i][1..] == [];
    assert FirstActive(bindings, [i][1..], ask) == None;
  }

  lemma AddressedNotBlank(server: Server, event: BindingEvent, ask: Ask)
    requires Shaped(event) && Addresses(server, event, ask)
    ensures !Blank(ask.sourceClass) && !Blank(ask.sourceCardId)
  {
    hide Blank, BindingStatus;
    NormSame(server, event.sourceClass, ask.sourceClass);
    NormSame(server, event.sourceCardId, ask.sourceCardId);
    SameBlank(event.sourceClass, ask.sourceClass);
    SameBlank(event.sourceCardId, ask.sourceCardId);
  }

  lemma SettledMain(server: Server, store: Store, event: BindingEvent, ask: Ask)
    requires Settled(server, store, event) && event.isMainProfile && !Blank(event.zabbixHostId)
    requires Addresses(server, event, ask) && CardKey(server, ask) in store.mains
    ensures Seen(store.mains[CardKey(server, ask)]) == SaidBy(event)
  {
    hide Deleted, Norm;
    var current := store.mains[CardKey(server, ask)];
    assert BindingValueMatches(current, if Deleted(event) then None else Some(event.zabbixHostId));
    if Deleted(event) {
      if SameScalar(current, None) {
        SameBlank(TextOf(current), "");
      }
    } else {
      SameBlank(TextOf(current), event.zabbixHostId);
    }
  }

  lemma SettledCard(binding: Binding, event: BindingEvent)
    requires ProfileBindingMatches(binding, event) && Shaped(event)
    ensures !Missing(binding.hostId) && Fold(binding.hostId.value) == Fold(event.zabbixHostId)
    ensures DeletedStatus(binding.status) <==> Deleted(event)
  {
    SameBlank(TextOf(binding.hostId), event.zabbixHostId);
    assert |Fold(event.bindingStatus)| > 0 && |Fold("")| == 0;
    assert Fold("active")[0] == 'a' && Fold("deleted")[0] == 'd';
  }

  lemma SameLookup(server: Server, bindings: seq<Binding>, left: Ask, right: Ask)
    requires AskKey(server, left) == AskKey(server, right)
    ensures Lookup(server, bindings, left) == Lookup(server, bindings, right)
  {
  }

  // ---------------------------------------------------------------- events for other keys

  lemma {:induction false} SamePositions(
    server: Server, left: seq<Binding>, right: seq<Binding>, key: (string, string, string))
    requires |left| <= |right|
    requires forall i :: 0 <= i < |left| ==>
               (BindingKey(server, left[i]) == key <==> BindingKey(server, right[i]) == key)
    requires forall i :: |left| <= i < |right| ==> BindingKey(server, right[i]) != key
    ensures Positions(server, left, key) == Positions(server, right, key)
    decreases |right|
  {
    hide BindingKey;
    if |left| < |right| {
      SamePositions(server, left, right[..|right| - 1], key);
    } else if left != [] {
      SamePositions(server, left[..|left| - 1], right[..|right| - 1], key);
    }
  }

  lemma SameLookups(server: Server, left: seq<Binding>, right: seq<Binding>, ask: Ask)
    requires |left| <= |right|
    requires forall i :: 0 <= i < |left| ==>
               (BindingKey(server, left[i]) == AskKey(server, ask) <==>
                BindingKey(server, right[i]) == AskKey(server, ask))
    requires forall i :: |left| <= i < |right| ==> BindingKey(server, right[i]) != AskKey(server, ask)
    ensures Lookup(server, left, ask) == Lookup(server, right, ask)
  {
    hide BindingKey, AskKey;
    SamePositions(server, left, right, AskKey(server, ask));
  }

  /** A profile event leaves the lookups of other keys and the cards they find alone. */
  lemma OtherLookup(server: Server, store: Store, event: BindingEvent, faults: Faults, ask: Ask)
    requires !event.isMainProfile && AskKey(server, AskOf(event)) != AskKey(server, ask)
    ensures var after := Apply(server, store, event, faults).store;
            && Lookup(server, after.bindings, ask) == Lookup(server, store.bindings, ask)
            && |store.bindings| <= |after.bindings|
            && forall k :: 0 <= k < |Lookup(server, store.bindings, ask)| ==>
                 after.bindings[Lookup(server, store.bindings, ask)[k]] ==
                     store.bindings[Lookup(server, store.bindings, ask)[k]]
  {
    hide BindingKey, AskKey, IsOwn, BindingBody, ProfileBindingMatches, Lookup, FirstOwn, Norm;
    BodyKey(server, event);
    var own, after := AskOf(event), Apply(server, store, event, faults).store;
    FirstOwnKey(server, store.bindings, own);
    SameLookups(server, store.bindings, after.bindings, ask);
  }

  lemma FirstOwnKey(server: Server, bindings: seq<Binding>, ask: Ask)
    ensures var found := FirstOwn(bindings, Lookup(server, bindings, ask), ask);
            found.Some? ==> BindingKey(server, bindings[found.value]) == AskKey(server, ask)
  {
    hide BindingKey, AskKey, IsOwn, Lookup;
    FirstOwnIn(bindings, Lookup(server, bindings, ask), ask);
  }

  lemma {:induction false} FirstOwnIn(bindings: seq<Binding>, found: seq<nat>, ask: Ask)
    requires forall k :: 0 <= k < |found| ==> found[k] < |bindings|
    ensures FirstOwn(bindings, found, ask).Some? ==>
            exists k :: 0 <= k < |found| && FirstOwn(bindings, found, ask) == Some(found[k])
  {
    hide IsOwn;
    if found != [] && !IsOwn(bindings[found[0]], ask) {
      FirstOwnIn(bindings, found[1..], ask);
      var rest := FirstOwn(bindings, found[1..], ask);
      if k :| 0 <= k < |found[1..]| && rest == Some(found[1..][k]) {
        assert found[k + 1] == found[1..][k];
      }
    }
  }

  lemma {:induction false} SameCards(left: seq<Binding>, right: seq<Binding>, found: seq<nat>, ask: Ask)
    requires |left| <= |right|
    requires forall k :: 0 <= k < |found| ==> found[k] < |left| && left[found[k]] == right[found[k]]
    ensures FirstActive(left, found, ask) == FirstActive(right, found, ask)
    ensures FirstOwn(left, found, ask) == FirstOwn(right, found, ask)
  {
    hide IsOwn, DeletedStatus, Missing;
    if found != [] {
      assert left[found[0]] == right[found[0]];
      SameCards(left, right, found[1..], ask);
    }
  }

  lemma OthersResolve(server: Server, store: Store, event: BindingEvent, faults: Faults, ask: Ask)
    requires !Addresses(server, event, ask)
    ensures Resolve(server, Apply(server, store, event, faults).store, ask) == Resolve(server, store, ask)
  {
    hide BindingKey, IsOwn, BindingBody, Norm, Lookup, FirstActive, Blank;
    var after := Apply(server, store, event, faults).store;
    if !event.isMainProfile && !ask.isMainProfile {
      OtherLookup(server, store, event, faults, ask);
      SameCards(store.bindings, after.bindings, Lookup(server, store.bindings, ask), ask);
    }
  }

  lemma OthersStaySettled(server: Server, store: Store, event: BindingEvent, faults: Faults, settled: BindingEvent)
    requires !Addresses(server, event, AskOf(settled)) && Settled(server, store, settled)
    ensures Settled(server, Apply(server, store, event, faults).store, settled)
  {
    hide BindingKey, IsOwn, BindingBody, Norm, Lookup, FirstOwn, Deleted, ProfileBindingMatches, BindingValueMatches;
    var after, ask := Apply(server, store, event, faults).store, AskOf(settled);
    if !event.isMainProfile && !ask.isMainProfile {
      OtherLookup(server, store, event, faults, ask);
      var found := Lookup(server, store.bindings, ask);
      SameCards(store.bindings, after.bindings, found, ask);
      FirstOwnIn(store.bindings, found, ask);
    }
  }

  // ---------------------------------------------------------------- runs

  datatype Step = Step(event: BindingEvent, faults: Faults)

  function Run(server: Server, store: Store, steps: seq<Step>): Store {
    if steps == [] then store
    else
      var last := steps[|steps| - 1];
      Apply(server, Run(server, store, steps[..|steps| - 1]), last.event, last.faults).store
  }

  /** The last event about what is asked for that took effect. */
  function LastFor(server: Server, steps: seq<Step>, ask: Ask): Option<BindingEvent> {
    if steps == [] then None
    else
      var last := steps[|steps| - 1];
      if Addresses(server, last.event, ask) && Effective(last.event, last.faults) then Some(last.event)
      else LastFor(server, steps[..|steps| - 1], ask)
  }

  lemma IneffectiveChangesNothing(server: Server, store: Store, event: BindingEvent, faults: Faults)
    requires !Effective(event, faults)
    ensures Apply(server, store, event, faults).store == store
  {
  }

  /** Some lookup of the run yields nothing although there is a card, and a second card is created. */
  ghost predicate MakesSecondCard(server: Server, store: Store, steps: seq<Step>) {
    steps != [] &&
    (|| MakesSecondCard(server, store, steps[..|steps| - 1])
     || Duplicates(server, Run(server, store, steps[..|steps| - 1]), steps[|steps| - 1].event,
                   steps[|steps| - 1].faults))
  }

  lemma SecondCardStays(server: Server, store: Store, event: BindingEvent, faults: Faults)
    requires !OneCardPerKey(server, store)
    ensures !OneCardPerKey(server, Apply(server, store, event, faults).store)
  {
    if !event.isMainProfile {
      CardsStay(server, store, event, faults);
    }
    hide BindingKey, AskKey, IsOwn, BindingBody, ProfileBindingMatches, BindingValueMatches, Deleted, Norm, Lookup;
    hide FirstOwn;
    var i, j :| 0 <= i < j < |store.bindings|
                && BindingKey(server, store.bindings[i]) == BindingKey(server, store.bindings[j]);
    var after := Apply(server, store, event, faults).store;
    assert BindingKey(server, after.bindings[i]) == BindingKey(server, after.bindings[j]);
  }

  /** A run keeps one card per key exactly when no lookup in it hides a card and makes a second one. */
  lemma {:induction false} RunKeepsOneCard(server: Server, store: Store, steps: seq<Step>)
    requires OneCardPerKey(server, store)
    ensures OneCardPerKey(server, Run(server, store, steps)) <==> !MakesSecondCard(server, store, steps)
    ensures Run(server, store, steps).mains.Keys == store.mains.Keys
  {
    hide Apply, OneCardPerKey, Duplicates;
    if steps != [] {
      var front, last := steps[..|steps| - 1], steps[|steps| - 1];
      var before := Run(server, store, front);
      RunKeepsOneCard(server, store, front);
      MainKeysStay(server, before, last.event, last.faults);
      if OneCardPerKey(server, before) {
        ApplyKeepsOneCard(server, before, last.event, last.faults);
      } else {
        SecondCardStays(server, before, last.event, last.faults);
      }
    }
  }

  lemma MainKeysStay(server: Server, store: Store, event: BindingEvent, faults: Faults)
    ensures Apply(server, store, event, faults).store.mains.Keys == store.mains.Keys
  {
    hide BindingKey, AskKey, IsOwn, BindingBody, ProfileBindingMatches, BindingValueMatches, Deleted, Norm, Lookup;
    hide FirstOwn;
  }

  /** After any events and faults that leave one card a key, the reader gets, for a class, card and profile, the host id
      of the last event about it that took effect, and nothing when that was a delete: the registry is a
      last-writer-wins map. */
  lemma {:induction false} LastWriterWins(server: Server, store: Store, steps: seq<Step>, ask: Ask)
    requires OneCardPerKey(server, store) && forall i :: 0 <= i < |steps| ==> Shaped(steps[i].event)
    requires !MakesSecondCard(server, store, steps)
    requires ask.isMainProfile ==> CardKey(server, ask) in store.mains
    ensures Seen(Resolve(server, Run(server, store, steps), ask)) ==
            match LastFor(server, steps, ask)
            case None => Seen(Resolve(server, store, ask))
            case Some(event) => SaidBy(event)
  {
    hide Apply, OneCardPerKey, Shaped, Addresses, Effective, Settled, Resolve, Seen, SaidBy, CardKey, Duplicates;
    if steps != [] {
      var front, last := steps[..|steps| - 1], steps[|steps| - 1];
      var before := Run(server, store, front);
      RunKeepsOneCard(server, store, front);
      LastWriterWins(server, store, front, ask);
      if !Addresses(server, last.event, ask) {
        OthersResolve(server, before, last.event, last.faults, ask);
      } else if Effective(last.event, last.faults) {
        ApplySettles(server, before, last.event, last.faults);
        ApplyKeepsOneCard(server, before, last.event, last.faults);
        SettledResolves(server, Run(server, store, steps), last.event, ask);
      } else {
        IneffectiveChangesNothing(server, before, last.event, last.faults);
      }
    }
  }

  /** Applying the last effective event for a key again writes nothing, whatever came in between for other keys. */
  lemma {:induction false} ReplayWritesNothing(server: Server, store: Store, steps: seq<Step>, ask: Ask)
    requires OneCardPerKey(server, store) && LastFor(server, steps, ask).Some?
    requires !MakesSecondCard(server, store, steps)
    ensures var event := LastFor(server, steps, ask).value;
            Addresses(server, event, ask) && Settled(server, Run(server, store, steps), event)
  {
    hide Apply, OneCardPerKey, Effective, Settled, CardKey, AskKey, Duplicates;
    var front, last := steps[..|steps| - 1], steps[|steps| - 1];
    var before := Run(server, store, front);
    RunKeepsOneCard(server, store, front);
    if Addresses(server, last.event, ask) && Effective(last.event, last.faults) {
      ApplySettles(server, before, last.event, last.faults);
    } else {
      ReplayWritesNothing(server, store, front, ask);
      var event := LastFor(server, steps, ask).value;
      if Addresses(server, last.event, ask) {
        IneffectiveChangesNothing(server, before, last.event, last.faults);
      } else {
        OthersStaySettled(server, before, last.event, last.faults, event);
      }
    }
  }

  /** An event the writer reports as done is in the registry, unless CMDBuild refused to show the main card; and where
      it made a second card, exactly when the first card said it already. */
  lemma AcknowledgedIsSettled(server: Server, store: Store, event: BindingEvent, faults: Faults)
    requires OneCardPerKey(server, store) && !Apply(server, store, event, faults).raised
    requires !(event.isMainProfile && faults.read.Refuses?)
    ensures Settled(server, Apply(server, store, event, faults).store, event)
            <==> (Duplicates(server, store, event, faults) ==> Settled(server, store, event))
  {
    if Duplicates(server, store, event, faults) {
      DuplicateSettles(server, store, event, faults);
    } else if Effective(event, faults) {
      ApplySettles(server, store, event, faults);
    }
  }

  /** A main event about a card that does not exist changes nothing, and nothing is read for it. */
  lemma NoSourceCard(server: Server, store: Store, event: BindingEvent, faults: Faults)
    requires event.isMainProfile && CardKey(server, AskOf(event)) !in store.mains
    ensures Apply(server, store, event, faults).store == store && Resolve(server, store, AskOf(event)) == None
    ensures faults.read.Answers? ==> !Apply(server, store, event, faults).raised
  {
  }

  // ---------------------------------------------------------------- several cards for one key

  /** What a card tells its readers. */
  function Says(binding: Binding): Option<string> {
    if DeletedStatus(binding.status) then None else Seen(binding.hostId)
  }

  /** What the cards of a key tell, in the order of their creation. */
  function CardsFor(server: Server, bindings: seq<Binding>, key: (string, string, string)): seq<Option<string>> {
    if bindings == [] then []
    else
      var last := bindings[|bindings| - 1];
      CardsFor(server, bindings[..|bindings| - 1], key) + (if BindingKey(server, last) == key then [Says(last)] else [])
  }

  lemma {:induction false} CardsAtPositions(server: Server, bindings: seq<Binding>, key: (string, string, string))
    ensures |CardsFor(server, bindings, key)| == |Positions(server, bindings, key)|
    ensures forall k :: 0 <= k < |Positions(server, bindings, key)| ==>
              CardsFor(server, bindings, key)[k] == Says(bindings[Positions(server, bindings, key)[k]])
  {
    hide BindingKey, Says;
    if bindings != [] {
      CardsAtPositions(server, bindings[..|bindings| - 1], key);
    }
  }

  /** The cards a lookup shows. */
  function Shown(server: Server, cards: seq<Option<string>>): seq<Option<string>> {
    var limit := if server.limit < 1 then 1 else server.limit;
    if |cards| <= limit then cards else cards[..limit]
  }

  function FirstSaid(cards: seq<Option<string>>): Option<string> {
    if cards == [] then None else OrElse(cards[0], FirstSaid(cards[1..]))
  }

  lemma {:induction false} FirstActiveSays(
    bindings: seq<Binding>, found: seq<nat>, ask: Ask, cards: seq<Option<string>>)
    requires |found| == |cards|
    requires forall k :: 0 <= k < |found| ==>
               found[k] < |bindings| && IsOwn(bindings[found[k]], ask) && cards[k] == Says(bindings[found[k]])
    ensures Seen(FirstActive(bindings, found, ask)) == FirstSaid(cards)
  {
    hide IsOwn, DeletedStatus, Blank, Fold;
    if found != [] {
      assert IsOwn(bindings[found[0]], ask) && cards[0] == Says(bindings[found[0]]);
      assert forall k :: 0 <= k < |found[1..]| ==> found[1..][k] == found[k + 1] && cards[1..][k] == cards[k + 1];
      FirstActiveSays(bindings, found[1..], ask, cards[1..]);
    }
  }

  /** A reader of a profile gets what the first card that tells anything tells, of the cards its lookup shows. */
  lemma ReaderSees(server: Server, store: Store, ask: Ask)
    requires !ask.isMainProfile && !Blank(ask.sourceClass) && !Blank(ask.sourceCardId)
    ensures Seen(Resolve(server, store, ask)) ==
            FirstSaid(Shown(server, CardsFor(server, store.bindings, AskKey(server, ask))))
  {
    hide BindingKey, AskKey, IsOwn, Says, FirstActive, FirstSaid, Seen, Blank;
    var found, cards := Lookup(server, store.bindings, ask), CardsFor(server, store.bindings, AskKey(server, ask));
    CardsAtPositions(server, store.bindings, AskKey(server, ask));
    forall k | 0 <= k < |found|
      ensures IsOwn(store.bindings[found[k]], ask)
    {
      OwnFound(server, store.bindings[found[k]], ask);
    }
    FirstActiveSays(store.bindings, found, ask, Shown(server, cards));
  }

  /** The step is a profile event for the key, and took effect. */
  predicate Upserts(server: Server, step: Step, key: (string, string, string)) {
    !step.event.isMainProfile && Effective(step.event, step.faults) && AskKey(server, AskOf(step.event)) == key
  }

  /** The cards of a key after one more step: a new card where there is none, or where the lookup yields nothing, else
      the first card is overwritten. */
  function NextCards(server: Server, cards: seq<Option<string>>, step: Step, key: (string, string, string)):
    seq<Option<string>>
  {
    if !Upserts(server, step, key) then cards
    else if cards == [] || step.faults.read.YieldsNothing? then cards + [Says(BindingBody(step.event))]
    else cards[0 := Says(BindingBody(step.event))]
  }

  function CardsAfter(
    server: Server, cards: seq<Option<string>>, steps: seq<Step>, key: (string, string, string)): seq<Option<string>>
  {
    if steps == [] then cards
    else NextCards(server, CardsAfter(server, cards, steps[..|steps| - 1], key), steps[|steps| - 1], key)
  }

  lemma CardsAppend(server: Server, bindings: seq<Binding>, binding: Binding, key: (string, string, string))
    ensures CardsFor(server, bindings + [binding], key) ==
            CardsFor(server, bindings, key) + if BindingKey(server, binding) == key then [Says(binding)] else []
  {
    hide BindingKey, Says;
    assert (bindings + [binding])[..|bindings|] == bindings;
  }

  lemma {:induction false} CardsReplaceOther(
    server: Server, bindings: seq<Binding>, i: nat, binding: Binding, key: (string, string, string))
    requires i < |bindings| && BindingKey(server, binding) != key && BindingKey(server, bindings[i]) != key
    ensures CardsFor(server, bindings[i := binding], key) == CardsFor(server, bindings, key)
  {
    hide BindingKey, Says;
    var front := bindings[..|bindings| - 1];
    if i == |front| {
      assert bindings[i := binding][..i] == front;
    } else {
      assert bindings[i := binding][..|front|] == front[i := binding];
      CardsReplaceOther(server, front, i, binding, key);
    }
  }

  lemma {:induction false} CardsReplaceFirst(
    server: Server, bindings: seq<Binding>, binding: Binding, key: (string, string, string))
    requires BindingKey(server, binding) == key && Positions(server, bindings, key) != []
    ensures CardsFor(server, bindings, key) != []
    ensures CardsFor(server, bindings[Positions(server, bindings, key)[0] := binding], key) ==
            CardsFor(server, bindings, key)[0 := Says(binding)]
  {
    hide BindingKey, Says;
    var i, front, last := Positions(server, bindings, key)[0], bindings[..|bindings| - 1], bindings[|bindings| - 1];
    CardsAtPositions(server, front, key);
    var tail := if BindingKey(server, last) == key then [Says(last)] else [];
    if Positions(server, front, key) == [] {
      assert bindings[i := binding][..i] == front;
    } else {
      assert bindings[i := binding][..|front|] == front[i := binding];
      CardsReplaceFirst(server, front, binding, key);
      var cards := CardsFor(server, front, key);
      assert (cards + tail)[0 := Says(binding)] == cards[0 := Says(binding)] + tail;
    }
  }

  lemma FirstOwnIsFirst(server: Server, bindings: seq<Binding>, ask: Ask)
    ensures FirstOwn(bindings, Lookup(server, bindings, ask), ask) ==
            if Positions(server, bindings, AskKey(server, ask)) == [] then None
            else Some(Positions(server, bindings, AskKey(server, ask))[0])
  {
    hide BindingKey, AskKey, IsOwn;
    var found := Lookup(server, bindings, ask);
    if found != [] {
      OwnFound(server, bindings[found[0]], ask);
    }
  }

  lemma MatchSays(binding: Binding, event: BindingEvent)
    requires ProfileBindingMatches(binding, event)
    ensures Says(binding) == Says(BindingBody(event))
  {
    SameBlank(TextOf(binding.hostId), event.zabbixHostId);
    assert |Fold("")| == 0 && |Fold("deleted")| == 7;
    hide Fold, Blank;
  }

  lemma ApplyCardsFor(server: Server, store: Store, step: Step, key: (string, string, string))
    ensures CardsFor(server, Apply(server, store, step.event, step.faults).store.bindings, key) ==
            NextCards(server, CardsFor(server, store.bindings, key), step, key)
  {
    hide BindingKey, AskKey, IsOwn, BindingBody, ProfileBindingMatches, Norm, Lookup, FirstOwn, Says, Positions;
    hide CardsFor;
    var event, own := step.event, AskOf(step.event);
    if !event.isMainProfile {
      BodyKey(server, event);
      FirstOwnIsFirst(server, store.bindings, own);
      CardsAtPositions(server, store.bindings, AskKey(server, own));
      CardsAppend(server, store.bindings, BindingBody(event), key);
      var cards := CardsFor(server, store.bindings, key);
      assert cards + [] == cards;
      var found := FirstOwn(store.bindings, Lookup(server, store.bindings, own), own);
      if found.Some? {
        FirstOwnKey(server, store.bindings, own);
        if AskKey(server, own) == key {
          CardsReplaceFirst(server, store.bindings, BindingBody(event), key);
        } else {
          CardsReplaceOther(server, store.bindings, found.value, BindingBody(event), key);
        }
        if ProfileBindingMatches(store.bindings[found.value], event) {
          MatchSays(store.bindings[found.value], event);
        }
      }
    }
  }

  lemma {:induction false} RunCardsFor(server: Server, store: Store, steps: seq<Step>, key: (string, string, string))
    ensures CardsFor(server, Run(server, store, steps).bindings, key) ==
            CardsAfter(server, CardsFor(server, store.bindings, key), steps, key)
  {
    hide Apply, CardsFor, NextCards;
    if steps != [] {
      var front, last := steps[..|steps| - 1], steps[|steps| - 1];
      RunCardsFor(server, store, front, key);
      ApplyCardsFor(server, Run(server, store, front), last, key);
    }
  }

  /** What a reader of a profile gets after any events with any faults, from any store: of the cards a lookup shows, the
      first that tells anything, where a hidden card is followed by a new one and only the first card is overwritten.
      So it gets the last event that took effect exactly when this card says the same. */
  lemma ReaderExactly(server: Server, store: Store, steps: seq<Step>, ask: Ask)
    requires !ask.isMainProfile && !Blank(ask.sourceClass) && !Blank(ask.sourceCardId)
    ensures var key := AskKey(server, ask);
            Seen(Resolve(server, Run(server, store, steps), ask)) ==
              FirstSaid(Shown(server, CardsAfter(server, CardsFor(server, store.bindings, key), steps, key)))
  {
    hide Resolve, CardsFor, CardsAfter, Shown, FirstSaid, Run, Seen, Blank;
    ReaderSees(server, Run(server, store, steps), ask);
    RunCardsFor(server, store, steps, AskKey(server, ask));
  }

  lemma {:induction false} FirstSaidShape(cards: seq<Option<string>>, said: Option<string>)
    ensures FirstSaid(cards) == said <==>
            if said.None? then forall k :: 0 <= k < |cards| ==> cards[k].None?
            else exists k :: 0 <= k < |cards| && cards[k] == said && forall l :: 0 <= l < k ==> cards[l].None?
  {
    if cards != [] {
      FirstSaidShape(cards[1..], said);
      assert forall k :: 0 < k < |cards| ==> cards[1..][k - 1] == cards[k];
      if cards[0].None? && said.Some? {
        if k :| 0 <= k < |cards| && cards[k] == said && forall l :: 0 <= l < k ==> cards[l].None? {
          assert cards[1..][k - 1] == said && forall l :: 0 <= l < k - 1 ==> cards[1..][l] == cards[l + 1];
        }
        if k :| 0 <= k < |cards[1..]| && cards[1..][k] == said && forall l :: 0 <= l < k ==> cards[1..][l].None? {
          assert cards[k + 1] == said && forall l :: 0 < l < k + 1 ==> cards[l] == cards[1..][l - 1];
        }
      }
    }
  }

  /** So a reader gets the host id of the last event about it that took effect exactly when the first shown card that
      tells anything tells this one, and nothing after a delete exactly when no shown card tells anything. */
  lemma LastWriterExactly(server: Server, store: Store, steps: seq<Step>, ask: Ask)
    requires !ask.isMainProfile && !Blank(ask.sourceClass) && !Blank(ask.sourceCardId)
    requires LastFor(server, steps, ask).Some?
    ensures var key, said := AskKey(server, ask), SaidBy(LastFor(server, steps, ask).value);
            var shown := Shown(server, CardsAfter(server, CardsFor(server, store.bindings, key), steps, key));
            Seen(Resolve(server, Run(server, store, steps), ask)) == said <==>
              if said.None? then forall k :: 0 <= k < |shown| ==> shown[k].None?
              else exists k :: 0 <= k < |shown| && shown[k] == said && forall l :: 0 <= l < k ==> shown[l].None?
  {
    hide Resolve, CardsFor, CardsAfter, Shown, Run, Seen, Blank, SaidBy, LastFor;
    var key := AskKey(server, ask);
    ReaderExactly(server, store, steps, ask);
    FirstSaidShape(Shown(server, CardsAfter(server, CardsFor(server, store.bindings, key), steps, key)),
                   SaidBy(LastFor(server, steps, ask).value));
  }

  /** A later lookup finds the first card, whatever was created after it. */
  lemma DuplicateSettles(server: Server, store: Store, event: BindingEvent, faults: Faults)
    requires Duplicates(server, store, event, faults)
    ensures Settled(server, Apply(server, store, event, faults).store, event) <==> Settled(server, store, event)
  {
    hide BindingKey, AskKey, IsOwn, BindingBody, ProfileBindingMatches, Norm, Lookup, FirstOwn, Positions;
    var after, ask := Apply(server, store, event, faults).store, AskOf(event);
    var key := AskKey(server, ask);
    FirstOwnIsFirst(server, store.bindings, ask);
    FirstOwnIsFirst(server, after.bindings, ask);
    HasPosition(server, store, key);
    PositionsAppend(server, store.bindings, BindingBody(event), key);
  }

  lemma PositionsAppend(server: Server, bindings: seq<Binding>, binding: Binding, key: (string, string, string))
    ensures Positions(server, bindings + [binding], key) ==
            Positions(server, bindings, key) + if BindingKey(server, binding) == key then [|bindings|] else []
  {
    hide BindingKey;
    assert (bindings + [binding])[..|bindings|] == bindings;
  }

  lemma {:induction false} PositionOf(server: Server, bindings: seq<Binding>, i: nat) returns (k: nat)
    requires i < |bindings|
    ensures var found := Positions(server, bindings, BindingKey(server, bindings[i])); k < |found| && found[k] == i
  {
    hide BindingKey;
    var last := |bindings| - 1;
    if i == last {
      k := |Positions(server, bindings[..last], BindingKey(server, bindings[i]))|;
    } else {
      k := PositionOf(server, bindings[..last], i);
    }
  }

  lemma HasPosition(server: Server, store: Store, key: (string, string, string))
    ensures HasCard(server, store, key) <==> Positions(server, store.bindings, key) != []
  {
    hide BindingKey;
    if i :| 0 <= i < |store.bindings| && BindingKey(server, store.bindings[i]) == key {
      var k := PositionOf(server, store.bindings, i);
    }
    var found := Positions(server, store.bindings, key);
    if found != [] {
      assert BindingKey(server, store.bindings[found[0]]) == key;
    }
  }

  /** A lookup that yields nothing leaves the old host id to the readers: they get "1" after an event that says "2". */
  lemma HiddenCardIsStale(server: Server, mains: map<(string, string), Option<string>>, first: BindingEvent, ask: Ask)
    requires !first.isMainProfile && Shaped(first) && !Deleted(first) && first.zabbixHostId == "1"
    requires ask == AskOf(first)
    ensures var second := first.(zabbixHostId := "2");
            var steps := [Step(first, FAULTLESS), Step(second, Faults(YieldsNothing, Writes))];
            && LastFor(server, steps, ask) == Some(second)
            && Seen(Resolve(server, Run(server, Store([], mains), steps), ask)) == Some("1") != SaidBy(second)
            && !OneCardPerKey(server, Run(server, Store([], mains), steps))
  {
    hide Resolve, Run, CardsFor, CardsAfter, Says, Shown, FirstSaid;
    var second := first.(zabbixHostId := "2");
    var steps, key := [Step(first, FAULTLESS), Step(second, Faults(YieldsNothing, Writes))], AskKey(server, ask);
    SaidByTwo(first);
    ReaderExactly(server, Store([], mains), steps, ask);
    NoCards(server, mains, key);
    TwoSteps(server, steps[0], steps[1], key);
    FirstOfTwo(server, Some("1"), Some("2"));
    RunCardsFor(server, Store([], mains), steps, key);
    TwoForKey(server, Run(server, Store([], mains), steps), key);
    LastOfTwo(server, steps[0], steps[1], ask);
  }

  lemma SaidByTwo(first: BindingEvent)
    requires Shaped(first) && !Deleted(first) && first.zabbixHostId == "1"
    ensures Says(BindingBody(first)) == Some("1") && Says(BindingBody(first.(zabbixHostId := "2"))) == Some("2")
    ensures SaidBy(first.(zabbixHostId := "2")) == Some("2") && Some("1") != Some("2")
  {
    assert Fold("1") == "1" && Fold("2") == "2" && "1"[0] == '1' && "2"[0] == '2';
    assert "1"[0] in "1" && !IsSpace('1') && "2"[0] in "2" && !IsSpace('2');
    hide Fold, BindingStatus;
  }

  lemma NoCards(server: Server, mains: map<(string, string), Option<string>>, key: (string, string, string))
    ensures CardsFor(server, Store([], mains).bindings, key) == []
  {
  }

  lemma TwoSteps(server: Server, one: Step, two: Step, key: (string, string, string))
    requires Upserts(server, one, key) && Upserts(server, two, key) && two.faults.read.YieldsNothing?
    ensures CardsAfter(server, [], [one, two], key) == [Says(BindingBody(one.event)), Says(BindingBody(two.event))]
  {
    hide Upserts, Says;
    assert [one, two][..1] == [one] && [one][..0] == [];
    assert CardsAfter(server, [], [one], key) == [] + [Says(BindingBody(one.event))];
  }

  lemma FirstOfTwo(server: Server, one: Option<string>, two: Option<string>)
    requires one.Some?
    ensures FirstSaid(Shown(server, [one, two])) == one
  {
    assert forall n :: 1 <= n <= 2 ==> [one, two][..n][0] == one;
  }

  lemma LastOfTwo(server: Server, one: Step, two: Step, ask: Ask)
    requires Addresses(server, two.event, ask) && Effective(two.event, two.faults)
    ensures LastFor(server, [one, two], ask) == Some(two.event)
  {
    hide Addresses, Effective;
  }

  lemma TwoForKey(server: Server, store: Store, key: (string, string, string))
    requires |CardsFor(server, store.bindings, key)| >= 2
    ensures exists i, j :: 0 <= i < j < |store.bindings|
              && BindingKey(server, store.bindings[i]) == key && BindingKey(server, store.bindings[j]) == key
  {
    hide BindingKey, CardsFor;
    CardsAtPositions(server, store.bindings, key);
    PositionsRise(server, store.bindings, key);
    var found := Positions(server, store.bindings, key);
    assert found[0] < found[1];
  }

  ghost predicate Rising(found: seq<nat>) {
    forall k, l :: 0 <= k < l < |found| ==> found[k] < found[l]
  }

  lemma {:induction false} PositionsRise(server: Server, bindings: seq<Binding>, key: (string, string, string))
    ensures Rising(Positions(server, bindings, key))
  {
    hide BindingKey;
    if bindings != [] {
      PositionsRise(server, bindings[..|bindings| - 1], key);
      var front := Positions(server, bindings[..|bindings| - 1], key);
      assert Rising(front) && forall k :: 0 <= k < |front| ==> front[k] < |bindings| - 1;
      assert Rising(front + [|bindings| - 1]);
      assert front + [] == front;
    }
  }

  lemma OneForKey(server: Server, store: Store, i: nat, j: nat)
    requires i < j < |store.bindings|
    requires BindingKey(server, store.bindings[i]) == BindingKey(server, store.bindings[j])
    ensures |CardsFor(server, store.bindings, BindingKey(server, store.bindings[i]))| >= 2
  {
    hide BindingKey, CardsFor, Positions;
    var key := BindingKey(server, store.bindings[i]);
    var k := PositionOf(server, store.bindings, i);
    var l := PositionOf(server, store.bindings, j);
    CardsAtPositions(server, store.bindings, key);
  }

  // ---------------------------------------------------------------- when one owner has two cards

  ghost predicate Upserted(server: Server, steps: seq<Step>, key: (string, string, string)) {
    exists i :: 0 <= i < |steps| && Upserts(server, steps[i], key)
  }

  /** A profile event took effect for the key although its lookup yielded nothing, after another one had. */
  ghost predicate HiddenFor(server: Server, steps: seq<Step>, key: (string, string, string)) {
    exists i, j :: 0 <= i < j < |steps| && Upserts(server, steps[i], key) && Upserts(server, steps[j], key)
                   && steps[j].faults.read.YieldsNothing?
  }

  ghost predicate HiddenTwice(server: Server, steps: seq<Step>) {
    exists key :: HiddenFor(server, steps, key)
  }

  lemma UpsertedOneMore(server: Server, front: seq<Step>, last: Step, key: (string, string, string))
    ensures Upserted(server, front + [last], key) <==> Upserted(server, front, key) || Upserts(server, last, key)
    ensures HiddenFor(server, front + [last], key) <==>
            || HiddenFor(server, front, key)
            || (Upserted(server, front, key) && Upserts(server, last, key) && last.faults.read.YieldsNothing?)
  {
    hide Upserts;
    var steps := front + [last];
    assert steps[|front|] == last && forall i :: 0 <= i < |front| ==> steps[i] == front[i];
    if i, j :| 0 <= i < j < |front| && Upserts(server, front[i], key) && Upserts(server, front[j], key)
               && front[j].faults.read.YieldsNothing? {
      assert Upserts(server, steps[i], key) && Upserts(server, steps[j], key);
    }
    if i :| 0 <= i < |front| && Upserts(server, front[i], key) {
      assert Upserts(server, steps[i], key);
    }
  }

  /** From an empty store on, a key has a card exactly when some profile event for it took effect, and a second one
      exactly when one did so after another although its lookup yielded nothing. */
  lemma {:induction false} RunCards(
    server: Server, mains: map<(string, string), Option<string>>, steps: seq<Step>, key: (string, string, string))
    ensures var cards := CardsFor(server, Run(server, Store([], mains), steps).bindings, key);
            (cards != [] <==> Upserted(server, steps, key)) && (|cards| >= 2 <==> HiddenFor(server, steps, key))
  {
    hide Apply, Upserts, CardsFor, Upserted, HiddenFor;
    if steps == [] {
      NothingUpserted(server, mains, key);
    } else {
      var front, last := steps[..|steps| - 1], steps[|steps| - 1];
      assert steps == front + [last];
      RunCards(server, mains, front, key);
      ApplyCardsFor(server, Run(server, Store([], mains), front), last, key);
      UpsertedOneMore(server, front, last, key);
    }
  }

  lemma NothingUpserted(server: Server, mains: map<(string, string), Option<string>>, key: (string, string, string))
    ensures CardsFor(server, Store([], mains).bindings, key) == []
    ensures !Upserted(server, [], key) && !HiddenFor(server, [], key)
  {
  }

  /** From an empty store on, there is one card a key exactly when no profile event took effect after another one for
      its key although its lookup yielded nothing. */
  lemma SecondCardExactly(server: Server, mains: map<(string, string), Option<string>>, steps: seq<Step>)
    ensures OneCardPerKey(server, Run(server, Store([], mains), steps)) <==> !HiddenTwice(server, steps)
  {
    hide Run, BindingKey, CardsFor, HiddenFor;
    var store := Run(server, Store([], mains), steps);
    if i, j :| 0 <= i < j < |store.bindings|
               && BindingKey(server, store.bindings[i]) == BindingKey(server, store.bindings[j]) {
      OneForKey(server, store, i, j);
      RunCards(server, mains, steps, BindingKey(server, store.bindings[i]));
    }
    if key :| HiddenFor(server, steps, key) {
      RunCards(server, mains, steps, key);
      TwoForKey(server, store, key);
    }
  }

  /** Cards keep their keys, and a new card has the key of the event. */
  lemma CardsStay(server: Server, store: Store, event: BindingEvent, faults: Faults)
    requires !event.isMainProfile
    ensures var after := Apply(server, store, event, faults).store;
            && |store.bindings| <= |after.bindings|
            && (forall i :: 0 <= i < |store.bindings| ==>
                  BindingKey(server, after.bindings[i]) == BindingKey(server, store.bindings[i]))
            && (forall i :: |store.bindings| <= i < |after.bindings| ==>
                  BindingKey(server, after.bindings[i]) == AskKey(server, AskOf(event)) && Effective(event, faults))
  {
    hide BindingKey, AskKey, IsOwn, BindingBody, ProfileBindingMatches, Norm, Lookup, FirstOwn;
    BodyKey(server, event);
    FirstOwnKey(server, store.bindings, AskOf(event));
    var after := Apply(server, store, event, faults).store;
    forall i | |store.bindings| <= i < |after.bindings|
      ensures BindingKey(server, after.bindings[i]) == AskKey(server, AskOf(event)) && Effective(event, faults)
    {
      assert Effective(event, faults) && after.bindings == store.bindings + [BindingBody(event)];
      assert after.bindings[i] == BindingBody(event);
    }
  }

  function FoldedKey(key: (string, string, string)): (string, string, string) {
    (Fold(key.0), Fold(key.1), Fold(key.2))
  }

  function TextKey(event: BindingEvent): (string, string, string) {
    (event.sourceClass, event.sourceCardId, event.hostProfile)
  }

  /** Two cards of one owner and profile, up to case. */
  ghost predicate TwoCardsAlike(store: Store) {
    exists i, j :: 0 <= i < j < |store.bindings| && CardsAlike(store.bindings[i], store.bindings[j])
  }

  predicate CardsAlike(left: Binding, right: Binding) {
    && Same(left.ownerClass, right.ownerClass) && Same(left.ownerCardId, right.ownerCardId)
    && Same(left.hostProfile, right.hostProfile)
  }

  /** Two profile events that took effect spell one key differently. */
  ghost predicate SpeltTwice(steps: seq<Step>) {
    exists i, j :: 0 <= i < |steps| && 0 <= j < |steps| && SpellDifferently(steps[i], steps[j])
  }

  predicate SpellDifferently(left: Step, right: Step) {
    && !left.event.isMainProfile && Effective(left.event, left.faults)
    && !right.event.isMainProfile && Effective(right.event, right.faults)
    && TextKey(left.event) != TextKey(right.event)
    && FoldedKey(TextKey(left.event)) == FoldedKey(TextKey(right.event))
  }

  lemma KeysAlike(server: Server, left: Binding, right: Binding)
    ensures CardsAlike(left, right) <==> FoldedKey(BindingKey(server, left)) == FoldedKey(BindingKey(server, right))
    ensures !server.exact && CardsAlike(left, right) ==> BindingKey(server, left) == BindingKey(server, right)
  {
    FoldIdempotent(left.ownerClass);
    FoldIdempotent(left.ownerCardId);
    FoldIdempotent(left.hostProfile);
    FoldIdempotent(right.ownerClass);
    FoldIdempotent(right.ownerCardId);
    FoldIdempotent(right.hostProfile);
    hide Fold;
  }

  lemma CardUpserted(server: Server, mains: map<(string, string), Option<string>>, steps: seq<Step>, i: nat)
    requires i < |Run(server, Store([], mains), steps).bindings|
    ensures Upserted(server, steps, BindingKey(server, Run(server, Store([], mains), steps).bindings[i]))
  {
    hide Run, BindingKey, CardsFor, Upserted, Positions;
    var store := Run(server, Store([], mains), steps);
    var key := BindingKey(server, store.bindings[i]);
    var k := PositionOf(server, store.bindings, i);
    CardsAtPositions(server, store.bindings, key);
    RunCards(server, mains, steps, key);
  }

  /** Two cards of one owner and profile come from two spellings, where CMDBuild compares exactly, or from a lookup that
      yielded nothing. */
  lemma AlikeHasReason(
    server: Server, mains: map<(string, string), Option<string>>, steps: seq<Step>, i: nat, j: nat)
    requires i < j < |Run(server, Store([], mains), steps).bindings|
    requires CardsAlike(Run(server, Store([], mains), steps).bindings[i],
                        Run(server, Store([], mains), steps).bindings[j])
    ensures (server.exact && SpeltTwice(steps)) || HiddenTwice(server, steps)
  {
    hide Run, BindingKey, CardsAlike, Upserts, SpellDifferently, FoldedKey, CardsFor, HiddenFor;
    var store := Run(server, Store([], mains), steps);
    var left, right := BindingKey(server, store.bindings[i]), BindingKey(server, store.bindings[j]);
    KeysAlike(server, store.bindings[i], store.bindings[j]);
    if left == right {
      OneForKey(server, store, i, j);
      RunCards(server, mains, steps, left);
    } else {
      CardUpserted(server, mains, steps, i);
      CardUpserted(server, mains, steps, j);
      var k :| 0 <= k < |steps| && Upserts(server, steps[k], left);
      var l :| 0 <= l < |steps| && Upserts(server, steps[l], right);
      StepsDiffer(server, steps[k], steps[l], left, right);
    }
  }

  lemma SpellingsMakeTwo(server: Server, mains: map<(string, string), Option<string>>, steps: seq<Step>)
    requires server.exact && SpeltTwice(steps)
    ensures TwoCardsAlike(Run(server, Store([], mains), steps))
  {
    hide Run, BindingKey, CardsAlike, Upserts, SpellDifferently, FoldedKey, CardsFor;
    var store := Run(server, Store([], mains), steps);
    var k, l :| 0 <= k < |steps| && 0 <= l < |steps| && SpellDifferently(steps[k], steps[l]);
    var left, right := TextKey(steps[k].event), TextKey(steps[l].event);
    StepKeys(server, steps[k], steps[l]);
    assert Upserted(server, steps, left) && Upserted(server, steps, right);
    RunCards(server, mains, steps, left);
    RunCards(server, mains, steps, right);
    CardsAtPositions(server, store.bindings, left);
    CardsAtPositions(server, store.bindings, right);
    var i, j := Positions(server, store.bindings, left)[0], Positions(server, store.bindings, right)[0];
    KeysAlike(server, store.bindings[i], store.bindings[j]);
    KeysAlike(server, store.bindings[j], store.bindings[i]);
    assert i < j || j < i;
  }

  /** One owner gets two cards for a profile exactly when CMDBuild compares exactly and two profile events that took
      effect spelt its class, card id or profile differently, or when one took effect after another although its lookup
      yielded nothing. */
  lemma TwoCardsExactly(server: Server, mains: map<(string, string), Option<string>>, steps: seq<Step>)
    ensures TwoCardsAlike(Run(server, Store([], mains), steps)) <==>
            (server.exact && SpeltTwice(steps)) || HiddenTwice(server, steps)
  {
    hide Run, BindingKey, CardsAlike, HiddenFor, SpeltTwice, CardsFor;
    var store := Run(server, Store([], mains), steps);
    if i, j :| 0 <= i < j < |store.bindings| && CardsAlike(store.bindings[i], store.bindings[j]) {
      AlikeHasReason(server, mains, steps, i, j);
    }
    if server.exact && SpeltTwice(steps) {
      SpellingsMakeTwo(server, mains, steps);
    }
    if key :| HiddenFor(server, steps, key) {
      RunCards(server, mains, steps, key);
      TwoForKey(server, store, key);
      var i, j :| 0 <= i < j < |store.bindings|
                  && BindingKey(server, store.bindings[i]) == key && BindingKey(server, store.bindings[j]) == key;
      KeysAlike(server, store.bindings[i], store.bindings[j]);
    }
  }

  lemma StepsDiffer(
    server: Server, left: Step, right: Step, leftKey: (string, string, string), rightKey: (string, string, string))
    requires server.exact && Upserts(server, left, leftKey) && Upserts(server, right, rightKey)
    requires leftKey != rightKey && FoldedKey(leftKey) == FoldedKey(rightKey)
    ensures SpellDifferently(left, right)
  {
    hide Fold, Effective;
  }

  lemma StepKeys(server: Server, left: Step, right: Step)
    requires server.exact && SpellDifferently(left, right)
    ensures Upserts(server, left, TextKey(left.event)) && Upserts(server, right, TextKey(right.event))
    ensures TextKey(left.event) != TextKey(right.event)
    ensures FoldedKey(TextKey(left.event)) == FoldedKey(TextKey(right.event))
  {
    hide Fold, Effective;
  }

  /** For example, class "Server" and then class "SERVER". */
  lemma TwoSpellings(
    server: Server, mains: map<(string, string), Option<string>>, first: BindingEvent, second: BindingEvent)
    requires server.exact && !first.isMainProfile && first.sourceClass == "Server"
    requires second == first.(sourceClass := "SERVER")
    ensures TwoCardsAlike(Run(server, Store([], mains), [Step(first, FAULTLESS), Step(second, FAULTLESS)]))
  {
    var steps := [Step(first, FAULTLESS), Step(second, FAULTLESS)];
    assert first.sourceClass[1] != second.sourceClass[1];
    assert Fold("Server") == "server" && Fold("SERVER") == "server";
    hide Fold, Run, TwoCardsAlike;
    assert SpellDifferently(steps[0], steps[1]);
    TwoCardsExactly(server, mains, steps);
  }
}
