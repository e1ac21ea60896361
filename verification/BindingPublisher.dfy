/** Which results of the request worker become binding events, and what the events say. */
module BindingPublisher {
  import opened Text
  import opened ZabbixRequest
  import opened RequestWorker
  import SourceIdentity

  datatype BindingEvent = BindingEvent(
    sourceClass: string, sourceCardId: string, sourceCode: Option<string>, hostProfile: string, isMainProfile: bool,
    zabbixHostId: string, zabbixHostName: Option<string>, bindingStatus: string, operation: string,
    rulesVersion: Option<string>)

  predicate ShouldPublish(result: Result) {
    result.success && result.zabbixRequestSent
      && (IsHostWrite(result.request) || IsMethod(result.request, "host.delete"))
  }

  function HostProfile(profile: Option<string>): string {
    if Missing(profile) then "main" else profile.value
  }

  function BindingStatus(operation: string): string {
    if Same(operation, "host.delete") then "deleted" else "active"
  }

  /** The event published for a result, if any. */
  function PublishedEvent(result: Result): Option<BindingEvent> {
    var request := result.request;
    var cardId := OrElse(request.sourceCardId, request.entityId);
    if !ShouldPublish(result) || Missing(request.sourceClass) || Missing(cardId) || Missing(result.zabbixHostId) then
      None
    else Some(BindingEvent(
      request.sourceClass.value, cardId.value, request.sourceCode, HostProfile(request.hostProfile),
      request.isMainProfile,
      result.zabbixHostId.value, request.host, BindingStatus(request.rpcMethod), request.rpcMethod,
      request.rulesVersion))
  }

  /** What the registry may rely on in every event. */
  predicate Shaped(event: BindingEvent) {
    && !Blank(event.sourceClass) && !Blank(event.sourceCardId) && !Blank(event.hostProfile)
       && !Blank(event.zabbixHostId)
    && event.bindingStatus == BindingStatus(event.operation)
  }

  lemma PublishedShape(result: Result)
    requires PublishedEvent(result).Some?
    ensures Shaped(PublishedEvent(result).value)
  {
    assert "main"[0] in "main" && !IsSpace("main"[0]);
    hide IsSpace, Fold;
    assert !Blank("main");
    hide Blank, IsMethod;
  }

  /** The event is about what the identity names. */
  predicate SpeaksFor(event: BindingEvent, identity: Identity) {
    && identity.sourceClass == Some(event.sourceClass) && identity.sourceCardId == Some(event.sourceCardId)
    && event.hostProfile == HostProfile(identity.hostProfile) && event.isMainProfile == identity.isMainProfile
    && Visible(event.sourceCode) == identity.sourceCode && Visible(event.rulesVersion) == identity.rulesVersion
  }

  lemma SpeaksForSource(result: Result, received: Request)
    requires SourceIdentity.IsSource(IdentityOf(result.request), received)
    ensures PublishedEvent(result).Some? ==> SpeaksFor(PublishedEvent(result).value, CarriedIdentity(received))
  {
    hide ShouldPublish, BindingStatus, Blank;
  }

  /** Whose registry entry an event is about follows from the identity of the request that was received, with the entity
      id in place of a blank card id, however many requests were derived from it and however often it was retried. */
  lemma PublishedKey(config: Config, world: World, received: Request)
    requires HostGroupResolver.Consistent(received) && 0 < MaxAttempts(config)
    ensures var published, identity := PublishedEvent(Attempts(config, world, received, 0).1),
            CarriedIdentity(received);
            published.Some? ==> SpeaksFor(published.value, identity)
  {
    SourceIdentity.PublishedSource(config, world, received, 0);
    hide Attempts, HostGroupResolver.Consistent, PublishedEvent, SpeaksFor, SourceIdentity.IsSource, CarriedIdentity;
    hide IdentityOf;
    SpeaksForSource(Attempts(config, world, received, 0).1, received);
  }
}
