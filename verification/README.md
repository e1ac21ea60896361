# CMDBuild to Zabbix pipeline: a verified model

This project models the parts of the pipeline CMDBuild webhook → Kafka → converter → Zabbix worker → binding
write-back whose behaviour is hard to see from any single function, and proves what they promise together. Run
`dafny verify dfyconfig.toml` in this directory.

## What is modelled

**Shared values.** `Text.dfy` is text as the services compare it (case-insensitive, blank, trimmed, by token);
`Json.dfy` is a parsed JSON value.

**The Zabbix request worker.** `ZabbixRequest` reads a message and writes the metadata of derived requests.
`RequestValidator`, `TemplateCompatibility`, `HostGroupResolver` and `HostGroupWriter` are the steps before a request
is sent. `ZabbixApi` is Zabbix as an oracle that may answer anything, or raise, at every call, together with the log
of one attempt; `RequestWorker` is the attempt itself (plain send, direct merged update, delete fallback, update
fallback, create on missing) and the retry loop. `ProtectedHostGuard` proves what is never sent, `ProtectedRecords`
shows what an answer with two records of one host lets through,
`ResultOrigin` that a result reports what Zabbix answered to the last call, and `SourceIdentity` that every derived
request and the published result still speak about the same CMDBuild card. `HostMerge`,
`TemplateMerge`, `HostUpdate`, `HostUpdateProofs` and `HostUpdateWriter` are the payload of a merged host.update: the
writer's loops, the keyed override they implement, and the whole payload merged a second time. `SentUpdates` proves
that this payload is what the log of an attempt shows, down to the templates the rules selected. `OffsetProtocol` is
publish → save state → commit for one partition, over process lives that may end between any two operations.

**The conversion rules.** `RuleConditions` evaluates condition trees and finds the profile a rule requires;
`TemplateSelection` selects templates, applies the conflict rules and follows the result to the payload the worker
builds (`SentUpdates` follows it to the request that is sent); `InterfaceSelection` selects the interfaces.

**Paths and bindings.** `PathResolver` has the two walkers along CMDBuild references and their caches.
`BindingPublisher` says which results become binding events, and `BindingRegistry` is the store in CMDBuild that the
binding service writes and the converter reads.

**The webhooks.** `WebhookBody` and `WebhookBodyProofs` build the body of a webhook; `WebhookReconciler` plans the
operations, `WebhookConvergence` proves what repeated planning does and `WebhookFailures` when it does not settle;
`RequirementPruning` prunes the fields a webhook has to send; `ConditionFilter` has the user interface's condition
evaluator and its class filter.

**Small stateful classes.** `CircuitBreaker` (a gate shared by interleaved callers), `RateLimiter` and `TtlCache`
(lookup caches against a server that others change).

## Where the expected property is false

- *No message is lost.* The consume loop reports an exception with a message that it will be retried after a restart
  or at the next poll, but it never seeks back: the next message's commit passes the failed one.
  `OffsetProtocol.LoopLosesMessage` is the two-message run. `OffsetProtocol.LossExactly`: a message is lost exactly in
  the runs in which the loop polls on after such an exception and saves the state for a later message before a restart.
- *The state file is at most one message ahead of the commit.* Several crashes between saving and committing add up:
  `OffsetProtocol.StateTwoAhead`; `OffsetProtocol.DisciplinedRuns` gives the exact distance.
- *A mutation follows a lookup that shows no protected record of its target.* The delete fallback, the update fallback
  and the merged update look at the first record of the answer only. An answer with two records of one host, the first
  unmarked and the second protected, lets all three through: `ProtectedRecords.SecondRecordDeleted`,
  `ProtectedRecords.SecondRecordUpdated` and `ProtectedRecords.SecondRecordMerged`.
  `ProtectedHostGuard.ProcessRequestSafe`: on these paths the target is cleared by all records of the lookup exactly
  when no later record with the id of the first one is protected; on every other path it always is.
- *Every interface keeps an id of its own.* Two can be given one id, by the fallback to the first existing interface
  (`HostUpdate.SharedInterfaceId`) or because one matches by all its fields and the other by its dns name
  (`HostUpdate.SharedIdByName`). `HostUpdate.SharedIdExactly`: exactly when both match the same existing interface, or
  the first of the payload matches none and the other one matches the first existing interface.
- *Sending the same update again gives every interface its id again.* `HostUpdateProofs.InterfacesAgain`: exactly when
  no two interfaces of the update agree in type, useip, ip, dns and port; the converter selects no two that do
  (`InterfaceSelection.SelectedInterfaces`).
- *Reading a derived request back gives the same card.* A blank card id is replaced by the entity id:
  `ZabbixRequest.DerivedIdentity` says exactly when the identity is kept, and what it is otherwise.
- *A required profile value is the event's profile.* Not when the event has a source field that is another spelling of
  hostProfile with another value: `RuleConditions.SecondSpelling`. `RuleConditions.RequiredValuesExactly`: it holds for
  an event exactly when all its spellings that are not blank agree, ignoring case, with the field hostProfile.
- *The class filter covers the evaluator.* By text, exactly for class names that are blank or have no blanks around
  them (`ConditionFilter.TextCoversExactly`; `ConditionFilter.UntrimmedClassMissed` is the failing family). By token,
  for no class name at all but a blank one (`ConditionFilter.TokenCoversExactly`): the condition that the class differs
  from another name with the same token is missed (`ConditionFilter.TokenFilterMisses`, with "A-B" and "AB" in
  `ConditionFilter.TokenExample`).
- *Planning twice always settles.* The deletion of alias fields can take the first placeholder of a body away, so that
  the second plan chooses another prefix: `WebhookFailures.PrefixSwitches` is an input.
  `WebhookConvergence.ReconciliationSettlesExactly`: a plan settles exactly when the first placeholder of every body it
  writes has the prefix the body was planned with. And a requirement that is sent under the key of the managed
  identifier makes every plan create one more webhook: `WebhookFailures.TakenIsCreatedForever`.
  `WebhookFailures.IdentifierKeptExactly` says which requirements take the identifier away.
- *One binding card per owner.* `BindingRegistry.TwoSpellings`: "Server" and "SERVER" get a card each. And a successful
  lookup that yields no card, although there is one, is followed by the creation of a second one.
  `BindingRegistry.TwoCardsExactly`: an owner has two cards for a profile exactly when CMDBuild compares exactly and two
  events that took effect spelt a class, card id or profile differently, or when an event took effect after another one
  for its key although its lookup yielded nothing.
- *The reader gets the last event that took effect.* It does with one card a key (`BindingRegistry.LastWriterWins`). A
  second card is shadowed by the first: `BindingRegistry.HiddenCardIsStale` is an input. `BindingRegistry.ReaderExactly`
  says what the reader gets after any run, and `BindingRegistry.LastWriterExactly` when this is the last event.
- *The two path walkers agree for every bound.* `PathResolver.WalkersAgree` says exactly when: a negative depth bound
  separates them.
- *The card cache tells classes apart.* `PathResolver.KeysMeetExactly`: some cards of two different classes share a key
  exactly when the name of one, with a colon after it, begins the name of the other.

## Conventions

Text is compared case-insensitively by folding ASCII letters. A dictionary with a case-insensitive comparer is a map
over folded keys. An absent JSON property is `Undefined`. A lookup in a JSON object finds the last of several
properties of one name, as System.Text.Json does; webhook bodies are JavaScript objects, with every key once. An
exception that leaves a computation is a value (`Thrown`, `Raised`, `None`). Clocks, outside answers and failures are
parameters, so a lemma about all runs is about all of them. A function that a loop of the source computes has a method
beside it with that loop, proved to compute it.

## Model

| member | source | states |
|---|---|---|
| ProtectedHostGuard.ProcessRequestSafe | src/zabbixrequests2api/Processing/KafkaZabbixRequestWorker.cs:478-800 | with protection on, every attempt sends at most one host mutation, as its last call; an update or delete follows, as the call before it, a successful lookup that shows no protected record at all, or on the delete fallback, the update fallback and the merged update one whose first record is its only target and is not protected; its targets are cleared by all records of that lookup always in the first case, and in the other exactly when no later record with the id of the first is protected; a created or updated payload is itself unmarked; with template validation on, every template list that is sent was loaded and found compatible in the attempt; all this whatever Zabbix answers |
| ProtectedHostGuard.EveryAttemptSafe | src/zabbixrequests2api/Processing/KafkaZabbixRequestWorker.cs:414-459 | the same for every attempt of the retry loop, and there are never more attempts than configured |
| ProtectedHostGuard.RetriesFollowExceptions | src/zabbixrequests2api/Processing/KafkaZabbixRequestWorker.cs:414-459 | an attempt is repeated only when it raised; the result is that of the last attempt, or the API error when all raised |
| ProtectedHostGuard.SendIsSafe | src/zabbixrequests2api/Processing/KafkaZabbixRequestWorker.cs:516-541 | sending one mutation is safe given the checks made before it: the step every path relies on |
| ProtectedHostGuard.CheckMutationTargetsSafe | src/zabbixrequests2api/Processing/KafkaZabbixRequestWorker.cs:820-870 | when the lookup of the targets lets a mutation through, the last call of the attempt is a successful host.get that asked for every target and showed no protected record |
| ProtectedHostGuard.AllRecordsClear | src/zabbixrequests2api/Processing/KafkaZabbixRequestWorker.cs:847-870 | an answer without a protected record clears, by all its records, all the hosts that were asked for |
| ProtectedHostGuard.GuardsExactly | src/zabbixrequests2api/Processing/KafkaZabbixRequestWorker.cs:544-870 | a mutation checked against the first record only is cleared by all records of its lookup exactly when no later record with that id is protected; one checked against all records always is |
| ProtectedHostGuard.ProcessDeleteFallbackSafe | src/zabbixrequests2api/Processing/KafkaZabbixRequestWorker.cs:544-588 | the delete fallback deletes only the host whose record it has just checked |
| ProtectedHostGuard.ProcessUpdateFallbackSafe | src/zabbixrequests2api/Processing/KafkaZabbixRequestWorker.cs:590-668 | the update fallback updates only the host whose record it has just checked, or creates one when there is none |
| ProtectedHostGuard.ProcessDirectUpdateSafe | src/zabbixrequests2api/Processing/KafkaZabbixRequestWorker.cs:670-755 | the merged update goes to the host that was looked up and checked |
| ProtectedRecords.SecondRecordDeleted | src/zabbixrequests2api/Processing/KafkaZabbixRequestWorker.cs:544-588 | the delete fallback deletes a host that a later record of the lookup shows as protected |
| ProtectedRecords.SecondRecordUpdated | src/zabbixrequests2api/Processing/KafkaZabbixRequestWorker.cs:590-668 | so is the update of the update fallback |
| ProtectedRecords.SecondRecordMerged | src/zabbixrequests2api/Processing/KafkaZabbixRequestWorker.cs:670-755 | the merged update of a request of its own is sent to a host that a later record of the lookup shows as protected |
| ProtectedHostGuard.ValidTargets | src/zabbixrequests2api/Zabbix/ZabbixRequestValidator.cs:143-172 | a valid host.update or host.delete names all its targets, so none escapes the check |
| RequestWorker.ProcessRequestWithRetry | src/zabbixrequests2api/Processing/KafkaZabbixRequestWorker.cs:414-459 | the retry loop runs the attempts and publishes the result that the recursive definition of the attempts gives |
| ResultOrigin.ResultHasOrigin | src/zabbixrequests2api/Processing/KafkaZabbixRequestWorker.cs:478-800 | every result of an attempt is Zabbix's answer to the request it names, made in the last call, or a refusal without success and without any host written |
| ResultOrigin.PublishedMeansAcknowledged | src/zabbixrequests2api/Kafka/ZabbixBindingEventPublisher.cs:29-45 | a binding event is published only when the last call was the host write it is about and Zabbix acknowledged it, with the host id of that answer |
| ResultOrigin.CheckMutationTargetsOrigin | src/zabbixrequests2api/Processing/KafkaZabbixRequestWorker.cs:820-870 | a refusal by the target check comes from the failed lookup or is made before anything was written |
| ZabbixRequest.DerivedIdentity | src/zabbixrequests2api/Processing/KafkaZabbixRequestWorker.cs:1358-1380 | writing the metadata into a derived request and reading it again keeps class, card, code, profile, versions and main flag, with the entity id in place of a blank card id; so it keeps the identity exactly when there is no such replacement, and a second derivation changes nothing more |
| ZabbixRequest.DerivedShape | src/zabbixrequests2api/Processing/KafkaZabbixRequestWorker.cs:1189-1272 | a derived request reads back with the method and parameters it was built with |
| ZabbixRequest.WireMatchesDocument | src/zabbixrequests2api/Zabbix/ZabbixRequestReader.cs:68-93 | method, parameters and id sent to Zabbix are those of the document that was checked, and the metadata is not sent |
| HostGroupResolver.ResolveKeeps | src/zabbixrequests2api/Zabbix/ZabbixDynamicHostGroupResolver.cs:11-111 | resolving groups sends no request, keeps method, identity and every parameter but groups, whatever Zabbix answers |
| HostGroupResolver.ResolveKeepsGroupArray | src/zabbixrequests2api/Zabbix/ZabbixDynamicHostGroupResolver.cs:11-111 | resolving leaves an array of groups an array, so that a request stays on its path |
| HostGroupWriter.ReadIsConsistent | src/zabbixrequests2api/Zabbix/ZabbixRequestReader.cs:9-66 | what is read from a message is what the message itself says, the hypothesis of the identity theorems, and only an object is read |
| HostGroupWriter.GroupsSentOnce | src/zabbixrequests2api/Zabbix/ZabbixDynamicHostGroupResolver.cs:113-156 | the groups sent are exactly the ids given and found, each once |
| HostGroupWriter.WriteResolvedGroups | src/zabbixrequests2api/Zabbix/ZabbixDynamicHostGroupResolver.cs:113-156 | the loop with its set of written ids writes that list |
| HostGroupWriter.CreateMissingGroups | src/zabbixrequests2api/Zabbix/ZabbixDynamicHostGroupResolver.cs:36-52 | the creation loop makes the creations that CreatesMissingExactly is about |
| HostGroupWriter.CreatesMissingExactly | src/zabbixrequests2api/Zabbix/ZabbixDynamicHostGroupResolver.cs:36-52 | every group that is missing and may be created is created, once for all spellings of its name, and no other; afterwards every such name has an id |
| SourceIdentity.ResultSource | src/zabbixrequests2api/Processing/KafkaZabbixRequestWorker.cs:478-800 | the result of an attempt carries the source identity of the request received, on every path; only a blank card id can have given way to the entity id |
| SourceIdentity.PublishedSource | src/zabbixrequests2api/Processing/KafkaZabbixRequestWorker.cs:414-459 | so does the result that is published after the retries |
| BindingPublisher.PublishedShape | src/zabbixrequests2api/Kafka/ZabbixBindingEventPublisher.cs:29-45 | every published event has class, card, profile and host id, and a status that follows from its method |
| BindingPublisher.PublishedKey | src/zabbixrequests2api/Kafka/ZabbixBindingEventPublisher.cs:98-131 | class, card, profile and main flag of the event are those of the request that was received, with the entity id in place of a blank card id, however many requests were derived and retried |
| RequestValidator.ValidTemplates | src/zabbixrequests2api/Zabbix/ZabbixRequestValidator.cs:380-456 | a host write is found valid only after its own template list was loaded in the attempt and no two of the templates clash, so a merged list has passed the check too |
| TemplateCompatibility.ValidateTemplateCompatibility | src/zabbixrequests2api/Zabbix/ZabbixRequestValidator.cs:423-456 | a conflict is reported exactly when two different templates of the selection share an item key, a discovery rule key or an inventory field |
| TemplateCompatibility.FindDuplicateKeyConflicts | src/zabbixrequests2api/Zabbix/ZabbixRequestValidator.cs:458-482 | the index loop finds exactly the keys with more than one owner |
| TemplateCompatibility.FindDuplicateInventoryLinkConflicts | src/zabbixrequests2api/Zabbix/ZabbixRequestValidator.cs:484-515 | the index loop finds exactly the inventory fields filled by more than one template |
| TemplateCompatibility.KeyConflicts | src/zabbixrequests2api/Zabbix/ZabbixRequestValidator.cs:458-482 | a key with two owners exists exactly when two templates of different owners share a key |
| TemplateCompatibility.LinkConflicts | src/zabbixrequests2api/Zabbix/ZabbixRequestValidator.cs:484-515 | likewise for inventory fields |
| HostMerge.MergedOverrides | src/zabbixrequests2api/Processing/KafkaZabbixRequestWorker.cs:1432-1497 | read as a map by key, the merged array is the existing one overridden by the desired one: nothing existing is lost and the last desired value of a key wins |
| HostMerge.MergedKeysDistinct | src/zabbixrequests2api/Processing/KafkaZabbixRequestWorker.cs:1432-1497 | no key is sent twice exactly when Zabbix itself reported none twice among those that are not overridden |
| HostMerge.MergedAgain | src/zabbixrequests2api/Processing/KafkaZabbixRequestWorker.cs:1432-1497 | after the array was replaced, merging the same update again sends the same array, order included |
| HostUpdateWriter.CollectDesired | src/zabbixrequests2api/Processing/KafkaZabbixRequestWorker.cs:1440-1465 | the first loop fills dictionary, order list and remainder with the last element of each key |
| HostUpdateWriter.WriteMergedObjectArrayByKey | src/zabbixrequests2api/Processing/KafkaZabbixRequestWorker.cs:1432-1497 | the two loops over groups or macros write the merged array |
| HostUpdateWriter.WriteMergedTags | src/zabbixrequests2api/Processing/KafkaZabbixRequestWorker.cs:1561-1603 | the two loops over tags write the merged array |
| HostUpdateWriter.WriteMergedTemplates | src/zabbixrequests2api/Processing/KafkaZabbixRequestWorker.cs:1499-1559 | the loops over linked and desired templates write the merged templates |
| HostUpdateWriter.WriteMergedObject | src/zabbixrequests2api/Processing/KafkaZabbixRequestWorker.cs:1605-1636 | the loops over inventory fields write the merged object |
| HostUpdateWriter.BuildHostUpdateParams | src/zabbixrequests2api/Processing/KafkaZabbixRequestWorker.cs:1189-1272 | the property loop writes the whole payload |
| TemplateMerge.MergedTemplateIds | src/zabbixrequests2api/Processing/KafkaZabbixRequestWorker.cs:1499-1559 | the templates sent are exactly the linked and the desired ones without the cleared ones |
| TemplateMerge.MergedTemplatesOnce | src/zabbixrequests2api/Processing/KafkaZabbixRequestWorker.cs:1499-1559 | no template is sent twice when Zabbix reports none twice |
| TemplateMerge.TemplatesClearIds | src/zabbixrequests2api/Processing/KafkaZabbixRequestWorker.cs:1638-1672 | templates_clear names exactly the linked templates that are to be cleared and is left out when there are none |
| TemplateMerge.MergedTemplatesAgain | src/zabbixrequests2api/Processing/KafkaZabbixRequestWorker.cs:1499-1559 | reading the updated host and merging again sends the same templates |
| TemplateMerge.NothingToClearAgain | src/zabbixrequests2api/Processing/KafkaZabbixRequestWorker.cs:1638-1672 | after the update nothing is left to clear |
| HostUpdate.MergedObjectOverrides | src/zabbixrequests2api/Processing/KafkaZabbixRequestWorker.cs:1605-1636 | no inventory field is lost and the desired value of a field wins, whatever the case of its name |
| HostUpdate.MergedObjectAgain | src/zabbixrequests2api/Processing/KafkaZabbixRequestWorker.cs:1605-1636 | merging the inventory again changes nothing |
| HostUpdate.InterfaceAuthoritative | src/zabbixrequests2api/Processing/KafkaZabbixRequestWorker.cs:1390-1430 | interfaces stay as the rules define them but for the id, which is one that Zabbix already uses on the host |
| HostUpdate.SharedInterfaceId | src/zabbixrequests2api/Processing/KafkaZabbixRequestWorker.cs:1692-1725 | a payload in which the fallback gives one id to two interfaces |
| HostUpdate.SharedIdByName | src/zabbixrequests2api/Processing/KafkaZabbixRequestWorker.cs:1692-1725 | a payload in which one interface matches by all its fields and the other by its dns name, with one id for both |
| HostUpdate.SharedIdExactly | src/zabbixrequests2api/Processing/KafkaZabbixRequestWorker.cs:1692-1725 | two interfaces get one id exactly when they match the same existing interface, or the first of the payload matches none and the other one matches the first existing interface |
| HostUpdate.InterfacesMatchedAgain | src/zabbixrequests2api/Processing/KafkaZabbixRequestWorker.cs:1692-1725 | when Zabbix shows the interfaces that were sent under ids of its own, sending them again finds every id again exactly when no two of them agree in type, useip, ip, dns and port |
| HostUpdateProofs.PayloadTarget | src/zabbixrequests2api/Processing/KafkaZabbixRequestWorker.cs:1189-1272 | the update goes to the host that was read, whatever hostid the request names |
| HostUpdateProofs.PayloadProperty | src/zabbixrequests2api/Processing/KafkaZabbixRequestWorker.cs:1216-1268 | under every other name the payload holds the merged form of that property |
| HostUpdateProofs.PayloadTemplates | src/zabbixrequests2api/Processing/KafkaZabbixRequestWorker.cs:1189-1272 | the payload lists exactly the linked and desired templates that are not cleared, and clears exactly the linked ones it was asked to clear |
| HostUpdateProofs.PayloadAgain | src/zabbixrequests2api/Processing/KafkaZabbixRequestWorker.cs:1189-1272 | merging the same update, interfaces included, into the host it produced sends the same payload, property by property and in the same order, without templates_clear and but for the ids of the interfaces; whatever interfaces Zabbix shows by then; for parameters whose names differ by more than case, with templates_clear, if there, an array |
| HostUpdateProofs.InterfacesAgain | src/zabbixrequests2api/Processing/KafkaZabbixRequestWorker.cs:1189-1272 | the second payload has the same interfaces, and each with the id Zabbix shows for it exactly when no two of the update agree in type, useip, ip, dns and port |
| SentUpdates.DirectAttemptMerges | src/zabbixrequests2api/Processing/KafkaZabbixRequestWorker.cs:670-755 | an update with any field that is merged is never sent as it was received: what is sent has, apart from groups, the properties of its parameters, with only group names resolved, merged with the host that was looked up |
| SentUpdates.FallbackAttemptMerges | src/zabbixrequests2api/Processing/KafkaZabbixRequestWorker.cs:590-668 | every update of a fallback attempt has, apart from groups, the properties of the fallback parameters merged with the host that was looked up |
| SentUpdates.RulesToRequest | src/zabbixrequests2api/Processing/KafkaZabbixRequestWorker.cs:590-755 | every host.update that an attempt sends for a rendered selection, directly or as a fallback, names the first host that a host.get logged before it had found, lists exactly the selected templates and the linked ones outside the removed ids, and clears exactly the linked removed ones; whatever Zabbix answers |
| OffsetProtocol.LossExactly | src/zabbixrequests2api/Processing/KafkaZabbixRequestWorker.cs:103-175 | over every run with failures and crashes anywhere, some message below the resume offset is unanswered if and only if the loop polled on after an exception that had escaped without a response, and later saved the state before a restart |
| OffsetProtocol.LostForever | src/zabbixrequests2api/Processing/KafkaZabbixRequestWorker.cs:103-175 | a message the resume offset has passed is never answered later |
| OffsetProtocol.LoopLosesMessage | src/zabbixrequests2api/Processing/KafkaZabbixRequestWorker.cs:153-168 | two messages are enough: the first raises before its response, the second completes |
| OffsetProtocol.DisciplinedRuns | src/zabbixrequests2api/Processing/KafkaZabbixRequestWorker.cs:215-229 | with a restart after every escaping exception nothing is lost, the state is ahead of the committed position by exactly the saves not yet committed, and there are no more repeated responses than restarts |
| OffsetProtocol.StateTwoAhead | src/zabbixrequests2api/Processing/KafkaZabbixRequestWorker.cs:1820-1855 | the state file can be ahead by more than one message |
| OffsetProtocol.PartitionWorker.Start | src/zabbixrequests2api/Processing/KafkaZabbixRequestWorker.cs:204-229 | a process life starts past the saved offset, else where Kafka stands |
| OffsetProtocol.PartitionWorker.Consume | src/zabbixrequests2api/Processing/KafkaZabbixRequestWorker.cs:103-128 | taking a message moves the consumer past it |
| OffsetProtocol.PartitionWorker.PublishStateAndCommit | src/zabbixrequests2api/Processing/KafkaZabbixRequestWorker.cs:1820-1855 | publish, save and commit in this order take the steps of the protocol, whichever of them fails and however |
| RuleConditions.CollectRequiredHostProfileValues | src/cmdbkafka2zabbix/Rules/ProfileScopedRulePolicy.cs:95-113 | the walk over the tree collects the required values in order |
| RuleConditions.RequiredValuesSound | src/cmdbkafka2zabbix/Rules/ProfileScopedRulePolicy.cs:95-113 | if a condition matches, every profile value it requires is the event's host profile, given that the spellings of hostProfile in the event agree |
| RuleConditions.RequiredValuesExactly | src/cmdbkafka2zabbix/Conversion/CmdbToZabbixConverter.cs:1094-1123 | this holds of an event, for every condition, exactly when every field that is another spelling of hostProfile is blank or has, ignoring case, the value of hostProfile |
| RuleConditions.AmbiguousRuleNeverMatches | src/cmdbkafka2zabbix/Rules/ProfileScopedRulePolicy.cs:31-70 | then ignoring a rule that requires two profiles loses nothing |
| RuleConditions.KnownProfileMatches | src/cmdbkafka2zabbix/Conversion/CmdbToZabbixConverter.cs:1052-1086 | then for a rule bound to one known profile the profile check adds nothing to the condition |
| RuleConditions.OneProfilePerRule | src/cmdbkafka2zabbix/Rules/ProfileScopedRulePolicy.cs:24-54 | no rule applies to events of two differently named profiles |
| RuleConditions.SecondSpelling | src/cmdbkafka2zabbix/Conversion/CmdbToZabbixConverter.cs:1094-1123 | a source field that is another spelling of hostProfile, with another value, breaks this |
| RuleConditions.HostProfileRead | src/cmdbkafka2zabbix/Conversion/CmdbToZabbixConverter.cs:1094-1148 | where the spellings agree, each of them reads as the event's host profile, ignoring case, or as nothing |
| TemplateSelection.ApplyTemplateConflictRules | src/cmdbkafka2zabbix/Conversion/CmdbToZabbixConverter.cs:626-657 | the loops remove exactly the templates and ids of the rules that fire on what was selected at the start |
| TemplateSelection.SelectTemplateSelection | src/cmdbkafka2zabbix/Conversion/CmdbToZabbixConverter.cs:599-624 | the selection is what matched outside the removed ids, one template an id, with the removed ids to clear |
| TemplateSelection.ConflictOrderIrrelevant | src/cmdbkafka2zabbix/Conversion/CmdbToZabbixConverter.cs:626-657 | what the conflict rules remove does not depend on their order |
| TemplateSelection.RulesToHost | src/cmdbkafka2zabbix/Conversion/CmdbToZabbixConverter.cs:599-657 | from rules to payload: the update merged with a host lists exactly selected ∪ (linked without the removed ids), contains every selected template and no removed one, and clears exactly the linked removed ones |
| TemplateSelection.SelectionIsDisjoint | src/cmdbkafka2zabbix/Conversion/CmdbToZabbixConverter.cs:626-657 | no selected template has a removed id |
| InterfaceSelection.OneMainPerType | src/cmdbkafka2zabbix/Conversion/CmdbToZabbixConverter.cs:737-755 | every type present has exactly one main interface: the first configured one, else the first |
| InterfaceSelection.SelectedInterfaces | src/cmdbkafka2zabbix/Conversion/CmdbToZabbixConverter.cs:692-735 | no two interfaces, at whatever positions, share type, useip, ip, dns and port; each is a given interface with an address, changed in its main flag only; no address is lost |
| InterfaceSelection.FirstIsSelected | src/cmdbkafka2zabbix/Conversion/CmdbToZabbixConverter.cs:728-731 | of the interfaces that share these values the first one is sent |
| InterfaceSelection.SelectInterfacesAgain | src/cmdbkafka2zabbix/Conversion/CmdbToZabbixConverter.cs:692-755 | selecting from the selected interfaces changes nothing |
| InterfaceSelection.NormalizeInterfaceMainFlags | src/cmdbkafka2zabbix/Conversion/CmdbToZabbixConverter.cs:737-755 | the loop with its mainSelected flag marks the one main interface |
| PathResolver.WalkersAgree | src/cmdbkafka2zabbix/Conversion/CmdbSourceFieldResolver.cs:223-331 | a path that starts with a reference to class K reads, from value v with one more level allowed, what the card walker reads from card v of K, and visits the same cards, exactly unless the bound is negative and there is a card to go to |
| PathResolver.WalkersInStep | src/cmdbkafka2zabbix/Conversion/CmdbSourceFieldResolver.cs:390-479 | past the first reference the two loops go in step |
| PathResolver.EveryCardOnce | src/cmdbkafka2zabbix/Conversion/CmdbSourceFieldResolver.cs:278-300 | no walk goes to a card twice, nor to more cards than the depth bound allows |
| PathResolver.Resolver.ResolvePath | src/cmdbkafka2zabbix/Conversion/CmdbSourceFieldResolver.cs:223-331 | the loop of the reference walker, over the caches, computes the reference walk |
| PathResolver.Resolver.ResolveCardPath | src/cmdbkafka2zabbix/Conversion/CmdbSourceFieldResolver.cs:390-479 | the loop of the card walker, over the caches, computes the card walk |
| PathResolver.Resolver.GetCard | src/cmdbkafka2zabbix/Conversion/CmdbSourceFieldResolver.cs:615-636 | the card cache answers as CMDBuild does |
| PathResolver.Resolver.GetAttribute | src/cmdbkafka2zabbix/Conversion/CmdbSourceFieldResolver.cs:571-613 | the attribute cache answers as CMDBuild does |
| PathResolver.ByName | src/cmdbkafka2zabbix/Conversion/CmdbSourceFieldResolver.cs:585-613 | attributes are found by their own name, up to case |
| PathResolver.KeyOfColonFree | src/cmdbkafka2zabbix/Conversion/CmdbSourceFieldResolver.cs:615-620 | cache keys tell cards apart when class names have no colon |
| PathResolver.KeysMeetExactly | src/cmdbkafka2zabbix/Conversion/CmdbSourceFieldResolver.cs:615-620 | some cards, with ids that are not blank, of two different classes share a cache key exactly when the name of one class, with a colon after it, begins the name of the other |
| BindingRegistry.LastWriterWins | src/zabbixbindings2cmdbuild/Cmdbuild/CmdbuildBindingClient.cs:20-201 | after any events with any faults that leave one card a key, the reader gets, for a class, card and profile, the host id of the last event that took effect, and nothing when that was a delete |
| BindingRegistry.ReaderExactly | src/cmdbkafka2zabbix/Conversion/CmdbZabbixHostBindingResolver.cs:75-112 | after any events with any faults, from any registry, a reader of a profile gets what the first card of its key that tells anything tells, of the cards a lookup shows; a card is added where there is none or the lookup yields nothing, and else the first one is overwritten |
| BindingRegistry.LastWriterExactly | src/cmdbkafka2zabbix/Conversion/CmdbZabbixHostBindingResolver.cs:75-112 | so the reader gets the last event that took effect exactly when the first shown card that tells anything tells this, and nothing after a delete exactly when no shown card tells anything |
| BindingRegistry.HiddenCardIsStale | src/zabbixbindings2cmdbuild/Cmdbuild/CmdbuildBindingClient.cs:164-190 | after host id 1, and host id 2 with a lookup that yields nothing, the reader still gets 1 and there are two cards |
| BindingRegistry.ReplayWritesNothing | src/zabbixbindings2cmdbuild/Cmdbuild/CmdbuildBindingClient.cs:31-140 | where there is one card a key, applying the last effective event for a key again writes nothing |
| BindingRegistry.ApplyKeepsOneCard | src/zabbixbindings2cmdbuild/Cmdbuild/CmdbuildBindingClient.cs:79-190 | an event makes a second card for a key exactly when the lookup of a card that is there yields nothing and the creation gets there, whatever else fails |
| BindingRegistry.RunKeepsOneCard | src/zabbixbindings2cmdbuild/Cmdbuild/CmdbuildBindingClient.cs:79-190 | a run keeps one card a key exactly when this never happens in it |
| BindingRegistry.SecondCardExactly | src/zabbixbindings2cmdbuild/Cmdbuild/CmdbuildBindingClient.cs:79-190 | from an empty registry, there is one card a key exactly when no profile event took effect after another one for its key although its lookup yielded nothing |
| BindingRegistry.AcknowledgedIsSettled | src/zabbixbindings2cmdbuild/Cmdbuild/CmdbuildBindingClient.cs:31-140 | an event reported as done is in the registry; where it made a second card, exactly when the first card said it already |
| BindingRegistry.OthersResolve | src/cmdbkafka2zabbix/Conversion/CmdbZabbixHostBindingResolver.cs:50-112 | an event changes nothing for readers of other keys |
| BindingRegistry.SettledResolves | src/cmdbkafka2zabbix/Conversion/CmdbZabbixHostBindingResolver.cs:75-112 | a registry that is settled for an event shows its readers what the event says |
| BindingRegistry.NoSourceCard | src/zabbixbindings2cmdbuild/Cmdbuild/CmdbuildBindingClient.cs:31-48 | a main event about a card that does not exist changes nothing and is not an error |
| BindingRegistry.TwoCardsExactly | src/zabbixbindings2cmdbuild/Cmdbuild/CmdbuildBindingClient.cs:164-234 | in a run from an empty registry an owner gets two cards for a profile exactly when CMDBuild compares exactly and two profile events that took effect spelt class, card id or profile differently, or one took effect after another although its lookup yielded nothing |
| BindingRegistry.TwoSpellings | src/zabbixbindings2cmdbuild/Cmdbuild/CmdbuildBindingClient.cs:203-234 | with exact comparison an event for class Server and one for class SERVER leave two cards for one owner |
| BindingRegistry.SeenExactly | src/zabbixbindings2cmdbuild/Cmdbuild/CmdbuildBindingClient.cs:366-375 | host ids without letters are read exactly as written |
| BindingRegistry.Cmdbuild.ApplyEvent | src/zabbixbindings2cmdbuild/Cmdbuild/CmdbuildBindingClient.cs:20-140 | the writer, one request at a time, has the effect the registry lemmas are about |
| CircuitBreaker.FailuresBelowThreshold | src/shared/Http/HttpClientResilienceHandler.cs:141-155 | under every interleaving of callers the failure count stays below the threshold |
| CircuitBreaker.OpensAtThreshold | src/shared/Http/HttpClientResilienceHandler.cs:141-155 | a failure opens the circuit exactly when it is the threshold-th one since the circuit was last reset, expired or opened |
| CircuitBreaker.OpenCircuitRefuses | src/shared/Http/HttpClientResilienceHandler.cs:111-130 | no check passes an open circuit unless it has expired |
| CircuitBreaker.OpenUntilBreakEnds | src/shared/Http/HttpClientResilienceHandler.cs:111-155 | in every run: once a failure has opened the circuit, and until it is cleared, expired or opened again, every check of every caller is refused exactly before the break time has passed since that failure |
| CircuitBreaker.CallShape | src/shared/Http/HttpClientResilienceHandler.cs:13-81 | whatever the others do, a call is a number of sends, each after a check of its own that passed, and then at most one word to the gate |
| CircuitBreaker.CallBounds | src/shared/Http/HttpClientResilienceHandler.cs:13-81 | a call makes at most max(1, attempts) sends and registers at most one failure, and that only after all of them |
| CircuitBreaker.ResilienceHandler.ThrowIfCircuitOpen | src/shared/Http/HttpClientResilienceHandler.cs:111-130 | the check under the lock |
| CircuitBreaker.ResilienceHandler.ResetCircuit | src/shared/Http/HttpClientResilienceHandler.cs:132-139 | the reset under the lock |
| CircuitBreaker.ResilienceHandler.RegisterFailure | src/shared/Http/HttpClientResilienceHandler.cs:141-155 | the registration of a failure under the lock |
| CircuitBreaker.ResilienceHandler.SendAsync | src/shared/Http/HttpClientResilienceHandler.cs:13-81 | the attempt loop takes the steps of one caller, to the end |
| RateLimiter.WebhookRateLimiter.TryAcquire | src/cmdbwebhooks2kafka/Endpoints/WebhookRateLimiter.cs:10-27 | one request updates its own key's counter only, and is granted while the count is within the limit |
| RateLimiter.WindowBound | src/cmdbwebhooks2kafka/Endpoints/WebhookRateLimiter.cs:10-27 | while the clock does not go back, no half-open interval of the window's length holds more than one less than twice the limit of grants |
| RateLimiter.BoundReached | src/cmdbwebhooks2kafka/Endpoints/WebhookRateLimiter.cs:10-27 | this bound is reached, for every limit of at least one and every window of at least two units of time |
| RateLimiter.RefusalMeansFull | src/cmdbwebhooks2kafka/Endpoints/WebhookRateLimiter.cs:10-27 | a refusal means exactly as many grants as the limit since a window start less than a window length ago |
| TtlCache.Cache.TryRead | src/zabbixrequests2api/Zabbix/ZabbixClient.cs:291-319 | a cache hit was true of the server less than the time to live, and the latency of the answer, ago |
| TtlCache.Cache.Write | src/zabbixrequests2api/Zabbix/ZabbixClient.cs:321-336 | an entry is kept until its time to live is over, and not at all without one |
| TtlCache.Cache.ReadAll | src/zabbixrequests2api/Zabbix/ZabbixClient.cs:43-54 | the first loop of the lookups splits what is asked for into what is known and what is missing |
| TtlCache.ZabbixClient.GetExistingHostGroupIds | src/zabbixrequests2api/Zabbix/ZabbixClient.cs:30-92 | every id asked for that exists now is found; an id found exists now or did lately; without a time to live the answer is the server's |
| TtlCache.ZabbixClient.GetHostGroupIdsByName | src/zabbixrequests2api/Zabbix/ZabbixClient.cs:94-160 | every name asked for that a group has now is found, with an id that is or lately was that of a group of this name |
| TtlCache.ZabbixClient.GetTemplateInfos | src/zabbixrequests2api/Zabbix/ZabbixClient.cs:206-289 | every template asked for that exists now is found, as it is or lately was |
| TtlCache.ZabbixClient.CreateHostGroup | src/zabbixrequests2api/Zabbix/ZabbixClient.cs:162-204 | a group that was created is in both caches |
| TtlCache.ZabbixClient.ServeAll | src/zabbixrequests2api/Zabbix/ZabbixClient.cs:30-289 | in a run of any lookups and creates one after the other, at any distance in time, every lookup is answered with all that the server knows, and with no id, name or template that was not true then or lately |
| ConditionFilter.MayApplyCovers | src/monitoring-ui-api/public/lib/condition-expression.js:388-479 | a condition that holds for a source of a class may apply to that class, for every tree whose class name leaves are safe |
| ConditionFilter.TextCoversExactly | src/monitoring-ui-api/public/lib/condition-expression.js:388-479 | by text, the filter covers the evaluator for a class, for every condition, source and regular expression engine, exactly when the class name has no blanks around it or is blank |
| ConditionFilter.TokenCoversExactly | src/monitoring-ui-api/public/lib/webhook-logic.js:572-574 | by token, it does so for blank class names only |
| ConditionFilter.SafeByText | src/monitoring-ui-api/public/lib/condition-expression.js:527-530 | with the default normalizer all trees are safe for a class name that is trimmed or blank |
| ConditionFilter.SafeByToken | src/monitoring-ui-api/public/lib/webhook-logic.js:572-574 | by token, trees without a notequals leaf on the class name are |
| ConditionFilter.TokenFilterMisses | src/monitoring-ui-api/public/lib/webhook-logic.js:572-574 | by token, the condition that the class differs from a name with the same token is missed |
| ConditionFilter.TokenExample | src/monitoring-ui-api/public/lib/webhook-logic.js:572-574 | the class A-B and the name AB are such a pair |
| ConditionFilter.UntrimmedClassMissed | src/monitoring-ui-api/public/lib/condition-expression.js:412-418 | a class name with blanks around it is missed by a pattern that holds for the trimmed name only |
| ConditionFilter.SameTextSameToken | src/monitoring-ui-api/public/lib/condition-expression.js:522-530 | texts that are equal trimmed and in lower case have the same token |
| WebhookConvergence.ReconciliationConverges | src/monitoring-ui-api/public/lib/webhook-logic.js:89-159 | so planning again yields neither when every webhook concerned has one placeholder prefix |
| WebhookConvergence.ReconciliationSettlesExactly | src/monitoring-ui-api/public/lib/webhook-logic.js:89-159 | after the creates and updates of a plan every class and event has the webhook that was desired, and planning again yields no create or update exactly when the first placeholder of every body that was written has the prefix it was planned with; given distinct codes, no foreign webhook with a desired code and an identifier no requirement touches |
| WebhookConvergence.DeletesExactly | src/monitoring-ui-api/public/lib/webhook-logic.js:138-153 | the deletes are exactly the managed webhooks that are not desired |
| WebhookConvergence.UpdatesKeepSettings | src/monitoring-ui-api/public/lib/webhook-logic.js:50-136 | an update is for the managed webhook of some class and event, points it to them, and keeps headers, language, active flag and any description, url and method that are set |
| WebhookConvergence.OneOperationPerCode | src/monitoring-ui-api/public/lib/webhook-logic.js:89-159 | every code gets at most one operation, but for obsolete webhooks that share one |
| WebhookConvergence.SlotSettlesExactly | src/monitoring-ui-api/public/lib/webhook-logic.js:50-87 | a webhook that compares equal to what was desired is what is desired next, whatever the other webhooks are then, exactly when its first placeholder has the prefix that was planned with or nothing is required |
| WebhookConvergence.AllSlots | src/monitoring-ui-api/public/lib/webhook-logic.js:99-136 | carrying out the operations settles every class and event and leaves other codes alone |
| WebhookConvergence.DesiredManaged | src/monitoring-ui-api/public/lib/webhook-logic.js:750-767 | what is desired is recognized as this service's own and has the code of its class and event |
| WebhookConvergence.UnmanagedIsCreatedAgain | src/monitoring-ui-api/public/lib/webhook-logic.js:750-767 | a webhook that is not recognized is added by the plan and created again by the next one |
| WebhookFailures.PrefixSwitches | src/monitoring-ui-api/public/lib/webhook-logic.js:50-136 | a managed webhook with the placeholders {card:Code} and {Server:B}, and a required field with the key code that is sent as hostCode: the update deletes the first placeholder, so that planning again updates the webhook again |
| WebhookFailures.IdentifierKeptExactly | src/monitoring-ui-api/public/lib/webhook-logic.js:338-360 | a body that is desired holds a non-blank identifier exactly when no requirement sends that key or deletes it as an alias |
| WebhookFailures.TakenIsCreatedForever | src/monitoring-ui-api/public/lib/webhook-logic.js:89-136 | with a source field that is sent under the key of the managed identifier, every reconciliation creates one more webhook: after n of them there are n more |
| WebhookReconciler.BuildOperations | src/monitoring-ui-api/public/lib/webhook-logic.js:89-153 | the loops over desired and current webhooks build the plan |
| WebhookBodyProofs.BodyAgain | src/monitoring-ui-api/public/lib/webhook-logic.js:338-360 | building a body again from one that was built says the same exactly when the prefix is the same or no requirement asks for it |
| WebhookBodyProofs.BodySettlesExactly | src/monitoring-ui-api/public/lib/webhook-logic.js:338-380 | planning from a body that says what was planned plans the same exactly when its first placeholder has the prefix that was planned with, or nothing is required |
| WebhookBodyProofs.BodySettles | src/monitoring-ui-api/public/lib/webhook-logic.js:338-380 | so it does when the old body had one placeholder prefix |
| WebhookBodyProofs.NormalTwice | src/monitoring-ui-api/public/lib/webhook-logic.js:362-380 | placeholders once made to fit the class stay as they are |
| WebhookBodyProofs.BuiltPrefix | src/monitoring-ui-api/public/lib/webhook-logic.js:711-733 | a built body has the one prefix it was built with |
| WebhookBodyProofs.AtBody | src/monitoring-ui-api/public/lib/webhook-logic.js:338-360 | a key of a built body is decided by the last requirement concerned with it, else fixed, else kept |
| WebhookBody.BuildBody | src/monitoring-ui-api/public/lib/webhook-logic.js:338-360 | the assignments and deletions build the body |
| WebhookBody.RemoveAliasFields | src/monitoring-ui-api/public/lib/webhook-logic.js:438-454 | the deletions leave exactly the keys that are no alias of the requirement |
| WebhookBody.PlaceholderParses | src/monitoring-ui-api/public/lib/webhook-logic.js:892-894 | a placeholder is read back as its prefix and attribute exactly when the attribute allows it |
| RequirementPruning.PrunedExactly | src/monitoring-ui-api/public/lib/webhook-logic.js:211-245 | pruning keeps, in order, every requirement by path and every plain one that none of them shadows, and nothing else |
| RequirementPruning.NoShadowLeft | src/monitoring-ui-api/public/lib/webhook-logic.js:211-245 | no requirement that is left shadows another |
| RequirementPruning.RulesConserved | src/monitoring-ui-api/public/lib/webhook-logic.js:256-259 | the union of the rules that ask for requirements is conserved |
| RequirementPruning.PruneShadowed | src/monitoring-ui-api/public/lib/webhook-logic.js:211-235 | the loops, with removal in place, compute the pruned list |
| RequirementPruning.RemoveShadowed | src/monitoring-ui-api/public/lib/webhook-logic.js:222-229 | the inner loop from the last requirement to the first removes what a requirement by path shadows |

## Left out

- Kafka, HTTP, TLS, JSON text and the state file's bytes: only their effects are there (log positions, oracle answers, parsed values, one cell that is written atomically). A state file that cannot be read counts as none.
- Multi-partition state, rebalances within a process life, rule reload, shutdown tracking, dead letters, logging, metrics, cancellation, delays and jitter.
- The converter worker's several publishes per message: its offset protocol is that of the request worker with more than one publish before the save.
- Regular expressions (an uninterpreted engine), T4 rendering (the update parameters a selection is rendered to are given), CMDBuild's catalog and the derivation of requirements from it.
- Letters outside ASCII: case folding, trimming and locale comparison are those of ASCII text.
- Error messages, and the checks of status, macros, inventory and TLS fields, which are one uninterpreted function that may report any errors.
- Sorting by priority and the final sorting of webhook operations: rules come in the order of their priority, and operations in the order the loops add them.
- Where a CMDBuild path starts (class prefix, domain segments and the list of related cards) and the lookup value cache of the path resolver.
- The payload text of a binding event: publisher and reader exchange the record.
- Superclass addresses of a CMDBuild card: a card has one class and one id.
- Locks: every section under a lock is one atomic step; the circuit breaker's callers interleave between them.
- RequestWorker.ProcessRequestWithRetry: the waiting time between attempts is not modelled, because it changes nothing but time.
- CircuitBreaker.ResilienceHandler.SendAsync: runs without other callers in between, because a method has no interleaving; the lemmas about runs cover every interleaving of the same steps.
- PathResolver.Resolver.GetCard: CMDBuild answers the same throughout one event, because the cache lives for one event; the attribute cache lives longer and is modelled for one event too.
- TtlCache.ZabbixClient.GetExistingHostGroupIds: one clock reading for the cache reads of a call and one for its writes, because the bound on the latency covers both.
- TtlCache.ZabbixClient.CreateHostGroup: takes the created group as present on the server once it answered, because that is what its answer means.
- TtlCache.ZabbixClient.ServeAll: the calls of a run follow each other; calls of one client that overlap in time are not modelled.
- BindingRegistry.LastWriterWins: a main card that CMDBuild refuses to show (status 400 or 404) makes its event ineffective, because the writer skips it.
- WebhookConvergence.ReconciliationSettlesExactly: the unselected deletes of a plan are not carried out, and the authorization header that the server adds to an update is not part of what is compared.
- WebhookConvergence.ReconciliationConverges: the unselected deletes of a plan are not carried out, and the authorization header that the server adds to an update is not part of what is compared.
