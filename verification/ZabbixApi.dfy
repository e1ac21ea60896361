/** Zabbix as the worker sees it: an oracle that may answer anything or raise, and the log of one
    processing attempt. */
module ZabbixApi {
  import Text
  import JsonModel
  import ZabbixRequest

  datatype Answer<+T> = Returns(value: T) | Raises

  datatype Body = NoBody | BadJson | Parsed(json: JsonModel.Json)

  datatype ApiResult = ApiResult(success: bool, body: Body, errorCode: Text.Option<string>)

  datatype InventoryItem = InventoryItem(key: string, link: string)

  datatype TemplateInfo = TemplateInfo(
    templateId: string, name: string, groupIds: seq<string>,
    itemKeys: seq<string>, ruleKeys: seq<string>, inventory: seq<InventoryItem>)

  /** The answers Zabbix would give at one point of an attempt, one per client operation. Dictionary
      and set keys are case-folded. */
  datatype Reply = Reply(
    exec: Answer<ApiResult>,
    groupIdsByName: Answer<map<string, string>>,
    createdGroup: Answer<string>,
    existingGroups: Answer<set<string>>,
    templates: Answer<map<string, TemplateInfo>>)

  type Oracle = nat -> Reply

  datatype Event =
    | Exec(request: ZabbixRequest.Request, answer: Answer<ApiResult>)
    | FindGroups(names: seq<string>, found: Answer<map<string, string>>)
    | CreateGroup(name: string, created: Answer<string>)
    | CheckGroups(ids: seq<string>, existing: Answer<set<string>>)
    | LoadTemplates(templateIds: seq<string>, loaded: Answer<map<string, TemplateInfo>>)

  /** A computation of one attempt: its log so far, and a value unless an exception escaped. */
  datatype Run<+T> = Done(log: seq<Event>, value: T) | Thrown(log: seq<Event>) {
    predicate IsFailure() {
      Thrown?
    }

    function PropagateFailure<U>(): Run<U>
      requires Thrown?
    {
      Thrown(log)
    }

    function Extract(): (seq<Event>, T)
      requires Done?
    {
      (log, value)
    }
  }

  function Finish<T>(log: seq<Event>, answer: Answer<T>): Run<T> {
    match answer
    case Returns(value) => Done(log, value)
    case Raises => Thrown(log)
  }

  function Execute(oracle: Oracle, log: seq<Event>, request: ZabbixRequest.Request): Run<ApiResult> {
    var answer := oracle(|log|).exec;
    Finish(log + [Exec(request, answer)], answer)
  }

  function GetHostGroupIdsByName(oracle: Oracle, log: seq<Event>, names: seq<string>): Run<map<string, string>> {
    var answer := oracle(|log|).groupIdsByName;
    Finish(log + [FindGroups(names, answer)], answer)
  }

  function CreateHostGroup(oracle: Oracle, log: seq<Event>, name: string): Run<string> {
    var answer := oracle(|log|).createdGroup;
    Finish(log + [CreateGroup(name, answer)], answer)
  }

  function GetExistingHostGroupIds(oracle: Oracle, log: seq<Event>, ids: seq<string>): Run<set<string>> {
    var answer := oracle(|log|).existingGroups;
    Finish(log + [CheckGroups(ids, answer)], answer)
  }

  function GetTemplateInfos(oracle: Oracle, log: seq<Event>, ids: seq<string>): Run<map<string, TemplateInfo>> {
    var answer := oracle(|log|).templates;
    Finish(log + [LoadTemplates(ids, answer)], answer)
  }

  /** Nothing was sent through Execute after the given prefix. */
  ghost predicate Quiet(before: seq<Event>, log: seq<Event>) {
    before <= log && forall i :: |before| <= i < |log| ==> !log[i].Exec?
  }
}
