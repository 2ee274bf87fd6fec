/** The template macro: for every EC2 instance in a fragment's `Resources`
    it generates a CPU-utilisation alarm and a status-check alarm, and merges
    them into `Resources`, unless some resource has no readable `Type`. */
module AlarmMacro {
  import opened Wrappers
  import opened JsonValues
  import opened OrderedDict

  /** One static alarm description: `alarmName` is the suffix of the
      generated resource's key; the rest is copied into its properties. */
  datatype AlarmSpec = AlarmSpec(
    alarmName: string,
    metricName: string,
    evaluationPeriods: string,
    comparisonOperator: string,
    dimensionName: string,
    namespace: string,
    period: string,
    statistic: string,
    threshold: string,
    unit: string)

  const Cpu := AlarmSpec("CPUUtilization", "CPUUtilization", "5", "GreaterThanOrEqualToThreshold",
                         "InstanceId", "AWS/EC2", "120", "Average", "85", "Percent")

  const StatusCheck := AlarmSpec("StatusCheck", "StatusCheckFailed_Instance", "5", "GreaterThanOrEqualToThreshold",
                                 "InstanceId", "AWS/EC2", "120", "Average", "85", "Percent")

  /** The alarms generated for every EC2 instance, in generation order. */
  const Ec2Alarms: seq<AlarmSpec> := [Cpu, StatusCheck]

  const InstanceType := "AWS::EC2::Instance"
  const AlarmType := "AWS::CloudWatch::Alarm"

  /** The sentinel standing for "the resource has no condition". */
  const NoCondition := JString("none")

  predicate IsInstance(resourceJson: Json) {
    Index(resourceJson, "Type") == Some(JString(InstanceType))
  }

  /** The resource's `Condition`, or the sentinel when it has none. A
      condition whose value is the string "none" cannot be told apart from a
      missing one. */
  function ConditionChecker(resource: string, resourceJson: Json): (condition: Json)
    requires resourceJson.JObject?
    ensures condition == NoCondition <==>
      "Condition" !in resourceJson.fields || resourceJson.fields["Condition"] == NoCondition
    ensures condition != NoCondition ==> condition == resourceJson.fields["Condition"]
  {
    if "Condition" in resourceJson.fields then resourceJson.fields["Condition"] else NoCondition
  }

  /** The key of the alarm generated for `resource` from `alarm`. */
  function AlarmKey(resource: string, alarm: AlarmSpec): string {
    resource + alarm.alarmName
  }

  /** The `Properties` of the alarm generated for `resource` from `alarm`,
      notifying `topic`. */
  function AlarmProperties(resource: string, topic: string, alarm: AlarmSpec): Json {
    JObject(map[
      "ActionsEnabled" := JString("true"),
      "AlarmActions" := JArray([JString(topic)]),
      "AlarmDescription" := Join(" - ", [JString(alarm.metricName), Ref(resource)]),
      "AlarmName" := Join("-", [Ref("AWS::StackName"), JString(resource), JString(alarm.metricName)]),
      "EvaluationPeriods" := JString(alarm.evaluationPeriods),
      "ComparisonOperator" := JString(alarm.comparisonOperator),
      "Dimensions" := JArray([JObject(map["Name" := JString(alarm.dimensionName), "Value" := Ref(resource)])]),
      "InsufficientDataActions" := JArray([JString(topic)]),
      "MetricName" := JString(alarm.metricName),
      "Namespace" := JString(alarm.namespace),
      "Period" := JString(alarm.period),
      "Statistic" := JString(alarm.statistic),
      "Threshold" := JString(alarm.threshold),
      "Unit" := JString(alarm.unit)
    ])
  }

  /** The alarm resource generated for `resource` from `alarm`; it carries
      `condition` unless that is the sentinel. */
  function AlarmEntry(resource: string, topic: string, alarm: AlarmSpec, condition: Json): (entry: Json)
    ensures entry.JObject?
    ensures "Condition" in entry.fields <==> condition != NoCondition
    ensures "Condition" in entry.fields ==> entry.fields["Condition"] == condition
  {
    var base := map["Type" := JString(AlarmType), "Properties" := AlarmProperties(resource, topic, alarm)];
    if condition != NoCondition then JObject(base["Condition" := condition]) else JObject(base)
  }

  /** The accumulator after the alarms of `alarms` for `resource` have been
      inserted into `acc` one by one. */
  function Generated(acc: Table, resource: string, topic: string, alarms: seq<AlarmSpec>, condition: Json): Table
    decreases |alarms|
  {
    if alarms == [] then acc
    else
      var alarm := alarms[|alarms| - 1];
      Generated(acc, resource, topic, alarms[..|alarms| - 1], condition)
        .Merge(Single(AlarmKey(resource, alarm), AlarmEntry(resource, topic, alarm, condition)))
  }

  /** One step of the handler's loop on `resource`: None when its `Type`
      cannot be read; otherwise the accumulator, grown by the instance
      alarms when it is an EC2 instance. */
  function Visit(acc: Table, resource: string, resourceJson: Json, topic: string): Option<Table> {
    match Index(resourceJson, "Type")
    case None => None
    case Some(_) =>
      if IsInstance(resourceJson) then
        Some(Generated(acc, resource, topic, Ec2Alarms, ConditionChecker(resource, resourceJson)))
      else
        Some(acc)
  }

  /** The three outcomes of a visit. */
  lemma VisitCases(acc: Table, resource: string, resourceJson: Json, topic: string)
    ensures Index(resourceJson, "Type").None? ==> Visit(acc, resource, resourceJson, topic) == None
    ensures IsInstance(resourceJson) ==>
      Visit(acc, resource, resourceJson, topic) ==
        Some(Generated(acc, resource, topic, Ec2Alarms, ConditionChecker(resource, resourceJson)))
    ensures Index(resourceJson, "Type").Some? && !IsInstance(resourceJson) ==>
      Visit(acc, resource, resourceJson, topic) == Some(acc)
  {
  }

  /** The alarms the handler's loop accumulates over the resources named in
      `order`, or None when it aborts. */
  function Scan(order: seq<string>, resources: map<string, Json>, topic: string): Option<Table>
    requires forall r :: r in order ==> r in resources
    decreases |order|
  {
    if order == [] then Some(Table([], map[]))
    else
      match Scan(order[..|order| - 1], resources, topic)
      case None => None
      case Some(acc) =>
        var resource := order[|order| - 1];
        Visit(acc, resource, resources[resource], topic)
  }

  /** Once a prefix of the resources aborts the loop, the whole loop aborts. */
  lemma {:induction false} ScanPrefixFails(order: seq<string>, resources: map<string, Json>, topic: string, n: nat)
    requires forall r :: r in order ==> r in resources
    requires n <= |order| && Scan(order[..n], resources, topic) == None
    ensures Scan(order, resources, topic) == None
    decreases |order|
  {
    if n < |order| {
      var prefix := order[..|order| - 1];
      assert prefix[..n] == order[..n];
      ScanPrefixFails(prefix, resources, topic, n);
    } else {
      assert order[..n] == order;
    }
  }

  /** One more resource: the loop's accumulator grows by one visit. */
  lemma ScanStep(order: seq<string>, resources: map<string, Json>, topic: string, n: nat)
    requires forall r :: r in order ==> r in resources
    requires n < |order| && Scan(order[..n], resources, topic).Some?
    ensures Scan(order[..n + 1], resources, topic) ==
      Visit(Scan(order[..n], resources, topic).value, order[n], resources[order[n]], topic)
  {
    assert order[..n + 1][..n] == order[..n];
  }

  /** The loop continues past a resource whose `Type` can be read: the
      accumulator grows by the instance alarms, or stays as it was. */
  lemma ScanContinues(order: seq<string>, resources: map<string, Json>, topic: string, n: nat, acc: Table)
    requires forall r :: r in order ==> r in resources
    requires n < |order| && Scan(order[..n], resources, topic) == Some(acc)
    requires Index(resources[order[n]], "Type").Some?
    ensures Scan(order[..n + 1], resources, topic) ==
      if IsInstance(resources[order[n]]) then
        Some(Generated(acc, order[n], topic, Ec2Alarms, ConditionChecker(order[n], resources[order[n]])))
      else Some(acc)
  {
    ScanStep(order, resources, topic, n);
    VisitCases(acc, order[n], resources[order[n]], topic);
  }

  /** The loop aborts at a resource whose `Type` cannot be read, and so does
      the whole run. */
  lemma ScanAborts(order: seq<string>, resources: map<string, Json>, topic: string, n: nat)
    requires forall r :: r in order ==> r in resources
    requires n < |order| && Scan(order[..n], resources, topic).Some?
    requires Index(resources[order[n]], "Type").None?
    ensures Scan(order, resources, topic) == None
  {
    ScanStep(order, resources, topic, n);
    ScanPrefixFails(order, resources, topic, n + 1);
  }

  /** One more alarm: the accumulator grows by one single-entry update. */
  lemma GeneratedStep(acc: Table, resource: string, topic: string, alarms: seq<AlarmSpec>, condition: Json, n: nat)
    requires n < |alarms|
    ensures Generated(acc, resource, topic, alarms[..n + 1], condition) ==
      Generated(acc, resource, topic, alarms[..n], condition)
        .Merge(Single(AlarmKey(resource, alarms[n]), AlarmEntry(resource, topic, alarms[n], condition)))
  {
    assert alarms[..n + 1][..n] == alarms[..n];
  }

  /** Generates the alarms of `alarms` for `resource` into `alarmDictionary`. */
  method GenerateAlarm(resource: string, topic: string, alarms: seq<AlarmSpec>, alarmDictionary: Dict, condition: Json)
    requires alarmDictionary.Valid()
    modifies alarmDictionary
    ensures alarmDictionary.Valid()
    ensures alarmDictionary.View() == Generated(old(alarmDictionary.View()), resource, topic, alarms, condition)
  {
    for i := 0 to |alarms|
      invariant alarmDictionary.Valid()
      invariant alarmDictionary.View() == Generated(old(alarmDictionary.View()), resource, topic, alarms[..i], condition)
    {
      var alarm := alarms[i];
      var alarmJson := new Dict.Singleton(AlarmKey(resource, alarm), AlarmEntry(resource, topic, alarm, condition));
      GeneratedStep(old(alarmDictionary.View()), resource, topic, alarms, condition, i);
      alarmDictionary.Update(alarmJson);
    }
    assert alarms[..|alarms|] == alarms;
  }

  /** The template fragment handed to the macro; only its `Resources`
      dictionary is read or changed. */
  class Fragment {
    const resources: Dict
    var sections: map<string, Json>

    constructor (resources: Dict, sections: map<string, Json>)
      ensures this.resources == resources && this.sections == sections
    {
      this.resources := resources;
      this.sections := sections;
    }
  }

  datatype Event = Event(requestId: string, fragment: Fragment)

  /** The envelope returned to the template pipeline. */
  datatype Response = Response(requestId: string, status: string, fragment: Fragment)

  /** The macro entry point. It updates the fragment's `Resources` in place
      and returns the same fragment. */
  /** One pass of the handler's loop over `Resources`: `false` when the
      resource has no `Type`, and otherwise the instance's alarms merged
      into `alarmDictionary`. */
  method VisitResource(order: seq<string>, entries: map<string, Json>, topic: string, i: nat, alarmDictionary: Dict)
      returns (typed: bool)
    requires forall r :: r in order ==> r in entries
    requires i < |order| && alarmDictionary.Valid()
    requires Scan(order[..i], entries, topic) == Some(alarmDictionary.View())
    modifies alarmDictionary
    ensures alarmDictionary.Valid()
    ensures typed <==> Index(entries[order[i]], "Type").Some?
    ensures typed ==> Scan(order[..i + 1], entries, topic) == Some(alarmDictionary.View())
    ensures !typed ==> Scan(order, entries, topic) == None
  {
    var resource := order[i];
    var resourceJson := entries[resource];
    match Index(resourceJson, "Type")
    case None =>
      ScanAborts(order, entries, topic, i);
      return false;
    case Some(_) =>
      ScanContinues(order, entries, topic, i, alarmDictionary.View());
      if IsInstance(resourceJson) {
        var condition := ConditionChecker(resource, resourceJson);
        GenerateAlarm(resource, topic, Ec2Alarms, alarmDictionary, condition);
      }
      return true;
  }

  method Handler(event: Event, topic: string) returns (resp: Response)
    requires event.fragment.resources.Valid()
    modifies event.fragment.resources
    ensures event.fragment.resources.Valid()
    ensures resp.requestId == event.requestId && resp.fragment == event.fragment
    ensures var before := old(event.fragment.resources.View());
      match Scan(before.keys, before.entries, topic)
      case None => resp.status == "failure" && event.fragment.resources.View() == before
      case Some(alarms) => resp.status == "success" && event.fragment.resources.View() == before.Merge(alarms)
  {
    var resources := event.fragment.resources;
    var alarmDictionary := new Dict();
    var order, entries := resources.keys, resources.entries;
    var i := 0;
    while i < |order|
      invariant 0 <= i <= |order|
      invariant fresh(alarmDictionary) && alarmDictionary.Valid()
      invariant resources.keys == order && resources.entries == entries
      invariant Scan(order[..i], entries, topic) == Some(alarmDictionary.View())
    {
      var typed := VisitResource(order, entries, topic, i, alarmDictionary);
      if !typed {
        return Response(event.requestId, "failure", event.fragment);
      }
      i := i + 1;
    }
    assert order[..|order|] == order;
    resources.Update(alarmDictionary);
    resp := Response(event.requestId, "success", event.fragment);
  }
}
