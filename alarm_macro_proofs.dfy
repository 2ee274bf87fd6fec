/** What the macro guarantees about the alarms it generates and the
    fragment it returns. */
module AlarmMacroProofs {
  import opened Wrappers
  import opened JsonValues
  import opened OrderedDict
  import opened AlarmMacro

  predicate IsSuffix(s: string, t: string) {
    |s| <= |t| && t[|t| - |s|..] == s
  }

  /** No alarm name of the catalog ends another one (nor equals it). */
  ghost predicate SuffixFree(alarms: seq<AlarmSpec>) {
    forall i, j :: 0 <= i < |alarms| && 0 <= j < |alarms| && i != j ==>
      !IsSuffix(alarms[i].alarmName, alarms[j].alarmName)
  }

  /** Of two keys that end one string, the shorter ends the longer. */
  lemma ShorterNameIsSuffix(r1: string, n1: string, r2: string, n2: string)
    requires r1 + n1 == r2 + n2 && |n1| <= |n2|
    ensures IsSuffix(n1, n2)
  {
    var key := r1 + n1;
    assert key[|r1|..] == n1 && key[|r2|..] == n2;
    assert n2[|n2| - |n1|..] == key[|key| - |n1|..];
  }

  /** Over a suffix-free catalog, an alarm key determines both the resource
      and the alarm it was generated from. */
  lemma AlarmKeyInjective(alarms: seq<AlarmSpec>, r1: string, a1: AlarmSpec, r2: string, a2: AlarmSpec)
    requires SuffixFree(alarms) && a1 in alarms && a2 in alarms
    requires AlarmKey(r1, a1) == AlarmKey(r2, a2)
    ensures r1 == r2 && a1 == a2
  {
    var n1, n2 := a1.alarmName, a2.alarmName;
    var i :| 0 <= i < |alarms| && alarms[i] == a1;
    var j :| 0 <= j < |alarms| && alarms[j] == a2;
    if |n1| <= |n2| {
      ShorterNameIsSuffix(r1, n1, r2, n2);
    } else {
      ShorterNameIsSuffix(r2, n2, r1, n1);
    }
    assert i == j;
    var key := AlarmKey(r1, a1);
    assert r1 == key[..|r1|] && r2 == key[..|r2|];
  }

  /** "CPUUtilization" and "StatusCheck": neither ends the other. */
  lemma Ec2AlarmsSuffixFree()
    ensures SuffixFree(Ec2Alarms)
  {
    assert "CPUUtilization"[3] != "StatusCheck"[0];
    assert !IsSuffix("StatusCheck", "CPUUtilization");
  }

  /** The two instance alarm keys `resource + "CPUUtilization"` and
      `resource + "StatusCheck"` never collide, whatever the resources. */
  lemma Ec2AlarmKeyInjective(r1: string, a1: AlarmSpec, r2: string, a2: AlarmSpec)
    requires a1 in Ec2Alarms && a2 in Ec2Alarms
    requires AlarmKey(r1, a1) == AlarmKey(r2, a2)
    ensures r1 == r2 && a1 == a2
  {
    Ec2AlarmsSuffixFree();
    AlarmKeyInjective(Ec2Alarms, r1, a1, r2, a2);
  }

  /** A generated alarm carries the source's `Condition` verbatim when the
      source has one that is not the string "none", and has no `Condition`
      otherwise. */
  lemma ConditionPropagation(resource: string, resourceJson: Json, topic: string, alarm: AlarmSpec)
    requires resourceJson.JObject?
    ensures var entry := AlarmEntry(resource, topic, alarm, ConditionChecker(resource, resourceJson));
      && (Index(entry, "Condition").Some? <==>
          "Condition" in resourceJson.fields && resourceJson.fields["Condition"] != JString("none"))
      && (Index(entry, "Condition").Some? ==> Index(entry, "Condition") == Index(resourceJson, "Condition"))
  {
  }

  /** The notification settings of a generated alarm: always enabled, and
      both the alarm and the insufficient-data transitions go to `topic`. */
  lemma AlarmActionsFields(resource: string, topic: string, alarm: AlarmSpec)
    ensures var props := AlarmProperties(resource, topic, alarm);
      && Index(props, "ActionsEnabled") == Some(JString("true"))
      && Index(props, "AlarmActions") == Some(JArray([JString(topic)]))
      && Index(props, "InsufficientDataActions") == Some(JArray([JString(topic)]))
  {
  }

  /** The metric a generated alarm watches: one dimension naming the
      resource, and the catalog entry's metric, namespace, period and
      statistic verbatim. */
  lemma AlarmMetricFields(resource: string, topic: string, alarm: AlarmSpec)
    ensures var props := AlarmProperties(resource, topic, alarm);
      && Index(props, "Dimensions") ==
           Some(JArray([JObject(map["Name" := JString(alarm.dimensionName), "Value" := Ref(resource)])]))
      && Index(props, "MetricName") == Some(JString(alarm.metricName))
      && Index(props, "Namespace") == Some(JString(alarm.namespace))
      && Index(props, "Period") == Some(JString(alarm.period))
      && Index(props, "Statistic") == Some(JString(alarm.statistic))
  {
  }

  /** The trigger of a generated alarm, copied from the catalog entry. */
  lemma AlarmThresholdFields(resource: string, topic: string, alarm: AlarmSpec)
    ensures var props := AlarmProperties(resource, topic, alarm);
      && Index(props, "Threshold") == Some(JString(alarm.threshold))
      && Index(props, "Unit") == Some(JString(alarm.unit))
      && Index(props, "EvaluationPeriods") == Some(JString(alarm.evaluationPeriods))
      && Index(props, "ComparisonOperator") == Some(JString(alarm.comparisonOperator))
  {
  }

  /** The description joins the metric name and a reference to the resource
      with " - "; the name joins the stack name, the resource id and the
      metric name with "-". */
  lemma AlarmTextFields(resource: string, topic: string, alarm: AlarmSpec)
    ensures var props := AlarmProperties(resource, topic, alarm);
      && Index(props, "AlarmDescription") == Some(Join(" - ", [JString(alarm.metricName), Ref(resource)]))
      && Index(props, "AlarmName") ==
           Some(Join("-", [Ref("AWS::StackName"), JString(resource), JString(alarm.metricName)]))
  {
  }

  /** A generated alarm resource is a CloudWatch alarm with the properties
      above, whatever its condition. */
  lemma AlarmEntryFields(resource: string, topic: string, alarm: AlarmSpec, condition: Json, key: string)
    ensures var entry := AlarmEntry(resource, topic, alarm, condition);
      && Lookup(entry, ["Type"]) == Some(JString("AWS::CloudWatch::Alarm"))
      && Lookup(entry, ["Properties", key]) == Index(AlarmProperties(resource, topic, alarm), key)
  {
    var entry := AlarmEntry(resource, topic, alarm, condition);
    assert Index(entry, "Properties") == Some(AlarmProperties(resource, topic, alarm));
    assert ["Properties", key][1..] == [key];
    assert Lookup(AlarmProperties(resource, topic, alarm), [key]) == Index(AlarmProperties(resource, topic, alarm), key) by {
      assert [key][1..] == [];
    }
  }

  /** An EC2 instance adds exactly its two alarms to the accumulator, the
      CPU one first. */
  lemma Ec2Generated(acc: Table, resource: string, topic: string, condition: Json)
    ensures Generated(acc, resource, topic, Ec2Alarms, condition) ==
      acc.Merge(Single(resource + "CPUUtilization", AlarmEntry(resource, topic, Cpu, condition)))
         .Merge(Single(resource + "StatusCheck", AlarmEntry(resource, topic, StatusCheck, condition)))
  {
    assert AlarmKey(resource, Cpu) == resource + "CPUUtilization";
    assert AlarmKey(resource, StatusCheck) == resource + "StatusCheck";
    GeneratedStep(acc, resource, topic, Ec2Alarms, condition, 0);
    GeneratedStep(acc, resource, topic, Ec2Alarms, condition, 1);
    assert Ec2Alarms[..0] == [];
    assert Ec2Alarms[..2] == Ec2Alarms;
  }

  /** A single-entry update on a valid table. */
  lemma InsertOne(acc0: Table, k: string, e: Json)
    requires acc0.Valid()
    ensures var acc := acc0.Merge(Single(k, e));
      && acc.Valid()
      && (forall k' :: k' in acc.entries <==> k' in acc0.entries || k' == k)
      && acc.entries[k] == e
      && (forall k' :: k' in acc0.entries && k' != k ==> acc.entries[k'] == acc0.entries[k'])
  {
    assert Single(k, e).Valid();
  }

  /** Two single-entry updates with distinct keys on a valid table. */
  lemma TwoInserts(acc0: Table, k1: string, e1: Json, k2: string, e2: Json)
    requires acc0.Valid() && k1 != k2
    ensures var acc := acc0.Merge(Single(k1, e1)).Merge(Single(k2, e2));
      && acc.Valid()
      && (forall k :: k in acc.entries <==> k in acc0.entries || k == k1 || k == k2)
      && acc.entries[k1] == e1 && acc.entries[k2] == e2
      && (forall k :: k in acc0.entries && k != k1 && k != k2 ==> acc.entries[k] == acc0.entries[k])
  {
    InsertOne(acc0, k1, e1);
    InsertOne(acc0.Merge(Single(k1, e1)), k2, e2);
  }

  /** What one EC2 instance does to a valid accumulator: its two alarms
      are added, the other entries keep their values. */
  lemma InstanceStep(acc0: Table, resource: string, topic: string, condition: Json)
    requires acc0.Valid()
    ensures var acc := Generated(acc0, resource, topic, Ec2Alarms, condition);
      && acc.Valid()
      && (forall k :: k in acc.entries <==>
            k in acc0.entries || k == AlarmKey(resource, Cpu) || k == AlarmKey(resource, StatusCheck))
      && acc.entries[AlarmKey(resource, Cpu)] == AlarmEntry(resource, topic, Cpu, condition)
      && acc.entries[AlarmKey(resource, StatusCheck)] == AlarmEntry(resource, topic, StatusCheck, condition)
      && (forall k :: k in acc0.entries && k != AlarmKey(resource, Cpu) && k != AlarmKey(resource, StatusCheck) ==>
            acc.entries[k] == acc0.entries[k])
  {
    Ec2Generated(acc0, resource, topic, condition);
    assert |AlarmKey(resource, Cpu)| != |AlarmKey(resource, StatusCheck)|;
    TwoInserts(acc0, AlarmKey(resource, Cpu), AlarmEntry(resource, topic, Cpu, condition),
               AlarmKey(resource, StatusCheck), AlarmEntry(resource, topic, StatusCheck, condition));
  }

  /** The macro reports failure exactly when some resource's `Type` cannot
      be read; any other resource, of whatever type, lets it go on. */
  lemma {:induction false} ScanFails(order: seq<string>, resources: map<string, Json>, topic: string)
    requires forall r :: r in order ==> r in resources
    ensures Scan(order, resources, topic) == None <==>
      exists r :: r in order && Index(resources[r], "Type") == None
    decreases |order|
  {
    if order != [] {
      var prefix, last := order[..|order| - 1], order[|order| - 1];
      assert order == prefix + [last];
      ScanFails(prefix, resources, topic);
    }
  }

  /** `acc` holds the two alarms of `resource` when it is an EC2 instance,
      each built from the resource's own condition. */
  ghost predicate HasAlarmsOf(acc: Table, resource: string, resourceJson: Json, topic: string) {
    IsInstance(resourceJson) ==>
      && AlarmKey(resource, Cpu) in acc.entries
      && acc.entries[AlarmKey(resource, Cpu)] ==
           AlarmEntry(resource, topic, Cpu, ConditionChecker(resource, resourceJson))
      && AlarmKey(resource, StatusCheck) in acc.entries
      && acc.entries[AlarmKey(resource, StatusCheck)] ==
           AlarmEntry(resource, topic, StatusCheck, ConditionChecker(resource, resourceJson))
  }

  /** `acc` holds the alarms of every EC2 instance named in `order`. */
  ghost predicate HasInstanceAlarms(acc: Table, order: seq<string>, resources: map<string, Json>, topic: string)
    requires forall r :: r in order ==> r in resources
  {
    forall r :: r in order ==> HasAlarmsOf(acc, r, resources[r], topic)
  }

  /** The keys of the alarms generated for the EC2 instances of `order`. */
  ghost function InstanceKeys(order: seq<string>, resources: map<string, Json>): set<string>
    requires forall r :: r in order ==> r in resources
    decreases |order|
  {
    if order == [] then {}
    else
      var resource := order[|order| - 1];
      InstanceKeys(order[..|order| - 1], resources) +
        if IsInstance(resources[resource]) then {AlarmKey(resource, Cpu), AlarmKey(resource, StatusCheck)} else {}
  }

  /** A key is generated exactly when it is some instance's id followed by
      the name of one of the two instance alarms. */
  lemma {:induction false} InstanceKeysMembership(order: seq<string>, resources: map<string, Json>, k: string)
    requires forall r :: r in order ==> r in resources
    ensures k in InstanceKeys(order, resources) <==>
      exists r, alarm :: r in order && alarm in Ec2Alarms && IsInstance(resources[r]) && k == AlarmKey(r, alarm)
    decreases |order|
  {
    if order != [] {
      var prefix, last := order[..|order| - 1], order[|order| - 1];
      assert order == prefix + [last];
      InstanceKeysMembership(prefix, resources, k);
      assert Ec2Alarms[0] == Cpu && Ec2Alarms[1] == StatusCheck;
      if exists r, alarm :: r in order && alarm in Ec2Alarms && IsInstance(resources[r]) && k == AlarmKey(r, alarm) {
        var r, alarm :| r in order && alarm in Ec2Alarms && IsInstance(resources[r]) && k == AlarmKey(r, alarm);
        if r != last {
          assert r in prefix;
        } else {
          assert alarm == Cpu || alarm == StatusCheck;
        }
      }
    }
  }

  /** Adding the alarms of one instance keeps the alarms of another. */
  lemma KeepsAlarmsOf(acc0: Table, resource: string, condition: Json, other: string, otherJson: Json, topic: string)
    requires acc0.Valid() && other != resource
    requires HasAlarmsOf(acc0, other, otherJson, topic)
    ensures HasAlarmsOf(Generated(acc0, resource, topic, Ec2Alarms, condition), other, otherJson, topic)
  {
    InstanceStep(acc0, resource, topic, condition);
    var k1, k2 := AlarmKey(resource, Cpu), AlarmKey(resource, StatusCheck);
    assert Ec2Alarms[0] == Cpu && Ec2Alarms[1] == StatusCheck;
    if AlarmKey(other, Cpu) in {k1, k2} {
      Ec2AlarmKeyInjective(other, Cpu, resource, if AlarmKey(other, Cpu) == k1 then Cpu else StatusCheck);
    }
    if AlarmKey(other, StatusCheck) in {k1, k2} {
      Ec2AlarmKeyInjective(other, StatusCheck, resource, if AlarmKey(other, StatusCheck) == k1 then Cpu else StatusCheck);
    }
  }

  /** An EC2 instance's own alarms are in the accumulator once added. */
  lemma OwnAlarms(acc0: Table, resource: string, resourceJson: Json, topic: string)
    requires acc0.Valid() && IsInstance(resourceJson)
    ensures var acc := Generated(acc0, resource, topic, Ec2Alarms, ConditionChecker(resource, resourceJson));
      acc.Valid() && HasAlarmsOf(acc, resource, resourceJson, topic)
  {
    InstanceStep(acc0, resource, topic, ConditionChecker(resource, resourceJson));
  }

  /** After the alarms of instance `resource` are added, any resource `r`
      has its alarms: `resource` itself, and every other resource that had
      them before. */
  lemma AfterInstance(acc0: Table, resource: string, resourceJson: Json, r: string, rJson: Json, topic: string)
    requires acc0.Valid() && IsInstance(resourceJson)
    requires r == resource ==> rJson == resourceJson
    requires r != resource ==> HasAlarmsOf(acc0, r, rJson, topic)
    ensures var acc := Generated(acc0, resource, topic, Ec2Alarms, ConditionChecker(resource, resourceJson));
      HasAlarmsOf(acc, r, rJson, topic)
  {
    if r == resource {
      OwnAlarms(acc0, resource, resourceJson, topic);
    } else {
      KeepsAlarmsOf(acc0, resource, ConditionChecker(resource, resourceJson), r, rJson, topic);
    }
  }

  /** The last resource is an EC2 instance: the alarms of the earlier
      resources survive its two alarms, and its own alarms are added. */
  lemma InstanceCase(order: seq<string>, resources: map<string, Json>, topic: string, acc0: Table)
    requires |order| > 0
    requires forall r :: r in order ==> r in resources
    requires IsInstance(resources[order[|order| - 1]])
    requires acc0.Valid() && HasInstanceAlarms(acc0, order[..|order| - 1], resources, topic)
    ensures var resource := order[|order| - 1];
      var acc := Generated(acc0, resource, topic, Ec2Alarms, ConditionChecker(resource, resources[resource]));
      HasInstanceAlarms(acc, order, resources, topic)
  {
    var n := |order| - 1;
    var prefix, resource := order[..n], order[n];
    forall r | r in order
      ensures HasAlarmsOf(Generated(acc0, resource, topic, Ec2Alarms, ConditionChecker(resource, resources[resource])),
                          r, resources[r], topic)
    {
      if r != resource {
        var i :| 0 <= i < |order| && order[i] == r;
        assert prefix[i] == r;
      }
      AfterInstance(acc0, resource, resources[resource], r, resources[r], topic);
    }
  }

  /** The keys after the last resource, an EC2 instance. */
  lemma InstanceCaseKeys(order: seq<string>, resources: map<string, Json>, topic: string, acc0: Table)
    requires |order| > 0
    requires forall r :: r in order ==> r in resources
    requires IsInstance(resources[order[|order| - 1]])
    requires acc0.Valid() && forall k :: k in acc0.entries <==> k in InstanceKeys(order[..|order| - 1], resources)
    ensures var resource := order[|order| - 1];
      var acc := Generated(acc0, resource, topic, Ec2Alarms, ConditionChecker(resource, resources[resource]));
      acc.Valid() && forall k :: k in acc.entries <==> k in InstanceKeys(order, resources)
  {
    var resource := order[|order| - 1];
    var acc := Generated(acc0, resource, topic, Ec2Alarms, ConditionChecker(resource, resources[resource]));
    InstanceStep(acc0, resource, topic, ConditionChecker(resource, resources[resource]));
  }

  /** The last resource is not an EC2 instance: the accumulator is the
      same, and so are the facts about it. */
  lemma OtherTypeCase(order: seq<string>, resources: map<string, Json>, topic: string, acc: Table)
    requires |order| > 0
    requires forall r :: r in order ==> r in resources
    requires !IsInstance(resources[order[|order| - 1]])
    requires HasInstanceAlarms(acc, order[..|order| - 1], resources, topic)
    requires forall k :: k in acc.entries <==> k in InstanceKeys(order[..|order| - 1], resources)
    ensures HasInstanceAlarms(acc, order, resources, topic)
    ensures forall k :: k in acc.entries <==> k in InstanceKeys(order, resources)
  {
    var prefix, last := order[..|order| - 1], order[|order| - 1];
    assert order == prefix + [last];
  }

  /** When the macro succeeds, the accumulated alarms are exactly the two
      alarms of each EC2 instance, each built from its own resource. */
  lemma {:induction false} ScanContent(order: seq<string>, resources: map<string, Json>, topic: string)
    requires forall r :: r in order ==> r in resources
    requires Scan(order, resources, topic).Some?
    ensures var acc := Scan(order, resources, topic).value;
      && acc.Valid() && HasInstanceAlarms(acc, order, resources, topic)
      && (forall k :: k in acc.entries <==> k in InstanceKeys(order, resources))
    decreases |order|
  {
    if order != [] {
      var prefix, resource := order[..|order| - 1], order[|order| - 1];
      ScanContent(prefix, resources, topic);
      var acc0 := Scan(prefix, resources, topic).value;
      if IsInstance(resources[resource]) {
        InstanceCase(order, resources, topic, acc0);
        InstanceCaseKeys(order, resources, topic, acc0);
      } else {
        OtherTypeCase(order, resources, topic, acc0);
      }
    }
  }

  /** The alarm keys of the EC2 instances of `order`, in generation order. */
  ghost function AlarmKeySeq(order: seq<string>, resources: map<string, Json>): seq<string>
    requires forall r :: r in order ==> r in resources
    decreases |order|
  {
    if order == [] then []
    else
      var resource := order[|order| - 1];
      AlarmKeySeq(order[..|order| - 1], resources) +
        if IsInstance(resources[resource]) then [AlarmKey(resource, Cpu), AlarmKey(resource, StatusCheck)] else []
  }

  /** The alarm keys of a resource are new: no earlier resource of a
      dictionary generated them. */
  lemma FreshInstanceKeys(order: seq<string>, resources: map<string, Json>)
    requires Distinct(order) && |order| > 0
    requires forall r :: r in order ==> r in resources
    ensures var resource := order[|order| - 1];
      && AlarmKey(resource, Cpu) !in InstanceKeys(order[..|order| - 1], resources)
      && AlarmKey(resource, StatusCheck) !in InstanceKeys(order[..|order| - 1], resources)
  {
    var prefix, resource := order[..|order| - 1], order[|order| - 1];
    assert resource !in prefix by {
      forall i | 0 <= i < |prefix|
        ensures prefix[i] != resource
      {
        assert prefix[i] == order[i];
      }
    }
    assert Ec2Alarms[0] == Cpu && Ec2Alarms[1] == StatusCheck;
    forall a | a in Ec2Alarms
      ensures AlarmKey(resource, a) !in InstanceKeys(prefix, resources)
    {
      InstanceKeysMembership(prefix, resources, AlarmKey(resource, a));
      if AlarmKey(resource, a) in InstanceKeys(prefix, resources) {
        var r, alarm :| r in prefix && alarm in Ec2Alarms && IsInstance(resources[r]) && AlarmKey(resource, a) == AlarmKey(r, alarm);
        Ec2AlarmKeyInjective(r, alarm, resource, a);
      }
    }
  }

  /** Two single-entry updates with distinct new keys append them in order. */
  lemma AppendSingles(t: Table, k1: string, e1: Json, k2: string, e2: Json)
    requires k1 !in t.keys && k2 !in t.keys && k1 != k2
    ensures t.Merge(Single(k1, e1)).Merge(Single(k2, e2)).keys == t.keys + [k1, k2]
  {
    t.MergeAppends(Single(k1, e1));
    t.Merge(Single(k1, e1)).MergeAppends(Single(k2, e2));
  }

  /** An instance whose alarm keys are new appends them, CPU alarm first. */
  lemma InstanceOrder(acc0: Table, resource: string, topic: string, condition: Json)
    requires AlarmKey(resource, Cpu) !in acc0.keys && AlarmKey(resource, StatusCheck) !in acc0.keys
    ensures Generated(acc0, resource, topic, Ec2Alarms, condition).keys ==
      acc0.keys + [AlarmKey(resource, Cpu), AlarmKey(resource, StatusCheck)]
  {
    Ec2Generated(acc0, resource, topic, condition);
    assert |AlarmKey(resource, Cpu)| != |AlarmKey(resource, StatusCheck)|;
    AppendSingles(acc0, AlarmKey(resource, Cpu), AlarmEntry(resource, topic, Cpu, condition),
                  AlarmKey(resource, StatusCheck), AlarmEntry(resource, topic, StatusCheck, condition));
  }

  /** The accumulator's keys, in order: the two alarm keys of each EC2
      instance, instances in the order of `Resources`, CPU alarm first. */
  lemma {:induction false} ScanOrder(order: seq<string>, resources: map<string, Json>, topic: string)
    requires Distinct(order)
    requires forall r :: r in order ==> r in resources
    requires Scan(order, resources, topic).Some?
    ensures Scan(order, resources, topic).value.keys == AlarmKeySeq(order, resources)
    decreases |order|
  {
    if order != [] {
      var prefix, resource := order[..|order| - 1], order[|order| - 1];
      assert Distinct(prefix);
      ScanOrder(prefix, resources, topic);
      if IsInstance(resources[resource]) {
        var acc0 := Scan(prefix, resources, topic).value;
        ScanContent(prefix, resources, topic);
        FreshInstanceKeys(order, resources);
        InstanceOrder(acc0, resource, topic, ConditionChecker(resource, resources[resource]));
      }
    }
  }

  /** When no alarm key is already a key of `Resources`, a successful run
      returns the input keys in order followed by the alarm keys in
      generation order. */
  lemma SuccessOrder(before: Table, topic: string)
    requires before.Valid()
    requires Scan(before.keys, before.entries, topic).Some?
    ensures (forall k :: k in InstanceKeys(before.keys, before.entries) ==> k !in before.entries) ==>
      before.Merge(Scan(before.keys, before.entries, topic).value).keys ==
        before.keys + AlarmKeySeq(before.keys, before.entries)
  {
    var acc := Scan(before.keys, before.entries, topic).value;
    ScanContent(before.keys, before.entries, topic);
    ScanOrder(before.keys, before.entries, topic);
    if forall k :: k in InstanceKeys(before.keys, before.entries) ==> k !in before.entries {
      before.MergeAppends(acc);
    }
  }

  /** The `Resources` a successful run returns: the input keys first and in
      their order, then the new alarm keys; every EC2 instance's two alarms;
      every input entry whose key is not an alarm key, unchanged. */
  lemma SuccessOutput(before: Table, topic: string)
    requires before.Valid()
    requires Scan(before.keys, before.entries, topic).Some?
    ensures var after := before.Merge(Scan(before.keys, before.entries, topic).value);
      && after.Valid()
      && |before.keys| <= |after.keys| && after.keys[..|before.keys|] == before.keys
      && (forall k :: k in after.entries <==> k in before.entries || k in InstanceKeys(before.keys, before.entries))
      && (forall r :: r in before.keys ==> HasAlarmsOf(after, r, before.entries[r], topic))
      && (forall k :: k in before.entries && k !in InstanceKeys(before.keys, before.entries) ==>
            after.entries[k] == before.entries[k])
  {
    var acc := Scan(before.keys, before.entries, topic).value;
    ScanContent(before.keys, before.entries, topic);
    var after := before.Merge(acc);
    forall r | r in before.keys
      ensures HasAlarmsOf(after, r, before.entries[r], topic)
    {
      assert HasAlarmsOf(acc, r, before.entries[r], topic);
    }
  }

  /** The resources of a small template: an EC2 instance `Web1` whose
      `Condition` is `condition`, and a bucket. */
  function ExampleResources(condition: Json): Table {
    Table(["Web1", "Bucket"], map[
      "Web1" := JObject(map["Type" := JString("AWS::EC2::Instance"), "Condition" := condition]),
      "Bucket" := JObject(map["Type" := JString("AWS::S3::Bucket")])])
  }

  /** The macro's loop over the example visits the instance first... */
  lemma ExampleScanInstance(topic: string, condition: Json)
    ensures Scan(ExampleResources(condition).keys[..1], ExampleResources(condition).entries, topic) ==
      Some(Generated(Table([], map[]), "Web1", topic, Ec2Alarms, condition))
  {
    var before := ExampleResources(condition);
    assert ConditionChecker("Web1", before.entries["Web1"]) == condition;
    assert before.keys[..0] == [];
    ScanContinues(before.keys, before.entries, topic, 0, Table([], map[]));
  }

  /** A last resource of another type leaves the loop's result as it was. */
  lemma ScanSkipsLast(order: seq<string>, resources: map<string, Json>, topic: string, acc: Table)
    requires forall r :: r in order ==> r in resources
    requires |order| > 0 && Scan(order[..|order| - 1], resources, topic) == Some(acc)
    requires Index(resources[order[|order| - 1]], "Type").Some? && !IsInstance(resources[order[|order| - 1]])
    ensures Scan(order, resources, topic) == Some(acc)
  {
    VisitCases(acc, order[|order| - 1], resources[order[|order| - 1]], topic);
  }

  /** ...then skips the bucket. */
  lemma ExampleScan(topic: string, condition: Json)
    ensures Scan(ExampleResources(condition).keys, ExampleResources(condition).entries, topic) ==
      Some(Generated(Table([], map[]), "Web1", topic, Ec2Alarms, condition))
  {
    var before := ExampleResources(condition);
    assert before.keys[..1] == before.keys[..|before.keys| - 1];
    ExampleScanInstance(topic, condition);
    var bucket := before.entries["Bucket"];
    assert bucket == JObject(map["Type" := JString("AWS::S3::Bucket")]);
    assert Index(bucket, "Type") == Some(JString("AWS::S3::Bucket"));
    ScanSkipsLast(before.keys, before.entries, topic, Generated(Table([], map[]), "Web1", topic, Ec2Alarms, condition));
  }

  /** Two single-entry updates of an empty table, with distinct keys. */
  lemma TwoSingles(k1: string, e1: Json, k2: string, e2: Json)
    requires k1 != k2
    ensures Table([], map[]).Merge(Single(k1, e1)).Merge(Single(k2, e2)) == Table([k1, k2], map[k1 := e1, k2 := e2])
  {
    var t1 := Table([], map[]).Merge(Single(k1, e1));
    assert [k1][..0] == [] && [k2][..0] == [];
    assert MergeKeys([], [k1]) == [k1] by {
      assert MergeKeys([], []) == [];
      assert [] + [k1] == [k1];
    }
    assert t1.entries == map[k1 := e1] by {
      assert forall k :: k in t1.entries <==> k == k1;
    }
    assert MergeKeys([k1], [k2]) == [k1, k2];
  }

  /** The example's two alarm keys, spelled out, on any two entries. */
  lemma ExampleSingles(e1: Json, e2: Json)
    ensures Table([], map[]).Merge(Single("Web1" + "CPUUtilization", e1)).Merge(Single("Web1" + "StatusCheck", e2)) ==
      Table(["Web1CPUUtilization", "Web1StatusCheck"], map["Web1CPUUtilization" := e1, "Web1StatusCheck" := e2])
  {
    assert "Web1" + "CPUUtilization" == "Web1CPUUtilization";
    assert "Web1" + "StatusCheck" == "Web1StatusCheck";
    TwoSingles("Web1CPUUtilization", e1, "Web1StatusCheck", e2);
  }

  /** The alarms the example generates, in order. */
  lemma ExampleAlarms(topic: string, condition: Json)
    ensures Generated(Table([], map[]), "Web1", topic, Ec2Alarms, condition) ==
      Table(["Web1CPUUtilization", "Web1StatusCheck"],
            map["Web1CPUUtilization" := AlarmEntry("Web1", topic, Cpu, condition),
                "Web1StatusCheck" := AlarmEntry("Web1", topic, StatusCheck, condition)])
  {
    Ec2Generated(Table([], map[]), "Web1", topic, condition);
    ExampleSingles(AlarmEntry("Web1", topic, Cpu, condition), AlarmEntry("Web1", topic, StatusCheck, condition));
  }

  /** Appending two new keys to a table. */
  lemma AppendTwo(t: Table, k1: string, e1: Json, k2: string, e2: Json)
    requires k1 !in t.keys && k2 !in t.keys && k1 != k2
    ensures t.Merge(Table([k1, k2], map[k1 := e1, k2 := e2])) == Table(t.keys + [k1, k2], t.entries[k1 := e1][k2 := e2])
  {
    t.MergeAppends(Table([k1, k2], map[k1 := e1, k2 := e2]));
  }

  /** Merging the example's two alarms, whatever they hold, into a table
      holding `Web1` and `Bucket`. */
  lemma ExampleMerge(before: Table, alarms: Table, e1: Json, e2: Json)
    requires before.keys == ["Web1", "Bucket"]
    requires alarms == Table(["Web1CPUUtilization", "Web1StatusCheck"], map["Web1CPUUtilization" := e1, "Web1StatusCheck" := e2])
    ensures before.Merge(alarms) ==
      Table(["Web1", "Bucket", "Web1CPUUtilization", "Web1StatusCheck"], before.entries["Web1CPUUtilization" := e1]["Web1StatusCheck" := e2])
  {
    assert before.keys + ["Web1CPUUtilization", "Web1StatusCheck"] ==
      ["Web1", "Bucket", "Web1CPUUtilization", "Web1StatusCheck"];
    AppendTwo(before, "Web1CPUUtilization", e1, "Web1StatusCheck", e2);
  }

  /** On the example the output keeps both resources, the bucket unchanged,
      and appends `Web1CPUUtilization` and `Web1StatusCheck`, each holding
      the alarm generated for `Web1`. */
  lemma ExampleOutput(topic: string, condition: Json)
    ensures var before := ExampleResources(condition);
      var alarms := Scan(before.keys, before.entries, topic);
      && alarms.Some?
      && before.Merge(alarms.value) ==
           Table(["Web1", "Bucket", "Web1CPUUtilization", "Web1StatusCheck"],
                 before.entries["Web1CPUUtilization" := AlarmEntry("Web1", topic, Cpu, condition)]
                               ["Web1StatusCheck" := AlarmEntry("Web1", topic, StatusCheck, condition)])
  {
    var before := ExampleResources(condition);
    ExampleScan(topic, condition);
    ExampleAlarms(topic, condition);
    ExampleMerge(before, Generated(Table([], map[]), "Web1", topic, Ec2Alarms, condition),
                 AlarmEntry("Web1", topic, Cpu, condition), AlarmEntry("Web1", topic, StatusCheck, condition));
  }

  /** Looking up a path under a top-level key is looking it up in that key's value. */
  lemma EntryLookup(entries: map<string, Json>, key: string, path: seq<string>)
    requires key in entries
    ensures Lookup(JObject(entries), [key] + path) == Lookup(entries[key], path)
  {
    assert ([key] + path)[1..] == path;
  }

  /** The alarm stored under `key` read back through the output document:
      a CloudWatch alarm, carrying `condition` unless that is the string
      "none", with the generated properties. */
  lemma StoredAlarm(entries: map<string, Json>, key: string, resource: string, topic: string, alarm: AlarmSpec,
                    condition: Json, property: string)
    requires key in entries && entries[key] == AlarmEntry(resource, topic, alarm, condition)
    ensures Lookup(JObject(entries), [key, "Type"]) == Some(JString(AlarmType))
    ensures Lookup(JObject(entries), [key, "Condition"]) == if condition == NoCondition then None else Some(condition)
    ensures Lookup(JObject(entries), [key, "Properties", property]) == Index(AlarmProperties(resource, topic, alarm), property)
  {
    EntryLookup(entries, key, ["Type"]);
    EntryLookup(entries, key, ["Condition"]);
    EntryLookup(entries, key, ["Properties", property]);
    assert [key] + ["Type"] == [key, "Type"];
    assert [key] + ["Condition"] == [key, "Condition"];
    assert [key] + ["Properties", property] == [key, "Properties", property];
    assert ["Condition"][1..] == [];
    AlarmEntryFields(resource, topic, alarm, condition, property);
  }

  /** The example's CPU alarm: it watches the EC2 namespace, notifies
      `topic`, and carries the instance's condition unless that is "none". */
  lemma ExampleCpuAlarm(topic: string, condition: Json)
    ensures var before := ExampleResources(condition);
      var alarms := Scan(before.keys, before.entries, topic);
      && alarms.Some?
      && var after := JObject(before.Merge(alarms.value).entries);
      && Lookup(after, ["Web1CPUUtilization", "Type"]) == Some(JString("AWS::CloudWatch::Alarm"))
      && Lookup(after, ["Web1CPUUtilization", "Condition"]) == (if condition == NoCondition then None else Some(condition))
      && Lookup(after, ["Web1CPUUtilization", "Properties", "Namespace"]) == Some(JString("AWS/EC2"))
  {
    ExampleOutput(topic, condition);
    var before := ExampleResources(condition);
    var entries := before.entries["Web1CPUUtilization" := AlarmEntry("Web1", topic, Cpu, condition)]
                                 ["Web1StatusCheck" := AlarmEntry("Web1", topic, StatusCheck, condition)];
    StoredAlarm(entries, "Web1CPUUtilization", "Web1", topic, Cpu, condition, "Namespace");
    AlarmMetricFields("Web1", topic, Cpu);
  }

  /** A template where one resource has no `Type`: the macro fails, and the
      `Resources` it returns are those it received. */
  lemma MissingTypeExample(topic: string)
    ensures var web1 := JObject(map["Type" := JString("AWS::EC2::Instance")]);
      var broken := JObject(map["Properties" := JObject(map[])]);
      Scan(["Web1", "Broken"], map["Web1" := web1, "Broken" := broken], topic) == None
  {
    var web1 := JObject(map["Type" := JString("AWS::EC2::Instance")]);
    var broken := JObject(map["Properties" := JObject(map[])]);
    var order, resources := ["Web1", "Broken"], map["Web1" := web1, "Broken" := broken];
    assert "Broken" in order && Index(resources["Broken"], "Type") == None;
    ScanFails(order, resources, topic);
  }
}
