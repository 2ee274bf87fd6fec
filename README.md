# Alarm macro, modelled in Dafny

This project models the template macro in `src/alarm_macro.py`. The macro is
given an infrastructure template fragment. For every resource of type
`AWS::EC2::Instance` in the fragment's `Resources`, it builds two CloudWatch
alarm resources: a CPU-utilisation alarm and an instance status-check alarm.
It merges them into `Resources` and returns a `{requestId, status, fragment}`
envelope. If any resource has no readable `Type`, the macro stops. It then
returns `failure` with the fragment untouched.

Files:

- `json_values.dfy`: decoded JSON values (`Json`), the `Ref` and `Fn::Join`
  intrinsics, and lookups that fail where Python's subscript raises (`Index`,
  `Lookup`).
- `ordered_dict.dfy`: Python dictionaries with their insertion order.
  - `Table` is the value: keys in order, plus the mapping.
  - `Table.Merge` is `dict.update`. A key already present keeps its place,
    and a new key is appended.
  - `Dict` is a dictionary object. Its `Update` method changes it in place.
- `alarm_macro.dfy`: the macro itself.
  - The two catalog entries `Cpu` and `StatusCheck`.
  - `ConditionChecker`, and `AlarmEntry`, which is the dictionary built per
    alarm.
  - `GenerateAlarm`, a loop that updates the accumulator in place.
  - `Handler`, a loop over `Resources` that updates the caller's `Resources`
    in place. `VisitResource` is one pass of its loop.
  - Both methods are proved against the specification functions `Generated`
    (the alarms of one resource) and `Scan` (the whole loop). `Scan` returns
    `None` when the loop aborts.
- `alarm_macro_proofs.dfy`: what the macro guarantees, proved about
  `Generated` and `Scan`:
  - alarm keys never collide;
  - each field of a generated alarm;
  - which resources make the macro fail;
  - the exact set of generated keys;
  - the shape of the returned `Resources`;
  - a worked example of an instance plus a bucket, and one of a resource with
    no `Type`.

The `Monitoring_Topic` environment variable becomes the parameter `topic`.

Behaviour of `src/alarm_macro.py` that the model states:

- `ActionsEnabled` is the string `"true"`, not a JSON boolean.
- Only EC2 instances get alarms. Every other resource type adds nothing.
- A resource's `Condition` is copied whatever JSON value it holds, not only a
  string.
- A `Condition` whose value is the string `"none"` is indistinguishable from
  a missing one. This is because `condition_checker` uses `'none'` as its
  "no condition" marker.
- The only failure inside the macro's `try` is a resource whose `Type` cannot
  be read. That resource is either not an object, or an object without
  `Type`.
- The output keeps the input's key order. When no alarm key is already a
  resource name, the alarm keys follow in generation order: resource by
  resource, `CPUUtilization` before `StatusCheck`.

## Model

| member | source | states |
|---|---|---|
| OrderedDict.MergeKeys | src/alarm_macro.py:43 | the key order after `update`: the old keys stay first and in order; the key set is the union; distinct keys stay distinct; distinct added keys that are all new are appended in their own order |
| OrderedDict.Table.Merge | src/alarm_macro.py:43 | `update` keeps a dictionary well formed, its keys are the union, the added dictionary's values win on shared keys, every other key keeps its value and its place |
| OrderedDict.Table.MergeAppends | src/alarm_macro.py:43 | updating with a dictionary whose keys are all new appends those keys after the old ones, in the added dictionary's order |
| OrderedDict.Dict.constructor | src/alarm_macro.py:19 | `{}` is a well-formed empty dictionary |
| OrderedDict.Dict.Singleton | src/alarm_macro.py:69 | `{key: value}` is the one-entry dictionary |
| OrderedDict.Dict.Update | src/alarm_macro.py:111 | `d.update(other)` in place: the new contents are the old contents merged with `other`'s |
| AlarmMacro.Cpu | src/alarm_macro.py:12-13 | the CPU alarm's catalog entry, field for field; its properties reach the output through AlarmMetricFields and AlarmThresholdFields, and Ec2AlarmsSuffixFree states that its name does not end the other's |
| AlarmMacro.StatusCheck | src/alarm_macro.py:15-16 | the status-check alarm's catalog entry, field for field, stated the same way as `Cpu` |
| AlarmMacro.ConditionChecker | src/alarm_macro.py:56-64 | the result is the `"none"` marker exactly when the resource has no `Condition` or its `Condition` is the string "none"; otherwise it is the resource's `Condition` |
| AlarmMacro.AlarmKey | src/alarm_macro.py:69 | `resource + alarm['AlarmName']`; no contract of its own: AlarmMacroProofs.AlarmKeyInjective and Ec2AlarmKeyInjective state that it never collides |
| AlarmMacro.AlarmProperties | src/alarm_macro.py:71-107 | the `Properties` object of one alarm; no contract of its own: AlarmActionsFields, AlarmMetricFields, AlarmThresholdFields and AlarmTextFields state each of its fields |
| AlarmMacro.AlarmEntry | src/alarm_macro.py:109-113 | a generated alarm is an object; it has a `Condition` field exactly when the condition is not the marker, and then that field is the condition |
| AlarmMacro.Generated | src/alarm_macro.py:68-113 | the accumulator after `generate_alarm`'s loop, as a function; no contract of its own: GeneratedStep, Ec2Generated, InstanceStep and InstanceOrder state what it adds |
| AlarmMacro.GeneratedStep | src/alarm_macro.py:68-113 | each further catalog entry adds one single-entry update to the accumulator |
| AlarmMacro.GenerateAlarm | src/alarm_macro.py:66-113 | the accumulator stays well formed and becomes the old one updated with each alarm's entry, in catalog order |
| AlarmMacro.Visit | src/alarm_macro.py:24-32 | one pass of the handler's loop, as a function; its three outcomes are stated by AlarmMacro.VisitCases |
| AlarmMacro.VisitCases | src/alarm_macro.py:24-32 | a visit aborts when `Type` cannot be read, adds the instance's alarms for an EC2 instance, and changes nothing for any other type |
| AlarmMacro.Scan | src/alarm_macro.py:23-41 | the handler's whole loop, as a function; no contract of its own: ScanStep, ScanPrefixFails, ScanFails, ScanContent and ScanOrder state what it computes |
| AlarmMacro.ScanStep | src/alarm_macro.py:23-32 | each further resource is one visit: abort on an unreadable `Type`, two alarms for an EC2 instance, nothing otherwise |
| AlarmMacro.ScanPrefixFails | src/alarm_macro.py:33-41 | once a resource aborts the loop, the whole run aborts, whatever follows |
| AlarmMacro.ScanContinues | src/alarm_macro.py:23-32 | when the next resource's `Type` can be read, the loop goes on with its alarms added if it is an EC2 instance, or unchanged otherwise |
| AlarmMacro.ScanAborts | src/alarm_macro.py:26-41 | when the next resource's `Type` cannot be read, the whole run aborts |
| AlarmMacro.VisitResource | src/alarm_macro.py:24-41 | one pass of the loop on the caller's accumulator: it reports whether `Type` could be read; if so the accumulator is the loop's result one resource further, and if not the whole run aborts |
| AlarmMacro.Handler | src/alarm_macro.py:18-53 | `requestId` and the fragment are echoed; on abort the status is `failure` and `Resources` is unchanged; otherwise the status is `success` and `Resources` is the input updated with every generated alarm |
| AlarmMacro.Fragment.constructor | src/alarm_macro.py:20-22 | a fragment holds its `Resources` dictionary and its other sections as given |
| JsonValues.Index | src/alarm_macro.py:27 | `j[key]`, `None` where Python raises; no contract of its own: AlarmMacroProofs.ScanFails states which resources make the run fail through it |
| AlarmMacroProofs.ShorterNameIsSuffix | src/alarm_macro.py:69 | if two keys `resource + name` are equal, the shorter name ends the longer |
| AlarmMacroProofs.AlarmKeyInjective | src/alarm_macro.py:69 | over a catalog where no alarm name ends another, a key determines the resource and the alarm |
| AlarmMacroProofs.Ec2AlarmsSuffixFree | src/alarm_macro.py:12-16 | neither `CPUUtilization` nor `StatusCheck` ends the other |
| AlarmMacroProofs.Ec2AlarmKeyInjective | src/alarm_macro.py:29 | two instance alarm keys are equal only for the same resource and the same alarm |
| AlarmMacroProofs.ConditionPropagation | src/alarm_macro.py:56-64 | a generated alarm has a `Condition` exactly when its resource has one that is not the string "none", and then it is the same value |
| AlarmMacroProofs.AlarmActionsFields | src/alarm_macro.py:72-100 | `ActionsEnabled` is the string "true"; `AlarmActions` and `InsufficientDataActions` are both `[topic]` |
| AlarmMacroProofs.AlarmMetricFields | src/alarm_macro.py:97-104 | `Dimensions` is one pair of the catalog's dimension name and `{"Ref": resource}`; metric name, namespace, period and statistic are copied from the catalog |
| AlarmMacroProofs.AlarmThresholdFields | src/alarm_macro.py:95-106 | threshold, unit, evaluation periods and comparison operator are copied from the catalog |
| AlarmMacroProofs.AlarmTextFields | src/alarm_macro.py:74-94 | the description joins the metric name and `{"Ref": resource}` with " - "; the name joins `{"Ref": "AWS::StackName"}`, the resource id and the metric name with "-" |
| AlarmMacroProofs.AlarmEntryFields | src/alarm_macro.py:69-71 | every generated entry has `Type` `AWS::CloudWatch::Alarm` and the properties above, whatever its condition |
| AlarmMacroProofs.Ec2Generated | src/alarm_macro.py:27-30 | an instance adds exactly two entries, `resource + "CPUUtilization"` and then `resource + "StatusCheck"` |
| AlarmMacroProofs.InsertOne | src/alarm_macro.py:111 | updating with `{k: e}` keeps the table well formed, adds `k` with `e`, and changes no other key |
| AlarmMacroProofs.TwoInserts | src/alarm_macro.py:68-113 | two updates with distinct keys add exactly those keys with their values and change no other key |
| AlarmMacroProofs.InstanceStep | src/alarm_macro.py:27-30 | an instance adds its two alarm keys with their entries and leaves every other entry as it was |
| AlarmMacroProofs.ScanFails | src/alarm_macro.py:26-41 | the run fails exactly when some resource's `Type` cannot be read |
| AlarmMacroProofs.InstanceKeysMembership | src/alarm_macro.py:27-30 | a key is generated exactly when it is some instance's id followed by one of the two alarm names |
| AlarmMacroProofs.KeepsAlarmsOf | src/alarm_macro.py:111-113 | adding one instance's alarms never overwrites another resource's alarms |
| AlarmMacroProofs.OwnAlarms | src/alarm_macro.py:27-30 | after an instance is visited, the accumulator holds its two alarms, built from its own condition |
| AlarmMacroProofs.AfterInstance | src/alarm_macro.py:23-30 | after an instance is visited, every resource that had its alarms still has them, and so does the instance |
| AlarmMacroProofs.InstanceCase | src/alarm_macro.py:27-30 | visiting an instance keeps the alarms of every earlier instance and adds its own |
| AlarmMacroProofs.InstanceCaseKeys | src/alarm_macro.py:27-30 | visiting an instance keeps the accumulator well formed, and its keys become the earlier instances' alarm keys plus this instance's |
| AlarmMacroProofs.OtherTypeCase | src/alarm_macro.py:31-32 | a resource of any other type adds no alarm and changes nothing |
| AlarmMacroProofs.ScanContent | src/alarm_macro.py:23-32 | on success the accumulator is well formed, holds the two alarms of every instance, and has no other key |
| AlarmMacroProofs.SuccessOutput | src/alarm_macro.py:43-53 | the returned `Resources` is well formed: the input keys come first, in order; its keys are the input keys plus the alarm keys; every instance's alarms are present; every input entry that is not an alarm key is unchanged |
| AlarmMacroProofs.FreshInstanceKeys | src/alarm_macro.py:23-30 | since resource names are distinct, an instance's two alarm keys are not among the keys of the instances before it |
| AlarmMacroProofs.AppendSingles | src/alarm_macro.py:111 | two single-entry updates with new, distinct keys append those keys in order |
| AlarmMacroProofs.InstanceOrder | src/alarm_macro.py:27-30 | an instance whose alarm keys are new appends `resource + "CPUUtilization"` and then `resource + "StatusCheck"` |
| AlarmMacroProofs.ScanOrder | src/alarm_macro.py:23-32 | on success the accumulator's keys are the instances' alarm keys, resource by resource in `Resources` order, CPU alarm first |
| AlarmMacroProofs.SuccessOrder | src/alarm_macro.py:43 | when no alarm key is already a resource name, the returned `Resources` keys are the input keys followed by the alarm keys in generation order |
| AlarmMacroProofs.ExampleScanInstance | src/alarm_macro.py:27-30 | example: visiting `Web1` generates its two alarms |
| AlarmMacroProofs.ScanSkipsLast | src/alarm_macro.py:31-32 | a last resource whose `Type` is readable but not an EC2 instance leaves the loop's result as it was |
| AlarmMacroProofs.ExampleScan | src/alarm_macro.py:23-32 | example: the loop over `Web1` and `Bucket` generates exactly `Web1`'s two alarms |
| AlarmMacroProofs.TwoSingles | src/alarm_macro.py:111-113 | two single-entry updates of `{}` give the two entries, in order |
| AlarmMacroProofs.ExampleSingles | src/alarm_macro.py:69 | example: the keys are `Web1CPUUtilization` and `Web1StatusCheck` |
| AlarmMacroProofs.ExampleAlarms | src/alarm_macro.py:66-113 | example: `Web1`'s alarms are `Web1CPUUtilization` then `Web1StatusCheck`, each its alarm entry |
| AlarmMacroProofs.AppendTwo | src/alarm_macro.py:43 | updating with two new keys appends them, in order |
| AlarmMacroProofs.ExampleMerge | src/alarm_macro.py:43 | example: updating `Web1`, `Bucket` with the two alarm entries gives four keys in that order |
| AlarmMacroProofs.ExampleOutput | src/alarm_macro.py:43-53 | example: the output `Resources` is `Web1`, `Bucket`, `Web1CPUUtilization`, `Web1StatusCheck`, with the bucket unchanged |
| AlarmMacroProofs.StoredAlarm | src/alarm_macro.py:69-110 | an alarm read back from the output has `Type` `AWS::CloudWatch::Alarm`, its condition unless that is the marker, and the generated properties |
| AlarmMacroProofs.ExampleCpuAlarm | src/alarm_macro.py:69-113 | example: `Web1CPUUtilization` is a CloudWatch alarm in namespace `AWS/EC2` that carries `Web1`'s condition unless that is "none" |
| AlarmMacroProofs.MissingTypeExample | src/alarm_macro.py:26-41 | example: a resource with no `Type` makes the run fail |

## Left out

- Logging and `print` (lines 9-10, 21, 24, 32, 34, 44-45, 58, 61, 63) are diagnostics only and are not modelled.
- The `Monitoring_Topic` environment variable (line 7) is read at import time; the model takes it as the parameter `topic`.
- The Lambda `context` argument is unused by the code and absent from the model.
- AlarmMacro.Handler: the `event["fragment"]`, `Input['Resources']` and `event['requestId']` lookups are outside the `try`; the model types them as present (`Event`, `Fragment`) instead of modelling the exceptions they raise, including the case where a missing `requestId` raises after `Resources` was already updated. `requestId` is also typed as a string, while the code echoes whatever JSON value the event holds there.
- `Resources` values of any JSON kind are modelled; JSON numbers are integers only, since no floating-point value is inspected by the macro.
- Key order inside the generated alarm objects and other nested objects is not modelled (they are maps); only the order of `Resources` keys, which the macro's `update` determines, is.
- Alarm kinds other than the EC2 instance (load balancer, NAT gateway, function) are not in this code, so they are not modelled.
