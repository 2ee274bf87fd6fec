/** An optional value, for lookups that may find nothing. */
module Wrappers {
  datatype Option<+T> = None | Some(value: T)
}

/** Decoded JSON documents, as the macro receives and returns them. */
module JsonValues {
  import opened Wrappers

  datatype Json =
    | JNull
    | JBool(b: bool)
    | JNumber(n: int)
    | JString(s: string)
    | JArray(items: seq<Json>)
    | JObject(fields: map<string, Json>)

  /** `{"Ref": name}`: a template reference to a resource or a pseudo parameter. */
  function Ref(name: string): Json {
    JObject(map["Ref" := JString(name)])
  }

  /** `{"Fn::Join": [separator, parts]}`: the template's string-join intrinsic. */
  function Join(separator: string, parts: seq<Json>): Json {
    JObject(map["Fn::Join" := JArray([JString(separator), JArray(parts)])])
  }

  /** Subscripting `j[key]`: it succeeds only on an object that holds `key`;
      on anything else the subscript raises. */
  function Index(j: Json, key: string): Option<Json> {
    if j.JObject? && key in j.fields then Some(j.fields[key]) else None
  }

  /** Follows a path of object keys from `j`, as `j[p0][p1]...` does. */
  function Lookup(j: Json, path: seq<string>): Option<Json>
    decreases |path|
  {
    if path == [] then Some(j)
    else
      match Index(j, path[0])
      case None => None
      case Some(child) => Lookup(child, path[1..])
  }
}
