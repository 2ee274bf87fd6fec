/** Insertion-ordered dictionaries from strings to JSON values: the
    `Resources` mapping of a template and the accumulator of generated
    alarms. */
module OrderedDict {
  import opened JsonValues

  predicate Distinct(s: seq<string>) {
    forall i, j :: 0 <= i < j < |s| ==> s[i] != s[j]
  }

  /** Key order after an `update` that inserts the keys `added` in order:
      a key already present keeps its place, a new key goes to the end. */
  function MergeKeys(keys: seq<string>, added: seq<string>): (r: seq<string>)
    ensures |keys| <= |r| && r[..|keys|] == keys
    ensures forall k :: k in r <==> k in keys || k in added
    ensures Distinct(keys) ==> Distinct(r)
    ensures Distinct(added) && (forall k :: k in added ==> k !in keys) ==> r == keys + added
    decreases |added|
  {
    if added == [] then keys
    else
      var prior := MergeKeys(keys, added[..|added| - 1]);
      var k := added[|added| - 1];
      assert Distinct(added) ==> Distinct(added[..|added| - 1]) && k !in added[..|added| - 1];
      assert added == added[..|added| - 1] + [k];
      if k in prior then prior else prior + [k]
  }

  /** What a dictionary holds: its keys in insertion order and its mapping. */
  datatype Table = Table(keys: seq<string>, entries: map<string, Json>) {
    ghost predicate Valid() {
      Distinct(keys) && forall k :: k in entries <==> k in keys
    }

    /** The table after `update(other)`: the values of `other` win on a
        shared key, every other key keeps its value and its place. */
    function Merge(other: Table): (r: Table)
      ensures Valid() && other.Valid() ==> r.Valid()
      ensures r.entries.Keys == entries.Keys + other.entries.Keys
      ensures forall k :: k in r.entries ==>
        r.entries[k] == if k in other.entries then other.entries[k] else entries[k]
      ensures |keys| <= |r.keys| && r.keys[..|keys|] == keys
    {
      Table(MergeKeys(keys, other.keys), entries + other.entries)
    }

    /** When `other`'s keys are distinct and all new, `update` appends them
        in `other`'s order. */
    lemma MergeAppends(other: Table)
      requires Distinct(other.keys) && forall k :: k in other.keys ==> k !in keys
      ensures Merge(other).keys == keys + other.keys
    {
    }
  }

  /** The one-entry dictionary `{key: value}`. */
  function Single(key: string, value: Json): Table {
    Table([key], map[key := value])
  }

  /** A dictionary object, updated in place. */
  class Dict {
    var keys: seq<string>
    var entries: map<string, Json>

    function View(): Table
      reads this
    {
      Table(keys, entries)
    }

    ghost predicate Valid()
      reads this
    {
      View().Valid()
    }

    /** `{}` */
    constructor ()
      ensures Valid() && View() == Table([], map[])
    {
      keys, entries := [], map[];
    }

    /** `{key: value}` */
    constructor Singleton(key: string, value: Json)
      ensures Valid() && View() == Single(key, value)
    {
      keys, entries := [key], map[key := value];
    }

    /** `self.update(other)` */
    method Update(other: Dict)
      requires Valid() && other.Valid()
      modifies this
      ensures Valid()
      ensures View() == old(View()).Merge(old(other.View()))
    {
      keys, entries := MergeKeys(keys, other.keys), entries + other.entries;
    }
  }
}
