/** JSON values as the services decode them, and Python's view of them as conditions. */
module Json {

  datatype Option<+T> = None | Some(value: T)

  /** A dictionary keeps its insertion order; decoded dictionaries have no repeated key. Foreign is a Python
      object that is no JSON value; it is met only as an attribute of one. */
  datatype Json =
    | Null
    | Bool(b: bool)
    | Int(n: int)
    | Float(r: real)
    | Str(s: string)
    | List(items: seq<Json>)
    | Dict(entries: seq<Entry>)
    | Foreign(id: nat, truthy: bool)

  datatype Entry = Entry(key: string, value: Json)

  /** dict.get: the value at `key`, or null. */
  function Get(entries: seq<Entry>, key: string): Json {
    if entries == [] then Null
    else if entries[0].key == key then entries[0].value
    else Get(entries[1..], key)
  }

  /** Entry i is the first with that key. */
  predicate IsFirst(entries: seq<Entry>, i: nat, key: string) {
    i < |entries| && entries[i].key == key && forall j | 0 <= j < i :: entries[j].key != key
  }

  /** A lookup finds the first entry with the key, wherever it stands. */
  lemma {:induction false} GetFinds(entries: seq<Entry>, key: string, i: nat)
    requires IsFirst(entries, i, key)
    ensures Get(entries, key) == entries[i].value
  {
    if i > 0 {
      assert entries[0].key != key;
      assert forall j | 0 <= j < |entries| - 1 :: entries[1..][j] == entries[j + 1];
      GetFinds(entries[1..], key, i - 1);
    }
  }

  lemma {:induction false} GetMisses(entries: seq<Entry>, key: string)
    requires forall i | 0 <= i < |entries| :: entries[i].key != key
    ensures Get(entries, key) == Null
  {
    if entries != [] {
      assert forall j | 0 <= j < |entries| - 1 :: entries[1..][j] == entries[j + 1];
      GetMisses(entries[1..], key);
    }
  }

  /** Either some entry is the first with the key or none has it. */
  lemma {:induction false} FirstOrNone(entries: seq<Entry>, key: string) returns (i: nat)
    ensures IsFirst(entries, i, key) || (i == |entries| && forall j | 0 <= j < |entries| :: entries[j].key != key)
  {
    i := 0;
    while i < |entries| && entries[i].key != key
      invariant i <= |entries| && forall j | 0 <= j < i :: entries[j].key != key
    {
      i := i + 1;
    }
  }

  /** bool(v) */
  predicate Truthy(v: Json) {
    match v
    case Null => false
    case Bool(b) => b
    case Int(n) => n != 0
    case Float(r) => r != 0.0
    case Str(s) => s != ""
    case List(items) => items != []
    case Dict(entries) => entries != []
    case Foreign(_, truthy) => truthy
  }

  /** The values Python takes for false. */
  predicate IsFalsy(v: Json) {
    v == Null || v == Bool(false) || v == Int(0) || v == Float(0.0) || v == Str("") || v == List([]) || v == Dict([])
    || (v.Foreign? && !v.truthy)
  }

  lemma TruthyMeaning(v: Json)
    ensures Truthy(v) <==> !IsFalsy(v)
  {}
}
