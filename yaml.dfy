/** Parsed YAML documents, as the YAML parser hands them to the plugin, and the
    dictionaries the plugin builds from them. */
module Yaml {
  import opened Base

  /** The Java class a scalar was parsed into; values of different classes are
      never equal, even when they print the same. */
  datatype ScalarKind = Str | Int | Float | Bool

  /** A parsed YAML node. A mapping keeps its entries in document order (the
      parser builds a LinkedHashMap and refuses duplicate keys). */
  datatype Value =
    | Mapping(entries: seq<(Value, Value)>)
    | Sequence(items: seq<Value>)
    | Scalar(kind: ScalarKind, text: string)
    | Null

  /** A dictionary key after `makeStringKeys`: Java's null key, or a string. */
  datatype Key = NullKey | Named(name: string)

  /** A parameter dictionary (Map<String, Object>). */
  type Dict = map<Key, Value>

  /** The reserved top-level key that holds per-variant data. */
  const VariantsKey: Value := Scalar(Str, "variants")

  /** String.valueOf of a parsed node: its toString, or "null". Mappings print
      as `{k=v, ...}` and sequences as `[a, ...]`, as Java collections do. */
  function Render(v: Value): string {
    match v
    case Scalar(_, t) => t
    case Null => "null"
    case Sequence(items) => "[" + RenderItems(items) + "]"
    case Mapping(es) => "{" + RenderEntries(es) + "}"
  }

  function RenderItems(items: seq<Value>): string {
    if |items| == 0 then ""
    else
      var head := Render(items[0]);
      if |items| == 1 then head else head + ", " + RenderItems(items[1..])
  }

  function RenderEntries(es: seq<(Value, Value)>): string {
    if |es| == 0 then ""
    else
      assert es[0] in es;
      assert es[0].0 < es[0] && es[0].1 < es[0];
      var head := Render(es[0].0) + "=" + Render(es[0].1);
      if |es| == 1 then head else head + ", " + RenderEntries(es[1..])
  }

  /** The key `makeStringKeys` stores an entry under: null stays null, any
      other key becomes its toString. */
  function KeyOf(k: Value): Key {
    if k.Null? then NullKey else Named(Render(k))
  }

  /** Map.get on a parsed mapping: the value of the first entry with that key. */
  function Lookup(es: seq<(Value, Value)>, key: Value): (r: Option<Value>)
    ensures r.Some? <==> exists i :: 0 <= i < |es| && es[i].0 == key
    ensures r.Some? ==> exists i :: 0 <= i < |es| && es[i] == (key, r.value)
  {
    if |es| == 0 then None
    else if es[0].0 == key then Some(es[0].1)
    else
      var r := Lookup(es[1..], key);
      assert forall i :: 0 <= i < |es| - 1 ==> es[1..][i] == es[i + 1];
      r
  }

  /** Map.remove on a parsed mapping: the entries without that key, in order. */
  function RemoveKey(es: seq<(Value, Value)>, key: Value): (r: seq<(Value, Value)>)
    ensures forall e :: e in r <==> e in es && e.0 != key
  {
    if |es| == 0 then []
    else if es[0].0 == key then RemoveKey(es[1..], key)
    else [es[0]] + RemoveKey(es[1..], key)
  }

  /** What `makeStringKeys` builds: each entry put in order under its string
      key, so a later entry whose key prints the same replaces an earlier one. */
  function StringKeys(es: seq<(Value, Value)>): Dict {
    if |es| == 0 then map[]
    else StringKeys(es[..|es| - 1])[KeyOf(es[|es| - 1].0) := es[|es| - 1].1]
  }

  /** `makeStringKeys` keeps exactly the keys of the entries, stringified. */
  lemma {:induction false} StringKeysKeys(es: seq<(Value, Value)>)
    ensures forall k :: k in StringKeys(es) <==> exists i :: 0 <= i < |es| && KeyOf(es[i].0) == k
  {
    if |es| > 0 {
      var init := es[..|es| - 1];
      StringKeysKeys(init);
      forall k ensures k in StringKeys(es) <==> exists i :: 0 <= i < |es| && KeyOf(es[i].0) == k {
        if k in StringKeys(init) {
          var i :| 0 <= i < |init| && KeyOf(init[i].0) == k;
          assert es[i] == init[i];
        }
        if exists i :: 0 <= i < |es| && KeyOf(es[i].0) == k {
          var i :| 0 <= i < |es| && KeyOf(es[i].0) == k;
          if i < |es| - 1 {
            assert init[i] == es[i];
          }
        }
      }
    }
  }

  /** `makeStringKeys` keeps values: an entry whose key no later entry repeats
      is found under its string key with its own value. */
  lemma {:induction false} StringKeysValue(es: seq<(Value, Value)>, i: int)
    requires 0 <= i < |es|
    requires forall j :: i < j < |es| ==> KeyOf(es[j].0) != KeyOf(es[i].0)
    ensures KeyOf(es[i].0) in StringKeys(es) && StringKeys(es)[KeyOf(es[i].0)] == es[i].1
  {
    if i < |es| - 1 {
      var init := es[..|es| - 1];
      assert init[i] == es[i];
      forall j | i < j < |init| ensures KeyOf(init[j].0) != KeyOf(init[i].0) {
        assert init[j] == es[j];
      }
      StringKeysValue(init, i);
    }
  }
}
