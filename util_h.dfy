/**
 * The header-only helpers: reading a field of a JSON object with a
 * fallback, trying several keys in turn, and indentation by tabs.
 *
 * A JSON object is a map from key to value, where `None` is JSON null and a
 * missing key is absent from the map. `T()`, the value-initialised result
 * the helpers fall back on, is the parameter `dflt`.
 */
module UtilHeader {
  import opened Wrappers

  type JsonObject<T> = map<string, Option<T>>

  /** get_json_field: the value under `key` when it is there and not null, else `dflt`. */
  function GetJsonField<T>(obj: JsonObject<T>, key: string, dflt: T): T {
    if key in obj && obj[key].Some? then obj[key].value else dflt
  }

  /**
   * get_json_fields: scans the keys in order, skips absent ones, and stops
   * at the first present one: its value, or `dflt` when it is null.
   */
  function GetJsonFields<T>(obj: JsonObject<T>, keys: seq<string>, dflt: T): T {
    if |keys| == 0 then dflt
    else if keys[0] !in obj then GetJsonFields(obj, keys[1..], dflt)
    else if obj[keys[0]].None? then dflt
    else obj[keys[0]].value
  }

  /** tabs: `n` tab characters. */
  function Tabs(n: nat): (r: string)
    ensures |r| == n && forall i :: 0 <= i < n ==> r[i] == '\t'
  {
    if n == 0 then "" else Tabs(n - 1) + "\t"
  }
}

module UtilHeaderProperties {
  import opened Wrappers
  import opened UtilHeader

  /**
   * The first present key decides: its value when not null, `dflt` when
   * null, whatever the keys after it hold.
   */
  lemma {:induction false} FirstPresentKeyDecides<T>(obj: JsonObject<T>, keys: seq<string>, dflt: T, i: nat)
    requires i < |keys| && keys[i] in obj
    requires forall j :: 0 <= j < i ==> keys[j] !in obj
    ensures GetJsonFields(obj, keys, dflt) == GetJsonField(obj, keys[i], dflt)
  {
    if i > 0 {
      assert keys[0] !in obj;
      FirstPresentKeyDecides(obj, keys[1..], dflt, i - 1);
    }
  }

  /** With none of the keys present the result is `dflt`. */
  lemma {:induction false} NoKeyPresent<T>(obj: JsonObject<T>, keys: seq<string>, dflt: T)
    requires forall j :: 0 <= j < |keys| ==> keys[j] !in obj
    ensures GetJsonFields(obj, keys, dflt) == dflt
  {
    if |keys| > 0 {
      assert keys[0] !in obj;
      NoKeyPresent(obj, keys[1..], dflt);
    }
  }

  /** A null under an earlier key hides a value under a later one. */
  lemma NullStopsTheScan<T>(k1: string, k2: string, v: T, dflt: T)
    requires k1 != k2
    ensures GetJsonFields(map[k1 := None, k2 := Some(v)], [k1, k2], dflt) == dflt
    ensures GetJsonFields(map[k2 := Some(v)], [k1, k2], dflt) == v
  {
    var obj: JsonObject<T> := map[k2 := Some(v)];
    assert k1 !in obj;
    assert [k1, k2][1..] == [k2];
  }

  /** Trying a single key is reading that field. */
  lemma SingleKeyIsField<T>(obj: JsonObject<T>, key: string, dflt: T)
    ensures GetJsonFields(obj, [key], dflt) == GetJsonField(obj, key, dflt)
  {
    if key !in obj {
      assert [key][1..] == [];
    }
  }
}
