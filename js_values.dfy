/**
 * The few JavaScript notions the resolution engine depends on: the values it
 * stores in its dictionaries, their truthiness, the coercion of a value to a
 * property key, and plain objects used as insertion-ordered dictionaries.
 */
module JsValues {

  datatype Option<T> = None | Some(value: T)

  /** A value read from a dependency map or from `deduped`: `undefined`,
      `false` (Browserify's marker for an excluded dependency) or a string. */
  datatype Val = Undefined | False | Str(s: string)

  /** `!!v`: only a non-empty string is truthy. */
  predicate Truthy(v: Val) {
    v.Str? && v.s != ""
  }

  /** `obj[v]` reads the property named `String(v)`. */
  function KeyOf(v: Val): string {
    match v
    case Undefined => "undefined"
    case False => "false"
    case Str(s) => s
  }

  /** A file identity as Browserify reports it in a `file` event: a resolved path. */
  type FileId = s: string | s != "" witness "index.js"

  /** A plain object used as a dictionary: its keys in insertion order and its values. */
  datatype OMap<V> = OMap(keys: seq<string>, vals: map<string, V>) {

    ghost predicate Valid() {
      && (forall i, j :: 0 <= i < j < |keys| ==> keys[i] != keys[j])
      && (forall k :: k in vals <==> k in keys)
    }

    /** `obj[k] = v`: a new key goes to the end, an existing key keeps its place. */
    function Put(k: string, v: V): OMap<V> {
      if k in keys then OMap(keys, vals[k := v]) else OMap(keys + [k], vals[k := v])
    }
  }

  lemma PutShape<V>(m: OMap<V>, k: string, v: V)
    requires m.Valid()
    ensures m.Put(k, v).Valid()
    ensures |m.keys| <= |m.Put(k, v).keys| && m.Put(k, v).keys[..|m.keys|] == m.keys
  {
  }

  function Empty<V>(): (r: OMap<V>)
    ensures r.Valid() && r.keys == [] && r.vals == map[]
  {
    OMap([], map[])
  }

  /** `obj[k]` on a dictionary of values; a missing key reads `undefined`. */
  function Get(m: OMap<Val>, k: string): Val {
    if k in m.vals then m.vals[k] else Undefined
  }

  ghost predicate Distinct<T>(s: seq<T>) {
    forall i, j :: 0 <= i < j < |s| ==> s[i] != s[j]
  }
}
