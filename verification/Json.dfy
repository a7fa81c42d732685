/** Parsed JSON documents. S is the type of keys and strings. */
module Json {

  datatype Value<S> =
    | Null
    | Bool(b: bool)
    | Number(n: real)
    | Str(s: S)
    | Arr(items: seq<Value<S>>)
    | Obj(fields: map<S, Value<S>>)

  type Fields<S> = map<S, Value<S>>

  /** A string field, or empty when it is missing or of another type. */
  function StringField<S(==)>(m: Fields<S>, key: S, empty: S): S {
    if key in m && m[key].Str? then m[key].s else empty
  }

  /** An array field, or nothing when it is missing or of another type. */
  function ArrayField<S(==)>(m: Fields<S>, key: S): seq<Value<S>> {
    if key in m && m[key].Arr? then m[key].items else []
  }

  /** An object field, or an empty object when it is missing or of another type. */
  function ObjectField<S(==)>(m: Fields<S>, key: S): Fields<S> {
    if key in m && m[key].Obj? then m[key].fields else map[]
  }

  /** Some object of a list has the text in the field. */
  predicate AnyHas<S(==)>(items: seq<Value<S>>, key: S, text: S, empty: S) {
    exists i :: 0 <= i < |items| && items[i].Obj? && StringField(items[i].fields, key, empty) == text
  }

  lemma AnyHasAppend<S(!new)>(items: seq<Value<S>>, v: Value<S>, key: S, text: S, empty: S)
    ensures AnyHas(items + [v], key, text, empty)
       <==> AnyHas(items, key, text, empty) || (v.Obj? && StringField(v.fields, key, empty) == text)
  {
    if AnyHas(items, key, text, empty) {
      var i :| 0 <= i < |items| && items[i].Obj? && StringField(items[i].fields, key, empty) == text;
      assert (items + [v])[i] == items[i];
    }
    assert (items + [v])[|items|] == v;
  }

  /** What a filter keeps of a list and of one more value is the longer list only if it keeps all of both. */
  lemma KeptGrows<S(!new)>(a: seq<Value<S>>, kept: seq<Value<S>>, e: Value<S>, more: seq<Value<S>>)
    requires |kept| <= |a| && |more| <= 1
    ensures kept + more == a + [e] <==> kept == a && more == [e]
  {
    if kept + more == a + [e] {
      assert |more| == 1 && (kept + more)[|kept|] == more[0] && (a + [e])[|a|] == e;
      assert kept == (kept + more)[..|kept|] && a == (a + [e])[..|a|];
    }
  }

  /** The elements that meet p, in order. */
  function Filtered<T>(s: seq<T>, p: T -> bool): seq<T> {
    if s == [] then []
    else Filtered(s[..|s| - 1], p) + if p(s[|s| - 1]) then [s[|s| - 1]] else []
  }
}
