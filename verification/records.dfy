/**
 * Parsed CSV records as the lambda sees them: plain JavaScript objects whose
 * keys are column names. An object is modelled as an association list kept in
 * `Object.keys` order, with property read, property write and `Object.assign`
 * following JavaScript's rules for string keys.
 */
module Records {

  /** An IEEE-754 double, identified by its bit pattern; no arithmetic is done on it. */
  type Float = bv64

  /** A property value: a CSV cell, a number produced by `parseFloat`, or `undefined`. */
  datatype Value = Str(s: string) | Num(x: Float) | Undefined

  datatype Field = Field(name: string, value: Value)

  /** One object, its properties in enumeration order. */
  type Record = seq<Field>

  const LATITUDE: string := "latitude"
  const LONGITUDE: string := "longitude"
  const ID: string := "id"

  /** `Object.keys(r)`. */
  function Names(r: Record): seq<string>
  {
    seq(|r|, i requires 0 <= i < |r| => r[i].name)
  }

  /** A JavaScript object never holds the same key twice. */
  predicate Keyed(r: Record)
  {
    forall i, j :: 0 <= i < j < |r| ==> r[i].name != r[j].name
  }

  /** Property read `r[k]`: `undefined` when the key is absent. */
  function Get(r: Record, k: string): Value
  {
    if r == [] then Undefined
    else if r[0].name == k then r[0].value
    else Get(r[1..], k)
  }

  /** Property write `r[k] = v`: an existing key keeps its place, a new key goes last. */
  function Set(r: Record, k: string, v: Value): Record
  {
    if r == [] then [Field(k, v)]
    else if r[0].name == k then [Field(k, v)] + r[1..]
    else [r[0]] + Set(r[1..], k, v)
  }

  /** `Object.assign(target, source)`: copies every property of `source` onto `target`, in order. */
  function Assign(target: Record, source: Record): Record
    decreases |source|
  {
    if source == [] then target
    else Assign(Set(target, source[0].name, source[0].value), source[1..])
  }

  /** After a write, the written key reads back the new value and every other key is untouched. */
  lemma {:induction false} GetSet(r: Record, k: string, v: Value, k': string)
    ensures Get(Set(r, k, v), k') == if k' == k then v else Get(r, k')
  {
    if r != [] && r[0].name != k {
      GetSet(r[1..], k, v, k');
      assert Set(r, k, v)[1..] == Set(r[1..], k, v);
    }
  }

  /** A write keeps the key order; it appends the key only when it was absent. */
  lemma {:induction false} NamesSet(r: Record, k: string, v: Value)
    ensures Names(Set(r, k, v)) == if k in Names(r) then Names(r) else Names(r) + [k]
  {
    if r != [] {
      NamesCons(r[0], r[1..]);
      assert r == [r[0]] + r[1..];
      if r[0].name != k {
        NamesSet(r[1..], k, v);
        NamesCons(r[0], Set(r[1..], k, v));
      } else {
        NamesCons(Field(k, v), r[1..]);
      }
    }
  }

  /** Helper: the keys of a record with one more property in front. */
  lemma NamesCons(f: Field, r: Record)
    ensures Names([f] + r) == [f.name] + Names(r)
  {
  }

  /** A write never introduces a duplicate key. */
  lemma SetKeyed(r: Record, k: string, v: Value)
    requires Keyed(r)
    ensures Keyed(Set(r, k, v))
  {
    NamesSet(r, k, v);
    var s := Set(r, k, v);
    forall i, j | 0 <= i < j < |s| ensures s[i].name != s[j].name {
      assert Names(s)[i] == s[i].name && Names(s)[j] == s[j].name;
      assert Names(r) == seq(|r|, i requires 0 <= i < |r| => r[i].name);
    }
  }

  /** A key the record does not have reads as `undefined`. */
  lemma {:induction false} GetAbsent(r: Record, k: string)
    requires k !in Names(r)
    ensures Get(r, k) == Undefined
  {
    if r != [] {
      assert Names(r) == [r[0].name] + Names(r[1..]);
      GetAbsent(r[1..], k);
    }
  }

  /**
   * `Object.assign` onto an object: every key of `source` reads its value from
   * `source`, every other key from `target`.
   */
  lemma {:induction false} GetAssign(target: Record, source: Record, k: string)
    requires Keyed(source)
    ensures Get(Assign(target, source), k) == if k in Names(source) then Get(source, k) else Get(target, k)
    decreases |source|
  {
    if source != [] {
      var f := source[0];
      var rest := source[1..];
      assert Keyed(rest);
      assert Names(source) == [f.name] + Names(rest);
      GetAssign(Set(target, f.name, f.value), rest, k);
      GetSet(target, f.name, f.value, k);
      if k == f.name {
        assert k !in Names(rest) by {
          forall j | 0 <= j < |rest| ensures Names(rest)[j] != k {
            assert rest[j] == source[j + 1];
          }
        }
      }
    }
  }

  /** `Object.assign` onto a non-empty object keeps its first key first. */
  lemma {:induction false} AssignHead(target: Record, source: Record)
    requires target != []
    ensures Assign(target, source) != [] && Assign(target, source)[0].name == target[0].name
    decreases |source|
  {
    if source != [] {
      var t' := Set(target, source[0].name, source[0].value);
      assert t' != [] && t'[0].name == target[0].name;
      AssignHead(t', source[1..]);
    }
  }

  /**
   * `Object.assign` of a keyed source with none of the target's keys: the
   * target's keys come first, then the source's, each in its own order.
   */
  lemma {:induction false} NamesAssign(target: Record, source: Record)
    requires Keyed(source)
    requires forall i :: 0 <= i < |source| ==> source[i].name !in Names(target)
    ensures Names(Assign(target, source)) == Names(target) + Names(source)
    decreases |source|
  {
    if source != [] {
      var f := source[0];
      var rest := source[1..];
      NamesSet(target, f.name, f.value);
      var t' := Set(target, f.name, f.value);
      assert Names(t') == Names(target) + [f.name];
      forall i | 0 <= i < |rest| ensures rest[i].name !in Names(t') {
        assert rest[i] == source[i + 1];
      }
      NamesAssign(t', rest);
      assert Names(source) == [f.name] + Names(rest);
    }
  }
}
