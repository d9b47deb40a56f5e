/** The PHP values a callable specification, a stored callback or a
    serialized payload can be.  Arrays keep their entries in insertion
    order; keys are already normalised ("0" is the integer key 0). */
module PhpValues {
  import opened Wrappers
  import opened Parameters

  datatype Key = IntKey(i: int) | StrKey(s: string)

  datatype Entry = Entry(key: Key, val: Value)

  datatype Value =
    | Null
    | Bool(b: bool)
    | Int(i: int)
    | Str(s: string)
    | Closure(id: nat)        // an anonymous function, a \Closure instance
    | Object(cls: string)     // any other object, known by its class only
    | Param(p: Parameter)     // an instance of Parameter
    | Arr(entries: seq<Entry>)

  const ParameterClass: string := "Movephp\\CallbackContainer\\Parameter"
  const ClosureClass: string := "Closure"

  /** is_object */
  predicate IsObject(v: Value) {
    v.Closure? || v.Object? || v.Param?
  }

  /** get_class */
  function ClassOf(v: Value): string
    requires IsObject(v)
  {
    match v
    case Closure(_) => ClosureClass
    case Object(c) => c
    case Param(_) => ParameterClass
  }

  /** `$array[$key]` for a key that may be absent. */
  function Lookup(es: seq<Entry>, k: Key): Option<Value>
  {
    if es == [] then None
    else if es[0].key == k then Some(es[0].val)
    else Lookup(es[1..], k)
  }

  /** Lookup finds the first entry with the key, and nothing when no entry
      has it. */
  lemma {:induction false} LookupFirst(es: seq<Entry>, k: Key)
    ensures Lookup(es, k).Some? ==>
      exists i :: 0 <= i < |es| && es[i].key == k && es[i].val == Lookup(es, k).value
        && forall j :: 0 <= j < i ==> es[j].key != k
    ensures Lookup(es, k).None? <==> forall i :: 0 <= i < |es| ==> es[i].key != k
  {
    if es != [] && es[0].key != k {
      LookupFirst(es[1..], k);
      if Lookup(es, k).Some? {
        var i :| 0 <= i < |es| - 1 && es[1..][i].key == k && es[1..][i].val == Lookup(es, k).value
          && forall j :: 0 <= j < i ==> es[1..][j].key != k;
        assert es[i + 1].key == k && es[i + 1].val == Lookup(es, k).value;
        assert forall j :: 0 <= j < i + 1 ==> es[j].key != k by {
          forall j | 0 <= j < i + 1 ensures es[j].key != k {
            if j > 0 { assert es[j] == es[1..][j - 1]; }
          }
        }
      }
    }
  }

  /** The entry at index i is found when no earlier entry has its key. */
  lemma {:induction false} LookupAt(es: seq<Entry>, i: nat)
    requires i < |es|
    requires forall j :: 0 <= j < i ==> es[j].key != es[i].key
    ensures Lookup(es, es[i].key) == Some(es[i].val)
  {
    if i > 0 {
      assert es[1..][i - 1] == es[i];
      LookupAt(es[1..], i - 1);
    }
  }

  /** Lookup in an array of two entries. */
  lemma LookupOfTwo(es: seq<Entry>, k: Key)
    requires |es| == 2
    ensures Lookup(es, k) ==
      if es[0].key == k then Some(es[0].val)
      else if es[1].key == k then Some(es[1].val)
      else None
  {
    var rest := es[1..];
    assert rest[0] == es[1] && rest[1..] == [];
    assert Lookup(rest, k) == if es[1].key == k then Some(es[1].val) else Lookup([], k);
  }

  /** array_key_exists */
  predicate HasKey(es: seq<Entry>, k: Key) {
    Lookup(es, k).Some?
  }

  /** `isset($a[$n]) && is_string($a[$n])` */
  predicate StringAt(es: seq<Entry>, n: int) {
    var x := Lookup(es, IntKey(n));
    x.Some? && x.value.Str?
  }

  /** An array of exactly two strings under the keys 0 and 1. */
  predicate IsStringPair(v: Value) {
    v.Arr? && |v.entries| == 2 && StringAt(v.entries, 0) && StringAt(v.entries, 1)
  }

  /** The list `[$first, $second]`. */
  function Pair(first: string, second: string): Value {
    Arr([Entry(IntKey(0), Str(first)), Entry(IntKey(1), Str(second))])
  }

  predicate KeysDistinct(es: seq<Entry>) {
    forall i, j :: 0 <= i < j < |es| ==> es[i].key != es[j].key
  }

  /** A value PHP can serialize and restore: no closure anywhere and, as in
      every real PHP array, no key twice. */
  predicate Serializable(v: Value) {
    match v
    case Closure(_) => false
    case Arr(es) => KeysDistinct(es) && forall i :: 0 <= i < |es| ==> Serializable(es[i].val)
    case _ => true
  }

  lemma PairIsStringPair(first: string, second: string)
    ensures IsStringPair(Pair(first, second)) && Serializable(Pair(first, second))
    ensures Lookup(Pair(first, second).entries, IntKey(0)) == Some(Str(first))
    ensures Lookup(Pair(first, second).entries, IntKey(1)) == Some(Str(second))
  {
  }
}
