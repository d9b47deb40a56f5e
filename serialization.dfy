/** PHP's serialize() and unserialize() on the values a container writes
    and reads.  A serialized string is modelled as the sequence of items it
    spells out, one token per scalar or object and, for an array, a count
    followed by its key/value pairs in order. */
module Serialization {
  import opened Wrappers
  import opened Parameters
  import opened PhpValues

  datatype Token =
    | TNull
    | TBool(b: bool)
    | TInt(i: int)
    | TStr(s: string)
    | TObject(cls: string)
    | TParameter(p: Parameter)
    | TArray(count: nat)
    | TKey(key: Key)

  /** serialize(): closures are refused by PHP, which Serializable rules out. */
  function Encode(v: Value): (ts: seq<Token>)
    requires Serializable(v)
    decreases v, 1
  {
    match v
    case Null => [TNull]
    case Bool(b) => [TBool(b)]
    case Int(i) => [TInt(i)]
    case Str(s) => [TStr(s)]
    case Object(c) => [TObject(c)]
    case Param(p) => [TParameter(p)]
    case Arr(es) => [TArray(|es|)] + EncodeFrom(v, 0)
    case Closure(_) => assert false; []
  }

  /** The key/value pairs of the array v from index i on. */
  function EncodeFrom(v: Value, i: nat): (ts: seq<Token>)
    requires v.Arr? && Serializable(v) && i <= |v.entries|
    decreases v, 0, |v.entries| - i
  {
    if i == |v.entries| then []
    else
      assert v.entries[i] in v.entries;
      [TKey(v.entries[i].key)] + Encode(v.entries[i].val) + EncodeFrom(v, i + 1)
  }

  /** Array insertion while unserializing: a key seen again overwrites the
      earlier value in its place, a new key is appended. */
  function Put(es: seq<Entry>, k: Key, v: Value): (r: seq<Entry>)
    ensures KeysDistinct(es) ==> KeysDistinct(r)
    ensures (forall i :: 0 <= i < |es| ==> Serializable(es[i].val)) && Serializable(v) ==>
      forall i :: 0 <= i < |r| ==> Serializable(r[i].val)
    ensures (forall i :: 0 <= i < |es| ==> es[i].key != k) ==> r == es + [Entry(k, v)]
  {
    if exists i :: 0 <= i < |es| && es[i].key == k then
      seq(|es|, i requires 0 <= i < |es| => if es[i].key == k then Entry(k, v) else es[i])
    else es + [Entry(k, v)]
  }

  /** Reads one value from the front of ts and returns it with what is left,
      or None when ts does not start with a complete value. */
  function DecodeValue(ts: seq<Token>): (r: Option<(Value, seq<Token>)>)
    ensures r.Some? ==> |r.value.1| < |ts| && Serializable(r.value.0)
    decreases |ts|, 1
  {
    if ts == [] then None
    else match ts[0]
      case TNull => Some((Null, ts[1..]))
      case TBool(b) => Some((Bool(b), ts[1..]))
      case TInt(i) => Some((Int(i), ts[1..]))
      case TStr(s) => Some((Str(s), ts[1..]))
      case TObject(c) => Some((Object(c), ts[1..]))
      case TParameter(p) => Some((Param(p), ts[1..]))
      case TArray(n) =>
        (match DecodeEntries(ts[1..], n, [])
         case None => None
         case Some((es, rest)) => Some((Arr(es), rest)))
      case TKey(_) => None
  }

  /** Reads n key/value pairs into the entries read so far. */
  function DecodeEntries(ts: seq<Token>, n: nat, acc: seq<Entry>): (r: Option<(seq<Entry>, seq<Token>)>)
    requires Serializable(Arr(acc))
    ensures r.Some? ==> |r.value.1| <= |ts| && Serializable(Arr(r.value.0))
    decreases |ts|, 0, n
  {
    if n == 0 then Some((acc, ts))
    else if ts == [] || !ts[0].TKey? then None
    else
      match DecodeValue(ts[1..])
      case None => None
      case Some((v, rest)) => DecodeEntries(rest, n - 1, Put(acc, ts[0].key, v))
  }

  /** unserialize(): the value the string spells out, or false when it does
      not spell one out.  Anything after a complete value is ignored. */
  function Unserialize(ts: seq<Token>): (v: Value)
    ensures Serializable(v)
    ensures DecodeValue(ts).None? ==> v == Bool(false)
    ensures DecodeValue(ts).Some? ==> v == DecodeValue(ts).value.0
  {
    match DecodeValue(ts)
    case None => Bool(false)
    case Some((v, _)) => v
  }

  // ---------------------------------------------------------------------
  // Round trip

  /** Reading back what serialize() wrote gives the same value and leaves
      whatever followed untouched. */
  lemma {:induction false} DecodeEncode(v: Value, rest: seq<Token>)
    requires Serializable(v)
    ensures DecodeValue(Encode(v) + rest) == Some((v, rest))
    decreases v, 1
  {
    if v.Arr? {
      var es := v.entries;
      assert Encode(v) + rest == [TArray(|es|)] + (EncodeFrom(v, 0) + rest);
      assert es[..0] == [];
      DecodeEncodeFrom(v, 0, rest);
      assert es[..|es|] == es;
    }
  }

  lemma {:induction false} DecodeEncodeFrom(v: Value, i: nat, rest: seq<Token>)
    requires v.Arr? && Serializable(v) && i <= |v.entries|
    ensures Serializable(Arr(v.entries[..i]))
    ensures DecodeEntries(EncodeFrom(v, i) + rest, |v.entries| - i, v.entries[..i]) == Some((v.entries[..|v.entries|], rest))
    decreases v, 0, |v.entries| - i
  {
    var es := v.entries;
    PrefixSerializable(v, i);
    if i < |es| {
      var e := es[i];
      assert e in es;
      var tail := EncodeFrom(v, i + 1) + rest;
      var ts := EncodeFrom(v, i) + rest;
      EncodeFromFront(v, i, rest);
      DecodeEncode(e.val, tail);
      PutExtendsPrefix(es, i);
      PrefixSerializable(v, i + 1);
      DecodeEntriesStep(ts, |es| - i, es[..i], e.val, tail);
      DecodeEncodeFrom(v, i + 1, rest);
    } else {
      assert EncodeFrom(v, i) + rest == rest;
    }
  }

  lemma PrefixSerializable(v: Value, i: nat)
    requires v.Arr? && Serializable(v) && i <= |v.entries|
    ensures Serializable(Arr(v.entries[..i]))
  {
    var es := v.entries;
    forall j | 0 <= j < i ensures Serializable(es[..i][j].val) {
      assert es[..i][j] == es[j];
    }
  }

  lemma PutExtendsPrefix(es: seq<Entry>, i: nat)
    requires KeysDistinct(es) && i < |es|
    ensures Put(es[..i], es[i].key, es[i].val) == es[..i + 1]
  {
    assert forall j :: 0 <= j < |es[..i]| ==> es[..i][j].key != es[i].key;
    assert es[..i] + [Entry(es[i].key, es[i].val)] == es[..i + 1];
  }

  lemma EncodeFromFront(v: Value, i: nat, rest: seq<Token>)
    requires v.Arr? && Serializable(v) && i < |v.entries|
    ensures v.entries[i] in v.entries
    ensures var ts := EncodeFrom(v, i) + rest;
      && ts != [] && ts[0] == TKey(v.entries[i].key)
      && ts[1..] == Encode(v.entries[i].val) + (EncodeFrom(v, i + 1) + rest)
  {
    var e := v.entries[i];
    assert e in v.entries;
    var ts := EncodeFrom(v, i) + rest;
    assert ts == [TKey(e.key)] + (Encode(e.val) + (EncodeFrom(v, i + 1) + rest));
  }

  /** One key/value pair read by DecodeEntries. */
  lemma DecodeEntriesStep(ts: seq<Token>, n: nat, acc: seq<Entry>, x: Value, rest: seq<Token>)
    requires Serializable(Arr(acc)) && n > 0 && ts != [] && ts[0].TKey?
    requires DecodeValue(ts[1..]) == Some((x, rest))
    ensures DecodeEntries(ts, n, acc) == DecodeEntries(rest, n - 1, Put(acc, ts[0].key, x))
  {
  }

  /** unserialize(serialize(v)) == v */
  lemma UnserializeSerialize(v: Value)
    requires Serializable(v)
    ensures Unserialize(Encode(v)) == v
  {
    DecodeEncode(v, []);
    assert Encode(v) + [] == Encode(v);
  }
}
