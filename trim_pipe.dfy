/**
 * The global pipe that trims every string inside a request payload
 * (src/shared/application/pipes/trim.pipe.ts). A payload is a finite tree: objects and arrays hold
 * their children in order, everything else is a leaf.
 */
module TrimPipe {
  import opened Text

  datatype Json =
    | Null
    | Undefined
    | Bool(b: bool)
    | Number(n: real)
    | Str(s: string)
    | Array(items: seq<Json>)
    | Object(entries: seq<Entry>)

  /** One own property of an object. */
  datatype Entry = Entry(key: string, value: Json)

  /** The payload as `trimValues` leaves it: every string leaf trimmed, nothing else touched. */
  function Trimmed(v: Json): Json
    decreases v
  {
    match v
    case Str(s) => Str(Trim(s))
    case Array(items) => Array(seq(|items|, i requires 0 <= i < |items| => Trimmed(items[i])))
    case Object(entries) =>
      Object(seq(|entries|, i requires 0 <= i < |entries| => Entry(entries[i].key, Trimmed(entries[i].value))))
    case _ => v
  }

  /** Every string leaf of the tree is already trimmed. */
  predicate AllStringsTrimmed(v: Json)
    decreases v
  {
    match v
    case Str(s) => IsTrimmed(s)
    case Array(items) => forall i :: 0 <= i < |items| ==> AllStringsTrimmed(items[i])
    case Object(entries) => forall i :: 0 <= i < |entries| ==> AllStringsTrimmed(entries[i].value)
    case _ => true
  }

  /**
   * The two trees have the same structure: the same kind at every node, the same array lengths, the
   * same object keys in the same order, and equal non-string leaves.
   */
  predicate SameShape(a: Json, b: Json)
    decreases a
  {
    match a
    case Str(_) => b.Str?
    case Array(items) =>
      b.Array? && |b.items| == |items| &&
      forall i :: 0 <= i < |items| ==> SameShape(items[i], b.items[i])
    case Object(entries) =>
      b.Object? && |b.entries| == |entries| &&
      forall i :: 0 <= i < |entries| ==>
        entries[i].key == b.entries[i].key && SameShape(entries[i].value, b.entries[i].value)
    case _ => a == b
  }

  /**
   * `trimValues`: an object or array has each own property replaced, key by key, by its trimmed
   * value and is returned; a string is returned trimmed; anything else is returned as it is.
   */
  method TrimValues(value: Json) returns (r: Json)
    ensures r == Trimmed(value)
    decreases value
  {
    match value {
      case Array(items) =>
        var current := items;
        var i := 0;
        while i < |current|
          invariant 0 <= i <= |current| == |items|
          invariant forall k :: 0 <= k < i ==> current[k] == Trimmed(items[k])
          invariant current[i..] == items[i..]
        {
          var child := TrimValues(items[i]);
          current := current[i := child];
          i := i + 1;
        }
        r := Array(current);
      case Object(entries) =>
        var current := entries;
        var i := 0;
        while i < |current|
          invariant 0 <= i <= |current| == |entries|
          invariant forall k :: 0 <= k < i ==> current[k] == Entry(entries[k].key, Trimmed(entries[k].value))
          invariant current[i..] == entries[i..]
        {
          var child := TrimValues(entries[i].value);
          current := current[i := Entry(current[i].key, child)];
          i := i + 1;
        }
        r := Object(current);
      case Str(s) =>
        r := Str(Trim(s));
      case _ =>
        r := value;
    }
  }

  /** `transform`: the metadata argument plays no part. */
  method Transform<M>(value: Json, metadata: M) returns (r: Json)
    ensures r == Trimmed(value)
  {
    r := TrimValues(value);
  }

  /** Trimming keeps the structure: only string leaves can differ. */
  lemma {:induction false} TrimmedKeepsShape(v: Json)
    ensures SameShape(v, Trimmed(v))
    decreases v
  {
    match v {
      case Array(items) =>
        forall i | 0 <= i < |items|
          ensures SameShape(items[i], Trimmed(v).items[i])
        {
          TrimmedKeepsShape(items[i]);
        }
      case Object(entries) =>
        forall i | 0 <= i < |entries|
          ensures SameShape(entries[i].value, Trimmed(v).entries[i].value)
        {
          TrimmedKeepsShape(entries[i].value);
        }
      case _ =>
    }
  }

  /** After trimming, every string leaf is trimmed. */
  lemma {:induction false} TrimmedTrimsAllStrings(v: Json)
    ensures AllStringsTrimmed(Trimmed(v))
    decreases v
  {
    match v {
      case Array(items) =>
        forall i | 0 <= i < |items|
          ensures AllStringsTrimmed(Trimmed(v).items[i])
        {
          TrimmedTrimsAllStrings(items[i]);
        }
      case Object(entries) =>
        forall i | 0 <= i < |entries|
          ensures AllStringsTrimmed(Trimmed(v).entries[i].value)
        {
          TrimmedTrimsAllStrings(entries[i].value);
        }
      case _ =>
    }
  }

  /** A tree whose strings are all trimmed comes back unchanged. */
  lemma {:induction false} TrimmedFixesTrimmedTrees(v: Json)
    requires AllStringsTrimmed(v)
    ensures Trimmed(v) == v
    decreases v
  {
    match v {
      case Str(s) =>
        TrimKeepsTrimmed(s);
      case Array(items) =>
        forall i | 0 <= i < |items|
          ensures Trimmed(items[i]) == items[i]
        {
          TrimmedFixesTrimmedTrees(items[i]);
        }
        assert Trimmed(v).items == items;
      case Object(entries) =>
        forall i | 0 <= i < |entries|
          ensures Entry(entries[i].key, Trimmed(entries[i].value)) == entries[i]
        {
          TrimmedFixesTrimmedTrees(entries[i].value);
        }
        assert Trimmed(v).entries == entries;
      case _ =>
    }
  }

  /** Running the pipe twice gives what running it once gives. */
  lemma TrimmedIdempotent(v: Json)
    ensures Trimmed(Trimmed(v)) == Trimmed(v)
  {
    TrimmedTrimsAllStrings(v);
    TrimmedFixesTrimmedTrees(Trimmed(v));
  }
}
