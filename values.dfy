/**
 * Python values as they flow through the interception layer.
 *
 * Widget calls carry arbitrary Python objects (`Any`). The model uses a small
 * JSON-like universe: `None`, booleans, integers, strings, lists, tuples and
 * string-keyed dictionaries (kept in insertion order, as Python dicts are),
 * plus two kinds of callables: an opaque object supplied by the application
 * (a developer callback, a date, ...) and the logging callback that this
 * package itself creates for one wrapped call.
 */
module Values {

  datatype Option<T> = None | Some(value: T)

  /** The Python exceptions the core raises or catches. */
  datatype Error = KeyError | TypeError | ValueError

  datatype Result<T> = Ok(value: T) | Err(error: Error)

  datatype Value =
    | VNone
    | VBool(b: bool)
    | VInt(i: int)
    | VStr(s: string)
    | VList(items: seq<Value>)
    | VTuple(elems: seq<Value>)
    | VDict(entries: seq<(string, Value)>)
    /** Any other object of the application, told apart by its identity. */
    | VOpaque(tag: nat)
    /** The bound `logging_callback_fn` of the event logger built by the same wrapped call. */
    | VLoggingCallback

  /** A Python dict with string keys, in insertion order. */
  type Entries = seq<(string, Value)>

  /** Python truthiness (`bool(v)`); other objects are truthy by default. */
  predicate Truthy(v: Value)
  {
    match v
    case VNone => false
    case VBool(b) => b
    case VInt(i) => i != 0
    case VStr(s) => s != ""
    case VList(items) => items != []
    case VTuple(elems) => elems != []
    case VDict(entries) => entries != []
    case VOpaque(_) => true
    case VLoggingCallback => true
  }

  /** `a` is `b` with some elements left out, the rest in the same order. */
  ghost predicate IsSubsequence<T>(a: seq<T>, b: seq<T>)
    decreases |b|
  {
    if a == [] then true
    else if b == [] then false
    else (a[0] == b[0] && IsSubsequence(a[1..], b[1..])) || IsSubsequence(a, b[1..])
  }

  lemma {:induction false} IsSubsequenceRefl<T>(a: seq<T>)
    ensures IsSubsequence(a, a)
  {
    if a != [] {
      IsSubsequenceRefl(a[1..]);
    }
  }

  /** Deleting one element leaves a subsequence. */
  lemma {:induction false} IsSubsequenceDelete<T>(a: seq<T>, i: nat)
    requires i < |a|
    ensures IsSubsequence(a[..i] + a[i + 1..], a)
  {
    var r := a[..i] + a[i + 1..];
    if i == 0 {
      assert r == a[1..];
      IsSubsequenceRefl(a[1..]);
    } else {
      IsSubsequenceDelete(a[1..], i - 1);
      assert r[0] == a[0];
      assert r[1..] == a[1..][..i - 1] + a[1..][i..];
    }
  }

  lemma {:induction false} IsSubsequenceTrans<T>(a: seq<T>, b: seq<T>, c: seq<T>)
    requires IsSubsequence(a, b) && IsSubsequence(b, c)
    ensures IsSubsequence(a, c)
    decreases |c|
  {
    if a != [] {
      if IsSubsequence(b, c[1..]) {
        IsSubsequenceTrans(a, b, c[1..]);
      } else if a[0] == b[0] && IsSubsequence(a[1..], b[1..]) {
        IsSubsequenceTrans(a[1..], b[1..], c[1..]);
      } else {
        IsSubsequenceTrans(a, b[1..], c[1..]);
      }
    }
  }

  // ---------------------------------------------------------------------------
  // Dictionary operations on insertion-ordered association lists
  // ---------------------------------------------------------------------------

  function Keys<V>(d: seq<(string, V)>): (ks: seq<string>)
    ensures |ks| == |d|
    ensures forall i :: 0 <= i < |d| ==> ks[i] == d[i].0
  {
    seq(|d|, i requires 0 <= i < |d| => d[i].0)
  }

  lemma KeysAppend<V>(a: seq<(string, V)>, b: seq<(string, V)>)
    ensures Keys(a + b) == Keys(a) + Keys(b)
  {
    assert forall i :: 0 <= i < |a + b| ==> Keys(a + b)[i] == (Keys(a) + Keys(b))[i];
  }

  /** A well-formed dict: no key occurs twice. */
  predicate UniqueKeys<V>(d: seq<(string, V)>)
  {
    forall i, j :: 0 <= i < j < |d| ==> d[i].0 != d[j].0
  }

  /** `d[k]` when `k in d`. */
  function Get<V>(d: seq<(string, V)>, k: string): (r: Option<V>)
    ensures r.Some? <==> k in Keys(d)
    ensures r.Some? ==> (k, r.value) in d
  {
    if d == [] then None
    else if d[0].0 == k then Some(d[0].1)
    else
      var r := Get(d[1..], k);
      assert forall i :: 1 <= i < |d| ==> d[1..][i - 1] == d[i];
      assert Keys(d) == [d[0].0] + Keys(d[1..]);
      r
  }

  /** Position of `k` in `d`. */
  function IndexOf<V>(d: seq<(string, V)>, k: string): (i: nat)
    requires k in Keys(d)
    ensures i < |d| && d[i].0 == k
  {
    if d[0].0 == k then 0
    else
      assert Keys(d) == [d[0].0] + Keys(d[1..]);
      1 + IndexOf(d[1..], k)
  }

  /** `del d[k]`: the entry for `k` goes, the others keep their order. */
  function Remove<V>(d: seq<(string, V)>, k: string): (r: seq<(string, V)>)
    ensures k !in Keys(d) ==> r == d
    ensures k in Keys(d) ==> |r| == |d| - 1
    ensures forall i :: 0 <= i < |r| ==> r[i] in d
    ensures forall k' :: k' != k && k' in Keys(d) ==> k' in Keys(r)
    ensures UniqueKeys(d) ==> UniqueKeys(r) && k !in Keys(r)
  {
    if k in Keys(d) then
      var i := IndexOf(d, k);
      DeleteAt(d, i);
      DropAt(d, i)
    else d
  }

  /** `d` without its entry at position `i`. */
  function DropAt<V>(d: seq<(string, V)>, i: nat): seq<(string, V)>
    requires i < |d|
  {
    d[..i] + d[i + 1..]
  }

  /** Dropping the entry at `i` keeps every other entry, in order. */
  lemma DeleteAt<V>(d: seq<(string, V)>, i: nat)
    requires i < |d|
    ensures |DropAt(d, i)| == |d| - 1
    ensures forall j :: 0 <= j < |d| - 1 ==> DropAt(d, i)[j] in d
    ensures forall j :: 0 <= j < |d| && j != i ==> d[j].0 in Keys(DropAt(d, i))
    ensures UniqueKeys(d) ==> UniqueKeys(DropAt(d, i)) && d[i].0 !in Keys(DropAt(d, i))
  {
    var r := DropAt(d, i);
    assert forall j :: 0 <= j < |r| ==> r[j] == if j < i then d[j] else d[j + 1];
    assert forall j :: 0 <= j < |d| && j != i ==> d[j] == r[if j < i then j else j - 1];
  }

  /** `d[k] = v`: an existing key keeps its place, a new key goes last. */
  function Put<V>(d: seq<(string, V)>, k: string, v: V): (r: seq<(string, V)>)
    ensures Keys(r) == if k in Keys(d) then Keys(d) else Keys(d) + [k]
    ensures UniqueKeys(d) ==> UniqueKeys(r)
  {
    if k in Keys(d) then
      var r := d[IndexOf(d, k) := (k, v)];
      assert Keys(r) == Keys(d);
      r
    else
      var r := d + [(k, v)];
      assert Keys(r) == Keys(d) + [k];
      r
  }

  /** In a well-formed dict, the key at position `i` maps to the value there. */
  lemma GetAt<V>(d: seq<(string, V)>, i: nat)
    requires UniqueKeys(d) && i < |d|
    ensures Get(d, d[i].0) == Some(d[i].1)
    decreases i
  {
    if d[0].0 != d[i].0 {
      assert d[1..][i - 1] == d[i];
      GetAt(d[1..], i - 1);
    }
  }

  lemma GetPut<V>(d: seq<(string, V)>, k: string, v: V, k': string)
    requires UniqueKeys(d)
    ensures Get(Put(d, k, v), k') == if k' == k then Some(v) else Get(d, k')
  {
    var r := Put(d, k, v);
    if k' == k {
      var i := if k in Keys(d) then IndexOf(d, k) else |d|;
      assert r[i] == (k, v);
      GetAt(r, i);
    } else if k' in Keys(d) {
      var j := IndexOf(d, k');
      assert r[j] == d[j];
      GetAt(r, j);
      GetAt(d, j);
    }
  }

  lemma GetRemove<V>(d: seq<(string, V)>, k: string, k': string)
    requires UniqueKeys(d)
    ensures Get(Remove(d, k), k') == if k' == k then None else Get(d, k')
  {
    if k in Keys(d) && k' != k && k' in Keys(d) {
      var r := Remove(d, k);
      var i := IndexOf(d, k);
      var j := IndexOf(d, k');
      var j' := if j < i then j else j - 1;
      assert r[j'] == d[j];
    }
  }
}
