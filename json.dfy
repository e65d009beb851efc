/** Parsed JSON as the upstream content API returns it, and the few Python
    operations the synchronisation loop applies to it: truthiness, `key in d`
    and `d[key]`. */
module Json {
  import opened Wrappers

  /** A JSON value. Objects keep their members in document order, as a Python
      dict does; numbers are integers (floats are not modelled). */
  datatype Value =
    | Null
    | Bool(b: bool)
    | Num(n: int)
    | Str(s: string)
    | Arr(items: seq<Value>)
    | Obj(members: seq<(string, Value)>)

  /** One upstream record: a JSON object's members in order. */
  type Record = seq<(string, Value)>

  /** Python truthiness of a decoded JSON value. */
  predicate Truthy(v: Value)
    ensures !Truthy(v) <==> v in {Null, Bool(false), Num(0), Str(""), Arr([]), Obj([])}
  {
    match v
    case Null => false
    case Bool(b) => b
    case Num(n) => n != 0
    case Str(s) => s != ""
    case Arr(items) => items != []
    case Obj(members) => members != []
  }

  /** A dict or a list: the values that `insert_data_chunk` serialises. */
  predicate IsNested(v: Value) {
    v.Arr? || v.Obj?
  }

  /** `d.get(k)` for a decoded JSON object, so `k in d` is `Lookup(d, k).Some?`.
      `json.loads` keeps the last of repeated keys, so the last member wins. */
  function Lookup(r: Record, k: string): (found: Option<Value>)
    ensures found.Some? ==> (k, found.value) in r
  {
    if r == [] then None
    else if r[|r| - 1].0 == k then Some(r[|r| - 1].1)
    else Lookup(r[..|r| - 1], k)
  }

  /** A key is found exactly when some member carries it, and then the value
      found is that of the last such member. */
  lemma {:induction false} LookupFinds(r: Record, k: string)
    ensures Lookup(r, k).Some? <==> exists i | 0 <= i < |r| :: r[i].0 == k
    ensures Lookup(r, k).Some? ==>
      exists i | 0 <= i < |r| :: r[i] == (k, Lookup(r, k).value) && forall j | i < j < |r| :: r[j].0 != k
  {
    if r != [] && r[|r| - 1].0 != k {
      var init := r[..|r| - 1];
      LookupFinds(init, k);
      assert forall i | 0 <= i < |init| :: r[i] == init[i];
      if Lookup(r, k).Some? {
        var i :| 0 <= i < |init| && init[i] == (k, Lookup(r, k).value) && forall j | i < j < |init| :: init[j].0 != k;
        assert r[i] == (k, Lookup(r, k).value);
        assert forall j | i < j < |r| :: r[j].0 != k by {
          forall j | i < j < |r| ensures r[j].0 != k {
            if j < |init| { assert r[j] == init[j]; }
          }
        }
      }
    } else if r != [] {
      assert r[|r| - 1] == (k, Lookup(r, k).value);
    }
  }

  /** A list whose every element is an object: a batch of records. */
  predicate IsRecordList(v: Value) {
    v.Arr? && forall i | 0 <= i < |v.items| :: v.items[i].Obj?
  }

  /** The records of a record list, in order. */
  function Records(v: Value): (rs: seq<Record>)
    requires IsRecordList(v)
    ensures |rs| == |v.items|
    ensures forall i | 0 <= i < |rs| :: v.items[i] == Obj(rs[i])
  {
    seq(|v.items|, i requires 0 <= i < |v.items| => v.items[i].members)
  }

  /** The integer a Python comparison sees: ints, and bools as 0 and 1. */
  function NumberOf(v: Option<Value>): (n: Option<int>)
    ensures n.Some? <==> v.Some? && (v.value.Num? || v.value.Bool?)
    ensures v == Some(Bool(false)) ==> n == Some(0)
    ensures v == Some(Bool(true)) ==> n == Some(1)
    ensures forall x :: v == Some(Num(x)) ==> n == Some(x)
  {
    match v
    case Some(Num(n)) => Some(n)
    case Some(Bool(b)) => Some(if b then 1 else 0)
    case _ => None
  }
}
