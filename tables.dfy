/** Relational tables as Dafny values. A table is the sequence of its rows
    in insertion order; every row carries its SERIAL primary key. */
module Tables {
  import opened Common

  datatype Row<T> = Row(id: nat, data: T)

  type Table<T> = seq<Row<T>>

  /** Keys handed out by a sequence grow with insertion order, so they are
      unique and order rows by creation time. */
  ghost predicate KeysIncreasing<T>(t: Table<T>)
  {
    forall i, j :: 0 <= i < j < |t| ==> t[i].id < t[j].id
  }

  /** Every key of the table was handed out before the sequence reached `next`. */
  ghost predicate KeysBelow<T>(t: Table<T>, next: nat)
  {
    forall i :: 0 <= i < |t| ==> t[i].id < next
  }

  function Min(a: int, b: int): int
  {
    if a <= b then a else b
  }

  /** The position of the row with primary key `key`, as `WHERE id = $n`
      finds it. */
  function IndexOfKey<T>(t: Table<T>, key: nat): (r: Option<nat>)
    ensures r.Some? ==> r.value < |t| && t[r.value].id == key
    ensures r.None? ==> forall i :: 0 <= i < |t| ==> t[i].id != key
  {
    if |t| == 0 then None
    else if t[0].id == key then Some(0)
    else match IndexOfKey(t[1..], key)
      case None => None
      case Some(k) => Some(k + 1)
  }

  /** With unique keys, the row found is the only one carrying that key. */
  lemma IndexOfKeyUnique<T>(t: Table<T>, key: nat, i: nat)
    requires KeysIncreasing(t)
    requires i < |t| && t[i].id == key
    ensures IndexOfKey(t, key) == Some(i)
  {
  }

  /** The position of the first row whose columns satisfy `p`: the row a
      handler takes as `rows[0]` of a `SELECT ... WHERE` without ORDER BY. */
  function FirstWhere<T>(t: Table<T>, p: T -> bool): (r: Option<nat>)
    ensures r.Some? ==> r.value < |t| && p(t[r.value].data)
    ensures r.Some? ==> forall k :: 0 <= k < r.value ==> !p(t[k].data)
    ensures r.None? ==> forall k :: 0 <= k < |t| ==> !p(t[k].data)
  {
    if |t| == 0 then None
    else if p(t[0].data) then Some(0)
    else match FirstWhere(t[1..], p)
      case None => None
      case Some(k) => Some(k + 1)
  }

  /** `SELECT * ... WHERE keep(row)`: the rows that satisfy `keep`, in table order. */
  function Select<T>(t: Table<T>, keep: T -> bool): (r: Table<T>)
    ensures |r| <= |t|
    ensures forall k :: 0 <= k < |r| ==> r[k] in t && keep(r[k].data)
    ensures forall k :: 0 <= k < |t| && keep(t[k].data) ==> t[k] in r
    ensures KeysIncreasing(t) ==> KeysIncreasing(r)
  {
    if |t| == 0 then []
    else
      var rest := Select(t[1..], keep);
      assert forall k :: 0 <= k < |rest| ==> rest[k] in t[1..];
      if keep(t[0].data) then [t[0]] + rest else rest
  }

  /** `LIMIT limit OFFSET offset` over an ordered result: the rows from
      position `offset` on, at most `limit` of them. */
  function Window<T>(rows: seq<T>, limit: nat, offset: nat): (r: seq<T>)
    ensures |r| == if offset >= |rows| then 0 else Min(limit, |rows| - offset)
    ensures |r| <= limit
    ensures forall k :: 0 <= k < |r| ==> offset + k < |rows| && r[k] == rows[offset + k]
  {
    if offset >= |rows| then [] else rows[offset .. offset + Min(limit, |rows| - offset)]
  }

  /** `ORDER BY created_at DESC`: since rows are stored in creation order,
      newest first is the table read backwards. */
  function NewestFirst<T>(t: seq<T>): (r: seq<T>)
    ensures |r| == |t|
    ensures forall k :: 0 <= k < |t| ==> r[k] == t[|t| - 1 - k]
  {
    if |t| == 0 then [] else [t[|t| - 1]] + NewestFirst(t[..|t| - 1])
  }

  /** Reading a table newest first lists its keys in strictly decreasing order. */
  lemma NewestFirstKeysDecrease<T>(t: Table<T>)
    requires KeysIncreasing(t)
    ensures forall i, j :: 0 <= i < j < |t| ==> NewestFirst(t)[i].id > NewestFirst(t)[j].id
  {
    var r := NewestFirst(t);
    forall i, j | 0 <= i < j < |t| ensures r[i].id > r[j].id {
      assert r[i] == t[|t| - 1 - i] && r[j] == t[|t| - 1 - j];
    }
  }
}
