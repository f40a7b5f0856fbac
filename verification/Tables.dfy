/** A table: rows in an unordered vector, and the index from key to position. */
module Tables {
  import opened Values
  import opened Conditions

  predicate UniqueKeys(data: seq<Row>) {
    forall i, j :: 0 <= i < j < |data| ==> data[i].key != data[j].key
  }

  /** Vector and index are exact inverses of each other. */
  ghost predicate Exact(data: seq<Row>, keyMap: map<string, nat>) {
    && (forall i :: 0 <= i < |data| ==> data[i].key in keyMap && keyMap[data[i].key] == i)
    && (forall k :: PointsBack(data, keyMap, k))
  }

  /** An entry for k leads to a row with the key k. */
  predicate PointsBack(data: seq<Row>, keyMap: map<string, nat>, k: string) {
    k in keyMap ==> keyMap[k] < |data| && data[keyMap[k]].key == k
  }

  /** A table's vector and its index together. */
  datatype Contents = Contents(data: seq<Row>, keyMap: map<string, nat>)

  ghost predicate Sound(s: Contents) {
    Exact(s.data, s.keyMap)
  }

  function Keys(data: seq<Row>): set<string> {
    set i | 0 <= i < |data| :: data[i].key
  }

  /** Position of a row with this key. */
  ghost function Find(data: seq<Row>, key: string): (i: nat)
    ensures key in Keys(data) ==> i < |data| && data[i].key == key
  {
    if i: nat :| i < |data| && data[i].key == key then i else 0
  }

  lemma FindUnique(data: seq<Row>, i: nat)
    requires UniqueKeys(data) && i < |data|
    ensures Find(data, data[i].key) == i
  {
    assert data[i].key in Keys(data);
  }

  /** The plain key-to-values map that the table stands for. */
  ghost function AsMap(data: seq<Row>): (m: map<string, seq<Int32>>)
    requires UniqueKeys(data)
    ensures m.Keys == Keys(data)
    ensures forall i :: 0 <= i < |data| ==> data[i].key in m && m[data[i].key] == data[i].vals
  {
    map k | k in Keys(data) :: data[Find(data, k)].vals
  }

  lemma ExactKeys(data: seq<Row>, keyMap: map<string, nat>)
    requires Exact(data, keyMap)
    ensures UniqueKeys(data) && keyMap.Keys == Keys(data)
  {
    forall k | k in keyMap ensures k in Keys(data) {
      assert PointsBack(data, keyMap, k);
    }
  }

  /** Being inverse is the same as indexing every row at its own position with no entry left over. */
  lemma {:induction false} ExactIffSizes(data: seq<Row>, keyMap: map<string, nat>)
    ensures Exact(data, keyMap) <==>
      (forall i :: 0 <= i < |data| ==> data[i].key in keyMap && keyMap[data[i].key] == i) && |keyMap| == |data|
  {
    if forall i :: 0 <= i < |data| ==> data[i].key in keyMap && keyMap[data[i].key] == i {
      KeyCount(data);
      if |keyMap| == |data| {
        SubsetSize(Keys(data), keyMap.Keys);
        forall k | k in keyMap ensures keyMap[k] < |data| && data[keyMap[k]].key == k {
          assert k in Keys(data);
        }
      }
      if Exact(data, keyMap) {
        ExactKeys(data, keyMap);
      }
    }
  }

  lemma SubsetSize(a: set<string>, b: set<string>)
    requires a <= b && |a| == |b|
    ensures a == b
  {
    assert |b - a| == |b| - |a|;
  }

  lemma {:induction false} KeyCount(data: seq<Row>)
    requires UniqueKeys(data)
    ensures |Keys(data)| == |data|
  {
    if data != [] {
      var n := |data| - 1;
      KeyCount(data[..n]);
      assert Keys(data) == Keys(data[..n]) + {data[n].key};
    }
  }

  /** Keys fix the index: there is at most one that is exact. */
  lemma ExactUnique(data: seq<Row>, a: map<string, nat>, b: map<string, nat>)
    requires Exact(data, a) && Exact(data, b)
    ensures a == b
  {
    ExactKeys(data, a);
    ExactKeys(data, b);
    forall k | k in a ensures k in b && a[k] == b[k] {
      assert PointsBack(data, a, k);
    }
  }

  /** Looking a key up in an exact index. */
  lemma LookUp(data: seq<Row>, keyMap: map<string, nat>, k: string)
    requires Exact(data, keyMap)
    ensures k in keyMap <==> k in Keys(data)
    ensures k in keyMap ==> keyMap[k] < |data| && data[keyMap[k]].key == k
  {
    assert PointsBack(data, keyMap, k);
  }

  /** Rows that keep their keys keep their index. */
  lemma CellsExact(s: Contents, now: seq<Row>)
    requires Sound(s) && |now| == |s.data| && forall i :: 0 <= i < |now| ==> now[i].key == s.data[i].key
    ensures Exact(now, s.keyMap)
  {
    forall k ensures PointsBack(now, s.keyMap, k) {
      assert PointsBack(s.data, s.keyMap, k);
    }
  }

  lemma InsertExact(s: Contents, row: Row)
    requires Exact(s.data, s.keyMap) && row.key !in s.keyMap
    ensures Exact(s.data + [row], s.keyMap[row.key := |s.data|])
  {
    var d, m := s.data + [row], s.keyMap[row.key := |s.data|];
    forall k ensures PointsBack(d, m, k) {
      assert PointsBack(s.data, s.keyMap, k);
    }
  }

  predicate Entry(m: map<string, seq<Int32>>, r: Row) {
    r.key in m && m[r.key] == r.vals
  }

  /** The rows of a table are the entries of its map. */
  lemma RowInMap(data: seq<Row>, r: Row)
    requires UniqueKeys(data)
    ensures r in data <==> Entry(AsMap(data), r)
  {
    if Entry(AsMap(data), r) {
      var i :| 0 <= i < |data| && data[i].key == r.key;
      assert data[i] == r;
    }
  }

  /** And no other map has those entries. */
  lemma MapFromRows(data: seq<Row>, m: map<string, seq<Int32>>)
    requires UniqueKeys(data)
    requires forall r :: r in data <==> Entry(m, r)
    ensures AsMap(data) == m
  {
    forall k | k in m ensures k in AsMap(data) && AsMap(data)[k] == m[k] {
      assert Entry(m, Row(k, m[k]));
      RowInMap(data, Row(k, m[k]));
    }
    forall k | k in AsMap(data) ensures k in m {
      RowInMap(data, Row(k, AsMap(data)[k]));
      assert Entry(m, Row(k, AsMap(data)[k]));
    }
  }

  // ---------------------------------------------------------------- fields

  /** Position of the first field with this name. */
  ghost predicate FirstField(fields: seq<string>, f: string, i: nat) {
    i < |fields| && fields[i] == f && f !in fields[..i]
  }

  ghost predicate FieldsIndexed(fields: seq<string>, fm: FieldMap) {
    && (forall f :: f in fm ==> FirstField(fields, f, fm[f]))
    && (forall f :: f in fields ==> f in fm)
    && "KEY" !in fm
  }

  function SwapDelete(data: seq<Row>, i: nat): seq<Row>
    requires i < |data|
  {
    data[i := data[|data| - 1]][..|data| - 1]
  }

  lemma SwapDeleteRows(data: seq<Row>, i: nat)
    requires i < |data|
    ensures forall k :: 0 <= k < |data| - 1 ==> SwapDelete(data, i)[k] == data[if k == i then |data| - 1 else k]
  {
  }

  /** deleteDatum on the pair. */
  function Removed(s: Contents, i: nat): Contents
    requires i < |s.data|
  {
    Contents(SwapDelete(s.data, i), s.keyMap[s.data[|s.data| - 1].key := i] - {s.data[i].key})
  }

  /** Moving the last row into the gap, and its index entry with it, keeps both exact. */
  lemma DeleteExact(s: Contents, i: nat)
    requires Sound(s) && i < |s.data|
    ensures Sound(Removed(s, i))
  {
    ExactKeys(s.data, s.keyMap);
    SwapDeleteRows(s.data, i);
    var d, m := Removed(s, i).data, Removed(s, i).keyMap;
    forall k | 0 <= k < |d| ensures d[k].key in m && m[d[k].key] == k {
      assert s.keyMap[d[k].key] == if k == i then |s.data| - 1 else k;
    }
    forall k ensures PointsBack(d, m, k) {
      assert PointsBack(s.data, s.keyMap, k);
    }
  }

  lemma SwapDeleteSteps(data: seq<Row>, i: nat)
    requires i < |data|
    ensures var d := data[i := data[|data| - 1]]; d[..|d| - 1] == SwapDelete(data, i)
  {
  }

  lemma SwapDeleteKeepsUnique(data: seq<Row>, i: nat)
    requires UniqueKeys(data) && i < |data|
    ensures UniqueKeys(SwapDelete(data, i))
  {
    SwapDeleteRows(data, i);
  }

  lemma RowsKept(data: seq<Row>, i: nat, r: Row)
    requires UniqueKeys(data) && i < |data|
    ensures r in SwapDelete(data, i) <==> r in data && r.key != data[i].key
  {
    SwapDeleteRows(data, i);
    var d := SwapDelete(data, i);
    if q :| 0 <= q < |data| && data[q] == r && q != i {
      assert d[if q == |data| - 1 then i else q] == r;
    }
    if p :| 0 <= p < |d| && d[p] == r {
      assert data[if p == i then |data| - 1 else p] == r;
    }
  }

  /** It takes exactly one key out of the plain map. */
  lemma DeleteFromMap(data: seq<Row>, i: nat)
    requires UniqueKeys(data) && i < |data|
    ensures UniqueKeys(SwapDelete(data, i))
    ensures AsMap(SwapDelete(data, i)) == AsMap(data) - {data[i].key}
  {
    SwapDeleteKeepsUnique(data, i);
    var m := AsMap(data) - {data[i].key};
    forall r ensures r in SwapDelete(data, i) <==> Entry(m, r) {
      RowsKept(data, i, r);
      RowInMap(data, r);
    }
    MapFromRows(SwapDelete(data, i), m);
  }

  predicate AllWide(data: seq<Row>, width: nat) {
    forall i :: 0 <= i < |data| ==> |data[i].vals| == width
  }

  /** What deleteDatum relies on: the index finds the row, and the swap keeps the invariants. */
  lemma DeleteKeeps(s: Contents, key: string, width: nat)
    requires Sound(s) && key in Keys(s.data)
    ensures UniqueKeys(s.data) && key in s.keyMap && s.keyMap[key] < |s.data|
    ensures var i := s.keyMap[key];
      && s.data[i].key == key && Find(s.data, key) == i
      && Sound(Removed(s, i)) && UniqueKeys(Removed(s, i).data)
      && AsMap(Removed(s, i).data) == AsMap(s.data) - {key}
      && (AllWide(s.data, width) ==> AllWide(Removed(s, i).data, width))
  {
    IndexFinds(s, key);
    RemovedKeeps(s, s.keyMap[key]);
    if AllWide(s.data, width) {
      SwapDeleteWide(s.data, s.keyMap[key], width);
    }
  }

  lemma IndexFinds(s: Contents, key: string)
    requires Sound(s) && key in Keys(s.data)
    ensures UniqueKeys(s.data) && key in s.keyMap && s.keyMap[key] < |s.data|
    ensures s.data[s.keyMap[key]].key == key && Find(s.data, key) == s.keyMap[key]
  {
    ExactKeys(s.data, s.keyMap);
    LookUp(s.data, s.keyMap, key);
    FindUnique(s.data, s.keyMap[key]);
  }

  lemma RemovedKeeps(s: Contents, i: nat)
    requires Sound(s) && UniqueKeys(s.data) && i < |s.data|
    ensures Sound(Removed(s, i)) && UniqueKeys(Removed(s, i).data)
    ensures AsMap(Removed(s, i).data) == AsMap(s.data) - {s.data[i].key}
  {
    DeleteExact(s, i);
    DeleteFromMap(s.data, i);
  }

  lemma SwapDeleteWide(data: seq<Row>, i: nat, width: nat)
    requires AllWide(data, width) && i < |data|
    ensures AllWide(SwapDelete(data, i), width)
  {
    SwapDeleteRows(data, i);
  }

  const COPY_SUFFIX := "_copy"

  class Table {
    var tableName: string
    var fields: seq<string>
    var fieldMap: FieldMap
    var data: seq<Row>
    var keyMap: map<string, nat>

    ghost predicate Valid()
      reads this
    {
      Exact(data, keyMap) && FieldsIndexed(fields, fieldMap)
    }

    /** Every row has one value per field. Nothing in the program checks this of INSERT. */
    ghost predicate Rectangular()
      reads this
    {
      AllWide(data, |fields|)
    }

    constructor Empty(name: string)
      ensures Valid() && tableName == name && fields == [] && data == [] && keyMap == map[]
    {
      tableName, fields, fieldMap, data, keyMap := name, [], map[], [], map[];
    }

    /** The constructor with fields; None stands for the MultipleKey exception. */
    static method Create(name: string, fields: seq<string>) returns (r: Option<Table>)
      ensures r.None? <==> "KEY" in fields
      ensures r.Some? ==> fresh(r.value) && r.value.Valid()
      ensures r.Some? ==> r.value.tableName == name && r.value.fields == fields && r.value.data == []
    {
      var t := new Table.Empty(name);
      t.fields := fields;
      var i := 0;
      while i < |fields|
        invariant 0 <= i <= |fields|
        invariant "KEY" !in fields[..i] && "KEY" !in t.fieldMap
        invariant forall f :: f in t.fieldMap ==> FirstField(fields, f, t.fieldMap[f])
        invariant forall k :: 0 <= k < i ==> fields[k] in t.fieldMap
        invariant t.data == [] && t.keyMap == map[] && t.fields == fields && t.tableName == name
      {
        if fields[i] == "KEY" {
          return None;
        }
        if fields[i] !in t.fieldMap {
          t.fieldMap := t.fieldMap[fields[i] := i];
        }
        i := i + 1;
      }
      return Some(t);
    }

    /** The copying constructor. */
    constructor Copy(name: string, origin: Table)
      requires origin.Valid()
      ensures Valid() && tableName == name && fields == origin.fields && fieldMap == origin.fieldMap
      ensures data == origin.data && keyMap == origin.keyMap
    {
      tableName, fields, fieldMap := name, origin.fields, origin.fieldMap;
      data, keyMap := origin.data, origin.keyMap;
    }

    /** operator[]: the position of the row with this key. */
    method Lookup(key: string) returns (r: Option<nat>)
      requires Valid()
      ensures r.Some? ==> r.value < |data| && data[r.value].key == key
      ensures r.None? ==> key !in Keys(data)
    {
      LookUp(data, keyMap, key);
      r := if key in keyMap then Some(keyMap[key]) else None;
    }

    /** False stands for the ConflictingKey exception. */
    method InsertByKey(key: string, vals: seq<Int32>) returns (ok: bool)
      requires Valid()
      modifies this`data, this`keyMap
      ensures Valid()
      ensures ok <==> key !in Keys(old(data))
      ensures data == if ok then old(data) + [Row(key, vals)] else old(data)
      ensures keyMap == if ok then old(keyMap)[key := |old(data)|] else old(keyMap)
      ensures old(Rectangular()) && |vals| == |fields| ==> Rectangular()
    {
      LookUp(data, keyMap, key);
      if key in keyMap {
        return false;
      }
      InsertExact(Contents(data, keyMap), Row(key, vals));
      keyMap := keyMap[key := |data|];
      data := data + [Row(key, vals)];
      return true;
    }

    /** Deletes by moving the last row into the gap. */
    method DeleteDatum(key: string)
      requires Valid() && key in Keys(data)
      modifies this`data, this`keyMap
      ensures Valid()
      ensures var i := Find(old(data), key);
        old(data)[i].key == key && Contents(data, keyMap) == Removed(old(Contents(data, keyMap)), i)
      ensures AllWide(old(data), |fields|) ==> AllWide(data, |fields|)
      ensures AsMap(data) == AsMap(old(data)) - {key}
    {
      ghost var s := Contents(data, keyMap);
      LookUp(data, keyMap, key);
      var index := keyMap[key];
      keyMap := keyMap[data[|data| - 1].key := index];
      keyMap := keyMap - {key};
      SwapDeleteSteps(data, index);
      data := data[index := data[|data| - 1]];
      data := data[..|data| - 1];
      assert Contents(data, keyMap) == Removed(s, index);
      DeleteKeeps(s, key, |fields|);
    }

    /** Renames row i. The lookup of the old key must succeed; emplace keeps an entry that the new
        key already has. */
    method SetKey(i: nat, key: string)
      requires i < |data| && data[i].key in keyMap
      modifies this`data, this`keyMap
      ensures Contents(data, keyMap) == Renamed(old(Contents(data, keyMap)), i, key)
    {
      var position := keyMap[data[i].key];
      keyMap := keyMap - {data[i].key};
      if key !in keyMap {
        keyMap := keyMap[key := position];
      }
      data := data[i := data[i].(key := key)];
    }

    /** Writes through an iterator to the cells of row i. */
    method WriteRow(i: nat, row: Row)
      requires Valid() && Rectangular() && i < |data|
      requires row.key == data[i].key && |row.vals| == |data[i].vals|
      modifies this`data
      ensures Valid() && Rectangular()
      ensures data == old(data)[i := row]
    {
      CellsExact(Contents(data, keyMap), data[i := row]);
      data := data[i := row];
    }

    /** Whether the key has no copy yet. */
    method EvalDuplicate(key: string) returns (fits: bool)
      requires Valid()
      ensures fits <==> key + COPY_SUFFIX !in Keys(data)
    {
      LookUp(data, keyMap, key + COPY_SUFFIX);
      fits := key + COPY_SUFFIX !in keyMap;
    }

    /** False stands for the ConflictingKey exception out of insertByKey. */
    method DuplicateByKey(key: string) returns (ok: bool)
      requires Valid() && key in Keys(data)
      modifies this`data, this`keyMap
      ensures Valid()
      ensures ok <==> key + COPY_SUFFIX !in Keys(old(data))
      ensures !ok ==> data == old(data)
      ensures ok ==> data == old(data) + [Row(key + COPY_SUFFIX, AsMap(old(data))[key])]
      ensures old(Rectangular()) ==> Rectangular()
    {
      LookUp(data, keyMap, key);
      var vals := data[keyMap[key]].vals;
      ok := InsertByKey(key + COPY_SUFFIX, vals);
    }

    method Clear() returns (count: nat)
      requires Valid()
      modifies this`data, this`keyMap
      ensures Valid() && data == [] && keyMap == map[] && count == |old(data)|
    {
      ExactIffSizes(data, keyMap);
      count := |keyMap|;
      data := [];
      keyMap := map[];
    }
  }

  // ---------------------------------------------------------------- renaming

  function Renamed(s: Contents, i: nat, key: string): (t: Contents)
    requires i < |s.data| && s.data[i].key in s.keyMap
    ensures |t.data| == |s.data|
  {
    var erased := s.keyMap - {s.data[i].key};
    Contents(s.data[i := s.data[i].(key := key)],
             if key in erased then erased else erased[key := s.keyMap[s.data[i].key]])
  }

  /** Renaming one row keeps the index exact if and only if no other row holds the new key. */
  lemma RenameExact(s: Contents, i: nat, key: string)
    requires Exact(s.data, s.keyMap) && i < |s.data|
    ensures var t := Renamed(s, i, key);
      Exact(t.data, t.keyMap) <==> forall j :: 0 <= j < |s.data| && j != i ==> s.data[j].key != key
  {
    var t := Renamed(s, i, key);
    if j :| 0 <= j < |s.data| && j != i && s.data[j].key == key {
      assert t.data[j].key == t.data[i].key;
    } else {
      assert PointsBack(s.data, s.keyMap, key);
      forall k ensures PointsBack(t.data, t.keyMap, k) {
        assert PointsBack(s.data, s.keyMap, k);
      }
    }
  }
}
