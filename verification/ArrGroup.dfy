/** Grouping rows by fields, one field after the other. */
module ArrGroup {
  import opened Text

  /** A cell: an integer, a string, or any other scalar with its string form. */
  datatype Value = Long(n: int) | Str(s: string) | Other(text: string)

  type Cells = map<string, Value>

  /** An element of the row list; what is not an array is no row. */
  datatype Item = Row(cells: Cells) | NoRow

  /** The key a cell gives: integers as they are, all else as strings. */
  function Key(v: Value): Value {
    if v.Other? then Str(v.text) else v
  }

  predicate Carries(item: Item, field: string) {
    item.Row? && field in item.cells
  }

  /** Reading a key converts the cell in place. */
  function Converted(item: Item, field: string): Item
    requires Carries(item, field)
  {
    Row(item.cells[field := Key(item.cells[field])])
  }

  datatype Bucket = Bucket(key: Value, rows: seq<Item>)

  /** The place of a key among the buckets, or their number. */
  function Place(buckets: seq<Bucket>, key: Value): (i: nat)
    ensures i <= |buckets|
    ensures i < |buckets| ==> buckets[i].key == key
    ensures forall j :: 0 <= j < i ==> buckets[j].key != key
  {
    if buckets == [] || buckets[0].key == key then 0 else 1 + Place(buckets[1..], key)
  }

  function Append(buckets: seq<Bucket>, key: Value, row: Item): seq<Bucket> {
    var i := Place(buckets, key);
    if i < |buckets| then buckets[i := Bucket(key, buckets[i].rows + [row])]
    else buckets + [Bucket(key, [row])]
  }

  function GroupItems(rows: seq<Item>, field: string): seq<Bucket> {
    if rows == [] then []
    else
      var before, row := GroupItems(rows[..|rows| - 1], field), rows[|rows| - 1];
      if Carries(row, field) then Append(before, Key(row.cells[field]), Converted(row, field)) else before
  }

  function Contents(buckets: seq<Bucket>): seq<seq<Item>> {
    seq(|buckets|, i requires 0 <= i < |buckets| => buckets[i].rows)
  }

  /** Every group split by one field. */
  function SplitAll(groups: seq<seq<Item>>, field: string): seq<seq<Item>> {
    if groups == [] then []
    else SplitAll(groups[..|groups| - 1], field) + Contents(GroupItems(groups[|groups| - 1], field))
  }

  /** Splitting by the fields in turn. */
  function GroupGroups(groups: seq<seq<Item>>, fields: seq<string>): seq<seq<Item>> {
    if fields == [] then groups
    else SplitAll(GroupGroups(groups, fields[..|fields| - 1]), fields[|fields| - 1])
  }

  function GroupRows(rows: seq<Item>, fields: seq<string>): seq<seq<Item>> {
    GroupGroups([rows], fields)
  }

  // ------------------------------------------------------------ the algorithm

  method ComputeGroupItems(rows: seq<Item>, field: string) returns (buckets: seq<Bucket>)
    ensures buckets == GroupItems(rows, field)
  {
    buckets := [];
    for k := 0 to |rows|
      invariant buckets == GroupItems(rows[..k], field)
    {
      var row := rows[k];
      assert rows[..k + 1][..k] == rows[..k];
      if Carries(row, field) {
        var key, i := Key(row.cells[field]), 0;
        while i < |buckets| && buckets[i].key != key
          invariant 0 <= i <= |buckets|
          invariant forall j :: 0 <= j < i ==> buckets[j].key != key
        {
          i := i + 1;
        }
        ghost var was, p := buckets, Place(buckets, key);
        assert p == i;
        assert rows[..k + 1][k] == row;
        if i == |buckets| {
          buckets := buckets + [Bucket(key, [])];
        }
        buckets := buckets[i := Bucket(key, buckets[i].rows + [Converted(row, field)])];
        assert [] + [Converted(row, field)] == [Converted(row, field)];
        assert buckets == Append(was, key, Converted(row, field));
      }
    }
    assert rows[..|rows|] == rows;
  }

  method ComputeGroupRows(rows: seq<Item>, fields: seq<string>) returns (groups: seq<seq<Item>>)
    ensures groups == GroupRows(rows, fields)
  {
    groups := [rows];
    for k := 0 to |fields|
      invariant groups == GroupRows(rows, fields[..k])
    {
      assert fields[..k + 1][..k] == fields[..k];
      var collection := [];
      for g := 0 to |groups|
        invariant collection == SplitAll(groups[..g], fields[k])
      {
        assert groups[..g + 1][..g] == groups[..g];
        var buckets := ComputeGroupItems(groups[g], fields[k]);
        for b := 0 to |buckets|
          invariant collection == SplitAll(groups[..g], fields[k]) + Contents(buckets[..b])
        {
          collection := collection + [buckets[b].rows];
        }
        assert buckets[..|buckets|] == buckets;
      }
      assert groups[..|groups|] == groups;
      groups := collection;
    }
    assert fields[..|fields|] == fields;
  }

  // -------------------------------------------------------- one field's buckets

  /** The rows whose key for a field is `key`, converted, in their order. */
  function WithKey(rows: seq<Item>, field: string, key: Value): seq<Item> {
    if rows == [] then []
    else
      var row := rows[|rows| - 1];
      WithKey(rows[..|rows| - 1], field, key) +
      if Carries(row, field) && Key(row.cells[field]) == key then [Converted(row, field)] else []
  }

  ghost predicate DistinctKeys(buckets: seq<Bucket>) {
    forall i, j :: 0 <= i < j < |buckets| ==> buckets[i].key != buckets[j].key
  }

  predicate HasKey(buckets: seq<Bucket>, key: Value) {
    Place(buckets, key) < |buckets|
  }

  function RowsOf(buckets: seq<Bucket>, key: Value): seq<Item> {
    if HasKey(buckets, key) then buckets[Place(buckets, key)].rows else []
  }

  lemma PlaceIs(buckets: seq<Bucket>, key: Value, i: nat)
    requires i < |buckets| && buckets[i].key == key && DistinctKeys(buckets)
    ensures Place(buckets, key) == i
  {
    var p := Place(buckets, key);
    assert p <= i;
  }

  lemma AppendExtendsOneBucket(before: seq<Bucket>, key: Value, row: Item, k: Value)
    requires DistinctKeys(before)
    ensures var b := Append(before, key, row);
      && DistinctKeys(b)
      && (HasKey(b, k) <==> HasKey(before, k) || k == key)
      && RowsOf(b, k) == if k == key then RowsOf(before, k) + [row] else RowsOf(before, k)
  {
    var b, p, q := Append(before, key, row), Place(before, key), Place(before, k);
    assert DistinctKeys(b);
    assert b[p].key == key;
    if k == key {
      PlaceIs(b, k, p);
      assert [] + [row] == [row];
    } else if q < |before| {
      assert b[q].key == k;
      PlaceIs(b, k, q);
    }
  }

  /** The buckets of a field: each key once, and with it its rows. */
  lemma {:induction false} BucketsAreKeyed(rows: seq<Item>, field: string, k: Value)
    ensures var b := GroupItems(rows, field);
      DistinctKeys(b) && RowsOf(b, k) == WithKey(rows, field, k) && (HasKey(b, k) <==> WithKey(rows, field, k) != [])
  {
    if rows != [] {
      var init, row := rows[..|rows| - 1], rows[|rows| - 1];
      BucketsAreKeyed(init, field, k);
      if Carries(row, field) {
        AppendExtendsOneBucket(GroupItems(init, field), Key(row.cells[field]), Converted(row, field), k);
      }
    }
  }

  // -------------------------------------------------------- grouping by tuples

  predicate CarriesAll(item: Item, fields: seq<string>) {
    item.Row? && forall f :: f in fields ==> f in item.cells
  }

  /** The normalised values of the grouping fields. */
  function Tuple(item: Item, fields: seq<string>): seq<Value>
    requires CarriesAll(item, fields)
  {
    seq(|fields|, i requires 0 <= i < |fields| => Key(item.cells[fields[i]]))
  }

  /** A row after all its keys were read. */
  function Normal(item: Item, fields: seq<string>): (r: Item)
    requires CarriesAll(item, fields)
    ensures r.Row? && r.cells.Keys == item.cells.Keys
    ensures forall f :: f in item.cells ==> r.cells[f] == if f in fields then Key(item.cells[f]) else item.cells[f]
  {
    if fields == [] then item
    else
      var f := fields[|fields| - 1];
      Converted(Normal(item, fields[..|fields| - 1]), f)
  }

  /** The rows with a given tuple, normalised, in their order: what grouping by
      the whole tuple at once would collect. */
  function Select(rows: seq<Item>, fields: seq<string>, tuple: seq<Value>): seq<Item> {
    if rows == [] then []
    else
      var row := rows[|rows| - 1];
      Select(rows[..|rows| - 1], fields, tuple) +
      if CarriesAll(row, fields) && Tuple(row, fields) == tuple then [Normal(row, fields)] else []
  }

  ghost predicate Distinct(tuples: seq<seq<Value>>) {
    forall i, j :: 0 <= i < j < |tuples| ==> tuples[i] != tuples[j]
  }

  /** The groups are exactly the classes of rows with equal tuples. */
  ghost predicate Partition(rows: seq<Item>, fields: seq<string>, groups: seq<seq<Item>>, tuples: seq<seq<Value>>) {
    && |groups| == |tuples|
    && Distinct(tuples)
    && (forall i :: 0 <= i < |groups| ==> |tuples[i]| == |fields| && groups[i] == Select(rows, fields, tuples[i]))
    && (fields != [] ==> forall i :: 0 <= i < |groups| ==> groups[i] != [])
    && (forall r :: r in rows && CarriesAll(r, fields) ==> Tuple(r, fields) in tuples)
  }

  lemma {:induction false} CarriesOneMore(row: Item, fields: seq<string>, f: string)
    ensures CarriesAll(row, fields + [f]) <==> CarriesAll(row, fields) && Carries(row, f)
    ensures CarriesAll(row, fields + [f]) ==>
      && Tuple(row, fields + [f]) == Tuple(row, fields) + [Key(row.cells[f])]
      && Carries(Normal(row, fields), f)
      && Key(Normal(row, fields).cells[f]) == Key(row.cells[f])
      && Normal(row, fields + [f]) == Converted(Normal(row, fields), f)
  {
    assert (fields + [f])[..|fields|] == fields;
    assert f in fields + [f];
    if CarriesAll(row, fields + [f]) {
      assert forall g :: g in fields ==> g in fields + [f];
    }
  }

  /** Splitting a class by one more field gives the classes of the longer tuple. */
  lemma {:induction false} SelectOneMore(rows: seq<Item>, fields: seq<string>, tuple: seq<Value>, f: string, key: Value)
    requires |tuple| == |fields|
    ensures WithKey(Select(rows, fields, tuple), f, key) == Select(rows, fields + [f], tuple + [key])
  {
    if rows != [] {
      var init, row := rows[..|rows| - 1], rows[|rows| - 1];
      SelectOneMore(init, fields, tuple, f, key);
      CarriesOneMore(row, fields, f);
      var before := Select(init, fields, tuple);
      if CarriesAll(row, fields) && Tuple(row, fields) == tuple {
        assert (before + [Normal(row, fields)])[..|before|] == before;
      } else {
        assert before + [] == before;
      }
      if CarriesAll(row, fields + [f]) {
        assert (Tuple(row, fields) + [Key(row.cells[f])])[..|fields|] == Tuple(row, fields);
        assert (tuple + [key])[..|fields|] == tuple;
        assert Tuple(row, fields + [f]) == tuple + [key] <==> Tuple(row, fields) == tuple && Key(row.cells[f]) == key;
      }
    }
  }

  /** The tuples of the groups after one more split. */
  function SplitTuples(groups: seq<seq<Item>>, tuples: seq<seq<Value>>, f: string): seq<seq<Value>>
    requires |groups| == |tuples|
  {
    if groups == [] then []
    else
      var n := |groups| - 1;
      var b := GroupItems(groups[n], f);
      SplitTuples(groups[..n], tuples[..n], f) + Extended(tuples[n], b)
  }

  /** A tuple with the key of each bucket. */
  function Extended(tuple: seq<Value>, b: seq<Bucket>): (t: seq<seq<Value>>)
    ensures |t| == |b| && forall i :: 0 <= i < |b| ==> t[i] == tuple + [b[i].key]
  {
    seq(|b|, i requires 0 <= i < |b| => tuple + [b[i].key])
  }

  /** Group `g` with tuple `t` comes from the i-th group by a split on `f`. */
  ghost predicate ComesFrom(groups: seq<seq<Item>>, tuples: seq<seq<Value>>, f: string, i: nat, t: seq<Value>,
                            g: seq<Item>)
    requires |groups| == |tuples|
  {
    && i < |groups| && t != [] && t[..|t| - 1] == tuples[i]
    && g == WithKey(groups[i], f, t[|t| - 1]) && g != []
  }

  ghost predicate Splits(groups: seq<seq<Item>>, tuples: seq<seq<Value>>, f: string, t: seq<seq<Value>>,
                         g: seq<seq<Item>>)
    requires |groups| == |tuples|
  {
    |t| == |g| && forall j :: 0 <= j < |g| ==> HasOrigin(groups, tuples, f, t[j], g[j])
  }

  ghost predicate HasOrigin(groups: seq<seq<Item>>, tuples: seq<seq<Value>>, f: string, t: seq<Value>, g: seq<Item>)
    requires |groups| == |tuples|
  {
    exists i: nat :: ComesFrom(groups, tuples, f, i, t, g)
  }

  /** Every key that occurs in a group gives a tuple. */
  ghost predicate Covered(groups: seq<seq<Item>>, tuples: seq<seq<Value>>, f: string, t: seq<seq<Value>>)
    requires |groups| == |tuples|
  {
    forall i, k :: 0 <= i < |groups| && WithKey(groups[i], f, k) != [] ==> tuples[i] + [k] in t
  }

  /** What a split makes of distinct groups. */
  ghost predicate Shape(groups: seq<seq<Item>>, tuples: seq<seq<Value>>, f: string, t: seq<seq<Value>>,
                        g: seq<seq<Item>>)
    requires |groups| == |tuples|
  {
    Splits(groups, tuples, f, t, g) && (Distinct(tuples) ==> Distinct(t)) && Covered(groups, tuples, f, t)
  }

  /** What one group contributes. */
  lemma {:induction false} SplitOne(group: seq<Item>, tuple: seq<Value>, f: string)
    ensures Shape([group], [tuple], f, Extended(tuple, GroupItems(group, f)), Contents(GroupItems(group, f)))
  {
    var b := GroupItems(group, f);
    var t := Extended(tuple, b);
    assert forall j :: 0 <= j < |t| ==> t[j][|tuple|] == b[j].key;
    forall j | 0 <= j < |b|
      ensures HasOrigin([group], [tuple], f, t[j], b[j].rows)
    {
      BucketsAreKeyed(group, f, b[j].key);
      PlaceIs(b, b[j].key, j);
      assert ComesFrom([group], [tuple], f, 0, t[j], b[j].rows);
    }
    BucketsAreKeyed(group, f, Long(0));
    forall k | WithKey(group, f, k) != []
      ensures tuple + [k] in t
    {
      BucketsAreKeyed(group, f, k);
      assert t[Place(b, k)] == tuple + [k];
    }
  }

  lemma OriginRemains(groups: seq<seq<Item>>, tuples: seq<seq<Value>>, more: seq<seq<Item>>,
                      moreTuples: seq<seq<Value>>,
                      f: string, t: seq<Value>, g: seq<Item>)
    requires |groups| == |tuples| && |more| == |moreTuples|
    ensures HasOrigin(groups, tuples, f, t, g) ==> HasOrigin(groups + more, tuples + moreTuples, f, t, g)
    ensures HasOrigin(more, moreTuples, f, t, g) ==> HasOrigin(groups + more, tuples + moreTuples, f, t, g)
  {
    hide WithKey;
    if HasOrigin(groups, tuples, f, t, g) {
      var i: nat :| ComesFrom(groups, tuples, f, i, t, g);
      assert ComesFrom(groups + more, tuples + moreTuples, f, i, t, g);
    }
    if HasOrigin(more, moreTuples, f, t, g) {
      var i: nat :| ComesFrom(more, moreTuples, f, i, t, g);
      assert ComesFrom(groups + more, tuples + moreTuples, f, |groups| + i, t, g);
    }
  }

  /** Tuples from distinct origins are distinct. */
  lemma OriginsDiffer(groups: seq<seq<Item>>, tuples: seq<seq<Value>>, more: seq<seq<Item>>,
                      moreTuples: seq<seq<Value>>,
                      f: string, t: seq<Value>, g: seq<Item>, u: seq<Value>, h: seq<Item>)
    requires |groups| == |tuples| && |more| == |moreTuples| && Distinct(tuples + moreTuples)
    requires HasOrigin(groups, tuples, f, t, g) && HasOrigin(more, moreTuples, f, u, h)
    ensures t != u
  {
    hide WithKey;
    var i: nat :| ComesFrom(groups, tuples, f, i, t, g);
    var j: nat :| ComesFrom(more, moreTuples, f, j, u, h);
    assert (tuples + moreTuples)[i] != (tuples + moreTuples)[|tuples| + j];
  }

  lemma DistinctParts(tuples: seq<seq<Value>>, more: seq<seq<Value>>)
    requires Distinct(tuples + more)
    ensures Distinct(tuples) && Distinct(more)
  {
    var all := tuples + more;
    assert forall i :: 0 <= i < |tuples| ==> all[i] == tuples[i];
    assert forall i :: 0 <= i < |more| ==> all[|tuples| + i] == more[i];
  }

  /** The splits of two lists of groups, one behind the other, are the split of the whole list. */
  lemma ShapesJoin(groups: seq<seq<Item>>, tuples: seq<seq<Value>>, more: seq<seq<Item>>, moreTuples: seq<seq<Value>>,
                   f: string, t: seq<seq<Value>>, g: seq<seq<Item>>, u: seq<seq<Value>>, h: seq<seq<Item>>)
    requires |groups| == |tuples| && |more| == |moreTuples|
    requires Shape(groups, tuples, f, t, g) && Shape(more, moreTuples, f, u, h)
    ensures Shape(groups + more, tuples + moreTuples, f, t + u, g + h)
  {
    var all, allTuples, tu, gh := groups + more, tuples + moreTuples, t + u, g + h;
    forall j | 0 <= j < |gh|
      ensures HasOrigin(all, allTuples, f, tu[j], gh[j])
    {
      OriginRemains(groups, tuples, more, moreTuples, f, tu[j], gh[j]);
    }
    if Distinct(allTuples) {
      DistinctParts(tuples, moreTuples);
      forall i, j | 0 <= i < j < |tu|
        ensures tu[i] != tu[j]
      {
        if i < |t| <= j {
          OriginsDiffer(groups, tuples, more, moreTuples, f, t[i], g[i], u[j - |t|], h[j - |t|]);
        }
      }
    }
    hide HasOrigin, Distinct, WithKey;
    assert forall i :: 0 <= i < |all| ==>
        if i < |groups| then all[i] == groups[i] && allTuples[i] == tuples[i]
        else all[i] == more[i - |groups|] && allTuples[i] == moreTuples[i - |groups|];
  }

  lemma {:induction false} SplitShape(groups: seq<seq<Item>>, tuples: seq<seq<Value>>, f: string)
    requires |groups| == |tuples|
    ensures Shape(groups, tuples, f, SplitTuples(groups, tuples, f), SplitAll(groups, f))
  {
    if groups != [] {
      var n := |groups| - 1;
      SplitShape(groups[..n], tuples[..n], f);
      SplitOne(groups[n], tuples[n], f);
      hide Shape;
      ShapesJoin(groups[..n], tuples[..n], [groups[n]], [tuples[n]], f,
                 SplitTuples(groups[..n], tuples[..n], f), SplitAll(groups[..n], f),
                 Extended(tuples[n], GroupItems(groups[n], f)), Contents(GroupItems(groups[n], f)));
      assert groups == groups[..n] + [groups[n]] && tuples == tuples[..n] + [tuples[n]];
    }
  }

  lemma {:induction false} SplitGivesClasses(rows: seq<Item>, fields: seq<string>, groups: seq<seq<Item>>,
                                             tuples: seq<seq<Value>>, f: string, t: seq<Value>, g: seq<Item>)
    requires Partition(rows, fields, groups, tuples) && HasOrigin(groups, tuples, f, t, g)
    ensures |t| == |fields + [f]| && g == Select(rows, fields + [f], t) && g != []
  {
    hide Select, WithKey;
    var i: nat :| ComesFrom(groups, tuples, f, i, t, g);
    SelectOneMore(rows, fields, tuples[i], f, t[|t| - 1]);
    assert t == tuples[i] + [t[|t| - 1]];
  }

  lemma {:induction false} SplitCovers(rows: seq<Item>, fields: seq<string>, groups: seq<seq<Item>>,
                                       tuples: seq<seq<Value>>, f: string, r: Item)
    requires Partition(rows, fields, groups, tuples)
    requires Covered(groups, tuples, f, SplitTuples(groups, tuples, f))
    requires r in rows && CarriesAll(r, fields + [f])
    ensures Tuple(r, fields + [f]) in SplitTuples(groups, tuples, f)
  {
    CarriesOneMore(r, fields, f);
    var i :| 0 <= i < |tuples| && tuples[i] == Tuple(r, fields);
    var key := Key(r.cells[f]);
    SelectOneMore(rows, fields, tuples[i], f, key);
    SelectHolds(rows, fields + [f], r);
    assert WithKey(groups[i], f, key) != [];
  }

  /** One more field keeps the partition exact. */
  lemma {:induction false} SplitKeepsPartition(rows: seq<Item>, fields: seq<string>, groups: seq<seq<Item>>,
                                               tuples: seq<seq<Value>>, f: string)
    requires Partition(rows, fields, groups, tuples)
    ensures Partition(rows, fields + [f], SplitAll(groups, f), SplitTuples(groups, tuples, f))
  {
    hide SplitAll, SplitTuples, Select, WithKey;
    var g, t := SplitAll(groups, f), SplitTuples(groups, tuples, f);
    SplitShape(groups, tuples, f);
    forall j | 0 <= j < |g|
      ensures |t[j]| == |fields + [f]| && g[j] == Select(rows, fields + [f], t[j]) && g[j] != []
    {
      SplitGivesClasses(rows, fields, groups, tuples, f, t[j], g[j]);
    }
    forall r | r in rows && CarriesAll(r, fields + [f])
      ensures Tuple(r, fields + [f]) in t
    {
      SplitCovers(rows, fields, groups, tuples, f, r);
    }
  }

  /** A row that carries the fields is in the class of its tuple. */
  lemma {:induction false} SelectHolds(rows: seq<Item>, fields: seq<string>, r: Item)
    requires r in rows && CarriesAll(r, fields)
    ensures Normal(r, fields) in Select(rows, fields, Tuple(r, fields))
  {
    var init, row := rows[..|rows| - 1], rows[|rows| - 1];
    if r == row {
      var s := Select(rows, fields, Tuple(r, fields));
      assert s[|s| - 1] == Normal(r, fields);
    } else {
      assert r in init;
      SelectHolds(init, fields, r);
    }
  }

  function GroupTuples(rows: seq<Item>, fields: seq<string>): (t: seq<seq<Value>>)
    ensures |t| == |GroupRows(rows, fields)|
  {
    if fields == [] then [[]]
    else
      var init := fields[..|fields| - 1];
      SplitShape(GroupRows(rows, init), GroupTuples(rows, init), fields[|fields| - 1]);
      assert Shape(GroupRows(rows, init), GroupTuples(rows, init), fields[|fields| - 1],
                   SplitTuples(GroupRows(rows, init), GroupTuples(rows, init), fields[|fields| - 1]),
                   GroupRows(rows, fields));
      SplitTuples(GroupRows(rows, init), GroupTuples(rows, init), fields[|fields| - 1])
  }

  lemma {:induction false} AllRowsSelected(rows: seq<Item>)
    requires forall r :: r in rows ==> r.Row?
    ensures Select(rows, [], []) == rows
  {
    if rows != [] {
      var init, row := rows[..|rows| - 1], rows[|rows| - 1];
      assert row in rows && forall r :: r in init ==> r in rows;
      AllRowsSelected(init);
      assert CarriesAll(row, []) && Tuple(row, []) == [] && Normal(row, []) == row;
      hide CarriesAll, Tuple, Normal;
      assert rows == init + [row];
    }
  }

  lemma {:induction false} RowsArePartition(rows: seq<Item>, fields: seq<string>)
    requires forall r :: r in rows ==> r.Row?
    ensures Partition(rows, fields, GroupRows(rows, fields), GroupTuples(rows, fields))
  {
    if fields == [] {
      AllRowsSelected(rows);
      forall r | r in rows && CarriesAll(r, fields)
        ensures Tuple(r, fields) in [[]]
      {
        assert Tuple(r, fields) == [];
      }
    } else {
      var init, f := fields[..|fields| - 1], fields[|fields| - 1];
      RowsArePartition(rows, init);
      SplitKeepsPartition(rows, init, GroupRows(rows, init), GroupTuples(rows, init), f);
      assert init + [f] == fields;
    }
  }

  function OnlyRows(rows: seq<Item>): seq<Item> {
    if rows == [] then []
    else OnlyRows(rows[..|rows| - 1]) + if rows[|rows| - 1].Row? then [rows[|rows| - 1]] else []
  }

  lemma {:induction false} OnlyRowsAreRows(rows: seq<Item>)
    ensures forall x :: x in OnlyRows(rows) ==> x.Row?
  {
    if rows != [] {
      OnlyRowsAreRows(rows[..|rows| - 1]);
    }
  }

  lemma {:induction false} OthersAreDropped(rows: seq<Item>, f: string, fields: seq<string>, tuple: seq<Value>)
    ensures GroupItems(OnlyRows(rows), f) == GroupItems(rows, f)
    ensures Select(OnlyRows(rows), fields, tuple) == Select(rows, fields, tuple)
  {
    if rows != [] {
      var init, row := rows[..|rows| - 1], rows[|rows| - 1];
      OthersAreDropped(init, f, fields, tuple);
      if row.Row? {
        assert OnlyRows(rows)[..|OnlyRows(rows)| - 1] == OnlyRows(init);
      } else {
        assert OnlyRows(rows) == OnlyRows(init);
      }
    }
  }

  lemma {:induction false} GroupsOfRowsOnly(rows: seq<Item>, fields: seq<string>)
    requires fields != []
    ensures GroupRows(OnlyRows(rows), fields) == GroupRows(rows, fields)
  {
    var init, f := fields[..|fields| - 1], fields[|fields| - 1];
    if init == [] {
      OthersAreDropped(rows, f, [], []);
      var a, b := [OnlyRows(rows)], [rows];
      assert a[..0] == [] && b[..0] == [];
      assert GroupGroups(a, init) == a && GroupGroups(b, init) == b;
      assert a[0] == OnlyRows(rows) && b[0] == rows;
      assert SplitAll(a, f) == SplitAll([], f) + Contents(GroupItems(a[0], f));
      assert SplitAll(b, f) == SplitAll([], f) + Contents(GroupItems(b[0], f));
    } else {
      GroupsOfRowsOnly(rows, init);
    }
  }

  lemma {:induction false} CarriersAreRows(rows: seq<Item>, fields: seq<string>)
    ensures forall r :: r in rows && CarriesAll(r, fields) ==> r in OnlyRows(rows)
  {
    if rows != [] {
      var init, last := rows[..|rows| - 1], rows[|rows| - 1];
      CarriersAreRows(init, fields);
      assert forall r :: r in rows ==> r in init || r == last;
    }
  }

  /** Group partition: for all row lists and fields, the final groups are the
      classes of the rows that carry every field, each class once and with its
      tuple, in row order, and none of them empty. Elements that are no arrays
      are dropped by the first split. */
  lemma GroupsArePartition(rows: seq<Item>, fields: seq<string>)
    requires fields != [] || forall r :: r in rows ==> r.Row?
    ensures Partition(rows, fields, GroupRows(rows, fields), GroupTuples(OnlyRows(rows), fields))
  {
    var some := OnlyRows(rows);
    OnlyRowsAreRows(rows);
    RowsArePartition(some, fields);
    if fields == [] {
      OnlyRowsIsAll(rows);
    } else {
      hide GroupRows, GroupTuples, OnlyRows, Select, Partition, CarriesAll;
      GroupsOfRowsOnly(rows, fields);
      CarriersAreRows(rows, fields);
      forall t: seq<Value>
        ensures Select(some, fields, t) == Select(rows, fields, t)
      {
        OthersAreDropped(rows, "", fields, t);
      }
      SamePartition(rows, some, fields, GroupRows(rows, fields), GroupTuples(some, fields));
    }
  }

  lemma SamePartition(rows: seq<Item>, some: seq<Item>, fields: seq<string>, groups: seq<seq<Item>>,
                      tuples: seq<seq<Value>>)
    requires Partition(some, fields, groups, tuples)
    requires forall t: seq<Value> :: Select(some, fields, t) == Select(rows, fields, t)
    requires forall r :: r in rows && CarriesAll(r, fields) ==> r in some
    ensures Partition(rows, fields, groups, tuples)
  {
    hide Select, CarriesAll, Tuple, Distinct;
  }

  lemma {:induction false} OnlyRowsIsAll(rows: seq<Item>)
    requires forall r :: r in rows ==> r.Row?
    ensures OnlyRows(rows) == rows
  {
    if rows != [] {
      var init, last := rows[..|rows| - 1], rows[|rows| - 1];
      assert forall r :: r in init ==> r in rows;
      OnlyRowsIsAll(init);
      assert last in rows && rows == init + [last];
    }
  }

  /** In a class every row shows the tuple in its grouping fields. */
  lemma {:induction false} ClassIsHomogeneous(rows: seq<Item>, fields: seq<string>, tuple: seq<Value>, r: Item)
    requires |tuple| == |fields| && r in Select(rows, fields, tuple)
    ensures r.Row? && forall i :: 0 <= i < |fields| ==> fields[i] in r.cells && r.cells[fields[i]] == tuple[i]
  {
    var init, row := rows[..|rows| - 1], rows[|rows| - 1];
    if r in Select(init, fields, tuple) {
      ClassIsHomogeneous(init, fields, tuple, r);
    }
  }

  // ---------------------------------------------- against grouping in one pass

  /** The tuples that occur, in order of first appearance. */
  function TuplesOf(rows: seq<Item>, fields: seq<string>): seq<seq<Value>> {
    if rows == [] then []
    else
      var before, row := TuplesOf(rows[..|rows| - 1], fields), rows[|rows| - 1];
      if CarriesAll(row, fields) && Tuple(row, fields) !in before then before + [Tuple(row, fields)] else before
  }

  /** Grouping by the whole tuple at once. */
  function GroupByTuple(rows: seq<Item>, fields: seq<string>): seq<seq<Item>> {
    var t := TuplesOf(rows, fields);
    seq(|t|, i requires 0 <= i < |t| => Select(rows, fields, t[i]))
  }

  lemma {:induction false} TuplesOfRows(rows: seq<Item>, fields: seq<string>)
    ensures Distinct(TuplesOf(rows, fields))
    ensures forall t :: t in TuplesOf(rows, fields) <==> |t| == |fields| && Select(rows, fields, t) != []
  {
    if rows != [] {
      var init, row := rows[..|rows| - 1], rows[|rows| - 1];
      TuplesOfRows(init, fields);
      var before := TuplesOf(init, fields);
      assert forall t :: t in TuplesOf(rows, fields) <==>
          t in before || (CarriesAll(row, fields) && Tuple(row, fields) == t);
    }
  }

  lemma {:induction false} DistinctLength(a: seq<seq<Value>>, b: seq<seq<Value>>)
    requires Distinct(a) && Distinct(b) && forall t :: t in a <==> t in b
    ensures |a| == |b|
  {
    assert |b| > 0 ==> b[0] in b;
    if a != [] {
      var t := a[0];
      assert t in b;
      var k :| 0 <= k < |b| && b[k] == t;
      var rest := b[..k] + b[k + 1..];
      forall x
        ensures x in a[1..] <==> x in rest
      {
        if x in a[1..] {
          var i :| 0 <= i < |a[1..]| && a[1..][i] == x;
          assert a[i + 1] == x && x != t && x in b;
          var j :| 0 <= j < |b| && b[j] == x;
          assert x == if j < k then rest[j] else rest[j - 1];
        }
        if x in rest {
          var j :| 0 <= j < |rest| && rest[j] == x;
          assert x == if j < k then b[j] else b[j + 1];
          assert x in a && x != t;
        }
      }
      DistinctLength(a[1..], rest);
    }
  }

  /** Repeated splitting gives the same groups as grouping by the tuple at once,
      and as many of them. */
  lemma SplittingIsGroupingByTuple(rows: seq<Item>, fields: seq<string>)
    requires fields != []
    ensures |GroupRows(rows, fields)| == |GroupByTuple(rows, fields)|
    ensures forall g :: g in GroupRows(rows, fields) <==> g in GroupByTuple(rows, fields)
  {
    hide GroupTuples, TuplesOf, Select, GroupRows;
    var groups, tuples := GroupRows(rows, fields), GroupTuples(OnlyRows(rows), fields);
    var once, first := GroupByTuple(rows, fields), TuplesOf(rows, fields);
    GroupsArePartition(rows, fields);
    TuplesOfRows(rows, fields);
    forall t | Select(rows, fields, t) != [] && |t| == |fields|
      ensures t in tuples
    {
      SelectHasSource(rows, fields, t);
    }
    assert forall t :: t in tuples <==> t in first;
    DistinctLength(tuples, first);
    forall g | g in groups
      ensures g in once
    {
      var i :| 0 <= i < |groups| && groups[i] == g;
      assert tuples[i] in first;
      var j :| 0 <= j < |first| && first[j] == tuples[i];
      assert once[j] == g;
    }
    forall g | g in once
      ensures g in groups
    {
      var j :| 0 <= j < |once| && once[j] == g;
      assert first[j] in tuples;
      var i :| 0 <= i < |tuples| && tuples[i] == first[j];
      assert groups[i] == g;
    }
  }

  // ------------------------------------------------------- the order of groups

  /** Reading the rows from the first, one shows `t` in the fields before any shows `u`. */
  ghost predicate ShownBefore(rows: seq<Item>, fields: seq<string>, t: seq<Value>, u: seq<Value>) {
    exists n: nat :: StopsBetween(rows, n, fields, t, u)
  }

  ghost predicate StopsBetween(rows: seq<Item>, n: nat, fields: seq<string>, t: seq<Value>, u: seq<Value>) {
    n <= |rows| && Select(rows[..n], fields, t) != [] && Select(rows[..n], fields, u) == []
  }

  /** Tuples of groups are ordered by the first field in which they differ: there the key that
      the rows of their common class show first comes first. */
  ghost predicate InOrder(rows: seq<Item>, fields: seq<string>, t: seq<Value>, u: seq<Value>)
    requires |t| == |u| == |fields|
  {
    exists k: nat :: FirstDifference(t, u, k) && ShownBefore(rows, fields[..k + 1], t[..k + 1], u[..k + 1])
  }

  ghost predicate FirstDifference(t: seq<Value>, u: seq<Value>, k: nat)
    requires |t| == |u|
  {
    k < |t| && t[..k] == u[..k] && t[k] != u[k]
  }

  ghost predicate AllInOrder(rows: seq<Item>, fields: seq<string>, tuples: seq<seq<Value>>) {
    && (forall i :: 0 <= i < |tuples| ==> |tuples[i]| == |fields|)
    && (forall i, j :: 0 <= i < j < |tuples| ==> InOrder(rows, fields, tuples[i], tuples[j]))
  }

  /** A further row changes no bucket's key and opens at most one bucket, at the end. */
  lemma BucketsGrow(rows: seq<Item>, field: string)
    requires rows != []
    ensures var before, after := GroupItems(rows[..|rows| - 1], field), GroupItems(rows, field);
      && |before| <= |after| <= |before| + 1
      && forall i :: 0 <= i < |before| ==> after[i].key == before[i].key
  {
  }

  /** In a class, the bucket of a key stands before that of another exactly as the rows show them. */
  lemma {:induction false} BucketsInOrder(rows: seq<Item>, fields: seq<string>, tuple: seq<Value>, f: string, i: nat,
                                          j: nat)
    requires |tuple| == |fields| && i < j < |GroupItems(Select(rows, fields, tuple), f)|
    ensures var b := GroupItems(Select(rows, fields, tuple), f);
      ShownBefore(rows, fields + [f], tuple + [b[i].key], tuple + [b[j].key])
  {
    if rows != [] {
      var n := |rows| - 1;
      var held, holds := Select(rows[..n], fields, tuple), Select(rows, fields, tuple);
      var before, b := GroupItems(held, f), GroupItems(holds, f);
      if holds == held {
        BucketsInOrder(rows[..n], fields, tuple, f, i, j);
        LaterRowsDoNotMatter(rows, n, fields + [f], tuple + [b[i].key], tuple + [b[j].key]);
      } else {
        assert holds[..|holds| - 1] == held;
        BucketsGrow(holds, f);
        if j < |before| {
          BucketsInOrder(rows[..n], fields, tuple, f, i, j);
          LaterRowsDoNotMatter(rows, n, fields + [f], tuple + [b[i].key], tuple + [b[j].key]);
        } else {
          NewBucketIsLast(rows, fields, tuple, f, i, j);
        }
      }
    }
  }

  lemma LaterRowsDoNotMatter(rows: seq<Item>, n: nat, fields: seq<string>, t: seq<Value>, u: seq<Value>)
    requires n <= |rows| && ShownBefore(rows[..n], fields, t, u)
    ensures ShownBefore(rows, fields, t, u)
  {
    hide Select;
    var m: nat :| StopsBetween(rows[..n], m, fields, t, u);
    assert rows[..n][..m] == rows[..m];
    assert StopsBetween(rows, m, fields, t, u);
  }

  lemma NewBucketIsLast(rows: seq<Item>, fields: seq<string>, tuple: seq<Value>, f: string, i: nat, j: nat)
    requires rows != [] && |tuple| == |fields|
    requires var before := GroupItems(Select(rows[..|rows| - 1], fields, tuple), f);
      i < |before| <= j < |GroupItems(Select(rows, fields, tuple), f)|
      && forall k :: 0 <= k < |before| ==> GroupItems(Select(rows, fields, tuple), f)[k].key == before[k].key
    ensures var b := GroupItems(Select(rows, fields, tuple), f);
      ShownBefore(rows, fields + [f], tuple + [b[i].key], tuple + [b[j].key])
  {
    hide Select, WithKey, GroupItems;
    var n := |rows| - 1;
    var held, holds := Select(rows[..n], fields, tuple), Select(rows, fields, tuple);
    var before, b := GroupItems(held, f), GroupItems(holds, f);
    BucketsAreKeyed(held, f, b[i].key);
    PlaceIs(before, b[i].key, i);
    BucketsAreKeyed(held, f, b[j].key);
    BucketsAreKeyed(holds, f, b[j].key);
    assert !HasKey(before, b[j].key);
    SelectOneMore(rows[..n], fields, tuple, f, b[i].key);
    SelectOneMore(rows[..n], fields, tuple, f, b[j].key);
    assert StopsBetween(rows, n, fields + [f], tuple + [b[i].key], tuple + [b[j].key]);
  }

  lemma InOrderOneMore(rows: seq<Item>, fields: seq<string>, f: string, t: seq<Value>, u: seq<Value>, x: Value,
                       y: Value)
    requires |t| == |u| == |fields| && InOrder(rows, fields, t, u)
    ensures InOrder(rows, fields + [f], t + [x], u + [y])
  {
    hide ShownBefore;
    var k: nat :| FirstDifference(t, u, k) && ShownBefore(rows, fields[..k + 1], t[..k + 1], u[..k + 1]);
    assert (t + [x])[..k] == t[..k] && (u + [y])[..k] == u[..k];
    assert (t + [x])[..k + 1] == t[..k + 1] && (u + [y])[..k + 1] == u[..k + 1];
    assert (fields + [f])[..k + 1] == fields[..k + 1];
    assert FirstDifference(t + [x], u + [y], k);
  }

  lemma SplitOfOneInOrder(rows: seq<Item>, fields: seq<string>, tuple: seq<Value>, f: string)
    requires |tuple| == |fields|
    ensures AllInOrder(rows, fields + [f], Extended(tuple, GroupItems(Select(rows, fields, tuple), f)))
  {
    hide Select, GroupItems, InOrder;
    var b := GroupItems(Select(rows, fields, tuple), f);
    var tuples := Extended(tuple, b);
    forall i, j | 0 <= i < j < |tuples|
      ensures InOrder(rows, fields + [f], tuples[i], tuples[j])
    {
      BucketsAreKeyed(Select(rows, fields, tuple), f, b[i].key);
      BucketsInOrder(rows, fields, tuple, f, i, j);
      DifferAtTheEnd(rows, fields, f, tuple, b[i].key, b[j].key);
    }
  }

  lemma DifferAtTheEnd(rows: seq<Item>, fields: seq<string>, f: string, tuple: seq<Value>, x: Value, y: Value)
    requires |tuple| == |fields| && x != y && ShownBefore(rows, fields + [f], tuple + [x], tuple + [y])
    ensures InOrder(rows, fields + [f], tuple + [x], tuple + [y])
  {
    hide ShownBefore;
    var k := |fields|;
    assert (tuple + [x])[..k] == tuple && (tuple + [y])[..k] == tuple;
    assert (tuple + [x])[..k + 1] == tuple + [x] && (tuple + [y])[..k + 1] == tuple + [y];
    assert (fields + [f])[..k + 1] == fields + [f];
    assert FirstDifference(tuple + [x], tuple + [y], k);
  }

  /** The prefix of a tuple is one of these. */
  ghost predicate Extends(tuples: seq<seq<Value>>, t: seq<Value>) {
    t != [] && t[..|t| - 1] in tuples
  }

  lemma {:induction false} SplitInOrder(rows: seq<Item>, fields: seq<string>, groups: seq<seq<Item>>,
                                        tuples: seq<seq<Value>>, f: string)
    requires |groups| == |tuples| && AllInOrder(rows, fields, tuples)
    requires forall i :: 0 <= i < |groups| ==> groups[i] == Select(rows, fields, tuples[i])
    ensures AllInOrder(rows, fields + [f], SplitTuples(groups, tuples, f))
    ensures forall t :: t in SplitTuples(groups, tuples, f) ==> Extends(tuples, t)
  {
    hide Select, GroupItems, InOrder;
    if groups != [] {
      var n := |groups| - 1;
      var last := Extended(tuples[n], GroupItems(groups[n], f));
      var before := SplitTuples(groups[..n], tuples[..n], f);
      SplitInOrder(rows, fields, groups[..n], tuples[..n], f);
      SplitOfOneInOrder(rows, fields, tuples[n], f);
      assert SplitTuples(groups, tuples, f) == before + last;
      forall i, j | 0 <= i < |before| && 0 <= j < |last|
        ensures InOrder(rows, fields + [f], before[i], last[j])
      {
        var t := before[i];
        assert Extends(tuples[..n], t);
        var a: nat :| a < n && tuples[..n][a] == t[..|t| - 1];
        assert InOrder(rows, fields, tuples[a], tuples[n]);
        InOrderOneMore(rows, fields, f, tuples[a], tuples[n], t[|t| - 1], last[j][|fields|]);
        assert t == tuples[a] + [t[|t| - 1]] && last[j] == tuples[n] + [last[j][|fields|]];
      }
      forall t | t in before + last
        ensures Extends(tuples, t)
      {
        if t in before {
          assert Extends(tuples[..n], t);
        } else {
          var j :| 0 <= j < |last| && last[j] == t;
          assert t[..|t| - 1] == tuples[n];
        }
      }
    }
  }

  lemma {:induction false} RowsInOrder(rows: seq<Item>, fields: seq<string>)
    requires forall r :: r in rows ==> r.Row?
    ensures AllInOrder(rows, fields, GroupTuples(rows, fields))
  {
    hide InOrder, SplitTuples;
    if fields != [] {
      var init, f := fields[..|fields| - 1], fields[|fields| - 1];
      RowsInOrder(rows, init);
      RowsArePartition(rows, init);
      SplitInOrder(rows, init, GroupRows(rows, init), GroupTuples(rows, init), f);
      assert init + [f] == fields;
    }
  }

  /** The groups come field by field in the order of first appearance: of two groups, the one
      whose key, in the first field in which they differ, is shown first by the rows of their
      common class. */
  lemma GroupsAreInOrder(rows: seq<Item>, fields: seq<string>)
    ensures AllInOrder(OnlyRows(rows), fields, GroupTuples(OnlyRows(rows), fields))
  {
    hide AllInOrder, GroupTuples;
    OnlyRowsAreRows(rows);
    RowsInOrder(OnlyRows(rows), fields);
  }

  lemma {:induction false} SelectHasSource(rows: seq<Item>, fields: seq<string>, t: seq<Value>)
    requires Select(rows, fields, t) != []
    ensures exists r :: r in rows && CarriesAll(r, fields) && Tuple(r, fields) == t
  {
    var init, row := rows[..|rows| - 1], rows[|rows| - 1];
    if !(CarriesAll(row, fields) && Tuple(row, fields) == t) {
      SelectHasSource(init, fields, t);
      var r :| r in init && CarriesAll(r, fields) && Tuple(r, fields) == t;
      assert r in rows;
    } else {
      assert row in rows;
    }
  }

  // ------------------------------------------------------------- conservation

  function Total(rows: seq<Item>, measure: Item -> int): int {
    if rows == [] then 0 else Total(rows[..|rows| - 1], measure) + measure(rows[|rows| - 1])
  }

  function TotalOfAll(groups: seq<seq<Item>>, measure: Item -> int): int {
    if groups == [] then 0 else TotalOfAll(groups[..|groups| - 1], measure) + Total(groups[|groups| - 1], measure)
  }

  /** All rows that carry the fields, normalised. */
  function Grouped(rows: seq<Item>, fields: seq<string>): seq<Item> {
    if rows == [] then []
    else
      var row := rows[|rows| - 1];
      Grouped(rows[..|rows| - 1], fields) + if CarriesAll(row, fields) then [Normal(row, fields)] else []
  }

  function Selections(rows: seq<Item>, fields: seq<string>, tuples: seq<seq<Value>>): seq<seq<Item>> {
    seq(|tuples|, i requires 0 <= i < |tuples| => Select(rows, fields, tuples[i]))
  }

  lemma {:induction false} TotalOneMore(rows: seq<Item>, r: Item, measure: Item -> int)
    ensures Total(rows + [r], measure) == Total(rows, measure) + measure(r)
  {
    assert (rows + [r])[..|rows|] == rows;
  }

  /** Whether a row belongs to the class of a tuple. */
  predicate Shows(row: Item, fields: seq<string>, tuple: seq<Value>) {
    CarriesAll(row, fields) && Tuple(row, fields) == tuple
  }

  lemma ClassGrows(rows: seq<Item>, fields: seq<string>, tuple: seq<Value>, measure: Item -> int)
    requires rows != []
    ensures var init, row := rows[..|rows| - 1], rows[|rows| - 1];
      Total(Select(rows, fields, tuple), measure) ==
      Total(Select(init, fields, tuple), measure) +
      if Shows(row, fields, tuple) then measure(Normal(row, fields)) else 0
  {
    var init, row := rows[..|rows| - 1], rows[|rows| - 1];
    if Shows(row, fields, tuple) {
      TotalOneMore(Select(init, fields, tuple), Normal(row, fields), measure);
    } else {
      assert Select(init, fields, tuple) + [] == Select(init, fields, tuple);
    }
  }

  /** A further row adds its measure to exactly the one class it belongs to. */
  lemma {:induction false} OneClassGrows(rows: seq<Item>, fields: seq<string>, tuples: seq<seq<Value>>,
                                         measure: Item -> int)
    requires rows != [] && Distinct(tuples)
    ensures var init, row := rows[..|rows| - 1], rows[|rows| - 1];
      TotalOfAll(Selections(rows, fields, tuples), measure) ==
      TotalOfAll(Selections(init, fields, tuples), measure) +
      if CarriesAll(row, fields) && Tuple(row, fields) in tuples then measure(Normal(row, fields)) else 0
  {
    var init, row := rows[..|rows| - 1], rows[|rows| - 1];
    if tuples != [] {
      var n := |tuples| - 1;
      assert tuples == tuples[..n] + [tuples[n]] && Distinct(tuples[..n]) && tuples[n] !in tuples[..n];
      assert CarriesAll(row, fields) ==> (Shows(row, fields, tuples[n]) <==> Tuple(row, fields) == tuples[n]);
      hide TotalOfAll, Selections, Normal, Select, Total, Distinct;
      OneClassGrows(rows, fields, tuples[..n], measure);
      ClassGrows(rows, fields, tuples[n], measure);
      LastClass(rows, fields, tuples, measure);
      LastClass(init, fields, tuples, measure);
      hide CarriesAll, Tuple, Shows;
    }
  }

  lemma LastClass(rows: seq<Item>, fields: seq<string>, tuples: seq<seq<Value>>, measure: Item -> int)
    requires tuples != []
    ensures var n := |tuples| - 1;
      TotalOfAll(Selections(rows, fields, tuples), measure)
      == TotalOfAll(Selections(rows, fields, tuples[..n]), measure) + Total(Select(rows, fields, tuples[n]), measure)
  {
    hide Select, Total;
    var n := |tuples| - 1;
    assert Selections(rows, fields, tuples)[..n] == Selections(rows, fields, tuples[..n]);
  }

  lemma {:induction false} SelectionsConserve(rows: seq<Item>, fields: seq<string>, tuples: seq<seq<Value>>,
                                              measure: Item -> int)
    requires Distinct(tuples)
    requires forall r :: r in rows && CarriesAll(r, fields) ==> Tuple(r, fields) in tuples
    ensures TotalOfAll(Selections(rows, fields, tuples), measure) == Total(Grouped(rows, fields), measure)
  {
    if rows == [] {
      NothingSelected(fields, tuples, measure);
    } else {
      var init, row := rows[..|rows| - 1], rows[|rows| - 1];
      SelectionsConserve(init, fields, tuples, measure);
      OneClassGrows(rows, fields, tuples, measure);
      if CarriesAll(row, fields) {
        TotalOneMore(Grouped(init, fields), Normal(row, fields), measure);
      } else {
        assert Grouped(init, fields) + [] == Grouped(init, fields);
      }
    }
  }

  lemma {:induction false} NothingSelected(fields: seq<string>, tuples: seq<seq<Value>>, measure: Item -> int)
    ensures TotalOfAll(Selections([], fields, tuples), measure) == 0
  {
    if tuples != [] {
      NothingSelected(fields, tuples[..|tuples| - 1], measure);
      assert Selections([], fields, tuples)[..|tuples| - 1] == Selections([], fields, tuples[..|tuples| - 1]);
    }
  }

  /** Whatever is added up over rows: the groups' totals add up to the total over
      the rows that carry every field. */
  lemma GroupingConservesTotals(rows: seq<Item>, fields: seq<string>, measure: Item -> int)
    requires fields != [] || forall r :: r in rows ==> r.Row?
    ensures TotalOfAll(GroupRows(rows, fields), measure) == Total(Grouped(rows, fields), measure)
  {
    var tuples := GroupTuples(OnlyRows(rows), fields);
    GroupsArePartition(rows, fields);
    assert GroupRows(rows, fields) == Selections(rows, fields, tuples);
    SelectionsConserve(rows, fields, tuples, measure);
  }
}
