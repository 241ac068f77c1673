/** Which rows are grouped together, cell by cell. */
module ArrClasses {
  import opened Text
  import opened ArrGroup

  /** The text of a cell that is no integer. */
  function TextOf(v: Value): string
    requires !v.Long?
  {
    match v
    case Str(s) => s
    case Other(text) => text
  }

  /** Two cells give one key: the same integer, or, where neither is an integer, the same text. */
  predicate SameKey(v: Value, w: Value) {
    if v.Long? || w.Long? then v == w else TextOf(v) == TextOf(w)
  }

  /** What grouping leaves of a cell: integers and strings stay, anything else becomes its text. */
  function Read(v: Value): Value {
    match v
    case Long(_) => v
    case Str(_) => v
    case Other(text) => Str(text)
  }

  /** Two cells share a key exactly when they agree, and reading a key leaves the cell as it says. */
  lemma KeysAre(v: Value, w: Value)
    ensures Key(v) == Key(w) <==> SameKey(v, w)
    ensures Key(v) == Read(v)
  {
  }

  ghost predicate HasFields(item: Item, fields: seq<string>) {
    item.Row? && forall f :: f in fields ==> f in item.cells
  }

  /** Two rows agree in every field. */
  ghost predicate Agree(a: Item, b: Item, fields: seq<string>)
    requires HasFields(a, fields)
  {
    HasFields(b, fields) && forall f :: f in fields ==> SameKey(a.cells[f], b.cells[f])
  }

  /** A row with its grouping cells as they were read. */
  function AsRead(item: Item, fields: seq<string>): Item
    requires HasFields(item, fields)
  {
    Row(map f | f in item.cells :: if f in fields then Read(item.cells[f]) else item.cells[f])
  }

  /** The rows that agree with this one, as read, in their order. */
  ghost function ClassOf(rows: seq<Item>, fields: seq<string>, a: Item): seq<Item>
    requires HasFields(a, fields)
  {
    if rows == [] then []
    else
      var row := rows[|rows| - 1];
      ClassOf(rows[..|rows| - 1], fields, a) + if Agree(a, row, fields) then [AsRead(row, fields)] else []
  }

  lemma NormalIsAsRead(item: Item, fields: seq<string>)
    requires HasFields(item, fields)
    ensures Normal(item, fields) == AsRead(item, fields)
  {
    forall f | f in item.cells
      ensures Normal(item, fields).cells[f] == AsRead(item, fields).cells[f]
    {
      KeysAre(item.cells[f], item.cells[f]);
    }
    assert Normal(item, fields).cells == AsRead(item, fields).cells;
  }

  lemma TuplesAgreeIff(a: Item, b: Item, fields: seq<string>)
    requires HasFields(a, fields) && HasFields(b, fields)
    ensures Tuple(a, fields) == Tuple(b, fields) <==> Agree(a, b, fields)
  {
    forall i | 0 <= i < |fields|
      ensures Tuple(a, fields)[i] == Tuple(b, fields)[i] <==> SameKey(a.cells[fields[i]], b.cells[fields[i]])
    {
      KeysAre(a.cells[fields[i]], b.cells[fields[i]]);
    }
    hide SameKey, Key;
    if Agree(a, b, fields) {
      assert forall i :: 0 <= i < |fields| ==> fields[i] in fields;
    }
    if Tuple(a, fields) == Tuple(b, fields) {
      forall f | f in fields
        ensures SameKey(a.cells[f], b.cells[f])
      {
        var i :| 0 <= i < |fields| && fields[i] == f;
      }
    }
  }

  lemma {:induction false} ClassIsSelected(rows: seq<Item>, fields: seq<string>, a: Item)
    requires HasFields(a, fields)
    ensures Select(rows, fields, Tuple(a, fields)) == ClassOf(rows, fields, a)
  {
    if rows != [] {
      var row := rows[|rows| - 1];
      ClassIsSelected(rows[..|rows| - 1], fields, a);
      if HasFields(row, fields) {
        TuplesAgreeIff(a, row, fields);
        NormalIsAsRead(row, fields);
      }
      hide Normal, AsRead, Tuple, SameKey;
    }
  }

  /** These rows can be grouped by these fields. */
  ghost predicate Groupable(rows: seq<Item>, fields: seq<string>) {
    fields != [] || forall r :: r in rows ==> r.Row?
  }

  /** A row that carries every field stands in one group, and that group is the rows that agree
      with it, field by field. */
  lemma GroupOfRow(rows: seq<Item>, fields: seq<string>, a: Item)
    requires Groupable(rows, fields) && a in rows && HasFields(a, fields)
    ensures exists i :: 0 <= i < |GroupRows(rows, fields)| && GroupRows(rows, fields)[i] == ClassOf(rows, fields, a)
    ensures AsRead(a, fields) in ClassOf(rows, fields, a)
    ensures forall i, j :: 0 <= i < j < |GroupRows(rows, fields)| ==>
              !(GroupRows(rows, fields)[i] == GroupRows(rows, fields)[j] == ClassOf(rows, fields, a))
  {
    var tuples, groups := GroupTuples(OnlyRows(rows), fields), GroupRows(rows, fields);
    GroupsArePartition(rows, fields);
    ClassIsSelected(rows, fields, a);
    SelectHolds(rows, fields, a);
    NormalIsAsRead(a, fields);
    hide GroupRows, GroupTuples, OnlyRows, Select, ClassOf, Normal, AsRead;
    assert CarriesAll(a, fields);
    assert Tuple(a, fields) in tuples;
    var k :| 0 <= k < |tuples| && tuples[k] == Tuple(a, fields);
    forall i | 0 <= i < |groups| && groups[i] == ClassOf(rows, fields, a)
      ensures i == k
    {
      ClassIsHomogeneous(rows, fields, tuples[i], AsRead(a, fields));
      ClassIsHomogeneous(rows, fields, tuples[k], AsRead(a, fields));
      assert tuples[i] == tuples[k];
    }
  }

  /** And there are no other groups. */
  lemma GroupsAreClasses(rows: seq<Item>, fields: seq<string>, i: nat)
    requires Groupable(rows, fields) && i < |GroupRows(rows, fields)|
    requires fields != [] || rows != []
    ensures exists a :: a in rows && HasFields(a, fields) && GroupRows(rows, fields)[i] == ClassOf(rows, fields, a)
  {
    var tuples, groups := GroupTuples(OnlyRows(rows), fields), GroupRows(rows, fields);
    GroupsArePartition(rows, fields);
    SelectHasSource(rows, fields, tuples[i]);
    hide GroupRows, GroupTuples, OnlyRows;
    assert groups[i] != [];
    var a :| a in rows && CarriesAll(a, fields) && Tuple(a, fields) == tuples[i];
    ClassIsSelected(rows, fields, a);
  }

  /** Two rows that carry every field stand in one group exactly when they agree, field by field. */
  lemma GroupedTogetherIff(rows: seq<Item>, fields: seq<string>, a: Item, b: Item)
    requires Groupable(rows, fields) && a in rows && b in rows && HasFields(a, fields) && HasFields(b, fields)
    ensures (exists g :: g in GroupRows(rows, fields) && AsRead(a, fields) in g && AsRead(b, fields) in g)
       <==> Agree(a, b, fields)
  {
    hide GroupRows, Key, SameKey;
    if Agree(a, b, fields) {
      GroupOfRow(rows, fields, a);
      InClassOf(rows, fields, a, b);
    }
    forall g | g in GroupRows(rows, fields) && AsRead(a, fields) in g && AsRead(b, fields) in g
      ensures Agree(a, b, fields)
    {
      var i :| 0 <= i < |GroupRows(rows, fields)| && GroupRows(rows, fields)[i] == g;
      SharedGroupAgrees(rows, fields, i, a, b);
    }
  }

  lemma InClassOf(rows: seq<Item>, fields: seq<string>, a: Item, b: Item)
    requires b in rows && HasFields(a, fields) && Agree(a, b, fields)
    ensures AsRead(b, fields) in ClassOf(rows, fields, a)
  {
    TuplesAgreeIff(a, b, fields);
    ClassIsSelected(rows, fields, a);
    SelectHolds(rows, fields, b);
    NormalIsAsRead(b, fields);
  }

  lemma SharedGroupAgrees(rows: seq<Item>, fields: seq<string>, i: nat, a: Item, b: Item)
    requires Groupable(rows, fields) && HasFields(a, fields) && HasFields(b, fields) && i < |GroupRows(rows, fields)|
    requires AsRead(a, fields) in GroupRows(rows, fields)[i] && AsRead(b, fields) in GroupRows(rows, fields)[i]
    ensures Agree(a, b, fields)
  {
    GroupsArePartition(rows, fields);
    var tuple := GroupTuples(OnlyRows(rows), fields)[i];
    ClassIsHomogeneous(rows, fields, tuple, AsRead(a, fields));
    ClassIsHomogeneous(rows, fields, tuple, AsRead(b, fields));
    hide GroupRows, GroupTuples;
    forall f | f in fields
      ensures SameKey(a.cells[f], b.cells[f])
    {
      var k :| 0 <= k < |fields| && fields[k] == f;
      assert Read(a.cells[f]) == tuple[k] == Read(b.cells[f]);
      KeysAre(a.cells[f], b.cells[f]);
    }
  }
}
