/** Aggregating the rows of a group: one pass over the rows for all aggregators. */
module ArrAggregate {
  import opened Text
  import opened ArrGroup

  datatype Kind = Count | Sum | Min | Max | Avg | First | Last | Collect

  datatype Aggregator = Aggregator(kind: Kind, selector: string, alias: string)

  /** What a result holds under a field or an alias. */
  datatype Result = Cell(v: Value) | List(vs: seq<Value>) | Mean(m: real)

  type Table = map<string, Result>

  function Find(t: Table, name: string): Option<Result> {
    if name in t then Some(t[name]) else None
  }

  // ------------------------------------------------------- independent folds

  /** The values of the rows that carry a selector, in order. */
  function Column(rows: seq<Item>, selector: string): seq<Value> {
    if rows == [] then []
    else
      var row := rows[|rows| - 1];
      Column(rows[..|rows| - 1], selector) + if Carries(row, selector) then [row.cells[selector]] else []
  }

  predicate Integers(column: seq<Value>) {
    forall i :: 0 <= i < |column| ==> column[i].Long?
  }

  function SumOf(column: seq<Value>): int
    requires Integers(column)
  {
    if column == [] then 0 else SumOf(column[..|column| - 1]) + column[|column| - 1].n
  }

  ghost predicate Least(column: seq<Value>, n: int) {
    Long(n) in column && forall i :: 0 <= i < |column| && column[i].Long? ==> n <= column[i].n
  }

  ghost predicate Greatest(column: seq<Value>, n: int) {
    Long(n) in column && forall i :: 0 <= i < |column| && column[i].Long? ==> n >= column[i].n
  }

  /** What one aggregator makes of its own column, in a group of `size` rows. A
      column without values leaves no result. The mean divides by the size of
      the group, not by the number of values. */
  ghost predicate IsFold(kind: Kind, column: seq<Value>, size: nat, r: Option<Result>) {
    if column == [] then r == None
    else
      match kind
      case Count => r == Some(Cell(Long(|column|)))
      case Sum => Integers(column) && r == Some(Cell(Long(SumOf(column))))
      case Min => exists n :: Least(column, n) && r == Some(Cell(Long(n)))
      case Max => exists n :: Greatest(column, n) && r == Some(Cell(Long(n)))
      case Avg => Integers(column) && size > 0 && r == Some(Mean(SumOf(column) as real / size as real))
      case First => r == Some(Cell(column[0]))
      case Last => r == Some(Cell(column[|column| - 1]))
      case Collect => r == Some(List(column))
  }

  /** While rows are read, a mean is carried as a sum. */
  ghost predicate IsCarry(kind: Kind, column: seq<Value>, r: Option<Result>) {
    IsFold(if kind.Avg? then Sum else kind, column, 0, r)
  }

  /** The folds determine their results. */
  lemma FoldIsUnique(kind: Kind, column: seq<Value>, size: nat, a: Option<Result>, b: Option<Result>)
    requires IsFold(kind, column, size, a) && IsFold(kind, column, size, b)
    ensures a == b
  {
    if column != [] && kind.Min? {
      var m :| Least(column, m) && a == Some(Cell(Long(m)));
      var n :| Least(column, n) && b == Some(Cell(Long(n)));
      var i :| 0 <= i < |column| && column[i] == Long(m);
      var j :| 0 <= j < |column| && column[j] == Long(n);
    } else if column != [] && kind.Max? {
      var m :| Greatest(column, m) && a == Some(Cell(Long(m)));
      var n :| Greatest(column, n) && b == Some(Cell(Long(n)));
      var i :| 0 <= i < |column| && column[i] == Long(m);
      var j :| 0 <= j < |column| && column[j] == Long(n);
    }
  }

  // ------------------------------------------------------------- the one pass

  predicate NeedsIntegers(kind: Kind) {
    kind.Sum? || kind.Min? || kind.Max? || kind.Avg?
  }

  /** Aliases are told apart from each other and from the fields, and what is
      added or compared is an integer. */
  ghost predicate Proper(rows: seq<Item>, fields: seq<string>, agts: seq<Aggregator>) {
    && (forall i, j :: 0 <= i < j < |agts| ==> agts[i].alias != agts[j].alias)
    && (forall i, j :: 0 <= i < j < |fields| ==> fields[i] != fields[j])
    && (forall i :: 0 <= i < |agts| ==> agts[i].alias !in fields)
    && (forall i :: 0 <= i < |agts| && NeedsIntegers(agts[i].kind) ==>
          forall r :: r in rows && Carries(r, agts[i].selector) ==> r.cells[agts[i].selector].Long?)
  }

  ghost predicate FieldsCopied(t: Table, rows: seq<Item>, fields: seq<string>) {
    forall f :: f in fields ==>
      Find(t, f) == if rows != [] && Carries(rows[0], f) then Some(Cell(rows[0].cells[f])) else None
  }

  ghost predicate OnlyKnownNames(t: Table, fields: seq<string>, agts: seq<Aggregator>) {
    forall name :: name in t ==> name in fields || exists i :: 0 <= i < |agts| && agts[i].alias == name
  }

  /** The table of a group: its fields from the first row, and under every alias
      what that aggregator alone would compute. */
  ghost predicate Aggregates(t: Table, rows: seq<Item>, fields: seq<string>, agts: seq<Aggregator>) {
    && FieldsCopied(t, rows, fields)
    && OnlyKnownNames(t, fields, agts)
    && forall i :: 0 <= i < |agts| ==>
         IsFold(agts[i].kind, Column(rows, agts[i].selector), |rows|, Find(t, agts[i].alias))
  }

  /** One aggregator sees one value. */
  function Carry(kind: Kind, carried: Option<Result>, v: Value): Result {
    match kind
    case Count =>
      if carried.Some? && carried.value.Cell? && carried.value.v.Long? then Cell(Long(carried.value.v.n + 1))
      else Cell(Long(1))
    case Sum => Added(carried, v)
    case Avg => Added(carried, v)
    case Min => if HoldsInteger(carried) && v.Long? && !(v.n < carried.value.v.n) then carried.value else Cell(v)
    case Max => if HoldsInteger(carried) && v.Long? && !(v.n > carried.value.v.n) then carried.value else Cell(v)
    case First => if carried.Some? then carried.value else Cell(v)
    case Last => Cell(v)
    case Collect => if carried.Some? && carried.value.List? then List(carried.value.vs + [v]) else List([v])
  }

  predicate HoldsInteger(carried: Option<Result>) {
    carried.Some? && carried.value.Cell? && carried.value.v.Long?
  }

  function Added(carried: Option<Result>, v: Value): Result {
    if HoldsInteger(carried) && v.Long? then Cell(Long(carried.value.v.n + v.n)) else Cell(v)
  }

  /** A step of the pass extends the fold by the row's value. */
  lemma CarryExtendsFold(kind: Kind, column: seq<Value>, carried: Option<Result>, v: Value)
    requires IsCarry(kind, column, carried)
    requires NeedsIntegers(kind) ==> Integers(column) && v.Long?
    ensures IsCarry(kind, column + [v], Some(Carry(kind, carried, v)))
  {
    var longer := column + [v];
    assert longer[..|longer| - 1] == column && longer[|column|] == v;
    match kind {
      case Min =>
        if column == [] {
          assert Least(longer, v.n);
        } else {
          var n :| Least(column, n) && carried == Some(Cell(Long(n)));
          assert Least(longer, if v.n < n then v.n else n);
        }
      case Max =>
        if column == [] {
          assert Greatest(longer, v.n);
        } else {
          var n :| Greatest(column, n) && carried == Some(Cell(Long(n)));
          assert Greatest(longer, if v.n > n then v.n else n);
        }
      case _ =>
    }
  }

  /** The state of the pass after the rows `done` (and, for the aggregators below
      `upTo`, one row more). */
  ghost predicate Passing(t: Table, rows: seq<Item>, fields: seq<string>, agts: seq<Aggregator>, done: nat, upTo: nat)
    requires done <= |rows| && (upTo > 0 ==> done < |rows|)
  {
    && FieldsCopied(t, rows, fields)
    && OnlyKnownNames(t, fields, agts)
    && forall i :: 0 <= i < |agts| ==>
         IsCarry(agts[i].kind,
                 Column(rows[..if i < upTo then done + 1 else done], agts[i].selector),
                 Find(t, agts[i].alias))
  }

  lemma ColumnOfOneMore(rows: seq<Item>, done: nat, selector: string)
    requires done < |rows|
    ensures Column(rows[..done + 1], selector) ==
      Column(rows[..done], selector) + if Carries(rows[done], selector) then [rows[done].cells[selector]] else []
  {
    assert rows[..done + 1][..done] == rows[..done];
  }

  lemma {:induction false} ColumnIsInteger(rows: seq<Item>, selector: string)
    requires forall r :: r in rows && Carries(r, selector) ==> r.cells[selector].Long?
    ensures Integers(Column(rows, selector))
  {
    if rows != [] {
      ColumnIsInteger(rows[..|rows| - 1], selector);
    }
  }

  method CopyFields(rows: seq<Item>, fields: seq<string>) returns (t: Table)
    ensures FieldsCopied(t, rows, fields)
    ensures forall name :: name in t ==> name in fields
  {
    t := map[];
    if rows != [] {
      for f := 0 to |fields|
        invariant FieldsCopied(t, rows, fields[..f])
        invariant forall name :: name in t ==> name in fields[..f]
      {
        if Carries(rows[0], fields[f]) {
          t := t[fields[f] := Cell(rows[0].cells[fields[f]])];
        }
        assert fields[..f + 1] == fields[..f] + [fields[f]];
      }
      assert fields[..|fields|] == fields;
    }
  }

  /** One aggregator looks at one row. */
  method Look(t: Table, ghost rows: seq<Item>, ghost fields: seq<string>, agts: seq<Aggregator>, ghost done: nat,
              row: Item, a: nat)
    returns (r: Table)
    requires Proper(rows, fields, agts) && done < |rows| && rows[done] == row && a < |agts|
    requires Passing(t, rows, fields, agts, done, a)
    ensures Passing(r, rows, fields, agts, done, a + 1)
  {
    var agt := agts[a];
    r := t;
    ColumnOfOneMore(rows, done, agt.selector);
    if Carries(row, agt.selector) {
      var v, carried := row.cells[agt.selector], Find(t, agt.alias);
      if NeedsIntegers(agt.kind) {
        ColumnIsInteger(rows[..done], agt.selector);
      }
      CarryExtendsFold(agt.kind, Column(rows[..done], agt.selector), carried, v);
      r := t[agt.alias := Carry(agt.kind, carried, v)];
      assert forall i :: 0 <= i < |agts| && i != a ==> Find(r, agts[i].alias) == Find(t, agts[i].alias);
    } else {
      assert Column(rows[..done], agt.selector) + [] == Column(rows[..done], agt.selector);
    }
  }

  function Finished(kind: Kind, carried: Option<Result>, size: nat): Option<Result> {
    if kind.Avg? && HoldsInteger(carried) && size > 0 then Some(Mean(carried.value.v.n as real / size as real))
    else carried
  }

  lemma FinishingGivesFold(kind: Kind, rows: seq<Item>, selector: string, carried: Option<Result>)
    requires IsCarry(kind, Column(rows, selector), carried)
    ensures IsFold(kind, Column(rows, selector), |rows|, Finished(kind, carried, |rows|))
  {
  }

  /** The state at the end of the pass, the first `upTo` aggregators finished. */
  ghost predicate Finishing(t: Table, rows: seq<Item>, fields: seq<string>, agts: seq<Aggregator>, upTo: nat) {
    && FieldsCopied(t, rows, fields)
    && OnlyKnownNames(t, fields, agts)
    && (forall i :: 0 <= i < |agts| && i < upTo ==>
          IsFold(agts[i].kind, Column(rows, agts[i].selector), |rows|, Find(t, agts[i].alias)))
    && (forall i :: upTo <= i < |agts| ==>
          IsCarry(agts[i].kind, Column(rows, agts[i].selector), Find(t, agts[i].alias)))
  }

  method FinishOne(t: Table, rows: seq<Item>, fields: seq<string>, agts: seq<Aggregator>, a: nat) returns (r: Table)
    requires Proper(rows, fields, agts) && a < |agts| && Finishing(t, rows, fields, agts, a)
    ensures Finishing(r, rows, fields, agts, a + 1)
  {
    hide IsFold, Column, IsCarry;
    var agt := agts[a];
    r := t;
    FinishingGivesFold(agt.kind, rows, agt.selector, Find(t, agt.alias));
    if agt.kind.Avg? && HoldsInteger(Find(t, agt.alias)) && |rows| > 0 {
      r := t[agt.alias := Mean(t[agt.alias].v.n as real / |rows| as real)];
    }
    assert forall i :: 0 <= i < |agts| && i != a ==> Find(r, agts[i].alias) == Find(t, agts[i].alias);
  }

  /** At the end a carried sum becomes a mean. */
  method FinishMeans(t: Table, rows: seq<Item>, fields: seq<string>, agts: seq<Aggregator>) returns (r: Table)
    requires Proper(rows, fields, agts) && Passing(t, rows, fields, agts, |rows|, 0)
    ensures Aggregates(r, rows, fields, agts)
  {
    hide IsFold, Column, IsCarry;
    r := t;
    assert rows[..|rows|] == rows;
    for a := 0 to |agts|
      invariant Finishing(r, rows, fields, agts, a)
    {
      r := FinishOne(r, rows, fields, agts, a);
    }
  }

  /** One-pass aggregation equals independent folds, in whatever order the
      aggregators stand; only an element that is no array makes it fail. */
  method Aggregate(rows: seq<Item>, fields: seq<string>, agts: seq<Aggregator>) returns (r: Option<Table>)
    requires Proper(rows, fields, agts)
    ensures r.None? <==> exists i :: 0 <= i < |rows| && rows[i].NoRow?
    ensures r.Some? ==> Aggregates(r.value, rows, fields, agts)
  {
    var t := CopyFields(rows, fields);
    for k := 0 to |rows|
      invariant forall i :: 0 <= i < k ==> rows[i].Row?
      invariant Passing(t, rows, fields, agts, k, 0)
    {
      if rows[k].NoRow? {
        return None;
      }
      for a := 0 to |agts|
        invariant Passing(t, rows, fields, agts, k, a)
      {
        t := Look(t, rows, fields, agts, k, rows[k], a);
      }
    }
    t := FinishMeans(t, rows, fields, agts);
    return Some(t);
  }

  // ------------------------------------------------------ groups and totals

  lemma {:induction false} SelectionKeepsIntegers(rows: seq<Item>, fields: seq<string>, tuple: seq<Value>,
                                                  selector: string)
    requires forall r :: r in rows && Carries(r, selector) ==> r.cells[selector].Long?
    ensures forall r :: r in Select(rows, fields, tuple) && Carries(r, selector) ==> r.cells[selector].Long?
  {
    if rows != [] {
      SelectionKeepsIntegers(rows[..|rows| - 1], fields, tuple, selector);
      assert rows[|rows| - 1] in rows;
    }
  }

  lemma GroupsAreProper(rows: seq<Item>, fields: seq<string>, agts: seq<Aggregator>, i: nat)
    requires Proper(rows, fields, agts) && i < |GroupRows(rows, fields)|
    ensures Proper(GroupRows(rows, fields)[i], fields, agts)
    ensures fields != [] ==> forall r :: r in GroupRows(rows, fields)[i] ==> r.Row?
  {
    if fields != [] {
      GroupsArePartition(rows, fields);
      var tuple := GroupTuples(OnlyRows(rows), fields)[i];
      var group := GroupRows(rows, fields)[i];
      forall a | 0 <= a < |agts| && NeedsIntegers(agts[a].kind)
        ensures forall r :: r in group && Carries(r, agts[a].selector) ==> r.cells[agts[a].selector].Long?
      {
        SelectionKeepsIntegers(rows, fields, tuple, agts[a].selector);
      }
      forall r | r in group
        ensures r.Row?
      {
        ClassIsHomogeneous(rows, fields, tuple, r);
      }
    }
  }

  ghost predicate AggregatesAll(tables: seq<Table>, groups: seq<seq<Item>>, fields: seq<string>,
                                agts: seq<Aggregator>) {
    |tables| == |groups| && forall i :: 0 <= i < |tables| ==> Aggregates(tables[i], groups[i], fields, agts)
  }

  /** Grouping and aggregating: one table for each group, in the groups' order. */
  method GroupAndAggregate(rows: seq<Item>, fields: seq<string>,
                           agts: seq<Aggregator>) returns (tables: Option<seq<Table>>)
    requires Proper(rows, fields, agts)
    ensures tables.None? <==> fields == [] && exists i :: 0 <= i < |rows| && rows[i].NoRow?
    ensures tables.Some? ==> AggregatesAll(tables.value, GroupRows(rows, fields), fields, agts)
  {
    assert fields == [] ==> GroupRows(rows, fields) == [rows];
    hide Aggregates, Proper, GroupRows;
    var groups := ComputeGroupRows(rows, fields);
    var done := [];
    for i := 0 to |groups|
      invariant |done| == i
      invariant forall j :: 0 <= j < i ==> Aggregates(done[j], groups[j], fields, agts)
      invariant fields == [] && i == 1 ==> forall j :: 0 <= j < |rows| ==> rows[j].Row?
    {
      GroupsAreProper(rows, fields, agts, i);
      var table := Aggregate(groups[i], fields, agts);
      if table.None? {
        assert exists j :: 0 <= j < |groups[i]| && groups[i][j] in groups[i] && groups[i][j].NoRow?;
        return None;
      }
      done := done + [table.value];
    }
    return Some(done);
  }

  /** A result read as a number; no result counts as zero. */
  function Number(t: Table, alias: string): int {
    if HoldsInteger(Find(t, alias)) then t[alias].v.n else 0
  }

  function SumOfNumbers(tables: seq<Table>, alias: string): int {
    if tables == [] then 0 else SumOfNumbers(tables[..|tables| - 1], alias) + Number(tables[|tables| - 1], alias)
  }

  /** What a row adds to a count, or to a sum. */
  function Share(kind: Kind, selector: string): Item -> int {
    r =>
      if !Carries(r, selector) then 0 else if kind.Count? then 1
      else if r.cells[selector].Long? then r.cells[selector].n else 0
  }

  lemma {:induction false} SharesAddUp(kind: Kind, rows: seq<Item>, selector: string)
    requires kind.Count? || kind.Sum?
    requires kind.Sum? ==> forall r :: r in rows && Carries(r, selector) ==> r.cells[selector].Long?
    ensures kind.Count? ==> Total(rows, Share(kind, selector)) == |Column(rows, selector)|
    ensures kind.Sum? ==>
              && Integers(Column(rows, selector))
              && Total(rows, Share(kind, selector)) == SumOf(Column(rows, selector))
  {
    if rows != [] {
      var init, row := rows[..|rows| - 1], rows[|rows| - 1];
      SharesAddUp(kind, init, selector);
      var column := Column(init, selector);
      if Carries(row, selector) {
        assert row in rows;
        assert (column + [row.cells[selector]])[..|column|] == column;
      } else {
        assert column + [] == column;
      }
    }
  }

  lemma {:induction false} TablesAddUp(groups: seq<seq<Item>>, tables: seq<Table>, fields: seq<string>,
                                       agts: seq<Aggregator>, a: nat)
    requires a < |agts| && (agts[a].kind.Count? || agts[a].kind.Sum?) && |groups| == |tables|
    requires forall i :: 0 <= i < |groups| ==>
               Proper(groups[i], fields, agts) && Aggregates(tables[i], groups[i], fields, agts)
    ensures SumOfNumbers(tables, agts[a].alias) == TotalOfAll(groups, Share(agts[a].kind, agts[a].selector))
  {
    if groups != [] {
      var n := |groups| - 1;
      TablesAddUp(groups[..n], tables[..n], fields, agts, a);
      assert Proper(groups[n], fields, agts) && Aggregates(tables[n], groups[n], fields, agts);
      SharesAddUp(agts[a].kind, groups[n], agts[a].selector);
    }
  }

  /** Conservation: the groups' counts, or sums, add up to the count, or sum, over
      all rows that carry every group field. */
  lemma CountsAndSumsAreConserved(rows: seq<Item>, fields: seq<string>, agts: seq<Aggregator>, tables: seq<Table>,
                                  a: nat)
    requires Proper(rows, fields, agts) && fields != []
    requires AggregatesAll(tables, GroupRows(rows, fields), fields, agts)
    requires a < |agts| && (agts[a].kind.Count? || agts[a].kind.Sum?)
    ensures var all := Column(Grouped(rows, fields), agts[a].selector);
      SumOfNumbers(tables, agts[a].alias) ==
      if agts[a].kind.Count? then |all| else if Integers(all) then SumOf(all) else 0
  {
    hide GroupRows, Aggregates, Proper;
    var kind, selector := agts[a].kind, agts[a].selector;
    forall i | 0 <= i < |tables|
      ensures Proper(GroupRows(rows, fields)[i], fields, agts)
    {
      GroupsAreProper(rows, fields, agts, i);
    }
    TablesAddUp(GroupRows(rows, fields), tables, fields, agts, a);
    GroupingConservesTotals(rows, fields, Share(kind, selector));
    if kind.Sum? {
      GroupedKeepsIntegers(rows, fields, agts, a);
    }
    SharesAddUp(kind, Grouped(rows, fields), selector);
  }

  lemma GroupedKeepsIntegers(rows: seq<Item>, fields: seq<string>, agts: seq<Aggregator>, a: nat)
    requires Proper(rows, fields, agts) && a < |agts| && NeedsIntegers(agts[a].kind)
    ensures forall r :: r in Grouped(rows, fields) && Carries(r, agts[a].selector) ==> r.cells[agts[a].selector].Long?
  {
  }

  lemma {:induction false} ColumnLength(rows: seq<Item>, selector: string)
    ensures |Column(rows, selector)| <= |rows|
    ensures |Column(rows, selector)| == |rows| <==> forall r :: r in rows ==> Carries(r, selector)
  {
    if rows != [] {
      var init, row := rows[..|rows| - 1], rows[|rows| - 1];
      ColumnLength(init, selector);
      assert row in rows && forall r :: r in rows <==> r in init || r == row;
    }
  }

  lemma QuotientsAgreeIff(s: real, a: real, b: real)
    requires a > 0.0 && b > 0.0
    ensures s / a == s / b <==> a == b || s == 0.0
  {
    if s / a == s / b {
      assert s * b == s / a * a * b == s / b * b * a == s * a;
      assert s * (b - a) == 0.0;
    }
  }

  /** A mean is the mean of the column's values exactly when every row of the
      group carries the selector, or the values add up to zero. */
  lemma MeanIsOfColumnIff(rows: seq<Item>, selector: string)
    requires Column(rows, selector) != [] && Integers(Column(rows, selector))
    ensures var column := Column(rows, selector);
      IsFold(Avg, column, |rows|, Some(Mean(SumOf(column) as real / |column| as real)))
      <==> (forall r :: r in rows ==> Carries(r, selector)) || SumOf(column) == 0
  {
    var column := Column(rows, selector);
    ColumnLength(rows, selector);
    QuotientsAgreeIff(SumOf(column) as real, |column| as real, |rows| as real);
  }
}
