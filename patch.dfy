/** The sparse-patch pattern shared by every update handler: a fixed list of
    columns, one optional value per column, a SET list holding exactly the
    columns whose value is present (in column order), and the row that an
    `UPDATE … SET c1 = ?, c2 = ? … WHERE id = ?` leaves behind. */
module Patch {
  import opened Wrappers
  import opened Db
  import opened DbOps
  import Json

  /** One `column = ?` entry of a SET list, with its bound value. */
  type Assignment = (string, SqlValue)

  /** The SET entry appended for one optional field: present iff not None. */
  function Opt(column: string, value: Option<SqlValue>): seq<Assignment>
  {
    if value.Some? then [(column, value.value)] else []
  }

  /** The SET list built from fixed column names and optional values. */
  function Chosen(names: seq<string>, vals: seq<Option<SqlValue>>): (sets: seq<Assignment>)
    requires |names| == |vals|
    ensures |sets| <= |names|
    ensures sets == [] <==> forall i | 0 <= i < |vals| :: vals[i].None?
    decreases |names|
  {
    if names == [] then [] else Opt(names[0], vals[0]) + Chosen(names[1..], vals[1..])
  }

  /** The column names of a SET list (the `update_fields` list). */
  function Columns(sets: seq<Assignment>): (cols: seq<string>)
    ensures |cols| == |sets| && forall i | 0 <= i < |sets| :: cols[i] == sets[i].0
  {
    seq(|sets|, i requires 0 <= i < |sets| => sets[i].0)
  }

  /** The bound values of a SET list (the `values` list before the id). */
  function Values(sets: seq<Assignment>): (vals: seq<SqlValue>)
    ensures |vals| == |sets| && forall i | 0 <= i < |sets| :: vals[i] == sets[i].1
  {
    seq(|sets|, i requires 0 <= i < |sets| => sets[i].1)
  }

  /** The SET list that binds `columns` to `params` position by position. */
  function Pairs(columns: seq<string>, params: seq<SqlValue>): (sets: seq<Assignment>)
    requires |columns| == |params|
    ensures Columns(sets) == columns && Values(sets) == params
  {
    seq(|columns|, i requires 0 <= i < |columns| => (columns[i], params[i]))
  }

  /** Splitting a SET list into its columns and values loses nothing. */
  lemma PairsOfSplit(sets: seq<Assignment>)
    ensures Pairs(Columns(sets), Values(sets)) == sets
  {
  }

  /** The optional SQL values the builders bind, one per Python type. */
  function TextOpt(o: Option<string>): Option<SqlValue>
  {
    if o.Some? then Some(SqlText(o.value)) else None
  }

  function IntOpt(o: Option<int>): Option<SqlValue>
  {
    if o.Some? then Some(SqlInt(o.value)) else None
  }

  function RealOpt(o: Option<Float>): Option<SqlValue>
  {
    if o.Some? then Some(SqlReal(o.value)) else None
  }

  /** A list of strings is bound as `json.dumps(list)`. */
  function ListOpt(o: Option<seq<string>>): Option<SqlValue>
  {
    if o.Some? then Some(SqlText(Json.DumpStrings(o.value))) else None
  }

  /** SQLite stores a Python bool as 1 or 0. */
  function SqlBool(b: bool): SqlValue
  {
    SqlInt(if b then 1 else 0)
  }

  function BoolOpt(o: Option<bool>): Option<SqlValue>
  {
    if o.Some? then Some(SqlBool(o.value)) else None
  }

  /** Appending one SET entry appends its column and its value. */
  lemma Snoc(sets: seq<Assignment>, column: string, value: SqlValue)
    ensures Columns(sets + [(column, value)]) == Columns(sets) + [column]
    ensures Values(sets + [(column, value)]) == Values(sets) + [value]
  {
  }

  /** The SET list of a concatenation of builder columns is the
      concatenation of their SET lists. */
  lemma {:induction false} ChosenAppend(n1: seq<string>, v1: seq<Option<SqlValue>>,
                                        n2: seq<string>, v2: seq<Option<SqlValue>>)
    requires |n1| == |v1| && |n2| == |v2|
    ensures Chosen(n1 + n2, v1 + v2) == Chosen(n1, v1) + Chosen(n2, v2)
    decreases |n1|
  {
    if n1 != [] {
      var head := Opt(n1[0], v1[0]);
      assert (n1 + n2)[0] == n1[0] && (v1 + v2)[0] == v1[0];
      assert (n1 + n2)[1..] == n1[1..] + n2 && (v1 + v2)[1..] == v1[1..] + v2;
      assert Chosen(n1 + n2, v1 + v2) == head + Chosen(n1[1..] + n2, v1[1..] + v2);
      ChosenAppend(n1[1..], v1[1..], n2, v2);
      assert head + (Chosen(n1[1..], v1[1..]) + Chosen(n2, v2)) == head + Chosen(n1[1..], v1[1..]) + Chosen(n2, v2);
    } else {
      assert n1 + n2 == n2 && v1 + v2 == v2;
    }
  }

  /** One `if value is not None:` block of a builder: append the column to
      `update_fields` and the value to `values`. */
  method AddIfPresent(fields: seq<string>, values: seq<SqlValue>, ghost sets: seq<Assignment>,
                      column: string, value: Option<SqlValue>)
    returns (fields': seq<string>, values': seq<SqlValue>)
    requires fields == Columns(sets) && values == Values(sets)
    ensures fields' == Columns(sets + Opt(column, value)) && values' == Values(sets + Opt(column, value))
  {
    fields', values' := fields, values;
    if value.Some? {
      Snoc(sets, column, value.value);
      fields', values' := fields + [column], values + [value.value];
    }
  }

  /** After its last step a builder has tested every column. */
  lemma BuilderDone(names: seq<string>, vals: seq<Option<SqlValue>>, n: int)
    requires |names| == |vals| == n
    ensures Chosen(names[..n], vals[..n]) == Chosen(names, vals)
  {
    assert names[..n] == names && vals[..n] == vals;
  }

  /** The SET list of a nine-column builder, entry by entry. */
  lemma ChosenNine(names: seq<string>, vals: seq<Option<SqlValue>>)
    requires |names| == |vals| == 9
    ensures Chosen(names, vals) ==
      [] + Opt(names[0], vals[0]) + Opt(names[1], vals[1]) + Opt(names[2], vals[2])
        + Opt(names[3], vals[3]) + Opt(names[4], vals[4]) + Opt(names[5], vals[5])
        + Opt(names[6], vals[6]) + Opt(names[7], vals[7]) + Opt(names[8], vals[8])
  {
    assert names[..0] == [] && vals[..0] == [];
    ChosenSnoc(names, vals, 0);
    ChosenSnoc(names, vals, 1);
    ChosenSnoc(names, vals, 2);
    ChosenSnoc(names, vals, 3);
    ChosenSnoc(names, vals, 4);
    ChosenSnoc(names, vals, 5);
    ChosenSnoc(names, vals, 6);
    ChosenSnoc(names, vals, 7);
    ChosenSnoc(names, vals, 8);
    BuilderDone(names, vals, 9);
  }

  lemma ChosenSnoc(names: seq<string>, vals: seq<Option<SqlValue>>, k: int)
    requires |names| == |vals| && 0 <= k < |names|
    ensures Chosen(names[..k + 1], vals[..k + 1]) == Chosen(names[..k], vals[..k]) + Opt(names[k], vals[k])
  {
    assert names[..k + 1] == names[..k] + [names[k]] && vals[..k + 1] == vals[..k] + [vals[k]];
    ChosenAppend(names[..k], vals[..k], [names[k]], [vals[k]]);
    assert Chosen([names[k]], [vals[k]]) == Opt(names[k], vals[k]) + Chosen([], []);
  }

  /** One step of a builder: testing column `k` extends the lists built
      from the columns before it by that column's entry, if any. */
  lemma BuilderStep(names: seq<string>, vals: seq<Option<SqlValue>>, k: int)
    requires |names| == |vals| && 0 <= k < |names|
    ensures Chosen(names[..k + 1], vals[..k + 1]) == Chosen(names[..k], vals[..k]) + Opt(names[k], vals[k])
    ensures vals[k].Some? ==>
              Columns(Chosen(names[..k + 1], vals[..k + 1])) == Columns(Chosen(names[..k], vals[..k])) + [names[k]] &&
              Values(Chosen(names[..k + 1], vals[..k + 1])) == Values(Chosen(names[..k], vals[..k])) + [vals[k].value]
  {
    ChosenSnoc(names, vals, k);
    if vals[k].Some? {
      Snoc(Chosen(names[..k], vals[..k]), names[k], vals[k].value);
    }
  }

  predicate Distinct(s: seq<string>)
  {
    forall i, j | 0 <= i < j < |s| :: s[i] != s[j]
  }

  /** `a` keeps some of the elements of `b`, in `b`'s order. */
  predicate IsSubsequence(a: seq<string>, b: seq<string>)
    decreases |b|
  {
    if a == [] then true
    else if b == [] then false
    else (a[0] == b[0] && IsSubsequence(a[1..], b[1..])) || IsSubsequence(a, b[1..])
  }

  /** The first value a SET list binds to a column. */
  function Lookup(sets: seq<Assignment>, column: string): (r: Option<SqlValue>)
    ensures r.Some? <==> column in Columns(sets)
  {
    if sets == [] then None
    else if sets[0].0 == column then Some(sets[0].1)
    else
      assert Columns(sets) == [sets[0].0] + Columns(sets[1..]);
      Lookup(sets[1..], column)
  }

  /** The row after `UPDATE … SET`: each listed column takes its value. */
  function Apply(row: Row, sets: seq<Assignment>): Row
    decreases |sets|
  {
    if sets == [] then row else Apply(row[sets[0].0 := sets[0].1], sets[1..])
  }

  /** The SET list names columns in the order the builder tests them. */
  lemma {:induction false} ChosenOrdered(names: seq<string>, vals: seq<Option<SqlValue>>)
    requires |names| == |vals|
    ensures IsSubsequence(Columns(Chosen(names, vals)), names)
    decreases |names|
  {
    if names != [] {
      ChosenOrdered(names[1..], vals[1..]);
      var rest := Chosen(names[1..], vals[1..]);
      assert Chosen(names, vals) == Opt(names[0], vals[0]) + rest;
      if vals[0].Some? {
        var sets := [(names[0], vals[0].value)] + rest;
        assert Columns(sets)[0] == names[0] && Columns(sets)[1..] == Columns(rest);
        assert IsSubsequence(Columns(sets)[1..], names[1..]);
      } else {
        assert Chosen(names, vals) == rest;
      }
    }
  }

  lemma DistinctTail(s: seq<string>)
    requires s != [] && Distinct(s)
    ensures Distinct(s[1..]) && s[0] !in s[1..]
  {
    assert forall i, j | 0 <= i < j < |s[1..]| :: s[1..][i] == s[i + 1] && s[1..][j] == s[j + 1];
  }

  /** Every element of a subsequence occurs in the sequence. */
  lemma {:induction false} SubsequenceIn(a: seq<string>, b: seq<string>, x: string)
    requires IsSubsequence(a, b) && x in a
    ensures x in b
    decreases |b|
  {
    if a[0] == b[0] && IsSubsequence(a[1..], b[1..]) {
      if x != a[0] {
        SubsequenceIn(a[1..], b[1..], x);
      }
    } else {
      SubsequenceIn(a, b[1..], x);
    }
  }

  /** A subsequence of distinct names has distinct names. */
  lemma {:induction false} SubsequenceDistinct(a: seq<string>, b: seq<string>)
    requires IsSubsequence(a, b) && Distinct(b)
    ensures Distinct(a)
    decreases |b|
  {
    if a != [] {
      if a[0] == b[0] && IsSubsequence(a[1..], b[1..]) {
        SubsequenceDistinct(a[1..], b[1..]);
        forall j | 0 < j < |a|
          ensures a[0] != a[j]
        {
          SubsequenceIn(a[1..], b[1..], a[j]);
        }
      } else {
        SubsequenceDistinct(a, b[1..]);
      }
    }
  }

  /** Distinct column names give a SET list with no column twice. */
  lemma ChosenDistinct(names: seq<string>, vals: seq<Option<SqlValue>>)
    requires |names| == |vals| && Distinct(names)
    ensures Distinct(Columns(Chosen(names, vals)))
  {
    ChosenOrdered(names, vals);
    SubsequenceDistinct(Columns(Chosen(names, vals)), names);
  }

  /** A column of the builder has a SET entry iff its value is present, and
      the entry binds that value. */
  lemma {:induction false} ChosenLookup(names: seq<string>, vals: seq<Option<SqlValue>>, i: int)
    requires |names| == |vals| && Distinct(names) && 0 <= i < |names|
    ensures Lookup(Chosen(names, vals), names[i]) == vals[i]
    decreases |names|
  {
    var rest := Chosen(names[1..], vals[1..]);
    DistinctTail(names);
    assert Chosen(names, vals) == Opt(names[0], vals[0]) + rest;
    if i == 0 {
      if vals[0].None? {
        ChosenUnknown(names[1..], vals[1..], names[0]);
      } else {
        LookupHead(names[0], vals[0].value, rest, names[0]);
      }
    } else {
      ChosenLookup(names[1..], vals[1..], i - 1);
      assert names[1..][i - 1] == names[i];
      if vals[0].Some? {
        assert names[0] != names[i];
        LookupHead(names[0], vals[0].value, rest, names[i]);
      } else {
        assert Chosen(names, vals) == rest;
      }
    }
  }

  lemma LookupHead(column: string, value: SqlValue, rest: seq<Assignment>, key: string)
    ensures Lookup([(column, value)] + rest, key) == if column == key then Some(value) else Lookup(rest, key)
  {
    assert ([(column, value)] + rest)[1..] == rest;
  }

  /** A column the builder does not know has no SET entry. */
  lemma ChosenUnknown(names: seq<string>, vals: seq<Option<SqlValue>>, column: string)
    requires |names| == |vals| && column !in names
    ensures Lookup(Chosen(names, vals), column).None?
  {
    ChosenOrdered(names, vals);
    if column in Columns(Chosen(names, vals)) {
      SubsequenceIn(Columns(Chosen(names, vals)), names, column);
    }
  }

  /** With no column twice, `UPDATE … SET` gives each listed column its
      value and leaves every other column as it was. */
  lemma {:induction false} ApplyAt(row: Row, sets: seq<Assignment>, column: string)
    requires Distinct(Columns(sets))
    ensures Apply(row, sets).Keys == row.Keys + set a | a in sets :: a.0
    ensures column in row || Lookup(sets, column).Some? ==>
              Apply(row, sets)[column] == if Lookup(sets, column).Some? then Lookup(sets, column).value else row[column]
    decreases |sets|
  {
    if sets != [] {
      var next := row[sets[0].0 := sets[0].1];
      assert Distinct(Columns(sets[1..])) by {
        assert forall i | 0 <= i < |sets[1..]| :: Columns(sets[1..])[i] == Columns(sets)[i + 1];
      }
      ApplyAt(next, sets[1..], column);
      assert (set a | a in sets :: a.0) == {sets[0].0} + set a | a in sets[1..] :: a.0;
      if sets[0].0 == column {
        assert column !in Columns(sets[1..]) by {
          forall i | 0 <= i < |sets[1..]|
            ensures Columns(sets[1..])[i] != column
          {
            assert Columns(sets)[i + 1] == Columns(sets[1..])[i];
            assert Columns(sets)[0] == column;
          }
        }
      }
    }
  }

  /** The row a builder's update leaves: each builder column takes its
      present value or keeps its old one; every other column is unchanged. */
  lemma UpdatedRow(row: Row, names: seq<string>, vals: seq<Option<SqlValue>>, column: string)
    requires |names| == |vals| && Distinct(names) && column in row
    ensures column in Apply(row, Chosen(names, vals))
    ensures column !in names ==> Apply(row, Chosen(names, vals))[column] == row[column]
    ensures forall i | 0 <= i < |names| && names[i] == column ::
              Apply(row, Chosen(names, vals))[column] == OrElse(vals[i], row[column])
  {
    ChosenDistinct(names, vals);
    ApplyAt(row, Chosen(names, vals), column);
    if column !in names {
      ChosenUnknown(names, vals, column);
    }
    forall i | 0 <= i < |names| && names[i] == column
      ensures Apply(row, Chosen(names, vals))[column] == OrElse(vals[i], row[column])
    {
      ChosenLookup(names, vals, i);
    }
  }

  /** The same for the column at position `i` of the builder. */
  lemma UpdatedColumn(row: Row, names: seq<string>, vals: seq<Option<SqlValue>>, i: int)
    requires |names| == |vals| && Distinct(names) && 0 <= i < |names| && names[i] in row
    ensures names[i] in Apply(row, Chosen(names, vals))
    ensures Apply(row, Chosen(names, vals))[names[i]] == OrElse(vals[i], row[names[i]])
  {
    ChosenDistinct(names, vals);
    ApplyAt(row, Chosen(names, vals), names[i]);
    ChosenLookup(names, vals, i);
  }

  /** `db.execute("UPDATE … SET f1 = ?, … WHERE id = ?", params)`: the
      first parameters bind the SET list in order, the last one the id. */
  method ExecuteUpdate(table: Table<Row>, fields: seq<string>, params: seq<SqlValue>) returns (count: nat)
    requires table.Valid() && |params| == |fields| + 1 && params[|fields|].SqlInt?
    modifies table
    ensures table.Valid() && table.nextId == old(table.nextId)
    ensures params[|fields|].i in old(table.rows) ==>
              table.rows == old(table.rows)[params[|fields|].i :=
                Apply(old(table.rows)[params[|fields|].i], Pairs(fields, params[..|fields|]))]
    ensures params[|fields|].i !in old(table.rows) ==> table.rows == old(table.rows)
    ensures count == if params[|fields|].i in old(table.rows) then 1 else 0
  {
    var sets := Pairs(fields, params[..|fields|]);
    count := table.UpdateAt(params[|fields|].i, (row: Row) => Apply(row, sets));
  }
}
