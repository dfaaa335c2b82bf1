/** The reflective row scanner: a plan that maps each result column to the
    index of the record field whose `db` tag names it (or -1, skip), and the
    scan of rows into one record or onto a slice of records. The driver's
    per-cell conversion (`convertAssign`) is an oracle; a skipped column is
    scanned into a throwaway `any` slot, which accepts every cell. */
module Scanner {
  import opened Common
  import opened Structs
  import StrConv

  function DbTag(f: FieldDecl): string
  {
    Tag(f.tags, "db")
  }

  /** The tag-to-index map, built in declaration order so that a later field
      with the same tag replaces an earlier one; empty tags are left out. */
  function TagIndex(fields: seq<FieldDecl>): (m: map<string, int>)
    ensures forall tag :: tag in m ==>
      && tag != ""
      && 0 <= m[tag] < |fields|
      && DbTag(fields[m[tag]]) == tag
      && (forall j :: m[tag] < j < |fields| ==> DbTag(fields[j]) != tag)
    ensures forall j :: 0 <= j < |fields| && DbTag(fields[j]) != "" ==> DbTag(fields[j]) in m
    decreases |fields|
  {
    if |fields| == 0 then map[]
    else
      var init := fields[..|fields| - 1];
      assert forall j :: 0 <= j < |init| ==> init[j] == fields[j];
      var m := TagIndex(init);
      var tag := DbTag(fields[|fields| - 1]);
      if tag != "" then m[tag := |fields| - 1] else m
  }

  predicate ValidPlan(plan: seq<int>, n: int)
  {
    forall k :: 0 <= k < |plan| ==> -1 <= plan[k] < n
  }

  /** buildPlan: one entry per column; a column is skipped exactly when no
      field carries its name as `db` tag, and otherwise goes to the last
      field that does. */
  function BuildPlan(fields: seq<FieldDecl>, columns: seq<string>): (plan: seq<int>)
    ensures |plan| == |columns|
    ensures ValidPlan(plan, |fields|)
    ensures forall i :: 0 <= i < |columns| ==>
      (plan[i] == -1 <==> columns[i] == "" || forall j :: 0 <= j < |fields| ==> DbTag(fields[j]) != columns[i])
    ensures forall i :: 0 <= i < |columns| && plan[i] != -1 ==>
      && DbTag(fields[plan[i]]) == columns[i]
      && (forall j :: plan[i] < j < |fields| ==> DbTag(fields[j]) != columns[i])
  {
    var m := TagIndex(fields);
    seq(|columns|, i requires 0 <= i < |columns| => if columns[i] in m then m[columns[i]] else -1)
  }

  /** The plan is by name: a column's entry depends only on its name, never
      on its position or on the other columns. */
  lemma PlanByName(fields: seq<FieldDecl>, c1: seq<string>, c2: seq<string>, i: int, j: int)
    requires 0 <= i < |c1| && 0 <= j < |c2| && c1[i] == c2[j]
    ensures BuildPlan(fields, c1)[i] == BuildPlan(fields, c2)[j]
  {
  }

  /** A cell as the driver delivers it (driver.Value). */
  datatype Cell = Null | Bytes(text: string) | Int(i: int) | Time(t: int)

  /** The driver's conversion of a cell into a field of the given kind. */
  type Convert = (Cell, Kind) -> Result<Value>

  /** The error rows.Scan reports when a conversion fails. */
  function ScanError(k: int, column: string, e: Error): Error
  {
    Text("sql: Scan error on column index " + StrConv.FormatInt(k) + ", name \"" + column + "\": " + Message(e))
  }

  /** rows.Scan into the plan's destinations, columns `k..` in order; stops
      at the first failed conversion, keeping the assignments made before
      it. Skipped columns always succeed. */
  function RowInto(fields: seq<FieldDecl>, rec: seq<Value>, plan: seq<int>, columns: seq<string>,
                   row: seq<Cell>, convert: Convert, k: nat): (r: (seq<Value>, Option<Error>))
    requires |rec| == |fields| && ValidPlan(plan, |fields|)
    requires |row| == |plan| && |columns| == |plan| && k <= |plan|
    ensures |r.0| == |rec|
    decreases |plan| - k
  {
    if k == |plan| then (rec, None)
    else if plan[k] == -1 then RowInto(fields, rec, plan, columns, row, convert, k + 1)
    else match convert(row[k], fields[plan[k]].kind)
      case Err(e) => (rec, Some(ScanError(k, columns[k], e)))
      case Ok(v) => RowInto(fields, rec[plan[k] := v], plan, columns, row, convert, k + 1)
  }

  /** Fields no remaining column is planned into keep their values. */
  lemma {:induction false} RowIntoFrame(fields: seq<FieldDecl>, rec: seq<Value>, plan: seq<int>, columns: seq<string>,
                                        row: seq<Cell>, convert: Convert, k: nat, j: int)
    requires |rec| == |fields| && ValidPlan(plan, |fields|)
    requires |row| == |plan| && |columns| == |plan| && k <= |plan|
    requires 0 <= j < |rec| && forall c :: k <= c < |plan| ==> plan[c] != j
    ensures RowInto(fields, rec, plan, columns, row, convert, k).0[j] == rec[j]
    decreases |plan| - k
  {
    if k < |plan| {
      if plan[k] == -1 {
        RowIntoFrame(fields, rec, plan, columns, row, convert, k + 1, j);
      } else if convert(row[k], fields[plan[k]].kind).Ok? {
        var v := convert(row[k], fields[plan[k]].kind).value;
        RowIntoFrame(fields, rec[plan[k] := v], plan, columns, row, convert, k + 1, j);
      }
    }
  }

  /** The row scans without error exactly when every planned column
      converts; skipped columns never cause an error. */
  lemma {:induction false} RowIntoSucceeds(fields: seq<FieldDecl>, rec: seq<Value>, plan: seq<int>, columns: seq<string>,
                                           row: seq<Cell>, convert: Convert, k: nat)
    requires |rec| == |fields| && ValidPlan(plan, |fields|)
    requires |row| == |plan| && |columns| == |plan| && k <= |plan|
    ensures RowInto(fields, rec, plan, columns, row, convert, k).1.None? <==>
      forall c :: k <= c < |plan| && plan[c] != -1 ==> convert(row[c], fields[plan[c]].kind).Ok?
    decreases |plan| - k
  {
    if k < |plan| {
      if plan[k] == -1 {
        RowIntoSucceeds(fields, rec, plan, columns, row, convert, k + 1);
      } else if convert(row[k], fields[plan[k]].kind).Ok? {
        var v := convert(row[k], fields[plan[k]].kind).value;
        RowIntoSucceeds(fields, rec[plan[k] := v], plan, columns, row, convert, k + 1);
      }
    }
  }

  /** After a successful row, a planned field holds the conversion of the
      last column planned into it. */
  lemma {:induction false} RowIntoAssigns(fields: seq<FieldDecl>, rec: seq<Value>, plan: seq<int>, columns: seq<string>,
                                          row: seq<Cell>, convert: Convert, k: nat, c: int)
    requires |rec| == |fields| && ValidPlan(plan, |fields|)
    requires |row| == |plan| && |columns| == |plan| && k <= c < |plan|
    requires plan[c] != -1 && forall d :: c < d < |plan| ==> plan[d] != plan[c]
    requires RowInto(fields, rec, plan, columns, row, convert, k).1.None?
    requires convert(row[c], fields[plan[c]].kind).Ok?
    ensures RowInto(fields, rec, plan, columns, row, convert, k).0[plan[c]]
            == convert(row[c], fields[plan[c]].kind).value
    decreases |plan| - k
  {
    if plan[k] == -1 {
      RowIntoAssigns(fields, rec, plan, columns, row, convert, k + 1, c);
    } else {
      var v := convert(row[k], fields[plan[k]].kind).value;
      if k == c {
        RowIntoFrame(fields, rec[plan[k] := v], plan, columns, row, convert, k + 1, plan[c]);
      } else {
        RowIntoAssigns(fields, rec[plan[k] := v], plan, columns, row, convert, k + 1, c);
      }
    }
  }

  /** scanItem: one destination per plan entry, then rows.Scan, which first
      checks that the row has as many cells as there are destinations. */
  function ScanItem(fields: seq<FieldDecl>, rec: seq<Value>, plan: seq<int>, columns: seq<string>,
                    row: seq<Cell>, convert: Convert): (r: (seq<Value>, Option<Error>))
    requires |rec| == |fields| && ValidPlan(plan, |fields|) && |columns| == |plan|
    ensures |r.0| == |rec|
    ensures |row| != |plan| ==> r == (rec, Some(Text("sql: expected " + StrConv.FormatInt(|row|)
                                        + " destination arguments in Scan, not " + StrConv.FormatInt(|plan|))))
    ensures |row| == |plan| ==> r == RowInto(fields, rec, plan, columns, row, convert, 0)
  {
    if |row| != |plan| then
      (rec, Some(Text("sql: expected " + StrConv.FormatInt(|row|) + " destination arguments in Scan, not "
                      + StrConv.FormatInt(|plan|))))
    else RowInto(fields, rec, plan, columns, row, convert, 0)
  }

  /** Taking the address of a planned field that is not exported panics
      (reflect refuses `Interface()` on it). */
  predicate Unreadable(fields: seq<FieldDecl>, plan: seq<int>)
    requires ValidPlan(plan, |fields|)
  {
    exists k :: 0 <= k < |plan| && plan[k] != -1 && !fields[plan[k]].exported
  }

  /** A result set: its column names (or the error Columns() gives), the
      rows Next() yields, and the error Err() reports once they run out. */
  datatype Rows = Rows(columns: Result<seq<string>>, data: seq<seq<Cell>>, err: Option<Error>)

  /** The destination handed to Scan. A slice's elements are records of the
      element kind; `[]T` and `[]*T` hold the same values. */
  datatype Dst =
    | NonPointer
    | StructPtr(fields: seq<FieldDecl>, rec: seq<Value>)
    | SlicePtr(elem: Kind, items: seq<seq<Value>>)
    | OtherPtr(kind: string)

  datatype Scanned = Scanned(dst: Dst, err: Option<Error>) | ScanPanicked(reason: string)

  const UnexportedPanic: string := "reflect.Value.Interface: cannot return value obtained from unexported field or method"

  /** The scan of one item from a zero record. */
  function Item(fields: seq<FieldDecl>, plan: seq<int>, columns: seq<string>, row: seq<Cell>,
                convert: Convert): (r: (seq<Value>, Option<Error>))
    requires ValidPlan(plan, |fields|) && |columns| == |plan|
    ensures |r.0| == |fields|
  {
    ScanItem(fields, ZeroRecord(fields), plan, columns, row, convert)
  }

  /** The loop of scanSlice: scan each row into a fresh zero record and
      append it; the first failing row ends the loop with its error and
      nothing more appended; otherwise the iterator's final error. */
  function ScanRows(fields: seq<FieldDecl>, plan: seq<int>, columns: seq<string>, data: seq<seq<Cell>>,
                    items: seq<seq<Value>>, iterErr: Option<Error>, convert: Convert)
    : (r: (seq<seq<Value>>, Option<Error>))
    requires ValidPlan(plan, |fields|) && |columns| == |plan|
    ensures |items| <= |r.0| <= |items| + |data|
    ensures r.0[..|items|] == items
    ensures |r.0| - |items| < |data| ==> r.1.Some?
    decreases |data|
  {
    if |data| == 0 then (items, iterErr)
    else
      var it := Item(fields, plan, columns, data[0], convert);
      if it.1.Some? then (items, it.1)
      else
        var rest := ScanRows(fields, plan, columns, data[1..], items + [it.0], iterErr, convert);
        assert rest.0[..|items|] == (items + [it.0])[..|items|] by {
          assert rest.0[..|items| + 1] == items + [it.0];
        }
        rest
  }

  /** The appended records are the rows' own records, in row order, and
      each of those rows scanned without error. */
  lemma {:induction false} ScanRowsItems(fields: seq<FieldDecl>, plan: seq<int>, columns: seq<string>,
                                         data: seq<seq<Cell>>, items: seq<seq<Value>>, iterErr: Option<Error>,
                                         convert: Convert)
    requires ValidPlan(plan, |fields|) && |columns| == |plan|
    ensures var r := ScanRows(fields, plan, columns, data, items, iterErr, convert);
      forall k :: 0 <= k < |r.0| - |items| ==>
        Item(fields, plan, columns, data[k], convert).1.None?
        && r.0[|items| + k] == Item(fields, plan, columns, data[k], convert).0
    decreases |data|
  {
    if |data| > 0 {
      var it := Item(fields, plan, columns, data[0], convert);
      if it.1.None? {
        var r := ScanRows(fields, plan, columns, data, items, iterErr, convert);
        ScanRowsItems(fields, plan, columns, data[1..], items + [it.0], iterErr, convert);
        assert r.0[..|items| + 1] == items + [it.0];
        forall k | 0 <= k < |r.0| - |items|
          ensures Item(fields, plan, columns, data[k], convert).1.None?
          ensures r.0[|items| + k] == Item(fields, plan, columns, data[k], convert).0
        {
          if k == 0 {
            assert r.0[|items|] == (items + [it.0])[|items|];
          } else {
            assert data[1..][k - 1] == data[k];
            assert |items + [it.0]| + (k - 1) == |items| + k;
          }
        }
      }
    }
  }

  /** Where the loop stops early, the error is that row's; otherwise it is
      the iterator's final error. */
  lemma {:induction false} ScanRowsError(fields: seq<FieldDecl>, plan: seq<int>, columns: seq<string>,
                                         data: seq<seq<Cell>>, items: seq<seq<Value>>, iterErr: Option<Error>,
                                         convert: Convert)
    requires ValidPlan(plan, |fields|) && |columns| == |plan|
    ensures var r := ScanRows(fields, plan, columns, data, items, iterErr, convert);
      && (|r.0| - |items| < |data| ==> r.1 == Item(fields, plan, columns, data[|r.0| - |items|], convert).1)
      && (|r.0| - |items| == |data| ==> r.1 == iterErr)
    decreases |data|
  {
    if |data| > 0 {
      var it := Item(fields, plan, columns, data[0], convert);
      if it.1.None? {
        ScanRowsError(fields, plan, columns, data[1..], items + [it.0], iterErr, convert);
        var r := ScanRows(fields, plan, columns, data, items, iterErr, convert);
        var n := |r.0| - |items|;
        assert n >= 1 by {
          assert r.0[..|items| + 1] == items + [it.0];
        }
        if n < |data| {
          assert data[1..][n - 1] == data[n];
        }
      }
    }
  }

  /** Scan: pointer check, column names, then a slice (append every row) or
      a struct (exactly the first row, NoRows when there is none); any other
      destination is unsupported. */
  function Scan(rows: Rows, dst: Dst, convert: Convert): (r: Scanned)
    requires dst.StructPtr? ==> |dst.rec| == |dst.fields|
    ensures dst.NonPointer? ==> r == Scanned(dst, Some(Text("dst must be a pointer")))
    ensures !dst.NonPointer? && rows.columns.Err? ==> r == Scanned(dst, Some(rows.columns.error))
    ensures dst.OtherPtr? && rows.columns.Ok? ==>
              r == Scanned(dst, Some(Text("unsupported dst type: " + dst.kind)))
    ensures dst.StructPtr? && rows.columns.Ok? && |rows.data| == 0 ==> r == Scanned(dst, Some(NoRows))
    ensures dst.StructPtr? && r.Scanned? ==> r.dst.StructPtr? && r.dst.fields == dst.fields
                                             && |r.dst.rec| == |dst.rec|
    ensures dst.SlicePtr? && r.Scanned? ==>
      && r.dst.SlicePtr? && r.dst.elem == dst.elem
      && |dst.items| <= |r.dst.items| <= |dst.items| + |rows.data|
      && r.dst.items[..|dst.items|] == dst.items
      && (r.err.None? ==> |r.dst.items| == |dst.items| + |rows.data|)
    ensures dst.StructPtr? && rows.columns.Ok? && |rows.data| > 0 ==>
      && (r.ScanPanicked? <==> Unreadable(dst.fields, BuildPlan(dst.fields, rows.columns.value)))
      && (r.Scanned? ==> (r.dst.rec, r.err) == ScanItem(dst.fields, dst.rec, BuildPlan(dst.fields, rows.columns.value),
                                                        rows.columns.value, rows.data[0], convert))
    ensures r.ScanPanicked? ==> dst.SlicePtr? || dst.StructPtr?
    ensures dst.StructPtr? && (forall i :: 0 <= i < |dst.fields| ==> dst.fields[i].exported) ==> r.Scanned?
    ensures dst.SlicePtr? && dst.elem.KStruct? && (forall i :: 0 <= i < |dst.elem.fields| ==> dst.elem.fields[i].exported)
            ==> r.Scanned?
  {
    if dst.NonPointer? then Scanned(dst, Some(Text("dst must be a pointer")))
    else if rows.columns.Err? then Scanned(dst, Some(rows.columns.error))
    else
      var columns := rows.columns.value;
      if dst.SlicePtr? then
        if !dst.elem.KStruct? then ScanPanicked("reflect: NumField of non-struct type")
        else
          var fields := dst.elem.fields;
          var plan := BuildPlan(fields, columns);
          if |rows.data| > 0 && Unreadable(fields, plan) then ScanPanicked(UnexportedPanic)
          else
            var out := ScanRows(fields, plan, columns, rows.data, dst.items, rows.err, convert);
            Scanned(SlicePtr(dst.elem, out.0), out.1)
      else if dst.StructPtr? then
        if |rows.data| == 0 then Scanned(dst, Some(NoRows))
        else
          var plan := BuildPlan(dst.fields, columns);
          if Unreadable(dst.fields, plan) then ScanPanicked(UnexportedPanic)
          else
            var out := ScanItem(dst.fields, dst.rec, plan, columns, rows.data[0], convert);
            Scanned(StructPtr(dst.fields, out.0), out.1)
      else Scanned(dst, Some(Text("unsupported dst type: " + dst.kind)))
  }

  /** Scanning a slice: the rows a successful scan appends are exactly the
      rows of the result set, each scanned into a fresh record, in order. */
  lemma SliceScanAppendsRows(rows: Rows, elem: seq<FieldDecl>, items: seq<seq<Value>>, convert: Convert)
    requires rows.columns.Ok?
    ensures var r := Scan(rows, SlicePtr(KStruct(elem), items), convert);
      var plan := BuildPlan(elem, rows.columns.value);
      r.Scanned? && r.err.None? ==>
        r.dst.items == items + seq(|rows.data|, k requires 0 <= k < |rows.data| =>
                                      Item(elem, plan, rows.columns.value, rows.data[k], convert).0)
  {
    var r := Scan(rows, SlicePtr(KStruct(elem), items), convert);
    var plan := BuildPlan(elem, rows.columns.value);
    if r.Scanned? && r.err.None? {
      var out := ScanRows(elem, plan, rows.columns.value, rows.data, items, rows.err, convert);
      ScanRowsItems(elem, plan, rows.columns.value, rows.data, items, rows.err, convert);
      assert r.dst.items == out.0;
      var want := items + seq(|rows.data|, k requires 0 <= k < |rows.data| =>
                                 Item(elem, plan, rows.columns.value, rows.data[k], convert).0);
      assert |out.0| == |want|;
      forall k | 0 <= k < |out.0| ensures out.0[k] == want[k] {
        if k < |items| {
          assert out.0[..|items|][k] == items[k];
        }
      }
    }
  }

  /** A single-record scan reads only the first row: later rows and the
      iterator's final error make no difference. */
  lemma SingleReadsFirstRow(columns: seq<string>, row: seq<Cell>, more1: seq<seq<Cell>>, more2: seq<seq<Cell>>,
                            e1: Option<Error>, e2: Option<Error>, fields: seq<FieldDecl>, rec: seq<Value>,
                            convert: Convert)
    requires |rec| == |fields|
    ensures Scan(Rows(Ok(columns), [row] + more1, e1), StructPtr(fields, rec), convert)
         == Scan(Rows(Ok(columns), [row] + more2, e2), StructPtr(fields, rec), convert)
  {
    assert ([row] + more1)[0] == row && ([row] + more2)[0] == row;
  }

  // ---------------------------------------------------------------------
  // Promotion of embedded fields (the corrected plan).
  // ---------------------------------------------------------------------

  /** An untagged embedded struct whose fields Go promotes into the
      enclosing record. */
  predicate Promoted(f: FieldDecl)
  {
    f.embedded && f.kind.KStruct? && DbTag(f) == ""
  }

  /** The record's fields with each promoted embedded struct replaced, in
      place, by its own fields (one level). */
  function Flatten(fields: seq<FieldDecl>): seq<FieldDecl>
    decreases |fields|
  {
    if |fields| == 0 then []
    else (if Promoted(fields[0]) then fields[0].kind.fields else [fields[0]]) + Flatten(fields[1..])
  }

  /** On a record without promoted fields, flattening changes nothing, so
      a plan over the flattened record is the source's plan. */
  lemma {:induction false} FlattenFlat(fields: seq<FieldDecl>, columns: seq<string>)
    requires forall i :: 0 <= i < |fields| ==> !Promoted(fields[i])
    ensures Flatten(fields) == fields
    ensures BuildPlan(Flatten(fields), columns) == BuildPlan(fields, columns)
    decreases |fields|
  {
    if |fields| > 0 {
      FlattenFlat(fields[1..], columns);
      assert [fields[0]] + fields[1..] == fields;
    }
  }

  /** Every field of a promoted embedded struct is visible to the plan over
      the flattened record. */
  lemma {:induction false} FlattenKeepsPromoted(fields: seq<FieldDecl>, i: int, j: int)
    requires 0 <= i < |fields| && Promoted(fields[i])
    requires 0 <= j < |fields[i].kind.fields|
    ensures fields[i].kind.fields[j] in Flatten(fields)
    decreases |fields|
  {
    if i > 0 {
      FlattenKeepsPromoted(fields[1..], i - 1, j);
    } else {
      assert Flatten(fields)[j] == fields[0].kind.fields[j];
    }
  }
}
