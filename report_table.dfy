/** The table `generate_activity_report` hands to pandas: the column list
    taken from the first activity record, one row per record, file-type
    fields resolved to URLs, and each row projected onto the columns. The
    spreadsheet writer itself is not part of this model; the model stops at
    the projected table and the output path. */
module ReportTable {
  import opened Common
  import Timestamps

  /** A JSON scalar as the upstream service sends it in a field value. */
  datatype Json = JNull | JBool(b: bool) | JInt(i: int) | JStr(s: string)

  /** The `label` entry of a field: missing, `null`, or a string. */
  datatype Label = Absent | Null | Named(name: string)

  /** One field of an activity record; `kind` is its `type` entry. */
  datatype Field = Field(fieldLabel: Label, kind: string, value: Json)

  /** One activity record: `createdAt` (`JNull` when missing) and `fields`
      (`None` when missing). */
  datatype Record = Record(createdAt: Json, fields: Option<seq<Field>>)

  /** The columns and the rows, a cell being `None` where pandas leaves it empty. */
  datatype Table = Table(columns: seq<string>, rows: seq<seq<Option<Json>>>)

  /** What `generate_activity_report` produces: the path it writes and the
      table written there. */
  datatype Rendered = Rendered(path: string, table: Table)

  const Timestamp: string := "HORODATEUR"

  // ---------------------------------------------------------------------------
  // Python's str() and str.split(",") / ",".join

  function NatString(n: nat): string
  {
    if n < 10 then [Timestamps.DigitChar(n)]
    else NatString(n / 10) + [Timestamps.DigitChar(n % 10)]
  }

  /** `str(v)`. */
  function Str(v: Json): string
  {
    match v
    case JNull => "None"
    case JBool(b) => if b then "True" else "False"
    case JInt(i) => if i < 0 then "-" + NatString(-i) else NatString(i)
    case JStr(s) => s
  }

  function CountCommas(s: string): nat
  {
    if s == [] then 0 else (if s[0] == ',' then 1 else 0) + CountCommas(s[1..])
  }

  /** `s.split(",")`: one piece more than there are commas, none holding a comma. */
  function SplitCommas(s: string): (r: seq<string>)
    ensures |r| == CountCommas(s) + 1
    ensures forall p :: p in r ==> ',' !in p
  {
    if s == [] then [""]
    else
      var rest := SplitCommas(s[1..]);
      if s[0] == ',' then [""] + rest
      else [[s[0]] + rest[0]] + rest[1..]
  }

  /** `",".join(ps)`. */
  function JoinCommas(ps: seq<string>): string
  {
    if ps == [] then ""
    else if |ps| == 1 then ps[0]
    else ps[0] + "," + JoinCommas(ps[1..])
  }

  function MapStrings(f: string -> string, ps: seq<string>): (r: seq<string>)
    ensures |r| == |ps| && forall i :: 0 <= i < |ps| ==> r[i] == f(ps[i])
  {
    seq(|ps|, i requires 0 <= i < |ps| => f(ps[i]))
  }

  // ---------------------------------------------------------------------------
  // Columns

  /** `[f.get("label") for f in fields if f.get("label")]`. */
  function Labels(fs: seq<Field>): seq<string>
  {
    if fs == [] then []
    else
      var head := if fs[0].fieldLabel.Named? && fs[0].fieldLabel.name != "" then [fs[0].fieldLabel.name] else [];
      head + Labels(fs[1..])
  }

  /** The column list: `HORODATEUR`, then the first record's labels;
      `report_data[0].get("fields", [])` reads a missing list as empty. */
  function Columns(first: Record): seq<string>
  {
    [Timestamp] + Labels(if first.fields.Some? then first.fields.value else [])
  }

  // ---------------------------------------------------------------------------
  // Rows

  /** The cell of one field: for a file-storage type, each comma-separated
      object name of `str(value)` resolved to its URL and the URLs joined
      again; any other type keeps `value` as it is. */
  function Cell(f: Field, fileTypes: set<string>, resolve: string -> string): Json
  {
    if f.kind in fileTypes then JStr(JoinCommas(MapStrings(resolve, SplitCommas(Str(f.value)))))
    else f.value
  }

  /** The last field of `fs` labelled `l`, if any. */
  predicate LastLabelled(fs: seq<Field>, j: int, l: string)
  {
    0 <= j < |fs| && fs[j].fieldLabel == Named(l)
    && forall k :: j < k < |fs| ==> fs[k].fieldLabel != Named(l)
  }

  /** `{item["label"]: cell for item in d}`. A field without a `label` key
      raises `KeyError`; a later field overwrites an earlier one with the
      same label; a `null` label becomes the key `None`, which no column can
      match, so it is left out of the map. */
  function RowDict(fs: seq<Field>, fileTypes: set<string>, resolve: string -> string)
    : Result<map<string, Json>>
  {
    if fs == [] then Success(map[])
    else
      var m :- RowDict(fs[..|fs| - 1], fileTypes, resolve);
      var last := fs[|fs| - 1];
      match last.fieldLabel
      case Absent => Failure(KeyError)
      case Null => Success(m)
      case Named(l) => Success(m[l := Cell(last, fileTypes, resolve)])
  }

  /** The dictionary `td` of one record: its field cells, then `HORODATEUR`
      set to `createdAt` printed as `YYYY-MM-DD HH:MM:SS`, overriding any
      field of that label. A missing field list raises `TypeError`; a
      timestamp the converter rejects raises `ValueError`. */
  function RecordRow(rd: Record, fileTypes: set<string>, resolve: string -> string)
    : Result<map<string, Json>>
  {
    match rd.fields
    case None => Failure(TypeError)
    case Some(fs) =>
      var m :- RowDict(fs, fileTypes, resolve);
      match Timestamps.ToDateTime(Str(rd.createdAt))
      case None => Failure(ValueError)
      case Some(ts) => Success(m[Timestamp := JStr(ts)])
  }

  /** The `datas` list after the records `rs`, or the first record's error. */
  function Rows(rs: seq<Record>, fileTypes: set<string>, resolve: string -> string)
    : Result<seq<map<string, Json>>>
  {
    if rs == [] then Success([])
    else
      var ds :- Rows(rs[..|rs| - 1], fileTypes, resolve);
      var d :- RecordRow(rs[|rs| - 1], fileTypes, resolve);
      Success(ds + [d])
  }

  /** What `pd.DataFrame(datas, columns=columns)` keeps of one row: the
      cell of each column, empty where the row has no such key. */
  function Project(columns: seq<string>, d: map<string, Json>): seq<Option<Json>>
  {
    seq(|columns|, k requires 0 <= k < |columns| => if columns[k] in d then Some(d[columns[k]]) else None)
  }

  /** The whole table, or the exception `generate_activity_report` raises:
      `IndexError` on an empty list, else the first failing record's error. */
  function BuildTable(records: seq<Record>, fileTypes: set<string>, resolve: string -> string)
    : Result<Table>
  {
    if records == [] then Failure(IndexError)
    else
      var ds :- Rows(records, fileTypes, resolve);
      var columns := Columns(records[0]);
      Success(Table(columns, seq(|ds|, i requires 0 <= i < |ds| => Project(columns, ds[i]))))
  }

  // ---------------------------------------------------------------------------
  // The imperative builder

  /** `generate_activity_report`, up to the spreadsheet write: the column
      list, then the `for` loop that appends one row dictionary per record,
      then the projection, and the path `./temp/<output_file>`. */
  method GenerateActivityReport(records: seq<Record>, fileTypes: set<string>,
                                resolve: string -> string, outputFile: string)
    returns (r: Result<Rendered>)
    ensures records == [] ==> r == Failure(IndexError)
    ensures r.Success? <==> BuildTable(records, fileTypes, resolve).Success?
    ensures r.Success? ==> r.value == Rendered("./temp/" + outputFile, BuildTable(records, fileTypes, resolve).value)
    ensures r.Failure? ==> r.error == BuildTable(records, fileTypes, resolve).error
  {
    if |records| == 0 {
      return Failure(IndexError);
    }
    var columns := Columns(records[0]);
    var datas: seq<map<string, Json>> := [];
    var i := 0;
    while i < |records|
      invariant 0 <= i <= |records|
      invariant Rows(records[..i], fileTypes, resolve) == Success(datas)
    {
      var td := RecordRow(records[i], fileTypes, resolve);
      assert records[..i + 1][..i] == records[..i];
      if td.Failure? {
        RowsFailureExtends(records, i + 1, fileTypes, resolve);
        return Failure(td.error);
      }
      datas := datas + [td.value];
      i := i + 1;
    }
    assert records[..i] == records;
    var rows := seq(|datas|, k requires 0 <= k < |datas| => Project(columns, datas[k]));
    r := Success(Rendered("./temp/" + outputFile, Table(columns, rows)));
  }

  // ---------------------------------------------------------------------------
  // Properties

  /** Once a prefix of the records fails, the whole list fails the same way. */
  lemma {:induction false} RowsFailureExtends(rs: seq<Record>, n: nat, fileTypes: set<string>,
                                              resolve: string -> string)
    requires n <= |rs| && Rows(rs[..n], fileTypes, resolve).Failure?
    ensures Rows(rs, fileTypes, resolve) == Rows(rs[..n], fileTypes, resolve)
    decreases |rs| - n
  {
    if n < |rs| {
      assert rs[..n + 1][..n] == rs[..n];
      RowsFailureExtends(rs, n + 1, fileTypes, resolve);
    } else {
      assert rs[..n] == rs;
    }
  }

  /** When `Rows` fails, some record could not be turned into a row. */
  lemma {:induction false} RowsFailure(rs: seq<Record>, fileTypes: set<string>, resolve: string -> string)
    requires Rows(rs, fileTypes, resolve).Failure?
    ensures exists i :: 0 <= i < |rs| && RecordRow(rs[i], fileTypes, resolve).Failure?
  {
    var init := rs[..|rs| - 1];
    if Rows(init, fileTypes, resolve).Failure? {
      RowsFailure(init, fileTypes, resolve);
      var i :| 0 <= i < |init| && RecordRow(init[i], fileTypes, resolve).Failure?;
      assert init[i] == rs[i];
    } else {
      assert RecordRow(rs[|rs| - 1], fileTypes, resolve).Failure?;
    }
  }

  /** `Rows` builds one dictionary per record, in order, each the record's own. */
  lemma {:induction false} RowsSuccess(rs: seq<Record>, fileTypes: set<string>, resolve: string -> string)
    requires Rows(rs, fileTypes, resolve).Success?
    ensures var ds := Rows(rs, fileTypes, resolve).value;
      |ds| == |rs| && forall i :: 0 <= i < |rs| ==> RecordRow(rs[i], fileTypes, resolve) == Success(ds[i])
  {
    if rs != [] {
      var n := |rs| - 1;
      var init := rs[..n];
      assert Rows(init, fileTypes, resolve).Success? && RecordRow(rs[n], fileTypes, resolve).Success?;
      RowsSuccess(init, fileTypes, resolve);
      var front, d := Rows(init, fileTypes, resolve).value, RecordRow(rs[n], fileTypes, resolve).value;
      var ds := Rows(rs, fileTypes, resolve).value;
      assert ds == front + [d];
      forall i | 0 <= i < |rs|
        ensures RecordRow(rs[i], fileTypes, resolve) == Success(ds[i])
      {
        if i < n {
          assert rs[i] == init[i] && ds[i] == front[i];
        }
      }
    }
  }

  /** The labels are the first record's non-empty ones, and only those. */
  lemma {:induction false} LabelsMembers(fs: seq<Field>)
    ensures forall l :: l in Labels(fs) <==>
              l != "" && exists j :: 0 <= j < |fs| && fs[j].fieldLabel == Named(l)
  {
    if fs != [] {
      var tail := fs[1..];
      LabelsMembers(tail);
      forall l
        ensures (exists j :: 0 <= j < |fs| && fs[j].fieldLabel == Named(l))
                <==> fs[0].fieldLabel == Named(l) || exists j :: 0 <= j < |tail| && tail[j].fieldLabel == Named(l)
      {
        if exists j :: 0 <= j < |fs| && fs[j].fieldLabel == Named(l) {
          var j :| 0 <= j < |fs| && fs[j].fieldLabel == Named(l);
          if j > 0 { assert tail[j - 1] == fs[j]; }
        }
        if exists j :: 0 <= j < |tail| && tail[j].fieldLabel == Named(l) {
          var j :| 0 <= j < |tail| && tail[j].fieldLabel == Named(l);
          assert fs[j + 1] == tail[j];
        }
      }
    }
  }

  /** Labels keep the fields' order: the labels of a concatenation are the
      concatenation of the labels. */
  lemma {:induction false} LabelsAppend(a: seq<Field>, b: seq<Field>)
    ensures Labels(a + b) == Labels(a) + Labels(b)
  {
    if a == [] {
      assert a + b == b;
    } else {
      assert (a + b)[0] == a[0];
      assert (a + b)[1..] == a[1..] + b;
      LabelsAppend(a[1..], b);
    }
  }

  /** When every field of the first record carries a non-empty label, the
      columns are `HORODATEUR` followed by all of those labels in order. */
  lemma {:induction false} LabelsAllNamed(fs: seq<Field>)
    requires forall j :: 0 <= j < |fs| ==> fs[j].fieldLabel.Named? && fs[j].fieldLabel.name != ""
    ensures Labels(fs) == seq(|fs|, j requires 0 <= j < |fs| => fs[j].fieldLabel.name)
  {
    if fs != [] {
      LabelsAllNamed(fs[1..]);
    }
  }

  /** A row dictionary fails (`KeyError`) exactly when some field has no
      `label` key, and otherwise has a key for every string label. */
  lemma {:induction false} RowDictSpec(fs: seq<Field>, fileTypes: set<string>, resolve: string -> string)
    ensures RowDict(fs, fileTypes, resolve).Failure? <==> exists j :: 0 <= j < |fs| && fs[j].fieldLabel == Absent
    ensures RowDict(fs, fileTypes, resolve).Failure? ==> RowDict(fs, fileTypes, resolve).error == KeyError
    ensures RowDict(fs, fileTypes, resolve).Success? ==>
              forall l :: l in RowDict(fs, fileTypes, resolve).value
                <==> exists j :: 0 <= j < |fs| && fs[j].fieldLabel == Named(l)
  {
    if fs != [] {
      var init := fs[..|fs| - 1];
      RowDictSpec(init, fileTypes, resolve);
      assert forall j :: 0 <= j < |init| ==> init[j] == fs[j];
    }
  }

  /** The field that fills a key is the last one carrying that label. */
  lemma {:induction false} RowDictLast(fs: seq<Field>, fileTypes: set<string>, resolve: string -> string,
                                       j: int, l: string)
    requires RowDict(fs, fileTypes, resolve).Success? && LastLabelled(fs, j, l)
    ensures l in RowDict(fs, fileTypes, resolve).value
    ensures RowDict(fs, fileTypes, resolve).value[l] == Cell(fs[j], fileTypes, resolve)
  {
    var init := fs[..|fs| - 1];
    if j < |fs| - 1 {
      assert forall k :: 0 <= k < |init| ==> init[k] == fs[k];
      assert LastLabelled(init, j, l);
      RowDictLast(init, fileTypes, resolve, j, l);
    }
  }

  /** The table's columns come from the first record alone, start with
      `HORODATEUR`, and hold exactly the first record's non-empty labels;
      later records add nothing. */
  lemma TableColumns(records: seq<Record>, fileTypes: set<string>, resolve: string -> string)
    requires BuildTable(records, fileTypes, resolve).Success?
    ensures var t := BuildTable(records, fileTypes, resolve).value;
      && records != []
      && t.columns == Columns(records[0])
      && |t.columns| >= 1 && t.columns[0] == Timestamp
      && forall l :: l in t.columns[1..] <==>
           && l != "" && records[0].fields.Some?
           && exists j :: 0 <= j < |records[0].fields.value| && records[0].fields.value[j].fieldLabel == Named(l)
  {
    var fs := if records[0].fields.Some? then records[0].fields.value else [];
    LabelsMembers(fs);
    assert Columns(records[0])[1..] == Labels(fs);
  }

  /** One row per record, in input order, each the record's own dictionary
      projected onto the columns. */
  lemma TableRows(records: seq<Record>, fileTypes: set<string>, resolve: string -> string)
    requires BuildTable(records, fileTypes, resolve).Success?
    ensures var t := BuildTable(records, fileTypes, resolve).value;
      && |t.rows| == |records|
      && forall i :: 0 <= i < |records| ==>
           && RecordRow(records[i], fileTypes, resolve).Success?
           && t.rows[i] == Project(t.columns, RecordRow(records[i], fileTypes, resolve).value)
  {
    RowsSuccess(records, fileTypes, resolve);
  }

  /** The `HORODATEUR` cell of every row is the record's `createdAt` printed
      as `YYYY-MM-DD HH:MM:SS`, whatever field carries that label. */
  lemma TimestampCell(records: seq<Record>, fileTypes: set<string>, resolve: string -> string, i: int)
    requires BuildTable(records, fileTypes, resolve).Success? && 0 <= i < |records|
    ensures var t := BuildTable(records, fileTypes, resolve).value;
      && i < |t.rows| && |t.rows[i]| == |t.columns| >= 1
      && Timestamps.ToDateTime(Str(records[i].createdAt)).Some?
      && t.rows[i][0] == Some(JStr(Timestamps.ToDateTime(Str(records[i].createdAt)).value))
  {
    TableRows(records, fileTypes, resolve);
    TableColumns(records, fileTypes, resolve);
  }

  /** A field cell: the last field of the record carrying a column's label
      fills that column, with file-storage values resolved. */
  lemma FieldCell(records: seq<Record>, fileTypes: set<string>, resolve: string -> string,
                  i: int, j: int, k: int)
    requires BuildTable(records, fileTypes, resolve).Success? && 0 <= i < |records|
    requires var t := BuildTable(records, fileTypes, resolve).value;
      && 0 < k < |t.columns| && t.columns[k] != Timestamp
      && records[i].fields.Some? && LastLabelled(records[i].fields.value, j, t.columns[k])
    ensures var t := BuildTable(records, fileTypes, resolve).value;
      && i < |t.rows| && |t.rows[i]| == |t.columns|
      && t.rows[i][k] == Some(Cell(records[i].fields.value[j], fileTypes, resolve))
  {
    TableRows(records, fileTypes, resolve);
    var t := BuildTable(records, fileTypes, resolve).value;
    RowDictLast(records[i].fields.value, fileTypes, resolve, j, t.columns[k]);
  }

  /** A record that lacks a column's label leaves that cell empty. */
  lemma MissingCell(records: seq<Record>, fileTypes: set<string>, resolve: string -> string,
                    i: int, k: int)
    requires BuildTable(records, fileTypes, resolve).Success? && 0 <= i < |records|
    requires var t := BuildTable(records, fileTypes, resolve).value;
      && 0 < k < |t.columns| && t.columns[k] != Timestamp && records[i].fields.Some?
      && forall j :: 0 <= j < |records[i].fields.value| ==> records[i].fields.value[j].fieldLabel != Named(t.columns[k])
    ensures var t := BuildTable(records, fileTypes, resolve).value;
      && i < |t.rows| && |t.rows[i]| == |t.columns| && t.rows[i][k] == None
  {
    TableRows(records, fileTypes, resolve);
    RowDictSpec(records[i].fields.value, fileTypes, resolve);
  }

  /** The table fails to build exactly when the list is empty or some record
      cannot be turned into a row. */
  lemma TableFailure(records: seq<Record>, fileTypes: set<string>, resolve: string -> string)
    ensures BuildTable(records, fileTypes, resolve).Failure? <==>
      records == [] || exists i :: 0 <= i < |records| && RecordRow(records[i], fileTypes, resolve).Failure?
  {
    if BuildTable(records, fileTypes, resolve).Failure? && records != [] {
      RowsFailure(records, fileTypes, resolve);
    } else if Rows(records, fileTypes, resolve).Success? {
      RowsSuccess(records, fileTypes, resolve);
    }
  }

  /** Splitting at commas and joining again gives the string back. */
  lemma {:induction false} JoinSplit(s: string)
    ensures JoinCommas(SplitCommas(s)) == s
  {
    if s != [] {
      JoinSplit(s[1..]);
      var rest := SplitCommas(s[1..]);
      assert s == [s[0]] + s[1..];
      if s[0] == ',' {
        var r := [""] + rest;
        assert r[0] == "" && r[1..] == rest;
        assert JoinCommas(r) == "" + "," + JoinCommas(rest);
      } else {
        var r := [[s[0]] + rest[0]] + rest[1..];
        if |rest| == 1 {
          assert r == [[s[0]] + rest[0]];
          assert JoinCommas(rest) == rest[0];
        } else {
          assert r[0] == [s[0]] + rest[0] && r[1..] == rest[1..];
          assert JoinCommas(r) == ([s[0]] + rest[0]) + "," + JoinCommas(rest[1..]);
          assert JoinCommas(rest) == rest[0] + "," + JoinCommas(rest[1..]);
        }
      }
    }
  }

  /** Joining comma-free pieces and splitting again gives the pieces back. */
  lemma {:induction false} SplitJoin(ps: seq<string>)
    requires |ps| >= 1 && forall p :: p in ps ==> ',' !in p
    ensures SplitCommas(JoinCommas(ps)) == ps
  {
    if |ps| == 1 {
      SplitNoComma(ps[0]);
    } else {
      SplitJoin(ps[1..]);
      SplitPrefix(ps[0], JoinCommas(ps[1..]));
    }
  }

  lemma {:induction false} SplitNoComma(s: string)
    requires ',' !in s
    ensures SplitCommas(s) == [s]
  {
    if s != [] {
      assert forall c :: c in s[1..] ==> c in s;
      SplitNoComma(s[1..]);
      assert [s[0]] + s[1..] == s;
    }
  }

  /** A comma-free piece, a comma, then the rest split on its own. */
  lemma {:induction false} SplitPrefix(p: string, rest: string)
    requires ',' !in p
    ensures SplitCommas(p + "," + rest) == [p] + SplitCommas(rest)
  {
    if p == [] {
      assert p + "," + rest == [','] + rest;
      assert ([','] + rest)[1..] == rest;
    } else {
      var s := p + "," + rest;
      assert s[0] == p[0] && s[1..] == p[1..] + "," + rest;
      SplitPrefix(p[1..], rest);
      assert [p[0]] + p[1..] == p;
    }
  }

  /** A file-storage cell holds one URL per object name of the value, in
      order, as long as URLs hold no comma; other types pass the value
      through unchanged. */
  lemma FileCell(f: Field, fileTypes: set<string>, resolve: string -> string)
    requires forall s :: ',' !in resolve(s)
    ensures f.kind in fileTypes ==>
      && Cell(f, fileTypes, resolve).JStr?
      && SplitCommas(Cell(f, fileTypes, resolve).s) == MapStrings(resolve, SplitCommas(Str(f.value)))
      && |SplitCommas(Cell(f, fileTypes, resolve).s)| == |SplitCommas(Str(f.value))|
    ensures f.kind !in fileTypes ==> Cell(f, fileTypes, resolve) == f.value
  {
    if f.kind in fileTypes {
      var urls := MapStrings(resolve, SplitCommas(Str(f.value)));
      assert forall p :: p in urls ==> ',' !in p;
      SplitJoin(urls);
    }
  }
}
