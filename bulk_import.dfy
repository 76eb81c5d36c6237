/** The `bulk_import` action: every data row of the uploaded sheet (the
    header row is skipped) is parsed into student fields and upserted by
    `student_id`; rows whose first cell is empty are skipped, rows that are
    too short are reported, and the created and updated rows are counted. */
module BulkImport {
  import opened Common
  import opened Students
  import opened FeeModels
  import opened Cells

  // ---- Parsing one row -------------------------------------------------------

  /** The fields one row writes. The transport head is still a name here. */
  datatype RowFields = RowFields(
    studentId: string, name: string, studentClass: string, contact: string,
    hasTransport: bool, transportHeadName: Option<string>)

  /** A row that is long enough parses; reading a cell past the row's end
      raises, which the row's own `except` turns into a row error. */
  datatype Parse = Parsed(fields: RowFields) | TooShort

  function ParseRow(row: seq<Cell>): (p: Parse)
    ensures p.TooShort? <==> |row| < 6
  {
    if |row| < 6 then TooShort
    else
      var headName := if Truthy(row[5]) then Some(Strip(Str(row[5]))) else None;
      Parsed(RowFields(
        Strip(Str(row[0])), Strip(Str(row[1])), Strip(Str(row[2])),
        if Truthy(row[3]) then Strip(Str(row[3])) else "",
        TransportFlag(row[4]), headName))
  }

  /** An empty second cell is written as the name "None". */
  lemma EmptyNameIsNone(row: seq<Cell>)
    requires |row| >= 6 && row[1] == Empty
    ensures ParseRow(row).fields.name == "None"
  {
    assert ParseRow(row).fields.name == Strip(Str(row[1]));
    StripEmpty();
  }

  function IsTransportNamed(name: string): FeeHead -> bool
  {
    (h: FeeHead) => h.isTransportFee && Lower(h.name) == Lower(name)
  }

  /** `FeeHead.objects.filter(name__iexact=..., is_transport_fee=True).first()`:
      the matching transport head that comes first in primary-key order. */
  function TransportHead(heads: seq<FeeHead>, name: Option<string>): (r: Option<nat>)
    ensures r.Some? ==>
              && name.Some?
              && exists k :: 0 <= k < |heads| && heads[k].id == r.value && IsTransportNamed(name.value)(heads[k]) &&
                             forall m :: 0 <= m < k ==> !IsTransportNamed(name.value)(heads[m])
    ensures name.Some? && name.value != "" && (exists h :: h in heads && IsTransportNamed(name.value)(h)) ==> r.Some?
    ensures name.None? || name.value == "" ==> r.None?
  {
    if name.None? || name.value == "" then None
    else
      var found := Filter(heads, IsTransportNamed(name.value));
      if found == [] then None
      else
        FilterFirst(heads, IsTransportNamed(name.value));
        Some(found[0].id)
  }

  // ---- Upsert and the import loop ---------------------------------------------

  /** `Student.objects.update_or_create(student_id=..., defaults=...)`: an
      existing student gets the five fields, a new one is created with them
      and the next primary key. Returns whether a student was created. */
  function Upsert(store: map<string, Student>, f: RowFields, head: Option<nat>, pk: nat): (r: (map<string, Student>, bool))
    ensures r.0.Keys == store.Keys + {f.studentId}
    ensures r.1 <==> f.studentId !in store
    ensures f.studentId !in store ==> r.0[f.studentId].studentId == f.studentId
    ensures var s := r.0[f.studentId];
            s.name == f.name && s.studentClass == f.studentClass &&
            s.contactNumber == f.contact && s.hasTransport == f.hasTransport && s.transportFeeHead == head
    ensures f.studentId in store ==> r.0[f.studentId].id == store[f.studentId].id
                                     && r.0[f.studentId].status == store[f.studentId].status
    ensures forall k :: k in store && k != f.studentId ==> r.0[k] == store[k]
  {
    if f.studentId in store then
      var cur := store[f.studentId];
      (store[f.studentId := cur.(name := f.name, studentClass := f.studentClass, contactNumber := f.contact,
                                 hasTransport := f.hasTransport, transportFeeHead := head)], false)
    else
      (store[f.studentId := Student(pk, f.studentId, f.name, f.studentClass, f.contact, StatusActive,
                                    f.hasTransport, head)], true)
  }

  datatype RowError = RowError(row: nat, message: string)

  datatype ImportState = ImportState(
    store: map<string, Student>, nextPk: nat, created: nat, updated: nat, errors: seq<RowError>)

  /** The state after the rows seen so far; `failed` is set when a row with no
      cell at all made the whole request fail. Rows written before that stay
      written: there is no enclosing transaction. */
  datatype Run = Run(state: ImportState, failed: bool)

  /** One row, numbered as in the sheet. */
  function Step(s: ImportState, heads: seq<FeeHead>, row: seq<Cell>, rowNumber: nat): Run
  {
    if |row| == 0 then Run(s, true)
    else if !Truthy(row[0]) then Run(s, false)
    else match ParseRow(row)
      case TooShort =>
        Run(s.(errors := s.errors + [RowError(rowNumber, "tuple index out of range")]), false)
      case Parsed(f) =>
        var head := TransportHead(heads, f.transportHeadName);
        var (store', created) := Upsert(s.store, f, head, s.nextPk);
        if created then Run(s.(store := store', nextPk := s.nextPk + 1, created := s.created + 1), false)
        else Run(s.(store := store', updated := s.updated + 1), false)
  }

  /** The loop over the data rows, the first of which is sheet row 2. */
  function RunRows(s0: ImportState, heads: seq<FeeHead>, rows: seq<seq<Cell>>): Run
  {
    if rows == [] then Run(s0, false)
    else
      var before := RunRows(s0, heads, rows[..|rows| - 1]);
      if before.failed then before
      else Step(before.state, heads, rows[|rows| - 1], |rows| + 1)
  }

  /** The uploaded file: none, one the reader cannot open, or the data rows
      of its active sheet. */
  datatype Upload = NoFile | Unreadable | Sheet(rows: seq<seq<Cell>>)

  datatype ImportResponse =
    | NoFileUploaded
    | ParseFailed
    | Completed(created: nat, updated: nat, errors: seq<RowError>)

  function Start(store: map<string, Student>, nextPk: nat): ImportState
  {
    ImportState(store, nextPk, 0, 0, [])
  }

  method Import(upload: Upload, heads: seq<FeeHead>, store: map<string, Student>, nextPk: nat)
    returns (resp: ImportResponse, store': map<string, Student>)
    ensures upload.NoFile? ==> resp == NoFileUploaded && store' == store
    ensures upload.Unreadable? ==> resp == ParseFailed && store' == store
    ensures upload.Sheet? ==>
              var r := RunRows(Start(store, nextPk), heads, upload.rows);
              store' == r.state.store &&
              resp == (if r.failed then ParseFailed else Completed(r.state.created, r.state.updated, r.state.errors))
  {
    if upload.NoFile? {
      return NoFileUploaded, store;
    }
    if upload.Unreadable? {
      return ParseFailed, store;
    }
    var rows := upload.rows;
    var s := Start(store, nextPk);
    var i := 0;
    while i < |rows|
      invariant 0 <= i <= |rows|
      invariant RunRows(Start(store, nextPk), heads, rows[..i]) == Run(s, false)
    {
      RunRowsStep(Start(store, nextPk), heads, rows, i);
      var r := Step(s, heads, rows[i], i + 2);
      if r.failed {
        RunRowsStop(Start(store, nextPk), heads, rows, i + 1);
        return ParseFailed, r.state.store;
      }
      s := r.state;
      i := i + 1;
    }
    assert rows[..i] == rows;
    resp, store' := Completed(s.created, s.updated, s.errors), s.store;
  }

  lemma RunRowsStep(s0: ImportState, heads: seq<FeeHead>, rows: seq<seq<Cell>>, i: nat)
    requires i < |rows| && !RunRows(s0, heads, rows[..i]).failed
    ensures RunRows(s0, heads, rows[..i + 1]) == Step(RunRows(s0, heads, rows[..i]).state, heads, rows[i], i + 2)
  {
    assert rows[..i + 1][..i] == rows[..i];
  }

  /** Once a row has failed the request, the later rows are not looked at. */
  lemma {:induction false} RunRowsStop(s0: ImportState, heads: seq<FeeHead>, rows: seq<seq<Cell>>, i: nat)
    requires i <= |rows| && RunRows(s0, heads, rows[..i]).failed
    ensures RunRows(s0, heads, rows) == RunRows(s0, heads, rows[..i])
    decreases |rows| - i
  {
    if i < |rows| {
      RunRowsStop(s0, heads, rows, i + 1) by {
        assert rows[..i + 1][..i] == rows[..i];
      }
      assert RunRows(s0, heads, rows[..i + 1]) == RunRows(s0, heads, rows[..i]) by {
        assert rows[..i + 1][..i] == rows[..i];
      }
      assert rows[..|rows|] == rows;
    } else {
      assert rows[..i] == rows;
    }
  }

  // ---- Properties of the import -----------------------------------------------

  function FirstCellSet(row: seq<Cell>): bool { |row| > 0 && Truthy(row[0]) }

  /** When the request does not fail, every row with a first cell is counted
      exactly once: as created, as updated, or as an error. */
  lemma {:induction false} EveryRowCountedOnce(s0: ImportState, heads: seq<FeeHead>, rows: seq<seq<Cell>>)
    requires !RunRows(s0, heads, rows).failed
    ensures var s := RunRows(s0, heads, rows).state;
            s.created + s.updated + |s.errors| == s0.created + s0.updated + |s0.errors| + Count(rows, FirstCellSet)
    decreases |rows|
  {
    if rows != [] {
      var init := rows[..|rows| - 1];
      assert !RunRows(s0, heads, init).failed;
      EveryRowCountedOnce(s0, heads, init);
    }
  }

  /** A skipped row (empty first cell) changes nothing. */
  lemma SkippedRowChangesNothing(s: ImportState, heads: seq<FeeHead>, row: seq<Cell>, n: nat)
    requires |row| > 0 && !Truthy(row[0])
    ensures Step(s, heads, row, n) == Run(s, false)
  {
  }

  /** Student ids already present stay present, and the store grows by one
      student per created row: the count of created rows is exactly the
      growth of the store. */
  lemma {:induction false} CreatedIsGrowth(s0: ImportState, heads: seq<FeeHead>, rows: seq<seq<Cell>>)
    ensures var s := RunRows(s0, heads, rows).state;
            s0.store.Keys <= s.store.Keys && |s.store| - |s0.store| == s.created - s0.created
    decreases |rows|
  {
    if rows != [] {
      var init := rows[..|rows| - 1];
      CreatedIsGrowth(s0, heads, init);
      var before := RunRows(s0, heads, init);
      if !before.failed {
        StepGrowth(before.state, heads, rows[|rows| - 1], |rows| + 1);
      }
    }
  }

  /** One row grows the store by one student exactly when it is counted as
      created. */
  lemma StepGrowth(s: ImportState, heads: seq<FeeHead>, row: seq<Cell>, n: nat)
    ensures var t := Step(s, heads, row, n).state;
            s.store.Keys <= t.store.Keys && |t.store| - |s.store| == t.created - s.created
  {
    if |row| > 0 && Truthy(row[0]) && ParseRow(row).Parsed? {
      var f := ParseRow(row).fields;
      var (store', created) := Upsert(s.store, f, TransportHead(heads, f.transportHeadName), s.nextPk);
      if created {
        assert |store'.Keys| == |s.store.Keys + {f.studentId}| == |s.store.Keys| + 1;
      } else {
        assert store'.Keys == s.store.Keys;
      }
    }
  }

  /** The student a parsed row names ends up with that row's fields; other
      students are untouched by it. */
  lemma RowWritesItsStudent(s: ImportState, heads: seq<FeeHead>, row: seq<Cell>, n: nat)
    requires |row| >= 6 && Truthy(row[0])
    ensures var f := ParseRow(row).fields;
            var t := Step(s, heads, row, n).state.store;
            f.studentId in t &&
            t[f.studentId].name == f.name && t[f.studentId].studentClass == f.studentClass &&
            t[f.studentId].contactNumber == f.contact && t[f.studentId].hasTransport == f.hasTransport &&
            t[f.studentId].transportFeeHead == TransportHead(heads, f.transportHeadName) &&
            forall k :: k in s.store && k != f.studentId ==> t[k] == s.store[k]
  {
  }

  /** A row shorter than six cells is reported under its sheet row number
      and writes nothing. */
  lemma ShortRowReported(s: ImportState, heads: seq<FeeHead>, row: seq<Cell>, n: nat)
    requires 0 < |row| < 6 && Truthy(row[0])
    ensures Step(s, heads, row, n) == Run(s.(errors := s.errors + [RowError(n, "tuple index out of range")]), false)
  {
  }
}
