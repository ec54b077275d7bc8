/** The exporter's record transformation: one 7-field row per library item
    (`get_library`), and the CSV layout of a header followed by the rows
    (`write_library`). Rows are sequences of field values; the text quoting
    done by Python's csv writer is not part of this model. */
module AudibleLibrary {
  import opened Payload
  import Runtime
  import Contributors

  /** One CSV record: the values of its fields, in column order. */
  type Row = seq<Json>

  /** The column names `write_library` puts in the header. */
  const FieldNames: seq<string> :=
    ["authors", "title", "narrators", "runtime_mmm", "runtime_hm", "released", "purchased"]

  /** The header record: the column names as text fields. */
  function HeaderRow(): Row {
    seq(|FieldNames|, k requires 0 <= k < |FieldNames| => JString(FieldNames[k]))
  }

  /** Why the export stops with an uncaught exception. */
  datatype Crash =
    | PayloadNotObject       // `library.get` on a value that is not a dict: AttributeError
    | ItemsNotIterable       // `for book in items` on None, a bool or an int: TypeError
    | ItemNotObject(index: nat)  // `book.get` on an item that is not a dict: AttributeError

  /** What the loop of `get_library` runs over: `library.get("items", [])`. */
  function Books(library: Json): Result<seq<Json>, Crash> {
    match library
    case JObject(fields) =>
      (match Iterate(Get(fields, "items", JArray([])))
       case Some(books) => Success(books)
       case None => Failure(ItemsNotIterable))
    case _ => Failure(PayloadNotObject)
  }

  /** The flat record exported for one book, field by field. */
  datatype ExportRecord = ExportRecord(
    authors: string,
    title: Json,
    narrators: string,
    runtimeMinutes: Json,
    runtimeHM: string,
    released: Json,
    purchased: Json)

  /** The fields the loop of `get_library` reads from one book, with the
      default for every missing key. */
  function Project(book: seq<(string, Json)>): ExportRecord {
    var runtime := Runtime.ConvertTime(Get(book, "runtime_length_min", JInt(0)));
    ExportRecord(
      authors := Contributors.GetContributors(Get(book, "authors", JArray([]))),
      title := Get(book, "title", JString("Unknown Title")),
      narrators := Contributors.GetContributors(Get(book, "narrators", JArray([]))),
      runtimeMinutes := runtime.0,
      runtimeHM := runtime.1,
      released := Get(book, "release_date", JString("Unknown Release Date")),
      purchased := Get(book, "purchase_date", JString("Unknown Purchase Date")))
  }

  /** The list `get_library` appends for a record. */
  function ToRow(rec: ExportRecord): Row {
    [JString(rec.authors), rec.title, JString(rec.narrators), rec.runtimeMinutes,
     JString(rec.runtimeHM), rec.released, rec.purchased]
  }

  /** The row built for one book. */
  function BookRow(book: seq<(string, Json)>): Row {
    ToRow(Project(book))
  }

  /** The field of a record that the column with the given header name holds. */
  function Column(rec: ExportRecord, name: string): Json {
    if name == "authors" then JString(rec.authors)
    else if name == "title" then rec.title
    else if name == "narrators" then JString(rec.narrators)
    else if name == "runtime_mmm" then rec.runtimeMinutes
    else if name == "runtime_hm" then JString(rec.runtimeHM)
    else if name == "released" then rec.released
    else if name == "purchased" then rec.purchased
    else JNull
  }

  /** A row has the header's 7 fields, and each one sits under the header
      name that describes it. */
  lemma RowMatchesHeader(rec: ExportRecord)
    ensures |ToRow(rec)| == |HeaderRow()| == |FieldNames|
    ensures forall k :: 0 <= k < |FieldNames| ==>
      HeaderRow()[k] == JString(FieldNames[k]) && ToRow(rec)[k] == Column(rec, FieldNames[k])
  {
  }

  /** Missing keys get their defaults: the sentinel texts, a zero runtime,
      and an empty contributor list, which gives "" and not "N/A". */
  lemma ProjectDefaults(book: seq<(string, Json)>)
    ensures !HasKey(book, "authors") ==> Project(book).authors == ""
    ensures !HasKey(book, "title") ==> Project(book).title == JString("Unknown Title")
    ensures !HasKey(book, "narrators") ==> Project(book).narrators == ""
    ensures !HasKey(book, "runtime_length_min") ==>
      Project(book).runtimeMinutes == JInt(0) && Project(book).runtimeHM == "0:00"
    ensures !HasKey(book, "release_date") ==> Project(book).released == JString("Unknown Release Date")
    ensures !HasKey(book, "purchase_date") ==> Project(book).purchased == JString("Unknown Purchase Date")
  {
    Runtime.ZeroRuntime();
    Contributors.EmptyList();
    LookupFindsKey(book, "authors");
    LookupFindsKey(book, "title");
    LookupFindsKey(book, "narrators");
    LookupFindsKey(book, "runtime_length_min");
    LookupFindsKey(book, "release_date");
    LookupFindsKey(book, "purchase_date");
  }

  /** Fields that are present reach the record unchanged; present contributor
      lists and runtimes go through `get_contributors` and `convert_time`. */
  lemma ProjectPassesFields(book: seq<(string, Json)>)
    ensures Lookup(book, "title").Some? ==> Project(book).title == Lookup(book, "title").value
    ensures Lookup(book, "release_date").Some? ==>
      Project(book).released == Lookup(book, "release_date").value
    ensures Lookup(book, "purchase_date").Some? ==>
      Project(book).purchased == Lookup(book, "purchase_date").value
    ensures Lookup(book, "authors").Some? ==>
      Project(book).authors == Contributors.GetContributors(Lookup(book, "authors").value)
    ensures Lookup(book, "narrators").Some? ==>
      Project(book).narrators == Contributors.GetContributors(Lookup(book, "narrators").value)
    ensures Lookup(book, "runtime_length_min").Some? ==>
      (Project(book).runtimeMinutes, Project(book).runtimeHM) ==
      Runtime.ConvertTime(Lookup(book, "runtime_length_min").value)
  {
  }

  /** Every item of the payload is a dict. */
  predicate AllObjects(books: seq<Json>) {
    forall k :: 0 <= k < |books| ==> books[k].JObject?
  }

  /** The rows `row` builds for a list of books, one per book in order, or
      the crash at the first book that is not a dict. Which books crash the
      loop does not depend on how a row is built, so the lemmas below hold
      for every `row`. */
  function RowsBy(books: seq<Json>, row: seq<(string, Json)> -> Row): Result<seq<Row>, Crash> {
    if |books| == 0 then Success([])
    else
      var last := books[|books| - 1];
      match RowsBy(books[..|books| - 1], row)
      case Failure(e) => Failure(e)
      case Success(rows) =>
        if last.JObject? then Success(rows + [row(last.fields)])
        else Failure(ItemNotObject(|books| - 1))
  }

  /** The rows of the exported file for a list of books. */
  function Rows(books: seq<Json>): Result<seq<Row>, Crash> {
    RowsBy(books, BookRow)
  }

  /** The rows exist exactly when every book is a dict, and then there is
      one per book. */
  lemma {:induction false} RowsSucceed(books: seq<Json>, row: seq<(string, Json)> -> Row)
    ensures RowsBy(books, row).Success? <==> AllObjects(books)
    ensures RowsBy(books, row).Success? ==> |RowsBy(books, row).value| == |books|
  {
    if |books| > 0 {
      var front := books[..|books| - 1];
      RowsSucceed(front, row);
      if AllObjects(books) {
        forall k | 0 <= k < |front| ensures front[k].JObject? {
          assert front[k] == books[k];
        }
      } else {
        var j :| 0 <= j < |books| && !books[j].JObject?;
        if j < |front| {
          assert front[j] == books[j];
        }
      }
    }
  }

  /** The row at each position is the row of the book at that position. */
  lemma {:induction false} RowsInOrder(books: seq<Json>, row: seq<(string, Json)> -> Row, k: nat)
    requires RowsBy(books, row).Success?
    requires k < |books|
    ensures books[k].JObject? && k < |RowsBy(books, row).value|
    ensures RowsBy(books, row).value[k] == row(books[k].fields)
  {
    var front := books[..|books| - 1];
    RowsSucceed(front, row);
    if k < |books| - 1 {
      RowsInOrder(front, row, k);
      assert front[k] == books[k];
    }
  }

  /** A crash names the first book that is not a dict. */
  lemma {:induction false} RowsCrash(books: seq<Json>, row: seq<(string, Json)> -> Row)
    requires RowsBy(books, row).Failure?
    ensures RowsBy(books, row).error.ItemNotObject?
    ensures RowsBy(books, row).error.index < |books|
    ensures !books[RowsBy(books, row).error.index].JObject?
    ensures forall k :: 0 <= k < RowsBy(books, row).error.index ==> books[k].JObject?
  {
    var front := books[..|books| - 1];
    if RowsBy(front, row).Failure? {
      RowsCrash(front, row);
      forall k | 0 <= k <= RowsBy(front, row).error.index ensures front[k] == books[k] { }
    } else {
      RowsSucceed(front, row);
      forall k | 0 <= k < |front| ensures books[k].JObject? {
        assert front[k] == books[k];
      }
    }
  }

  /** Once a prefix of the books crashes, the whole list crashes the same way. */
  lemma {:induction false} RowsCrashSticks(books: seq<Json>, row: seq<(string, Json)> -> Row, n: nat)
    requires n <= |books|
    requires RowsBy(books[..n], row).Failure?
    ensures RowsBy(books, row) == RowsBy(books[..n], row)
  {
    if n < |books| {
      var front := books[..|books| - 1];
      assert front[..n] == books[..n];
      RowsCrashSticks(front, row, n);
    } else {
      assert books[..n] == books;
    }
  }

  /** One more book: a dict adds its row, anything else is the crash. */
  lemma RowsStep(books: seq<Json>, row: seq<(string, Json)> -> Row, i: nat)
    requires i < |books|
    requires RowsBy(books[..i], row).Success?
    ensures books[i].JObject? ==>
      RowsBy(books[..i + 1], row) == Success(RowsBy(books[..i], row).value + [row(books[i].fields)])
    ensures !books[i].JObject? ==> RowsBy(books[..i + 1], row) == Failure(ItemNotObject(i))
  {
    assert books[..i + 1][..i] == books[..i];
  }

  /** `get_library` from the listing onward: one row per item, in the order
      the items come, or the crash at the first item that is not a dict. */
  method GetLibrary(library: Json) returns (r: Result<seq<Row>, Crash>)
    ensures Books(library).Failure? ==> r == Failure(Books(library).error)
    ensures Books(library).Success? ==> r == Rows(Books(library).value)
  {
    var listing := Books(library);
    if listing.Failure? {
      return Failure(listing.error);
    }
    var books := listing.value;
    var bookList: seq<Row> := [];
    var i := 0;
    while i < |books|
      invariant 0 <= i <= |books|
      invariant Rows(books[..i]) == Success(bookList)
    {
      var book := books[i];
      RowsStep(books, BookRow, i);
      if !book.JObject? {
        RowsCrashSticks(books, BookRow, i + 1);
        return Failure(ItemNotObject(i));
      }
      bookList := bookList + [BookRow(book.fields)];
      i := i + 1;
    }
    assert books[..i] == books;
    return Success(bookList);
  }

  /** A payload without an `items` key exports no rows. */
  lemma NoItemsNoRows(fields: seq<(string, Json)>)
    requires !HasKey(fields, "items")
    ensures Books(JObject(fields)) == Success([])
  {
    LookupFindsKey(fields, "items");
  }

  /** The records a csv writer has emitted so far, oldest first. */
  class RowWriter {
    var records: seq<Row>

    /** A writer on a file just opened for writing, which is empty. */
    constructor ()
      ensures records == []
    {
      records := [];
    }

    /** `writer.writerow(row)`. */
    method WriteRow(row: Row)
      modifies this
      ensures records == old(records) + [row]
    {
      records := records + [row];
    }

    /** `writer.writerows(rows)`: each row in order. */
    method WriteRows(rows: seq<Row>)
      modifies this
      ensures records == old(records) + rows
    {
      for i := 0 to |rows|
        invariant records == old(records) + rows[..i]
      {
        WriteRow(rows[i]);
      }
      assert rows[..|rows|] == rows;
    }
  }

  /** The records of the output file for the given rows. */
  function CsvRecords(library: seq<Row>): (r: seq<Row>)
    ensures |r| == |library| + 1
    ensures r[0] == HeaderRow() && r[1..] == library
  {
    [HeaderRow()] + library
  }

  /** `write_library`: the header, then the rows unchanged and in order, on a
      freshly opened file; the result is what the file holds. */
  method WriteLibrary(library: seq<Row>) returns (written: seq<Row>)
    ensures written == CsvRecords(library)
  {
    var writer := new RowWriter();
    writer.WriteRow(HeaderRow());
    writer.WriteRows(library);
    written := writer.records;
  }

  /** `main` without its logging: `get_library` then `write_library`. For N
      items the file holds N + 1 records: the header, then each item's row in
      the order of the items. */
  method Export(library: Json) returns (r: Result<seq<Row>, Crash>)
    ensures r.Success? <==> Books(library).Success? && AllObjects(Books(library).value)
    ensures r.Success? ==>
      && |r.value| == |Books(library).value| + 1
      && r.value[0] == HeaderRow()
      && Rows(Books(library).value) == Success(r.value[1..])
  {
    var rows := GetLibrary(library);
    if rows.Failure? {
      if Books(library).Success? {
        RowsSucceed(Books(library).value, BookRow);
      }
      return Failure(rows.error);
    }
    RowsSucceed(Books(library).value, BookRow);
    var written := WriteLibrary(rows.value);
    return Success(written);
  }
}
