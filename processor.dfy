/** `DataProcessor` of processor.py: the checked load of a sales file (null check, read,
    column validation, type preparation, every failure rewrapped as one error) and the
    indicators computed from the loaded table. */
module Processor {

  import opened Wrappers
  import opened Table
  import opened Joining
  import Kpis

  const DATA: string := "Data"
  const PRODUCT: string := "Produkt"
  const CATEGORY: string := "Kategoria"
  const AMOUNT: string := "Sprzedaż"
  const QUANTITY: string := "Ilość"

  /** `DataProcessor.REQUIRED_COLUMNS`, in its declared order. */
  const REQUIRED_COLUMNS: seq<string> := [DATA, PRODUCT, CATEGORY, AMOUNT, QUANTITY]

  const NO_FILE_MESSAGE: string := "Nie przekazano pliku."
  const MISSING_COLUMNS_PREFIX: string := "Brak wymaganych kolumn w pliku: "
  const LOAD_FAILURE_PREFIX: string :=
    "Nie można przetworzyć pliku. Upewnij się, że to poprawny plik CSV. Błąd: "

  // ---------------------------------------------------------------- column validation

  /** a lists some of b's elements, in b's order. */
  ghost predicate Subsequence(a: seq<string>, b: seq<string>)
    decreases |b|
  {
    if a == [] then true
    else if b == [] then false
    else (a[0] == b[0] && Subsequence(a[1..], b[1..])) || Subsequence(a, b[1..])
  }

  /** The names that are not headers, in the order the names are listed. */
  function Absent(names: seq<string>, headers: seq<string>): (missing: seq<string>)
    ensures forall c :: c in missing <==> c in names && c !in headers
    ensures Subsequence(missing, names)
    decreases |names|
  {
    if names == [] then []
    else if names[0] in headers then Absent(names[1..], headers)
    else [names[0]] + Absent(names[1..], headers)
  }

  /** `[col for col in REQUIRED_COLUMNS if col not in df.columns]`. */
  function MissingColumns(headers: seq<string>): seq<string>
  {
    Absent(REQUIRED_COLUMNS, headers)
  }

  /** All five required columns are present. */
  ghost predicate HasRequired(headers: seq<string>)
  {
    DATA in headers && PRODUCT in headers && CATEGORY in headers && AMOUNT in headers && QUANTITY in headers
  }

  /** The check of `_validate_columns`: it fails exactly when a required column is absent. */
  function ColumnCheck(headers: seq<string>): (o: Outcome<string>)
    ensures o.Fail? <==> exists c :: c in REQUIRED_COLUMNS && c !in headers
    ensures o.Pass? <==> HasRequired(headers)
  {
    var missing := MissingColumns(headers);
    if missing == [] then Pass
    else
      assert missing[0] in missing;
      Fail(MISSING_COLUMNS_PREFIX + Join(missing))
  }

  // ---------------------------------------------------------------- type preparation

  /** The two conversions of `_prepare_data`: `pd.to_datetime` and `pd.to_numeric`. */
  datatype Conversion = ToDatetime | ToNumeric

  /** The library's cell parsers, which this model does not look inside: each turns a
      cell's text into a value or an error message. */
  datatype Parsers = Parsers(toDatetime: string -> Result<Timestamp, string>,
                             toNumeric: string -> Result<int, string>)

  /** Converts one cell; a cell already converted is left as it is. */
  function ConvertCell(c: Cell, conv: Conversion, p: Parsers): Result<Cell, string>
  {
    match c
    case Text(s) =>
      (match conv
       case ToDatetime =>
         (match p.toDatetime(s) case Success(t) => Success(Stamp(t)) case Failure(e) => Failure(e))
       case ToNumeric =>
         (match p.toNumeric(s) case Success(n) => Success(Number(n)) case Failure(e) => Failure(e)))
    case _ => Success(c)
  }

  /** Every cell of column j converts. */
  ghost predicate ColumnConverts(recs: seq<seq<Cell>>, j: nat, conv: Conversion, p: Parsers)
    requires forall i :: 0 <= i < |recs| ==> j < |recs[i]|
  {
    forall i :: 0 <= i < |recs| ==> ConvertCell(recs[i][j], conv, p).Success?
  }

  /** Converts column j of every record, all or nothing: it fails with the message of the
      first cell that does not convert, and otherwise overwrites exactly that column. */
  function ConvertColumn(recs: seq<seq<Cell>>, j: nat, conv: Conversion, p: Parsers): (r: Result<seq<seq<Cell>>, string>)
    requires forall i :: 0 <= i < |recs| ==> j < |recs[i]|
    ensures r.Success? <==> forall i :: 0 <= i < |recs| ==> ConvertCell(recs[i][j], conv, p).Success?
    ensures r.Success? ==>
      && |r.value| == |recs|
      && (forall i :: 0 <= i < |recs| ==> r.value[i] == recs[i][j := ConvertCell(recs[i][j], conv, p).value])
    ensures r.Failure? ==>
      exists i :: && 0 <= i < |recs|
                  && ConvertCell(recs[i][j], conv, p) == Failure(r.error)
                  && (forall k :: 0 <= k < i ==> ConvertCell(recs[k][j], conv, p).Success?)
    decreases |recs|
  {
    if recs == [] then Success([])
    else
      match ConvertCell(recs[0][j], conv, p)
      case Failure(e) => Failure(e)
      case Success(c) =>
        match ConvertColumn(recs[1..], j, conv, p)
        case Failure(e) =>
          assert forall k :: 0 <= k < |recs[1..]| ==> recs[1..][k] == recs[k + 1];
          Failure(e)
        case Success(rest) => Success([recs[0][j := c]] + rest)
  }

  function IndexOf(headers: seq<string>, name: string): (i: nat)
    requires name in headers
    ensures i < |headers| && headers[i] == name
    ensures forall k :: 0 <= k < i ==> headers[k] != name
  {
    if headers[0] == name then 0 else IndexOf(headers[1..], name) + 1
  }

  /** `df[name] = pd.to_datetime(df[name])` or `pd.to_numeric`: the named column overwritten. */
  function ConvertNamed(f: Frame, name: string, conv: Conversion, p: Parsers): (r: Result<Frame, string>)
    requires Rectangular(f) && name in f.headers
    ensures var j := IndexOf(f.headers, name);
      && (r.Success? <==> ColumnConverts(f.records, j, conv, p))
      && (r.Success? ==>
            && r.value.headers == f.headers
            && Rectangular(r.value)
            && |r.value.records| == |f.records|
            && (forall i :: 0 <= i < |f.records| ==>
                  r.value.records[i] == f.records[i][j := ConvertCell(f.records[i][j], conv, p).value]))
      && (r.Failure? ==>
            exists i :: 0 <= i < |f.records| && ConvertCell(f.records[i][j], conv, p) == Failure(r.error))
  {
    match ConvertColumn(f.records, IndexOf(f.headers, name), conv, p)
    case Failure(e) => Failure(e)
    case Success(recs) => Success(Frame(f.headers, recs))
  }

  /** The frame as the reader left it: rectangular, every cell text. */
  ghost predicate AsRead(f: Frame)
  {
    Rectangular(f) && forall i, j :: 0 <= i < |f.records| && 0 <= j < |f.records[i]| ==> f.records[i][j].Text?
  }

  /** A record whose Data cell is a timestamp, whose amount and quantity cells are numbers
      and whose product and category cells are text. */
  ghost predicate RecordTyped(headers: seq<string>, rec: seq<Cell>)
    requires HasRequired(headers) && |rec| == |headers|
  {
    && rec[IndexOf(headers, DATA)].Stamp?
    && rec[IndexOf(headers, PRODUCT)].Text?
    && rec[IndexOf(headers, CATEGORY)].Text?
    && rec[IndexOf(headers, AMOUNT)].Number?
    && rec[IndexOf(headers, QUANTITY)].Number?
  }

  /** The invariant of a constructed processor: validated columns, converted types. */
  ghost predicate Typed(f: Frame)
  {
    && Rectangular(f)
    && HasRequired(f.headers)
    && forall i :: 0 <= i < |f.records| ==> RecordTyped(f.headers, f.records[i])
  }

  /** `_prepare_data`: Data, then Sprzedaż, then Ilość, each converted as a whole column. */
  function Prepare(f: Frame, p: Parsers): (r: Result<Frame, string>)
    requires AsRead(f) && HasRequired(f.headers)
  {
    match ConvertNamed(f, DATA, ToDatetime, p)
    case Failure(e) => Failure(e)
    case Success(f1) =>
      match ConvertNamed(f1, AMOUNT, ToNumeric, p)
      case Failure(e) => Failure(e)
      case Success(f2) => ConvertNamed(f2, QUANTITY, ToNumeric, p)
  }

  /** `_prepare_data` succeeds exactly when every cell of Data parses as a date and every
      cell of Sprzedaż and Ilość as a number. */
  lemma PrepareSucceeds(f: Frame, p: Parsers)
    requires AsRead(f) && HasRequired(f.headers)
    ensures var iD, iA, iQ := IndexOf(f.headers, DATA), IndexOf(f.headers, AMOUNT), IndexOf(f.headers, QUANTITY);
      Prepare(f, p).Success? <==>
        && ColumnConverts(f.records, iD, ToDatetime, p)
        && ColumnConverts(f.records, iA, ToNumeric, p)
        && ColumnConverts(f.records, iQ, ToNumeric, p)
  {
    var iD, iA, iQ := IndexOf(f.headers, DATA), IndexOf(f.headers, AMOUNT), IndexOf(f.headers, QUANTITY);
    assert iD != iA && iD != iQ && iA != iQ;
    var r1 := ConvertNamed(f, DATA, ToDatetime, p);
    if r1.Success? {
      var f1 := r1.value;
      ConvertNamedOthers(f, DATA, ToDatetime, p, iA);
      ConvertNamedOthers(f, DATA, ToDatetime, p, iQ);
      assert IndexOf(f1.headers, AMOUNT) == iA && IndexOf(f1.headers, QUANTITY) == iQ;
      assert ColumnConverts(f1.records, iA, ToNumeric, p) == ColumnConverts(f.records, iA, ToNumeric, p);
      var r2 := ConvertNamed(f1, AMOUNT, ToNumeric, p);
      if r2.Success? {
        var f2 := r2.value;
        ConvertNamedOthers(f1, AMOUNT, ToNumeric, p, iQ);
        assert IndexOf(f2.headers, QUANTITY) == iQ;
        assert ColumnConverts(f2.records, iQ, ToNumeric, p) == ColumnConverts(f.records, iQ, ToNumeric, p);
      }
    }
  }

  /** After a successful `_prepare_data` the three columns hold the parsed values and every
      other cell, and the headers, are as they were. */
  lemma PrepareResult(f: Frame, p: Parsers)
    requires AsRead(f) && HasRequired(f.headers) && Prepare(f, p).Success?
    ensures var iD, iA, iQ := IndexOf(f.headers, DATA), IndexOf(f.headers, AMOUNT), IndexOf(f.headers, QUANTITY);
      var g := Prepare(f, p).value;
      && g.headers == f.headers
      && |g.records| == |f.records|
      && forall i :: 0 <= i < |f.records| ==>
           g.records[i] == f.records[i][iD := ConvertCell(f.records[i][iD], ToDatetime, p).value]
                                      [iA := ConvertCell(f.records[i][iA], ToNumeric, p).value]
                                      [iQ := ConvertCell(f.records[i][iQ], ToNumeric, p).value]
  {
    var iD, iA, iQ := IndexOf(f.headers, DATA), IndexOf(f.headers, AMOUNT), IndexOf(f.headers, QUANTITY);
    assert iD != iA && iD != iQ && iA != iQ;
    var f1 := ConvertNamed(f, DATA, ToDatetime, p).value;
    assert IndexOf(f1.headers, AMOUNT) == iA;
    var f2 := ConvertNamed(f1, AMOUNT, ToNumeric, p).value;
    assert IndexOf(f2.headers, QUANTITY) == iQ;
    forall i | 0 <= i < |f.records|
      ensures Prepare(f, p).value.records[i]
        == f.records[i][iD := ConvertCell(f.records[i][iD], ToDatetime, p).value]
                       [iA := ConvertCell(f.records[i][iA], ToNumeric, p).value]
                       [iQ := ConvertCell(f.records[i][iQ], ToNumeric, p).value]
    {
      assert f1.records[i][iA] == f.records[i][iA];
      assert f2.records[i][iQ] == f.records[i][iQ];
    }
  }

  /** A text cell that converts becomes a timestamp under `to_datetime` and a number under
      `to_numeric`. */
  lemma ConvertCellType(c: Cell, conv: Conversion, p: Parsers)
    requires c.Text? && ConvertCell(c, conv, p).Success?
    ensures conv == ToDatetime ==> ConvertCell(c, conv, p).value.Stamp?
    ensures conv == ToNumeric ==> ConvertCell(c, conv, p).value.Number?
  {
  }

  /** Overwriting three distinct positions of a record with a timestamp and two numbers
      keeps two other text positions as they were. */
  lemma UpdateTyped(rec: seq<Cell>, iD: nat, iA: nat, iQ: nat, iP: nat, iC: nat, cD: Cell, cA: Cell, cQ: Cell)
    requires iD < |rec| && iA < |rec| && iQ < |rec| && iP < |rec| && iC < |rec|
    requires iD != iA && iD != iQ && iA != iQ
    requires iP != iD && iP != iA && iP != iQ && iC != iD && iC != iA && iC != iQ
    requires cD.Stamp? && cA.Number? && cQ.Number? && rec[iP].Text? && rec[iC].Text?
    ensures var r := rec[iD := cD][iA := cA][iQ := cQ];
      r[iD].Stamp? && r[iA].Number? && r[iQ].Number? && r[iP].Text? && r[iC].Text?
  {
  }

  /** One record after the three conversions: its cells have the types the processor needs. */
  lemma RecordConverted(headers: seq<string>, rec: seq<Cell>, p: Parsers)
    requires HasRequired(headers) && |rec| == |headers|
    requires forall j :: 0 <= j < |rec| ==> rec[j].Text?
    requires ConvertCell(rec[IndexOf(headers, DATA)], ToDatetime, p).Success?
    requires ConvertCell(rec[IndexOf(headers, AMOUNT)], ToNumeric, p).Success?
    requires ConvertCell(rec[IndexOf(headers, QUANTITY)], ToNumeric, p).Success?
    ensures var iD, iA, iQ := IndexOf(headers, DATA), IndexOf(headers, AMOUNT), IndexOf(headers, QUANTITY);
      RecordTyped(headers, rec[iD := ConvertCell(rec[iD], ToDatetime, p).value]
                              [iA := ConvertCell(rec[iA], ToNumeric, p).value]
                              [iQ := ConvertCell(rec[iQ], ToNumeric, p).value])
  {
    var iD, iA, iQ := IndexOf(headers, DATA), IndexOf(headers, AMOUNT), IndexOf(headers, QUANTITY);
    var iP, iC := IndexOf(headers, PRODUCT), IndexOf(headers, CATEGORY);
    assert iD != iA && iD != iQ && iA != iQ;
    assert iP != iD && iP != iA && iP != iQ && iC != iD && iC != iA && iC != iQ;
    ConvertCellType(rec[iD], ToDatetime, p);
    ConvertCellType(rec[iA], ToNumeric, p);
    ConvertCellType(rec[iQ], ToNumeric, p);
    UpdateTyped(rec, iD, iA, iQ, iP, iC, ConvertCell(rec[iD], ToDatetime, p).value,
                ConvertCell(rec[iA], ToNumeric, p).value, ConvertCell(rec[iQ], ToNumeric, p).value);
  }

  /** A prepared frame satisfies the processor's invariant. */
  lemma PrepareTyped(f: Frame, p: Parsers)
    requires AsRead(f) && HasRequired(f.headers) && Prepare(f, p).Success?
    ensures Typed(Prepare(f, p).value)
  {
    var iD, iA, iQ := IndexOf(f.headers, DATA), IndexOf(f.headers, AMOUNT), IndexOf(f.headers, QUANTITY);
    PrepareSucceeds(f, p);
    PrepareResult(f, p);
    var g := Prepare(f, p).value;
    forall i | 0 <= i < |g.records| ensures |g.records[i]| == |g.headers| && RecordTyped(g.headers, g.records[i]) {
      RecordConverted(f.headers, f.records[i], p);
    }
  }

  /** Converting one named column keeps every other column of every record. */
  lemma ConvertNamedOthers(f: Frame, name: string, conv: Conversion, p: Parsers, j: nat)
    requires Rectangular(f) && name in f.headers && ConvertNamed(f, name, conv, p).Success?
    requires j < |f.headers| && j != IndexOf(f.headers, name)
    ensures var g := ConvertNamed(f, name, conv, p).value;
      forall i :: 0 <= i < |f.records| ==> g.records[i][j] == f.records[i][j]
  {
  }

  /** A Data cell that does not parse fails `_prepare_data` with that cell's message. */
  lemma PrepareFailsOnDate(f: Frame, p: Parsers)
    requires AsRead(f) && HasRequired(f.headers)
    requires !ColumnConverts(f.records, IndexOf(f.headers, DATA), ToDatetime, p)
    ensures Prepare(f, p).Failure?
    ensures var iD := IndexOf(f.headers, DATA);
      exists i :: 0 <= i < |f.records| && ConvertCell(f.records[i][iD], ToDatetime, p) == Failure(Prepare(f, p).error)
  {
  }

  /** With Data convertible, a Sprzedaż cell that does not parse fails `_prepare_data` with
      that cell's message. */
  lemma PrepareFailsOnAmount(f: Frame, p: Parsers)
    requires AsRead(f) && HasRequired(f.headers)
    requires ColumnConverts(f.records, IndexOf(f.headers, DATA), ToDatetime, p)
    requires !ColumnConverts(f.records, IndexOf(f.headers, AMOUNT), ToNumeric, p)
    ensures Prepare(f, p).Failure?
    ensures var iA := IndexOf(f.headers, AMOUNT);
      exists i :: 0 <= i < |f.records| && ConvertCell(f.records[i][iA], ToNumeric, p) == Failure(Prepare(f, p).error)
  {
    var iD, iA := IndexOf(f.headers, DATA), IndexOf(f.headers, AMOUNT);
    assert iD != iA;
    var f1 := ConvertNamed(f, DATA, ToDatetime, p).value;
    ConvertNamedOthers(f, DATA, ToDatetime, p, iA);
    assert IndexOf(f1.headers, AMOUNT) == iA;
    var e := ConvertNamed(f1, AMOUNT, ToNumeric, p).error;
    var i :| 0 <= i < |f1.records| && ConvertCell(f1.records[i][iA], ToNumeric, p) == Failure(e);
    assert f1.records[i][iA] == f.records[i][iA];
  }

  /** With Data and Sprzedaż convertible, a failing `_prepare_data` reports an Ilość cell that
      does not parse. */
  lemma PrepareFailsOnQuantity(f: Frame, p: Parsers)
    requires AsRead(f) && HasRequired(f.headers) && Prepare(f, p).Failure?
    requires ColumnConverts(f.records, IndexOf(f.headers, DATA), ToDatetime, p)
    requires ColumnConverts(f.records, IndexOf(f.headers, AMOUNT), ToNumeric, p)
    ensures var iQ := IndexOf(f.headers, QUANTITY);
      exists i :: 0 <= i < |f.records| && ConvertCell(f.records[i][iQ], ToNumeric, p) == Failure(Prepare(f, p).error)
  {
    var iD, iA, iQ := IndexOf(f.headers, DATA), IndexOf(f.headers, AMOUNT), IndexOf(f.headers, QUANTITY);
    assert iD != iA && iD != iQ && iA != iQ;
    var f1 := ConvertNamed(f, DATA, ToDatetime, p).value;
    ConvertNamedOthers(f, DATA, ToDatetime, p, iA);
    ConvertNamedOthers(f, DATA, ToDatetime, p, iQ);
    assert IndexOf(f1.headers, AMOUNT) == iA && IndexOf(f1.headers, QUANTITY) == iQ;
    var f2 := ConvertNamed(f1, AMOUNT, ToNumeric, p).value;
    ConvertNamedOthers(f1, AMOUNT, ToNumeric, p, iQ);
    assert IndexOf(f2.headers, QUANTITY) == iQ;
    var i :| 0 <= i < |f2.records| && ConvertCell(f2.records[i][iQ], ToNumeric, p) == Failure(Prepare(f, p).error);
    assert f2.records[i][iQ] == f.records[i][iQ];
  }

  // ---------------------------------------------------------------- the loaded table

  /** `pd.read_csv`'s frame: the file's headers, every cell as text. */
  function TextFrame(t: CsvTable): (f: Frame)
    ensures AsRead(f) && f.headers == t.headers && |f.records| == |t.records|
    ensures forall i, j :: 0 <= i < |t.records| && 0 <= j < |t.records[i]| ==> f.records[i][j] == Text(t.records[i][j])
  {
    Frame(t.headers, seq(|t.records|, i requires 0 <= i < |t.records| =>
                           seq(|t.records[i]|, j requires 0 <= j < |t.records[i]| => Text(t.records[i][j]))))
  }

  /** A typed record read as a sales row. */
  function RowOf(headers: seq<string>, rec: seq<Cell>): Row
    requires HasRequired(headers) && |rec| == |headers| && RecordTyped(headers, rec)
  {
    Row(rec[IndexOf(headers, DATA)].stamp,
        rec[IndexOf(headers, PRODUCT)].text,
        rec[IndexOf(headers, CATEGORY)].text,
        rec[IndexOf(headers, AMOUNT)].number,
        rec[IndexOf(headers, QUANTITY)].number)
  }

  /** The rows of a typed frame, in file order. */
  function Rows(f: Frame): (rows: seq<Row>)
    requires Typed(f)
    ensures |rows| == |f.records|
  {
    seq(|f.records|, i requires 0 <= i < |f.records| => RowOf(f.headers, f.records[i]))
  }

  /** The whole of `DataProcessor.__init__` as a value: null check, read, column validation,
      type preparation; the read, validation and preparation errors all come back under one
      prefix. */
  function Load(file: Option<CsvRead>, p: Parsers): (r: Result<Frame, string>)
    ensures r.Success? ==> Typed(r.value)
  {
    match file
    case None => Failure(NO_FILE_MESSAGE)
    case Some(ReadError(e)) => Failure(LOAD_FAILURE_PREFIX + e)
    case Some(Parsed(t)) =>
      match ColumnCheck(t.headers)
      case Fail(e) => Failure(LOAD_FAILURE_PREFIX + e)
      case Pass =>
        var f := TextFrame(t);
        match Prepare(f, p)
        case Failure(e) => Failure(LOAD_FAILURE_PREFIX + e)
        case Success(g) => PrepareTyped(f, p); Success(g)
  }

  // ---------------------------------------------------------------- properties of validation

  /** The missing-column list is exactly the required names absent from the headers, in
      the declared order, and it is empty exactly when all five are present. */
  lemma MissingColumnsSpec(headers: seq<string>)
    ensures forall c :: c in MissingColumns(headers) <==> c in REQUIRED_COLUMNS && c !in headers
    ensures Subsequence(MissingColumns(headers), REQUIRED_COLUMNS)
    ensures MissingColumns(headers) == [] <==> HasRequired(headers)
  {
    var m := MissingColumns(headers);
    if m != [] { assert m[0] in m; }
    if !HasRequired(headers) {
      assert DATA in REQUIRED_COLUMNS && PRODUCT in REQUIRED_COLUMNS && CATEGORY in REQUIRED_COLUMNS;
      assert AMOUNT in REQUIRED_COLUMNS && QUANTITY in REQUIRED_COLUMNS;
    }
  }

  /** The validation message carries the missing names comma-joined: splitting what follows
      the fixed prefix at ", " gives back every missing column and nothing else. */
  lemma MissingMessage(headers: seq<string>)
    requires ColumnCheck(headers).Fail?
    ensures var e := ColumnCheck(headers).error;
      && |MISSING_COLUMNS_PREFIX| <= |e|
      && e[..|MISSING_COLUMNS_PREFIX|] == MISSING_COLUMNS_PREFIX
      && Split(e[|MISSING_COLUMNS_PREFIX|..]) == MissingColumns(headers)
  {
    var m := MissingColumns(headers);
    var e := MISSING_COLUMNS_PREFIX + Join(m);
    assert e[|MISSING_COLUMNS_PREFIX|..] == Join(m);
    forall i | 0 <= i < |m| ensures ',' !in m[i] {
      assert m[i] in m;
    }
    SplitJoin(m);
  }

  lemma {:induction false} AbsentDependsOnlyOnNames(names: seq<string>, h1: seq<string>, h2: seq<string>)
    requires forall c :: c in names ==> (c in h1 <==> c in h2)
    ensures Absent(names, h1) == Absent(names, h2)
    decreases |names|
  {
    if names != [] {
      assert names[0] in names;
      assert forall c :: c in names[1..] ==> c in names;
      AbsentDependsOnlyOnNames(names[1..], h1, h2);
    }
  }

  /** Validation looks at nothing but the presence of the five names: extra columns and the
      order of the headers make no difference. */
  lemma ColumnCheckIgnoresExtras(h1: seq<string>, h2: seq<string>)
    requires forall c :: c in REQUIRED_COLUMNS ==> (c in h1 <==> c in h2)
    ensures ColumnCheck(h1) == ColumnCheck(h2)
  {
    AbsentDependsOnlyOnNames(REQUIRED_COLUMNS, h1, h2);
  }

  /** A file without the Kategoria column is refused naming that column alone. */
  lemma MissingCategoryExample()
    ensures ColumnCheck([DATA, PRODUCT, AMOUNT, QUANTITY, "Uwagi"]) == Fail(MISSING_COLUMNS_PREFIX + CATEGORY)
  {
    var h := [DATA, PRODUCT, AMOUNT, QUANTITY, "Uwagi"];
    assert CATEGORY !in h;
    assert Absent([QUANTITY], h) == [];
    assert Absent([AMOUNT, QUANTITY], h) == [];
    assert Absent([CATEGORY, AMOUNT, QUANTITY], h) == [CATEGORY];
    assert REQUIRED_COLUMNS[1..] == [PRODUCT, CATEGORY, AMOUNT, QUANTITY];
    assert REQUIRED_COLUMNS[1..][1..] == [CATEGORY, AMOUNT, QUANTITY];
    assert Absent([PRODUCT, CATEGORY, AMOUNT, QUANTITY], h) == [CATEGORY];
    assert MissingColumns(h) == [CATEGORY];
    assert Join([CATEGORY]) == CATEGORY;
  }

  // ---------------------------------------------------------------- properties of loading

  /** The error paths of `__init__`: no file is refused with its own message before anything
      is read, and every other failure carries the one load-failure prefix. */
  lemma LoadErrors(file: Option<CsvRead>, p: Parsers)
    ensures file.None? ==> Load(file, p) == Failure(NO_FILE_MESSAGE)
    ensures file.Some? && Load(file, p).Failure? ==>
      exists inner :: Load(file, p).error == LOAD_FAILURE_PREFIX + inner
  {
  }

  /** Columns are validated before any value is converted: with a required column missing
      the outcome is the validation error, whatever the parsers would have done. */
  lemma LoadValidatesFirst(t: CsvTable, p1: Parsers, p2: Parsers)
    requires !HasRequired(t.headers)
    ensures Load(Some(Parsed(t)), p1) == Load(Some(Parsed(t)), p2)
         == Failure(LOAD_FAILURE_PREFIX + MISSING_COLUMNS_PREFIX + Join(MissingColumns(t.headers)))
  {
    MissingColumnsSpec(t.headers);
    var e := MISSING_COLUMNS_PREFIX + Join(MissingColumns(t.headers));
    assert LOAD_FAILURE_PREFIX + e == LOAD_FAILURE_PREFIX + MISSING_COLUMNS_PREFIX + Join(MissingColumns(t.headers));
  }

  /** A column of the text frame converts exactly when the parser accepts each of its texts. */
  lemma TextColumnConverts(t: CsvTable, j: nat, conv: Conversion, p: Parsers)
    requires j < |t.headers|
    ensures ColumnConverts(TextFrame(t).records, j, conv, p) <==>
      forall i :: 0 <= i < |t.records| ==>
        (if conv == ToDatetime then p.toDatetime(t.records[i][j]).Success? else p.toNumeric(t.records[i][j]).Success?)
  {
    var f := TextFrame(t);
    assert forall i :: 0 <= i < |t.records| ==> f.records[i][j] == Text(t.records[i][j]);
  }

  /** Loading a read table succeeds exactly when the columns are all there and every Data
      cell parses as a date and every Sprzedaż and Ilość cell as a number. */
  lemma LoadSucceeds(t: CsvTable, p: Parsers)
    ensures Load(Some(Parsed(t)), p).Success? <==>
      && HasRequired(t.headers)
      && forall i :: 0 <= i < |t.records| ==>
           && p.toDatetime(t.records[i][IndexOf(t.headers, DATA)]).Success?
           && p.toNumeric(t.records[i][IndexOf(t.headers, AMOUNT)]).Success?
           && p.toNumeric(t.records[i][IndexOf(t.headers, QUANTITY)]).Success?
  {
    MissingColumnsSpec(t.headers);
    if HasRequired(t.headers) {
      var f := TextFrame(t);
      PrepareSucceeds(f, p);
      TextColumnConverts(t, IndexOf(t.headers, DATA), ToDatetime, p);
      TextColumnConverts(t, IndexOf(t.headers, AMOUNT), ToNumeric, p);
      TextColumnConverts(t, IndexOf(t.headers, QUANTITY), ToNumeric, p);
    }
  }

  /** One record read as text and then converted gives the row of its parsed values. */
  lemma RowOfConverted(h: seq<string>, raw: seq<string>, rec: seq<Cell>, p: Parsers)
    requires HasRequired(h) && |raw| == |h| && |rec| == |h|
    requires forall j :: 0 <= j < |rec| ==> rec[j] == Text(raw[j])
    requires ConvertCell(rec[IndexOf(h, DATA)], ToDatetime, p).Success?
    requires ConvertCell(rec[IndexOf(h, AMOUNT)], ToNumeric, p).Success?
    requires ConvertCell(rec[IndexOf(h, QUANTITY)], ToNumeric, p).Success?
    ensures var iD, iA, iQ := IndexOf(h, DATA), IndexOf(h, AMOUNT), IndexOf(h, QUANTITY);
      var c := rec[iD := ConvertCell(rec[iD], ToDatetime, p).value]
                  [iA := ConvertCell(rec[iA], ToNumeric, p).value]
                  [iQ := ConvertCell(rec[iQ], ToNumeric, p).value];
      && RecordTyped(h, c)
      && RowOf(h, c) == Row(p.toDatetime(raw[iD]).value, raw[IndexOf(h, PRODUCT)], raw[IndexOf(h, CATEGORY)],
                            p.toNumeric(raw[iA]).value, p.toNumeric(raw[iQ]).value)
  {
    var iD, iP, iC, iA, iQ := IndexOf(h, DATA), IndexOf(h, PRODUCT), IndexOf(h, CATEGORY), IndexOf(h, AMOUNT), IndexOf(h, QUANTITY);
    assert iD != iA && iD != iQ && iA != iQ;
    assert iP != iD && iP != iA && iP != iQ && iC != iD && iC != iA && iC != iQ;
    RecordConverted(h, rec, p);
    var c := rec[iD := ConvertCell(rec[iD], ToDatetime, p).value]
                [iA := ConvertCell(rec[iA], ToNumeric, p).value]
                [iQ := ConvertCell(rec[iQ], ToNumeric, p).value];
    assert c[iP] == Text(raw[iP]) && c[iC] == Text(raw[iC]);
    assert c[iD] == Stamp(p.toDatetime(raw[iD]).value);
    assert c[iA] == Number(p.toNumeric(raw[iA]).value);
    assert c[iQ] == Number(p.toNumeric(raw[iQ]).value);
  }

  /** A loaded table has one row per record of the file, in file order, holding the parsed
      date, the product and category text and the parsed amount and quantity. */
  lemma LoadRows(t: CsvTable, p: Parsers)
    requires Load(Some(Parsed(t)), p).Success?
    ensures HasRequired(t.headers)
    ensures var rows := Rows(Load(Some(Parsed(t)), p).value);
      && |rows| == |t.records|
      && forall i :: 0 <= i < |t.records| ==>
           var rec := t.records[i];
           && p.toDatetime(rec[IndexOf(t.headers, DATA)]).Success?
           && p.toNumeric(rec[IndexOf(t.headers, AMOUNT)]).Success?
           && p.toNumeric(rec[IndexOf(t.headers, QUANTITY)]).Success?
           && rows[i] == Row(p.toDatetime(rec[IndexOf(t.headers, DATA)]).value,
                             rec[IndexOf(t.headers, PRODUCT)],
                             rec[IndexOf(t.headers, CATEGORY)],
                             p.toNumeric(rec[IndexOf(t.headers, AMOUNT)]).value,
                             p.toNumeric(rec[IndexOf(t.headers, QUANTITY)]).value)
  {
    LoadSucceeds(t, p);
    var f := TextFrame(t);
    PrepareSucceeds(f, p);
    PrepareResult(f, p);
    var g := Load(Some(Parsed(t)), p).value;
    assert g == Prepare(f, p).value;
    forall i | 0 <= i < |t.records|
      ensures Rows(g)[i] == Row(p.toDatetime(t.records[i][IndexOf(t.headers, DATA)]).value,
                                t.records[i][IndexOf(t.headers, PRODUCT)],
                                t.records[i][IndexOf(t.headers, CATEGORY)],
                                p.toNumeric(t.records[i][IndexOf(t.headers, AMOUNT)]).value,
                                p.toNumeric(t.records[i][IndexOf(t.headers, QUANTITY)]).value)
    {
      RowOfConverted(t.headers, t.records[i], f.records[i], p);
    }
  }

  // ---------------------------------------------------------------- the processor object

  /** `DataProcessor`: holds the data frame `df`, which the constructor reads and then
      overwrites column by column; every processor `Create` returns holds a validated,
      typed frame. */
  class DataProcessor {
    var df: Frame

    ghost predicate Valid()
      reads this
    {
      Typed(df)
    }

    /** `self.df = pd.read_csv(uploaded_file)`. */
    constructor Read(t: CsvTable)
      ensures df == TextFrame(t)
    {
      df := TextFrame(t);
    }

    /** `_validate_columns`: reads `df`, changes nothing. */
    method ValidateColumns() returns (o: Outcome<string>)
      ensures o.Fail? <==> exists c :: c in REQUIRED_COLUMNS && c !in df.headers
      ensures o == ColumnCheck(df.headers)
    {
      var missing := MissingColumns(df.headers);
      if missing != [] {
        assert missing[0] in missing;
        return Fail(MISSING_COLUMNS_PREFIX + Join(missing));
      }
      return Pass;
    }

    /** `_prepare_data`: overwrites Data, then Sprzedaż, then Ilość with their conversions;
        an error stops it at the failing column, leaving the columns before it converted. */
    method PrepareData(p: Parsers) returns (o: Outcome<string>)
      requires AsRead(df) && HasRequired(df.headers)
      modifies this
      ensures o.Pass? <==> Prepare(old(df), p).Success?
      ensures o.Pass? ==> df == Prepare(old(df), p).value && Valid()
      ensures o.Fail? ==> o.error == Prepare(old(df), p).error
      ensures o.Fail? ==> df.headers == old(df).headers && |df.records| == |old(df).records|
    {
      ghost var f := df;
      var r := ConvertNamed(df, DATA, ToDatetime, p);
      if r.Failure? {
        return Fail(r.error);
      }
      df := r.value;
      r := ConvertNamed(df, AMOUNT, ToNumeric, p);
      if r.Failure? {
        return Fail(r.error);
      }
      df := r.value;
      r := ConvertNamed(df, QUANTITY, ToNumeric, p);
      if r.Failure? {
        return Fail(r.error);
      }
      df := r.value;
      PrepareTyped(f, p);
      o := Pass;
    }

    /** `__init__`: refuses a missing file, then reads, validates and prepares; any failure
        of those three comes back as one error with the load-failure prefix, and no
        processor exists afterwards. */
    static method Create(file: Option<CsvRead>, p: Parsers) returns (r: Result<DataProcessor, string>)
      ensures r.Failure? <==> Load(file, p).Failure?
      ensures r.Failure? ==> r.error == Load(file, p).error
      ensures r.Success? ==> fresh(r.value) && r.value.Valid() && r.value.df == Load(file, p).value
    {
      if file.None? {
        return Failure(NO_FILE_MESSAGE);
      }
      if file.value.ReadError? {
        return Failure(LOAD_FAILURE_PREFIX + file.value.message);
      }
      var dp := new DataProcessor.Read(file.value.table);
      var v := dp.ValidateColumns();
      if v.Fail? {
        return Failure(LOAD_FAILURE_PREFIX + v.error);
      }
      var o := dp.PrepareData(p);
      if o.Fail? {
        return Failure(LOAD_FAILURE_PREFIX + o.error);
      }
      return Success(dp);
    }

    /** `calculate_kpis`: absent for a table without rows (pandas' `idxmax` raises); else
        the total, the mean and the top product of the frame's rows. */
    function CalculateKpis(): (k: Option<Kpis.Indicators>)
      reads this
      requires Valid()
      ensures k.None? <==> |df.records| == 0
      ensures k.Some? ==>
        var rows := Rows(df);
        && k.value.totalSales == Kpis.TotalSales(rows)
        && k.value.averageSale * (|rows| as real) == k.value.totalSales as real
        && Kpis.IsTopProduct(rows, k.value.topProduct)
    {
      var rows := Rows(df);
      Kpis.TopProductSpec(rows);
      match Kpis.TopProduct(rows)
      case None => None
      case Some(top) => Some(Kpis.Indicators(Kpis.TotalSales(rows), Kpis.AverageSale(rows), top))
    }
  }
}
