/** The values the sales table is made of. Amounts and quantities are whole numbers
    (an amount in grosze), so sums and means are exact. */
module Table {

  /** A parsed `Data` value: its calendar day (days from a fixed epoch) and the time within
      that day. The date part, `dt.date`, is the day. */
  datatype Timestamp = Timestamp(day: int, timeOfDay: nat)

  /** One normalised sales record: columns Data, Produkt, Kategoria, Sprzedaż, Ilość. */
  datatype Row = Row(date: Timestamp, product: string, category: string, amount: int, qty: int)

  /** A cell of the data frame: text as read from the file, or a converted value. */
  datatype Cell = Text(text: string) | Stamp(stamp: Timestamp) | Number(number: int)

  /** A data frame: column names and the records, a cell per column. */
  datatype Frame = Frame(headers: seq<string>, records: seq<seq<Cell>>)

  /** Every record has one cell per column. */
  ghost predicate Rectangular(f: Frame)
  {
    forall i :: 0 <= i < |f.records| ==> |f.records[i]| == |f.headers|
  }

  /** A CSV file as the reader hands it over: headers and the text of every cell. */
  datatype RawTable = RawTable(headers: seq<string>, records: seq<seq<string>>)

  /** The reader always yields one cell per header in every record. */
  type CsvTable = t: RawTable | forall i :: 0 <= i < |t.records| ==> |t.records[i]| == |t.headers|
    witness RawTable([], [])

  /** What reading the upload produced: a table, or the reader's error message. */
  datatype CsvRead = Parsed(table: CsvTable) | ReadError(message: string)

  // Column accessors, named so that the same function value is used everywhere.
  function Day(r: Row): int { r.date.day }
  function Product(r: Row): string { r.product }
  function Category(r: Row): string { r.category }
  function Amount(r: Row): int { r.amount }
  function Qty(r: Row): int { r.qty }

  predicate IntLess(a: int, b: int) { a < b }
}
