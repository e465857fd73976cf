/** The pure decoding rules of `stonedb/StoneDBSchema.java`: the type-name
    decoder, the composite data type with its byte-size table, the index-name
    quoting and the per-row rules applied to `information_schema` rows. The
    queries that fetch those rows are outside the model; the rows are inputs. */
module StoneDBSchema {
  import opened Wrappers
  import Text

  /** `StoneDBDataType`, in declaration order. */
  datatype DataType =
    | TinyInt | SmallInt | MediumInt | Int | BigInt | Float | Double | Decimal | Year
    | Time | Date | DateTime | Timestamp | Char | VarChar | TinyText | Text | MediumText
    | LongText | Binary | VarBinary | TinyBlob | Blob | MediumBlob | LongBlob

  /** The lower-case name `information_schema.columns.DATA_TYPE` uses for each type. */
  function TypeName(t: DataType): string {
    match t
    case TinyInt => "tinyint"
    case SmallInt => "smallint"
    case MediumInt => "mediumint"
    case Int => "int"
    case BigInt => "bigint"
    case Float => "float"
    case Double => "double"
    case Decimal => "decimal"
    case Year => "year"
    case Time => "time"
    case Date => "date"
    case DateTime => "datetime"
    case Timestamp => "timestamp"
    case Char => "char"
    case VarChar => "varchar"
    case TinyText => "tinytext"
    case Text => "text"
    case MediumText => "mediumtext"
    case LongText => "longtext"
    case Binary => "binary"
    case VarBinary => "varbinary"
    case TinyBlob => "tinyblob"
    case Blob => "blob"
    case MediumBlob => "mediumblob"
    case LongBlob => "longblob"
  }

  /** The five integer types, the only ones `getRandomWithoutNull` can size. */
  predicate IsInteger(t: DataType) {
    t in {TinyInt, SmallInt, MediumInt, Int, BigInt}
  }

  /** The seven numeric types the one-argument constructor gives a size. */
  predicate IsSized(t: DataType) {
    IsInteger(t) || t == Float || t == Double
  }

  /** `StoneDBCompositeDataType`: a type with a byte size; `-1` means "no size". */
  datatype CompositeDataType = CompositeDataType(dataType: DataType, size: int)

  /** The one-argument constructor `StoneDBCompositeDataType(dataType)`. */
  function OfType(t: DataType): (c: CompositeDataType)
    ensures c.dataType == t
    ensures c.size == -1 <==> !IsSized(t)
    ensures IsSized(t) ==> 1 <= c.size <= 8
  {
    var size := match t
      case TinyInt => 1
      case SmallInt => 2
      case MediumInt => 3
      case Int => 4
      case BigInt => 8
      case Float => 4
      case Double => 8
      case _ => -1;
    CompositeDataType(t, size)
  }

  /** `getPrimitiveDataType()`. */
  function PrimitiveDataType(c: CompositeDataType): DataType {
    c.dataType
  }

  /** `getPrimitiveDataType()` recovers the type given to the constructor. */
  lemma PrimitiveOfType(t: DataType)
    ensures PrimitiveDataType(OfType(t)) == t
  {
  }

  /** `getSize()`: an `AssertionError` carrying the type when no size was set. */
  function GetSize(c: CompositeDataType): (r: Result<int, CompositeDataType>)
    ensures r.Failure? <==> c.size == -1
    ensures r.Success? ==> r.value == c.size
    ensures r.Failure? ==> r.error == c
  {
    if c.size == -1 then Failure(c) else Success(c.size)
  }

  /** `getColumnCompositeDataType(typeString)`: every case builds its result
      with the one-argument constructor; an `AssertionError` carrying the
      string for any name that is not one of the 25 type names. */
  function ColumnCompositeDataType(typeString: string): (r: Result<CompositeDataType, string>)
    ensures r.Success? ==> TypeName(r.value.dataType) == typeString && r.value == OfType(r.value.dataType)
    ensures r.Failure? ==> r.error == typeString && forall t :: TypeName(t) != typeString
  {
    var named: Option<DataType> := match typeString
      case "tinyint" => Some(TinyInt)
      case "smallint" => Some(SmallInt)
      case "mediumint" => Some(MediumInt)
      case "int" => Some(Int)
      case "bigint" => Some(BigInt)
      case "float" => Some(Float)
      case "double" => Some(Double)
      case "decimal" => Some(Decimal)
      case "year" => Some(Year)
      case "time" => Some(Time)
      case "date" => Some(Date)
      case "datetime" => Some(DateTime)
      case "timestamp" => Some(Timestamp)
      case "char" => Some(Char)
      case "varchar" => Some(VarChar)
      case "tinytext" => Some(TinyText)
      case "text" => Some(Text)
      case "mediumtext" => Some(MediumText)
      case "longtext" => Some(LongText)
      case "binary" => Some(Binary)
      case "varbinary" => Some(VarBinary)
      case "tinyblob" => Some(TinyBlob)
      case "blob" => Some(Blob)
      case "mediumblob" => Some(MediumBlob)
      case "longblob" => Some(LongBlob)
      case _ => None;
    match named
    case Some(t) => Success(OfType(t))
    case None => Failure(typeString)
  }

  /** `getColumnType(typeString)`: the second, separately written switch. */
  function ColumnType(typeString: string): (r: Result<DataType, string>)
    ensures r.Success? ==> TypeName(r.value) == typeString
    ensures r.Failure? ==> r.error == typeString && forall t :: TypeName(t) != typeString
  {
    var named: Option<DataType> := match typeString
    case "tinyint" => Some(TinyInt)
    case "smallint" => Some(SmallInt)
    case "mediumint" => Some(MediumInt)
    case "int" => Some(Int)
    case "bigint" => Some(BigInt)
    case "float" => Some(Float)
    case "double" => Some(Double)
    case "decimal" => Some(Decimal)
    case "year" => Some(Year)
    case "time" => Some(Time)
    case "date" => Some(Date)
    case "datetime" => Some(DateTime)
    case "timestamp" => Some(Timestamp)
    case "char" => Some(Char)
    case "varchar" => Some(VarChar)
    case "tinytext" => Some(TinyText)
    case "text" => Some(Text)
    case "mediumtext" => Some(MediumText)
    case "longtext" => Some(LongText)
    case "binary" => Some(Binary)
    case "varbinary" => Some(VarBinary)
    case "tinyblob" => Some(TinyBlob)
    case "blob" => Some(Blob)
    case "mediumblob" => Some(MediumBlob)
    case "longblob" => Some(LongBlob)
    case _ => None;
    match named
    case Some(t) => Success(t)
    case None => Failure(typeString)
  }

  /** No two types share a name. */
  lemma TypeNameInjective(t: DataType, u: DataType)
    requires TypeName(t) == TypeName(u)
    ensures t == u
  {
  }

  /** Every type's own name decodes back to it, with the constructor's size. */
  lemma DecodeTypeName(t: DataType)
    ensures ColumnCompositeDataType(TypeName(t)) == Success(OfType(t))
    ensures ColumnType(TypeName(t)) == Success(t)
  {
    CompositeDecodesName(t);
    PrimitiveDecodesName(t);
  }

  /** `getColumnCompositeDataType` maps every type's name to that type. */
  lemma CompositeDecodesName(t: DataType)
    ensures ColumnCompositeDataType(TypeName(t)) == Success(OfType(t))
  {
    var r := ColumnCompositeDataType(TypeName(t));
    TypeNameInjective(r.value.dataType, t);
  }

  /** `getColumnType` maps every type's name to that type. */
  lemma PrimitiveDecodesName(t: DataType)
    ensures ColumnType(TypeName(t)) == Success(t)
  {
    var r := ColumnType(TypeName(t));
    TypeNameInjective(r.value, t);
  }

  /** The two decoders agree on every string, failures included. */
  lemma DecodersAgree(s: string)
    ensures ColumnType(s).Success? <==> ColumnCompositeDataType(s).Success?
    ensures ColumnType(s).Success? ==> ColumnType(s).value == PrimitiveDataType(ColumnCompositeDataType(s).value)
    ensures ColumnType(s).Failure? ==> ColumnType(s).error == ColumnCompositeDataType(s).error
  {
    var r := ColumnCompositeDataType(s);
    if r.Success? {
      DecodeTypeName(r.value.dataType);
    }
  }

  /** For a decoded column type, `getSize()` succeeds exactly on the seven numeric types. */
  lemma DecodedSizeDefined(s: string)
    requires ColumnCompositeDataType(s).Success?
    ensures GetSize(ColumnCompositeDataType(s).value).Success? <==> IsSized(ColumnCompositeDataType(s).value.dataType)
  {
  }

  /** The static `getRandomWithoutNull()` after the random pick `t`: a size for
      the five integer types, an `AssertionError` carrying the type otherwise. */
  function RandomWithoutNull(t: DataType): (r: Result<CompositeDataType, DataType>)
    ensures r.Success? <==> IsInteger(t)
    ensures r.Success? ==> r.value.dataType == t
    ensures r.Failure? ==> r.error == t
  {
    match t
    case TinyInt => Success(CompositeDataType(t, 1))
    case SmallInt => Success(CompositeDataType(t, 2))
    case MediumInt => Success(CompositeDataType(t, 3))
    case Int => Success(CompositeDataType(t, 4))
    case BigInt => Success(CompositeDataType(t, 8))
    case _ => Failure(t)
  }

  /** The two size tables agree wherever both give a size. */
  lemma RandomSizesMatchConstructor(t: DataType)
    ensures RandomWithoutNull(t).Success? ==> RandomWithoutNull(t).value == OfType(t)
  {
  }

  /** The size table of the one-argument constructor, entry by entry. */
  lemma OfTypeSizes(t: DataType)
    ensures OfType(TinyInt).size == 1 && OfType(SmallInt).size == 2 && OfType(MediumInt).size == 3
    ensures OfType(Int).size == 4 && OfType(BigInt).size == 8
    ensures OfType(Float).size == 4 && OfType(Double).size == 8
    ensures !IsSized(t) ==> OfType(t).size == -1
  {
  }

  /** `StoneDBIndex.getIndexName()`: the reserved name `PRIMARY` is back-quoted. */
  function IndexName(stored: string): (r: string)
    ensures stored == "PRIMARY" ==> r == "`PRIMARY`"
    ensures stored != "PRIMARY" ==> r == stored
    ensures r != "PRIMARY"
  {
    if stored == "PRIMARY" then "`PRIMARY`" else stored
  }

  /** Quoting is idempotent: a name already returned comes back unchanged. */
  lemma IndexNameIdempotent(stored: string)
    ensures IndexName(IndexName(stored)) == IndexName(stored)
  {
  }

  /** `StoneDBColumn`. */
  datatype Column = Column(name: string, columnType: CompositeDataType, isPrimaryKey: bool,
                           isNullable: bool, precision: int)

  /** `StoneDBTable`. */
  datatype Table = Table(name: string, columns: seq<Column>, indexes: seq<string>, isView: bool)

  /** `hasPrimaryKey()`: some column is a primary key. */
  function HasPrimaryKey(t: Table): (b: bool)
    ensures b <==> exists i :: 0 <= i < |t.columns| && t.columns[i].isPrimaryKey
  {
    AnyPrimaryKey(t.columns)
  }

  /** `columns.stream().anyMatch(c -> c.isPrimaryKey())`. */
  function AnyPrimaryKey(cs: seq<Column>): (b: bool)
    ensures b <==> exists i :: 0 <= i < |cs| && cs[i].isPrimaryKey
  {
    if |cs| == 0 then false else cs[0].isPrimaryKey || AnyPrimaryKey(cs[1..])
  }

  /** One row of `information_schema.columns`, as far as the model reads it.
      `numericPrecision` is what `getInt("NUMERIC_PRECISION")` returns, which
      reads SQL NULL (any non-numeric column) as 0. */
  datatype ColumnRow = ColumnRow(columnName: string, dataType: string, numericPrecision: int,
                                 isNullable: string, columnKey: string)

  /** The per-row rule of `getTableColumns`. */
  function DecodeColumn(row: ColumnRow): (r: Result<Column, string>)
    ensures r.Success? <==> ColumnCompositeDataType(row.dataType).Success?
    ensures r.Failure? ==> r.error == row.dataType
    ensures r.Success? ==> r.value.name == row.columnName
    ensures r.Success? ==> TypeName(r.value.columnType.dataType) == row.dataType
    ensures r.Success? ==> r.value.columnType == OfType(r.value.columnType.dataType)
    ensures r.Success? ==> (r.value.isNullable <==> row.isNullable != "NO")
    ensures r.Success? ==> (r.value.isPrimaryKey <==> row.columnKey == "PRI")
    ensures r.Success? ==> r.value.precision == row.numericPrecision
  {
    match ColumnCompositeDataType(row.dataType)
    case Failure(e) => Failure(e)
    case Success(ct) =>
      Success(Column(row.columnName, ct, row.columnKey == "PRI", row.isNullable != "NO", row.numericPrecision))
  }

  /** The loop of `getTableColumns`: every row decoded in order; the first
      unknown type name aborts the whole table. */
  function DecodeColumns(rows: seq<ColumnRow>): (r: Result<seq<Column>, string>)
    ensures r.Success? <==> forall i :: 0 <= i < |rows| ==> DecodeColumn(rows[i]).Success?
    ensures r.Success? ==> |r.value| == |rows|
    ensures r.Success? ==> forall i :: 0 <= i < |rows| ==> r.value[i] == DecodeColumn(rows[i]).value
    ensures r.Failure? ==> exists i :: 0 <= i < |rows| && DecodeColumn(rows[i]) == Failure(r.error)
                                         && forall j :: 0 <= j < i ==> DecodeColumn(rows[j]).Success?
  {
    if |rows| == 0 then Success([])
    else
      match DecodeColumn(rows[0])
      case Failure(e) => Failure(e)
      case Success(c) =>
        match DecodeColumns(rows[1..])
        case Failure(e) => Failure(e)
        case Success(cs) => Success([c] + cs)
  }

  /** One row of `information_schema.TABLES`; `ENGINE` is SQL NULL (`None`)
      for a view. */
  datatype TableRow = TableRow(tableName: string, engine: Option<string>)

  /** `getTableNames`: the names of the `TIANMU` tables, in row order. Reading
      a NULL `ENGINE` calls `equals` on null: the `NullPointerException` is
      the failure, carrying the index of that row. */
  function TableNames(rows: seq<TableRow>): (r: Result<seq<string>, nat>)
    ensures r.Failure? <==> exists i :: 0 <= i < |rows| && rows[i].engine.None?
    ensures r.Failure? ==> r.error < |rows| && rows[r.error].engine.None?
                           && forall j :: 0 <= j < r.error ==> rows[j].engine.Some?
    ensures r.Success? ==> |r.value| <= |rows|
    ensures r.Success? ==> forall n :: n in r.value <==>
              exists i :: 0 <= i < |rows| && rows[i].engine == Some("TIANMU") && rows[i].tableName == n
  {
    if |rows| == 0 then Success([])
    else
      assert forall i :: 1 <= i < |rows| ==> rows[i] == rows[1..][i - 1];
      match rows[0].engine
      case None => Failure(0)
      case Some(engine) =>
        match TableNames(rows[1..])
        case Failure(i) => Failure(i + 1)
        case Success(rest) => Success(if engine == "TIANMU" then [rows[0].tableName] + rest else rest)
  }

  /** Reading one more row: a NULL `ENGINE` fails at that row unless an earlier
      row failed; otherwise the name is appended exactly when the engine is
      `TIANMU`, so names keep row order and repeats. */
  lemma {:induction false} TableNamesSnoc(rows: seq<TableRow>, r: TableRow)
    ensures TableNames(rows + [r]) ==
              match TableNames(rows)
              case Failure(i) => Failure(i)
              case Success(names) =>
                match r.engine
                case None => Failure(|rows|)
                case Some(e) => Success(names + (if e == "TIANMU" then [r.tableName] else []))
    decreases |rows|
  {
    var all := TableNames(rows + [r]);
    if |rows| == 0 {
      assert rows + [r] == [r] && [r][1..] == [];
      assert TableNames([]) == Success([]);
      if r.engine.Some? {
        var kept: seq<string> := if r.engine.value == "TIANMU" then [r.tableName] else [];
        assert all.value == kept;
        assert [] + kept == kept;
      }
    } else {
      assert (rows + [r])[1..] == rows[1..] + [r];
      assert (rows + [r])[0] == rows[0];
      TableNamesSnoc(rows[1..], r);
      var tail := TableNames(rows[1..]);
      if rows[0].engine.Some? && tail.Success? && r.engine.Some? {
        var kept: seq<string> := if r.engine.value == "TIANMU" then [r.tableName] else [];
        var head: seq<string> := if rows[0].engine.value == "TIANMU" then [rows[0].tableName] else [];
        assert all.value == head + (tail.value + kept);
        assert TableNames(rows).value == head + tail.value;
        assert head + (tail.value + kept) == (head + tail.value) + kept;
      }
    }
  }

  /** The view rule of `fromConnection`: a table whose name starts with `v` is a view. */
  function IsView(tableName: string): (b: bool)
    ensures b <==> |tableName| >= 1 && tableName[0] == 'v'
  {
    Text.StartsWith(tableName, "v")
  }

  /** `new StoneDBTable(name, columns, indexes, isView)` as `fromConnection` builds it. */
  function MakeTable(name: string, columns: seq<Column>, indexNames: seq<string>): (t: Table)
    ensures t.isView <==> |name| >= 1 && name[0] == 'v'
    ensures t.name == name && t.columns == columns && t.indexes == indexNames
  {
    Table(name, columns, indexNames, IsView(name))
  }
}
