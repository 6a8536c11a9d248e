/** The JSON value tree exchanged with the web API, and the narrow reading
    interface the converters use on it.

    Values are built with the `Create*` constructors of the JSON library, which
    here are the constructors of the `Json` datatype (RFC 8259 section 3: null,
    booleans, numbers, strings, arrays and objects).

    Reading is different: the library's indexer, its `ObjectValue`,
    `ArrayValue` and `StringValue` properties, its explicit cast operators and
    the platform's `DateTimeOffset.Parse` are not part of this model. They are
    gathered in `Accessors`, a record of functions that the converters receive
    as a parameter. Nothing is assumed about them: each may fail, and a missing
    key may yield anything the accessor chooses, `null` included. */
module Json {
  import opened Wrappers

  datatype Json =
    | JNull
    | JBool(b: bool)
    | JNumber(n: real)
    | JString(str: string)
    | JArray(elements: seq<Json>)
    | JObject(members: map<string, Json>)

  /** The range of a .NET `int`, the target of the `(int)` cast. */
  newtype Int32 = x: int | -0x8000_0000 <= x < 0x8000_0000

  /** The range of a .NET `long`, the target of the `(long)` cast. */
  newtype Int64 = x: int | -0x8000_0000_0000_0000 <= x < 0x8000_0000_0000_0000

  /** A point in time with its UTC offset; its arithmetic is not modelled. */
  datatype DateTimeOffset = DateTimeOffset(utcTicks: int, offsetMinutes: int)

  /** `default(DateTimeOffset)`, the value of a timestamp field never assigned. */
  const MinDateTimeOffset := DateTimeOffset(0, 0)

  /** An exception raised inside the JSON library or the timestamp parser,
      identified by its exception type name. */
  datatype LibraryFault = LibraryFault(exceptionType: string)

  /** The reading operations of the JSON library, as parameters. An
      `Option<Json>` is a `JObject` reference that may be `null`, and a `None`
      result is a `null` result. The instance members (the indexer,
      `ObjectValue`, `ArrayValue`, `StringValue`) are only ever applied to a
      non-null receiver: a member access on `null` throws before the library
      runs. The cast operators are static and receive the reference as it is,
      `null` included, and so does the timestamp parser. */
  datatype Accessors = Accessors(
    index: (Json, string) -> Result<Option<Json>, LibraryFault>,                  // jObj[key]
    objectValue: Json -> Result<Option<map<string, Option<Json>>>, LibraryFault>, // jObj.ObjectValue
    arrayValue: Json -> Result<Option<seq<Option<Json>>>, LibraryFault>,          // jObj.ArrayValue
    stringValue: Json -> Result<Option<string>, LibraryFault>,                    // jObj.StringValue
    castString: Option<Json> -> Result<Option<string>, LibraryFault>,             // (string)jObj
    castInt: Option<Json> -> Result<Int32, LibraryFault>,                         // (int)jObj
    castLong: Option<Json> -> Result<Int64, LibraryFault>,                        // (long)jObj
    castBool: Option<Json> -> Result<bool, LibraryFault>,                         // (bool)jObj
    parseInvariant: Option<string> -> Result<DateTimeOffset, LibraryFault>)       // DateTimeOffset.Parse(s, InvariantCulture)

  /** The exceptions a conversion can end in. */
  datatype Fault =
    | ArgumentNull(paramName: string)  // ArgumentNullException
    | NullReference                    // member access on a null reference
    | KeyNotFound                      // Dictionary lookup of an absent key
    | InvalidCast                      // a failed reference cast
    | Thrown(fault: LibraryFault)      // raised inside an accessor

  /** Turns an accessor's outcome into a conversion outcome. */
  function Lift<T>(r: Result<T, LibraryFault>): Result<T, Fault> {
    match r
    case Success(v) => Success(v)
    case Failure(e) => Failure(Thrown(e))
  }
}
