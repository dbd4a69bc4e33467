/** Generated values, and the outside world their text forms depend on. */
module Values {
  import opened Wrappers
  import opened Numerals
  import opened Decimals

  datatype Float = Finite(value: real) | Infinite(negative: bool) | NotANumber

  datatype Value =
    | Null
    | Bool(flag: bool)
    | I64(small: i64)
    | I128(large: i128)
    | F64(float: Float)
    | Text(text: string)
    | Timestamp(micros: i64, format: string)
    | Fixed(units: i128, scale: ValueScale)
    | List(items: seq<Value>)
    | Record(fields: seq<(string, Value)>)
    | Dict(entries: seq<(Value, Value)>)

  /** Library calls the repository makes but does not define: JSON, floating
      point, network addresses and calendar text. */
  datatype Env = Env(
    parseJson: string -> Option<Value>,
    isJson: string -> bool,
    jsonText: Value -> string,
    floatText: Float -> string,
    timestampText: (int, string) -> string,
    parseFloat: string -> Option<Float>,
    intToFloat: int -> Float,
    fixedToFloat: (int, nat) -> Float,
    narrow: Float -> Float,
    parseIpv4: string -> Option<nat>,
    ipv4Text: nat -> string,
    parseIpv6: string -> Option<nat>,
    ipv6Text: nat -> string,
    parseDate: string -> Option<int>,
    parseDateTime: (string, string) -> Option<int>
  )

  function BoolText(flag: bool): string {
    if flag then "true" else "false"
  }

  /** `Value::csv_string("")`: the plain text of a value. */
  function PlainText(env: Env, value: Value): string {
    match value
    case Null => ""
    case Bool(flag) => BoolText(flag)
    case I64(n) => Signed(n)
    case I128(n) => Signed(n)
    case F64(x) => (env.floatText)(x)
    case Text(text) => text
    case Timestamp(micros, format) => (env.timestampText)(micros, format)
    case Fixed(units, scale) => FormatDecimalUnits(units, scale)
    case List(_) => (env.jsonText)(value)
    case Record(_) => (env.jsonText)(value)
    case Dict(_) => (env.jsonText)(value)
  }
}
