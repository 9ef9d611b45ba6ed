/**
 * `Config`, the configuration accessor of examples/serde.rs: a parsed JSON
 * document read through typed keys. A read finds the field named by the key in
 * the top-level object and converts it to the key's type; absence and a failed
 * conversion are both reported to the caller, never fatal.
 *
 * Parsing JSON text (`serde_json::from_str`) and converting a value to a type
 * (`T::deserialize`) belong to other libraries; both are parameters here.
 */
module SerdeExample {
  import opened Wrappers
  import opened Primitives
  import opened Keys

  /** A `serde_json::Value`: the JSON value model of RFC 8259, with integer numbers. */
  datatype Json =
    | Null
    | Bool(b: bool)
    | Number(n: int)
    | String(s: string)
    | Array(items: seq<Json>)
    | Object(fields: map<string, Json>)
  {
    /** `Value::get` with a string index: the member of an object with that name; nothing for other values. */
    function Get(name: string): Option<Json> {
      match this
      case Object(fields) => if name in fields then Some(fields[name]) else None
      case _ => None
    }

    /** True of an object that has a member named `name`. */
    predicate HasField(name: string) {
      Object? && name in fields
    }
  }

  /** `serde_json::from_str` into a `Value`: the document, or the parser's message. */
  type Parser = string -> Result<Json, string>

  /** `T::deserialize` from a `Value`: the converted value, or serde's message. */
  type Deserializer<T> = Json -> Result<T, string>

  /** The `failure::Error`s the accessor returns, by where they come from. */
  datatype Error =
    | Parse(detail: string)
    | Required(name: string)
    | Conversion(detail: string)
  {
    /** The error's message; a missing field names the key between backquotes. */
    function Message(): string {
      match this
      case Parse(d) => d
      case Required(n) => "config value is required: `" + n + "`"
      case Conversion(d) => d
    }
  }

  /** The accessor; the document is set once and never changed. */
  datatype Config = Config(data: Json) {

    /** `Config::from_str`: fails exactly when the text does not parse; otherwise holds the parsed document. */
    static function FromStr(text: string, parse: Parser): (r: Result<Config, Error>)
      ensures r.Failure? <==> parse(text).Failure?
      ensures r.Success? ==> r.value.data == parse(text).value
      ensures r.Failure? ==> r.error == Parse(parse(text).error)
    {
      match parse(text)
      case Success(data) => Success(Config(data))
      case Failure(e) => Failure(Parse(e))
    }

    /**
     * `Config::get_opt`: nothing when the document has no field of the key's
     * name; otherwise the field converted to the key's type, or the conversion's error.
     */
    function GetOpt<T>(key: Key<T>, de: Deserializer<T>): (r: Result<Option<T>, Error>)
      ensures !data.HasField(key.Name()) ==> r == Success(None)
      ensures data.HasField(key.Name()) ==>
                var converted := de(data.fields[key.Name()]);
                && (converted.Success? ==> r == Success(Some(converted.value)))
                && (converted.Failure? ==> r == Failure(Conversion(converted.error)))
    {
      match data.Get(key.Name())
      case None => Success(None)
      case Some(field) =>
        match de(field)
        case Success(value) => Success(Some(value))
        case Failure(e) => Failure(Conversion(e))
    }

    /**
     * `Config::get`: the field converted to the key's type; a missing field is
     * the "config value is required" error, and a failed conversion its own error.
     */
    function Get<T>(key: Key<T>, de: Deserializer<T>): (r: Result<T, Error>)
      ensures !data.HasField(key.Name()) ==>
                r == Failure(Required(key.Name()))
                && r.error.Message() == "config value is required: `" + key.Name() + "`"
      ensures data.HasField(key.Name()) ==>
                var converted := de(data.fields[key.Name()]);
                && (converted.Success? ==> r == Success(converted.value))
                && (converted.Failure? ==> r == Failure(Conversion(converted.error)))
    {
      var value :- GetOpt(key, de);
      match value
      case None => Failure(Required(key.Name()))
      case Some(v) => Success(v)
    }
  }

  /**
   * `get` is `get_opt` with absence turned into an error: it succeeds exactly
   * when `get_opt` yields a value, with that value, and `get_opt`'s errors pass through unchanged.
   */
  lemma GetFromGetOpt<T>(c: Config, key: Key<T>, de: Deserializer<T>)
    ensures c.Get(key, de).Success? <==> c.GetOpt(key, de).Success? && c.GetOpt(key, de).value.Some?
    ensures c.Get(key, de).Success? ==> c.GetOpt(key, de) == Success(Some(c.Get(key, de).value))
    ensures c.GetOpt(key, de).Failure? ==> c.Get(key, de) == Failure(c.GetOpt(key, de).error)
    ensures c.GetOpt(key, de) == Success(None) ==> c.Get(key, de) == Failure(Required(key.Name()))
  {
  }

  /** A document whose root is not an object has no fields: every optional read is empty, every required read fails. */
  lemma NonObjectRoot<T>(c: Config, key: Key<T>, de: Deserializer<T>)
    requires !c.data.Object?
    ensures c.GetOpt(key, de) == Success(None)
    ensures c.Get(key, de) == Failure(Required(key.Name()))
  {
  }

  /**
   * serde's `u32` from a JSON value: an integer in range; any other number is
   * an invalid value, anything else an invalid type.
   */
  function U32FromJson(j: Json): (r: Result<U32, string>)
    ensures r.Success? <==> j.Number? && 0 <= j.n < 0x1_0000_0000
    ensures r.Success? ==> r.value as int == j.n
  {
    match j
    case Number(n) => if 0 <= n < 0x1_0000_0000 then Success(n as U32) else Failure("invalid value: expected u32")
    case _ => Failure("invalid type: expected u32")
  }

  /** serde's `String` from a JSON value: only a JSON string converts. */
  function StringFromJson(j: Json): (r: Result<string, string>)
    ensures r.Success? <==> j.String?
    ensures r.Success? ==> r.value == j.s
  {
    match j
    case String(s) => Success(s)
    case _ => Failure("invalid type: expected a string")
  }

  /**
   * serde's `IpAddr` from a JSON value: a string that `parseIp` (the standard
   * library's address parser) accepts.
   */
  function IpAddrFromJson(parseIp: string -> Option<IpAddr>): (de: Deserializer<IpAddr>)
    ensures forall j :: de(j).Success? <==> j.String? && parseIp(j.s).Some?
    ensures forall j :: de(j).Success? ==> de(j).value == parseIp(j.s).value
  {
    (j: Json) =>
      match j
      case String(s) => (match parseIp(s) case Some(a) => Success(a) case None => Failure("invalid value: expected IP address"))
      case _ => Failure("invalid type: expected IP address")
  }

  /** IP address of the server. */
  const Addr: Key<IpAddr> := TypedKey("addr")

  /** Port of the server, 8080 when absent. */
  const Port: Key<U32> := TypedKey("port")

  /** Host name of the server. */
  const Host: Key<string> := TypedKey("host")

  const ExampleText: string := "{\n        \"addr\": \"127.0.0.1\",\n        \"host\": \"hal9000\"\n    }"

  const ExampleDocument: Json := Object(map["addr" := String("127.0.0.1"), "host" := String("hal9000")])

  /**
   * `main` of examples/serde.rs, for a parser that reads the example text as
   * the document it spells: the address reads, the port is absent (so the
   * default 8080 applies, and a required read of it would fail), the host reads.
   */
  lemma ExampleMain(parse: Parser, parseIp: string -> Option<IpAddr>, localhost: IpAddr)
    requires parse(ExampleText) == Success(ExampleDocument)
    requires parseIp("127.0.0.1") == Some(localhost)
    ensures Config.FromStr(ExampleText, parse) == Success(Config(ExampleDocument))
    ensures Config(ExampleDocument).Get(Addr, IpAddrFromJson(parseIp)) == Success(localhost)
    ensures Config(ExampleDocument).GetOpt(Port, U32FromJson) == Success(None)
    ensures Config(ExampleDocument).GetOpt(Port, U32FromJson).value.UnwrapOr(8080) == 8080
    ensures Config(ExampleDocument).Get(Port, U32FromJson) == Failure(Required("port"))
    ensures Config(ExampleDocument).Get(Host, StringFromJson) == Success("hal9000")
  {
    var doc := ExampleDocument;
    assert doc.HasField("addr") && doc.fields["addr"] == String("127.0.0.1");
    assert !doc.HasField("port");
    assert doc.HasField("host") && doc.fields["host"] == String("hal9000");
  }

  /** A port given as a string is a reported conversion error, not a crash. */
  lemma WrongShapeIsConversionError()
    ensures Config(Object(map["port" := String("80")])).Get(Port, U32FromJson)
         == Failure(Conversion("invalid type: expected u32"))
  {
    assert Object(map["port" := String("80")]).HasField("port");
  }
}
