/**
  An abstract stand-in for the parts of the zap logging library the middleware
  touches. A logger is reduced to the list of context fields attached to it by
  `With`; emitting a record is reduced to producing an `Entry` value. How zap
  encodes and writes entries is not modelled.
 */
module Zap {
  import opened Wrappers

  /** The three severities the middleware uses, a subset of zapcore.Level. */
  datatype Level = InfoLevel | WarnLevel | ErrorLevel

  /** zapcore's numeric value of a level: a higher number is more severe. */
  function Rank(level: Level): nat
  {
    match level
    case InfoLevel => 0
    case WarnLevel => 1
    case ErrorLevel => 2
  }

  /** An error returned by a request handler; only its text reaches a log. */
  datatype HandlerError = HandlerError(text: string)

  datatype Value = StringValue(s: string) | IntValue(i: int) | ErrorValue(err: HandlerError)

  /** A typed key/value pair, as built by zap.String, zap.Int, zap.Int64 and zap.Error. */
  datatype Field = Field(key: string, value: Value)

  function String(key: string, s: string): Field
  {
    Field(key, StringValue(s))
  }

  function Int(key: string, i: int): Field
  {
    Field(key, IntValue(i))
  }

  /** zap.Error attaches an error under the fixed key "error". */
  function ErrorField(err: HandlerError): Field
  {
    Field("error", ErrorValue(err))
  }

  /** A logger is the list of context fields every record it writes carries. */
  datatype Logger = Logger(context: seq<Field>)

  /** Logger.With: a child logger whose context has the given fields appended. */
  function With(log: Logger, fields: seq<Field>): Logger
  {
    Logger(log.context + fields)
  }

  /** One record written through a logger: level, message, the logger's
      context fields and the fields passed at the call site. */
  datatype Entry = Entry(level: Level, message: string, context: seq<Field>, fields: seq<Field>)

  function KeysOf(fields: seq<Field>): seq<string>
  {
    seq(|fields|, i requires 0 <= i < |fields| => fields[i].key)
  }

  predicate DistinctKeys(fields: seq<Field>)
  {
    forall i, j :: 0 <= i < j < |fields| ==> fields[i].key != fields[j].key
  }

  /** The value stored under `key`: that of the first field carrying it, or
      None when no field does. Used only on field lists whose keys are
      distinct, where "first" and "only" coincide. */
  function ValueOf(fields: seq<Field>, key: string): (r: Option<Value>)
    ensures r.None? <==> key !in KeysOf(fields)
    ensures r.Some? ==> exists i :: 0 <= i < |fields| && fields[i] == Field(key, r.value)
    decreases |fields|
  {
    if |fields| == 0 then None
    else
      assert KeysOf(fields) == [fields[0].key] + KeysOf(fields[1..]);
      if fields[0].key == key then Some(fields[0].value)
      else
        var rest := ValueOf(fields[1..], key);
        if rest.Some? then
          var i :| 0 <= i < |fields[1..]| && fields[1..][i] == Field(key, rest.value);
          assert fields[i + 1] == Field(key, rest.value);
          rest
        else rest
  }

  /** With distinct keys, reading a key back yields exactly the field that carries it. */
  lemma ValueOfDistinct(fields: seq<Field>, i: int)
    requires DistinctKeys(fields)
    requires 0 <= i < |fields|
    ensures ValueOf(fields, fields[i].key) == Some(fields[i].value)
  {
    var r := ValueOf(fields, fields[i].key);
    assert KeysOf(fields)[i] == fields[i].key;
    var j :| 0 <= j < |fields| && fields[j] == Field(fields[i].key, r.value);
    assert j == i;
  }
}
