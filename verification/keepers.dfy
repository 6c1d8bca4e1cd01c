/**
 * How a value type's flag is built from a fetched remote config string.
 * The keepers' casts on `key.valueType` become an explicit record of the
 * initializers the type offers.
 */
module ValueKinds {
  import opened Wrappers

  /**
   * The initializers a value type offers the keepers: `init?(name:)` (or the
   * legacy `init?(rawValue:)`) when it is string-initializable, and
   * `init(booleanLiteral:)` when it is bool-initializable.
   */
  datatype ValueKind<V> = ValueKind(stringInit: Option<string -> Option<V>>, boolInit: Option<bool -> V>)

  /**
   * The common shape of both keepers' `value(for:)`: string-initializable
   * types are tried first, on the raw string; then bool-initializable types,
   * on the decoded Bool; any other type yields nothing.
   */
  function Dispatch<V>(kind: ValueKind<V>, str: Option<string>, boolean: Option<bool>): (r: Option<V>)
    ensures kind.stringInit.Some? ==> r == (if str.Some? then kind.stringInit.value(str.value) else None)
    ensures kind.stringInit.None? && kind.boolInit.Some? ==> r == (if boolean.Some? then Some(kind.boolInit.value(boolean.value)) else None)
    ensures kind.stringInit.None? && kind.boolInit.None? ==> r.None?
  {
    match kind.stringInit
    case Some(initName) =>
      (match str
       case Some(s) => initName(s)
       case None => None)
    case None =>
      match kind.boolInit
      case Some(initBool) =>
        (match boolean
         case Some(b) => Some(initBool(b))
         case None => None)
      case None => None
  }
}

/**
 * `FirebaseRemoteConfigKeeper`: reads over the activated config, whose
 * `config[name].stringValue` is a plain string. A name the config does not
 * hold reads as the empty string.
 */
module FirebaseKeeper {
  import opened Wrappers
  import opened ValueKinds

  type Config = map<string, string>

  /** `config[name].stringValue` */
  function StringValue(config: Config, name: string): string {
    if name in config then config[name] else ""
  }

  /** `bool(for:)`: nothing for the empty string, otherwise whether it is exactly `true`. */
  function Bool(config: Config, name: string): (r: Option<bool>)
    ensures r.None? <==> StringValue(config, name) == ""
    ensures r.Some? ==> (r.value <==> StringValue(config, name) == "true")
  {
    var s := StringValue(config, name);
    if s == "" then None else Some(s == "true")
  }

  /** `stringValueRepresentation(for:)`: the string, unless it is empty. */
  function StringValueRepresentation(config: Config, name: string): (r: Option<string>)
    ensures r.None? <==> StringValue(config, name) == ""
    ensures r.Some? ==> r.value == StringValue(config, name) && r.value != ""
  {
    var s := StringValue(config, name);
    if s == "" then None else Some(s)
  }

  /** `value(for:)`: `string(for:)` always has a string, possibly empty. */
  function Value<V>(config: Config, name: string, kind: ValueKind<V>): (r: Option<V>)
    ensures kind.stringInit.Some? ==> r == kind.stringInit.value(StringValue(config, name))
    ensures kind.stringInit.None? && kind.boolInit.Some? ==>
      (r.None? <==> StringValue(config, name) == "") &&
      (r.Some? ==> r.value == kind.boolInit.value(StringValue(config, name) == "true"))
    ensures kind.stringInit.None? && kind.boolInit.None? ==> r.None?
  {
    Dispatch(kind, Some(StringValue(config, name)), Bool(config, name))
  }

  /** Every non-empty string other than `true` (`false`, `1`, `enabled`) decodes to `false`. */
  lemma BoolDecoding(config: Config, name: string)
    ensures name !in config ==> Bool(config, name).None?
    ensures name in config && config[name] == "true" ==> Bool(config, name) == Some(true)
    ensures name in config && config[name] != "" && config[name] != "true" ==> Bool(config, name) == Some(false)
  {
  }

  /**
   * For a bool-only flag, the keeper yields no value exactly when it has no
   * string representation: such a flag is either decoded or missing, never
   * an incorrect value.
   */
  lemma BoolFlagNeverIncorrect<V>(config: Config, name: string, kind: ValueKind<V>)
    requires kind.stringInit.None? && kind.boolInit.Some?
    ensures Value(config, name, kind).None? <==> StringValueRepresentation(config, name).None?
  {
  }

  /**
   * For a string flag, the keeper yields no value but a representation
   * exactly when the string is non-empty and `init?(name:)` refuses it.
   */
  lemma StringFlagIncorrect<V>(config: Config, name: string, kind: ValueKind<V>)
    requires kind.stringInit.Some?
    ensures Value(config, name, kind).None? && StringValueRepresentation(config, name).Some? <==>
      StringValue(config, name) != "" && kind.stringInit.value(StringValue(config, name)).None?
  {
  }

  /** A type offering both initializers is decoded as a string; `bool(for:)` is never consulted. */
  lemma StringCheckedFirst<V>(config: Config, config': Config, name: string, kind: ValueKind<V>)
    requires kind.stringInit.Some? && kind.boolInit.Some?
    requires StringValue(config, name) == StringValue(config', name)
    ensures Value(config, name, kind) == Value(config, name, kind.(boolInit := None))
    ensures Value(config, name, kind) == Value(config', name, kind)
  {
  }
}

/**
 * The legacy `RemoteConfigKeeper` singleton: the same reads over a config
 * whose `config[name].stringValue` is optional, absent for a name the config
 * does not hold. It has no `stringValueRepresentation(for:)`.
 */
module LegacyKeeper {
  import opened Wrappers
  import opened ValueKinds
  import FirebaseKeeper

  type Config = map<string, string>

  /**
   * `config[name].stringValue`, which this keeper reads as an optional. What
   * the SDK gives there for a name the config does not hold is not part of
   * this repository, so it is the parameter `unheld`.
   */
  function StringValue(config: Config, name: string, unheld: Option<string>): (r: Option<string>)
    ensures name in config ==> r == Some(config[name])
    ensures name !in config ==> r == unheld
  {
    if name in config then Some(config[name]) else unheld
  }

  /** `bool(for:)`: nothing when the string is missing or empty, otherwise whether it is exactly `true`. */
  function Bool(config: Config, name: string, unheld: Option<string>): (r: Option<bool>)
    ensures r.None? <==> StringValue(config, name, unheld) in {None, Some("")}
    ensures r.Some? ==> (r.value <==> StringValue(config, name, unheld) == Some("true"))
  {
    match StringValue(config, name, unheld)
    case None => None
    case Some(s) => if s == "" then None else Some(s == "true")
  }

  /**
   * `value(for:)`: `RemoteConfigStringValue` types through `init?(rawValue:)`
   * on the string when there is one, `RemoteConfigBoolValue` types through
   * `init(booleanLiteral:)`, and nothing for any other type.
   */
  function Value<V>(config: Config, name: string, kind: ValueKind<V>, unheld: Option<string>): (r: Option<V>)
    ensures name in config && kind.stringInit.Some? ==> r == kind.stringInit.value(config[name])
    ensures name !in config && kind.stringInit.Some? ==>
      r == (if unheld.Some? then kind.stringInit.value(unheld.value) else None)
    ensures kind.stringInit.None? && kind.boolInit.Some? ==>
      (r.None? <==> StringValue(config, name, unheld) in {None, Some("")}) &&
      (r.Some? ==> r.value == kind.boolInit.value(StringValue(config, name, unheld) == Some("true")))
    ensures kind.stringInit.None? && kind.boolInit.None? ==> r.None?
  {
    Dispatch(kind, StringValue(config, name, unheld), Bool(config, name, unheld))
  }

  /**
   * The two keepers agree on every name the config holds, and on every name
   * at all when the SDK reads an unheld name as the empty string. They part
   * only when it reads one as nothing: then the legacy keeper never consults
   * `init?(rawValue:)`, where the Firebase keeper hands the empty string to
   * `init?(name:)`; bool types still agree.
   */
  lemma AgreesWithFirebase<V>(config: Config, name: string, kind: ValueKind<V>, unheld: Option<string>)
    ensures name in config ==> Value(config, name, kind, unheld) == FirebaseKeeper.Value(config, name, kind)
    ensures unheld == Some("") ==> Value(config, name, kind, unheld) == FirebaseKeeper.Value(config, name, kind)
    ensures kind.stringInit.None? && unheld.None? ==>
      Value(config, name, kind, unheld) == FirebaseKeeper.Value(config, name, kind)
    ensures name !in config && unheld.None? && kind.stringInit.Some? ==>
      Value(config, name, kind, unheld).None? && FirebaseKeeper.Value(config, name, kind) == kind.stringInit.value("")
  {
  }
}
