/**
 * The element record every extractor produces and every serialiser consumes.
 * The source keeps it as a plain dictionary, so a key can be missing: each
 * field is an `Option`, `None` meaning the key is absent. Lookups with a
 * default (`el.get(k, d)`) use `GetOr`; subscripts (`el[k]`) use `Lookup`,
 * which fails with the key error the dictionary would raise.
 */
module CodeElement {
  import opened Wrappers

  /** The value under `'args'`: Python `None` (stored for functions without parameters) or a list of names. */
  datatype Args = NoArgs | ArgList(names: seq<string>)

  datatype Element = Element(
    kind: Option<string>,        // 'type'
    name: Option<string>,        // 'name'
    docstring: Option<string>,   // 'docstring'
    source: Option<string>,      // 'source'
    startLine: Option<int>,      // 'start_line'
    endLine: Option<int>,        // 'end_line'
    args: Option<Args>,          // 'args'
    hasReturn: Option<bool>,     // 'has_return'
    language: Option<string>,    // 'language'
    file: Option<string>,        // 'file'
    error: Option<string>)       // 'error'

  /**
   * The values a serialiser reads from an element with `el[key]`, once every
   * subscript has succeeded. `withReturn` is false for a class, whose
   * `has_return` is never consulted.
   */
  datatype Fields = Fields(
    kind: string, name: string, start: int, end: int,
    docstring: string, args: Args, withReturn: bool, source: string)

  /** A record with the five keys every extractor of the analysis tool sets. */
  function Record(kind: string, name: string, docstring: string, source: string, language: string): Element
  {
    Element(Some(kind), Some(name), Some(docstring), Some(source), None, None, None, None, Some(language), None, None)
  }

  /** Truthiness of a text value: present and non-empty. */
  predicate IsTruthy(v: Option<string>)
  {
    v.Some? && v.value != ""
  }

  /** Truthiness of an argument list: a list with at least one name. */
  predicate Listed(args: Args)
  {
    args.ArgList? && args.names != []
  }

  /** Truthiness of the `'args'` value, absent counting as false. */
  predicate HasArgs(v: Option<Args>)
  {
    v.Some? && Listed(v.value)
  }

  /** Truthiness of the `'has_return'` value. */
  predicate IsSet(v: Option<bool>)
  {
    v.Some? && v.value
  }

  /** `el[key]`: the value, or a key error naming `key`. */
  function Lookup<T>(v: Option<T>, key: string): Result<T, string>
  {
    match v
    case Some(x) => Success(x)
    case None => Failure(key)
  }

  /** The text of a key error, `str(KeyError(key))`: the key in single quotes. */
  function KeyErrorText(key: string): string
  {
    "'" + key + "'"
  }

  /**
   * The preview every fallback element stores as its source: the first 1000
   * characters, followed by `...` exactly when something was cut off.
   */
  function Preview(content: string): (r: string)
    ensures |r| <= 1003
    ensures |content| <= 1000 ==> r == content
    ensures |content| > 1000 ==> |r| == 1003 && r[..1000] == content[..1000] && r[1000..] == "..."
  {
    if |content| > 1000 then content[..1000] + "..." else content
  }
}
