// Node's `path` module, left uninterpreted: every operation that depends on
// it takes the functions as a parameter, and a property that needs more
// than their types says so in its `requires`.
module NodePath {
  import opened Common

  /** `path.isAbsolute`, `path.normalize`, `path.resolve(from, to)`, `path.relative(from, to)` and `path.join(a, b)`. */
  datatype PathLib = PathLib(
    isAbsolute: string -> bool,
    normalize: string -> string,
    resolve: (string, string) -> string,
    relative: (string, string) -> string,
    join: (string, string) -> string)

  /** `JSON.stringify` of an array of strings, without escaping. */
  function QuotedList(items: seq<string>): (r: string)
    ensures StartsWith(r, "[") && EndsWith(r, "]")
  {
    var body := Join(QuoteEach(items), ",");
    assert ("[" + body + "]")[..1] == "[";
    assert ("[" + body + "]")[|"[" + body + "]"| - 1..] == "]";
    "[" + body + "]"
  }

  function QuoteEach(items: seq<string>): (r: seq<string>)
    ensures |r| == |items|
    ensures forall k :: 0 <= k < |items| ==> r[k] == "\"" + items[k] + "\""
  {
    if |items| == 0 then [] else ["\"" + items[0] + "\""] + QuoteEach(items[1..])
  }

  /** `prefixes.some((p) => s.startsWith(p))`. */
  predicate SomePrefix(prefixes: seq<string>, s: string)
  {
    exists k :: 0 <= k < |prefixes| && StartsWith(s, prefixes[k])
  }
}
