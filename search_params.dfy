/** `URLSearchParams` as the request builders use it: an ordered list of
    (name, value) pairs. How the list is written into a URL is left to an
    encoder given as a parameter, since percent-encoding is not modelled. */
module SearchParams {
  import opened Wrappers
  import opened Assoc

  type Param = (string, string)

  /** A `URLSearchParams` object, changed in place by `append`. */
  class URLSearchParams {
    var pairs: seq<Param>

    /** `new URLSearchParams(init)` from an object literal (keys in literal order),
        or from nothing (`init` empty). */
    constructor (init: seq<Param>)
      ensures pairs == init
    {
      pairs := init;
    }

    /** `query.append(name, value)`: adds a pair at the end, keeping any pair with
        the same name. */
    method Append(name: string, value: string)
      modifies this
      ensures pairs == old(pairs) + [(name, value)]
    {
      pairs := pairs + [(name, value)];
    }
  }

  /** `name=value` pairs joined by `&`, each part passed through `encode`. */
  function Serialize(q: seq<Param>, encode: string -> string): (s: string)
    ensures q == [] <==> s == []
  {
    if q == [] then []
    else
      var first := encode(q[0].0) + "=" + encode(q[0].1);
      if |q| == 1 then first else first + "&" + Serialize(q[1..], encode)
  }

  /** A request path, and the query string when the path is written as
      `` `${path}?${query}` ``. */
  datatype Target = Target(path: string, query: Option<seq<Param>>)

  /** The URL text sent, for a given encoder: it always starts with the path,
      is the path alone exactly when there is no query object, and otherwise
      continues with `?` and the serialised query. */
  function Render(t: Target, encode: string -> string): (s: string)
    ensures |t.path| <= |s| && s[..|t.path|] == t.path
    ensures s == t.path <==> t.query.None?
    ensures t.query.Some? ==> s[|t.path|] == '?' && s[|t.path| + 1..] == Serialize(t.query.value, encode)
  {
    match t.query
    case None => t.path
    case Some(q) => t.path + "?" + Serialize(q, encode)
  }

  /** An empty query still leaves the `?` after the path. */
  lemma EmptyQueryKeepsMark(path: string, encode: string -> string)
    ensures Render(Target(path, Some([])), encode) == path + "?"
  {
  }
}
