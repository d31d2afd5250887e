/** The `Headers` object of the Fetch Standard (section 5.1). Names are compared
    case-insensitively, so they are stored lower-cased. Each name has one entry,
    holding the value that `get()` and `forEach` observe: appending to a name
    already present combines the two values with ", ", as the Standard's `get()`
    does (section 2.2.2) and as the whatwg-fetch polyfill stores them. */
module FetchHeaders {
  import opened Wrappers
  import opened Assoc

  type Entry = (string, string)

  function AsciiLower(c: char): char {
    if 'A' <= c <= 'Z' then (c as int + 32) as char else c
  }

  /** ASCII lower-casing of a header name. */
  function Lower(s: string): (r: string)
    ensures |r| == |s|
    ensures forall i :: 0 <= i < |s| ==> r[i] == AsciiLower(s[i])
  {
    seq(|s|, i requires 0 <= i < |s| => AsciiLower(s[i]))
  }

  /** A header list as the `Headers` methods leave it: lower-case, unique names. */
  predicate WellFormed(es: seq<Entry>) {
    UniqueKeys(es) && LowerNames(es)
  }

  /** The value a header holds after one more value is appended to it. */
  function Combined(prior: Option<string>, value: string): (r: string)
    ensures prior.None? ==> r == value
    ensures prior.Some? ==> r == prior.value + ", " + value
  {
    match prior
    case None => value
    case Some(p) => p + ", " + value
  }

  /** Appending `(name, value)` to a header list; `name` is already lower-case. */
  function AppendEntry(es: seq<Entry>, name: string, value: string): (r: seq<Entry>)
    ensures Lookup(es, name).None? ==> r == es + [(name, value)]
    ensures Lookup(es, name).Some? ==> |r| == |es| && Keys(r) == Keys(es)
  {
    Put(es, name, Combined(Lookup(es, name), value))
  }

  /** Appending one value keeps the list well formed, combines the value into the
      named header and leaves every other header as it was. */
  lemma AppendEntryFacts(es: seq<Entry>, name: string, value: string, other: string)
    requires WellFormed(es) && Lower(name) == name
    ensures WellFormed(AppendEntry(es, name, value))
    ensures Lookup(AppendEntry(es, name, value), name) == Some(Combined(Lookup(es, name), value))
    ensures other != name ==> Lookup(AppendEntry(es, name, value), other) == Lookup(es, other)
  {
    var v := Combined(Lookup(es, name), value);
    PutUnique(es, name, v);
    LookupPut(es, name, v, name);
    LookupPut(es, name, v, other);
    var r := Put(es, name, v);
    if Lookup(es, name).Some? {
      forall i | 0 <= i < |r| ensures Lower(r[i].0) == r[i].0 {
        assert r[i].0 == Keys(r)[i] == Keys(es)[i] == es[i].0;
      }
    }
  }

  /** Deleting a name keeps the list well formed and removes only that name. */
  lemma DeleteFacts(es: seq<Entry>, name: string, other: string)
    requires WellFormed(es)
    ensures WellFormed(Remove(es, name))
    ensures Lookup(Remove(es, name), name).None?
    ensures other != name ==> Lookup(Remove(es, name), other) == Lookup(es, other)
  {
    RemoveUnique(es, name);
    LookupRemove(es, name, other);
    RemoveLowerNames(es, name);
  }

  predicate LowerNames(es: seq<Entry>) {
    forall i :: 0 <= i < |es| ==> Lower(es[i].0) == es[i].0
  }

  lemma {:induction false} RemoveLowerNames(es: seq<Entry>, name: string)
    requires LowerNames(es)
    ensures LowerNames(Remove(es, name))
  {
    if es != [] {
      assert LowerNames(es[1..]) by {
        forall i | 0 <= i < |es[1..]| ensures Lower(es[1..][i].0) == es[1..][i].0 {
          assert es[1..][i] == es[i + 1];
        }
      }
      RemoveLowerNames(es[1..], name);
      var rest := Remove(es[1..], name);
      if es[0].0 != name {
        var r := [es[0]] + rest;
        assert Remove(es, name) == r;
        forall i | 0 <= i < |r| ensures Lower(r[i].0) == r[i].0 {
          if i > 0 { assert r[i] == rest[i - 1]; } else { assert r[i] == es[0]; }
        }
      }
    }
  }

  class Headers {
    var entries: seq<Entry>

    ghost predicate Valid()
      reads this
    {
      WellFormed(entries)
    }

    /** `new Headers()`. */
    constructor ()
      ensures Valid() && entries == []
    {
      entries := [];
    }

    /** `headers.append(name, value)`. */
    method Append(name: string, value: string)
      requires Valid()
      modifies this
      ensures Valid()
      ensures entries == AppendEntry(old(entries), Lower(name), value)
    {
      LowerIdempotent(name);
      AppendEntryFacts(entries, Lower(name), value, "");
      entries := AppendEntry(entries, Lower(name), value);
    }

    /** `headers.delete(name)`. */
    method Delete(name: string)
      requires Valid()
      modifies this
      ensures Valid()
      ensures entries == Remove(old(entries), Lower(name))
    {
      DeleteFacts(entries, Lower(name), "");
      entries := Remove(entries, Lower(name));
    }
  }

  lemma LowerIdempotent(s: string)
    ensures Lower(Lower(s)) == Lower(s)
  {
  }
}
