/** Display normalisers (frontend/src/utils/index.ts): the non-empty parts of a
    name or a contact number joined by single spaces, with a three-way result:
    the empty string for a missing record, `undefined` when every part is empty,
    the joined text otherwise. */
module Display {
  import opened Wrappers

  /** A value shown in the UI: a string, or JavaScript's `undefined`. */
  datatype Shown = Text(s: string) | Undefined

  /** `IName`: every part is optional. */
  datatype Name = Name(firstName: Option<string>, middleName: Option<string>, lastName: Option<string>)

  /** `IContactNumber`. */
  datatype ContactNumber = ContactNumber(countryCode: string, number: string)

  /** lodash `isEmpty` on an optional string: absent or of length zero. */
  predicate IsEmpty(o: Option<string>) {
    o.None? || o.value == ""
  }

  /** `.filter(i => !isEmpty(i))`. */
  function NonEmptyParts(parts: seq<Option<string>>): (r: seq<string>)
    ensures forall i :: 0 <= i < |r| ==> r[i] != ""
    ensures r == [] <==> forall i :: 0 <= i < |parts| ==> IsEmpty(parts[i])
    ensures forall i :: 0 <= i < |parts| && !IsEmpty(parts[i]) ==> parts[i].value in r
  {
    if parts == [] then []
    else
      var rest := NonEmptyParts(parts[1..]);
      assert forall i :: 0 < i < |parts| ==> parts[i] == parts[1..][i - 1];
      (if IsEmpty(parts[0]) then [] else [parts[0].value]) + rest
  }

  /** What the filter keeps of one part. */
  function Kept(o: Option<string>): seq<string> {
    if IsEmpty(o) then [] else [o.value]
  }

  /** The filter works part by part: it keeps the order of the parts. */
  lemma {:induction false} NonEmptyPartsConcat(a: seq<Option<string>>, b: seq<Option<string>>)
    ensures NonEmptyParts(a + b) == NonEmptyParts(a) + NonEmptyParts(b)
  {
    if a == [] {
      assert a + b == b;
    } else {
      assert (a + b)[0] == a[0];
      assert (a + b)[1..] == a[1..] + b;
      NonEmptyPartsConcat(a[1..], b);
    }
  }

  lemma NonEmptyPartsSingle(o: Option<string>)
    ensures NonEmptyParts([o]) == Kept(o)
  {
    assert [o][1..] == [];
  }

  /** The three parts of a name: each non-empty one is kept, first to last. */
  lemma NonEmptyPartsTriple(f: Option<string>, m: Option<string>, l: Option<string>)
    ensures NonEmptyParts([f, m, l]) == Kept(f) + Kept(m) + Kept(l)
  {
    assert [f, m, l] == [f] + [m] + [l];
    NonEmptyPartsConcat([f] + [m], [l]);
    NonEmptyPartsConcat([f], [m]);
    NonEmptyPartsSingle(f);
    NonEmptyPartsSingle(m);
    NonEmptyPartsSingle(l);
  }

  /** `.join(sep)`. */
  function Join(parts: seq<string>, sep: string): string {
    if parts == [] then ""
    else if |parts| == 1 then parts[0]
    else parts[0] + sep + Join(parts[1..], sep)
  }

  function TotalLength(parts: seq<string>): nat {
    if parts == [] then 0 else |parts[0]| + TotalLength(parts[1..])
  }

  /** The joined text is the parts' characters plus exactly one separator between
      neighbours. */
  lemma {:induction false} JoinLength(parts: seq<string>)
    requires |parts| >= 1
    ensures |Join(parts, " ")| == TotalLength(parts) + |parts| - 1
  {
    if |parts| > 1 {
      JoinLength(parts[1..]);
    }
  }

  /** A join of non-empty parts is empty only when there are no parts. */
  lemma JoinEmptyIff(parts: seq<string>)
    requires forall i :: 0 <= i < |parts| ==> parts[i] != ""
    ensures Join(parts, " ") == "" <==> parts == []
  {
    if parts != [] {
      JoinLength(parts);
      assert TotalLength(parts) >= |parts[0]| > 0;
    }
  }

  /** `[...].filter(i => !isEmpty(i)).join(' ')` and the final length test. */
  function JoinPresent(parts: seq<Option<string>>): (r: Shown)
    ensures r == Undefined <==> forall i :: 0 <= i < |parts| ==> IsEmpty(parts[i])
    ensures r.Text? ==> r.s == Join(NonEmptyParts(parts), " ") && r.s != ""
  {
    var kept := NonEmptyParts(parts);
    JoinEmptyIff(kept);
    var joined := Join(kept, " ");
    if |joined| > 0 then Text(joined) else Undefined
  }

  /** `normalizeName(name)`. */
  function NormalizeName(name: Option<Name>): (r: Shown)
    ensures name.None? ==> r == Text("")
    ensures name.Some? ==>
      (r == Undefined <==> IsEmpty(name.value.firstName) && IsEmpty(name.value.middleName) && IsEmpty(name.value.lastName))
    ensures name.Some? && r.Text? ==>
      r.s == Join(NonEmptyParts([name.value.firstName, name.value.middleName, name.value.lastName]), " ")
    ensures name.Some? && r.Text? ==>
      r.s == Join(Kept(name.value.firstName) + Kept(name.value.middleName) + Kept(name.value.lastName), " ")
  {
    match name
    case None => Text("")
    case Some(n) =>
      var parts := [n.firstName, n.middleName, n.lastName];
      assert parts[0] == n.firstName && parts[1] == n.middleName && parts[2] == n.lastName;
      NonEmptyPartsTriple(n.firstName, n.middleName, n.lastName);
      JoinPresent(parts)
  }

  /** `normalizeContact(contact)`. */
  function NormalizeContact(contact: Option<ContactNumber>): (r: Shown)
    ensures contact.None? ==> r == Text("")
    ensures contact.Some? ==> (r == Undefined <==> contact.value.countryCode == "" && contact.value.number == "")
    ensures contact.Some? && contact.value.countryCode != "" && contact.value.number != "" ==>
      r == Text(contact.value.countryCode + " " + contact.value.number)
    ensures contact.Some? && (contact.value.countryCode == "") != (contact.value.number == "") ==>
      r == Text(contact.value.countryCode + contact.value.number)
  {
    match contact
    case None => Text("")
    case Some(c) =>
      var parts := [Some(c.countryCode), Some(c.number)];
      NonEmptyPartsPair(c.countryCode, c.number);
      assert [c.countryCode, c.number][1..] == [c.number];
      assert c.countryCode != "" && c.number != "" ==>
        Join([c.countryCode, c.number], " ") == c.countryCode + " " + c.number;
      JoinPresent(parts)
  }

  lemma NonEmptyPartsPair(a: string, b: string)
    ensures NonEmptyParts([Some(a), Some(b)]) ==
      (if a == "" then [] else [a]) + (if b == "" then [] else [b])
  {
    var parts := [Some(a), Some(b)];
    assert parts[1..] == [Some(b)];
    assert parts[1..][1..] == [];
  }

  /** Splitting a string at every space, as `s.split(' ')` does. */
  function Split(s: string): (r: seq<string>)
    ensures |r| >= 1
  {
    if s == [] then [""]
    else
      var rest := Split(s[1..]);
      if s[0] == ' ' then [""] + rest else [[s[0]] + rest[0]] + rest[1..]
  }

  predicate NoSpace(s: string) {
    forall j :: 0 <= j < |s| ==> s[j] != ' '
  }

  lemma {:induction false} SplitNoSpace(a: string, tail: string)
    requires NoSpace(a)
    ensures Split(a + tail) == [a + Split(tail)[0]] + Split(tail)[1..]
  {
    if a != [] {
      assert (a + tail)[0] == a[0] && (a + tail)[1..] == a[1..] + tail;
      SplitNoSpace(a[1..], tail);
      var rest := Split(a[1..] + tail);
      assert rest[0] == a[1..] + Split(tail)[0];
      assert rest[1..] == Split(tail)[1..];
      assert [a[0]] + (a[1..] + Split(tail)[0]) == a + Split(tail)[0];
    } else {
      assert a + tail == tail;
      assert a + Split(tail)[0] == Split(tail)[0];
      assert Split(tail) == [Split(tail)[0]] + Split(tail)[1..];
    }
  }

  /** The join adds no separator of its own beyond one per neighbouring pair:
      when no part holds a space, splitting the text at spaces gives back exactly
      the parts. */
  lemma {:induction false} SplitJoinRoundTrip(parts: seq<string>)
    requires |parts| >= 1
    requires forall i :: 0 <= i < |parts| ==> NoSpace(parts[i])
    ensures Split(Join(parts, " ")) == parts
  {
    if |parts| == 1 {
      SplitNoSpace(parts[0], "");
      assert parts[0] + "" == parts[0];
    } else {
      var rest := Join(parts[1..], " ");
      SplitJoinRoundTrip(parts[1..]);
      SplitNoSpace(parts[0], " " + rest);
      assert (" " + rest)[1..] == rest;
      assert Split(" " + rest) == [""] + parts[1..];
      assert Join(parts, " ") == parts[0] + (" " + rest);
      assert parts[0] + "" == parts[0];
      assert [parts[0]] + parts[1..] == parts;
    }
  }

  /** A name shown from space-free parts splits back into its non-empty parts,
      first, middle and last in that order. */
  lemma NameSplitsBack(name: Name)
    requires forall p :: p in [name.firstName, name.middleName, name.lastName] && p.Some? ==> NoSpace(p.value)
    requires NormalizeName(Some(name)).Text?
    ensures Split(NormalizeName(Some(name)).s) == NonEmptyParts([name.firstName, name.middleName, name.lastName])
    ensures Split(NormalizeName(Some(name)).s) == Kept(name.firstName) + Kept(name.middleName) + Kept(name.lastName)
  {
    NonEmptyPartsTriple(name.firstName, name.middleName, name.lastName);
    var parts := [name.firstName, name.middleName, name.lastName];
    var kept := NonEmptyParts(parts);
    NonEmptyPartsFrom(parts);
    SplitJoinRoundTrip(kept);
  }

  /** Every kept part is the value of one of the given parts. */
  lemma {:induction false} NonEmptyPartsFrom(parts: seq<Option<string>>)
    ensures forall i :: 0 <= i < |NonEmptyParts(parts)| ==> Some(NonEmptyParts(parts)[i]) in parts
  {
    if parts != [] {
      NonEmptyPartsFrom(parts[1..]);
      var rest := NonEmptyParts(parts[1..]);
      var head := if IsEmpty(parts[0]) then [] else [parts[0].value];
      assert NonEmptyParts(parts) == head + rest;
      forall i | 0 <= i < |rest| ensures Some(rest[i]) in parts {
        assert Some(rest[i]) in parts[1..];
      }
    }
  }
}
