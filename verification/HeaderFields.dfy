/** The header map of HTTP messages: `std::map<string, string, CaseInsensitiveLess>`, modelled as
    its iteration order, the list of fields strictly sorted by folded name. */
module HeaderFields {
  import opened Wrappers
  import opened Text

  datatype Field = Field(name: string, value: string)

  type Headers = seq<Field>

  predicate Sorted(headers: Headers) {
    forall i, j :: 0 <= i < j < |headers| ==> NameLess(headers[i].name, headers[j].name)
  }

  /** `insert_or_assign`: a name already present (ignoring case) keeps its first spelling. */
  function Put(headers: Headers, name: string, value: string): (r: Headers)
    ensures |headers| <= |r| <= |headers| + 1
  {
    if headers == [] then [Field(name, value)]
    else if NameLess(headers[0].name, name) then [headers[0]] + Put(headers[1..], name, value)
    else if NameLess(name, headers[0].name) then [Field(name, value)] + headers
    else [Field(headers[0].name, value)] + headers[1..]
  }

  /** `find`: the value stored under a name, ignoring case. */
  function Get(headers: Headers, name: string): Option<string> {
    if headers == [] then None
    else if SameName(headers[0].name, name) then Some(headers[0].value)
    else Get(headers[1..], name)
  }

  /** Every name in the result of `Put` comes from the map or is the new one. */
  lemma PutNames(headers: Headers, name: string, value: string, i: nat)
    requires i < |Put(headers, name, value)|
    ensures Put(headers, name, value)[i].name == name ||
            exists j :: 0 <= j < |headers| && headers[j].name == Put(headers, name, value)[i].name
  {
    if headers != [] {
      if NameLess(headers[0].name, name) {
        if 0 < i {
          PutNames(headers[1..], name, value, i - 1);
          var rest := Put(headers[1..], name, value)[i - 1].name;
          if rest != name {
            var j :| 0 <= j < |headers[1..]| && headers[1..][j].name == rest;
            assert headers[j + 1].name == rest;
          }
        } else {
          assert headers[0].name == Put(headers, name, value)[0].name;
        }
      } else if NameLess(name, headers[0].name) {
        if 0 < i {
          assert headers[i - 1].name == Put(headers, name, value)[i].name;
        }
      } else {
        assert headers[i].name == Put(headers, name, value)[i].name;
      }
    }
  }

  /** The map stays strictly sorted. */
  lemma PutSorted(headers: Headers, name: string, value: string)
    requires Sorted(headers)
    ensures Sorted(Put(headers, name, value))
  {
    hide NameLess;
    if headers != [] {
      if NameLess(headers[0].name, name) {
        PutSorted(headers[1..], name, value);
        var rest := Put(headers[1..], name, value);
        forall i | 0 <= i < |rest| ensures NameLess(headers[0].name, rest[i].name) {
          PutNames(headers[1..], name, value, i);
        }
        FirstSorted(headers[0], rest);
      } else if NameLess(name, headers[0].name) {
        forall i | 0 < i < |headers| ensures NameLess(name, headers[i].name) {
          NameLessTransitive(name, headers[0].name, headers[i].name);
        }
        FirstSorted(Field(name, value), headers);
      }
    }
  }

  lemma FirstSorted(first: Field, rest: Headers)
    requires Sorted(rest) && forall i :: 0 <= i < |rest| ==> NameLess(first.name, rest[i].name)
    ensures Sorted([first] + rest)
  {
    hide NameLess;
  }

  /** What was put is what a lookup under any spelling of the name returns. */
  lemma GetAfterPut(headers: Headers, name: string, value: string, key: string)
    requires SameName(name, key)
    ensures Get(Put(headers, name, value), key) == Some(value)
  {
    if headers != [] {
      var first := headers[0].name;
      NameLessTotal(first, name);
      if NameLess(first, name) {
        GetAfterPut(headers[1..], name, value, key);
      }
    }
  }

  /** Other names are not affected. */
  lemma GetOtherAfterPut(headers: Headers, name: string, value: string, key: string)
    requires !SameName(name, key)
    ensures Get(Put(headers, name, value), key) == Get(headers, key)
  {
    if headers != [] {
      var first := headers[0].name;
      NameLessTotal(first, name);
      if NameLess(first, name) {
        GetOtherAfterPut(headers[1..], name, value, key);
      }
    }
  }

  /** A name above all present ones is appended. */
  lemma PutAtEnd(headers: Headers, name: string, value: string)
    requires forall i :: 0 <= i < |headers| ==> NameLess(headers[i].name, name)
    ensures Put(headers, name, value) == headers + [Field(name, value)]
  {
    if headers != [] {
      PutAtEnd(headers[1..], name, value);
    }
  }

  /** The names that `dump` leaves out because it prints its own line for them. */
  predicate Skipped(name: string, connectionToo: bool, lengthToo: bool) {
    (connectionToo && SameName(name, "connection")) || (lengthToo && SameName(name, "content-length"))
  }

  /** The fields that `dump` prints from the map. */
  function Kept(headers: Headers, connectionToo: bool, lengthToo: bool): (r: Headers)
    ensures |r| <= |headers|
  {
    if headers == [] then []
    else if Skipped(headers[0].name, connectionToo, lengthToo) then Kept(headers[1..], connectionToo, lengthToo)
    else [headers[0]] + Kept(headers[1..], connectionToo, lengthToo)
  }

  lemma {:induction false} KeptMember(headers: Headers, connectionToo: bool, lengthToo: bool, i: nat)
    requires i < |Kept(headers, connectionToo, lengthToo)|
    ensures Kept(headers, connectionToo, lengthToo)[i] in headers
    ensures !Skipped(Kept(headers, connectionToo, lengthToo)[i].name, connectionToo, lengthToo)
  {
    hide Skipped;
    if Skipped(headers[0].name, connectionToo, lengthToo) {
      KeptMember(headers[1..], connectionToo, lengthToo, i);
    } else if 0 < i {
      KeptMember(headers[1..], connectionToo, lengthToo, i - 1);
    }
  }

  lemma KeptSorted(headers: Headers, connectionToo: bool, lengthToo: bool)
    requires Sorted(headers)
    ensures Sorted(Kept(headers, connectionToo, lengthToo))
  {
    if headers != [] {
      KeptSorted(headers[1..], connectionToo, lengthToo);
      forall i | 0 <= i < |Kept(headers[1..], connectionToo, lengthToo)|
        ensures NameLess(headers[0].name, Kept(headers[1..], connectionToo, lengthToo)[i].name)
      {
        KeptMember(headers[1..], connectionToo, lengthToo, i);
      }
    }
  }

  /** Of the values in the map, exactly those of the names printed separately are left out. */
  lemma {:induction false} KeptValue(headers: Headers, connectionToo: bool, lengthToo: bool, name: string)
    ensures Get(Kept(headers, connectionToo, lengthToo), name) ==
              if (connectionToo && SameName(name, "connection")) || (lengthToo && SameName(name, "content-length"))
              then None else Get(headers, name)
  {
    hide SameName;
    if headers != [] {
      KeptValue(headers[1..], connectionToo, lengthToo, name);
      if SameName(headers[0].name, name) {
        SameTwo(headers[0].name, name, "connection");
        SameTwo(headers[0].name, name, "content-length");
      }
    }
  }

  lemma SameTwo(a: string, b: string, c: string)
    requires SameName(a, b)
    ensures SameName(a, c) <==> SameName(b, c)
  {
  }

  lemma KeptIdempotent(headers: Headers, connectionToo: bool, lengthToo: bool)
    ensures var kept := Kept(headers, connectionToo, lengthToo); Kept(kept, connectionToo, lengthToo) == kept
  {
    if headers != [] {
      KeptIdempotent(headers[1..], connectionToo, lengthToo);
    }
  }

  /** Storing a field that `dump` leaves out does not change what `dump` prints. */
  lemma KeptIgnoresSkipped(headers: Headers, name: string, value: string, connectionToo: bool, lengthToo: bool)
    requires Skipped(name, connectionToo, lengthToo)
    ensures Kept(Put(headers, name, value), connectionToo, lengthToo) == Kept(headers, connectionToo, lengthToo)
  {
    if headers != [] {
      var first := headers[0].name;
      NameLessTotal(first, name);
      if NameLess(first, name) {
        KeptIgnoresSkipped(headers[1..], name, value, connectionToo, lengthToo);
      } else if NameLess(name, first) {
        assert Kept([Field(name, value)] + headers, connectionToo, lengthToo) ==
               Kept(headers, connectionToo, lengthToo);
      }
    }
  }
}
