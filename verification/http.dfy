/** The outbound HTTP request as handed to `fetch`, and header lookup as a
    receiving server performs it (header names compare without case). */
module Http {
  import opened Wrappers
  import opened Text

  datatype Request = Request(url: string, httpMethod: string, headers: seq<(string, string)>, body: string)

  /** The value of the first header whose lower-cased name is `name`. */
  function Header(headers: seq<(string, string)>, name: string): Option<string>
    decreases |headers|
  {
    if |headers| == 0 then None
    else if Lower(headers[0].0) == name then Some(headers[0].1)
    else Header(headers[1..], name)
  }

  /** A header is found exactly when some header has the name, and what is
      found is the value of a header with that name. */
  lemma {:induction false} HeaderSpec(headers: seq<(string, string)>, name: string)
    ensures Header(headers, name).Some? ==>
      exists i :: 0 <= i < |headers| && Lower(headers[i].0) == name && headers[i].1 == Header(headers, name).value
    ensures Header(headers, name).None? <==> forall i :: 0 <= i < |headers| ==> Lower(headers[i].0) != name
    decreases |headers|
  {
    if |headers| > 0 && Lower(headers[0].0) != name {
      HeaderSpec(headers[1..], name);
      assert forall i :: 1 <= i < |headers| ==> headers[i] == headers[1..][i - 1];
      if Header(headers, name).Some? {
        var j :| 0 <= j < |headers[1..]| && Lower(headers[1..][j].0) == name && headers[1..][j].1 == Header(headers, name).value;
        assert headers[j + 1] == headers[1..][j];
      }
    }
  }

  /** The first header whose name matches is the one found. */
  lemma {:induction false} HeaderAt(headers: seq<(string, string)>, i: nat, name: string)
    requires i < |headers| && Lower(headers[i].0) == name
    requires forall j :: 0 <= j < i ==> Lower(headers[j].0) != name
    ensures Header(headers, name) == Some(headers[i].1)
    decreases i
  {
    if i > 0 {
      HeaderAt(headers[1..], i - 1, name);
    }
  }

  /** When the lower-cased names of the headers are pairwise distinct, each
      name finds its own header. */
  lemma HeadersByDistinctNames(headers: seq<(string, string)>, names: seq<string>)
    requires |names| == |headers|
    requires forall i :: 0 <= i < |headers| ==> Lower(headers[i].0) == names[i]
    requires forall i, j :: 0 <= i < j < |names| ==> names[i] != names[j]
    ensures forall i :: 0 <= i < |headers| ==> Header(headers, names[i]) == Some(headers[i].1)
  {
    forall i | 0 <= i < |headers|
      ensures Header(headers, names[i]) == Some(headers[i].1)
    {
      HeaderAt(headers, i, names[i]);
    }
  }
}
