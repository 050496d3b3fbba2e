/**
 * The request-parameter builder `QueryParameters`, seen only from the outside: an append-only
 * list of named entries. `Add`'s optional third `bool` argument is recorded as an uninterpreted
 * flag, and `AddRange` as one entry carrying the whole id list. Each caller names its entries
 * with its own enumeration `N`, whose wire rendering is the string the source passes.
 */
module Query {
  import opened Wrappers

  datatype ParamValue =
    | Text(text: string)
    /** A `null` string passed to `Add`. */
    | NullText
    | Number(number: int)
    | IdList(ids: seq<int>)

  /** One `Add` or `AddRange` call: the name, the value, and the third argument if one was passed. */
  datatype QueryParam<N> = QueryParam(name: N, value: ParamValue, flag: Option<bool>)

  /** `s` as a parameter value: `null` stays distinguishable from `""`. */
  function TextOrNull(s: Option<string>): (v: ParamValue)
    ensures v.NullText? <==> s.None?
    ensures s.Some? ==> v == Text(s.value)
  {
    if s.Some? then Text(s.value) else NullText
  }

  function Names<N>(ps: seq<QueryParam<N>>): (r: seq<N>)
    ensures |r| == |ps| && forall i :: 0 <= i < |ps| ==> r[i] == ps[i].name
  {
    seq(|ps|, i requires 0 <= i < |ps| => ps[i].name)
  }

  lemma NamesAppend<N>(a: seq<QueryParam<N>>, b: seq<QueryParam<N>>)
    ensures Names(a + b) == Names(a) + Names(b)
  {
  }

  class QueryParameters<N> {
    var entries: seq<QueryParam<N>>

    constructor ()
      ensures entries == []
    {
      entries := [];
    }

    method Add(name: N, value: ParamValue, flag: Option<bool>)
      modifies this
      ensures entries == old(entries) + [QueryParam(name, value, flag)]
    {
      entries := entries + [QueryParam(name, value, flag)];
    }

    method AddRange(name: N, ids: seq<int>)
      modifies this
      ensures entries == old(entries) + [QueryParam(name, IdList(ids), None)]
    {
      entries := entries + [QueryParam(name, IdList(ids), None)];
    }
  }
}
