/**
 * The filtering `Project.GetSharedFilesAsync` applies to the server's reply: only files whose
 * type name the query asks for are kept, and the reply is rebuilt only when a file was dropped.
 */
module Projects {
  import opened Wrappers
  import opened Exceptions
  import opened Sequences
  import opened Items

  /** The query's type names; `SharedFileQuery` itself is not part of this model. */
  datatype SharedFileQuery = SharedFileQuery(typeNames: seq<string>)

  /** A `BacklogResponse<SharedFile[]>`: the status code, the content, the errors if any. */
  datatype SharedFilesResponse = SharedFilesResponse(
    statusCode: int,
    content: Option<seq<SharedFile>>,
    errors: Option<seq<string>>)

  /** `files.Where(x => typeNames.Contains(x.TypeName))`: the files of the wanted types, in order. */
  function OfTypes(files: seq<SharedFile>, typeNames: seq<string>): (r: seq<SharedFile>)
    ensures forall x :: x in r <==> x in files && x.typeName in typeNames
    ensures IsSubsequence(r, files)
    ensures |r| <= |files|
  {
    if files == [] then []
    else
      var prefix := files[..|files| - 1];
      var last := files[|files| - 1];
      var kept := OfTypes(prefix, typeNames);
      assert files == prefix + [last];
      if last.typeName in typeNames then
        assert (kept + [last])[..|kept|] == kept;
        kept + [last]
      else
        SubsequenceExtend(kept, prefix, last);
        kept
  }

  /**
   * The filter keeps every occurrence of a wanted file and none of the others; with
   * `IsSubsequence`, this fixes its result.
   */
  lemma {:induction false} OfTypesCounts(files: seq<SharedFile>, typeNames: seq<string>)
    ensures forall x ::
      multiset(OfTypes(files, typeNames))[x] == (if x.typeName in typeNames then multiset(files)[x] else 0)
  {
    if files != [] {
      var prefix := files[..|files| - 1];
      var last := files[|files| - 1];
      OfTypesCounts(prefix, typeNames);
      assert files == prefix + [last];
      assert multiset(files) == multiset(prefix) + multiset{last};
    }
  }

  /** The filter drops nothing exactly when every file has a wanted type, and then changes nothing. */
  lemma {:induction false} OfTypesKeepsAll(files: seq<SharedFile>, typeNames: seq<string>)
    ensures |OfTypes(files, typeNames)| == |files|
        <==> forall i :: 0 <= i < |files| ==> files[i].typeName in typeNames
    ensures |OfTypes(files, typeNames)| == |files| ==> OfTypes(files, typeNames) == files
  {
    if files != [] {
      var prefix := files[..|files| - 1];
      var last := files[|files| - 1];
      var kept := OfTypes(prefix, typeNames);
      OfTypesKeepsAll(prefix, typeNames);
      assert files == prefix + [last];
      if last.typeName in typeNames {
        assert OfTypes(files, typeNames) == kept + [last];
      } else {
        assert OfTypes(files, typeNames) == kept;
      }
    }
  }

  /**
   * `GetSharedFilesAsync` once the reply `result` has arrived; `query` is the caller's query,
   * `None` for `null`, replaced by `defaultQuery` (a `new SharedFileQuery()`).
   */
  function GetSharedFilesAsync(query: Option<SharedFileQuery>, defaultQuery: SharedFileQuery,
                               result: SharedFilesResponse): (r: Result<SharedFilesResponse, Exception>)
    // a reply with errors is passed on untouched
    ensures result.errors.Some? ==> r == Success(result)
    // a reply without errors and without content makes `Enumerable.Where` throw ArgumentNullException
    ensures result.errors.None? && result.content.None? ==> r == Failure(ArgumentNull)
    ensures result.errors.None? && result.content.Some? ==>
      var typeNames := query.GetOr(defaultQuery).typeNames;
      && r.Success?
      && r.value.statusCode == result.statusCode
      && r.value.content == Some(OfTypes(result.content.value, typeNames))
      // the reply object is kept when no file was dropped, and rebuilt without errors otherwise
      && (r.value == result <==> forall i :: 0 <= i < |result.content.value| ==> result.content.value[i].typeName in typeNames)
      && (r.value != result ==> r.value.errors.None?)
  {
    var typeNames := query.GetOr(defaultQuery).typeNames;
    if result.errors.Some? then Success(result)
    else if result.content.None? then Failure(ArgumentNull)
    else
      var content := OfTypes(result.content.value, typeNames);
      OfTypesKeepsAll(result.content.value, typeNames);
      if |content| == |result.content.value| then Success(result)
      else Success(SharedFilesResponse(result.statusCode, Some(content), None))
  }
}
