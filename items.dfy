/** Backlog items as the modelled code sees them. */
module Items {

  /**
   * A cached item (ticket type, priority, status, resolution, user, category, milestone,
   * attachment) seen only through its `Id`.
   */
  datatype ItemRef = ItemRef(id: int)

  /** The `Id` every item starts with when it was built locally rather than read from the server. */
  const NotFromServerId := -1

  /** A file of the project's shared-file storage; `typeName` is the type the server reports. */
  datatype SharedFile = SharedFile(id: int, typeName: string, dir: string, name: string, size: int)

  function Ids(items: seq<ItemRef>): (r: seq<int>)
    ensures |r| == |items| && forall i :: 0 <= i < |items| ==> r[i] == items[i].id
  {
    seq(|items|, i requires 0 <= i < |items| => items[i].id)
  }
}
