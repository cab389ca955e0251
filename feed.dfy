/** The dream feed hook: the list of dreams it selects at start-up and the
    change events of the `dreams` table it merges into that list. */
module Feed {
  import opened Outcomes
  import opened Seqs
  import opened Rows

  /** The query's filter: the given user's dreams, whatever their privacy,
      when a (non-empty) user id is given; the public dreams otherwise. */
  predicate Selected(userId: Option<string>, d: Dream) {
    if userId.Some? && userId.value != "" then d.userId == userId.value else d.privacy == Public
  }

  /** The rows the initial query returns from the table's rows, which come in
      the order the query asks for (newest first). */
  function Select(userId: Option<string>, table: seq<Dream>): seq<Dream> {
    RemoveWhere(table, (d: Dream) => !Selected(userId, d))
  }

  /** The initial selection holds exactly the selected rows of the table, each
      as often as there and in the table's order. */
  lemma SelectSpec(userId: Option<string>, table: seq<Dream>)
    ensures forall d :: d in Select(userId, table) ==> Selected(userId, d)
    ensures forall d :: Selected(userId, d) ==> multiset(Select(userId, table))[d] == multiset(table)[d]
    ensures IsSubsequence(Select(userId, table), table)
  {
    RemoveWhereCount(table, (d: Dream) => !Selected(userId, d));
    RemoveWhereIsSubsequence(table, (d: Dream) => !Selected(userId, d));
  }

  /** With a user id, the selection ignores privacy: that user's private and
      anonymous dreams are in it, other users' public ones are not. */
  lemma OwnDreamsWhateverPrivacy(u: string, d: Dream)
    requires u != ""
    ensures Selected(Some(u), d) <==> d.userId == u
    ensures !Selected(None, d) <==> d.privacy != Public
  {
  }

  /** A change event of the `dreams` table: INSERT and UPDATE carry the new
      row, DELETE the id of the old one. */
  datatype DreamChange = Inserted(row: Dream) | Updated(row: Dream) | Deleted(oldId: string)

  function SameId(id: string): Dream -> bool {
    (d: Dream) => d.id == id
  }

  /** The list update the subscription applies for one event. */
  function ApplyChange(dreams: seq<Dream>, ev: DreamChange): seq<Dream> {
    match ev
    case Inserted(row) => [row] + dreams
    case Updated(row) => MapWhere(dreams, SameId(row.id), (_: Dream) => row)
    case Deleted(id) => RemoveWhere(dreams, SameId(id))
  }

  /** INSERT puts the new row first, with no check for duplicates and no
      filter by user or privacy. */
  lemma InsertPrepends(dreams: seq<Dream>, row: Dream)
    ensures ApplyChange(dreams, Inserted(row)) == [row] + dreams
    ensures |ApplyChange(dreams, Inserted(row))| == |dreams| + 1
    ensures ApplyChange(dreams, Inserted(row))[0] == row
  {
  }

  /** UPDATE replaces each dream with the new row's id by the whole new row,
      in place; every other dream stays where and as it is. */
  lemma UpdateReplacesInPlace(dreams: seq<Dream>, row: Dream)
    ensures |ApplyChange(dreams, Updated(row))| == |dreams|
    ensures forall i :: 0 <= i < |dreams| ==>
              ApplyChange(dreams, Updated(row))[i] == if dreams[i].id == row.id then row else dreams[i]
  {
    MapWherePointwise(dreams, SameId(row.id), (_: Dream) => row);
  }

  /** UPDATE for an id not in the list changes nothing. */
  lemma UpdateUnknownIsNoOp(dreams: seq<Dream>, row: Dream)
    requires forall i :: 0 <= i < |dreams| ==> dreams[i].id != row.id
    ensures ApplyChange(dreams, Updated(row)) == dreams
  {
    MapWhereNoMatch(dreams, SameId(row.id), (_: Dream) => row);
  }

  /** DELETE removes every dream with the old id and keeps the others, each as
      often as before and in their order. */
  lemma DeleteFilters(dreams: seq<Dream>, id: string)
    ensures forall d :: d in ApplyChange(dreams, Deleted(id)) ==> d.id != id
    ensures forall d: Dream :: d.id != id ==> multiset(ApplyChange(dreams, Deleted(id)))[d] == multiset(dreams)[d]
    ensures IsSubsequence(ApplyChange(dreams, Deleted(id)), dreams)
  {
    RemoveWhereCount(dreams, SameId(id));
    RemoveWhereIsSubsequence(dreams, SameId(id));
  }

  /** DELETE for an id not in the list changes nothing. */
  lemma DeleteUnknownIsNoOp(dreams: seq<Dream>, id: string)
    requires forall i :: 0 <= i < |dreams| ==> dreams[i].id != id
    ensures ApplyChange(dreams, Deleted(id)) == dreams
  {
    RemoveWhereNoMatch(dreams, SameId(id));
  }

  /** The hook's state cells. */
  class DreamFeed {
    var dreams: seq<Dream>
    var loading: bool
    var error: Option<string>

    constructor ()
      ensures dreams == [] && loading && error == None
    {
      dreams, loading, error := [], true, None;
    }

    /** `fetchDreams`, given the table's rows in the query's order (`None`
        for a null `data`) or what the query threw. */
    method FetchDreams(userId: Option<string>, response: Remote<Option<seq<Dream>>>)
      modifies this
      ensures !loading
      ensures response.Ok? ==> dreams == Select(userId, response.data.GetOr([])) && error == old(error)
      ensures response.Failed? ==>
                dreams == old(dreams) && error == Some(ErrorMessage(response.reason, "Failed to fetch dreams"))
    {
      match response {
        case Ok(table) =>
          dreams := Select(userId, table.GetOr([]));
        case Failed(e) =>
          error := Some(ErrorMessage(e, "Failed to fetch dreams"));
      }
      loading := false;
    }

    /** The subscription callback for one event. */
    method OnChange(ev: DreamChange)
      modifies this
      ensures dreams == ApplyChange(old(dreams), ev)
      ensures loading == old(loading) && error == old(error)
    {
      dreams := ApplyChange(dreams, ev);
    }
  }
}
