/** The comment cache: a table from dream id to that dream's comments,
    newest first, patched by the user's own actions once the backend has
    answered and by the realtime change feed of the `comments` table. */
module Comments {
  import opened Outcomes
  import opened Seqs
  import opened Rows

  type Cache = map<string, seq<Comment>>

  /** `comment => comment.id === id` */
  function HasId(id: string): Comment -> bool {
    (c: Comment) => c.id == id
  }

  /** `{ ...comment, likes: (comment.likes || 0) + 1 }`; a stored 0 and a
      missing value both count as 0. */
  function Liked(c: Comment): Comment {
    c.(likes := Some(c.likes.GetOr(0) + 1))
  }

  /** The bucket transform of a successful `likeComment`, over every bucket. */
  function LikeEverywhere(m: Cache, commentId: string): Cache {
    map d | d in m :: MapWhere(m[d], HasId(commentId), Liked)
  }

  /** The bucket transform of a successful `deleteComment`, over every bucket. */
  function DeleteEverywhere(m: Cache, commentId: string): Cache {
    map d | d in m :: RemoveWhere(m[d], HasId(commentId))
  }

  /** A like touches exactly the comments with that id, in every bucket, and
      adds one to their count; keys, lengths, positions and every other
      comment stay as they were. */
  lemma LikeEverywhereSpec(m: Cache, commentId: string)
    ensures LikeEverywhere(m, commentId).Keys == m.Keys
    ensures forall d :: d in m ==> |LikeEverywhere(m, commentId)[d]| == |m[d]|
    ensures forall d, i :: d in m && 0 <= i < |m[d]| ==>
              var before, after := m[d][i], LikeEverywhere(m, commentId)[d][i];
              if before.id == commentId
              then after == before.(likes := Some(before.likes.GetOr(0) + 1))
              else after == before
  {
    var after := LikeEverywhere(m, commentId);
    forall d | d in m
      ensures |after[d]| == |m[d]|
      ensures forall i :: 0 <= i < |m[d]| ==>
                after[d][i] == if m[d][i].id == commentId then Liked(m[d][i]) else m[d][i]
    {
      assert after[d] == MapWhere(m[d], HasId(commentId), Liked);
      MapWherePointwise(m[d], HasId(commentId), Liked);
    }
  }

  /** A like never lowers a count and raises a matching one by exactly 1. */
  lemma LikeRaisesByOne(m: Cache, commentId: string, d: string, i: nat)
    requires d in m && i < |m[d]| && m[d][i].id == commentId
    ensures LikeEverywhere(m, commentId)[d][i].likes == Some(m[d][i].likes.GetOr(0) + 1)
  {
    MapWhereAt(m[d], HasId(commentId), Liked, i);
  }

  /** A delete removes every comment with that id from every bucket, keeps
      each other comment exactly as often as before and in the same relative
      order, and keeps every key (an emptied bucket stays cached). */
  lemma DeleteEverywhereSpec(m: Cache, commentId: string)
    ensures DeleteEverywhere(m, commentId).Keys == m.Keys
    ensures forall d, c :: d in m && c in DeleteEverywhere(m, commentId)[d] ==> c.id != commentId
    ensures forall d, c: Comment :: d in m && c.id != commentId ==>
              multiset(DeleteEverywhere(m, commentId)[d])[c] == multiset(m[d])[c]
    ensures forall d :: d in m ==> IsSubsequence(DeleteEverywhere(m, commentId)[d], m[d])
  {
    forall d | d in m
      ensures forall c: Comment :: c.id != commentId ==>
                multiset(DeleteEverywhere(m, commentId)[d])[c] == multiset(m[d])[c]
      ensures IsSubsequence(DeleteEverywhere(m, commentId)[d], m[d])
    {
      RemoveWhereCount(m[d], HasId(commentId));
      RemoveWhereIsSubsequence(m[d], HasId(commentId));
    }
  }

  /** Deleting an id that no bucket holds leaves the cache as it was. */
  lemma DeleteUnknownIsNoOp(m: Cache, commentId: string)
    requires forall d, i :: d in m && 0 <= i < |m[d]| ==> m[d][i].id != commentId
    ensures DeleteEverywhere(m, commentId) == m
  {
    forall d | d in m ensures DeleteEverywhere(m, commentId)[d] == m[d] {
      RemoveWhereNoMatch(m[d], HasId(commentId));
    }
  }

  // ---------------------------------------------------------------------
  // The realtime change feed

  /** The row images of a change event; any column may be absent. */
  datatype CommentFields = CommentFields(
    id: Option<string>,
    dreamId: Option<string>,
    userId: Option<string>,
    content: Option<string>,
    likes: Option<int>,
    createdAt: Option<string>)

  datatype ChangeKind = Insert | Update | Delete

  /** A `postgres_changes` payload: its event type, `new` and `old`. */
  datatype CommentChange = CommentChange(kind: ChangeKind, newRow: CommentFields, oldRow: CommentFields)

  /** The string is truthy: present and not empty. */
  predicate Truthy(s: Option<string>) {
    s.Some? && s.value != ""
  }

  /** `payload.new?.dream_id || payload.old?.dream_id`, as the bucket to patch
      when it is truthy. */
  function TargetBucket(ev: CommentChange): Option<string> {
    if Truthy(ev.newRow.dreamId) then ev.newRow.dreamId
    else if Truthy(ev.oldRow.dreamId) then ev.oldRow.dreamId
    else None
  }

  /** `comment => comment.id === key`, false when the key is absent. */
  function IdMatches(key: Option<string>): Comment -> bool {
    (c: Comment) => key == Some(c.id)
  }

  /** `{ ...comment, ...payload.new }`: the columns present in the event
      replace the cached ones; the joined profile is kept. */
  function Overlay(fields: CommentFields): Comment -> Comment {
    (c: Comment) => Comment(
      fields.id.GetOr(c.id),
      fields.dreamId.GetOr(c.dreamId),
      fields.userId.GetOr(c.userId),
      fields.content.GetOr(c.content),
      if fields.likes.Some? then fields.likes else c.likes,
      fields.createdAt.GetOr(c.createdAt),
      c.profile)
  }

  /** The realtime handler as one step. `refetched` is the result of
      re-reading the inserted row with its profile (`None` when that read
      fails or returns nothing). */
  function ApplyChange(m: Cache, ev: CommentChange, refetched: Option<Comment>): Cache {
    match TargetBucket(ev)
    case None => m
    case Some(d) =>
      if d !in m then m
      else match ev.kind
        case Insert => if refetched.Some? then m[d := [refetched.value] + m[d]] else m
        case Update => m[d := MapWhere(m[d], IdMatches(ev.newRow.id), Overlay(ev.newRow))]
        case Delete => m[d := RemoveWhere(m[d], IdMatches(ev.oldRow.id))]
  }

  /** An event without a truthy dream id, or for a dream whose comments are
      not cached, is dropped: no bucket is created. */
  lemma IgnoredEvents(m: Cache, ev: CommentChange, refetched: Option<Comment>)
    requires TargetBucket(ev).None? || TargetBucket(ev).value !in m
    ensures ApplyChange(m, ev, refetched) == m
  {
  }

  /** Every event keeps the set of cached dreams and touches only its own
      bucket. */
  lemma ApplyChangeFrame(m: Cache, ev: CommentChange, refetched: Option<Comment>)
    ensures ApplyChange(m, ev, refetched).Keys == m.Keys
    ensures forall d :: d in m && Some(d) != TargetBucket(ev) ==> ApplyChange(m, ev, refetched)[d] == m[d]
  {
  }

  /** INSERT puts the re-read row at the head of the bucket. There is no
      check for a comment already cached under that id. */
  lemma InsertPrepends(m: Cache, ev: CommentChange, row: Comment, d: string)
    requires ev.kind == Insert && TargetBucket(ev) == Some(d) && d in m
    ensures ApplyChange(m, ev, Some(row))[d] == [row] + m[d]
    ensures |ApplyChange(m, ev, Some(row))[d]| == |m[d]| + 1
    ensures ApplyChange(m, ev, None) == m
  {
  }

  /** A row whose id is already cached is cached twice after its INSERT. */
  lemma InsertDuplicates(m: Cache, ev: CommentChange, row: Comment, d: string)
    requires ev.kind == Insert && TargetBucket(ev) == Some(d) && d in m && row in m[d]
    ensures multiset(ApplyChange(m, ev, Some(row))[d])[row] >= 2
  {
    InsertPrepends(m, ev, row, d);
    assert multiset([row] + m[d]) == multiset{row} + multiset(m[d]);
  }

  /** UPDATE overlays the event's columns onto each comment whose id equals
      `new.id`, in place: the bucket keeps its length, its order and the id at
      every position. */
  lemma UpdateInPlace(m: Cache, ev: CommentChange, refetched: Option<Comment>, d: string)
    requires ev.kind == Update && TargetBucket(ev) == Some(d) && d in m
    ensures |ApplyChange(m, ev, refetched)[d]| == |m[d]|
    ensures forall i :: 0 <= i < |m[d]| ==>
              var before, after := m[d][i], ApplyChange(m, ev, refetched)[d][i];
              && after.id == before.id
              && (ev.newRow.id == Some(before.id) ==> after == Overlay(ev.newRow)(before))
              && (ev.newRow.id != Some(before.id) ==> after == before)
  {
    MapWherePointwise(m[d], IdMatches(ev.newRow.id), Overlay(ev.newRow));
  }

  /** UPDATE for an id the bucket does not hold changes nothing. */
  lemma UpdateUnknownIsNoOp(m: Cache, ev: CommentChange, refetched: Option<Comment>, d: string)
    requires ev.kind == Update && TargetBucket(ev) == Some(d) && d in m
    requires forall i :: 0 <= i < |m[d]| ==> ev.newRow.id != Some(m[d][i].id)
    ensures ApplyChange(m, ev, refetched) == m
  {
    MapWhereNoMatch(m[d], IdMatches(ev.newRow.id), Overlay(ev.newRow));
  }

  /** DELETE removes every comment whose id equals `old.id` from the bucket and
      keeps the others, in order. */
  lemma DeleteFilters(m: Cache, ev: CommentChange, refetched: Option<Comment>, d: string)
    requires ev.kind == Delete && TargetBucket(ev) == Some(d) && d in m
    ensures forall c :: c in ApplyChange(m, ev, refetched)[d] ==> ev.oldRow.id != Some(c.id)
    ensures forall c: Comment :: ev.oldRow.id != Some(c.id) ==>
              multiset(ApplyChange(m, ev, refetched)[d])[c] == multiset(m[d])[c]
    ensures IsSubsequence(ApplyChange(m, ev, refetched)[d], m[d])
  {
    RemoveWhereCount(m[d], IdMatches(ev.oldRow.id));
    RemoveWhereIsSubsequence(m[d], IdMatches(ev.oldRow.id));
  }

  // ---------------------------------------------------------------------
  // The store

  class CommentStore {
    var comments: Cache
    var loading: bool
    var error: Option<string>

    constructor ()
      ensures comments == map[] && !loading && error == None
    {
      comments := map[];
      loading := false;
      error := None;
    }

    /** `fetchComments(dreamId)`, given what the select returned: its rows
        (`None` for a null `data`) or what it threw. */
    method FetchComments(dreamId: string, response: Remote<Option<seq<Comment>>>)
      modifies this
      ensures !loading
      ensures response.Ok? ==> comments == old(comments)[dreamId := response.data.GetOr([])]
      ensures response.Ok? ==> error == None
      ensures response.Failed? ==> comments == old(comments)
      ensures response.Failed? ==> error == Some(ErrorMessage(response.reason, "Failed to fetch comments"))
      ensures forall d :: d in old(comments) && d != dreamId ==> d in comments && comments[d] == old(comments)[d]
    {
      loading, error := true, None;
      match response {
        case Ok(data) =>
          comments := comments[dreamId := data.GetOr([])];
        case Failed(e) =>
          error := Some(ErrorMessage(e, "Failed to fetch comments"));
      }
      loading := false;
    }

    /** `addComment(dreamId, content)`, given `user?.id` as destructured
        from the result of `supabase.auth.getUser()` (`None` when undefined)
        and what the insert returned: the created row with its profile
        (`None` for a null `data`) or what it threw. */
    method AddComment(dreamId: string, sessionUserId: Option<string>, response: Remote<Option<Comment>>)
      returns (outcome: Completion)
      modifies this
      ensures loading == old(loading)
      ensures !Truthy(sessionUserId) ==>
                && outcome == Rejected(ErrorObject("Must be logged in to comment"))
                && comments == old(comments) && error == old(error)
      ensures Truthy(sessionUserId) && response.Failed? ==>
                && outcome == Rejected(response.reason)
                && comments == old(comments)
                && error == Some(ErrorMessage(response.reason, "Failed to add comment"))
      ensures Truthy(sessionUserId) && response == Ok(None) ==>
                && outcome == Rejected(ErrorObject("Failed to create comment"))
                && comments == old(comments) && error == Some("Failed to create comment")
      ensures Truthy(sessionUserId) && response.Ok? && response.data.Some? ==>
                && outcome == Resolved
                && comments == old(comments)[dreamId := [response.data.value] +
                                 (if dreamId in old(comments) then old(comments)[dreamId] else [])]
                && error == old(error)
    {
      if !Truthy(sessionUserId) {
        return Rejected(ErrorObject("Must be logged in to comment"));
      }
      var thrown: Thrown;
      match response {
        case Failed(e) =>
          thrown := e;
        case Ok(None) =>
          thrown := ErrorObject("Failed to create comment");
        case Ok(Some(row)) =>
          var bucket := if dreamId in comments then comments[dreamId] else [];
          comments := comments[dreamId := [row] + bucket];
          return Resolved;
      }
      error := Some(ErrorMessage(thrown, "Failed to add comment"));
      outcome := Rejected(thrown);
    }

    /** `likeComment(commentId)`, given what the increment call threw, if
        anything. */
    method LikeComment(commentId: string, response: Remote<()>) returns (outcome: Completion)
      modifies this
      ensures loading == old(loading)
      ensures response.Ok? ==>
                outcome == Resolved && comments == LikeEverywhere(old(comments), commentId) && error == old(error)
      ensures response.Failed? ==>
                && outcome == Rejected(response.reason) && comments == old(comments)
                && error == Some(ErrorMessage(response.reason, "Failed to like comment"))
    {
      match response
      case Ok(_) =>
        comments := LikeEverywhere(comments, commentId);
        outcome := Resolved;
      case Failed(e) =>
        error := Some(ErrorMessage(e, "Failed to like comment"));
        outcome := Rejected(e);
    }

    /** `deleteComment(commentId)`, given what the delete threw, if anything. */
    method DeleteComment(commentId: string, response: Remote<()>) returns (outcome: Completion)
      modifies this
      ensures loading == old(loading)
      ensures response.Ok? ==>
                outcome == Resolved && comments == DeleteEverywhere(old(comments), commentId) && error == old(error)
      ensures response.Failed? ==>
                && outcome == Rejected(response.reason) && comments == old(comments)
                && error == Some(ErrorMessage(response.reason, "Failed to delete comment"))
    {
      match response
      case Ok(_) =>
        comments := DeleteEverywhere(comments, commentId);
        outcome := Resolved;
      case Failed(e) =>
        error := Some(ErrorMessage(e, "Failed to delete comment"));
        outcome := Rejected(e);
    }

    /** The realtime subscription's handler for one event, taken as atomic. */
    method OnChange(ev: CommentChange, refetched: Option<Comment>)
      modifies this
      ensures comments == ApplyChange(old(comments), ev, refetched)
      ensures loading == old(loading) && error == old(error)
    {
      comments := ApplyChange(comments, ev, refetched);
    }
  }
}
