// comment-service/handlers.go and models.go: the in-memory `comments` and
// `reports` stores and the handlers over them.  Request decoding, the
// X-User-ID / X-Is-Admin headers and the user's account age arrive as
// already-read values; uuid.New() and time.Now() are parameters.

module CommentService {
  import opened Base
  import opened Http
  import VideoValidation

  datatype Comment = Comment(
    id: string,
    userId: string,
    content: string,
    videoUrl: string,
    parentId: Option<string>,
    createdAt: int,
    updatedAt: int)

  datatype Report = Report(id: string, commentId: string, reporterId: string, reason: string, createdAt: int)

  /** The decoded body of POST /comments. */
  datatype NewComment = NewComment(
    userId: string,
    content: string,
    videoUrl: string,
    videoDuration: int,
    parentId: Option<string>)

  /** What CreateComment answers: 201 with the comment, 400 with the video verdict, or another error. */
  datatype CreateReply =
    | CommentCreated(comment: Comment)
    | VideoRejected(error: string, maxDuration: int)
    | CreateFailed(status: int, error: string)
  {
    function Status(): int
    {
      match this
      case CommentCreated(_) => StatusCreated
      case VideoRejected(_, _) => StatusBadRequest
      case CreateFailed(s, _) => s
    }
  }

  /** A JSON list answer: the items and the `total` field. */
  datatype Listing<T> = Listing(items: seq<T>, total: int)

  const ParentNotFound := "Parent comment not found"
  const CommentNotFound := "Comment not found"
  const UserIdRequired := "User ID required"
  const NotAuthorized := "Not authorized to delete this comment"
  const AdminRequired := "Admin access required"

  /** The video rule runs only for a comment that carries a video with a positive duration. */
  predicate VideoChecked(req: NewComment)
  {
    req.videoUrl != "" && req.videoDuration > 0
  }

  predicate VideoAllowed(req: NewComment, accountAgeDays: int)
  {
    !VideoChecked(req) || VideoValidation.ValidateVideoUpload(accountAgeDays, req.videoDuration).valid
  }

  /** Whether GET /comments?parentId=q returns c. */
  predicate Selected(parentQuery: string, c: Comment)
  {
    || parentQuery == ""
    || (parentQuery == "null" && c.parentId == None)
    || c.parentId == Some(parentQuery)
  }

  class CommentStore {
    var comments: map<string, Comment>
    var reports: map<string, Report>

    /** Each entry is stored under its own id. */
    ghost predicate Valid()
      reads this
    {
      && (forall k :: k in comments ==> comments[k].id == k)
      && (forall k :: k in reports ==> reports[k].id == k)
    }

    constructor ()
      ensures Valid() && comments == map[] && reports == map[]
    {
      comments, reports := map[], map[];
    }

    method CreateComment(req: NewComment, accountAgeDays: int, newId: string, now: int) returns (r: CreateReply)
      requires Valid()
      modifies this
      ensures Valid() && reports == old(reports)
      ensures !VideoAllowed(req, accountAgeDays) ==>
        var v := VideoValidation.ValidateVideoUpload(accountAgeDays, req.videoDuration);
        r == VideoRejected(v.message, v.maxDuration) && comments == old(comments)
      ensures VideoAllowed(req, accountAgeDays) && req.parentId.Some? && req.parentId.value !in old(comments) ==>
        r == CreateFailed(StatusBadRequest, ParentNotFound) && comments == old(comments)
      ensures r.CommentCreated? <==> VideoAllowed(req, accountAgeDays) && (req.parentId.Some? ==> req.parentId.value in old(comments))
      ensures r.CommentCreated? ==>
        && r.comment == Comment(newId, req.userId, req.content, req.videoUrl, req.parentId, now, now)
        && comments == old(comments)[newId := r.comment]
        && (newId !in old(comments) ==> |comments| == |old(comments)| + 1)
    {
      if VideoChecked(req) {
        var v := VideoValidation.ValidateVideoUpload(accountAgeDays, req.videoDuration);
        if !v.valid {
          return VideoRejected(v.message, v.maxDuration);
        }
      }
      if req.parentId.Some? && req.parentId.value !in comments {
        return CreateFailed(StatusBadRequest, ParentNotFound);
      }
      var c := Comment(newId, req.userId, req.content, req.videoUrl, req.parentId, now, now);
      comments := comments[newId := c];
      r := CommentCreated(c);
    }

    method GetComments(parentQuery: string) returns (r: Listing<Comment>, ghost ids: seq<string>)
      ensures r.total == |r.items| == |ids| && Distinct(ids)
      ensures forall i :: 0 <= i < |ids| ==> ids[i] in comments && r.items[i] == comments[ids[i]]
      ensures forall i :: 0 <= i < |ids| ==> Selected(parentQuery, r.items[i])
      ensures forall id :: id in comments && Selected(parentQuery, comments[id]) ==> id in ids
      ensures parentQuery == "" ==> r.total == |comments|
    {
      var items;
      items, ids := CollectValues(comments, c => Selected(parentQuery, c));
      r := Listing(items, |items|);
    }

    method GetComment(id: string) returns (r: Outcome<Comment>)
      ensures id in comments ==> r == Ok(StatusOK, comments[id])
      ensures id !in comments ==> r == Fail(StatusNotFound, CommentNotFound)
    {
      if id in comments {
        r := Ok(StatusOK, comments[id]);
      } else {
        r := Fail(StatusNotFound, CommentNotFound);
      }
    }

    method DeleteComment(id: string, userHeader: string, adminHeader: string) returns (r: Outcome<string>)
      requires Valid()
      modifies this
      ensures Valid() && reports == old(reports)
      ensures userHeader == "" ==> r == Fail(StatusUnauthorized, UserIdRequired)
      ensures userHeader != "" && id !in old(comments) ==> r == Fail(StatusNotFound, CommentNotFound)
      ensures userHeader != "" && id in old(comments) && old(comments)[id].userId != userHeader && adminHeader != "true" ==>
        r == Fail(StatusForbidden, NotAuthorized)
      ensures r.Ok? <==> userHeader != "" && id in old(comments) && (old(comments)[id].userId == userHeader || adminHeader == "true")
      ensures r.Ok? ==> r.status == StatusOK && comments == old(comments) - {id}
      ensures r.Fail? ==> comments == old(comments)
    {
      if userHeader == "" {
        return Fail(StatusUnauthorized, UserIdRequired);
      }
      if id !in comments {
        return Fail(StatusNotFound, CommentNotFound);
      }
      var isAdmin := adminHeader == "true";
      var isOwner := comments[id].userId == userHeader;
      if !isOwner && !isAdmin {
        return Fail(StatusForbidden, NotAuthorized);
      }
      comments := comments - {id};
      r := Ok(StatusOK, "Comment deleted successfully");
    }

    method ReportComment(commentId: string, reporterId: string, reason: string, newId: string, now: int) returns (r: Outcome<Report>)
      requires Valid()
      modifies this
      ensures Valid() && comments == old(comments)
      ensures commentId !in comments ==> r == Fail(StatusNotFound, CommentNotFound) && reports == old(reports)
      ensures commentId in comments ==>
        && r == Ok(StatusCreated, Report(newId, commentId, reporterId, reason, now))
        && reports == old(reports)[newId := r.value]
        && (newId !in old(reports) ==> |reports| == |old(reports)| + 1)
    {
      if commentId !in comments {
        return Fail(StatusNotFound, CommentNotFound);
      }
      var report := Report(newId, commentId, reporterId, reason, now);
      reports := reports[newId := report];
      r := Ok(StatusCreated, report);
    }

    method GetReports(adminHeader: string) returns (r: Outcome<Listing<Report>>, ghost ids: seq<string>)
      ensures adminHeader != "true" ==> r == Fail(StatusForbidden, AdminRequired)
      ensures adminHeader == "true" ==>
        && r.Ok? && r.status == StatusOK
        && r.value.total == |r.value.items| == |reports| == |ids| && Distinct(ids)
        && (forall i :: 0 <= i < |ids| ==> ids[i] in reports && r.value.items[i] == reports[ids[i]])
        && (forall id :: id in reports ==> id in ids)
    {
      if adminHeader != "true" {
        return Fail(StatusForbidden, AdminRequired), [];
      }
      var items;
      items, ids := CollectValues(reports, _ => true);
      r := Ok(StatusOK, Listing(items, |items|));
    }
  }
}
