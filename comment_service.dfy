/** The comment service's own rules: the checks a new comment passes before it is inserted, the
    record it inserts, the patch an edit writes, the soft delete, and which rows the two getters
    return in which order. The database is a sequence of rows; the ban lookup is its answer,
    passed in; the clock is the ISO text of "now". */
module CommentService {
  import opened Wrappers
  import opened JsText
  import Ordering
  import Lists

  /** A row of `url_comments`. */
  datatype Comment = Comment(
    id: string, urlId: string, userId: string, parentCommentId: Option<string>,
    text: string, isEdited: bool, isDeleted: bool, isPinned: bool,
    repliesCount: int, likesCount: int,
    createdAt: string, updatedAt: string, deletedAt: Option<string>)

  /** An insert into `url_comments`: the optional columns may be absent. */
  datatype NewComment = NewComment(
    id: Option<string>, urlId: string, userId: string, parentCommentId: Option<string>,
    text: string, isEdited: Option<bool>, isDeleted: Option<bool>, isPinned: Option<bool>,
    repliesCount: Option<int>, likesCount: Option<int>,
    createdAt: Option<string>, updatedAt: Option<string>, deletedAt: Option<string>)

  datatype CommentError = Banned | EmptyText | TooLong | Spam | InvalidText | NotFoundOrExpired
  {
    /** The message each rejection throws. */
    function Message(): string {
      match this
      case Banned => "❌ You are banned from commenting"
      case EmptyText => "❌ Comment cannot be empty"
      case TooLong => "❌ Comment exceeds maximum length (2000 characters)"
      case Spam => "❌ Comment contains spam patterns"
      case InvalidText => "❌ Invalid comment text"
      case NotFoundOrExpired => "❌ Comment not found or edit window expired (15 minutes)"
    }
  }

  /** The longest accepted text, counted in UTF-16 code units as `length` does. */
  const MaxTextLength: nat := 2000

  /** The spam patterns, each matched anywhere in the text in any letter case. */
  const SpamPatterns: seq<string> := ["viagra", "cryptocurrency", "click here", "buy now"]

  predicate IsSpam(text: string) {
    exists k :: 0 <= k < |SpamPatterns| && ContainsIgnoreCase(text, SpamPatterns[k])
  }

  /** `createComment` up to the insert: a banned author is refused first; then the trimmed text
      must be non-empty, at most 2000 code units long and free of spam; the record inserted is
      the input with its text trimmed. */
  function CreateComment(c: NewComment, banned: bool): Result<NewComment, CommentError>
  {
    if banned then Err(Banned)
    else
      var text := Trim(c.text);
      if Utf16Length(text) == 0 then Err(EmptyText)
      else if Utf16Length(text) > MaxTextLength then Err(TooLong)
      else if IsSpam(text) then Err(Spam)
      else Ok(c.(text := text))
  }

  /** The ban check comes before every text check: a banned author is refused whatever the text. */
  lemma BannedFirst(c: NewComment)
    ensures CreateComment(c, true) == Err(Banned)
  {
  }

  /** An author who is not banned is accepted exactly when the trimmed text is non-empty, at most
      2000 code units and spam-free; what is accepted is the input with only its text changed, to
      the trimmed text. */
  lemma CreateCommentSpec(c: NewComment)
    ensures CreateComment(c, false).Ok? <==>
              Trim(c.text) != [] && Utf16Length(Trim(c.text)) <= MaxTextLength && !IsSpam(Trim(c.text))
    ensures CreateComment(c, false).Ok? ==> CreateComment(c, false).value == c.(text := Trim(c.text))
    ensures CreateComment(c, false) == Err(EmptyText) <==> AllWhitespace(c.text)
  {
    TrimEmptyIffBlank(c.text);
    var t := Trim(c.text);
    if t != [] {
      assert Utf16Length(t) >= |t| > 0;
    }
  }

  /** An accepted comment is accepted again unchanged: its text is already trimmed. */
  lemma AcceptedIsStable(c: NewComment)
    requires CreateComment(c, false).Ok?
    ensures CreateComment(CreateComment(c, false).value, false) == CreateComment(c, false)
  {
    var v := CreateComment(c, false).value;
    TrimIdempotent(c.text);
    assert v == c.(text := Trim(c.text));
    assert v.(text := Trim(v.text)) == v;
  }

  /** The length bound is inclusive: a spam-free text of exactly 2000 code units is accepted,
      one of 2001 is refused. */
  lemma LengthBoundInclusive(c: NewComment)
    requires !IsSpam(Trim(c.text))
    ensures Utf16Length(Trim(c.text)) == MaxTextLength ==> CreateComment(c, false).Ok?
    ensures Utf16Length(Trim(c.text)) == MaxTextLength + 1 ==> CreateComment(c, false) == Err(TooLong)
  {
  }

  /** Spam matching ignores letter case: changing the case of letters never changes the verdict. */
  lemma SpamIgnoresCase(text: string)
    ensures IsSpam(LowerAsciiString(text)) == IsSpam(text)
    ensures IsSpam(UpperAsciiString(text)) == IsSpam(text)
  {
    forall k | 0 <= k < |SpamPatterns| {
      ContainsIgnoreCaseFolds(text, SpamPatterns[k]);
    }
  }

  /** A text containing a pattern, wherever in the text, is spam. */
  lemma SpamAnywhere(before: string, after: string, k: nat)
    requires k < |SpamPatterns|
    ensures IsSpam(before + SpamPatterns[k] + after)
  {
    ContainsItself(SpamPatterns[k]);
    ContainsIgnoreCaseInSuperstring(SpamPatterns[k], SpamPatterns[k], before, after);
  }

  // ---- editing ----

  /** The columns an edit writes. */
  datatype EditPatch = EditPatch(text: string, isEdited: bool)

  /** `updateComment`'s check and patch: the trimmed text must be non-empty and at most 2000 code
      units; the patch writes it and marks the comment edited. There is no spam check here. */
  function EditPatchFor(newText: string): Result<EditPatch, CommentError>
  {
    var text := Trim(newText);
    if Utf16Length(text) == 0 || Utf16Length(text) > MaxTextLength then Err(InvalidText)
    else Ok(EditPatch(text, true))
  }

  /** The rows an edit may touch: this id, this author, not deleted. */
  predicate IsEditTarget(row: Comment, commentId: string, userId: string) {
    row.id == commentId && row.userId == userId && !row.isDeleted
  }

  /** The rows the update's filters select, in table order. */
  function EditTargets(rows: seq<Comment>, commentId: string, userId: string): seq<Comment> {
    Lists.Filter(rows, (r: Comment) => IsEditTarget(r, commentId, userId))
  }

  /** `updateComment`: the patch applied to the one row that matches; when no single row matches
      the database reports `PGRST116`, turned into the not-found message. */
  function UpdateComment(rows: seq<Comment>, commentId: string, userId: string, newText: string)
    : Result<Comment, CommentError>
  {
    match EditPatchFor(newText)
    case Err(e) => Err(e)
    case Ok(patch) =>
      var targets := EditTargets(rows, commentId, userId);
      if |targets| != 1 then Err(NotFoundOrExpired)
      else Ok(targets[0].(text := patch.text, isEdited := patch.isEdited))
  }

  /** An edit succeeds exactly when the text is valid and one live row of this author has the id;
      the row then keeps everything but its text, which becomes the trimmed text, and its edited
      flag, which becomes true. An invalid text is refused first; a valid text with no target or
      several is refused as not found. */
  lemma UpdateCommentSpec(rows: seq<Comment>, commentId: string, userId: string, newText: string)
    ensures var r := UpdateComment(rows, commentId, userId, newText);
            && (r.Ok? <==> Trim(newText) != [] && Utf16Length(Trim(newText)) <= MaxTextLength
                           && |EditTargets(rows, commentId, userId)| == 1)
            && (Trim(newText) == [] || Utf16Length(Trim(newText)) > MaxTextLength ==> r == Err(InvalidText))
            && ((Trim(newText) != [] && Utf16Length(Trim(newText)) <= MaxTextLength
                 && |EditTargets(rows, commentId, userId)| != 1) ==> r == Err(NotFoundOrExpired))
            && (r.Ok? ==> exists k ::
                            && 0 <= k < |rows| && IsEditTarget(rows[k], commentId, userId)
                            && r.value == rows[k].(text := Trim(newText), isEdited := true))
  {
    var t := Trim(newText);
    if t != [] {
      assert Utf16Length(t) >= |t| > 0;
    }
    var keep := (r: Comment) => IsEditTarget(r, commentId, userId);
    var targets := EditTargets(rows, commentId, userId);
    if EditPatchFor(newText).Ok? && |targets| == 1 {
      Lists.FilterFrom(rows, keep, targets[0]);
    }
  }

  /** The edit targets are exactly the live rows of this author with this id, each as often as
      the table holds it; so the edit succeeds on a valid text exactly when the table holds one
      such row, once. */
  lemma EditTargetsSpec(rows: seq<Comment>, commentId: string, userId: string)
    ensures forall row :: multiset(EditTargets(rows, commentId, userId))[row] ==
                            if IsEditTarget(row, commentId, userId) then multiset(rows)[row] else 0
  {
    Lists.FilterSpec(rows, (r: Comment) => IsEditTarget(r, commentId, userId));
  }

  /** Edits skip the spam check that new comments get: every text refused as spam on creation
      is accepted as an edit. */
  lemma EditSkipsSpamCheck(c: NewComment)
    requires CreateComment(c, false) == Err(Spam)
    ensures EditPatchFor(c.text) == Ok(EditPatch(Trim(c.text), true))
  {
  }

  // ---- soft delete ----

  /** `deleteComment`'s patch: mark deleted, stamp the deletion time, replace the text. */
  function SoftDelete(row: Comment, nowIso: string): Comment {
    row.(isDeleted := true, deletedAt := Some(nowIso), text := "[Deleted]")
  }

  /** `deleteComment`: every row with this id and author is soft-deleted, already deleted or not;
      other rows are untouched. */
  function DeleteComment(rows: seq<Comment>, commentId: string, userId: string, nowIso: string): (r: seq<Comment>)
    ensures |r| == |rows|
    ensures forall k :: 0 <= k < |rows| ==>
              r[k] == if rows[k].id == commentId && rows[k].userId == userId then SoftDelete(rows[k], nowIso) else rows[k]
  {
    if rows == [] then []
    else
      var head := if rows[0].id == commentId && rows[0].userId == userId then SoftDelete(rows[0], nowIso) else rows[0];
      [head] + DeleteComment(rows[1..], commentId, userId, nowIso)
  }

  // ---- the getters ----

  predicate IsLiveOnUrl(row: Comment, urlId: string) {
    row.urlId == urlId && !row.isDeleted
  }

  predicate IsLiveReply(row: Comment, parentId: string) {
    row.parentCommentId == Some(parentId) && !row.isDeleted
  }

  /** `created_at` as the database orders it, newest largest. */
  function Newest(timeOf: string -> int): Comment -> int {
    (row: Comment) => timeOf(row.createdAt)
  }

  function Oldest(timeOf: string -> int): Comment -> int {
    (row: Comment) => -timeOf(row.createdAt)
  }

  /** `getCommentsByUrl`: the live comments of the URL, newest first. */
  function CommentsByUrl(rows: seq<Comment>, urlId: string, timeOf: string -> int): seq<Comment> {
    Ordering.SortDesc(Lists.Filter(rows, (r: Comment) => IsLiveOnUrl(r, urlId)), Newest(timeOf))
  }

  /** `getCommentThread`: the live replies to the comment, oldest first. */
  function CommentThread(rows: seq<Comment>, parentId: string, timeOf: string -> int): seq<Comment> {
    Ordering.SortDesc(Lists.Filter(rows, (r: Comment) => IsLiveReply(r, parentId)), Oldest(timeOf))
  }

  /** The URL's comments are exactly its live rows, each as often as in the table, newest first. */
  lemma CommentsByUrlSpec(rows: seq<Comment>, urlId: string, timeOf: string -> int)
    ensures var r := CommentsByUrl(rows, urlId, timeOf);
            && (forall i, j :: 0 <= i < j < |r| ==> timeOf(r[i].createdAt) >= timeOf(r[j].createdAt))
            && (forall row :: row in r <==> row in rows && IsLiveOnUrl(row, urlId))
            && (forall row :: IsLiveOnUrl(row, urlId) ==> multiset(r)[row] == multiset(rows)[row])
  {
    var keep := (r: Comment) => IsLiveOnUrl(r, urlId);
    Lists.FilterSpec(rows, keep);
    var r := CommentsByUrl(rows, urlId, timeOf);
    assert multiset(r) == multiset(Lists.Filter(rows, keep));
    forall row ensures row in r <==> row in rows && IsLiveOnUrl(row, urlId) {
      assert row in r <==> row in multiset(r);
      assert row in rows <==> row in multiset(rows);
    }
  }

  /** The thread is exactly the live replies, each as often as in the table, oldest first. */
  lemma CommentThreadSpec(rows: seq<Comment>, parentId: string, timeOf: string -> int)
    ensures var r := CommentThread(rows, parentId, timeOf);
            && (forall i, j :: 0 <= i < j < |r| ==> timeOf(r[i].createdAt) <= timeOf(r[j].createdAt))
            && (forall row :: row in r <==> row in rows && IsLiveReply(row, parentId))
            && (forall row :: IsLiveReply(row, parentId) ==> multiset(r)[row] == multiset(rows)[row])
  {
    var keep := (r: Comment) => IsLiveReply(r, parentId);
    Lists.FilterSpec(rows, keep);
    var r := CommentThread(rows, parentId, timeOf);
    assert multiset(r) == multiset(Lists.Filter(rows, keep));
    forall row ensures row in r <==> row in rows && IsLiveReply(row, parentId) {
      assert row in r <==> row in multiset(r);
      assert row in rows <==> row in multiset(rows);
    }
    forall i, j | 0 <= i < j < |r| ensures timeOf(r[i].createdAt) <= timeOf(r[j].createdAt) {
      assert Oldest(timeOf)(r[i]) >= Oldest(timeOf)(r[j]);
    }
  }

  /** Every row of the comment's id is marked deleted once its author deletes it. */
  lemma DeletedRowsAreMarked(rows: seq<Comment>, commentId: string, userId: string, nowIso: string)
    requires forall k :: 0 <= k < |rows| ==> rows[k].id == commentId ==> rows[k].userId == userId
    ensures forall row :: row in DeleteComment(rows, commentId, userId, nowIso) && row.id == commentId ==> row.isDeleted
  {
    var after := DeleteComment(rows, commentId, userId, nowIso);
    forall row | row in after && row.id == commentId ensures row.isDeleted {
      var k :| 0 <= k < |after| && after[k] == row;
    }
  }

  /** A deleted comment disappears from its URL's list and from its parent's thread. */
  lemma DeletedIsHidden(rows: seq<Comment>, commentId: string, userId: string, nowIso: string,
                        urlId: string, parentId: string, timeOf: string -> int)
    requires forall k :: 0 <= k < |rows| ==> rows[k].id == commentId ==> rows[k].userId == userId
    ensures forall row :: row in CommentsByUrl(DeleteComment(rows, commentId, userId, nowIso), urlId, timeOf) ==> row.id != commentId
    ensures forall row :: row in CommentThread(DeleteComment(rows, commentId, userId, nowIso), parentId, timeOf) ==> row.id != commentId
  {
    var after := DeleteComment(rows, commentId, userId, nowIso);
    DeletedRowsAreMarked(rows, commentId, userId, nowIso);
    CommentsByUrlSpec(after, urlId, timeOf);
    CommentThreadSpec(after, parentId, timeOf);
  }

  /** A deleted comment can no longer be edited. */
  lemma DeletedIsFrozen(rows: seq<Comment>, commentId: string, userId: string, nowIso: string, newText: string)
    ensures UpdateComment(DeleteComment(rows, commentId, userId, nowIso), commentId, userId, newText).Err?
  {
    var after := DeleteComment(rows, commentId, userId, nowIso);
    var keep := (r: Comment) => IsEditTarget(r, commentId, userId);
    var targets := EditTargets(after, commentId, userId);
    if |targets| > 0 {
      Lists.FilterFrom(after, keep, targets[0]);
    }
  }
}
