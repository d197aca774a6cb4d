/**
 * `CommentSection`: the new-comment form, the edit-in-place state machine
 * (`editingComment`, `editContent`, `editRating`), the star rating display
 * and the owner-only edit and delete controls. Ratings are 0 for "none" in
 * the form and absent (`undefined`) in the store.
 */
module CommentSection {
  import opened Backend
  import opened Text
  import opened Comments

  /** `rating || undefined`: 0 means no rating, anything else is passed as is. */
  function RatingArg(rating: int): (r: Option<int>)
    ensures r.None? <==> rating == 0
    ensures r.Some? ==> r.value == rating
  {
    if rating == 0 then None else Some(rating)
  }

  /** `comment.rating || 0`: what the edit form starts from. */
  function RatingOrZero(rating: Option<int>): (r: int)
    ensures rating.Some? ==> r == rating.value
    ensures rating.None? ==> r == 0
  {
    rating.GetOr(0)
  }

  /** Editing a comment and saving it unchanged sends back the rating it had (a stored 0 comes back as none). */
  lemma RatingRoundTrip(rating: Option<int>)
    ensures rating != Some(0) ==> RatingArg(RatingOrZero(rating)) == rating
    ensures rating == Some(0) ==> RatingArg(RatingOrZero(rating)) == None
  {
  }

  /** `star <= rating`: which of the stars 1 to 5 are drawn filled. */
  function Stars(rating: int): (r: seq<bool>)
    ensures |r| == 5
    ensures forall i :: 0 <= i < 5 ==> (r[i] <==> i + 1 <= rating)
  {
    seq(5, i requires 0 <= i < 5 => i + 1 <= rating)
  }

  function CountFilled(s: seq<bool>): (n: nat)
    ensures n <= |s|
  {
    if s == [] then 0 else (if s[0] then 1 else 0) + CountFilled(s[1..])
  }

  /** The filled stars form a prefix, and there are as many as the rating, capped to 0..5. */
  lemma FilledStarsMatchRating(rating: int)
    ensures CountFilled(Stars(rating)) == if rating < 0 then 0 else if rating > 5 then 5 else rating
    ensures forall i, j :: 0 <= i < j < 5 && Stars(rating)[j] ==> Stars(rating)[i]
  {
    var s := Stars(rating);
    assert s[5..] == [];
    assert CountFilled(s[4..]) == (if s[4] then 1 else 0) by { assert s[4..][1..] == s[5..]; }
    assert CountFilled(s[3..]) == (if s[3] then 1 else 0) + CountFilled(s[4..]) by { assert s[3..][1..] == s[4..]; }
    assert CountFilled(s[2..]) == (if s[2] then 1 else 0) + CountFilled(s[3..]) by { assert s[2..][1..] == s[3..]; }
    assert CountFilled(s[1..]) == (if s[1] then 1 else 0) + CountFilled(s[2..]) by { assert s[1..][1..] == s[2..]; }
  }

  /** `{comment.rating && <StarRating readonly />}`: a comment shows stars only for a non-zero rating. */
  function ReadonlyStars(rating: Option<int>): (r: Option<seq<bool>>)
    ensures r.Some? <==> rating.Some? && rating.value != 0
    ensures r.Some? ==> r.value == Stars(rating.value)
  {
    match rating
    case Some(v) => if v != 0 then Some(Stars(v)) else None
    case None => None
  }

  /** `comment.profiles?.name || "Utilisateur"`. */
  function DisplayName(p: Profile): (r: string)
    ensures p.name != "" ==> r == p.name
    ensures p.name == "" ==> r == "Utilisateur"
  {
    if p.name != "" then p.name else "Utilisateur"
  }

  /** A comment whose author has no profile is shown under the anonymous name. */
  lemma MissingProfileShownAnonymous(row: CommentRow)
    ensures DisplayName(WithProfile(row, None).profile) == "Utilisateur anonyme"
  {
  }

  /** `editingComment === comment.id`: this comment shows the edit form instead of its text. */
  predicate InEditMode(editing: Option<string>, c: Comment) {
    editing == Some(c.id())
  }

  /** `currentUserId === comment.user_id`: the edit and delete buttons are the author's only. */
  predicate ShowOwnerControls(currentUserId: Option<UserId>, c: Comment) {
    currentUserId == Some(c.userId())
  }

  lemma OwnerControlsOnlyForAuthor(currentUserId: Option<UserId>, c: Comment)
    ensures ShowOwnerControls(currentUserId, c) <==> currentUserId.Some? && currentUserId.value == c.row.userId
    ensures currentUserId.None? ==> !ShowOwnerControls(currentUserId, c)
  {
  }

  /** The "Publier" button: disabled while submitting or for a blank text. */
  predicate CanPublish(submitting: bool, text: string) {
    !submitting && !IsBlank(text)
  }

  /**
   * The button is enabled exactly when no submit is under way and the
   * trimmed text is not empty; outside a submit, that is the condition under
   * which `HandleSubmit` goes past its early return.
   */
  lemma PublishEnabledIffNotBlank(submitting: bool, text: string)
    ensures CanPublish(submitting, text) <==> !submitting && Trim(text) != []
    ensures !submitting ==> (CanPublish(submitting, text) <==> !IsBlank(text))
  {
    TrimEmptyIffBlank(text);
  }

  /** `!editingComment || !editContent.trim()`: the save handler's early return. */
  predicate SaveIgnored(editing: Option<string>, content: string) {
    editing.None? || editing == Some("") || IsBlank(content)
  }

  /** The component's form state. */
  class CommentForm {
    var newComment: string
    var newRating: int
    var editingComment: Option<string>
    var editContent: string
    var editRating: int
    var submitting: bool
    var currentUserId: Option<UserId>

    /** The initial `useState` values; the signed-in user is looked up once. */
    constructor (currentUserId: Option<UserId>)
      ensures newComment == "" && newRating == 0 && !submitting
      ensures editingComment == None && editContent == "" && editRating == 0
      ensures this.currentUserId == currentUserId
    {
      newComment := "";
      newRating := 0;
      editingComment := None;
      editContent := "";
      editRating := 0;
      submitting := false;
      this.currentUserId := currentUserId;
    }

    /** Nothing is being edited: no comment is in edit mode and the form is empty. */
    predicate Idle()
      reads this
    {
      editingComment == None && editContent == "" && editRating == 0
    }

    /** A click on a star of the new-comment form. */
    method SetNewRating(star: int)
      requires 1 <= star <= 5
      modifies this`newRating
      ensures newRating == star
    {
      newRating := star;
    }

    /**
     * `handleSubmit`: a blank text is ignored; otherwise the store's
     * `addComment` sends the untrimmed text and the rating (0 as none), and
     * only a success clears the text and the rating.
     */
    method HandleSubmit(store: CommentStore, user: Option<UserId>,
                        insert: Fields -> Reply<CommentRow>, profile: Option<Profile>)
      modifies this, store
      ensures editingComment == old(editingComment) && editContent == old(editContent)
      ensures editRating == old(editRating) && store.loading == old(store.loading)
      ensures currentUserId == old(currentUserId)
      ensures IsBlank(old(newComment)) ==>
        && newComment == old(newComment) && newRating == old(newRating)
        && store.comments == old(store.comments) && submitting == old(submitting)
      ensures !IsBlank(old(newComment)) ==> !submitting
      ensures !IsBlank(old(newComment)) ==>
        var sent := insert(Fields(old(newComment), RatingArg(old(newRating))));
        if user.Some? && sent.Ok? then
          newComment == "" && newRating == 0 && store.comments == [WithProfile(sent.data, profile)] + old(store.comments)
        else
          newComment == old(newComment) && newRating == old(newRating) && store.comments == old(store.comments)
    {
      if IsBlank(newComment) {
        return;
      }
      submitting := true;
      var r := store.AddComment(Fields(newComment, RatingArg(newRating)), user, insert, profile);
      if r.Ok? {
        newComment := "";
        newRating := 0;
      }
      submitting := false;
    }

    /** `handleEdit(comment)`: load the comment into the edit form. */
    method HandleEdit(c: Comment)
      modifies this
      ensures editingComment == Some(c.id()) && editContent == c.row.content
      ensures forall d: Comment :: InEditMode(editingComment, d) <==> d.id() == c.id()
      ensures editRating == RatingOrZero(c.row.rating)
      ensures newComment == old(newComment) && newRating == old(newRating)
      ensures submitting == old(submitting) && currentUserId == old(currentUserId)
    {
      editingComment := Some(c.id());
      editContent := c.row.content;
      editRating := RatingOrZero(c.row.rating);
    }

    /**
     * `handleSaveEdit`: ignored when nothing is edited or the text is blank;
     * otherwise the store's `updateComment` sends the text and the rating (0
     * as none) and, since that one swallows its errors, the edit form is
     * reset whatever the backend answered.
     */
    method HandleSaveEdit(store: CommentStore, update: Fields -> Reply<CommentRow>, profile: Option<Profile>)
      modifies this, store
      ensures newComment == old(newComment) && newRating == old(newRating)
      ensures submitting == old(submitting) && currentUserId == old(currentUserId)
      ensures store.loading == old(store.loading)
      ensures SaveIgnored(old(editingComment), old(editContent)) ==>
        && editingComment == old(editingComment) && editContent == old(editContent)
        && editRating == old(editRating) && store.comments == old(store.comments)
      ensures !SaveIgnored(old(editingComment), old(editContent)) ==> Idle()
      ensures !SaveIgnored(old(editingComment), old(editContent)) ==>
        var sent := update(Fields(old(editContent), RatingArg(old(editRating))));
        && (sent.Ok? ==> store.comments == ReplaceById(old(store.comments), old(editingComment).value, WithProfile(sent.data, profile)))
        && (sent.Failed? ==> store.comments == old(store.comments))
    {
      if SaveIgnored(editingComment, editContent) {
        return;
      }
      store.UpdateComment(editingComment.value, Fields(editContent, RatingArg(editRating)), update, profile);
      editingComment := None;
      editContent := "";
      editRating := 0;
    }

    /** `handleCancelEdit`: back to (null, "", 0). */
    method HandleCancelEdit()
      modifies this
      ensures Idle()
      ensures newComment == old(newComment) && newRating == old(newRating)
      ensures submitting == old(submitting) && currentUserId == old(currentUserId)
    {
      editingComment := None;
      editContent := "";
      editRating := 0;
    }

    /** `handleDelete(id)`: the store's `deleteComment` runs only if the user confirmed. */
    method HandleDelete(store: CommentStore, id: string, confirmed: bool, reply: Status)
      modifies store
      ensures store.loading == old(store.loading)
      ensures confirmed && reply.Success? ==> store.comments == RemoveById(old(store.comments), id)
      ensures !confirmed || reply.Failure? ==> store.comments == old(store.comments)
    {
      if confirmed {
        store.DeleteComment(id, reply);
      }
    }
  }
}
