/**
 * The comment store of `useComments(episodeId)`: the episode's comments,
 * newest first, each joined with its author's profile, and a loading flag.
 * Add prepends, update replaces by id, delete filters by id; each happens
 * only after the backend reported success. A missing profile is replaced by
 * the anonymous one everywhere a comment is built.
 */
module Comments {
  import opened Backend

  datatype Profile = Profile(name: string, avatarUrl: Option<string>)

  /** `{ name: 'Utilisateur anonyme' }`. */
  const AnonymousProfile: Profile := Profile("Utilisateur anonyme", None)

  /** A `comments` row. */
  datatype CommentRow = CommentRow(
    id: string, content: string, rating: Option<int>, createdAt: string, updatedAt: string,
    userId: UserId, episodeId: string)

  /** What an insert or an update sends besides the ids: `{ content, rating }`. */
  datatype Fields = Fields(content: string, rating: Option<int>)

  /** A comment as the client holds it: the row and its author's profile. */
  datatype Comment = Comment(row: CommentRow, profile: Profile) {
    function id(): string { row.id }
    function userId(): UserId { row.userId }
  }

  /** `{ ...row, profiles: profileData || { name: 'Utilisateur anonyme' } }`. */
  function WithProfile(row: CommentRow, profile: Option<Profile>): (c: Comment)
    ensures c.row == row
    ensures profile.Some? ==> c.profile == profile.value
    ensures profile.None? ==> c.profile == AnonymousProfile
  {
    Comment(row, profile.GetOr(AnonymousProfile))
  }

  /** The fetch's `Promise.all(...)`: each row with its author's profile query. */
  function JoinProfiles(rows: seq<CommentRow>, profileOf: UserId -> Option<Profile>): (r: seq<Comment>)
    ensures |r| == |rows|
    ensures forall i :: 0 <= i < |rows| ==> r[i] == WithProfile(rows[i], profileOf(rows[i].userId))
  {
    if rows == [] then [] else [WithProfile(rows[0], profileOf(rows[0].userId))] + JoinProfiles(rows[1..], profileOf)
  }

  /** `prev.map(c => c.id === id ? updated : c)`. */
  function ReplaceById(s: seq<Comment>, id: string, updated: Comment): (r: seq<Comment>)
    ensures |r| == |s|
    ensures forall i :: 0 <= i < |s| ==> r[i] == if s[i].id() == id then updated else s[i]
  {
    if s == [] then []
    else [if s[0].id() == id then updated else s[0]] + ReplaceById(s[1..], id, updated)
  }

  /** `prev.filter(c => c.id !== id)`. */
  function RemoveById(s: seq<Comment>, id: string): (r: seq<Comment>)
    ensures |r| <= |s|
    ensures forall c :: c in r <==> c in s && c.id() != id
    ensures forall c :: multiset(r)[c] == if c.id() != id then multiset(s)[c] else 0
  {
    if s == [] then []
    else
      assert s == [s[0]] + s[1..];
      (if s[0].id() != id then [s[0]] else []) + RemoveById(s[1..], id)
  }

  /** The ids of a list, in order. */
  function Ids(s: seq<Comment>): (r: seq<string>)
    ensures |r| == |s| && forall i :: 0 <= i < |s| ==> r[i] == s[i].id()
  {
    if s == [] then [] else [s[0].id()] + Ids(s[1..])
  }

  /** `filter` drops the comments with that id and nothing else, and keeps the order. */
  lemma {:induction false} RemoveByIdKeepsOthers(s: seq<Comment>, id: string)
    ensures Ids(RemoveById(s, id)) == IdsExcept(Ids(s), id)
  {
    if s != [] {
      RemoveByIdKeepsOthers(s[1..], id);
      var rest := RemoveById(s[1..], id);
      assert Ids(s)[1..] == Ids(s[1..]);
      if s[0].id() != id {
        assert RemoveById(s, id) == [s[0]] + rest;
        assert Ids([s[0]] + rest) == [s[0].id()] + Ids(rest) by {
          assert ([s[0]] + rest)[1..] == rest;
        }
      } else {
        assert RemoveById(s, id) == rest;
      }
    }
  }

  /** A list of ids without one of them: the order of the rest is kept. */
  function IdsExcept(ids: seq<string>, id: string): (r: seq<string>)
    ensures id !in r
    ensures forall x :: x in r <==> x in ids && x != id
  {
    if ids == [] then [] else (if ids[0] != id then [ids[0]] else []) + IdsExcept(ids[1..], id)
  }

  /** An updated comment whose id is still `id` replaces the old one in place: the ids do not change. */
  lemma ReplaceKeepsIds(s: seq<Comment>, id: string, updated: Comment)
    requires updated.id() == id
    ensures Ids(ReplaceById(s, id, updated)) == Ids(s)
  {
  }

  // ---- the hook's state ----

  class CommentStore {
    const episodeId: Option<string>
    var comments: seq<Comment>
    var loading: bool

    constructor (episodeId: Option<string>)
      ensures this.episodeId == episodeId && comments == [] && loading
    {
      this.episodeId := episodeId;
      comments := [];
      loading := true;
    }

    /**
     * `fetchComments`, with the comments query's reply and each author's
     * profile query as a function of the user id. Without an episode id
     * (`!episodeId`) it returns at once and even `loading` stays as it was.
     */
    method FetchComments(reply: Reply<Option<seq<CommentRow>>>, profileOf: UserId -> Option<Profile>)
      modifies this
      ensures episodeId.None? || episodeId == Some("") ==>
        comments == old(comments) && loading == old(loading)
      ensures episodeId.Some? && episodeId != Some("") ==> !loading
      ensures episodeId.Some? && episodeId != Some("") && reply.Ok? ==>
        comments == JoinProfiles(reply.data.GetOr([]), profileOf)
      ensures reply.Failed? ==> comments == old(comments)
    {
      if episodeId.None? || episodeId.value == "" {
        return;
      }
      if reply.Ok? {
        comments := JoinProfiles(reply.data.GetOr([]), profileOf);
      }
      loading := false;
    }

    /**
     * `addComment(content, rating)`, with the signed-in user, the insert's
     * reply to the fields it sends and the author's profile. Without a user
     * it throws before sending anything; on an error it throws too, and the
     * list is unchanged either way. Otherwise the returned row, with its
     * profile, is prepended and returned.
     */
    method AddComment(fields: Fields, user: Option<UserId>,
                      insert: Fields -> Reply<CommentRow>, profile: Option<Profile>)
      returns (r: Reply<Comment>)
      modifies this
      ensures loading == old(loading)
      ensures r.Ok? <==> user.Some? && insert(fields).Ok?
      ensures r.Ok? ==> r.data == WithProfile(insert(fields).data, profile) && comments == [r.data] + old(comments)
      ensures r.Failed? ==> comments == old(comments)
    {
      if user.None? {
        return Failed("User not authenticated");
      }
      var reply := insert(fields);
      if reply.Failed? {
        return Failed(reply.error);
      }
      var newComment := WithProfile(reply.data, profile);
      comments := [newComment] + comments;
      r := Ok(newComment);
    }

    /**
     * `updateComment(id, content, rating)`, with the update's reply to the
     * fields it sends and the author's profile. The comments with that id are
     * replaced by the returned row; errors are swallowed and change nothing.
     */
    method UpdateComment(id: string, fields: Fields, update: Fields -> Reply<CommentRow>, profile: Option<Profile>)
      modifies this
      ensures loading == old(loading)
      ensures update(fields).Ok? ==>
        comments == ReplaceById(old(comments), id, WithProfile(update(fields).data, profile))
      ensures update(fields).Failed? ==> comments == old(comments)
    {
      var reply := update(fields);
      if reply.Ok? {
        comments := ReplaceById(comments, id, WithProfile(reply.data, profile));
      }
    }

    /** `deleteComment(id)`, with the delete's status. */
    method DeleteComment(id: string, reply: Status)
      modifies this
      ensures loading == old(loading)
      ensures reply.Success? ==> comments == RemoveById(old(comments), id)
      ensures reply.Failure? ==> comments == old(comments)
    {
      if reply.Success? {
        comments := RemoveById(comments, id);
      }
    }
  }
}
