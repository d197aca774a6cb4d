/**
 * The playlist store of `usePlaylists`: the viewer's playlists, each with
 * its item list, and a loading flag. Create, add, remove and delete replace
 * the list through `setPlaylists(prev => ...)` only after the backend
 * reported success; the pure functions below are those updaters.
 *
 * The invariant the store keeps is that every item's `playlistId` names the
 * playlist that holds it (`Tagged`): the fetch writes it, create starts with
 * no items, add tags the new item with the playlist it is appended to, and
 * remove and delete only drop things.
 */
module Playlists {
  import opened Backend
  import opened Lists

  /** The joined `episodes(...)` record of an item; only what the views use. */
  datatype Episode = Episode(id: string, title: string, duration: Option<nat>, podcastTitle: Option<string>)

  /** A playlist item as the client holds it. */
  datatype Item = Item(
    id: string, episodeId: string, playlistId: string, createdAt: string, episode: Option<Episode>)

  /** A `playlist_items` row as selected: it carries no `playlist_id`. */
  datatype ItemRow = ItemRow(id: string, episodeId: string, createdAt: string, episode: Option<Episode>)

  /** A `playlists` row. */
  datatype PlaylistRow = PlaylistRow(
    id: string, name: string, userId: UserId, createdAt: string, updatedAt: string)

  /** A playlist as the client holds it; `playlist_items` is optional in the type. */
  datatype Playlist = Playlist(
    id: string, name: string, userId: UserId, createdAt: string, updatedAt: string,
    items: Option<seq<Item>>)

  /** `{ ...item, playlist_id: playlistId }`. */
  function Tag(r: ItemRow, playlistId: string): Item {
    Item(r.id, r.episodeId, playlistId, r.createdAt, r.episode)
  }

  function TagAll(rows: seq<ItemRow>, playlistId: string): (r: seq<Item>)
    ensures |r| == |rows|
    ensures forall i :: 0 <= i < |rows| ==> r[i] == Tag(rows[i], playlistId)
  {
    if rows == [] then [] else [Tag(rows[0], playlistId)] + TagAll(rows[1..], playlistId)
  }

  /** `{ ...playlist, playlist_items: items }`. */
  function WithItems(p: PlaylistRow, items: seq<Item>): Playlist {
    Playlist(p.id, p.name, p.userId, p.createdAt, p.updatedAt, Some(items))
  }

  /**
   * The fetch's `Promise.all(...)`: each playlist row joined with the items
   * its own query returned (`itemsData || []`; that query's error is not
   * checked), each item tagged with the playlist's id.
   */
  function Joined(rows: seq<PlaylistRow>, itemsOf: string -> Option<seq<ItemRow>>): (r: seq<Playlist>)
    ensures |r| == |rows|
    ensures forall i :: 0 <= i < |rows| ==>
      r[i] == WithItems(rows[i], TagAll(itemsOf(rows[i].id).GetOr([]), rows[i].id))
  {
    if rows == [] then []
    else [WithItems(rows[0], TagAll(itemsOf(rows[0].id).GetOr([]), rows[0].id))] + Joined(rows[1..], itemsOf)
  }

  /** `p.playlist_items || []`. */
  function ItemsOf(p: Playlist): seq<Item> {
    p.items.GetOr([])
  }

  /** Every item names the playlist that holds it. */
  ghost predicate Tagged(ps: seq<Playlist>) {
    forall i, j :: 0 <= i < |ps| && 0 <= j < |ItemsOf(ps[i])| ==> ItemsOf(ps[i])[j].playlistId == ps[i].id
  }

  /** `prev.map(p => p.id === id ? { ...p, playlist_items: [...(p.playlist_items || []), item] } : p)`. */
  function AppendItem(ps: seq<Playlist>, playlistId: string, item: Item): (r: seq<Playlist>)
    ensures |r| == |ps|
    ensures forall i :: 0 <= i < |ps| ==>
      r[i] == if ps[i].id == playlistId then ps[i].(items := Some(ItemsOf(ps[i]) + [item])) else ps[i]
  {
    if ps == [] then []
    else
      var head := if ps[0].id == playlistId then ps[0].(items := Some(ItemsOf(ps[0]) + [item])) else ps[0];
      [head] + AppendItem(ps[1..], playlistId, item)
  }

  /** `items.filter(item => item.id !== itemId)`. */
  function WithoutItem(items: seq<Item>, itemId: string): (r: seq<Item>)
    ensures |r| <= |items|
    ensures forall x :: x in r <==> x in items && x.id != itemId
    ensures forall x :: multiset(r)[x] == if x.id != itemId then multiset(items)[x] else 0
  {
    if items == [] then []
    else
      assert items == [items[0]] + items[1..];
      (if items[0].id != itemId then [items[0]] else []) + WithoutItem(items[1..], itemId)
  }

  /** `prev.map(p => p.id === id ? { ...p, playlist_items: p.playlist_items?.filter(...) || [] } : p)`. */
  function RemoveItem(ps: seq<Playlist>, playlistId: string, itemId: string): (r: seq<Playlist>)
    ensures |r| == |ps|
    ensures forall i :: 0 <= i < |ps| ==>
      r[i] == if ps[i].id == playlistId then ps[i].(items := Some(WithoutItem(ItemsOf(ps[i]), itemId))) else ps[i]
  {
    if ps == [] then []
    else
      var head := if ps[0].id == playlistId then ps[0].(items := Some(WithoutItem(ItemsOf(ps[0]), itemId))) else ps[0];
      [head] + RemoveItem(ps[1..], playlistId, itemId)
  }

  /** `prev.filter(p => p.id !== id)`. */
  function WithoutPlaylist(ps: seq<Playlist>, playlistId: string): (r: seq<Playlist>)
    ensures |r| <= |ps|
    ensures forall p :: p in r <==> p in ps && p.id != playlistId
    ensures forall p :: multiset(r)[p] == if p.id != playlistId then multiset(ps)[p] else 0
  {
    if ps == [] then []
    else
      assert ps == [ps[0]] + ps[1..];
      (if ps[0].id != playlistId then [ps[0]] else []) + WithoutPlaylist(ps[1..], playlistId)
  }

  // ---- order: what filter keeps, it keeps in order ----

  lemma {:induction false} RemoveKeepsOrder(items: seq<Item>, itemId: string)
    ensures IsSubsequence(WithoutItem(items, itemId), items)
  {
    if items != [] {
      RemoveKeepsOrder(items[1..], itemId);
      var rest := WithoutItem(items[1..], itemId);
      if items[0].id != itemId {
        var r := WithoutItem(items, itemId);
        assert r == [items[0]] + rest;
        assert r[0] == items[0] && r[1..] == rest;
      } else {
        assert WithoutItem(items, itemId) == rest;
      }
    }
  }

  lemma {:induction false} DeleteKeepsOrder(ps: seq<Playlist>, playlistId: string)
    ensures IsSubsequence(WithoutPlaylist(ps, playlistId), ps)
  {
    if ps != [] {
      DeleteKeepsOrder(ps[1..], playlistId);
      var rest := WithoutPlaylist(ps[1..], playlistId);
      if ps[0].id != playlistId {
        var r := WithoutPlaylist(ps, playlistId);
        assert r == [ps[0]] + rest;
        assert r[0] == ps[0] && r[1..] == rest;
      } else {
        assert WithoutPlaylist(ps, playlistId) == rest;
      }
    }
  }

  // ---- the tagging invariant ----

  lemma FetchTags(rows: seq<PlaylistRow>, itemsOf: string -> Option<seq<ItemRow>>)
    ensures Tagged(Joined(rows, itemsOf))
  {
  }

  lemma CreateKeepsTags(ps: seq<Playlist>, row: PlaylistRow)
    requires Tagged(ps)
    ensures Tagged([WithItems(row, [])] + ps)
  {
    var r := [WithItems(row, [])] + ps;
    forall i, j | 0 <= i < |r| && 0 <= j < |ItemsOf(r[i])| ensures ItemsOf(r[i])[j].playlistId == r[i].id {
      assert i != 0;
      assert r[i] == ps[i - 1];
    }
  }

  lemma AppendKeepsTags(ps: seq<Playlist>, playlistId: string, row: ItemRow)
    requires Tagged(ps)
    ensures Tagged(AppendItem(ps, playlistId, Tag(row, playlistId)))
  {
    var r := AppendItem(ps, playlistId, Tag(row, playlistId));
    forall i, j | 0 <= i < |r| && 0 <= j < |ItemsOf(r[i])| ensures ItemsOf(r[i])[j].playlistId == r[i].id {
      if ps[i].id == playlistId && j < |ItemsOf(ps[i])| {
        assert ItemsOf(r[i])[j] == ItemsOf(ps[i])[j];
      }
    }
  }

  lemma RemoveKeepsTags(ps: seq<Playlist>, playlistId: string, itemId: string)
    requires Tagged(ps)
    ensures Tagged(RemoveItem(ps, playlistId, itemId))
  {
    var r := RemoveItem(ps, playlistId, itemId);
    forall i, j | 0 <= i < |r| && 0 <= j < |ItemsOf(r[i])| ensures ItemsOf(r[i])[j].playlistId == r[i].id {
      if ps[i].id == playlistId {
        assert ItemsOf(r[i])[j] in ItemsOf(ps[i]);
      }
    }
  }

  lemma DeleteKeepsTags(ps: seq<Playlist>, playlistId: string)
    requires Tagged(ps)
    ensures Tagged(WithoutPlaylist(ps, playlistId))
  {
    var r := WithoutPlaylist(ps, playlistId);
    forall i, j | 0 <= i < |r| && 0 <= j < |ItemsOf(r[i])| ensures ItemsOf(r[i])[j].playlistId == r[i].id {
      assert r[i] in ps;
    }
  }

  /** An add for an id no playlist has leaves the list as it was. */
  lemma AppendToMissingPlaylist(ps: seq<Playlist>, playlistId: string, item: Item)
    requires forall i :: 0 <= i < |ps| ==> ps[i].id != playlistId
    ensures AppendItem(ps, playlistId, item) == ps
  {
  }

  // ---- the hook's state ----

  class PlaylistStore {
    var playlists: seq<Playlist>
    var loading: bool

    ghost predicate Valid()
      reads this
    {
      Tagged(playlists)
    }

    constructor ()
      ensures Valid() && playlists == [] && loading
    {
      playlists := [];
      loading := true;
    }

    /**
     * `fetchPlaylists`, with the playlists query's reply and each playlist's
     * items query as a function of its id.
     */
    method FetchPlaylists(reply: Reply<Option<seq<PlaylistRow>>>, itemsOf: string -> Option<seq<ItemRow>>)
      requires Valid()
      modifies this
      ensures Valid() && !loading
      ensures reply.Ok? ==> playlists == Joined(reply.data.GetOr([]), itemsOf)
      ensures reply.Failed? ==> playlists == old(playlists)
    {
      if reply.Ok? {
        FetchTags(reply.data.GetOr([]), itemsOf);
        playlists := Joined(reply.data.GetOr([]), itemsOf);
      }
      loading := false;
    }

    /**
     * `createPlaylist(name)`, with the signed-in user and the insert, whose
     * reply depends on the name and the owner sent. Without a user or on an
     * error it throws and nothing changes; otherwise the inserted row is
     * prepended with an empty item list and returned.
     */
    method CreatePlaylist(name: string, user: Option<UserId>, insert: (string, UserId) -> Reply<PlaylistRow>)
      returns (r: Reply<PlaylistRow>)
      requires Valid()
      modifies this
      ensures Valid() && loading == old(loading)
      ensures r.Ok? <==> user.Some? && insert(name, user.value).Ok?
      ensures r.Ok? ==> r == insert(name, user.value) && playlists == [WithItems(r.data, [])] + old(playlists)
      ensures r.Failed? ==> playlists == old(playlists)
    {
      if user.None? {
        return Failed("User not authenticated");
      }
      var reply := insert(name, user.value);
      if reply.Failed? {
        return reply;
      }
      CreateKeepsTags(playlists, reply.data);
      playlists := [WithItems(reply.data, [])] + playlists;
      r := reply;
    }

    /**
     * `addToPlaylist(playlistId, episodeId)`, with the insert, whose reply
     * depends on the playlist id and the episode id sent: the returned row,
     * tagged with `playlistId`, goes to the end of that playlist's items.
     * Errors are swallowed (a toast) and change nothing.
     */
    method AddToPlaylist(playlistId: string, episodeId: string, insert: (string, string) -> Reply<ItemRow>)
      requires Valid()
      modifies this
      ensures Valid() && loading == old(loading)
      ensures insert(playlistId, episodeId).Ok? ==>
        playlists == AppendItem(old(playlists), playlistId, Tag(insert(playlistId, episodeId).data, playlistId))
      ensures insert(playlistId, episodeId).Failed? ==> playlists == old(playlists)
    {
      var reply := insert(playlistId, episodeId);
      if reply.Ok? {
        AppendKeepsTags(playlists, playlistId, reply.data);
        playlists := AppendItem(playlists, playlistId, Tag(reply.data, playlistId));
      }
    }

    /** `removeFromPlaylist(itemId, playlistId)`, with the delete's status. */
    method RemoveFromPlaylist(itemId: string, playlistId: string, reply: Status)
      requires Valid()
      modifies this
      ensures Valid() && loading == old(loading)
      ensures reply.Success? ==> playlists == RemoveItem(old(playlists), playlistId, itemId)
      ensures reply.Failure? ==> playlists == old(playlists)
    {
      if reply.Success? {
        RemoveKeepsTags(playlists, playlistId, itemId);
        playlists := RemoveItem(playlists, playlistId, itemId);
      }
    }

    /** `deletePlaylist(playlistId)`, with the delete's status. */
    method DeletePlaylist(playlistId: string, reply: Status)
      requires Valid()
      modifies this
      ensures Valid() && loading == old(loading)
      ensures reply.Success? ==> playlists == WithoutPlaylist(old(playlists), playlistId)
      ensures reply.Failure? ==> playlists == old(playlists)
    {
      if reply.Success? {
        DeleteKeepsTags(playlists, playlistId);
        playlists := WithoutPlaylist(playlists, playlistId);
      }
    }
  }
}
