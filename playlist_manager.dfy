/**
 * `PlaylistManager`: how a card shows a playlist (item count, the first three
 * items, "et N autres"), the `m:ss` duration label, and the two handlers
 * that call the store: creating a playlist from the dialog's name field and
 * adding the current episode to a playlist.
 */
module PlaylistManager {
  import opened Backend
  import opened Text
  import opened Playlists

  // ---- formatDuration ----

  /** `remainingSeconds.toString().padStart(2, '0')`: two digits that read back as the seconds. */
  function TwoDigits(secs: nat): (r: string)
    requires secs < 60
    ensures |r| == 2 && AllDigits(r) && ParseNat(r) == secs
  {
    var ss := NatToString(secs);
    ParseNatToString(secs);
    PadKeepsValue(ss);
    PadStart2(ss)
  }

  /** Where the parts of `mm + ":" + ss` sit when `ss` has two characters. */
  lemma ColonLayout(mm: string, ss: string)
    requires |ss| == 2
    ensures var r := mm + ":" + ss;
      |r| == |mm| + 3 && r[..|r| - 3] == mm && r[|r| - 3] == ':' && r[|r| - 2..] == ss
  {
    var r := mm + ":" + ss;
    assert r[..|mm|] == mm;
    assert r[|mm| + 1..] == ss;
  }

  /** `${minutes}:${remainingSeconds.toString().padStart(2, '0')}`. */
  function Clock(minutes: nat, secs: nat): (r: string)
    requires secs < 60
    ensures |r| >= 4
  {
    NatToString(minutes) + ":" + TwoDigits(secs)
  }

  /** The label is the minutes' numeral, a colon, then the two digits of the seconds. */
  lemma ClockLayout(minutes: nat, secs: nat)
    requires secs < 60
    ensures var r := Clock(minutes, secs);
      && r[|r| - 3] == ':' && r[..|r| - 3] == NatToString(minutes) && r[|r| - 2..] == TwoDigits(secs)
  {
    ColonLayout(NatToString(minutes), TwoDigits(secs));
  }

  /**
   * `formatDuration(seconds)`: empty for an absent or zero duration (`!seconds`),
   * else the whole minutes and the remaining seconds.
   */
  function FormatDuration(seconds: Option<nat>): (r: string)
    ensures seconds.None? || seconds == Some(0) <==> r == ""
  {
    match seconds
    case None => ""
    case Some(s) => if s == 0 then "" else Clock(s / 60, s % 60)
  }

  /** Reads an `m:ss` label back into seconds. */
  function ParseDuration(t: string): Option<nat> {
    if |t| >= 4 && t[|t| - 3] == ':' && AllDigits(t[..|t| - 3]) && AllDigits(t[|t| - 2..])
    then Some(ParseNat(t[..|t| - 3]) * 60 + ParseNat(t[|t| - 2..]))
    else None
  }

  /** A well-formed label reads as its minutes times 60 plus its seconds. */
  lemma ParseDurationParts(t: string, minutes: nat, secs: nat)
    requires |t| >= 4 && t[|t| - 3] == ':'
    requires AllDigits(t[..|t| - 3]) && ParseNat(t[..|t| - 3]) == minutes
    requires AllDigits(t[|t| - 2..]) && ParseNat(t[|t| - 2..]) == secs
    ensures ParseDuration(t) == Some(minutes * 60 + secs)
  {
  }

  /** A numeral, a colon and two digits read as minutes * 60 + seconds. */
  lemma ParseLabel(mm: string, ss: string, minutes: nat, secs: nat)
    requires |mm| >= 1 && AllDigits(mm) && ParseNat(mm) == minutes
    requires |ss| == 2 && AllDigits(ss) && ParseNat(ss) == secs
    ensures ParseDuration(mm + ":" + ss) == Some(minutes * 60 + secs)
  {
    ColonLayout(mm, ss);
    ParseDurationParts(mm + ":" + ss, minutes, secs);
  }

  lemma ClockRoundTrip(minutes: nat, secs: nat)
    requires secs < 60
    ensures ParseDuration(Clock(minutes, secs)) == Some(minutes * 60 + secs)
  {
    var mm, ss := NatToString(minutes), TwoDigits(secs);
    ParseNatToString(minutes);
    ParseLabel(mm, ss, minutes, secs);
  }

  /** A positive duration survives the label: minutes * 60 + seconds gives it back. */
  lemma DurationRoundTrip(s: nat)
    requires s > 0
    ensures ParseDuration(FormatDuration(Some(s))) == Some(s)
  {
    var m, ss := s / 60, s % 60;
    assert FormatDuration(Some(s)) == Clock(m, ss);
    ClockRoundTrip(m, ss);
    assert m * 60 + ss == s;
  }

  // ---- the card ----

  /** The badge: `playlist.playlist_items?.length || 0` episodes. */
  function EpisodeCount(p: Playlist): (n: nat)
    ensures p.items.None? ==> n == 0
    ensures p.items.Some? ==> n == |p.items.value|
  {
    |ItemsOf(p)|
  }

  /** What the card body shows. */
  datatype CardBody = EmptyPlaylist | Preview(shown: seq<Item>, more: Option<nat>)

  /** `items.slice(0, 3)` and, past three, "et {items.length - 3} autres épisodes...". */
  function CardBodyOf(p: Playlist): (b: CardBody)
    ensures b == EmptyPlaylist <==> ItemsOf(p) == []
    ensures b.Preview? ==>
      && |b.shown| <= 3 && |b.shown| <= |ItemsOf(p)| && b.shown == ItemsOf(p)[..|b.shown|]
      && (|ItemsOf(p)| <= 3 ==> b.shown == ItemsOf(p) && b.more == None)
      && (|ItemsOf(p)| > 3 ==> |b.shown| == 3 && b.more == Some(|ItemsOf(p)| - 3))
  {
    var items := ItemsOf(p);
    if items == [] then EmptyPlaylist
    else if |items| > 3 then Preview(items[..3], Some(|items| - 3))
    else Preview(items, None)
  }

  /** The card accounts for every item: those shown plus the "autres" count. */
  lemma CardCountsEveryItem(p: Playlist)
    requires CardBodyOf(p).Preview?
    ensures |CardBodyOf(p).shown| + CardBodyOf(p).more.GetOr(0) == EpisodeCount(p)
  {
  }

  /** The "Créer" button: disabled while creating or for a blank name. */
  predicate CanSubmitCreate(isCreating: bool, name: string) {
    !isCreating && !IsBlank(name)
  }

  /**
   * The button is enabled exactly when nothing is being created and the
   * trimmed name is not empty; when nothing is being created, that is the
   * condition under which `HandleCreatePlaylist` goes past its early return.
   */
  lemma CreateEnabledIffNotBlank(isCreating: bool, name: string)
    ensures CanSubmitCreate(isCreating, name) <==> !isCreating && Trim(name) != []
    ensures !isCreating ==> (CanSubmitCreate(isCreating, name) <==> !IsBlank(name))
  {
    TrimEmptyIffBlank(name);
  }

  // ---- the component's state ----

  class PlaylistManagerState {
    const episodeId: Option<string>
    var isCreateDialogOpen: bool
    var newPlaylistName: string
    var isCreating: bool

    constructor (episodeId: Option<string>)
      ensures this.episodeId == episodeId
      ensures !isCreateDialogOpen && newPlaylistName == "" && !isCreating
    {
      this.episodeId := episodeId;
      isCreateDialogOpen := false;
      newPlaylistName := "";
      isCreating := false;
    }

    /**
     * `handleCreatePlaylist`: a blank name does nothing; otherwise the store's
     * `createPlaylist` runs on the untrimmed name, and only when it succeeds
     * is the field cleared and the dialog closed. `isCreating` is false again
     * at the end in every case.
     */
    method HandleCreatePlaylist(store: PlaylistStore, user: Option<UserId>, insert: (string, UserId) -> Reply<PlaylistRow>)
      requires store.Valid()
      modifies this, store
      ensures store.Valid() && store.loading == old(store.loading)
      ensures !IsBlank(old(newPlaylistName)) ==> !isCreating
      ensures IsBlank(old(newPlaylistName)) ==>
        && store.playlists == old(store.playlists)
        && newPlaylistName == old(newPlaylistName) && isCreateDialogOpen == old(isCreateDialogOpen)
        && isCreating == old(isCreating)
      ensures !IsBlank(old(newPlaylistName)) && user.Some? && insert(old(newPlaylistName), user.value).Ok? ==>
        && store.playlists == [WithItems(insert(old(newPlaylistName), user.value).data, [])] + old(store.playlists)
        && newPlaylistName == "" && !isCreateDialogOpen
      ensures !IsBlank(old(newPlaylistName)) && !(user.Some? && insert(old(newPlaylistName), user.value).Ok?) ==>
        && store.playlists == old(store.playlists)
        && newPlaylistName == old(newPlaylistName) && isCreateDialogOpen == old(isCreateDialogOpen)
    {
      if IsBlank(newPlaylistName) {
        return;
      }
      isCreating := true;
      var r := store.CreatePlaylist(newPlaylistName, user, insert);
      if r.Ok? {
        newPlaylistName := "";
        isCreateDialogOpen := false;
      }
      isCreating := false;
    }

    /**
     * `handleAddToPlaylist`: nothing happens without an episode id
     * (`!episodeId`); otherwise the store's add sends this episode's id.
     */
    method HandleAddToPlaylist(store: PlaylistStore, playlistId: string, insert: (string, string) -> Reply<ItemRow>)
      requires store.Valid()
      modifies store
      ensures store.Valid() && store.loading == old(store.loading)
      ensures episodeId.None? || episodeId == Some("") ==> store.playlists == old(store.playlists)
      ensures episodeId.Some? && episodeId != Some("") ==>
        var sent := insert(playlistId, episodeId.value);
        && (sent.Ok? ==> store.playlists == AppendItem(old(store.playlists), playlistId, Tag(sent.data, playlistId)))
        && (sent.Failed? ==> store.playlists == old(store.playlists))
    {
      if episodeId.None? || episodeId.value == "" {
        return;
      }
      store.AddToPlaylist(playlistId, episodeId.value, insert);
    }
  }
}
