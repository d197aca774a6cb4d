/**
 * The display rules of `NotificationBell`: the icon per notification type,
 * the unread badge and its "9+" cap, the "mark all read" action, the choice
 * between loading text, empty text and the list, and the click guard that
 * only forwards clicks on unread items to `markAsRead`. The open/closed state
 * of the dropdown and the relative timestamps are presentation only.
 */
module NotificationBell {
  import opened Backend
  import opened Text
  import opened Notifications

  const EpisodeIcon: string := "\U{1F3A7}"
  const CommentIcon: string := "\U{1F4AC}"
  const PlaylistIcon: string := "\U{1F4C2}"
  const DefaultIcon: string := "\U{1F514}"

  /** The three types the schema names; any other string is tolerated. */
  predicate IsKnownKind(kind: string) {
    kind == "new_episode" || kind == "new_comment" || kind == "playlist_updated"
  }

  /** `getNotificationIcon`: a switch on the type with a bell as the default. */
  function Icon(kind: string): (r: string)
    ensures r == EpisodeIcon <==> kind == "new_episode"
    ensures r == CommentIcon <==> kind == "new_comment"
    ensures r == PlaylistIcon <==> kind == "playlist_updated"
    ensures r == DefaultIcon <==> !IsKnownKind(kind)
  {
    match kind
    case "new_episode" => EpisodeIcon
    case "new_comment" => CommentIcon
    case "playlist_updated" => PlaylistIcon
    case _ => DefaultIcon
  }

  /** Two types share an icon only when both are unknown or they are the same type. */
  lemma IconSeparatesKinds(k1: string, k2: string)
    requires Icon(k1) == Icon(k2)
    ensures k1 == k2 || (!IsKnownKind(k1) && !IsKnownKind(k2))
  {
  }

  /**
   * The badge on the bell: absent at zero, "9+" above nine, otherwise the
   * count written out.
   */
  function Badge(unreadCount: int): (r: Option<string>)
    ensures r.Some? <==> unreadCount > 0
    ensures unreadCount > 9 ==> r == Some("9+")
    ensures 0 < unreadCount <= 9 ==>
      r.Some? && |r.value| == 1 && AllDigits(r.value) && ParseNat(r.value) == unreadCount
  {
    if unreadCount <= 0 then None
    else if unreadCount > 9 then Some("9+")
    else ParseNatToString(unreadCount); Some(NatToString(unreadCount))
  }

  /** The "Tout marquer lu" button is shown exactly when the badge is. */
  predicate ShowMarkAll(unreadCount: int) {
    unreadCount > 0
  }

  lemma MarkAllShownWithBadge(unreadCount: int)
    ensures ShowMarkAll(unreadCount) <==> Badge(unreadCount).Some?
  {
  }

  /** One row of the panel: its icon, title, message and the unread dot. */
  datatype ItemView = ItemView(id: string, icon: string, title: string, message: string, unreadDot: bool)

  /** What the scroll area holds. */
  datatype Panel = LoadingText | EmptyText | List(items: seq<ItemView>)

  const LoadingLabel: string := "Chargement..."
  const EmptyLabel: string := "Aucune notification"

  /** The text that stands in for the list, if any. */
  function PanelText(p: Panel): Option<string> {
    match p
    case LoadingText => Some(LoadingLabel)
    case EmptyText => Some(EmptyLabel)
    case List(_) => None
  }

  /** The panel shows "Chargement..." exactly while loading, "Aucune notification" exactly for a loaded empty list, and no text over a list. */
  lemma PanelTextFor(loading: bool, notifications: seq<Notification>)
    ensures PanelText(PanelFor(loading, notifications)) == Some(LoadingLabel) <==> loading
    ensures PanelText(PanelFor(loading, notifications)) == Some(EmptyLabel) <==> !loading && notifications == []
    ensures PanelText(PanelFor(loading, notifications)).None? <==> !loading && notifications != []
  {
  }

  function ItemOf(n: Notification): ItemView {
    ItemView(n.id, Icon(n.kind), n.title, n.message, !n.read)
  }

  function Items(s: seq<Notification>): (r: seq<ItemView>)
    ensures |r| == |s| && forall i :: 0 <= i < |s| ==> r[i] == ItemOf(s[i])
  {
    if s == [] then [] else [ItemOf(s[0])] + Items(s[1..])
  }

  /** Loading text while loading, else empty text for no notifications, else one row per notification in order. */
  function PanelFor(loading: bool, notifications: seq<Notification>): (p: Panel)
    ensures p == LoadingText <==> loading
    ensures p == EmptyText <==> !loading && notifications == []
    ensures p.List? ==> |p.items| == |notifications|
    ensures p.List? ==> forall i :: 0 <= i < |notifications| ==>
      && p.items[i].id == notifications[i].id
      && p.items[i].icon == Icon(notifications[i].kind)
      && p.items[i].unreadDot == !notifications[i].read
  {
    if loading then LoadingText
    else if |notifications| == 0 then EmptyText
    else List(Items(notifications))
  }

  /** What a click on a row does. */
  datatype Click = MarkOne(id: string) | Ignore

  /** `if (!notification.read) markAsRead(notification.id)`. */
  function OnItemClick(n: Notification): (c: Click)
    ensures c.MarkOne? <==> !n.read
    ensures c.MarkOne? ==> c.id == n.id
  {
    if !n.read then MarkOne(n.id) else Ignore
  }

  /**
   * The guard is what keeps the counter right: a click on a listed item
   * either changes nothing or marks an unread entry read and decrements.
   */
  lemma ClickKeepsCount(s: seq<Notification>, count: int, k: nat)
    requires k < |s| && count == CountUnread(s) && UniqueIds(s)
    ensures match OnItemClick(s[k])
      case MarkOne(id) => Decremented(count) == CountUnread(MarkRead(s, id))
      case Ignore => true
  {
    if !s[k].read {
      assert HasUnread(s, s[k].id);
      MarkReadKeepsCount(s, count, s[k].id);
    }
  }

  /**
   * A click on the `k`-th listed item, with the backend's answer to the
   * update it may send. A read item causes no mutation at all.
   */
  method ClickItem(store: NotificationStore, k: nat, reply: Status)
    requires store.Valid() && k < |store.notifications|
    modifies store
    ensures store.Valid() && store.loading == old(store.loading)
    ensures old(store.notifications[k].read) ==>
      store.notifications == old(store.notifications) && store.unreadCount == old(store.unreadCount)
    ensures !old(store.notifications[k].read) && reply.Success? ==>
      && store.notifications == MarkRead(old(store.notifications), old(store.notifications[k].id))
      && store.unreadCount == Decremented(old(store.unreadCount))
    ensures reply.Failure? ==>
      store.notifications == old(store.notifications) && store.unreadCount == old(store.unreadCount)
    ensures old(store.Consistent()) && UniqueIds(old(store.notifications)) ==> store.Consistent()
  {
    var n := store.notifications[k];
    match OnItemClick(n)
    case MarkOne(id) =>
      assert HasUnread(store.notifications, id);
      store.MarkAsRead(id, reply);
    case Ignore =>
  }
}
