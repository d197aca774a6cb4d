# Client-side state of a podcast site, modelled in Dafny

The site is a React front end over a hosted backend. Most of it is markup and
backend calls. This project models the logic that sits between the backend's
replies and what the pages show:

- **notification store** (`useNotifications`): the list, the hand-kept unread counter, realtime ingestion, mark one read, mark all read;
- **notification bell**: icon per type, unread badge with its "9+" cap, loading/empty/list panel, click guard;
- **playlist store** (`usePlaylists`): fetch with item tagging, create, add item, remove item, delete;
- **playlist manager**: `m:ss` durations, the card preview of three items, the create and add handlers;
- **comment store** (`useComments`): fetch with profile fallback, add, update, delete;
- **comment section**: the new-comment form, the edit-in-place state machine, rating normalisation, stars, owner-only controls;
- **podcast catalogue**: search and category filter, ordering by episode count, per-category counts and labels;
- **translations** (`useI18n`): lookup with fallback to the key, language toggle, initial language;
- **contact form**: schema rules, submit and reset.

Stores and components that update state step by step are classes. Their handlers
are methods that take the backend's reply, the signed-in user and any looked-up
profile as parameters. The list updaters they hand to React (`prev.map(...)`,
`prev.filter(...)`) are pure recursive functions. Lemmas about those functions
state the invariants the handlers keep.

Every list and counter update comes after the `throw` that reports a backend
error, so there is no optimistic update and nothing to roll back; only the
fetches' `setLoading(false)`, in their `finally` blocks, also runs on an error. `markAsRead` always decrements the counter, floored
at zero, even for an id that is already read or not in the list; the bell's
click handler is what keeps read items away from it. The model proves the
counter invariant under the conditions where it holds, and proves the exact
way it fails otherwise (`MarkReadOfReadOrAbsentMiscounts`). Realtime
ingestion prepends every accepted row and never trims the list.

Files: `backend.dfy` (reply shapes), `text.dfy` (the JavaScript string
operations used), `lists.dfy` (subsequence), then one file per source file:
`notifications.dfy`, `notification_bell.dfy`, `playlists.dfy`,
`playlist_manager.dfy`, `comments.dfy`, `comment_section.dfy`, `podcasts.dfy`,
`i18n.dfy`, `contact.dfy`.

## Model

| member | source | states |
|---|---|---|
| Text.TrimStart | src/components/PlaylistManager.tsx:38 | the result is a suffix of the input; everything dropped is white space and the result does not start with white space |
| Text.TrimEnd | src/components/PlaylistManager.tsx:38 | the result is a prefix of the input; everything dropped is white space and the result does not end with white space |
| Text.TrimEmptyIffBlank | src/components/CommentSection.tsx:39 | `s.trim()` is empty exactly when every character is white space |
| Text.NatToString | src/components/PlaylistManager.tsx:61 | `n.toString()` is a non-empty string of digits, with no leading zero unless n is 0; one digit exactly when n < 10 |
| Text.ParseNatToString | src/components/PlaylistManager.tsx:61 | reading the numeral back gives n |
| Text.ParseNatLeadingZero | src/components/PlaylistManager.tsx:61 | a leading "0" does not change a numeral's value |
| Text.PadStart2 | src/components/PlaylistManager.tsx:61 | `padStart(2, '0')`: length max(2, \|s\|), s at the end, zeros before it |
| Text.PadKeepsValue | src/components/PlaylistManager.tsx:61 | padding a numeral keeps it a numeral with the same value |
| Text.Lower | src/pages/Podcasts.tsx:113-114 | same length; each character lower-cased (ASCII letters) |
| Text.ContainsEmpty | src/pages/Podcasts.tsx:113-114 | every text includes the empty search term |
| Notifications.FromRows | src/hooks/useNotifications.ts:79-87 | one notification per row, in order, each copying the row's fields |
| Notifications.CountUnread | src/hooks/useNotifications.ts:90 | the unread count is at most the length, and is zero exactly when every entry is read |
| Notifications.MarkRead | src/hooks/useNotifications.ts:107-109 | same length and order; entries with the id become read, every other entry is unchanged |
| Notifications.MarkAllRead | src/hooks/useNotifications.ts:125 | same length and order; every entry is read and otherwise unchanged |
| Notifications.Decremented | src/hooks/useNotifications.ts:110 | `Math.max(0, prev - 1)`: never negative, one less when positive, 0 otherwise |
| Notifications.CountAfterMarkRead | src/hooks/useNotifications.ts:107-110 | marking an id read lowers the unread count by exactly the number of unread entries with that id |
| Notifications.UnreadWithIdUnique | src/hooks/useNotifications.ts:107-110 | with unique ids, that number is 1 if an unread entry has the id and 0 otherwise |
| Notifications.CountUnreadWithIdZero | src/hooks/useNotifications.ts:107-110 | without an unread entry for the id, that number is 0 |
| Notifications.MarkReadKeepsCount | src/hooks/useNotifications.ts:107-110 | if the counter matched the list, ids are unique and the id has an unread entry, the decremented counter matches the new list |
| Notifications.MarkReadOfReadOrAbsentMiscounts | src/hooks/useNotifications.ts:107-110 | for an id with no unread entry and a positive counter, the list's unread count stays while the counter drops by one |
| Notifications.IngestCount | src/hooks/useNotifications.ts:50-51 | prepending a row adds 1 unread entry if the row is unread and none if it is read |
| Notifications.MarkReadIdempotent | src/hooks/useNotifications.ts:107-109 | a second `markAsRead` with the same id leaves the list as the first left it |
| Notifications.CountAfterMarkAllRead | src/hooks/useNotifications.ts:125-126 | after marking all read no entry is unread, so the counter's 0 is right |
| Notifications.UpdatersKeepIds | src/hooks/useNotifications.ts:107-125 | neither updater adds, removes, reorders or renames an entry |
| Notifications.NotificationStore.constructor | src/hooks/useNotifications.ts:17-19 | empty list, counter 0, loading |
| Notifications.NotificationStore.FetchNotifications | src/hooks/useNotifications.ts:69-96 | success: the list is the mapped rows (none if `data` is null) and the counter is their unread count; error: list and counter unchanged; loading cleared either way |
| Notifications.NotificationStore.OnInsert | src/hooks/useNotifications.ts:38-51 | a row owned by the signed-in user is prepended and the counter goes up by 1 whatever its read flag; any other row changes nothing; an unread row keeps a matching counter matching |
| Notifications.NotificationStore.MarkAsRead | src/hooks/useNotifications.ts:98-114 | success: entries with the id marked read, counter `max(0, c-1)`; error: nothing changes; the counter never goes negative and stays right under the conditions above |
| Notifications.NotificationStore.MarkAllAsRead | src/hooks/useNotifications.ts:116-130 | success: all entries read, counter 0 and matching; error: nothing changes |
| NotificationBell.Icon | src/components/NotificationBell.tsx:30-41 | new_episode gives 🎧, new_comment 💬, playlist_updated 📂; every other type, and only those, gives 🔔 |
| NotificationBell.IconSeparatesKinds | src/components/NotificationBell.tsx:30-41 | two types share an icon only if they are equal or both unknown |
| NotificationBell.Badge | src/components/NotificationBell.tsx:48-54 | a badge exactly when the count is positive; "9+" above nine; otherwise the single digit reading back as the count |
| NotificationBell.MarkAllShownWithBadge | src/components/NotificationBell.tsx:62 | "Tout marquer lu" is offered exactly when the badge is shown |
| NotificationBell.Items | src/components/NotificationBell.tsx:86-112 | one row per notification in order, with its icon, title, message and an unread dot exactly for unread entries |
| NotificationBell.PanelFor | src/components/NotificationBell.tsx:76-85 | loading text exactly while loading; else empty text exactly for no notifications; else the list, one row per notification |
| NotificationBell.PanelTextFor | src/components/NotificationBell.tsx:76-84 | "Chargement..." exactly while loading, "Aucune notification" exactly for a loaded empty list, no text over a list |
| NotificationBell.OnItemClick | src/components/NotificationBell.tsx:92-96 | a click asks to mark read exactly when the item is unread, and with the item's id |
| NotificationBell.ClickKeepsCount | src/components/NotificationBell.tsx:92-96 | with unique ids and a matching counter, a click on a listed item keeps the counter matching |
| NotificationBell.ClickItem | src/components/NotificationBell.tsx:92-96 | a click on a read item changes nothing; on an unread item a success marks its id read and decrements the counter, a failure changes nothing; `loading` stays; a click never breaks a matching counter when ids are unique |
| Playlists.TagAll | src/hooks/usePlaylists.ts:72-75 | one item per row, in order, each tagged with the playlist's id |
| Playlists.Joined | src/hooks/usePlaylists.ts:52-78 | each playlist row in order with its own items query (none if null), tagged with its id |
| Playlists.AppendItem | src/hooks/usePlaylists.ts:151-157 | same length and order; the playlists with the id get the item at the end of their items, all others unchanged |
| Playlists.WithoutItem | src/hooks/usePlaylists.ts:187 | an item stays exactly when it was there and has another id; each kept item as many times as before, the removed ones not at all |
| Playlists.RemoveItem | src/hooks/usePlaylists.ts:182-191 | same length and order; only the playlists with the id lose the items with the item id; a missing item list becomes empty |
| Playlists.WithoutPlaylist | src/hooks/usePlaylists.ts:216 | a playlist stays exactly when it was there and has another id; each kept playlist as many times as before, the removed ones not at all |
| Playlists.RemoveKeepsOrder | src/hooks/usePlaylists.ts:187 | the remaining items keep their order |
| Playlists.DeleteKeepsOrder | src/hooks/usePlaylists.ts:216 | the remaining playlists keep their order |
| Playlists.FetchTags | src/hooks/usePlaylists.ts:70-75 | after a fetch every item names the playlist holding it |
| Playlists.CreateKeepsTags | src/hooks/usePlaylists.ts:104 | prepending a new empty playlist keeps every item tagged with its holder |
| Playlists.AppendKeepsTags | src/hooks/usePlaylists.ts:146-157 | appending an item tagged with the target id keeps the tagging |
| Playlists.RemoveKeepsTags | src/hooks/usePlaylists.ts:182-191 | removing items keeps the tagging |
| Playlists.DeleteKeepsTags | src/hooks/usePlaylists.ts:216 | deleting playlists keeps the tagging |
| Playlists.AppendToMissingPlaylist | src/hooks/usePlaylists.ts:152-156 | adding to an id no playlist has leaves the list unchanged |
| Playlists.PlaylistStore.constructor | src/hooks/usePlaylists.ts:33-34 | no playlists, loading |
| Playlists.PlaylistStore.FetchPlaylists | src/hooks/usePlaylists.ts:41-86 | success: the joined, tagged playlists; error: unchanged; loading cleared either way; tagging kept |
| Playlists.PlaylistStore.CreatePlaylist | src/hooks/usePlaylists.ts:88-120 | the insert gets the name and the user's id; fails exactly without a user or on an error, and then changes nothing; otherwise prepends the returned row with no items and returns it |
| Playlists.PlaylistStore.AddToPlaylist | src/hooks/usePlaylists.ts:122-171 | the insert gets the playlist id and the episode id; success: the returned item, tagged with the playlist id, appended to that playlist; error: unchanged |
| Playlists.PlaylistStore.RemoveFromPlaylist | src/hooks/usePlaylists.ts:173-205 | success: the item removed from that playlist only; error: unchanged |
| Playlists.PlaylistStore.DeletePlaylist | src/hooks/usePlaylists.ts:207-229 | success: the playlists with that id removed; error: unchanged |
| PlaylistManager.TwoDigits | src/components/PlaylistManager.tsx:61 | the seconds padded to exactly two digits that read back as the seconds |
| PlaylistManager.Clock | src/components/PlaylistManager.tsx:59-61 | the label has at least four characters, so it is never empty |
| PlaylistManager.ClockLayout | src/components/PlaylistManager.tsx:61 | the label is the minutes' numeral, then a colon, then the two padded digits of the seconds |
| PlaylistManager.ParseDurationParts | src/components/PlaylistManager.tsx:61 | a label made of a numeral, a colon and two digits reads as minutes * 60 + seconds |
| PlaylistManager.FormatDuration | src/components/PlaylistManager.tsx:57-62 | empty exactly for an absent or zero duration, else `m:ss` with m = s div 60 and ss = s mod 60 |
| PlaylistManager.ParseLabel | src/components/PlaylistManager.tsx:61 | any numeral, a colon and two digits read back as minutes * 60 + seconds |
| PlaylistManager.ClockRoundTrip | src/components/PlaylistManager.tsx:59-61 | reading `m:ss` back gives m * 60 + ss |
| PlaylistManager.DurationRoundTrip | src/components/PlaylistManager.tsx:57-62 | for s > 0, reading the label back gives s |
| PlaylistManager.EpisodeCount | src/components/PlaylistManager.tsx:207 | the badge shows the number of items, or 0 without an item list |
| PlaylistManager.CardBodyOf | src/components/PlaylistManager.tsx:219-259 | "Playlist vide" exactly for no items; else the first min(3, n) items, and "et n-3 autres" exactly when n > 3 |
| PlaylistManager.CardCountsEveryItem | src/components/PlaylistManager.tsx:219-252 | the items shown plus the "autres" count equal the badge's count |
| PlaylistManager.CreateEnabledIffNotBlank | src/components/PlaylistManager.tsx:115 | the "Créer" button is enabled exactly when not creating and the trimmed name is non-empty, which is the handler's guard |
| PlaylistManager.PlaylistManagerState.constructor | src/components/PlaylistManager.tsx:32-34 | dialog closed, empty name, not creating |
| PlaylistManager.PlaylistManagerState.HandleCreatePlaylist | src/components/PlaylistManager.tsx:36-50 | a blank name changes nothing; otherwise the untrimmed name is sent, a success prepends the returned playlist, clears the name and closes the dialog, a failure keeps them; `isCreating` ends false |
| PlaylistManager.PlaylistManagerState.HandleAddToPlaylist | src/components/PlaylistManager.tsx:52-55 | without an episode id nothing changes; otherwise the store's add sends this episode's id, and its reply decides the new list |
| Comments.WithProfile | src/hooks/useComments.ts:53-56 | the row with its profile, or the anonymous profile when none was found |
| Comments.JoinProfiles | src/hooks/useComments.ts:45-58 | one comment per row, in order, each with its author's profile or the fallback |
| Comments.ReplaceById | src/hooks/useComments.ts:139-141 | same length and order; comments with the id are replaced, all others unchanged |
| Comments.RemoveById | src/hooks/useComments.ts:166 | a comment stays exactly when it was there and has another id; each kept comment as many times as before, the removed ones not at all |
| Comments.RemoveByIdKeepsOthers | src/hooks/useComments.ts:166 | the remaining ids are the old ones without that id, in their order |
| Comments.ReplaceKeepsIds | src/hooks/useComments.ts:139-141 | replacing by a comment with the same id keeps the ids |
| Comments.CommentStore.constructor | src/hooks/useComments.ts:21-22 | no comments, loading |
| Comments.CommentStore.FetchComments | src/hooks/useComments.ts:31-66 | without an episode id nothing changes, not even loading; success: the joined comments; error: unchanged; loading cleared |
| Comments.CommentStore.AddComment | src/hooks/useComments.ts:68-114 | fails exactly without a user or on an error, and then changes nothing; otherwise prepends and returns the new comment |
| Comments.CommentStore.UpdateComment | src/hooks/useComments.ts:116-155 | success: the comments with the id replaced by the returned row with its profile; error: unchanged |
| Comments.CommentStore.DeleteComment | src/hooks/useComments.ts:157-179 | success: the comments with the id removed; error: unchanged |
| CommentSection.RatingArg | src/components/CommentSection.tsx:43 | rating 0 is sent as none; any other rating is sent unchanged |
| CommentSection.RatingOrZero | src/components/CommentSection.tsx:56 | a stored rating is loaded as is; none is loaded as 0 |
| CommentSection.RatingRoundTrip | src/components/CommentSection.tsx:56-63 | loading a rating into the edit form and saving it sends back the same rating (a stored 0 comes back as none) |
| CommentSection.Stars | src/components/CommentSection.tsx:90-95 | five stars; star k is filled exactly when k ≤ rating |
| CommentSection.FilledStarsMatchRating | src/components/CommentSection.tsx:90-95 | the filled stars are a prefix, as many as the rating clamped to 0..5 |
| CommentSection.ReadonlyStars | src/components/CommentSection.tsx:165-167 | a comment shows stars exactly for a non-zero rating, filled by the rule above |
| CommentSection.DisplayName | src/components/CommentSection.tsx:153 | the profile's name, or "Utilisateur" when it is empty |
| CommentSection.MissingProfileShownAnonymous | src/components/CommentSection.tsx:153 | a comment whose profile was missing is shown as "Utilisateur anonyme" |
| CommentSection.OwnerControlsOnlyForAuthor | src/components/CommentSection.tsx:174 | edit and delete are shown exactly when a user is signed in and wrote the comment |
| CommentSection.PublishEnabledIffNotBlank | src/components/CommentSection.tsx:130 | the "Publier" button is enabled exactly when not submitting and the trimmed text is non-empty, which is the handler's guard |
| CommentSection.CommentForm.constructor | src/components/CommentSection.tsx:21-35 | empty forms, rating 0, not editing, not submitting |
| CommentSection.CommentForm.SetNewRating | src/components/CommentSection.tsx:120 | a star click sets the new rating to that star |
| CommentSection.CommentForm.HandleSubmit | src/components/CommentSection.tsx:37-51 | a blank text changes nothing; otherwise the text and normalised rating are sent, a success prepends the comment and clears text and rating, a failure keeps them; submitting ends false |
| CommentSection.CommentForm.HandleEdit | src/components/CommentSection.tsx:53-57 | loads the id, content and rating-or-0; exactly the comments with that id are in edit mode |
| CommentSection.CommentForm.HandleSaveEdit | src/components/CommentSection.tsx:59-70 | ignored when nothing is edited or the text is blank; otherwise content and normalised rating are sent and the edit form is reset whatever the reply |
| CommentSection.CommentForm.HandleCancelEdit | src/components/CommentSection.tsx:72-76 | back to no comment, "" and 0 |
| CommentSection.CommentForm.HandleDelete | src/components/CommentSection.tsx:78-82 | the delete runs only when confirmed, and then removes the comments with that id on success |
| Podcasts.Filter | src/pages/Podcasts.tsx:111-117 | a podcast is kept exactly when its lower-cased title or description includes the lower-cased term and the category is "Tous" or its own; each kept one as many times as in the list |
| Podcasts.FilterKeepsOrder | src/pages/Podcasts.tsx:111-117 | the result is a subsequence of the catalogue |
| Podcasts.EmptySearchMatches | src/pages/Podcasts.tsx:113-114 | an empty search matches every podcast |
| Podcasts.EmptySearchKeepsAll | src/pages/Podcasts.tsx:113-115 | an empty search in "Tous" keeps the whole list |
| Podcasts.StepsDownIsNonIncreasing | src/pages/Podcasts.tsx:122-123 | a list whose neighbours step down is non-increasing throughout |
| Podcasts.Insert | src/pages/Podcasts.tsx:118-123 | the result holds the list's podcasts plus exactly the new one, and starts with the new one or the list's old head |
| Podcasts.InsertStepsDown | src/pages/Podcasts.tsx:118-123 | inserting into a list ordered by descending episode count keeps it ordered |
| Podcasts.SortByEpisodes | src/pages/Podcasts.tsx:118-123 | a permutation of its input, non-increasing in episode count |
| Podcasts.ShownByEpisodes | src/pages/Podcasts.tsx:111-128 | with the "episodes" ordering: a permutation of the filtered list, so exactly the matching podcasts each as often as in the list, most episodes first |
| Podcasts.CategoryCount | src/pages/Podcasts.tsx:246 | the count of podcasts with that category, at most the list's length |
| Podcasts.CategoryCountIsFilterLength | src/pages/Podcasts.tsx:246 | a category's count equals how many podcasts the list shows for it with no search |
| Podcasts.OnePodcastPerCategory | src/pages/Podcasts.tsx:11-104 | in the shipped catalogue every named category holds exactly one podcast |
| Podcasts.CountOfSingle | src/pages/Podcasts.tsx:246 | a category carried by exactly one entry is counted once |
| Podcasts.CountOfNone | src/pages/Podcasts.tsx:246 | a category no entry carries is counted zero times |
| Podcasts.Plural | src/pages/Podcasts.tsx:197 | "s" exactly when the count is above 1 |
| Podcasts.ResultsLabel | src/pages/Podcasts.tsx:197 | starts with the count and ends in "s" exactly when the count is above 1 |
| Podcasts.ResultsLabelCount | src/pages/Podcasts.tsx:197 | the count at the head of the label reads back as the count |
| Podcasts.Reset | src/pages/Podcasts.tsx:220-223 | search "" and category "Tous"; the ordering is kept |
| Podcasts.ResetShowsAll | src/pages/Podcasts.tsx:220-223 | after a reset every podcast is shown |
| Podcasts.InitialShowsAll | src/pages/Podcasts.tsx:107-109 | the opening filters (no search, "Tous") show every podcast, and resetting them changes nothing |
| I18n.InLanguage | src/hooks/useI18n.ts:137 | an entry has a string exactly for "fr" and "en" |
| I18n.Translate | src/hooks/useI18n.ts:136-138 | the table's string when the key has a non-empty one in the language, otherwise the key |
| I18n.EveryEntryComplete | src/hooks/useI18n.ts:12-124 | every entry has non-empty French and English strings |
| I18n.KnownKeysTranslated | src/hooks/useI18n.ts:12-138 | in French or English a known key is always translated, never echoed |
| I18n.Switch | src/hooks/useI18n.ts:140-142 | "fr" becomes "en" and anything else "fr" |
| I18n.SwitchTwice | src/hooks/useI18n.ts:140-142 | switching twice is the identity on "fr" and "en"; other saved values become "fr" |
| I18n.InitialLanguage | src/hooks/useI18n.ts:127-130 | the saved value when present and non-empty, else "fr" |
| I18n.I18nState.constructor | src/hooks/useI18n.ts:127-130 | starts with the initial language |
| I18n.I18nState.SwitchLanguage | src/hooks/useI18n.ts:140-142 | the language becomes the switched one |
| I18n.I18nState.SetLanguage | src/hooks/useI18n.ts:127 | the language becomes the given one |
| Contact.Check | src/pages/Contact.tsx:16-20 | one error exactly when the rule fails |
| Contact.Errors | src/pages/Contact.tsx:15-20 | no error exactly when name ≥ 2, email well formed, subject ≥ 5 and message ≥ 10 |
| Contact.ErrorsPerField | src/pages/Contact.tsx:15-20 | each field is flagged exactly when its own rule fails, with its own message |
| Contact.DefaultsRejected | src/pages/Contact.tsx:28-35 | the empty default form has at least three errors |
| Contact.ContactForm.constructor | src/pages/Contact.tsx:26-35 | default values, no errors, not submitting |
| Contact.ContactForm.SetValues | src/pages/Contact.tsx:133-191 | typing sets the values |
| Contact.ContactForm.BeginSubmit | src/pages/Contact.tsx:38-39 | ignored while submitting; else the errors are shown, and the form is sent and `isSubmitting` is set exactly when there are none |
| Contact.ContactForm.FinishSubmit | src/pages/Contact.tsx:50-51 | values back to the defaults, no errors, not submitting |
| Contact.SubmitScenario | src/pages/Contact.tsx:38-51 | a valid form is sent and ends empty and idle; an invalid one is not sent and keeps its values and errors |

## Left out

- Backend I/O. Every query, insert, update and delete, the user lookup and the realtime channel are inputs: a reply, a status, a user id, a profile lookup, an insert or update reply as a function of the fields sent.
- The query modifiers: the 20-row limit, the ordering by date and the `eq` filters are applied by the backend. The model takes whatever rows arrive.
- Concurrency: `Promise.all` in the fetches, the asynchronous `getUser().then` in the realtime callback, overlapping handlers. Each handler is one atomic step. Contact's `onSubmit` is split into two methods at its `await`.
- Toasts, `console` logging, writing the language to local storage, and `window.confirm`. The confirm answer is an input of `HandleDelete`.
- The `data` payload of notifications, cover images and audio URLs. The model does not use them.
- Relative timestamps (`formatDistanceToNow`), the "title" ordering (`localeCompare`) and the "recent" ordering (date parsing). Only the "episodes" ordering is modelled.
- Podcasts.SortByEpisodes: stability (podcasts with equal counts keep their catalogue order) is not stated, only the permutation and the order.
- Text.Lower: lower-cases ASCII letters only, not the rest of Unicode.
- Contact.Errors: the email rule is an input predicate, not zod's e-mail grammar. Lengths count code points, where zod counts UTF-16 units; they differ only for characters outside the Basic Multilingual Plane.
- PlaylistManager.FormatDuration: durations are natural numbers. Negative or fractional seconds, which the column type would allow, are not modelled.
- I18n.Translate: JavaScript prototype keys (such as `constructor`) are not modelled; the table is an ordinary map.
- CommentSection.ReadonlyStars: a stored rating of 0 makes React render the text "0" in place of the stars (`{comment.rating && …}`); the model shows nothing. The form never stores a 0 (it sends none instead), so only rows written by other clients could show it.
- The duration label of a playlist item: `{item.episodes?.duration && …}` likewise renders "0" for a zero duration; the model shows nothing.
- Notifications.NotificationStore.OnInsert: a row's `type` is taken as any string, as the code's unchecked cast does.
- The avatar initial and the loading texts of the comment section and playlist manager. These are presentation only.
- `AudioPlayer.tsx` (media element, floating-point time) is not part of this model. Neither are the presentation-only pages and components or `useNewsletter.ts`.
