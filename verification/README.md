# Student portal state model

A Dafny model of the client-side logic of a university student portal
written in React. The portal is a set of screens: an announcement feed, a
group chat and per-contact chats kept in the browser's local storage, a PDF
module viewer, a profile editor, the portal shell that switches between
screens, and a demo login against a hard-coded table. Several screens exist
in two versions, and both versions are modelled.

With browser I/O stripped away, every event handler is a pure function from
the component state (plus event data) to the new state:

- The clock (`Date.now()`, `toISOString`) becomes an integer or an opaque string parameter.
- Encoded file contents (`FileReader` data URLs) become opaque strings.
- Local storage becomes an explicit map, passed in and returned.
- A stored value is one of three datatype cases (module `Storage`):
  - `Serialized(items)` is an array the component wrote itself;
  - `NonArray(text)` is JSON of some other value (`null`, a number, a string, a boolean or an object);
  - `Unparsable(text)` is text that is not JSON.

The chat screens parse stored data without a `try`. An initialiser or a
reload effect fails on both kinds of bad value: `JSON.parse` throws, or the
render's `messages.map` does. A chat screen failing is a `None` result. In a
`storage` listener the two kinds differ:

- Unparsable text makes the listener throw, so the state stays unchanged.
- A non-array value is stored as the message list, and the next render fails (`None`).

Modules follow the source files:

- `Feed`: the handlers that behave the same in both feed versions. These are the passkey gate, comments and the liked-id loader. The code at src/MainContent.jsx:157-177 and 200-219 is equivalent to src/MainContent/MainContent.jsx:149-169 and 195-209 when events are handled one at a time. The older version uses functional updaters (`setPosts(prev => …)`) where the newer one reads the rendered `posts`.
- `PortalFeed` (src/MainContent/MainContent.jsx) and `LegacyFeed` (src/MainContent.jsx): the per-version loaders and like buttons.
- `RelativeTime`: both `timeAgo` helpers.
- `ChatLog`, `GroupChat` (src/components/chat/Chat.jsx) and `ConversationChat` (src/Chat/Chat.jsx): the chat logs.
- `ModuleViewer`: the PDF pager.
- `Profile`, `ProfileEditor` (src/ChatBar/ChatBar.jsx) and `LegacyProfileEditor` (src/ChatBar.jsx): the profile editors.
- `Portal`: the portal shell.
- `Login`: the demo login.

Where the design description and the code disagree, the model follows the code:

- A wrong posting passkey does not discard the draft. It only closes the passkey dialog, and the draft text and the typed key both stay (src/MainContent/MainContent.jsx:165-168).
- Loading a chat log is not fail-soft. Both chat screens call `JSON.parse` without a `try` (src/components/chat/Chat.jsx:26-29, src/Chat/Chat.jsx:15-18).
- No handler rejects non-image attachments. Only the file input's `accept="image/*"` attribute filters them, so no rejection path is modelled.

## Model

| member | source | states |
|---|---|---|
| `Strings.Trim` | src/MainContent/MainContent.jsx:196 | `trim()` yields a string no longer than the input whose first and last characters are not ECMAScript white space |
| `Strings.TrimIsSlice` | src/MainContent/MainContent.jsx:196 | the trimmed text is a contiguous slice of the input with only white space cut off on either side |
| `Strings.TrimEmptyIff` | src/components/chat/Chat.jsx:66 | `text.trim() === ""` holds exactly when every character of `text` is white space |
| `Strings.TrimIdempotent` | src/MainContent.jsx:201 | trimming an already trimmed comment changes nothing |
| `Strings.NatToStringRoundTrip` | src/MainContent/MainContent.jsx:43 | the decimal count printed in a label reads back as the same number, so distinct counts print differently |
| `Strings.NatToStringInjective` | src/MainContent/MainContent.jsx:43 | two counts that print the same are equal |
| `Storage.Get` | src/Chat/Chat.jsx:16 | `getItem` yields a value exactly when the key is present, and that value is the stored one |
| `Storage.Parse` | src/components/chat/Chat.jsx:56 | `saved ? JSON.parse(saved) : []`: an absent or empty slot gives the empty array without parsing; a serialized array parses to itself; other JSON gives a non-array; non-JSON text throws |
| `Storage.Read` | src/Chat/Chat.jsx:17 | an absent or empty slot gives the empty log; a serialized log gives itself; any other non-empty value makes the screen fail, because `JSON.parse` or the render's `messages.map` throws |
| `RelativeTime.PluralUnlessOne` | src/MainContent/MainContent.jsx:43-52 | a rendered label ends in "s ago" exactly when its count is not 1 |
| `RelativeTime.TimeAgoMinutes` | src/MainContent/MainContent.jsx:36-55 | "just now" exactly when the difference is negative or under one minute; each count is at least 1 and below its bucket's limit (60 minutes, 24 hours, 7 days, 4 weeks); older times yield the locale date of the timestamp itself |
| `RelativeTime.TimeAgoSeconds` | src/MainContent.jsx:36-59 | "just now" exactly when the difference is negative or under 60 seconds; otherwise a relative label or the locale date of the timestamp |
| `RelativeTime.MinutesMatchesBucket` | src/MainContent/MainContent.jsx:41-54 | the cascade of floor divisions equals the flat rule: minutes below 1 h, hours below 1 day, days below 1 week, weeks below 4 weeks, each the millisecond difference floored to its unit |
| `RelativeTime.SecondsMatchesBucket` | src/MainContent.jsx:42-58 | the seconds-first cascade equals the same flat rule |
| `RelativeTime.VariantsAgree` | src/MainContent.jsx:36-59 | for every integer millisecond difference both `timeAgo` versions produce the same label and the same text |
| `Feed.LoadLiked` | src/MainContent/MainContent.jsx:84-91 | the liked set holds exactly the stored ids, and is empty when the slot is absent or empty, does not parse, or holds a non-array |
| `Feed.LikedReloadIsStable` | src/MainContent/MainContent.jsx:84-109 | loading any array whose elements are exactly a set of ids gives back that set, whatever order `Array.from` wrote them in |
| `Feed.SubmitEnabledIff` | src/MainContent/MainContent.jsx:387 | the compose Submit button is enabled exactly when the draft is not all white space or an image is chosen |
| `Feed.ConfirmEnabledIff` | src/MainContent/MainContent.jsx:423 | the Confirm button is enabled exactly when the typed key is not all white space, so the right passkey always enables it |
| `Feed.SubmitDraft` | src/MainContent/MainContent.jsx:144-147 | the compose dialog closes and the passkey dialog opens; the draft, image and posts are carried over unchanged |
| `Feed.CancelAddPost` | src/MainContent/MainContent.jsx:393-397 | Cancel discards the draft and image, so a reopened dialog starts with Submit disabled; posts and the passkey dialog are untouched |
| `Feed.DismissAddPost` | src/MainContent/MainContent.jsx:350 | closing the compose dialog from its overlay keeps the draft and image, so Submit is as enabled on reopening as before |
| `Feed.CancelAuth` | src/MainContent/MainContent.jsx:429-432 | Cancel clears the typed key, so a reopened passkey dialog starts with Confirm disabled; posts and draft are untouched |
| `Feed.DismissAuth` | src/MainContent/MainContent.jsx:406 | closing the passkey dialog from its overlay keeps the typed key; posts and draft are untouched |
| `Feed.AuthSubmit` | src/MainContent/MainContent.jsx:149-169 | passkey "admin123": exactly one post goes in front of the unchanged posts, with the two `Date.now()` readings as id and stamp, user "You", the draft text and image, 0 likes and no comments; draft, key and image are cleared. Other passkeys: only the dialog closes, and posts, draft and key stay (same code at src/MainContent.jsx:157-177) |
| `Feed.GateOnlyPrepends` | src/MainContent/MainContent.jsx:144-432 | along any run of compose, attach, submit, cancel, dismiss, type-key and confirm events, the old posts stay in order at the end. Exactly one post is added per confirmation that goes through with the right key; controls of closed dialogs and disabled buttons do nothing |
| `Feed.PostingScenario` | src/MainContent/MainContent.jsx:144-169 | composing "hello" and confirming with a wrong key leaves the feed unchanged and keeps the draft and typed key; with "admin123" the feed gains exactly the post `{id, "You", "hello", 0 likes, no comments, no image, now}` at the front |
| `Feed.EditComment` | src/MainContent/MainContent.jsx:322-325 | only that post's input takes the typed text, and its Post button becomes enabled exactly when the text is not all white space |
| `Feed.CommentEnabledIff` | src/MainContent/MainContent.jsx:338 | the Post button is enabled exactly when the post's input is present and not all white space |
| `Feed.AddComment` | src/MainContent/MainContent.jsx:195-209 | a missing or blank input changes nothing. Otherwise `{user: "You", text: trimmed}` is appended to the comments of the posts with that id only, that input is cleared, and nothing else changes (same code at src/MainContent.jsx:200-219) |
| `Feed.AddCommentTwice` | src/MainContent/MainContent.jsx:195-208 | submitting the same comment box twice adds the comment once |
| `PortalFeed.LoadPosts` | src/MainContent/MainContent.jsx:69-82 | stored posts keep every field and any present `createdAt`, 0 and `null` included; an absent stamp becomes the clock reading taken while mapping that post. An absent, empty or unparsable slot gives the two sample posts stamped from the module-load clock |
| `PortalFeed.ReloadIsStable` | src/MainContent/MainContent.jsx:69-105 | persisting the loaded posts and loading them again, with any later module-load and per-post clock readings, gives back the same posts |
| `PortalFeed.AdjustLikes` | src/MainContent/MainContent.jsx:177-189 | only the `likes` of posts with the id change: +1 on like, `max(likes-1, 0)` on unlike; other posts are untouched |
| `PortalFeed.ToggleLike` | src/MainContent/MainContent.jsx:171-193 | the id's membership in the liked set flips and no other id changes membership; likes are adjusted in the direction of the flip; nothing else changes |
| `PortalFeed.LikeThenUnlike` | src/MainContent/MainContent.jsx:171-193 | like then unlike restores the whole state when the post's likes were not negative |
| `PortalFeed.UnlikeThenLike` | src/MainContent/MainContent.jsx:171-193 | unlike then like restores the whole state when the post had at least one like |
| `PortalFeed.UnlikeClampsAtZero` | src/MainContent/MainContent.jsx:179 | unliking a post with 0 likes leaves 0 |
| `PortalFeed.Without` | src/MainContent/MainContent.jsx:213 | a post survives the filter exactly when it was present and has another id |
| `PortalFeed.WithoutAppend` | src/MainContent/MainContent.jsx:213 | the filter commutes with concatenation, so the surviving posts keep their relative order |
| `PortalFeed.WithoutAbsent` | src/MainContent/MainContent.jsx:213 | filtering out an id no post has changes nothing |
| `PortalFeed.DeletePost` | src/MainContent/MainContent.jsx:211-224 | a declined confirmation changes nothing; otherwise the posts with the id are removed and the id leaves the liked set and the comment inputs, with nothing else changed |
| `PortalFeed.DeleteIdempotent` | src/MainContent/MainContent.jsx:211-224 | deleting the same id twice equals deleting it once |
| `LegacyFeed.LoadPosts` | src/MainContent.jsx:63-79 | stored posts keep every field and any non-zero stamp; an absent, `null` or zero stamp becomes the clock reading taken while mapping that post. An absent, empty or unparsable slot gives the sample posts stamped from the module-load clock |
| `LegacyFeed.ReloadIsStable` | src/MainContent.jsx:63-113 | persist-then-reload gives back the same posts when the module loaded more than two days after the epoch and no per-post reading of the first load is the epoch itself |
| `LegacyFeed.LoadersDisagreeOnZeroStamp` | src/MainContent.jsx:71 | a stored stamp of 0 is kept by the current feed's loader and replaced by the clock reading in this one |
| `LegacyFeed.Like` | src/MainContent.jsx:180-189 | an already-liked id changes nothing; otherwise the posts with that id gain exactly one like, the id joins the set, and nothing else changes |
| `LegacyFeed.LikeIdempotent` | src/MainContent.jsx:180-189 | liking twice equals liking once |
| `LegacyFeed.LikesNeverDecrease` | src/MainContent.jsx:180-189 | after any sequence of like clicks no post has fewer likes and the post list keeps its ids |
| `GroupChat.Mount` | src/components/chat/Chat.jsx:26-29 | an absent log mounts as the empty log; a stored log mounts as itself; unparsable text makes mounting fail |
| `GroupChat.OnStorage` | src/components/chat/Chat.jsx:53-59 | an event for "globalGroupChatMessages" replaces the log wholesale (a null or empty value gives the empty log); other keys leave the view unchanged; text that does not parse aborts the listener, leaving the view unchanged; a non-array JSON value makes the screen fail |
| `GroupChat.SendReachesOtherTab` | src/components/chat/Chat.jsx:53-79 | after tab A sends, the `storage` event another tab receives for the chat key makes that tab show exactly A's new log |
| `GroupChat.Send` | src/components/chat/Chat.jsx:65-82 | a whitespace-only input leaves view and storage unchanged. Otherwise exactly one text message with the untrimmed input and user "Rojan" is appended after the unchanged earlier messages, the stored log equals the new in-memory log, and the input and picker are reset |
| `GroupChat.SendMedia` | src/components/chat/Chat.jsx:91-102 | exactly one message with the given type and content is appended, and the stored log equals the new in-memory log |
| `GroupChat.PickEmoji` | src/components/chat/Chat.jsx:85-88 | the emoji is added at the end of the input and the picker closes |
| `GroupChat.SendThenLoad` | src/components/chat/Chat.jsx:68-79 | reading the key right after a send gives the in-memory log, whose last element is the sent message |
| `GroupChat.StepAppends` | src/components/chat/Chat.jsx:65-102 | each handler (typing, emoji, Send, media) appends exactly its own message, if any, after the unchanged log, moves the input on as the handler does, and rewrites the chat key with the new log exactly when it added a message |
| `GroupChat.RunAppendsInOrder` | src/components/chat/Chat.jsx:65-102 | any mix of typed-then-sent texts, emoji and media sends on one tab leaves the earlier log unchanged followed by every accepted send's message in send order; a blank send adds nothing; storage is untouched when nothing was sent, and otherwise holds exactly the in-memory log under the chat key, with all other keys unchanged |
| `GroupChat.StaleMediaDropsText` | src/components/chat/Chat.jsx:91-123 | a media callback created before a text send appends to the older `messages`, so the text message disappears from the view and from storage |
| `GroupChat.LastWriterWins` | src/components/chat/Chat.jsx:77-79 | if two tabs start from the same log and each sends, the second write replaces the first: the stored log has the second tab's message only |
| `ConversationChat.StorageKey` | src/Chat/Chat.jsx:11 | the key is the chat id followed by "GroupChatMessages" |
| `ConversationChat.StorageKeyInjective` | src/Chat/Chat.jsx:11 | distinct chat ids give distinct keys |
| `ConversationChat.GlobalKeyIsGroupChatKey` | src/Chat/Chat.jsx:11 | the "global" conversation uses the same key as the group chat screen (src/components/chat/Chat.jsx:9) |
| `ConversationChat.Username` | src/Chat/Chat.jsx:25 | the sender is the user's email when present and non-empty, otherwise "Guest" |
| `ConversationChat.FindIndex` | src/Chat/Chat.jsx:33 | the position found is that of the first contact with the id; none is found exactly when no contact has it |
| `ConversationChat.FindContact` | src/Chat/Chat.jsx:33 | the contact found is the first in the list with the id; none is found exactly when no contact has it |
| `ConversationChat.HeaderTitle` | src/Chat/Chat.jsx:91-96 | "Global Chat" for "global", else "name - role" of the matching contact, else "Unknown Contact" |
| `ConversationChat.HeaderTitleContact` | src/Chat/Chat.jsx:27-95 | "Contact2" is titled "YYYYY - MATH COORDINATOR" |
| `ConversationChat.HeaderTitleUnknown` | src/Chat/Chat.jsx:92-96 | every id other than "global" that no contact has is titled "Unknown Contact" |
| `ConversationChat.InfoTitle` | src/Chat/Chat.jsx:134 | the info dialog is titled "Global Chat Info", the contact's name, or "Contact Info" |
| `ConversationChat.Mount` | src/Chat/Chat.jsx:15-18 | an absent log mounts as empty; a stored one as itself; unparsable text makes mounting fail |
| `ConversationChat.SelectChat` | src/Chat/Chat.jsx:35-38 | a new selection reloads the log from the new key (empty when absent, failing on unparsable text) and keeps the typed input; reselecting the same chat changes nothing |
| `ConversationChat.OnStorage` | src/Chat/Chat.jsx:49-58 | only an event whose key equals the current derived key replaces the log; null or empty gives the empty log; other keys change nothing; text that does not parse aborts the listener; a non-array JSON value makes the screen fail |
| `ConversationChat.OtherConversationIgnored` | src/Chat/Chat.jsx:49-58 | a write to another conversation's log never changes the open conversation |
| `ConversationChat.Send` | src/Chat/Chat.jsx:60-74 | a blank input changes nothing. Otherwise one text message with the untrimmed input and `sender` set to the user name is appended, the log is stored under the derived key, and the input and emoji picker reset |
| `ConversationChat.SendReachesOtherTab` | src/Chat/Chat.jsx:49-71 | after one tab sends in a conversation, the `storage` event another tab showing that conversation receives makes it show the new log |
| `ConversationChat.SendKeepsOtherLogs` | src/Chat/Chat.jsx:71 | sending leaves every other conversation's stored log as it was |
| `ConversationChat.SendThenReselect` | src/Chat/Chat.jsx:35-71 | after sending, switching away and back shows the log just written |
| `ModuleViewer.OpenModule` | src/Modules/Modules.jsx:79-82 | opening a module selects it and resets the page to 1 |
| `ModuleViewer.Close` | src/Modules/Modules.jsx:84-87 | closing clears the module and the page count but not the page number |
| `ModuleViewer.DocumentLoaded` | src/Modules/Modules.jsx:89-91 | only the page count changes, and a document still loading on page 1 stays in range for any count of at least one |
| `ModuleViewer.PreviousDisabled` | src/Modules/Modules.jsx:138 | Previous is disabled exactly where clicking it would change nothing, and an enabled click moves back one page |
| `ModuleViewer.NextDisabled` | src/Modules/Modules.jsx:147 | once the count is known, Next is disabled exactly where clicking it would change nothing; while the count is unknown it is disabled on every page; an enabled click moves on one page |
| `ModuleViewer.Previous` | src/Modules/Modules.jsx:137 | the page becomes `max(page-1, 1)`, never below 1 |
| `ModuleViewer.Next` | src/Modules/Modules.jsx:146 | the page becomes `min(page+1, numPages)`, never above the count (an unknown count acts as 0) |
| `ModuleViewer.NextInertWhileUnknown` | src/Modules/Modules.jsx:147 | while the page count is unknown, Next is disabled on every page ≥ 1 |
| `ModuleViewer.NextThenPrevious` | src/Modules/Modules.jsx:136-147 | from a page below the count, Next then Previous returns to the same page |
| `ModuleViewer.StepPreservesConsistent` | src/Modules/Modules.jsx:79-148 | every event that can happen keeps the page ≥ 1, keeps it ≤ the count once known, and keeps it at 1 while the opened document is still loading |
| `ModuleViewer.RunKeepsPageInRange` | src/Modules/Modules.jsx:136-148 | any session of events keeps the page within `[1, numPages]`, with disabled buttons inert |
| `ModuleViewer.ReachableStatesConsistent` | src/Modules/Modules.jsx:12-14 | starting from no module, unknown count and page 1, every reachable state keeps the page in range |
| `Profile.SetField` | src/ChatBar/ChatBar.jsx:22-25 | the named field takes the value; the other fields and the picture are kept |
| `ProfileEditor.OpenEditor` | src/ChatBar/ChatBar.jsx:16-20 | opening copies the profile into the draft and its picture into the preview |
| `ProfileEditor.Change` | src/ChatBar/ChatBar.jsx:22-25 | only the named draft field changes |
| `ProfileEditor.PickFile` | src/ChatBar/ChatBar.jsx:28-37 | a chosen file changes only the preview: Save then commits it as the picture, while Cancel keeps the old picture |
| `ProfileEditor.Save` | src/ChatBar/ChatBar.jsx:40-43 | the profile becomes the draft with its picture replaced by the preview |
| `ProfileEditor.Cancel` | src/ChatBar/ChatBar.jsx:45-47 | cancelling closes the dialog and leaves the profile unchanged |
| `ProfileEditor.SaveAfterOpen` | src/ChatBar/ChatBar.jsx:16-43 | saving right after opening commits the profile unchanged |
| `ProfileEditor.UiNeverChangesId` | src/ChatBar/ChatBar.jsx:107-116 | with the id input disabled, no sequence of dialog interactions changes `profile.id` |
| `ProfileEditor.IdFixedFromStart` | src/ChatBar/ChatBar.jsx:5-10 | from the initial profile the id stays "23–22–003" |
| `ProfileEditor.CancelledPictureStillShown` | src/ChatBar/ChatBar.jsx:56-61 | as written: open, choose a picture, cancel — the bar still shows the discarded picture |
| `ProfileEditor.ShownPicFollowsCommits` | src/ChatBar/ChatBar.jsx:40-47 | corrected: the bar shows the committed picture; Cancel and choosing a file never change it, and Save shows the preview |
| `LegacyProfileEditor.OpenEditor` | src/ChatBar.jsx:19-22 | opening copies the current profile into the draft |
| `LegacyProfileEditor.Change` | src/ChatBar.jsx:25-28 | only the named draft field changes, and the id is one of the editable fields |
| `LegacyProfileEditor.Save` | src/ChatBar.jsx:31-34 | saving makes the profile equal the draft |
| `LegacyProfileEditor.Cancel` | src/ChatBar.jsx:37-39 | cancelling leaves the profile unchanged |
| `LegacyProfileEditor.SaveAfterOpenIsIdentity` | src/ChatBar.jsx:19-34 | a save right after opening leaves the profile as it was |
| `LegacyProfileEditor.EditThenSave` | src/ChatBar.jsx:88-96 | open, change any field (the id included), save: that field takes the value and the others are kept |
| `LegacyProfileEditor.EditThenCancel` | src/ChatBar.jsx:19-39 | open, edit, cancel leaves the profile unchanged |
| `Portal.ToggleSidebar` | src/UdmePortal/StudentPortal.jsx:29-31 | the sidebar flag flips and nothing else changes |
| `Portal.ToggleTwice` | src/UdmePortal/StudentPortal.jsx:29-31 | toggling twice is the identity |
| `Portal.SelectChat` | src/UdmePortal/StudentPortal.jsx:33-36 | the menu becomes "Messages" and the chat the given id |
| `Portal.SelectMenu` | src/UdmePortal/StudentPortal.jsx:57-65 | Home, Messages or Modules becomes the menu, resets the chat to "global" and closes the notice; any other entry only opens the notice |
| `Portal.GradesOpensNotice` | src/Sidebar/SideBar.jsx:30 | the sidebar's "Grades" entry only opens the notice |
| `Portal.CloseNotice` | src/UdmePortal/StudentPortal.jsx:91-99 | the overlay or Close button closes only the notice; menu, chat, sidebar and the rendered screen stay |
| `Portal.ContentToRender` | src/UdmePortal/StudentPortal.jsx:51-67 | Messages shows the chat for the selected conversation, Modules the viewer, anything else falls back to Home |
| `Portal.MenuAlwaysHasScreen` | src/UdmePortal/StudentPortal.jsx:33-67 | from a menu with a screen, any event sequence keeps the menu a key of the screen map, so Home is rendered only when selected |
| `Portal.ReachableMenusHaveScreens` | src/UdmePortal/StudentPortal.jsx:15-18 | from the initial state (Home, "global", sidebar open, notice closed) the menu always has a screen |
| `Login.HandleChange` | src/Login.jsx:13-15 | only the named form field takes the value |
| `Login.FindUser` | src/Login.jsx:21-23 | the position found is the first entry matching both username and password; none is found exactly when no entry matches |
| `Login.Submit` | src/Login.jsx:17-32 | success exactly when some entry matches both fields. On success, the first match's `{id, username, email}` (no password) is stored and passed on, and the error is empty. On failure the error is "Invalid username or password" and the stored session is unchanged |
| `Login.SubmitForm` | src/Login.jsx:40-58 | with either input empty the `required` check blocks the submit and nothing changes; otherwise the handler runs. Login succeeds exactly when some entry matches |
| `Login.BlockedSubmitKeepsError` | src/Login.jsx:19-56 | a submit blocked by an empty field leaves the old error, where the handler would show "Invalid username or password" |
| `Login.DemoUserLogsIn` | src/Login.jsx:4-7 | "demoUser"/"demo123" logs in as user 1 |
| `Login.MixedCredentialsRefused` | src/Login.jsx:21-31 | a valid username with another account's password is refused |
| `Login.ErrorResetOnEverySubmit` | src/Login.jsx:19 | after any attempt, a retry with good credentials ends with no error |

## Findings

| source | as written | input that shows it | evidently intended | confidence | as-written member | corrected member |
|---|---|---|---|---|---|---|
| src/ChatBar/ChatBar.jsx:56-61 | the profile bar draws its avatar from the dialog's unsaved preview | open the editor, choose a picture, press Cancel: the bar shows the chosen picture while the saved profile keeps the old one | the bar shows the committed `profile.pic`, which changes only on Save | medium, not executed | `ProfileEditor.CancelledPictureStillShown` | `ProfileEditor.ShownPicFollowsCommits` |

## Left out

- File reading, camera and microphone capture and the 5-second recording timer (src/components/chat/Chat.jsx:105-128,205-258, src/ChatBar/ChatBar.jsx:28-37, src/MainContent/MainContent.jsx:135-142): browser APIs. Their encoded results enter the model as opaque strings, and a failed capture produces no message.
- JSON text is not modelled character by character. A stored array whose elements have the wrong shape is not distinguished from a well-formed one, and a `createdAt` that is a string or boolean is not modelled.
- Feed.LoadLiked: a stored JSON string makes `new Set` collect its characters. The model gives the empty set, because the liked set holds numeric ids.
- GroupChat.SendMedia: this is the handler applied to the log current at the call. The recorder and file-reader callbacks (src/components/chat/Chat.jsx:115-123, 221, 245) hold the `messages` of the render that created them. A text sent while a recording or file read is pending is then overwritten, in the view and in storage. `GroupChat.StaleMediaDropsText` exhibits this lost update.
- Local-storage write failures (quota) are not modelled. The feed's persistence effects are represented only by storing `Serialized(posts)` in the reload lemmas.
- Trim uses the ECMAScript white-space and line-terminator set as a fixed list of code points. There is no Unicode normalisation.
- PortalFeed.MockPosts and LegacyFeed.MockPosts: the module reads the clock once per sample post (src/MainContent/MainContent.jsx:18,30 and src/MainContent.jsx:17,28). The model uses one module-load reading `loadedAt` for both samples, because nothing depends on the few milliseconds between them.
- The clocks are parameters. Post and message ids come from `Date.now()`, and nothing is claimed about their uniqueness.
- Cross-tab concurrency is modelled only as sequential handling of events. `GroupChat.LastWriterWins` shows one interleaving.
- The carousel, the minute tick that re-renders relative times, the theme toggles, the group-info and emoji-picker dialogs, scrolling and all markup are rendering only. The same goes for src/Sidebar.jsx and src/App.jsx.
- The portal mounts the conversation chat without a `currentUser` (src/UdmePortal/StudentPortal.jsx:53), so the sender there is always "Guest". The model keeps the user as a parameter.
- The portal passes `onSelectChat` to the profile bar (src/UdmePortal/StudentPortal.jsx:87), but src/ChatBar/ChatBar.jsx:4 declares `ChatBar()` without props. So nothing calls `handleSelectChat` in the code shown, and `Portal.SelectChat` models a handler that cannot currently be reached.
- Logout, the Firebase sign-in and sign-up forms and session subscription (src/UdmePortal/StudentPortal.jsx:22-27,38-49, src/Login/Login.jsx, src/Login/LoginForm.jsx): calls into an external identity SDK.
- The browser's `required` check is modelled only as "an empty input blocks the submit" (`Login.SubmitForm`). Its validation message is not modelled.
- Menu names that are inherited `Object.prototype` properties are not modelled. The sidebar only passes its four fixed labels (src/Sidebar/SideBar.jsx:30).
- `Portal.ContentToRender`: no other portal handler needs it. Its fallback to Home is unreachable from the start, as `Portal.ReachableMenusHaveScreens` shows.
- backend/core/models.py is not part of this model. Its slug loop cannot run as written, and it depends on a database query and a `slugify` helper that are not shown.
- The react-pdf document rendering is external. Only the page count it reports is modelled, as an event.
