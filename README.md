# Legends registry core in Dafny

This project models the data core of a single-page React site for a media
studio. The site stores two record collections in the browser's
`localStorage`:

- **portfolio items**: videos and images, owned by the `App` component;
- **leads**: entries written by the public contact form and managed in the
  admin console ("AdminHub").

It covers four source files:

- `App.tsx`: the built-in default items, the load of the stored collection
  with its title-keyed self-healing migration of stale thumbnails, and the
  effect that writes the collection back on every change.
- `components/AdminHub.tsx`: the bounded audit log, the lead load with its
  status back-fill, the upload size gate, item delete, lead status update
  and delete, save validation with the simulated deploy ticker, the create
  and edit paths of `finalizeSave`, and the lead search/status view.
- `components/Portfolio.tsx`: `getEmbedUrl` and the share links of
  `shareOnSocial`. `getEmbedUrl` turns a YouTube or Vimeo page address into
  the provider's player address.
- `components/ContactForm.tsx`: `validate` and `handleSubmit`.

Modules:

- `Wrappers`: `Option`.
- `Text`: the JavaScript string operations used. These are `trim`,
  `includes`, `toLowerCase`, integer-to-text, and the ECMAScript whitespace
  and line-terminator classes.
- `Records`: the entities and the `LocalStorage` class, one `map` from key to
  decoded value shared by every component.
- `App`: `App.tsx`.
- `Registry`: the pure functions of `AdminHub.tsx`.
- `AdminHub`: the component as a class. Each `useState` variable is a field.
  Each handler is a method whose `modifies` clause names the state it sets.
- `Portfolio`: `Portfolio.tsx`. The two regular expressions are explicit
  matchers with JavaScript `match` semantics:
  - the leftmost matching position wins;
  - at that position the alternatives are tried in order;
  - greedy quantifiers are tried from their longest extent down;
  - every literal in the two patterns is ASCII, and against an ASCII literal
    the `i` flag folds only the ASCII letters.
- `ContactForm`: `ContactForm.tsx`.

Collaborators the model takes as parameters:

- the stored text, as its decoded `Records.Value`, where the wrong shape counts
  as `Unparsable`. The empty list has two values, `ItemList([])` and
  `LeadList([])`; both readers, `Records.AsItems` and `Records.AsLeads`, accept
  either as their own empty list;
- the clock, as `time`, `date` and `now` strings and integers;
- `window.location.origin` and `pathname`;
- `encodeURIComponent`, as the function `encode`;
- the selected file, as `Registry.FileInfo` (name and size);
- the `FileReader` result text;
- the formatted kilobyte label.

`window.open` becomes the result of `Portfolio.ShareTarget`. The clipboard
write is not modelled (see "Left out").

In the following places the code does not do what the site's records are
meant to do. The model follows the code each time:

- An edit is meant to re-validate the merged record, trimming its fields and
  re-deriving the `type` tag from `isVideo`, as a create does. The code stores
  the edit buffer as it is.
- An edit of an id that is not in the collection is meant to fail as not
  found. The code has no error path, and such an edit changes nothing
  (`Registry.ReplaceAbsentIdIsNoOp`).
- A stored item is meant to have a video source exactly when it is a video.
  The edit path validates the edit buffer and stores it unchanged, so a stored
  item can end up with `isVideo` false and a non-empty `videoUrl`. This
  invariant (`Registry.WellFormed`) is therefore proved for created items
  only.
- A malformed stored list is meant to be dropped silently at load time. The
  lead loads do not fall back: `loadLeads` and `handleSubmit` throw in
  `JSON.parse`. The model reports this case as `ok == false` and as
  `ReadFailed`, with no further state change.
- A video item is meant to be refused with a message when its video source is
  empty. The default image item has no `videoUrl` field at all (`videoUrl` is
  `None` in `App.DefaultItems`). If that item is edited and switched to
  video, the third save check calls `trim` on `undefined` and throws instead.
  No message is shown and nothing is saved. The model gives this outcome as
  `Registry.SaveCheck.Throws`; only an edit can reach it
  (`AdminHub.OnlyAnEditCanThrow`).
- A saved record is meant to load back as it was saved. The migration at
  App.tsx:54-62 instead rewrites the thumbnail of any item titled like one of
  the three seeded items whenever that thumbnail lacks `unsplash`. An
  uploaded thumbnail is a `data:` URL (AdminHub.tsx:145-151 and 161), so an
  uploaded image for such a title, created or edited, is replaced by the
  seeded thumbnail on the next load
  (`AdminHub.UploadedThumbnailRevertsOnReload`). A stored collection loads
  back unchanged exactly when none of its items has a stale thumbnail for
  its title (`App.ReloadUnchangedIffFresh`).
- An empty stored text is treated like a missing key by `if (saved)`. The
  model has no empty stored text: a value is present or absent.

## Model

| member | source | states |
|---|---|---|
| Records.LocalStorage.constructor | App.tsx:24 | the store starts with the given entries |
| Records.LocalStorage.SetItem | App.tsx:73 | `setItem` replaces the value under one key and no other entry |
| Records.ListsReadBack | App.tsx:49-51 | whatever list a collection writes (`ItemList` under the portfolio key, `LeadList` under the leads key, as the `JSON.stringify` writes at App.tsx:73 and AdminHub.tsx:174 and 183 pair with the `JSON.parse` reads at App.tsx:51 and AdminHub.tsx:107) reads back unchanged through `Records.AsItems` and `Records.AsLeads` |
| Records.OnlyEmptyListReadsAsBoth | components/AdminHub.tsx:105-107 | only the empty list, in either of its two forms, reads as both kinds, and then as the empty list of each; a value reads as neither kind exactly when it cannot be decoded; a value fails as portfolio items exactly when it is undecodable or a non-empty lead list |
| App.MigrateItem | App.tsx:53-64 | the migration changes only `url`; it leaves items with other titles unchanged; a changed `url` is the canonical thumbnail of the item's known title |
| App.Migrate | App.tsx:53-64 | the pass keeps the length and migrates each position independently |
| App.InitialItems | App.tsx:23-70 | nothing stored, or a value that does not decode to a list, gives `App.DefaultItems`; a stored list gives one item per stored item, each with everything but its thumbnail kept |
| App.StoredEmptyListLoadsNoItems | App.tsx:49-64 | the stored text `[]` loads as no items, whichever collection wrote it |
| App.DefaultsOnMissingOrMalformed | App.tsx:49-69 | with no stored value, or one that does not decode to a list, the three defaults of `App.DefaultItems` (ids 1, 2, 3, lines 25-47) are used |
| App.MigrateItemHealsExactlyStale | App.tsx:54-62 | a known title's thumbnail is replaced exactly when its own stale condition holds (`App.IsStale`, the three conditions at lines 54, 57 and 60); the replacement is that title's canonical thumbnail (`App.CanonicalUrl`, lines 55, 58 and 61) |
| App.CanonicalUrlsOnHost | App.tsx:30-44 | every canonical thumbnail mentions the image host |
| App.SkylineUrlLacksStaleMarker | App.tsx:36 | the canonical Skyline thumbnail does not mention the photo id that marks a stale Skyline thumbnail |
| App.EmberUrlLacksStaleMarker | App.tsx:44 | the canonical Ember thumbnail does not mention the superseded photo id |
| App.CanonicalUrlsAreFresh | App.tsx:54-62 | no canonical thumbnail meets its own title's stale condition |
| App.MigrateItemIdempotent | App.tsx:53-64 | migrating an item twice is migrating it once |
| App.MigrateIdempotent | App.tsx:53-64 | a second migration pass over a collection changes nothing |
| App.DefaultsAreMigrated | App.tsx:25-47 | the default items are already healed |
| App.ReloadIsStable | App.tsx:23-74 | writing the loaded collection back and loading again gives the same collection |
| App.MigrateItemFixedIffFresh | App.tsx:53-63 | the migration leaves an item unchanged exactly when it is not a seeded title with a stale thumbnail |
| App.ReloadUnchangedIffFresh | App.tsx:49-64 | a stored collection loads back unchanged exactly when none of its items is a seeded title whose thumbnail is stale |
| AdminHub.UploadedThumbnailRevertsOnReload | App.tsx:59-60 | saving an edit of the Ember item with an uploaded `data:` thumbnail stores that thumbnail, and the next load replaces it by the seeded one |
| App.AppState.constructor | App.tsx:23-74 | the initial collection is the defaults or the migrated stored list; the first effect run writes it back, so the store mirrors it |
| App.AppState.SetPortfolioItems | App.tsx:72-74 | after every change the store holds exactly the new collection under the portfolio key, and nothing else in the store changes |
| Registry.PushLog | components/AdminHub.tsx:94-101 | the new entry comes first, then the newest previous ones, at most ten in all |
| Registry.LogKeepsNewestFirst | components/AdminHub.tsx:94-101 | after any sequence of entries the log holds the ten most recent, newest first |
| Registry.BackfillStatus | components/AdminHub.tsx:108 | applies `Registry.BackfillLead` to each lead: the order and every field except `status` are kept; a missing status becomes `new`; a present one is kept |
| Registry.BackfillIdempotent | components/AdminHub.tsx:108 | loading an already back-filled list back-fills nothing more |
| Registry.BackfillGivesEveryLeadAStatus | components/AdminHub.tsx:108 | after the back-fill every lead has a status |
| Registry.Select | components/AdminHub.tsx:234 | `filter` keeps no more elements than it is given |
| Registry.SelectMembers | components/AdminHub.tsx:234 | `filter` keeps an element exactly when it is in the input and passes |
| Registry.SelectConcat | components/AdminHub.tsx:234 | filtering distributes over concatenation, so relative order is kept |
| Registry.SelectEverything | components/AdminHub.tsx:234 | when every element passes, `filter` returns the input unchanged |
| Registry.Position | components/AdminHub.tsx:401 | the element at filtered index `row` sits at a stored position that passes and has exactly `row` kept elements before it |
| Registry.PositionIncreasing | components/AdminHub.tsx:401 | later filtered indices come from later stored positions |
| Registry.PositionOfKept | components/AdminHub.tsx:401 | every kept element appears at the filtered index that counts the kept elements before it |
| Registry.FilterLeads | components/AdminHub.tsx:233-240 | the view lists exactly the leads that match the case-insensitive search on name or handle and the status filter, drawn from the stored list |
| Registry.FilterEverything | components/AdminHub.tsx:233-240 | the empty search with the `all` filter lists every lead, in order |
| Registry.RowIndex | components/AdminHub.tsx:401-447 | row `row` of the lead table shows the stored lead at this position; that lead is listed, with exactly `row` listed leads before it |
| Registry.RowIndexIncreasing | components/AdminHub.tsx:401-447 | a later table row shows a lead stored later |
| Registry.EveryShownLeadHasItsRow | components/AdminHub.tsx:401-447 | every listed lead is shown in exactly one computed row |
| Registry.RowTargetAsWritten | components/AdminHub.tsx:428 | as written, the row handlers receive the row number itself, which is a valid stored position |
| Registry.AsWrittenRowTargetRightWithoutFilter | components/AdminHub.tsx:428 | with no search and the `all` filter, the row number is the right stored position |
| Registry.AsWrittenRowTargetWrongUnderFilter | components/AdminHub.tsx:428 | with the `contacted` filter active, row 0 shows one lead while the as-written handler targets another |
| Registry.ReplaceById | components/AdminHub.tsx:211 | the edit keeps the length; every position holding the edited id gets the edited item; every other position is unchanged |
| Registry.ReplaceKeepsIds | components/AdminHub.tsx:211 | an edit keeps every position's id |
| Registry.ReplaceAbsentIdIsNoOp | components/AdminHub.tsx:211 | editing an id that is not present changes nothing |
| Registry.RemoveById | components/AdminHub.tsx:166 | the result holds exactly the items whose id differs |
| Registry.RemoveByIdConcat | components/AdminHub.tsx:166 | removal distributes over concatenation, so the remaining items keep their order |
| Registry.RemoveAbsentIdIsNoOp | components/AdminHub.tsx:166 | deleting an absent id is a no-op |
| Registry.RemoveByIdIdempotent | components/AdminHub.tsx:166 | deleting the same id twice is deleting it once |
| Registry.FindTitle | components/AdminHub.tsx:165 | returns nothing exactly when no item has the id; otherwise the title of the first item with it |
| Registry.CheckSaveReportsFirstFailure | components/AdminHub.tsx:193-195 | about `Registry.CheckSave`: each error is reported exactly when its check fails and every earlier check passes (title, then thumbnail, then video source for a video); the third check throws exactly when a video has no `videoUrl` field; the save passes exactly when all pass |
| Registry.CreatedItemIsWellFormed | components/AdminHub.tsx:215-224 | about `Registry.NewItem`: a buffer that passes validation yields an item with the given id, a non-empty trimmed title and thumbnail, a video source exactly for a video, the derived type tag and status `active` |
| AdminHub.LoadedLeads | components/AdminHub.tsx:105-109 | the load fails (the `JSON.parse` or `map` throw) exactly when a stored value does not read as a lead list; nothing stored keeps the current list; a stored list keeps its length, its order and every field but the status, every lead gets a status, and a status already present is kept |
| AdminHub.StoredEmptyListLoadsNoLeads | components/AdminHub.tsx:105-109 | the stored text `[]` empties the lead list, whichever collection wrote it |
| AdminHub.SaveTarget | components/AdminHub.tsx:191 | `editingItem \|\| newItem` lacks a video source exactly when an edit is open on an item with no `videoUrl` field, because the new-item buffer always holds one (lines 80-86) |
| AdminHub.SaveTargetIgnoresDraftWhileEditing | components/AdminHub.tsx:191 | while an edit is open the new-item buffer plays no part: the checked title, thumbnail and video flag are the edited item's |
| AdminHub.OnlyAnEditCanThrow | components/AdminHub.tsx:191-195 | the `trim` of a missing `videoUrl` can throw only while an edit is open, on a video item with no `videoUrl` field |
| AdminHub.CreatePrependsOne | components/AdminHub.tsx:215-225 | about `AdminHub.SavedItems` in create mode: a create puts exactly one well-formed item first and keeps the existing items after it |
| AdminHub.EditReplacesInPlace | components/AdminHub.tsx:210-211 | about `AdminHub.SavedItems` in edit mode: an edit keeps the length and every id, and the edited item sits where its id was |
| AdminHub.AdminHub.constructor | components/AdminHub.tsx:67-86 | the `useState` initial values; the log is bounded |
| AdminHub.AdminHub.AddLog | components/AdminHub.tsx:94-101 | one entry is pushed onto the bounded log and nothing else changes |
| AdminHub.AdminHub.LoadLeads | components/AdminHub.tsx:103-109 | the refresh flag is raised; a missing value leaves the list; a value that reads as a lead list (`Records.AsLeads`, which counts the text `[]` as one) is back-filled and becomes the list; any other stored value makes the load fail without touching the list |
| AdminHub.AdminHub.FinishRefresh | components/AdminHub.tsx:110-113 | the refresh flag drops and the synchronisation entry is logged |
| AdminHub.AdminHub.Mount | components/AdminHub.tsx:116-119 | the leads are loaded, then the start-up entry is logged unless the load threw |
| AdminHub.AdminHub.HandleFileUpload | components/AdminHub.tsx:121-136 | no file is a no-op; a file over 2 MiB sets the size error, logs a critical entry and changes neither buffer; any other file starts the upload at progress 0 and logs its name |
| AdminHub.AdminHub.OnFileLoaded | components/AdminHub.tsx:145-151 | the data URL becomes the thumbnail of the edit buffer when editing, else of the new-item buffer; the other buffer is unchanged |
| AdminHub.AdminHub.OnUploadSettled | components/AdminHub.tsx:154-158 | the upload ends, progress resets, and the cached entry is logged |
| AdminHub.AdminHub.HandleDeleteItem | components/AdminHub.tsx:164-168 | every item with the id goes and the rest keep their order; the store mirrors the result; the log names the first such item's title, or `undefined` |
| AdminHub.AdminHub.UpdateLeadStatus | components/AdminHub.tsx:170-176 | only the lead at the index changes, and only its status; the list is stored; the log names the lead and the new status |
| AdminHub.AdminHub.HandleDeleteLead | components/AdminHub.tsx:178-185 | exactly the lead at the index goes and the others keep their order; the list is stored; a critical entry names the lead |
| AdminHub.AdminHub.UpdateLeadStatusAtRow | components/AdminHub.tsx:428 | corrected row handler: changes the status of the lead the row shows, stores the list and logs that lead's name and new status |
| AdminHub.AdminHub.HandleDeleteLeadAtRow | components/AdminHub.tsx:447 | corrected row handler: deletes the lead the row shows, stores the list and logs that lead's name as critical |
| AdminHub.AdminHub.FinalizeEdit | components/AdminHub.tsx:210-213 | the edited item replaces its id; the store mirrors it; edit mode ends and progress resets |
| AdminHub.AdminHub.FinalizeCreate | components/AdminHub.tsx:215-229 | the new item goes first; the store mirrors it; the buffer is reset and progress resets |
| AdminHub.AdminHub.FinalizeSave | components/AdminHub.tsx:209-230 | the edited or created item is stored (`AdminHub.SavedItems`) and logged (`AdminHub.SaveLogAction`); edit mode ends; the buffer is reset only on create |
| AdminHub.AdminHub.HandleSaveItem | components/AdminHub.tsx:187-231 | the error is cleared; a rejected check sets its message and changes nothing else; a check that throws leaves the error cleared and changes nothing else; a passing save ticks 5, 10, …, 100 and finalizes exactly once, on the tick that reaches 100 |
| AdminHub.AdminHub.BeginEdit | components/AdminHub.tsx:678 | the card's item becomes the edit buffer |
| AdminHub.AdminHub.CancelEdit | components/AdminHub.tsx:631 | edit mode ends |
| AdminHub.AdminHub.CopyToClipboard | components/AdminHub.tsx:89-92 | the copy is logged with the copied text |
| AdminHub.AdminHub.SetSearchQuery | components/AdminHub.tsx:368 | the search text is set |
| AdminHub.AdminHub.SetLeadFilter | components/AdminHub.tsx:377 | the status filter is set |
| Portfolio.LineEnd | components/Portfolio.tsx:32 | `.` runs up to the first line terminator |
| Portfolio.DigitEnd | components/Portfolio.tsx:40 | the maximal run of `\d` |
| Portfolio.WordEnd | components/Portfolio.tsx:40 | the maximal run of `\w` or `[\w-]` |
| Portfolio.FirstSlash | components/Portfolio.tsx:32 | `[^\/]+` ends at the first `/` |
| Portfolio.Leftmost | components/Portfolio.tsx:33 | `match` finds the first position where the pattern matches; none before it matches |
| Portfolio.LastSlashBeforeId | components/Portfolio.tsx:32 | greedy `.+` backtracks to the last `/` that is followed by an id |
| Portfolio.LastParamBeforeId | components/Portfolio.tsx:32 | greedy `.*` backtracks to the last `?v=` or `&v=` that is followed by an id |
| Portfolio.PathThenId | components/Portfolio.tsx:32 | the first alternative after the host captures an 11-character id |
| Portfolio.PrefixThenId | components/Portfolio.tsx:32 | the `v/`, `embed/`, `e/` and `shorts/` alternatives capture an id |
| Portfolio.QueryThenId | components/Portfolio.tsx:32 | the query alternative captures an id |
| Portfolio.YouTubeAt | components/Portfolio.tsx:32 | a match at a position starts with one of the two hosts, ignoring case, and captures an id |
| Portfolio.DigitsAt | components/Portfolio.tsx:40 | `(\d+)` captures the maximal non-empty digit run |
| Portfolio.RunEnd | components/Portfolio.tsx:40 | a group's repeated class stays within the text |
| Portfolio.Group | components/Portfolio.tsx:40 | a path group ends within the text |
| Portfolio.VimeoPathThenDigits | components/Portfolio.tsx:40 | the optional group, alternatives in order with the empty one last, is followed by a digit run |
| Portfolio.VimeoAt | components/Portfolio.tsx:40 | a match starts with `vimeo.com/` or `player.vimeo.com/video/`, ignoring case, and captures digits |
| Portfolio.Resolve | components/Portfolio.tsx:32-46 | a YouTube result is an 11-character id taken from the address; a Vimeo result is a non-empty digit run taken from it |
| Portfolio.EmbedUrl | components/Portfolio.tsx:29 | the empty address gives the empty text |
| Portfolio.LitAtChar | components/Portfolio.tsx:32 | a case-insensitive literal match equates each character |
| Portfolio.LitAtHead | components/Portfolio.tsx:32 | a literal matches only where its first character does |
| Portfolio.YouTubeAtNeedsY | components/Portfolio.tsx:32 | the YouTube pattern matches only at a `y` or `Y` |
| Portfolio.NoYouTubeWithoutY | components/Portfolio.tsx:32 | no YouTube match starts in a stretch without `y` |
| Portfolio.IdAfterPrefix | components/Portfolio.tsx:32 | an id appended to any address is matched by the id class |
| Portfolio.FindYouTubeFinds | components/Portfolio.tsx:32-34 | about `Portfolio.FindYouTube`, the `url.match` at line 33: the search fails exactly when the pattern matches at no position |
| Portfolio.FindVimeoFinds | components/Portfolio.tsx:40-42 | about `Portfolio.FindVimeo`, the `url.match` at line 41: the search fails exactly when the pattern matches at no position |
| Portfolio.YouTubeTakesPrecedence | components/Portfolio.tsx:32-43 | when the YouTube pattern matches anywhere, the YouTube player address is returned and Vimeo is not consulted |
| Portfolio.UnmatchedExactlyWithoutMatch | components/Portfolio.tsx:32-47 | the address resolves to nothing exactly when neither pattern matches anywhere, and then it is returned unchanged |
| Portfolio.YouTubeAtViaQuery | components/Portfolio.tsx:32 | when the first two alternatives after the host fail, the query alternative decides |
| Portfolio.WatchHost | components/Portfolio.tsx:32 | a `watch?v=` address has the host at position 12 |
| Portfolio.WatchNoPath | components/Portfolio.tsx:32 | the path alternative fails on a `watch?v=` address |
| Portfolio.WatchNoPrefix | components/Portfolio.tsx:32 | the prefix alternatives fail on a `watch?v=` address |
| Portfolio.WatchQuery | components/Portfolio.tsx:32 | the query alternative captures the id after `?v=` |
| Portfolio.WatchMatchesAtHost | components/Portfolio.tsx:32 | a `watch?v=` address matches at its host |
| Portfolio.WatchFoundAtHost | components/Portfolio.tsx:32-33 | the leftmost YouTube match of a `watch?v=` address is at its host |
| Portfolio.EmbedsYouTubeHit | components/Portfolio.tsx:33-36 | a YouTube match embeds the captured id into the template `Portfolio.YouTubeEmbed` (line 36), with the origin |
| Portfolio.WatchAddressEmbeds | components/Portfolio.tsx:28-36 | a `watch?v=` address is embedded by its id |
| Portfolio.ShortHasNoLongHost | components/Portfolio.tsx:32 | a `youtu.be/` address has no `youtube.com/` at its host position |
| Portfolio.ShortMatchesAtHost | components/Portfolio.tsx:32 | a `youtu.be/` address matches at its host through the short alternative |
| Portfolio.ShortFoundAtHost | components/Portfolio.tsx:32-33 | the leftmost YouTube match of a `youtu.be/` address is at its host |
| Portfolio.ShortAddressEmbeds | components/Portfolio.tsx:28-36 | a `youtu.be/` address is embedded by its id |
| Portfolio.WatchAndShortAgree | components/Portfolio.tsx:28-36 | the `watch?v=` and `youtu.be/` forms of one video give the same player address |
| Portfolio.EmbedsVimeoHit | components/Portfolio.tsx:40-43 | a Vimeo match with no YouTube match embeds the captured digits into the template `Portfolio.VimeoEmbed` (line 43) |
| Portfolio.VimeoAddressHasNoYouTube | components/Portfolio.tsx:32 | a `vimeo.com/` address has no YouTube match |
| Portfolio.VimeoMatchesAtHost | components/Portfolio.tsx:40 | a `vimeo.com/` address matches at its host through the empty group and captures all its digits |
| Portfolio.NoVimeoWithout | components/Portfolio.tsx:40 | no Vimeo match starts in a stretch without `v` and without `p` followed by `l` |
| Portfolio.VimeoSchemeHasNoMatch | components/Portfolio.tsx:40 | no Vimeo match starts inside `https://` |
| Portfolio.VimeoFoundAtHost | components/Portfolio.tsx:40-41 | the leftmost Vimeo match of a `vimeo.com/` address is at its host |
| Portfolio.VimeoAddressEmbeds | components/Portfolio.tsx:28-43 | a `vimeo.com/` address is embedded by its digits |
| Portfolio.PlayerPathHasHost | components/Portfolio.tsx:40 | every player-path match contains a `vimeo.com/` match seven characters on |
| Portfolio.NoHostUnchanged | components/Portfolio.tsx:47 | an address that mentions none of the three hosts, in any case, is returned unchanged |
| Portfolio.DefaultYouTubeEmbeds | components/Portfolio.tsx:28-36 | the default YouTube item has a `videoUrl`, and that video embeds by the id of its address |
| Portfolio.DefaultVimeoEmbeds | components/Portfolio.tsx:28-43 | the default Vimeo item has a `videoUrl`, and that video embeds by the number of its address |
| Portfolio.ShareTarget | components/Portfolio.tsx:57-70 | an address is opened exactly for `x`, `linkedin` and `whatsapp` |
| Portfolio.ShareTargetEndsWithLink | components/Portfolio.tsx:58-65 | every share address ends with the encoded link to the item |
| Portfolio.ShareLinkIdentifiesItem | components/Portfolio.tsx:51 | about `Portfolio.ShareLink` (`?asset=${item.id}`, also line 58): items with different ids get different share links |
| ContactForm.ErrorsFor | components/ContactForm.tsx:33-49 | the name error is set exactly when the name is shorter than 3; the handle error exactly when the handle is |
| ContactForm.ValidIffNoErrors | components/ContactForm.tsx:33-49 | `ContactForm.IsValid`, the flag `validate` returns, holds exactly when no error is recorded |
| ContactForm.BothErrorsReported | components/ContactForm.tsx:37-45 | a short name and a short handle are reported together |
| ContactForm.NewLead | components/ContactForm.tsx:55 | a submitted lead has no status and no notes |
| ContactForm.SubmittedLeads | components/ContactForm.tsx:54-56 | a missing list counts as empty; a stored value that reads as a lead list (`Records.AsLeads`) gets the new lead first with the rest unchanged; anything else throws |
| ContactForm.SubmitOntoEmptyListStoresOne | components/ContactForm.tsx:54-56 | a submit onto the stored text `[]`, whichever collection wrote it, stores exactly the new lead |
| ContactForm.SubmittedLeadLoadsAsNew | components/ContactForm.tsx:54-56 | loading the list after a submit shows the new lead first with status `new`, then the back-filled earlier leads |
| ContactForm.ContactForm.constructor | components/ContactForm.tsx:19-30 | the initial form, no errors, not submitted |
| ContactForm.ContactForm.Validate | components/ContactForm.tsx:33-49 | both checks run; the errors are stored; the flag is true exactly when the form is valid |
| ContactForm.ContactForm.HandleSubmit | components/ContactForm.tsx:51-64 | an invalid form writes nothing; a valid one prepends exactly one dated lead to the stored list and shows the confirmation; an unreadable list throws before anything is written |
| ContactForm.ContactForm.ClearConfirmation | components/ContactForm.tsx:59-62 | the confirmation hides and the form is emptied |
| ContactForm.ContactForm.ChangeFullName | components/ContactForm.tsx:203-205 | typing a name sets it and clears only the name error |
| ContactForm.ContactForm.ChangeHandle | components/ContactForm.tsx:220-222 | typing a handle sets it and clears only the handle error |
| ContactForm.ContactForm.ChangeGoal | components/ContactForm.tsx:236 | choosing a goal changes only the goal |
| Text.TrimStartSpec | components/AdminHub.tsx:193-195 | `trim`'s leading part keeps a suffix and drops only whitespace |
| Text.TrimEndSpec | components/AdminHub.tsx:193-195 | `trim`'s trailing part keeps a prefix and drops only whitespace |
| Text.TrimIdempotent | components/AdminHub.tsx:217-220 | trimming twice is trimming once |
| Text.BlankIffAllWhitespace | components/AdminHub.tsx:193-195 | a field fails `!x.trim()` exactly when it is all whitespace |
| Text.ToLowerIdempotent | components/AdminHub.tsx:235 | lowercasing is idempotent |
| Text.NatToDecimal | components/Portfolio.tsx:58 | the decimal text of an id is non-empty and all digits |
| Text.NatToDecimalValue | components/Portfolio.tsx:58 | the decimal text denotes the number (`Text.DecimalValue` of it is the number) and has no leading zero |
| Text.IntToDecimalInjective | components/Portfolio.tsx:58 | different integers have different decimal texts |

## Left out

- Rendering, animation, routing between the landing page and the console, and
  the tab switch: presentation only.
- `LiveChatWidget` and the other presentational components: not part of this
  core.
- `storageUsage` (AdminHub.tsx:242-245): a display figure that needs the
  UTF-8 length of the JSON text, and the JSON text is not modelled.
- JSON text: the store holds decoded values. A stored text of the wrong shape,
  or one on which `JSON.parse` or the following `map` throws, is `Unparsable`.
  The empty stored text is not distinguished from a missing key.
  The empty list has two values, `ItemList([])` and `LeadList([])`. Both
  readers accept either (`Records.AsItems`, `Records.AsLeads`).
- `FileReader` progress events (AdminHub.tsx:138-143): they come from the
  browser. `onloadstart` is folded into `HandleFileUpload`.
- `OnUploadSettled`: the kilobyte label `toFixed(1)` is a parameter, because
  it is floating-point formatting.
- Real timers and `setInterval`: the refresh timer, the upload timer and the
  confirmation timer are separate methods that a caller invokes.
  `HandleSaveItem` runs the ticker's 20 steps in one loop and returns the
  progress after each step as `trace`.
- Interleavings and stale closures: two saves racing, or a handler seeing
  outdated state, are not modelled; each method sees the current state.
- The shared mutable lead record at AdminHub.tsx:171-172: `[...leads]` copies
  only the array, so the status assignment also changes the record in the
  old state. The model's records are immutable, so no aliasing is modelled.
- The markup setters of the edit form (AdminHub.tsx:507-620): plain field
  assignments of the buffer.
- The `archived` status filter: the view's buttons offer only `all`, `new`,
  `contacted` and `partnered`. The model allows any filter.
- `handleCopyLink` (Portfolio.tsx:50-55): the clipboard write and the
  `copied` timer are not modelled. Its address is `Portfolio.ShareLink`.
- The clipboard write in `copyToClipboard`: only its log entry is modelled.
- `window.open`: `Portfolio.ShareTarget` returns the address that would be
  opened.
- `ContactForm`'s `isHovered`: presentation only.
- Text.ToLower: folds only ASCII and the Latin-1 capitals. The rest of
  Unicode case mapping is not modelled.
- ContactForm.ErrorsFor: counts characters. JavaScript's `.length` counts
  UTF-16 code units, so a name made of characters outside the Basic
  Multilingual Plane can be long enough in JavaScript and too short here.
  The same applies to the 11-unit id class in `Portfolio.IdAt`.
- Portfolio.ShareTarget: `urls[platform]` is also truthy for inherited object
  keys. The model opens an address only for the three own keys.
- Portfolio.ShareLink: `${item.id}` is written as the decimal text of an
  integer id. Non-integer ids are not modelled.

## Findings

| source | as written | input that shows it | evidently intended | confidence | as-written member | corrected member |
|---|---|---|---|---|---|---|
| components/AdminHub.tsx:428 | the lead table passes the row number `i` of `filteredLeads` to `updateLeadStatus` and `handleDeleteLead` (also at line 447). Those handlers index the unfiltered `leads` (lines 172 and 179). | leads `[Avery (new), Blake (contacted)]` with the `contacted` filter: row 0 shows Blake, but changing its status or deleting it acts on Avery | the handlers act on the lead the row shows, at its stored position | not executed | Registry.RowTargetAsWritten, Registry.AsWrittenRowTargetWrongUnderFilter | Registry.RowIndex, AdminHub.AdminHub.UpdateLeadStatusAtRow, AdminHub.AdminHub.HandleDeleteLeadAtRow |
