# pinit music lists, modelled in Dafny

pinit is a small React application that keeps playlists in the browser. The
`Home` page (`app/page.tsx`) holds a list of playlists, each with its songs.
Its event handlers do the following:

- add a song to the selected playlist;
- toggle, edit and delete songs;
- drop every song that is not a favourite;
- create and delete playlists;
- write a share code for the selected playlist;
- import a share code, or an old `?list=` link, into the selected playlist. Duplicate songs are detected ignoring case, and the user is asked whether to go on.

The `Music` card (`components/Music.tsx`) and the `Task` card (`components/Task.tsx`) each hold a small inline-edit
state machine. It commits trimmed, non-blank text to the parent.

The model has three layers:

- **Support modules.**
  - `Optional` holds the Option type.
  - `Seqs` holds `Array.prototype.filter` and a "map where" as recursive functions, plus their laws.
  - `Text` holds the string primitives the handlers use: `trim` with the ECMAScript white-space set, `toLowerCase`, `startsWith` and the first-match `replace`.
- **`MusicLists`** (`music_lists.dfy`): the handlers' computations as pure functions over the data records `MusicItem`, `MusicList` and `Store`.
  - `Import` returns how the import ended together with the new lists. `Invalid` and `ListNotFound` are the two error alerts, and `Imported(n)` is the success alert with its count. `Blank` (empty box) and `Declined` (the user refused the confirmation) end silently.
  - `PageLaws` (`page_laws.dfy`) proves the properties of these functions.
- **Classes for the components.**
  - `HomePage.Home` (`home.dfy`) has one field per `useState` slot and one method per handler. Each method's postcondition ties the new state to the function of `MusicLists` applied to the old state. Each method also keeps the invariant that the selected id names a list whenever one exists.
  - `MusicCard.MusicCard` (`music_card.dfy`) and `TaskCard.TaskCard` (`task_card.dfy`) store their props and state slots as fields. A call to a parent callback is a method result.

Things outside the program are parameters:

- `JSON.parse(atob(.))` is `decode: string -> Decoded`.
- `new URL(.).searchParams.get("list")` is `parseUrl: string -> UrlQuery`.
- `btoa(JSON.stringify(.))` is `encode`.
- The answer to `confirm` is `confirmed: bool`.
- `Date.now().toString()` is `freshId`, and `new Date()` is `now`.

## Model

| member | source | states |
|---|---|---|
| Seqs.Count | app/page.tsx:136-138 | The number of occurrences of a value in a sequence, by which `Filter` states multiplicities |
| Seqs.CountIsMultiplicity | app/page.tsx:136-138 | `Count` is the multiplicity of the value in the sequence's multiset |
| Seqs.Filter | app/page.tsx:136-138 | The result is no longer than the input and holds only kept elements that come from the input. Every kept value occurs in it exactly as often as in the input; a rejected value does not occur |
| Seqs.MapWhere | app/page.tsx:99-105 | Same length as the input; selected positions get `f` of the old element, all other positions are unchanged |
| Seqs.FilterIsSubsequence | app/page.tsx:136-138 | A filter result is a subsequence of its input (order is kept) |
| Seqs.FilterAllKept | app/page.tsx:136-138 | Filtering with a predicate that keeps every element returns the input itself |
| Seqs.FilterNoneKept | app/page.tsx:136-138 | Filtering with a predicate that keeps nothing returns the empty sequence |
| Seqs.FilterIdempotent | app/page.tsx:178-180 | Filtering twice with the same predicate equals filtering once |
| Seqs.FilterComplementLengths | app/page.tsx:373-378 | The counts for a predicate and for its negation add up to the length of the input |
| Seqs.FilterExt | app/page.tsx:367-371 | Predicates that agree on every element give the same filter result |
| Text.TrimStart | app/page.tsx:89 | Finds where the text starts: everything skipped is white space, and the character reached, if any, is not |
| Text.TrimEnd | app/page.tsx:89 | Finds where the text ends: everything dropped is white space, and the character before the end, if any, is not |
| Text.TrimSlice | app/page.tsx:92-94 | `trim` returns a contiguous slice of its input, and everything cut off on either side is white space |
| Text.TrimEnds | app/page.tsx:92-94 | A non-empty result of `trim` neither starts nor ends with white space |
| Text.Trim | app/page.tsx:89-94 | `s.trim()`: the slice between `TrimStart` and `TrimEnd`; its properties are `TrimSlice`, `TrimEnds` and `TrimIdempotent` |
| Text.IsBlank | app/page.tsx:89 | `!s.trim()`: the trimmed string is empty; characterised by `BlankIffAllWhitespace` |
| Text.BlankIffAllWhitespace | app/page.tsx:89 | `s.trim()` is falsy (empty) exactly when every character of `s` is white space |
| Text.TrimIdempotent | app/page.tsx:92-94 | Trimming a trimmed string changes nothing |
| Text.TrimmedNotBlank | app/page.tsx:89-93 | When `s` is not blank, its trim is non-empty, already trimmed and itself not blank |
| Text.LowerChar | app/page.tsx:252-255 | A capital (`A`-`Z`, or `À`-`Þ` except `×`) becomes the character 32 code points up, its small letter; every other character is unchanged; the result is never a capital |
| Text.ToLower | app/page.tsx:252-255 | Same length as the input, lower-casing each character with `LowerChar` |
| Text.ToLowerIdempotent | app/page.tsx:252-255 | Lower-casing an already lower-cased string changes nothing |
| Text.ToLowerConcat | app/page.tsx:252-255 | Lower-casing distributes over concatenation, so pieces of a title can be compared separately |
| Text.ToLowerFirstLetter | app/page.tsx:252-255 | Strings that differ only in a first letter with the same lower case have the same lower case |
| Text.StartsWith | app/page.tsx:239 | `s.startsWith(p)`: `p` is a prefix of `s`; used by `ReplacePrefix` and `ShareCodeRoundTrip` |
| Text.IndexOfFrom | app/page.tsx:240 | Finds the first position at or after `from` where the pattern occurs; None when there is none |
| Text.ReplaceFirst | app/page.tsx:240 | With no occurrence the string is unchanged; otherwise exactly the first occurrence is replaced, and the text before and after it is kept |
| Text.ReplacePrefix | app/page.tsx:239-240 | When `s` starts with `pat`, replacing the first `pat` with `""` drops exactly that prefix |
| MusicLists.FirstIndex | app/page.tsx:84 | `Array.prototype.find`: the first list with the id; None when no list has it |
| MusicLists.FindList | app/page.tsx:84 | `lists.find`: present exactly when some list has that id, and then it is the list at `FirstIndex`, the first one with the id |
| MusicLists.CurrentMusics | app/page.tsx:84-85 | `currentList?.musics`, or `[]` when no list is selected; characterised by `PageLaws.CurrentMusicsAt` |
| MusicLists.SameIdsLookup | app/page.tsx:99-105 | Rewriting list contents without touching ids leaves every id lookup's outcome unchanged |
| MusicLists.InCurrent | app/page.tsx:114-127 | Only lists whose id is the selected id get `f`; all others are unchanged, and the length stays the same |
| MusicLists.Toggled | app/page.tsx:119-123 | Songs with the id have their favourite flag flipped and nothing else changed; other songs are unchanged |
| MusicLists.ToggleFavoriteIn | app/page.tsx:113-128 | The lists `toggleFavorite` sets; its laws are `PageLaws.ToggleFavoriteTwice`, `ToggleFavoriteUnknownId` and `ToggleFavoriteScope` |
| MusicLists.WithoutId | app/page.tsx:136-138 | `musics.filter(m => m.id !== id)`; its laws are `PageLaws.WithoutIdExact` |
| MusicLists.DeleteMusicIn | app/page.tsx:130-143 | The lists `deleteMusic` sets; its law is `PageLaws.DeleteMusicTwice` |
| MusicLists.Edited | app/page.tsx:156-165 | Songs with the id get the given title, artist and cover as passed and keep id, flag and date; other songs are unchanged |
| MusicLists.EditMusicIn | app/page.tsx:145-170 | The lists `editMusic` sets; its laws are `PageLaws.EditMusicTwice` and `EditMusicKeepsIdentity` |
| MusicLists.ClearNonFavoritesIn | app/page.tsx:172-185 | The lists `clearNonFavorites` sets; its laws are `PageLaws.ClearNonFavoritesExact` and `ClearNonFavoritesTwice` |
| MusicLists.NewMusic | app/page.tsx:90-97 | The song `addMusic` builds; its law is `PageLaws.NewMusicFields` |
| MusicLists.AcceptsNewMusic | app/page.tsx:89 | The guard of `addMusic`: non-blank title and artist and an existing selected list; used by `PageLaws.SubmitMusicEffect` |
| MusicLists.AddMusicIn | app/page.tsx:99-105 | The new song put first in the selected list; its law is `PageLaws.AddMusicPutsItemFirst` |
| MusicLists.SubmitMusic | app/page.tsx:87-111 | The lists `addMusic` sets; its laws are `PageLaws.SubmitMusicEffect` and `SubmitMusicKeepsSelection` |
| MusicLists.NewList | app/page.tsx:189-195 | The list `createNewList` builds; its properties are in `PageLaws.CreateListEffect` |
| MusicLists.CreateList | app/page.tsx:187-202 | The store `createNewList` sets; its law is `PageLaws.CreateListEffect` |
| MusicLists.WithoutList | app/page.tsx:206 | `lists.filter(list => list.id !== listId)`; its law is `PageLaws.WithoutListExact` |
| MusicLists.DeleteListAsWritten | app/page.tsx:204-212 | `deleteList` as written: the store it sets and whether `newLists[0].id` throws; its laws are `PageLaws.DeleteListAsWrittenEmptiesStore`, `DeleteListAsWrittenThrows` and `DeleteListAgreesWithHandler` |
| MusicLists.DeleteList | app/page.tsx:204-212 | `deleteList` as intended, never removing the last list; its law is `PageLaws.DeleteListEffect` |
| MusicLists.FilterView | app/page.tsx:367-371 | `filteredMusics` for the chosen button; its law is `PageLaws.ViewAndCounts` |
| MusicLists.FavoritesCount | app/page.tsx:373-375 | `favoritesCount`; tied to the favourites view by `PageLaws.ViewAndCounts` |
| MusicLists.OthersCount | app/page.tsx:376-378 | `othersCount`; tied to the others view by `PageLaws.ViewAndCounts` |
| MusicLists.ShareOf | app/page.tsx:216-221 | The data `shareList` encodes: the selected list's name and songs and the share date; used by `HomePage.Home.ShareList` |
| MusicLists.ShareCode | app/page.tsx:224-225 | `musiclist_` followed by the encoded data; its law is `PageLaws.ShareCodeRoundTrip` |
| MusicLists.StripTag | app/page.tsx:240 | `importUrl.replace("musiclist_", "")`; its law is `PageLaws.ShareCodeRoundTrip` |
| MusicLists.SameSong | app/page.tsx:252-255 | Titles and artists equal after `toLowerCase`; the "Imagine" example is `PageLaws.ImagineMatches` |
| MusicLists.HasMatch | app/page.tsx:250-256 | `currentMusics.some(...)` with `SameSong`; used by `PageLaws.MergedMatchesImported` |
| MusicLists.Duplicates | app/page.tsx:248-257 | The shared songs that have a match; its laws are `PageLaws.MergeDeclined` and `FreshItemsExact` |
| MusicLists.FreshItems | app/page.tsx:267-276 | The shared songs without a match; its laws are `PageLaws.FreshItemsExact` and `FreshItemsOfSelf` |
| MusicLists.AppendToCurrent | app/page.tsx:278-290 | The fresh songs appended to the selected list; its laws are `PageLaws.MergeAppendsFresh` and `AppendNothing` |
| MusicLists.MergeStep | app/page.tsx:248-297 | Duplicate check, confirmation and append of one import; its laws are `PageLaws.MergeDeclined`, `MergeAppendsFresh` and `MergeIdempotent` |
| MusicLists.LegacyImport | app/page.tsx:300-360 | The old-link path: `?list=` names a list whose songs are merged, or the import ends as not found or invalid; its law is `PageLaws.ImportKeepsListIds` |
| MusicLists.Import | app/page.tsx:235-365 | The whole `importList`; its laws are `PageLaws.ImportBlank`, `ImportTaggedWithoutSongs`, `ImportShareCode`, `ImportKeepsListIds` and `ImportOwnShare` |
| PageLaws.CurrentMusicsAt | app/page.tsx:84-85 | `currentMusics` is the songs of the first list with the selected id, or `[]` when there is none |
| PageLaws.ToggledTwice | app/page.tsx:119-123 | Toggling the same song twice restores the songs |
| PageLaws.ToggleFavoriteTwice | app/page.tsx:113-128 | `toggleFavorite(id)` twice restores every list |
| PageLaws.ToggleFavoriteUnknownId | app/page.tsx:113-128 | Toggling an id that no song of the selected list has changes nothing |
| PageLaws.ToggleFavoriteScope | app/page.tsx:113-128 | Lists other than the selected one are unchanged; in the selected one only the flags of the matching songs flip |
| PageLaws.WithoutIdExact | app/page.tsx:136-138 | Deleting a song keeps the order of the rest. Every song with another id occurs as often as before, and no song with the deleted id remains. Deleting is idempotent and changes nothing when the id is absent |
| PageLaws.DeleteMusicTwice | app/page.tsx:130-143 | `deleteMusic(id)` twice equals once |
| PageLaws.EditMusicTwice | app/page.tsx:145-170 | Repeating an edit with the same values changes nothing more |
| PageLaws.EditMusicKeepsIdentity | app/page.tsx:145-170 | An edit keeps every list id, every song count, and every song's id, favourite flag and creation date |
| PageLaws.ClearNonFavoritesExact | app/page.tsx:178-180 | Clearing keeps the favourites in order, each as often as before, and no other song; the favourite count is unchanged and the others count is 0 |
| PageLaws.ClearNonFavoritesTwice | app/page.tsx:172-185 | `clearNonFavorites()` is idempotent |
| PageLaws.NewMusicFields | app/page.tsx:89-97 | An accepted new song has the fresh id, a non-empty trimmed title and artist, a trimmed cover, and is not a favourite |
| PageLaws.AddMusicPutsItemFirst | app/page.tsx:99-105 | The new song comes first in the selected list (and first in the "all" view) ahead of the old songs; no other list changes |
| PageLaws.SubmitMusicEffect | app/page.tsx:87-111 | Submitting the form puts the trimmed new song first in the selected list when both fields are non-blank and the list exists; otherwise the lists are unchanged. No list id changes |
| PageLaws.SubmitMusicKeepsSelection | app/page.tsx:87-111 | Submitting the form keeps a valid selection valid |
| PageLaws.CreateListEffect | app/page.tsx:187-202 | A blank name does nothing. Otherwise one empty list with the fresh id and the trimmed, non-empty name is appended and selected |
| PageLaws.WithoutListExact | app/page.tsx:206 | Removing a list id keeps order, removes every list with that id, and keeps every other list as often as before |
| PageLaws.DeleteListEffect | app/page.tsx:204-212 | Never deletes the last list and never leaves the store empty. When a list survives: the selection moves to the first survivor if the deleted list was selected, otherwise it stays. A valid selection stays valid |
| PageLaws.DeleteListAgreesWithHandler | app/page.tsx:204-212 | When some list survives the filter, the corrected deletion equals the handler as written |
| PageLaws.UniqueIdsLeaveSurvivor | app/page.tsx:204-206 | With distinct list ids and more than one list, some list survives the filter, so the handler as written is safe |
| PageLaws.DeleteListAsWrittenEmptiesStore | app/page.tsx:204-212 | With a valid selection and two lists or more, the handler as written leaves an empty store exactly when every list has the deleted id. The selected list is then deleted, `setLists([])` is already queued, and `newLists[0].id` throws; it throws in no other case |
| PageLaws.DeleteListAsWrittenThrows | app/page.tsx:206-209 | Two lists with id "x", "x" selected, `deleteList("x")`: the store is set to no lists and the handler throws |
| PageLaws.ViewAndCounts | app/page.tsx:367-378 | Every filter view is an ordered subsequence; "all" is every song; the favourites and others views have the sizes of the two counters, which add up to the song count |
| PageLaws.ShareCodeRoundTrip | app/page.tsx:224-225 | A share code starts with `musiclist_`, stripping the tag as `importList` does gives back the encoded data, and the code is never blank |
| PageLaws.FreshItemsExact | app/page.tsx:248-276 | The songs imported are the shared songs with no case-insensitive match, in order and each as often as it is shared; together with the duplicates they account for every shared song |
| PageLaws.MergeDeclined | app/page.tsx:259-264 | The import is declined exactly when there are duplicates and the user does not confirm, and then nothing changes |
| PageLaws.MergeAppendsFresh | app/page.tsx:267-290 | The new songs are appended after the selected list's own songs; the outcome counts them; no other list and no list id changes |
| PageLaws.MergedMatchesImported | app/page.tsx:248-290 | After an import, every shared song has a case-insensitive match in the selected list |
| PageLaws.MergeIdempotent | app/page.tsx:248-290 | Importing the same songs again (with confirmation) changes nothing and reports 0 imported |
| PageLaws.ImportKeepsListIds | app/page.tsx:235-365 | No import path adds, removes or renames a list, so a valid selection stays valid |
| PageLaws.ImportBlank | app/page.tsx:236 | A blank import box does nothing |
| PageLaws.ImportTaggedWithoutSongs | app/page.tsx:239-302 | A tagged code that fails to decode is invalid. One that decodes without a song array falls through to the old-link path |
| PageLaws.ImportShareCode | app/page.tsx:239-298 | Importing a share code whose data decodes to a song array merges exactly those songs |
| PageLaws.FreshItemsOfSelf | app/page.tsx:267-276 | Songs matched against their own list leave nothing to import |
| PageLaws.AppendNothing | app/page.tsx:278-290 | Appending no songs to the selected list leaves every list unchanged |
| PageLaws.ImportOwnShare | app/page.tsx:214-290 | Importing the selected list's own songs changes nothing |
| PageLaws.ImagineMatches | app/page.tsx:252-255 | "imagine"/"john lennon" and "Imagine"/"John Lennon" are the same song |
| PageLaws.ImagineIsDuplicate | app/page.tsx:248-276 | The "Imagine"/"John Lennon" song is a duplicate of "imagine"/"john lennon": declining keeps the lists, and confirming imports nothing |
| HomePage.Home.Load | app/page.tsx:37-64 | Without saved data there is one default list "Minhas Músicas", and it is selected; with saved data the first saved list is selected (none when empty); the form and the filter start empty |
| HomePage.Home.SetNewMusicTitle | app/page.tsx:472-475 | The title input sets only its slot |
| HomePage.Home.SetNewMusicArtist | app/page.tsx:482-485 | The artist input sets only its slot |
| HomePage.Home.SetNewMusicCoverUrl | app/page.tsx:492-495 | The cover input sets only its slot |
| HomePage.Home.SetNewListName | app/page.tsx:651-653 | The list-name input sets only its slot |
| HomePage.Home.SetImportUrl | app/page.tsx:761 | The import box sets only its slot |
| HomePage.Home.SetFilter | app/page.tsx:517-537 | A filter button sets only the filter |
| HomePage.Home.SelectList | app/page.tsx:441-447 | Choosing one of the offered lists selects it and keeps the selection valid |
| HomePage.Home.AddMusic | app/page.tsx:87-111 | The lists become `SubmitMusic` of the old lists and form. The three fields are cleared exactly when the guard (non-blank title and artist, existing selected list) holds, otherwise they keep their values. The selection stays valid |
| HomePage.Home.ToggleFavorite | app/page.tsx:113-128 | The lists become `ToggleFavoriteIn` of the old lists; the selection stays valid |
| HomePage.Home.DeleteMusic | app/page.tsx:130-143 | The lists become `DeleteMusicIn` of the old lists; the selection stays valid |
| HomePage.Home.EditMusic | app/page.tsx:145-170 | The lists become `EditMusicIn` of the old lists, with the values as passed; the selection stays valid |
| HomePage.Home.ClearNonFavorites | app/page.tsx:172-185 | The lists become `ClearNonFavoritesIn` of the old lists; the selection stays valid |
| HomePage.Home.CreateNewList | app/page.tsx:187-202 | The store becomes `CreateList` of the old store, and the name box is cleared only when a list was created |
| HomePage.Home.DeleteList | app/page.tsx:204-212 | The store becomes the corrected `DeleteList` of the old store; the selection stays valid |
| HomePage.Home.ShareList | app/page.tsx:214-233 | The method returns a code exactly when a list is selected. The code is `musiclist_` followed by the encoding of that list's name, songs and share date |
| HomePage.Home.ImportList | app/page.tsx:235-365 | The outcome and the new lists are those of `Import`; the import box is cleared only after a successful import; the selection stays valid |
| MusicCard.CommitEdit | components/Music.tsx:37-47 | `onEdit` is called exactly when neither title nor artist is blank. It receives the trimmed buffers: a non-empty title and artist, all three already trimmed |
| MusicCard.GatedEditStoresCleanFields | components/Music.tsx:37-47 | An edit that passed the card's gate stores a non-empty, trimmed title and artist in every song it rewrites (`editMusic` checks nothing itself) |
| MusicCard.MusicCard.constructor | components/Music.tsx:31-35 | A new card is not editing, its menu is closed, and its buffers hold the props |
| MusicCard.MusicCard.Rerender | components/Music.tsx:31-35 | New props do not reset the edit buffers |
| MusicCard.MusicCard.SetEditTitle | components/Music.tsx:64-68 | The title input sets only its buffer |
| MusicCard.MusicCard.SetEditArtist | components/Music.tsx:72-76 | The artist input sets only its buffer |
| MusicCard.MusicCard.SetEditCoverUrl | components/Music.tsx:80-84 | The cover input sets only its buffer |
| MusicCard.MusicCard.HandleEdit | components/Music.tsx:37-47 | Save emits what `CommitEdit` gives, and it leaves edit mode exactly when something was emitted |
| MusicCard.MusicCard.Cancel | components/Music.tsx:96-101 | Cancel restores the buffers from the props and leaves edit mode |
| MusicCard.MusicCard.KeyDown | components/Music.tsx:49-58 | Enter acts as Save. Escape acts as Cancel and emits nothing. Any other key changes nothing |
| MusicCard.MusicCard.ClickText | components/Music.tsx:150-163 | Clicking the title or the artist enters edit mode |
| MusicCard.MusicCard.ClickFavorite | components/Music.tsx:117 | The heart passes the card's own id to `onToggleFavorite` |
| MusicCard.MusicCard.ToggleMenu | components/Music.tsx:175 | The menu button flips the menu |
| MusicCard.MusicCard.MenuEdit | components/Music.tsx:192-195 | "Editar" enters edit mode and closes the menu |
| MusicCard.MusicCard.MenuDelete | components/Music.tsx:201-204 | "Excluir" passes the card's own id to `onDelete` and closes the menu |
| MusicCard.MusicCard.CloseMenu | components/Music.tsx:218 | The overlay closes the menu |
| TaskCard.CommitText | components/Task.tsx:25-30 | `onEdit` is called exactly when the text is not blank, with the trimmed, non-empty text |
| TaskCard.TaskCard.constructor | components/Task.tsx:22-23 | A new task card is not editing, and its buffer holds the text |
| TaskCard.TaskCard.Rerender | components/Task.tsx:22-23 | New props do not reset the buffer |
| TaskCard.TaskCard.SetEditText | components/Task.tsx:65 | The input sets only the buffer |
| TaskCard.TaskCard.StartEditing | components/Task.tsx:73-87 | The text span and EDITAR both enter edit mode |
| TaskCard.TaskCard.HandleEdit | components/Task.tsx:25-30 | The method emits what `CommitText` gives, and it leaves edit mode exactly when something was emitted |
| TaskCard.TaskCard.Blur | components/Task.tsx:67 | Leaving the input commits through `handleEdit` |
| TaskCard.TaskCard.KeyDown | components/Task.tsx:32-39 | Enter commits. Escape restores the text and leaves edit mode, emitting nothing. Other keys change nothing |
| TaskCard.TaskCard.ClickToggle | components/Task.tsx:45 | The check box passes the task's own id to `onToggle` |
| TaskCard.TaskCard.ClickDelete | components/Task.tsx:94 | EXCLUIR passes the task's own id to `onDelete` |

## Left out

- Saving to `localStorage` on every change, and turning stored dates back into `Date` objects: storage is I/O. `Load` takes the parsed content as a parameter, and dates are an opaque `Timestamp`.
- The effect that selects the list named by the page's `?list=` query: it reads the browser's location.
- `btoa`, `atob` and `JSON`: `encode` and `decode` are parameters, so no claim is made that decoding a share code gives back the shared list. `btoa` takes only Latin-1 text, so a name or title with characters beyond U+00FF makes `shareList` throw. The model does not capture this.
- A URL cannot start with `musiclist_`, so the old-link fallback for a tagged code always ends as "invalid". With `parseUrl` as a parameter the model does not build this in.
- Imported items that lack a `title` or an `artist`: the model types imported songs as complete `MusicItem` records. In the program the duplicate test reads `title` only when the selected list has a song, and `artist` only after the titles matched. A missing field read there makes `toLowerCase` throw, which ends as "invalid". Into an empty list such items are appended as they are and counted.
- The clipboard write and the `alert` messages: I/O. The `Imported(n)` outcome carries the count the message shows.
- The modal and list-manager visibility flags, the progress bar, the `maxLength` of the inputs, the cover image's `onError`, and the disabled state of buttons: presentation only. The buttons look only at text fields. The add button is disabled while the title or the artist is blank, but it does not check that a list is selected. The create and import buttons are disabled while their box is blank. Each handler repeats its own test, and the model follows the handlers.
- ToLower: lower-cases only ASCII and Latin-1 capitals. The rest of Unicode's case mapping is not modelled, so case-insensitive matching is weaker than JavaScript's for other scripts.
- Strings are sequences of Dafny characters, not UTF-16 code units.
- Song and list ids come from `Date.now()`, which the program does not keep unique. The model does not assume they are unique; `PageLaws.UniqueIdsLeaveSurvivor` states what uniqueness would buy.
- Whether React fires `onBlur` when a task card unmounts: framework behaviour.
- `app/layout.tsx`: static page frame.

## Findings

| source | as written | input that shows it | evidently intended | confidence | as-written member | corrected member |
|---|---|---|---|---|---|---|
| app/page.tsx:204-212 | `deleteList` checks only `lists.length > 1` before filtering out every list with the id, then reads `newLists[0].id` | two lists that both have id "x", "x" selected, `deleteList("x")`: line 207 queues `setLists([])`, then `newLists[0]` is undefined and line 209 throws, so the store is left with no list | a deletion never removes the last remaining list | not executed; low, because it needs two lists with one id (ids come from `Date.now()`) | PageLaws.DeleteListAsWrittenEmptiesStore | PageLaws.DeleteListEffect |
