/**
  The music-list state of the `Home` page as values: the records it stores and
  the pure functions its handlers use to compute the next state. Each handler
  rebuilds `lists` with `map`, `filter` and spread; here those are `MapWhere`
  and `Filter`. The class in home.dfy holds the state and applies these.
*/
module MusicLists {
  import opened Optional
  import opened Seqs
  import opened Text

  /** Milliseconds since the epoch; `new Date()` values are taken as parameters. */
  type Timestamp = int

  datatype MusicItem = MusicItem(
    id: string, title: string, artist: string, coverUrl: string, isFavorite: bool, createdAt: Timestamp)

  datatype MusicList = MusicList(
    id: string, name: string, musics: seq<MusicItem>, createdAt: Timestamp, isShared: bool)

  /** The two state slots the list-level handlers replace together. */
  datatype Store = Store(lists: seq<MusicList>, currentListId: string)

  /** The filter buttons: all songs, favourites only, or the others. */
  datatype View = All | Favorites | Others

  // ---------------------------------------------------------------- lookup

  /** The index of the first list with identifier `id`, as `Array.prototype.findIndex`. */
  function FirstIndex(lists: seq<MusicList>, id: string): (r: Option<nat>)
    ensures r.Some? ==> r.value < |lists| && lists[r.value].id == id
    ensures forall j :: 0 <= j < |lists| && (r.None? || j < r.value) ==> lists[j].id != id
  {
    if lists == [] then None
    else if lists[0].id == id then Some(0)
    else match FirstIndex(lists[1..], id)
      case None => None
      case Some(k) => Some(k + 1)
  }

  /** `lists.find(list => list.id === id)`: the first list with that identifier. */
  function FindList(lists: seq<MusicList>, id: string): (r: Option<MusicList>)
    ensures r.None? <==> forall j :: 0 <= j < |lists| ==> lists[j].id != id
    ensures r.Some? <==> FirstIndex(lists, id).Some?
    ensures r.Some? ==> r.value == lists[FirstIndex(lists, id).value] && r.value.id == id
  {
    match FirstIndex(lists, id)
    case None => None
    case Some(i) => Some(lists[i])
  }

  /** `currentList?.musics || []`: the songs of the selected list, or none. */
  function CurrentMusics(lists: seq<MusicList>, cur: string): seq<MusicItem> {
    match FindList(lists, cur)
    case None => []
    case Some(l) => l.musics
  }

  /** The selection names an existing list whenever there is a list at all. */
  predicate SelectionValid(lists: seq<MusicList>, cur: string) {
    |lists| == 0 || FindList(lists, cur).Some?
  }

  /** No two lists share an identifier. */
  ghost predicate ListIdsUnique(lists: seq<MusicList>) {
    forall i, j :: 0 <= i < |lists| && 0 <= j < |lists| && lists[i].id == lists[j].id ==> i == j
  }

  /** Two store contents with the same list identifiers, position by position. */
  ghost predicate SameIds(a: seq<MusicList>, b: seq<MusicList>) {
    |a| == |b| && forall i :: 0 <= i < |a| ==> a[i].id == b[i].id
  }

  /** Lookups, and so the validity of a selection, depend only on the identifiers. */
  lemma SameIdsLookup(a: seq<MusicList>, b: seq<MusicList>, cur: string)
    requires SameIds(a, b)
    ensures FirstIndex(a, cur) == FirstIndex(b, cur)
    ensures SelectionValid(a, cur) <==> SelectionValid(b, cur)
  {
  }

  /** `lists.map(list => list.id === cur ? f(list) : list)`. */
  function InCurrent(lists: seq<MusicList>, cur: string, f: MusicList -> MusicList): (r: seq<MusicList>)
    ensures |r| == |lists|
    ensures forall i :: 0 <= i < |lists| ==> r[i] == if lists[i].id == cur then f(lists[i]) else lists[i]
  {
    MapWhere(lists, (l: MusicList) => l.id == cur, f)
  }

  // ---------------------------------------------------------------- songs

  /** `musics.map(m => m.id === id ? {...m, isFavorite: !m.isFavorite} : m)`. */
  function Toggled(ms: seq<MusicItem>, id: string): (r: seq<MusicItem>)
    ensures |r| == |ms|
    ensures forall k :: 0 <= k < |ms| ==>
              r[k].isFavorite == (ms[k].isFavorite != (ms[k].id == id)) &&
              r[k].(isFavorite := ms[k].isFavorite) == ms[k]
  {
    MapWhere(ms, (m: MusicItem) => m.id == id, (m: MusicItem) => m.(isFavorite := !m.isFavorite))
  }

  /** `toggleFavorite(id)`: flips the favourite flag of the songs with that id in the selected list. */
  function ToggleFavoriteIn(lists: seq<MusicList>, cur: string, id: string): seq<MusicList> {
    InCurrent(lists, cur, (l: MusicList) => l.(musics := Toggled(l.musics, id)))
  }

  /** `musics.filter(m => m.id !== id)`. */
  function WithoutId(ms: seq<MusicItem>, id: string): seq<MusicItem> {
    Filter(ms, (m: MusicItem) => m.id != id)
  }

  /** `deleteMusic(id)`: removes the songs with that id from the selected list. */
  function DeleteMusicIn(lists: seq<MusicList>, cur: string, id: string): seq<MusicList> {
    InCurrent(lists, cur, (l: MusicList) => l.(musics := WithoutId(l.musics, id)))
  }

  /** Replaces title, artist and cover of the songs with identifier `id`. */
  function Edited(ms: seq<MusicItem>, id: string, title: string, artist: string, coverUrl: string): (r: seq<MusicItem>)
    ensures |r| == |ms|
    ensures forall k :: 0 <= k < |ms| ==>
              r[k].id == ms[k].id && r[k].isFavorite == ms[k].isFavorite && r[k].createdAt == ms[k].createdAt &&
              (ms[k].id == id ==> r[k].title == title && r[k].artist == artist && r[k].coverUrl == coverUrl) &&
              (ms[k].id != id ==> r[k] == ms[k])
  {
    MapWhere(ms, (m: MusicItem) => m.id == id,
             (m: MusicItem) => m.(title := title, artist := artist, coverUrl := coverUrl))
  }

  /** `editMusic(id, title, artist, cover)`: no validation, the arguments are stored as given. */
  function EditMusicIn(lists: seq<MusicList>, cur: string, id: string, title: string, artist: string, coverUrl: string)
    : seq<MusicList>
  {
    InCurrent(lists, cur, (l: MusicList) => l.(musics := Edited(l.musics, id, title, artist, coverUrl)))
  }

  predicate IsFavorite(m: MusicItem) { m.isFavorite }
  predicate IsOther(m: MusicItem) { !m.isFavorite }

  /** `clearNonFavorites()`: the selected list keeps only its favourites. */
  function ClearNonFavoritesIn(lists: seq<MusicList>, cur: string): seq<MusicList> {
    InCurrent(lists, cur, (l: MusicList) => l.(musics := Filter(l.musics, IsFavorite)))
  }

  /** The song `addMusic` builds from the form fields: trimmed, not a favourite. */
  function NewMusic(freshId: string, title: string, artist: string, coverUrl: string, now: Timestamp): MusicItem {
    MusicItem(freshId, Trim(title), Trim(artist), Trim(coverUrl), false, now)
  }

  /** The guard of `addMusic`: a non-blank title and artist, and a selected list that exists. */
  predicate AcceptsNewMusic(lists: seq<MusicList>, cur: string, title: string, artist: string) {
    !IsBlank(title) && !IsBlank(artist) && FindList(lists, cur).Some?
  }

  /** The state change of `addMusic`: `[newMusic, ...list.musics]` on the selected list. */
  function AddMusicIn(lists: seq<MusicList>, cur: string, item: MusicItem): seq<MusicList> {
    InCurrent(lists, cur, (l: MusicList) => l.(musics := [item] + l.musics))
  }

  /** `addMusic` on the form's fields: the song is added only when the guard holds. */
  function SubmitMusic(lists: seq<MusicList>, cur: string, title: string, artist: string, coverUrl: string,
                       freshId: string, now: Timestamp): seq<MusicList> {
    if AcceptsNewMusic(lists, cur, title, artist) then AddMusicIn(lists, cur, NewMusic(freshId, title, artist, coverUrl, now))
    else lists
  }

  // ---------------------------------------------------------------- lists

  /** The list `createNewList` builds: trimmed name, no songs, not shared. */
  function NewList(freshId: string, name: string, now: Timestamp): MusicList {
    MusicList(freshId, Trim(name), [], now, false)
  }

  /** `createNewList()`: a blank name does nothing; otherwise the new list is appended and selected. */
  function CreateList(s: Store, name: string, freshId: string, now: Timestamp): Store {
    if IsBlank(name) then s
    else Store(s.lists + [NewList(freshId, name, now)], freshId)
  }

  /** `lists.filter(list => list.id !== listId)`. */
  function WithoutList(lists: seq<MusicList>, listId: string): seq<MusicList> {
    Filter(lists, (l: MusicList) => l.id != listId)
  }

  /**
    What a handler leaves behind: the state it has set, and whether it then threw.
    A `setLists` queued before the throw is still applied by React.
  */
  datatype Deletion = Deletion(store: Store, threw: bool)

  /**
    `deleteList(listId)` exactly as the handler is written. When the selected
    list was removed together with every other list, `setLists([])` has already
    been queued and `newLists[0].id` then throws a TypeError, so the selection
    is never updated.
  */
  function DeleteListAsWritten(s: Store, listId: string): Deletion {
    if |s.lists| > 1 then
      var newLists := WithoutList(s.lists, listId);
      if s.currentListId == listId then
        if |newLists| == 0 then Deletion(Store(newLists, s.currentListId), true)
        else Deletion(Store(newLists, newLists[0].id), false)
      else Deletion(Store(newLists, s.currentListId), false)
    else Deletion(s, false)
  }

  /**
    `deleteList(listId)` as intended: the last list is never removed. It differs
    from the handler only when every list carries `listId`, where it does nothing.
  */
  function DeleteList(s: Store, listId: string): Store {
    var newLists := WithoutList(s.lists, listId);
    if |s.lists| > 1 && |newLists| > 0 then
      Store(newLists, if s.currentListId == listId then newLists[0].id else s.currentListId)
    else s
  }

  // ---------------------------------------------------------------- view

  /** The predicate of `filteredMusics` for each filter button. */
  predicate Shown(view: View, m: MusicItem) {
    match view
    case Favorites => m.isFavorite
    case Others => !m.isFavorite
    case All => true
  }

  /** `filteredMusics`: the displayed songs of the selected list. */
  function FilterView(ms: seq<MusicItem>, view: View): seq<MusicItem> {
    Filter(ms, (m: MusicItem) => Shown(view, m))
  }

  function FavoritesCount(ms: seq<MusicItem>): nat { |Filter(ms, IsFavorite)| }
  function OthersCount(ms: seq<MusicItem>): nat { |Filter(ms, IsOther)| }

  // ---------------------------------------------------------------- share and import

  /** The literal that marks a share code. */
  const ShareTag: string := "musiclist_"

  /** The record `shareList` serialises: `{name, musics, sharedAt}`. */
  datatype SharePayload = SharePayload(name: string, musics: seq<MusicItem>, sharedAt: Timestamp)

  /** What `shareList` encodes: the selected list's name and songs, or nothing without a selected list. */
  function ShareOf(lists: seq<MusicList>, cur: string, now: Timestamp): Option<SharePayload> {
    match FindList(lists, cur)
    case None => None
    case Some(l) => Some(SharePayload(l.name, l.musics, now))
  }

  /** `musiclist_${encodedData}`, where `encodedData` is `btoa(JSON.stringify(payload))`. */
  function ShareCode(encoded: string): string {
    ShareTag + encoded
  }

  /** `importUrl.replace("musiclist_", "")`. */
  function StripTag(code: string): string {
    ReplaceFirst(code, ShareTag, "")
  }

  /**
    What `JSON.parse(atob(...))` yields: `Unreadable` when decoding or parsing
    throws or the value has no fields to read; otherwise the record, with
    `musics` present only when it is a truthy array.
  */
  datatype Decoded = Unreadable | Decoded(name: string, musics: Option<seq<MusicItem>>)

  /** What `new URL(code).searchParams.get("list")` yields: a failure, or the parameter if present. */
  datatype UrlQuery = NotAUrl | UrlQuery(listParam: Option<string>)

  /** The user-visible result of `importList`: the alert shown, or the silent cases. */
  datatype ImportOutcome = Blank | Invalid | ListNotFound | Declined | Imported(count: nat)

  datatype ImportStep = ImportStep(outcome: ImportOutcome, lists: seq<MusicList>)

  /** Two songs are the same when title and artist agree after `toLowerCase`. */
  predicate SameSong(a: MusicItem, b: MusicItem) {
    ToLower(a.title) == ToLower(b.title) && ToLower(a.artist) == ToLower(b.artist)
  }

  /** `currentMusics.some(c => SameSong(c, x))`. */
  predicate HasMatch(current: seq<MusicItem>, x: MusicItem) {
    exists k :: 0 <= k < |current| && SameSong(current[k], x)
  }

  /** The imported songs already present in the selected list. */
  function Duplicates(current: seq<MusicItem>, imported: seq<MusicItem>): seq<MusicItem> {
    Filter(imported, (x: MusicItem) => HasMatch(current, x))
  }

  /** The imported songs not yet present in the selected list. */
  function FreshItems(current: seq<MusicItem>, imported: seq<MusicItem>): seq<MusicItem> {
    Filter(imported, (x: MusicItem) => !HasMatch(current, x))
  }

  /** `[...list.musics, ...newMusics]` on the selected list. */
  function AppendToCurrent(lists: seq<MusicList>, cur: string, extra: seq<MusicItem>): seq<MusicList> {
    InCurrent(lists, cur, (l: MusicList) => l.(musics := l.musics + extra))
  }

  /**
    The merge both import branches share: if some imported song is a duplicate
    the user is asked, and a refusal changes nothing; otherwise only the fresh
    songs are appended to the selected list.
  */
  function MergeStep(lists: seq<MusicList>, cur: string, imported: seq<MusicItem>, confirmed: bool): ImportStep {
    var current := CurrentMusics(lists, cur);
    if |Duplicates(current, imported)| > 0 && !confirmed then ImportStep(Declined, lists)
    else
      var newMusics := FreshItems(current, imported);
      ImportStep(Imported(|newMusics|), AppendToCurrent(lists, cur, newMusics))
  }

  /** The legacy branch: a URL whose `list` parameter names a list already known here. */
  function LegacyImport(lists: seq<MusicList>, cur: string, query: UrlQuery, confirmed: bool): ImportStep {
    match query
    case NotAUrl => ImportStep(Invalid, lists)
    case UrlQuery(param) =>
      if param.None? || param.value == "" then ImportStep(Invalid, lists)
      else match FindList(lists, param.value)
        case None => ImportStep(ListNotFound, lists)
        case Some(shared) => MergeStep(lists, cur, shared.musics, confirmed)
  }

  /**
    `importList()` for the code typed into the import box. `decode` stands for
    `s => JSON.parse(atob(s))`, `parseUrl` for the URL parser, `confirmed` for the
    answer the user would give to `confirm`.
  */
  function Import(lists: seq<MusicList>, cur: string, code: string,
                  decode: string -> Decoded, parseUrl: string -> UrlQuery, confirmed: bool): ImportStep
  {
    if IsBlank(code) then ImportStep(Blank, lists)
    else if StartsWith(code, ShareTag) && decode(StripTag(code)).Unreadable? then ImportStep(Invalid, lists)
    else if StartsWith(code, ShareTag) && decode(StripTag(code)).musics.Some? then
      MergeStep(lists, cur, decode(StripTag(code)).musics.value, confirmed)
    else LegacyImport(lists, cur, parseUrl(code), confirmed)
  }
}
