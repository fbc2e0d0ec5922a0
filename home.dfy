/**
  The `Home` page component as an object: the state slots it holds with
  `useState` and one method per event handler. Every handler replaces `lists`
  with a value computed by a function of module MusicLists.
*/
module HomePage {
  import opened Optional
  import opened Text
  import opened MusicLists
  import PageLaws

  class Home {
    var lists: seq<MusicList>
    var currentListId: string
    var newMusicTitle: string
    var newMusicArtist: string
    var newMusicCoverUrl: string
    var filter: View
    var newListName: string
    var importUrl: string

    /** The selected identifier names a list whenever there is one. */
    ghost predicate Valid()
      reads this
    {
      SelectionValid(lists, currentListId)
    }

    /**
      The first render and the loading effect: `saved` is the parsed content of
      local storage, if any; without it a default list is created and selected.
    */
    constructor Load(saved: Option<seq<MusicList>>, now: Timestamp)
      ensures Valid()
      ensures saved.None? ==>
        lists == [MusicList("default", "Minhas M\U{00FA}sicas", [], now, false)] && currentListId == "default"
      ensures saved.Some? ==>
        lists == saved.value && currentListId == (if |saved.value| > 0 then saved.value[0].id else "")
      ensures newMusicTitle == "" && newMusicArtist == "" && newMusicCoverUrl == ""
      ensures filter == All && newListName == "" && importUrl == ""
    {
      match saved {
        case None =>
          lists := [MusicList("default", "Minhas M\U{00FA}sicas", [], now, false)];
          currentListId := "default";
        case Some(parsed) =>
          lists := parsed;
          currentListId := if |parsed| > 0 then parsed[0].id else "";
      }
      newMusicTitle, newMusicArtist, newMusicCoverUrl := "", "", "";
      filter, newListName, importUrl := All, "", "";
    }

    method SetNewMusicTitle(value: string)
      modifies this`newMusicTitle
      ensures newMusicTitle == value
    {
      newMusicTitle := value;
    }

    method SetNewMusicArtist(value: string)
      modifies this`newMusicArtist
      ensures newMusicArtist == value
    {
      newMusicArtist := value;
    }

    method SetNewMusicCoverUrl(value: string)
      modifies this`newMusicCoverUrl
      ensures newMusicCoverUrl == value
    {
      newMusicCoverUrl := value;
    }

    method SetNewListName(value: string)
      modifies this`newListName
      ensures newListName == value
    {
      newListName := value;
    }

    method SetImportUrl(value: string)
      modifies this`importUrl
      ensures importUrl == value
    {
      importUrl := value;
    }

    /** The filter buttons. */
    method SetFilter(view: View)
      modifies this`filter
      ensures filter == view
    {
      filter := view;
    }

    /** The list selector: its options are the identifiers of the lists. */
    method SelectList(id: string)
      requires FindList(lists, id).Some?
      modifies this`currentListId
      ensures currentListId == id && Valid()
    {
      currentListId := id;
    }

    /**
      `addMusic`: with a non-blank title and artist and an existing selected
      list, the trimmed song is put first in the selected list and the form is
      cleared; otherwise nothing changes.
    */
    method AddMusic(freshId: string, now: Timestamp)
      requires Valid()
      modifies this`lists, this`newMusicTitle, this`newMusicArtist, this`newMusicCoverUrl
      ensures Valid()
      ensures lists == SubmitMusic(old(lists), currentListId, old(newMusicTitle), old(newMusicArtist),
                                   old(newMusicCoverUrl), freshId, now)
      ensures AcceptsNewMusic(old(lists), currentListId, old(newMusicTitle), old(newMusicArtist)) ==>
        newMusicTitle == "" && newMusicArtist == "" && newMusicCoverUrl == ""
      ensures !AcceptsNewMusic(old(lists), currentListId, old(newMusicTitle), old(newMusicArtist)) ==>
        newMusicTitle == old(newMusicTitle) && newMusicArtist == old(newMusicArtist) &&
        newMusicCoverUrl == old(newMusicCoverUrl)
    {
      PageLaws.SubmitMusicKeepsSelection(lists, currentListId, newMusicTitle, newMusicArtist, newMusicCoverUrl, freshId, now);
      var accepted := AcceptsNewMusic(lists, currentListId, newMusicTitle, newMusicArtist);
      lists := SubmitMusic(lists, currentListId, newMusicTitle, newMusicArtist, newMusicCoverUrl, freshId, now);
      newMusicTitle := if accepted then "" else newMusicTitle;
      newMusicArtist := if accepted then "" else newMusicArtist;
      newMusicCoverUrl := if accepted then "" else newMusicCoverUrl;
    }

    /** `toggleFavorite(id)`. */
    method ToggleFavorite(id: string)
      requires Valid()
      modifies this`lists
      ensures Valid()
      ensures lists == ToggleFavoriteIn(old(lists), currentListId, id)
    {
      SameIdsLookup(ToggleFavoriteIn(lists, currentListId, id), lists, currentListId);
      lists := ToggleFavoriteIn(lists, currentListId, id);
    }

    /** `deleteMusic(id)`. */
    method DeleteMusic(id: string)
      requires Valid()
      modifies this`lists
      ensures Valid()
      ensures lists == DeleteMusicIn(old(lists), currentListId, id)
    {
      SameIdsLookup(DeleteMusicIn(lists, currentListId, id), lists, currentListId);
      lists := DeleteMusicIn(lists, currentListId, id);
    }

    /** `editMusic(id, title, artist, cover)`: stores the values as given. */
    method EditMusic(id: string, title: string, artist: string, coverUrl: string)
      requires Valid()
      modifies this`lists
      ensures Valid()
      ensures lists == EditMusicIn(old(lists), currentListId, id, title, artist, coverUrl)
    {
      SameIdsLookup(EditMusicIn(lists, currentListId, id, title, artist, coverUrl), lists, currentListId);
      lists := EditMusicIn(lists, currentListId, id, title, artist, coverUrl);
    }

    /** `clearNonFavorites()`. */
    method ClearNonFavorites()
      requires Valid()
      modifies this`lists
      ensures Valid()
      ensures lists == ClearNonFavoritesIn(old(lists), currentListId)
    {
      SameIdsLookup(ClearNonFavoritesIn(lists, currentListId), lists, currentListId);
      lists := ClearNonFavoritesIn(lists, currentListId);
    }

    /** `createNewList()`: on success the name field is cleared. */
    method CreateNewList(freshId: string, now: Timestamp)
      requires Valid()
      modifies this`lists, this`currentListId, this`newListName
      ensures Valid()
      ensures Store(lists, currentListId) == CreateList(old(Store(lists, currentListId)), old(newListName), freshId, now)
      ensures newListName == if IsBlank(old(newListName)) then old(newListName) else ""
    {
      PageLaws.CreateListEffect(Store(lists, currentListId), newListName, freshId, now);
      if !IsBlank(newListName) {
        var s := CreateList(Store(lists, currentListId), newListName, freshId, now);
        lists, currentListId := s.lists, s.currentListId;
        newListName := "";
      }
    }

    /** `deleteList(listId)`, with the last list never removed. */
    method DeleteList(listId: string)
      requires Valid()
      modifies this`lists, this`currentListId
      ensures Valid()
      ensures Store(lists, currentListId) == MusicLists.DeleteList(old(Store(lists, currentListId)), listId)
    {
      PageLaws.DeleteListEffect(Store(lists, currentListId), listId);
      var s := MusicLists.DeleteList(Store(lists, currentListId), listId);
      lists, currentListId := s.lists, s.currentListId;
    }

    /**
      `shareList()`: the code for the selected list, with `encode` standing for
      `payload => btoa(JSON.stringify(payload))`; nothing without a selected list.
    */
    method ShareList(now: Timestamp, encode: SharePayload -> string) returns (code: Option<string>)
      ensures code.Some? <==> FindList(lists, currentListId).Some?
      ensures code.Some? ==> StartsWith(code.value, ShareTag)
      ensures code.Some? ==> code.value == ShareCode(encode(SharePayload(
                FindList(lists, currentListId).value.name, CurrentMusics(lists, currentListId), now)))
    {
      var payload := ShareOf(lists, currentListId, now);
      match payload {
        case None => code := None;
        case Some(p) =>
          PageLaws.ShareCodeRoundTrip(encode(p));
          code := Some(ShareCode(encode(p)));
      }
    }

    /**
      `importList()` on the import box: the state becomes what `Import`
      computes, and the box is cleared only after a successful import.
    */
    method ImportList(decode: string -> Decoded, parseUrl: string -> UrlQuery, confirmed: bool)
      returns (outcome: ImportOutcome)
      requires Valid()
      modifies this`lists, this`importUrl
      ensures Valid()
      ensures var step := Import(old(lists), currentListId, old(importUrl), decode, parseUrl, confirmed);
        outcome == step.outcome && lists == step.lists &&
        importUrl == if step.outcome.Imported? then "" else old(importUrl)
    {
      var step := Import(lists, currentListId, importUrl, decode, parseUrl, confirmed);
      PageLaws.ImportKeepsListIds(lists, currentListId, importUrl, decode, parseUrl, confirmed);
      outcome := step.outcome;
      lists := step.lists;
      if step.outcome.Imported? {
        importUrl := "";
      }
    }
  }
}
