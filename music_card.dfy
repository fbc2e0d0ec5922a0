/**
  The `Music` component: one song of the list with its inline editor and its
  three-dot menu. Calls to the parent's callbacks are returned as values.
*/
module MusicCard {
  import opened Optional
  import opened Text
  import opened MusicLists

  /** The arguments of `onEdit(id, newTitle, newArtist, newCoverUrl)`. */
  datatype MusicEdit = MusicEdit(id: string, title: string, artist: string, coverUrl: string)

  /**
    The call `handleEdit` makes: `onEdit` with the trimmed buffers, and only
    when neither title nor artist is blank. What it passes on is never blank
    and trimming it again changes nothing.
  */
  function CommitEdit(id: string, editTitle: string, editArtist: string, editCoverUrl: string): (r: Option<MusicEdit>)
    ensures r.Some? <==> !IsBlank(editTitle) && !IsBlank(editArtist)
    ensures r.Some? ==> r.value.id == id && r.value.title == Trim(editTitle) &&
                        r.value.artist == Trim(editArtist) && r.value.coverUrl == Trim(editCoverUrl)
    ensures r.Some? ==> r.value.title != [] && r.value.artist != [] &&
                        Trim(r.value.title) == r.value.title && Trim(r.value.artist) == r.value.artist &&
                        Trim(r.value.coverUrl) == r.value.coverUrl
  {
    if !IsBlank(editTitle) && !IsBlank(editArtist) then
      TrimmedNotBlank(editTitle);
      TrimmedNotBlank(editArtist);
      TrimIdempotent(editCoverUrl);
      Some(MusicEdit(id, Trim(editTitle), Trim(editArtist), Trim(editCoverUrl)))
    else None
  }

  /**
    `editMusic` does no validation of its own, but an edit that went through
    the card's gate stores a non-blank, trimmed title and artist in every
    song it rewrites.
  */
  lemma GatedEditStoresCleanFields(lists: seq<MusicList>, cur: string, e: MusicEdit,
                                   editTitle: string, editArtist: string, editCoverUrl: string)
    requires CommitEdit(e.id, editTitle, editArtist, editCoverUrl) == Some(e)
    ensures var r := EditMusicIn(lists, cur, e.id, e.title, e.artist, e.coverUrl);
      forall i, k :: 0 <= i < |lists| && lists[i].id == cur && 0 <= k < |lists[i].musics| &&
                     lists[i].musics[k].id == e.id ==>
        r[i].musics[k].title != [] && Trim(r[i].musics[k].title) == r[i].musics[k].title &&
        r[i].musics[k].artist != [] && Trim(r[i].musics[k].artist) == r[i].musics[k].artist
  {
  }

  class MusicCard {
    // The props; `id` is also the React key, so one card stays with one song.
    const id: string
    var title: string
    var artist: string
    var coverUrl: string
    var isFavorite: bool
    // The state slots.
    var isEditing: bool
    var showMenu: bool
    var editTitle: string
    var editArtist: string
    var editCoverUrl: string

    /** The first render: not editing, menu closed, buffers holding the props. */
    constructor (id: string, title: string, artist: string, coverUrl: string, isFavorite: bool)
      ensures this.id == id && this.title == title && this.artist == artist
      ensures this.coverUrl == coverUrl && this.isFavorite == isFavorite
      ensures !isEditing && !showMenu
      ensures editTitle == title && editArtist == artist && editCoverUrl == coverUrl
    {
      this.id := id;
      this.title, this.artist, this.coverUrl, this.isFavorite := title, artist, coverUrl, isFavorite;
      isEditing, showMenu := false, false;
      editTitle, editArtist, editCoverUrl := title, artist, coverUrl;
    }

    /** A re-render with new props: `useState` keeps the buffers it was first given. */
    method Rerender(title: string, artist: string, coverUrl: string, isFavorite: bool)
      modifies this`title, this`artist, this`coverUrl, this`isFavorite
      ensures this.title == title && this.artist == artist
      ensures this.coverUrl == coverUrl && this.isFavorite == isFavorite
    {
      this.title, this.artist, this.coverUrl, this.isFavorite := title, artist, coverUrl, isFavorite;
    }

    method SetEditTitle(value: string)
      requires isEditing
      modifies this`editTitle
      ensures editTitle == value
    {
      editTitle := value;
    }

    method SetEditArtist(value: string)
      requires isEditing
      modifies this`editArtist
      ensures editArtist == value
    {
      editArtist := value;
    }

    method SetEditCoverUrl(value: string)
      requires isEditing
      modifies this`editCoverUrl
      ensures editCoverUrl == value
    {
      editCoverUrl := value;
    }

    /**
      `handleEdit`, the Save button: a commit emits the trimmed edit and leaves
      edit mode; blank input emits nothing and stays in edit mode.
    */
    method HandleEdit() returns (emitted: Option<MusicEdit>)
      requires isEditing
      modifies this`isEditing
      ensures emitted == CommitEdit(id, editTitle, editArtist, editCoverUrl)
      ensures isEditing <==> emitted.None?
    {
      emitted := CommitEdit(id, editTitle, editArtist, editCoverUrl);
      if emitted.Some? {
        isEditing := false;
      }
    }

    /** The Cancel button: the buffers go back to the props, editing ends, nothing is emitted. */
    method Cancel()
      requires isEditing
      modifies this`isEditing, this`editTitle, this`editArtist, this`editCoverUrl
      ensures !isEditing
      ensures editTitle == title && editArtist == artist && editCoverUrl == coverUrl
    {
      editTitle, editArtist, editCoverUrl := title, artist, coverUrl;
      isEditing := false;
    }

    /** `handleKeyPress`: Enter is Save, Escape is Cancel, any other key does nothing. */
    method KeyDown(key: string) returns (emitted: Option<MusicEdit>)
      requires isEditing
      modifies this`isEditing, this`editTitle, this`editArtist, this`editCoverUrl
      ensures key == Enter ==>
        emitted == CommitEdit(id, old(editTitle), old(editArtist), old(editCoverUrl)) &&
        (isEditing <==> emitted.None?) &&
        editTitle == old(editTitle) && editArtist == old(editArtist) && editCoverUrl == old(editCoverUrl)
      ensures key == Escape ==>
        emitted.None? && !isEditing && editTitle == title && editArtist == artist && editCoverUrl == coverUrl
      ensures key != Enter && key != Escape ==>
        emitted.None? && isEditing &&
        editTitle == old(editTitle) && editArtist == old(editArtist) && editCoverUrl == old(editCoverUrl)
    {
      if key == Enter {
        emitted := HandleEdit();
      } else if key == Escape {
        Cancel();
        emitted := None;
      } else {
        emitted := None;
      }
    }

    /** Clicking the title or the artist opens the editor. */
    method ClickText()
      requires !isEditing
      modifies this`isEditing
      ensures isEditing
    {
      isEditing := true;
    }

    /** The heart button forwards the card's own id to `onToggleFavorite`. */
    method ClickFavorite() returns (toggled: string)
      requires !isEditing
      ensures toggled == id
    {
      toggled := id;
    }

    /** The three-dot button opens or closes the menu. */
    method ToggleMenu()
      requires !isEditing
      modifies this`showMenu
      ensures showMenu == !old(showMenu)
    {
      showMenu := !showMenu;
    }

    /** "Editar" in the menu: editing starts and the menu closes. */
    method MenuEdit()
      requires !isEditing && showMenu
      modifies this`isEditing, this`showMenu
      ensures isEditing && !showMenu
    {
      isEditing := true;
      showMenu := false;
    }

    /** "Excluir" in the menu: `onDelete(id)` is called and the menu closes. */
    method MenuDelete() returns (deleted: string)
      requires !isEditing && showMenu
      modifies this`showMenu
      ensures deleted == id && !showMenu
    {
      deleted := id;
      showMenu := false;
    }

    /** A click on the overlay behind an open menu closes it. */
    method CloseMenu()
      requires !isEditing && showMenu
      modifies this`showMenu
      ensures !showMenu
    {
      showMenu := false;
    }
  }
}
