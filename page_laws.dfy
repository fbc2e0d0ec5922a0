/**
  What the handlers of the `Home` page guarantee, stated about the pure
  functions of module MusicLists.
*/
module PageLaws {
  import opened Optional
  import opened Seqs
  import opened Text
  import opened MusicLists

  /** The songs of the selected list are those of the first list carrying its identifier. */
  lemma CurrentMusicsAt(lists: seq<MusicList>, cur: string)
    ensures FirstIndex(lists, cur).None? ==> CurrentMusics(lists, cur) == []
    ensures FirstIndex(lists, cur).Some? ==> CurrentMusics(lists, cur) == lists[FirstIndex(lists, cur).value].musics
  {
  }

  // ------------------------------------------------------------ toggleFavorite

  lemma ToggledTwice(ms: seq<MusicItem>, id: string)
    ensures Toggled(Toggled(ms, id), id) == ms
  {
    var r1 := Toggled(ms, id);
    var r2 := Toggled(r1, id);
    forall k | 0 <= k < |ms| ensures r2[k] == ms[k] {
      assert r1[k].id == ms[k].id;
    }
  }

  /** Toggling the same song twice restores the whole state. */
  lemma ToggleFavoriteTwice(lists: seq<MusicList>, cur: string, id: string)
    ensures ToggleFavoriteIn(ToggleFavoriteIn(lists, cur, id), cur, id) == lists
  {
    var r1 := ToggleFavoriteIn(lists, cur, id);
    var r2 := ToggleFavoriteIn(r1, cur, id);
    forall i | 0 <= i < |lists| ensures r2[i] == lists[i] {
      if lists[i].id == cur {
        ToggledTwice(lists[i].musics, id);
      }
    }
  }

  /** Toggling an identifier that no selected list contains changes nothing. */
  lemma ToggleFavoriteUnknownId(lists: seq<MusicList>, cur: string, id: string)
    requires forall i, k :: 0 <= i < |lists| && lists[i].id == cur && 0 <= k < |lists[i].musics| ==>
               lists[i].musics[k].id != id
    ensures ToggleFavoriteIn(lists, cur, id) == lists
  {
    var r := ToggleFavoriteIn(lists, cur, id);
    forall i | 0 <= i < |lists| ensures r[i] == lists[i] {
      if lists[i].id == cur {
        assert r[i].musics == lists[i].musics;
      }
    }
  }

  /**
    Only the flags of the songs with that identifier in the selected lists flip;
    every other field and every other list stays as it was.
  */
  lemma ToggleFavoriteScope(lists: seq<MusicList>, cur: string, id: string)
    ensures var r := ToggleFavoriteIn(lists, cur, id);
      |r| == |lists| &&
      forall i :: 0 <= i < |lists| ==>
        (lists[i].id != cur ==> r[i] == lists[i]) &&
        (lists[i].id == cur ==>
           r[i].(musics := lists[i].musics) == lists[i] && |r[i].musics| == |lists[i].musics| &&
           forall k :: 0 <= k < |lists[i].musics| ==>
             r[i].musics[k].isFavorite == (lists[i].musics[k].isFavorite != (lists[i].musics[k].id == id)) &&
             r[i].musics[k].(isFavorite := lists[i].musics[k].isFavorite) == lists[i].musics[k])
  {
  }

  // ------------------------------------------------------------ deleteMusic

  /**
    Deleting by identifier keeps exactly the songs with another identifier, in
    their original order and each as often as before.
  */
  lemma WithoutIdExact(ms: seq<MusicItem>, id: string)
    ensures IsSubsequence(WithoutId(ms, id), ms)
    ensures forall m :: Count(WithoutId(ms, id), m) == if m.id != id then Count(ms, m) else 0
    ensures WithoutId(WithoutId(ms, id), id) == WithoutId(ms, id)
    ensures (forall k :: 0 <= k < |ms| ==> ms[k].id != id) ==> WithoutId(ms, id) == ms
  {
    FilterIsSubsequence(ms, (m: MusicItem) => m.id != id);
    FilterIdempotent(ms, (m: MusicItem) => m.id != id);
    if forall k :: 0 <= k < |ms| ==> ms[k].id != id {
      FilterAllKept(ms, (m: MusicItem) => m.id != id);
    }
  }

  /** `deleteMusic` twice with the same identifier is `deleteMusic` once; other lists are untouched. */
  lemma DeleteMusicTwice(lists: seq<MusicList>, cur: string, id: string)
    ensures DeleteMusicIn(DeleteMusicIn(lists, cur, id), cur, id) == DeleteMusicIn(lists, cur, id)
  {
    var r1 := DeleteMusicIn(lists, cur, id);
    var r2 := DeleteMusicIn(r1, cur, id);
    forall i | 0 <= i < |lists| ensures r2[i] == r1[i] {
      if lists[i].id == cur {
        WithoutIdExact(lists[i].musics, id);
      }
    }
  }

  // ------------------------------------------------------------ editMusic

  /** Editing the same song with the same values twice is editing it once. */
  lemma EditMusicTwice(lists: seq<MusicList>, cur: string, id: string, title: string, artist: string, coverUrl: string)
    ensures EditMusicIn(EditMusicIn(lists, cur, id, title, artist, coverUrl), cur, id, title, artist, coverUrl) ==
            EditMusicIn(lists, cur, id, title, artist, coverUrl)
  {
    var r1 := EditMusicIn(lists, cur, id, title, artist, coverUrl);
    var r2 := EditMusicIn(r1, cur, id, title, artist, coverUrl);
    forall i | 0 <= i < |lists| ensures r2[i] == r1[i] {
      if lists[i].id == cur {
        var e1 := r1[i].musics;
        forall k | 0 <= k < |e1| ensures r2[i].musics[k] == e1[k] { }
      }
    }
  }

  /** Editing never changes identifiers, flags or timestamps, nor the set of lists. */
  lemma EditMusicKeepsIdentity(lists: seq<MusicList>, cur: string, id: string, title: string, artist: string, coverUrl: string)
    ensures var r := EditMusicIn(lists, cur, id, title, artist, coverUrl);
      SameIds(r, lists) &&
      forall i :: 0 <= i < |lists| ==>
        (|r[i].musics| == |lists[i].musics| &&
         forall k :: 0 <= k < |lists[i].musics| ==>
           r[i].musics[k].id == lists[i].musics[k].id &&
           r[i].musics[k].isFavorite == lists[i].musics[k].isFavorite &&
           r[i].musics[k].createdAt == lists[i].musics[k].createdAt)
  {
  }

  // ------------------------------------------------------------ clearNonFavorites

  /**
    After clearing, the selected list holds exactly its favourites, in order and
    each as often as before, and no others.
  */
  lemma ClearNonFavoritesExact(ms: seq<MusicItem>)
    ensures IsSubsequence(Filter(ms, IsFavorite), ms)
    ensures forall m :: Count(Filter(ms, IsFavorite), m) == if m.isFavorite then Count(ms, m) else 0
    ensures OthersCount(Filter(ms, IsFavorite)) == 0
    ensures FavoritesCount(Filter(ms, IsFavorite)) == FavoritesCount(ms)
  {
    FilterIsSubsequence(ms, IsFavorite);
    FilterIdempotent(ms, IsFavorite);
    FilterNoneKept(Filter(ms, IsFavorite), IsOther);
  }

  /** `clearNonFavorites` is idempotent. */
  lemma ClearNonFavoritesTwice(lists: seq<MusicList>, cur: string)
    ensures ClearNonFavoritesIn(ClearNonFavoritesIn(lists, cur), cur) == ClearNonFavoritesIn(lists, cur)
  {
    var r1 := ClearNonFavoritesIn(lists, cur);
    var r2 := ClearNonFavoritesIn(r1, cur);
    forall i | 0 <= i < |lists| ensures r2[i] == r1[i] {
      if lists[i].id == cur {
        FilterIdempotent(lists[i].musics, IsFavorite);
      }
    }
  }

  // ------------------------------------------------------------ addMusic

  /** A song built from non-blank fields has non-empty trimmed fields and is not a favourite. */
  lemma NewMusicFields(freshId: string, title: string, artist: string, coverUrl: string, now: Timestamp)
    requires !IsBlank(title) && !IsBlank(artist)
    ensures var m := NewMusic(freshId, title, artist, coverUrl, now);
      m.id == freshId && m.title != [] && m.artist != [] && !m.isFavorite &&
      Trim(m.title) == m.title && Trim(m.artist) == m.artist && Trim(m.coverUrl) == m.coverUrl
  {
    TrimmedNotBlank(title);
    TrimmedNotBlank(artist);
    TrimIdempotent(coverUrl);
  }

  /**
    Adding to an existing selected list puts the new song at the front of the
    selected list's songs, and so at the front of the "all" view; lists with
    another identifier are untouched and no list identifier changes.
  */
  lemma AddMusicPutsItemFirst(lists: seq<MusicList>, cur: string, item: MusicItem)
    requires FindList(lists, cur).Some?
    ensures CurrentMusics(AddMusicIn(lists, cur, item), cur) == [item] + CurrentMusics(lists, cur)
    ensures FilterView(CurrentMusics(AddMusicIn(lists, cur, item), cur), All)[0] == item
    ensures SameIds(AddMusicIn(lists, cur, item), lists)
    ensures forall i :: 0 <= i < |lists| && lists[i].id != cur ==> AddMusicIn(lists, cur, item)[i] == lists[i]
  {
    var r := AddMusicIn(lists, cur, item);
    SameIdsLookup(r, lists, cur);
    var ms := CurrentMusics(r, cur);
    FilterAllKept(ms, (m: MusicItem) => Shown(All, m));
  }

  /**
    Submitting the form adds exactly the trimmed song at the front of the
    selected list when the guard holds and changes nothing otherwise; no list
    identifier changes.
  */
  lemma SubmitMusicEffect(lists: seq<MusicList>, cur: string, title: string, artist: string,
                          coverUrl: string, freshId: string, now: Timestamp)
    ensures !AcceptsNewMusic(lists, cur, title, artist) ==> SubmitMusic(lists, cur, title, artist, coverUrl, freshId, now) == lists
    ensures AcceptsNewMusic(lists, cur, title, artist) ==>
      var after := SubmitMusic(lists, cur, title, artist, coverUrl, freshId, now);
      CurrentMusics(after, cur) == [NewMusic(freshId, title, artist, coverUrl, now)] + CurrentMusics(lists, cur)
    ensures SameIds(SubmitMusic(lists, cur, title, artist, coverUrl, freshId, now), lists)
  {
    if AcceptsNewMusic(lists, cur, title, artist) {
      AddMusicPutsItemFirst(lists, cur, NewMusic(freshId, title, artist, coverUrl, now));
    }
  }

  /** Submitting the form keeps a valid selection valid. */
  lemma SubmitMusicKeepsSelection(lists: seq<MusicList>, cur: string, title: string, artist: string,
                                  coverUrl: string, freshId: string, now: Timestamp)
    requires SelectionValid(lists, cur)
    ensures SelectionValid(SubmitMusic(lists, cur, title, artist, coverUrl, freshId, now), cur)
  {
    SubmitMusicEffect(lists, cur, title, artist, coverUrl, freshId, now);
    SameIdsLookup(SubmitMusic(lists, cur, title, artist, coverUrl, freshId, now), lists, cur);
  }

  // ------------------------------------------------------------ createNewList

  /**
    A blank name changes nothing; otherwise the new list, with the trimmed name
    and no songs, is appended after the existing lists and becomes selected.
  */
  lemma CreateListEffect(s: Store, name: string, freshId: string, now: Timestamp)
    ensures IsBlank(name) ==> CreateList(s, name, freshId, now) == s
    ensures !IsBlank(name) ==>
      var r := CreateList(s, name, freshId, now);
      |r.lists| == |s.lists| + 1 && r.lists[..|s.lists|] == s.lists &&
      r.lists[|s.lists|].id == freshId && r.lists[|s.lists|].name == Trim(name) &&
      r.lists[|s.lists|].name != [] && r.lists[|s.lists|].musics == [] &&
      r.currentListId == freshId && SelectionValid(r.lists, r.currentListId)
  {
    if !IsBlank(name) {
      var r := CreateList(s, name, freshId, now);
      assert r.lists[|s.lists|].id == freshId;
    }
  }

  // ------------------------------------------------------------ deleteList

  /**
    Removing a list identifier keeps exactly the lists with another identifier,
    in order and each as often as before.
  */
  lemma WithoutListExact(lists: seq<MusicList>, listId: string)
    ensures IsSubsequence(WithoutList(lists, listId), lists)
    ensures forall i :: 0 <= i < |WithoutList(lists, listId)| ==> WithoutList(lists, listId)[i].id != listId
    ensures forall i :: 0 <= i < |lists| && lists[i].id != listId ==> lists[i] in WithoutList(lists, listId)
    ensures forall l :: Count(WithoutList(lists, listId), l) == if l.id != listId then Count(lists, l) else 0
  {
    FilterIsSubsequence(lists, (l: MusicList) => l.id != listId);
  }

  /**
    With at most one list `deleteList` does nothing; the number of lists never
    drops from one or more to zero; otherwise exactly the lists with another
    identifier remain, and a deleted selection falls back to the first of them.
  */
  lemma DeleteListEffect(s: Store, listId: string)
    ensures |s.lists| <= 1 ==> DeleteList(s, listId) == s
    ensures |s.lists| >= 1 ==> |DeleteList(s, listId).lists| >= 1
    ensures |s.lists| > 1 && (exists i :: 0 <= i < |s.lists| && s.lists[i].id != listId) ==>
      var r := DeleteList(s, listId);
      r.lists == WithoutList(s.lists, listId) &&
      (forall i :: 0 <= i < |r.lists| ==> r.lists[i].id != listId) &&
      (s.currentListId == listId ==> r.currentListId == r.lists[0].id) &&
      (s.currentListId != listId ==> r.currentListId == s.currentListId)
    ensures SelectionValid(s.lists, s.currentListId) ==>
              SelectionValid(DeleteList(s, listId).lists, DeleteList(s, listId).currentListId)
  {
    WithoutListExact(s.lists, listId);
    var newLists := WithoutList(s.lists, listId);
    if |s.lists| > 1 && (exists i :: 0 <= i < |s.lists| && s.lists[i].id != listId) {
      var i :| 0 <= i < |s.lists| && s.lists[i].id != listId;
      assert s.lists[i] in newLists;
    }
    if SelectionValid(s.lists, s.currentListId) && |s.lists| > 1 && |newLists| > 0 && s.currentListId != listId {
      var l := FindList(s.lists, s.currentListId).value;
      var i :| 0 <= i < |s.lists| && s.lists[i] == l;
      assert l in newLists;
    }
  }

  /**
    The intended `deleteList` and the handler as written agree whenever some
    list survives the deletion, in particular whenever list identifiers are
    unique and there are at least two lists.
  */
  lemma DeleteListAgreesWithHandler(s: Store, listId: string)
    requires exists i :: 0 <= i < |s.lists| && s.lists[i].id != listId
    ensures DeleteListAsWritten(s, listId) == Deletion(DeleteList(s, listId), false)
  {
    WithoutListExact(s.lists, listId);
    var i :| 0 <= i < |s.lists| && s.lists[i].id != listId;
    assert s.lists[i] in WithoutList(s.lists, listId);
  }

  /** With unique identifiers and two lists or more, some list survives any deletion. */
  lemma UniqueIdsLeaveSurvivor(s: Store, listId: string)
    requires ListIdsUnique(s.lists) && |s.lists| > 1
    ensures exists i :: 0 <= i < |s.lists| && s.lists[i].id != listId
  {
    if s.lists[0].id == listId {
      assert s.lists[1].id != listId;
    }
  }

  /**
    As written, with a valid selection and two lists or more: the handler leaves
    no list exactly when every list carries the deleted identifier. The selected
    list is then among them, and the handler throws after emptying the store.
  */
  lemma DeleteListAsWrittenEmptiesStore(s: Store, listId: string)
    requires SelectionValid(s.lists, s.currentListId) && |s.lists| > 1
    ensures DeleteListAsWritten(s, listId).store.lists == [] <==>
            forall i :: 0 <= i < |s.lists| ==> s.lists[i].id == listId
    ensures DeleteListAsWritten(s, listId).store.lists == [] ==>
            s.currentListId == listId && DeleteListAsWritten(s, listId).threw
    ensures DeleteListAsWritten(s, listId).threw ==> DeleteListAsWritten(s, listId).store.lists == []
  {
    var newLists := WithoutList(s.lists, listId);
    if forall i :: 0 <= i < |s.lists| ==> s.lists[i].id == listId {
      FilterNoneKept(s.lists, (l: MusicList) => l.id != listId);
      var k := FirstIndex(s.lists, s.currentListId).value;
      assert s.lists[k].id == listId;
    } else {
      var i :| 0 <= i < |s.lists| && s.lists[i].id != listId;
      assert s.lists[i] in newLists;
    }
  }

  /** As written: two lists sharing one identifier, that one selected and deleted, leave an empty store and a throw. */
  lemma DeleteListAsWrittenThrows()
    ensures var x := MusicList("x", "a", [], 0, false);
      var y := MusicList("x", "b", [], 0, false);
      DeleteListAsWritten(Store([x, y], "x"), "x") == Deletion(Store([], "x"), true)
  {
    var x := MusicList("x", "a", [], 0, false);
    var y := MusicList("x", "b", [], 0, false);
    FilterNoneKept([x, y], (l: MusicList) => l.id != "x");
  }

  // ------------------------------------------------------------ view and counts

  /**
    The displayed songs are an order-preserving subsequence of the selected
    list; "all" shows it whole; the two other views have the lengths of the counters,
    which add up to the number of songs.
  */
  lemma ViewAndCounts(ms: seq<MusicItem>)
    ensures forall v :: IsSubsequence(FilterView(ms, v), ms)
    ensures FilterView(ms, All) == ms
    ensures |FilterView(ms, Favorites)| == FavoritesCount(ms)
    ensures |FilterView(ms, Others)| == OthersCount(ms)
    ensures FavoritesCount(ms) + OthersCount(ms) == |ms|
  {
    forall v ensures IsSubsequence(FilterView(ms, v), ms) {
      FilterIsSubsequence(ms, (m: MusicItem) => Shown(v, m));
    }
    FilterAllKept(ms, (m: MusicItem) => Shown(All, m));
    FilterExt(ms, (m: MusicItem) => Shown(Favorites, m), IsFavorite);
    FilterExt(ms, (m: MusicItem) => Shown(Others, m), IsOther);
    FilterComplementLengths(ms, IsFavorite, IsOther);
  }

  // ------------------------------------------------------------ share and import

  /** A share code always starts with the tag, and stripping the tag gives back the encoded payload. */
  lemma ShareCodeRoundTrip(encoded: string)
    ensures StartsWith(ShareCode(encoded), ShareTag)
    ensures StripTag(ShareCode(encoded)) == encoded
    ensures !IsBlank(ShareCode(encoded))
  {
    var code := ShareCode(encoded);
    assert code[..|ShareTag|] == ShareTag;
    ReplacePrefix(code, ShareTag);
    assert code[|ShareTag|..] == encoded;
    BlankIffAllWhitespace(code);
    assert code[0] == 'm';
  }

  /**
    The imported songs split into the duplicates and the fresh ones; the fresh
    ones are, in order, exactly the imported songs without a match.
  */
  lemma FreshItemsExact(current: seq<MusicItem>, imported: seq<MusicItem>)
    ensures IsSubsequence(FreshItems(current, imported), imported)
    ensures forall k :: 0 <= k < |FreshItems(current, imported)| ==> !HasMatch(current, FreshItems(current, imported)[k])
    ensures forall k :: 0 <= k < |imported| && !HasMatch(current, imported[k]) ==> imported[k] in FreshItems(current, imported)
    ensures forall x :: Count(FreshItems(current, imported), x) == if !HasMatch(current, x) then Count(imported, x) else 0
    ensures |FreshItems(current, imported)| + |Duplicates(current, imported)| == |imported|
  {
    var r := FreshItems(current, imported);
    assert IsSubsequence(r, imported) by {
      FilterIsSubsequence(imported, (x: MusicItem) => !HasMatch(current, x));
    }
    assert |r| + |Duplicates(current, imported)| == |imported| by {
      FilterComplementLengths(imported, (x: MusicItem) => !HasMatch(current, x), (x: MusicItem) => HasMatch(current, x));
    }
  }

  /** A refused confirmation leaves the state exactly as it was. */
  lemma MergeDeclined(lists: seq<MusicList>, cur: string, imported: seq<MusicItem>, confirmed: bool)
    ensures MergeStep(lists, cur, imported, confirmed).outcome == Declined <==>
            (!confirmed && |Duplicates(CurrentMusics(lists, cur), imported)| > 0)
    ensures MergeStep(lists, cur, imported, confirmed).outcome == Declined ==>
            MergeStep(lists, cur, imported, confirmed).lists == lists
  {
  }

  /**
    A merge that goes ahead makes the selected list its old songs followed by
    the fresh imported songs; lists with another identifier are untouched and
    the number of imported songs reported is the number appended.
  */
  lemma MergeAppendsFresh(lists: seq<MusicList>, cur: string, imported: seq<MusicItem>, confirmed: bool)
    requires MergeStep(lists, cur, imported, confirmed).outcome != Declined
    ensures var step := MergeStep(lists, cur, imported, confirmed);
      var newMusics := FreshItems(CurrentMusics(lists, cur), imported);
      step.outcome == Imported(|newMusics|) &&
      SameIds(step.lists, lists) &&
      (forall i :: 0 <= i < |lists| && lists[i].id != cur ==> step.lists[i] == lists[i]) &&
      (forall i :: 0 <= i < |lists| && lists[i].id == cur ==>
         step.lists[i] == lists[i].(musics := lists[i].musics + newMusics)) &&
      (FindList(lists, cur).Some? ==>
         CurrentMusics(step.lists, cur) == CurrentMusics(lists, cur) + newMusics)
  {
    var step := MergeStep(lists, cur, imported, confirmed);
    SameIdsLookup(step.lists, lists, cur);
  }

  /** The selected list matches every song it already contains after a merge of them. */
  lemma MergedMatchesImported(current: seq<MusicItem>, imported: seq<MusicItem>)
    ensures forall x :: x in imported ==> HasMatch(current + FreshItems(current, imported), x)
  {
    var merged := current + FreshItems(current, imported);
    forall x | x in imported ensures HasMatch(merged, x) {
      if HasMatch(current, x) {
        var k :| 0 <= k < |current| && SameSong(current[k], x);
        assert merged[k] == current[k];
      } else {
        var j :| 0 <= j < |imported| && imported[j] == x;
        FreshItemsExact(current, imported);
        var n :| 0 <= n < |FreshItems(current, imported)| && FreshItems(current, imported)[n] == x;
        assert merged[|current| + n] == x;
      }
    }
  }

  /** Importing the same songs a second time adds nothing. */
  lemma MergeIdempotent(lists: seq<MusicList>, cur: string, imported: seq<MusicItem>)
    ensures var once := MergeStep(lists, cur, imported, true);
      var twice := MergeStep(once.lists, cur, imported, true);
      twice.lists == once.lists &&
      (FindList(lists, cur).Some? ==> twice.outcome == Imported(0))
  {
    var once := MergeStep(lists, cur, imported, true);
    MergeAppendsFresh(lists, cur, imported, true);
    var current := CurrentMusics(lists, cur);
    var after := CurrentMusics(once.lists, cur);
    var extra := FreshItems(after, imported);
    if FindList(lists, cur).Some? {
      MergedMatchesImported(current, imported);
      FilterNoneKept(imported, (x: MusicItem) => !HasMatch(after, x));
      AppendNothing(once.lists, cur);
    } else {
      // No list is selected, so neither merge touches any list.
      var twice := AppendToCurrent(once.lists, cur, extra);
      forall i | 0 <= i < |lists| ensures once.lists[i] == lists[i] && twice[i] == lists[i] { }
    }
  }

  /** No import changes the identifiers of the lists, so the selection stays valid. */
  lemma ImportKeepsListIds(lists: seq<MusicList>, cur: string, code: string,
                           decode: string -> Decoded, parseUrl: string -> UrlQuery, confirmed: bool)
    ensures SameIds(Import(lists, cur, code, decode, parseUrl, confirmed).lists, lists)
    ensures SelectionValid(lists, cur) ==> SelectionValid(Import(lists, cur, code, decode, parseUrl, confirmed).lists, cur)
  {
    var step := Import(lists, cur, code, decode, parseUrl, confirmed);
    SameIdsLookup(step.lists, lists, cur);
  }

  /** A blank import box does nothing. */
  lemma ImportBlank(lists: seq<MusicList>, cur: string, code: string,
                    decode: string -> Decoded, parseUrl: string -> UrlQuery, confirmed: bool)
    requires IsBlank(code)
    ensures Import(lists, cur, code, decode, parseUrl, confirmed) == ImportStep(Blank, lists)
  {
  }

  /**
    A tagged code whose payload cannot be decoded is invalid; one whose payload
    carries no array `musics` never reaches the merge of that payload: it is
    handled as a legacy URL, and is invalid when it is not a URL.
  */
  lemma ImportTaggedWithoutSongs(lists: seq<MusicList>, cur: string, code: string,
                                 decode: string -> Decoded, parseUrl: string -> UrlQuery, confirmed: bool)
    requires !IsBlank(code) && StartsWith(code, ShareTag)
    ensures decode(StripTag(code)).Unreadable? ==>
              Import(lists, cur, code, decode, parseUrl, confirmed) == ImportStep(Invalid, lists)
    ensures decode(StripTag(code)).Decoded? && decode(StripTag(code)).musics.None? ==>
              Import(lists, cur, code, decode, parseUrl, confirmed) == LegacyImport(lists, cur, parseUrl(code), confirmed)
    ensures decode(StripTag(code)).Decoded? && decode(StripTag(code)).musics.None? && parseUrl(code).NotAUrl? ==>
              Import(lists, cur, code, decode, parseUrl, confirmed) == ImportStep(Invalid, lists)
  {
  }

  /** Importing a share code merges exactly the songs its payload decodes to. */
  lemma ImportShareCode(lists: seq<MusicList>, cur: string, encoded: string, name: string, songs: seq<MusicItem>,
                        decode: string -> Decoded, parseUrl: string -> UrlQuery, confirmed: bool)
    requires decode(encoded) == Decoded(name, Some(songs))
    ensures Import(lists, cur, ShareCode(encoded), decode, parseUrl, confirmed) == MergeStep(lists, cur, songs, confirmed)
  {
    ShareCodeRoundTrip(encoded);
  }

  /**
    Importing the selected list's own share payload back into it never changes
    the state, whatever the user answers.
  */
  lemma ImportOwnShare(lists: seq<MusicList>, cur: string, now: Timestamp, confirmed: bool)
    requires ShareOf(lists, cur, now).Some?
    ensures MergeStep(lists, cur, ShareOf(lists, cur, now).value.musics, confirmed).lists == lists
  {
    var ms := ShareOf(lists, cur, now).value.musics;
    assert ms == CurrentMusics(lists, cur);
    FreshItemsOfSelf(ms);
    AppendNothing(lists, cur);
  }

  /** Every song matches itself, so a list has no fresh songs relative to itself. */
  lemma FreshItemsOfSelf(ms: seq<MusicItem>)
    ensures FreshItems(ms, ms) == []
  {
    forall x | x in ms ensures HasMatch(ms, x) {
      var k :| 0 <= k < |ms| && ms[k] == x;
    }
    FilterNoneKept(ms, (x: MusicItem) => !HasMatch(ms, x));
  }

  /** Appending no songs to the selected list changes nothing. */
  lemma AppendNothing(lists: seq<MusicList>, cur: string)
    ensures AppendToCurrent(lists, cur, []) == lists
  {
    var r := AppendToCurrent(lists, cur, []);
    forall i | 0 <= i < |lists| ensures r[i] == lists[i] {
      assert lists[i].musics + [] == lists[i].musics;
    }
  }

  /** Title and artist that differ only in letter case lower-case to the same strings. */
  lemma ImagineMatches(mine: MusicItem, theirs: MusicItem)
    requires mine.title == "imagine" && mine.artist == "john lennon"
    requires theirs.title == "Imagine" && theirs.artist == "John Lennon"
    ensures SameSong(mine, theirs)
  {
    // Only the first letter of each word differs in case.
    ToLowerFirstLetter(mine.title, theirs.title);
    var first, last, First, Last := "john ", "lennon", "John ", "Lennon";
    assert mine.artist == first + last && theirs.artist == First + Last;
    ToLowerConcat(first, last);
    ToLowerConcat(First, Last);
    ToLowerFirstLetter(first, First);
    ToLowerFirstLetter(last, Last);
  }

  /**
    "Imagine" by "John Lennon" is a duplicate of "imagine" by "john lennon":
    without confirmation nothing is imported, with it nothing is appended.
  */
  lemma ImagineIsDuplicate(lists: seq<MusicList>, cur: string, mine: MusicItem, theirs: MusicItem)
    requires CurrentMusics(lists, cur) == [mine]
    requires mine.title == "imagine" && mine.artist == "john lennon"
    requires theirs.title == "Imagine" && theirs.artist == "John Lennon"
    ensures MergeStep(lists, cur, [theirs], false) == ImportStep(Declined, lists)
    ensures MergeStep(lists, cur, [theirs], true).outcome == Imported(0)
  {
    ImagineMatches(mine, theirs);
    assert HasMatch([mine], theirs) by { assert [mine][0] == mine; }
    FreshItemsExact([mine], [theirs]);
    FilterNoneKept([theirs], (x: MusicItem) => !HasMatch([mine], x));
  }
}
