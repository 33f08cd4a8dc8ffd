/** The list rules behind the per-user collections (routes/user.js):
    favorites as an insertion-ordered set, the newest-first capped history,
    and the playlist list with its track sets. */
module Collections {
  import opened Wrappers
  import opened Documents

  // ---------------------------------------------------------------------
  // Insertion-ordered sets (a JavaScript `Set` read back with `Array.from`)

  predicate NoDup<T(==)>(s: seq<T>) {
    forall i, j :: 0 <= i < j < |s| ==> s[i] != s[j]
  }

  /** `new Set(s)` read back in iteration order: each element once, at the
      place of its first occurrence. */
  function Dedup<T(==,!new)>(s: seq<T>): (r: seq<T>)
    ensures NoDup(r)
    ensures forall x :: x in r <==> x in s
    decreases |s|
  {
    if s == [] then []
    else
      var d := Dedup(s[..|s| - 1]);
      var x := s[|s| - 1];
      if x in d then d else d + [x]
  }

  /** `set.add(x)`: a new element goes last, a present one changes nothing. */
  function SetAdd<T(==,!new)>(d: seq<T>, x: T): (r: seq<T>)
    ensures forall y :: y in r <==> y in d || y == x
    ensures NoDup(d) ==> NoDup(r)
  {
    if x in d then d else d + [x]
  }

  /** `s.filter(y => y !== x)`: every occurrence of x goes, the rest stays
      in order. */
  function RemoveAll<T(==,!new)>(s: seq<T>, x: T): (r: seq<T>)
    ensures forall y :: y in r <==> y in s && y != x
    ensures |r| <= |s|
    decreases |s|
  {
    if s == [] then []
    else (if s[0] == x then [] else [s[0]]) + RemoveAll(s[1..], x)
  }

  /** A list without repetitions is its own set. */
  lemma {:induction false} DedupOfDistinct<T(!new)>(s: seq<T>)
    requires NoDup(s)
    ensures Dedup(s) == s
    decreases |s|
  {
    if s != [] {
      var init := s[..|s| - 1];
      assert NoDup(init);
      DedupOfDistinct(init);
      assert s[|s| - 1] !in init;
      assert init + [s[|s| - 1]] == s;
    }
  }

  /** Adding to a set built from s is building it from s with x appended:
      the order of the earlier elements is kept. */
  lemma DedupSnoc<T(!new)>(s: seq<T>, x: T)
    ensures Dedup(s + [x]) == SetAdd(Dedup(s), x)
  {
    assert (s + [x])[..|s + [x]| - 1] == s;
  }

  /** Removing from a list without repetitions keeps it free of them. */
  lemma {:induction false} RemoveAllDistinct<T(!new)>(s: seq<T>, x: T)
    requires NoDup(s)
    ensures NoDup(RemoveAll(s, x))
    decreases |s|
  {
    if s != [] {
      assert NoDup(s[1..]);
      RemoveAllDistinct(s[1..], x);
      assert s[0] !in s[1..];
    }
  }

  /** Removal works piecewise, so the kept elements stay in their order. */
  lemma {:induction false} RemoveAllConcat<T(!new)>(s: seq<T>, t: seq<T>, x: T)
    ensures RemoveAll(s + t, x) == RemoveAll(s, x) + RemoveAll(t, x)
    decreases |s|
  {
    if s == [] {
      assert s + t == t;
    } else {
      assert (s + t)[0] == s[0];
      assert (s + t)[1..] == s[1..] + t;
      RemoveAllConcat(s[1..], t, x);
    }
  }

  /** Removing an absent element changes nothing. */
  lemma {:induction false} RemoveAllAbsent<T(!new)>(s: seq<T>, x: T)
    requires x !in s
    ensures RemoveAll(s, x) == s
    decreases |s|
  {
    if s != [] {
      RemoveAllAbsent(s[1..], x);
      assert [s[0]] + s[1..] == s;
    }
  }

  // ---------------------------------------------------------------------
  // Favorites

  /** The favorites after `POST /favorites {key, op}`: the stored items as a
      set, with key added for `add`, removed for `remove`, and unchanged for
      any other op. */
  function FavoritesAfter(items: seq<Key>, key: Key, op: string): seq<Key> {
    var kept := Dedup(items);
    if op == "add" then SetAdd(kept, key)
    else if op == "remove" then RemoveAll(kept, key)
    else kept
  }

  /** After `add`, key is present exactly once, every earlier favorite is
      kept, and the earlier set is a prefix of the new one (a new key goes
      last). */
  lemma FavoriteAdd(items: seq<Key>, key: Key)
    ensures var r := FavoritesAfter(items, key, "add");
            && NoDup(r) && key in r
            && (forall k :: k in r <==> k in items || k == key)
            && r[..|Dedup(items)|] == Dedup(items)
            && (key !in items ==> r[|r| - 1] == key)
  {
  }

  /** Adding twice is adding once. */
  lemma FavoriteAddIdempotent(items: seq<Key>, key: Key)
    ensures var once := FavoritesAfter(items, key, "add");
            FavoritesAfter(once, key, "add") == once
  {
    DedupOfDistinct(FavoritesAfter(items, key, "add"));
  }

  /** After `remove`, key is gone and every other favorite stays, once. */
  lemma FavoriteRemove(items: seq<Key>, key: Key)
    ensures var r := FavoritesAfter(items, key, "remove");
            && NoDup(r) && key !in r
            && (forall k :: k in r <==> k in items && k != key)
  {
    RemoveAllDistinct(Dedup(items), key);
  }

  /** Any other op only collapses duplicates: a duplicate-free list is
      written back as it was. */
  lemma FavoriteOtherOp(items: seq<Key>, key: Key, op: string)
    requires op != "add" && op != "remove"
    requires NoDup(items)
    ensures FavoritesAfter(items, key, op) == items
  {
    DedupOfDistinct(items);
  }

  // ---------------------------------------------------------------------
  // History

  const HistoryCap: nat := 1000

  /** The first HistoryCap entries of s. */
  function Capped<T>(s: seq<T>): (r: seq<T>)
    ensures |r| == if |s| < HistoryCap then |s| else HistoryCap
    ensures r == s[..|r|]
  {
    if |s| <= HistoryCap then s else s[..HistoryCap]
  }

  /** `POST /history {key}`: the play goes first, the earlier plays move one
      place down, and only the newest HistoryCap entries are kept. */
  function AddPlay(plays: seq<Play>, p: Play): (r: seq<Play>)
    ensures 1 <= |r| <= HistoryCap && r[0] == p
    ensures |plays| < HistoryCap ==> |r| == |plays| + 1
    ensures forall i :: 1 <= i < |r| ==> r[i] == plays[i - 1]
  {
    Capped([p] + plays)
  }

  function Reverse<T>(s: seq<T>): (r: seq<T>)
    ensures |r| == |s|
    decreases |s|
  {
    if s == [] then [] else Reverse(s[1..]) + [s[0]]
  }

  /** Plays added one after another. */
  function AddPlays(plays: seq<Play>, ps: seq<Play>): seq<Play>
    decreases |ps|
  {
    if ps == [] then plays else AddPlays(AddPlay(plays, ps[0]), ps[1..])
  }

  lemma CappedOfCapped<T>(a: seq<T>, b: seq<T>)
    ensures Capped(a + Capped(b)) == Capped(a + b)
  {
    var l := |Capped(a + b)|;
    assert Capped(a + Capped(b)) == (a + Capped(b))[..l];
    assert forall i :: 0 <= i < l ==> (a + Capped(b))[i] == (a + b)[i];
  }

  /** The history after a series of plays is the plays newest first,
      followed by the older history, cut to the newest HistoryCap entries
      (a stored history longer than the cap is cut by the first play). */
  lemma {:induction false} AddPlaysNewestFirst(plays: seq<Play>, ps: seq<Play>)
    requires ps != [] || |plays| <= HistoryCap
    ensures AddPlays(plays, ps) == Capped(Reverse(ps) + plays)
    decreases |ps|
  {
    if ps == [] {
      assert Reverse(ps) + plays == plays;
    } else {
      var x, rest := ps[0], ps[1..];
      AddPlaysNewestFirst(AddPlay(plays, x), rest);
      NewestFirstStep(Reverse(rest), x, plays, Reverse(ps));
    }
  }

  /** One more play in front of the older history. */
  lemma NewestFirstStep(newer: seq<Play>, x: Play, plays: seq<Play>, all: seq<Play>)
    requires all == newer + [x]
    ensures Capped(newer + AddPlay(plays, x)) == Capped(all + plays)
  {
    CappedOfCapped(newer, [x] + plays);
    assert newer + ([x] + plays) == all + plays;
  }

  // ---------------------------------------------------------------------
  // Playlists

  /** `lists.find(x => x.id === id)`: the index of the first playlist with
      that id. */
  function FindPlaylist(lists: seq<Playlist>, id: string): (r: Option<nat>)
    ensures r.None? <==> forall j :: 0 <= j < |lists| ==> lists[j].id != id
    ensures r.Some? ==> r.value < |lists| && lists[r.value].id == id
                        && forall j :: 0 <= j < r.value ==> lists[j].id != id
    decreases |lists|
  {
    if lists == [] then None
    else if lists[0].id == id then Some(0)
    else match FindPlaylist(lists[1..], id)
      case None => None
      case Some(i) => Some(i + 1)
  }

  /** `POST /playlists {name}`: a new empty playlist goes last; ids are not
      checked for uniqueness. */
  function CreatePlaylist(lists: seq<Playlist>, id: string, name: string, now: Instant): seq<Playlist> {
    lists + [Playlist(id, name, [], now, None)]
  }

  /** A created playlist is the one found under its id unless an earlier
      playlist already has that id; the others are kept in place. */
  lemma CreateThenFind(lists: seq<Playlist>, id: string, name: string, now: Instant)
    ensures var r := CreatePlaylist(lists, id, name, now);
            && r[..|lists|] == lists
            && r[|lists|] == Playlist(id, name, [], now, None)
            && FindPlaylist(r, id) == if FindPlaylist(lists, id).Some? then FindPlaylist(lists, id) else Some(|lists|)
  {
    var r := CreatePlaylist(lists, id, name, now);
    assert r[..|lists|] == lists;
    match FindPlaylist(lists, id)
    case Some(k) =>
      assert r[k] == lists[k];
      forall j | 0 <= j < k
        ensures r[j].id != id
      {
        assert r[j] == lists[j];
      }
      FirstWithId(r, id, k);
    case None =>
      forall j | 0 <= j < |lists|
        ensures r[j].id != id
      {
        assert r[j] == lists[j];
      }
      FirstWithId(r, id, |lists|);
  }

  /** The first playlist carrying id is the one FindPlaylist finds. */
  lemma FirstWithId(lists: seq<Playlist>, id: string, k: nat)
    requires k < |lists| && lists[k].id == id
    requires forall j :: 0 <= j < k ==> lists[j].id != id
    ensures FindPlaylist(lists, id) == Some(k)
  {
  }

  /** The playlists after a change to the first playlist with that id, or
      None (404) when there is none. */
  function UpdatePlaylist(lists: seq<Playlist>, id: string, change: Playlist -> Playlist): (r: Option<seq<Playlist>>)
    ensures r.None? <==> FindPlaylist(lists, id).None?
    ensures r.Some? ==> |r.value| == |lists|
    ensures r.Some? ==> var i := FindPlaylist(lists, id).value;
                        r.value[i] == change(lists[i]) && forall j :: 0 <= j < |lists| && j != i ==> r.value[j] == lists[j]
  {
    match FindPlaylist(lists, id)
    case None => None
    case Some(i) => Some(lists[i := change(lists[i])])
  }

  /** `PUT /playlists/:id {name}` */
  function RenamePlaylist(lists: seq<Playlist>, id: string, name: string, now: Instant): Option<seq<Playlist>> {
    UpdatePlaylist(lists, id, (p: Playlist) => p.(name := name, updatedAt := Some(now)))
  }

  /** `POST /playlists/:id/tracks {key}`: the track set with key added. */
  function AddTrack(lists: seq<Playlist>, id: string, key: Key, now: Instant): Option<seq<Playlist>> {
    UpdatePlaylist(lists, id, (p: Playlist) => p.(items := SetAdd(Dedup(p.items), key), updatedAt := Some(now)))
  }

  /** `DELETE /playlists/:id/tracks {key}`: every occurrence of key removed. */
  function RemoveTrack(lists: seq<Playlist>, id: string, key: Key, now: Instant): Option<seq<Playlist>> {
    UpdatePlaylist(lists, id, (p: Playlist) => p.(items := RemoveAll(p.items, key), updatedAt := Some(now)))
  }

  /** `DELETE /playlists/:id`: every playlist with the id goes, the rest stay
      in order; nothing matching is not an error. */
  function DeletePlaylist(lists: seq<Playlist>, id: string): (r: seq<Playlist>)
    ensures forall p :: p in r <==> p in lists && p.id != id
    ensures FindPlaylist(r, id).None?
    decreases |lists|
  {
    if lists == [] then []
    else (if lists[0].id == id then [] else [lists[0]]) + DeletePlaylist(lists[1..], id)
  }

  /** Delete works piecewise, so the playlists it keeps stay in their
      order, each as many times as it was there. */
  lemma {:induction false} DeletePlaylistConcat(a: seq<Playlist>, b: seq<Playlist>, id: string)
    ensures DeletePlaylist(a + b, id) == DeletePlaylist(a, id) + DeletePlaylist(b, id)
    decreases |a|
  {
    if a == [] {
      assert a + b == b;
    } else {
      assert (a + b)[0] == a[0];
      assert (a + b)[1..] == a[1..] + b;
      DeletePlaylistConcat(a[1..], b, id);
    }
  }

  /** Deleting an id no playlist has changes nothing. */
  lemma {:induction false} DeleteAbsent(lists: seq<Playlist>, id: string)
    requires FindPlaylist(lists, id).None?
    ensures DeletePlaylist(lists, id) == lists
    decreases |lists|
  {
    if lists != [] {
      DeleteAbsent(lists[1..], id);
      assert [lists[0]] + lists[1..] == lists;
    }
  }

  /** Renaming changes only the name and the update time of the first
      playlist with the id. */
  lemma RenameOnlyFirst(lists: seq<Playlist>, id: string, name: string, now: Instant)
    requires FindPlaylist(lists, id).Some?
    ensures var i := FindPlaylist(lists, id).value;
            var r := RenamePlaylist(lists, id, name, now).value;
            && r[i].name == name && r[i].updatedAt == Some(now)
            && r[i].id == id && r[i].items == lists[i].items && r[i].createdAt == lists[i].createdAt
            && forall j :: 0 <= j < |lists| && j != i ==> r[j] == lists[j]
  {
  }

  /** After add-track the key is in the playlist exactly once, all its other
      tracks remain, and a new key goes last. */
  lemma AddTrackOnce(lists: seq<Playlist>, id: string, key: Key, now: Instant)
    requires FindPlaylist(lists, id).Some?
    ensures var i := FindPlaylist(lists, id).value;
            var items := AddTrack(lists, id, key, now).value[i].items;
            && NoDup(items) && key in items
            && (forall k :: k in items <==> k in lists[i].items || k == key)
            && (key !in lists[i].items ==> items[|items| - 1] == key)
            && AddTrack(lists, id, key, now).value[i].updatedAt == Some(now)
  {
  }

  /** Removing a key from a list that holds it between two parts removes
      it from both parts and keeps them in order. */
  lemma RemoveAllAround(before: seq<Key>, key: Key, after: seq<Key>)
    ensures RemoveAll(before + [key] + after, key) == RemoveAll(before, key) + RemoveAll(after, key)
  {
    RemoveAllConcat(before + [key], after, key);
    RemoveAllConcat(before, [key], key);
    assert RemoveAll([key], key) == [] + RemoveAll([key][1..], key);
  }

  /** After remove-track the key is gone and the other tracks keep their
      order; the update time is refreshed. */
  lemma RemoveTrackAll(lists: seq<Playlist>, id: string, key: Key, now: Instant, before: seq<Key>, after: seq<Key>)
    requires FindPlaylist(lists, id).Some?
    requires lists[FindPlaylist(lists, id).value].items == before + [key] + after
    ensures var i := FindPlaylist(lists, id).value;
            var p := RemoveTrack(lists, id, key, now).value[i];
            && key !in p.items
            && p.items == RemoveAll(before, key) + RemoveAll(after, key)
            && p.updatedAt == Some(now)
  {
    RemoveAllAround(before, key, after);
  }
}
