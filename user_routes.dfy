/** The per-user routes (routes/user.js). Every handler reads its whole
    document with a default, changes it, and writes the whole document
    back with one put. A put that throws leaves the request without an
    answer, modelled as the reply Rejected. */
module UserRoutes {
  import opened Wrappers
  import opened Documents
  import opened Store
  import opened Collections
  import Db
  import ProfileTags
  import Guards

  datatype Reply =
    | Done                                         // {ok: true}
    | Created(id: string)                          // {ok: true, id}
    | NotFound                                     // 404 {error: 'not_found'}
    | Rejected                                     // the put threw
    | Profile(uid: Uid, email: string, plan: string)

  /** The favorites list of a document (`fav.items || []`). */
  function FavoriteItems(doc: Doc): seq<Key> {
    if doc.FavoritesDoc? then doc.items else []
  }

  /** The plays and the other fields of a history document. */
  function HistoryOf(doc: Doc): (seq<Play>, Fields) {
    if doc.HistoryDoc? then (doc.plays, doc.historyExtra) else ([], map[])
  }

  /** The playlists and the other fields of a playlists document. */
  function PlaylistsOf(doc: Doc): (seq<Playlist>, Fields) {
    if doc.PlaylistsDoc? then (doc.lists, doc.playlistsExtra) else ([], map[])
  }

  function Answer(ok: bool, reply: Reply): Reply { if ok then reply else Rejected }

  /** The uid the routes read from the session (`req.user.uid`) as written.
      The session is signed with `{id, email, role}`, so `uid` is undefined,
      and the key templates spell it "undefined" whoever is signed in. */
  function SessionUidAsWritten(c: Guards.Claims): Uid { "undefined" }

  /** As written, any two sessions, even of different users, read and
      write the one favorites document "db/users/undefined/favorites.json". */
  lemma SessionsShareFavoritesAsWritten(a: Guards.Claims, b: Guards.Claims)
    requires a.id != b.id
    ensures Db.FavoritesKey(SessionUidAsWritten(a)) == Db.FavoritesKey(SessionUidAsWritten(b))
    ensures Db.FavoritesKey(SessionUidAsWritten(a)) == "db/users/undefined/favorites.json"
  {
  }

  /** The uid of a session: the `id` it was signed with. The routes below
      take this uid as their parameter. */
  function SessionUid(c: Guards.Claims): Uid { c.id }

  /** Read through the session's `id`, sessions of different users reach
      different favorites documents. */
  lemma SessionsKeepOwnFavorites(a: Guards.Claims, b: Guards.Claims)
    requires a.id != b.id
    ensures Db.FavoritesKey(SessionUid(a)) != Db.FavoritesKey(SessionUid(b))
  {
    if Db.FavoritesKey(SessionUid(a)) == Db.FavoritesKey(SessionUid(b)) {
      Db.FavoritesKeyInjective(SessionUid(a), SessionUid(b));
    }
  }

  /** `GET /me`: the session's uid and email with the current plan. */
  function Me(objects: map<Key, Doc>, unreadable: set<Key>, uid: Uid, email: string): (r: Reply)
    ensures r.Profile? && r.uid == uid && r.email == email
    ensures Fetch(objects, unreadable, Db.EntitlementsKey(uid)).Err? ==> r.plan == "free"
    ensures forall ent :: Fetch(objects, unreadable, Db.EntitlementsKey(uid)) == Ok(EntitlementsDoc(ent)) ==> r.plan == ent.plan
  {
    Profile(uid, email, Db.GetEntitlements(objects, unreadable, uid).plan)
  }

  /** `POST /favorites {key, op}` */
  method PostFavorite(b: Bucket, uid: Uid, key: Key, op: string) returns (reply: Reply)
    modifies b
    ensures var items := FavoriteItems(Db.ReadFavorites(old(b.objects), b.unreadable, uid));
            var ws := [Write(Db.FavoritesKey(uid), FavoritesDoc(FavoritesAfter(items, key, op)))];
            b.objects == Apply(old(b.objects), b.unwritable, ws) && reply == Answer(AllWritable(b.unwritable, ws), Done)
  {
    var items := FavoriteItems(Db.ReadFavorites(b.objects, b.unreadable, uid));
    var ok := Db.UpsertFavorites(b, uid, FavoritesAfter(items, key, op));
    reply := Answer(ok, Done);
  }

  /** `POST /history {key}`: the play at the request time goes first. */
  method PostHistory(b: Bucket, uid: Uid, key: Key, now: Instant) returns (reply: Reply)
    modifies b
    ensures var (plays, extra) := HistoryOf(Db.ReadHistory(old(b.objects), b.unreadable, uid));
            var ws := [Write(Db.HistoryKey(uid), HistoryDoc(AddPlay(plays, Play(key, now)), extra))];
            b.objects == Apply(old(b.objects), b.unwritable, ws) && reply == Answer(AllWritable(b.unwritable, ws), Done)
  {
    var (plays, extra) := HistoryOf(Db.ReadHistory(b.objects, b.unreadable, uid));
    var ok := Db.WriteHistory(b, uid, AddPlay(plays, Play(key, now)), extra);
    reply := Answer(ok, Done);
  }

  /** `POST /playlists {name}`; the random id and the clock are given. */
  method PostPlaylist(b: Bucket, uid: Uid, name: string, id: string, now: Instant) returns (reply: Reply)
    modifies b
    ensures var (lists, extra) := PlaylistsOf(Db.ReadPlaylists(old(b.objects), b.unreadable, uid));
            var ws := [Write(Db.PlaylistsKey(uid), PlaylistsDoc(CreatePlaylist(lists, id, name, now), extra))];
            b.objects == Apply(old(b.objects), b.unwritable, ws) && reply == Answer(AllWritable(b.unwritable, ws), Created(id))
  {
    var (lists, extra) := PlaylistsOf(Db.ReadPlaylists(b.objects, b.unreadable, uid));
    var ok := Db.WritePlaylists(b, uid, CreatePlaylist(lists, id, name, now), extra);
    reply := Answer(ok, Created(id));
  }

  /** The shared shape of rename, add-track and remove-track: 404 and no
      write when no playlist has the id, else one write of the changed list. */
  method WriteChanged(b: Bucket, uid: Uid, changed: Option<seq<Playlist>>, extra: Fields) returns (reply: Reply)
    modifies b
    ensures changed.None? ==> reply == NotFound && b.objects == old(b.objects)
    ensures changed.Some? ==>
              var ws := [Write(Db.PlaylistsKey(uid), PlaylistsDoc(changed.value, extra))];
              b.objects == Apply(old(b.objects), b.unwritable, ws) && reply == Answer(AllWritable(b.unwritable, ws), Done)
  {
    if changed.None? {
      return NotFound;
    }
    var ok := Db.WritePlaylists(b, uid, changed.value, extra);
    reply := Answer(ok, Done);
  }

  /** `PUT /playlists/:id {name}` */
  method PutPlaylist(b: Bucket, uid: Uid, id: string, name: string, now: Instant) returns (reply: Reply)
    modifies b
    ensures var (lists, extra) := PlaylistsOf(Db.ReadPlaylists(old(b.objects), b.unreadable, uid));
            var changed := RenamePlaylist(lists, id, name, now);
            && (changed.None? ==> reply == NotFound && b.objects == old(b.objects))
            && (changed.Some? ==>
                  var ws := [Write(Db.PlaylistsKey(uid), PlaylistsDoc(changed.value, extra))];
                  b.objects == Apply(old(b.objects), b.unwritable, ws) && reply == Answer(AllWritable(b.unwritable, ws), Done))
  {
    var (lists, extra) := PlaylistsOf(Db.ReadPlaylists(b.objects, b.unreadable, uid));
    reply := WriteChanged(b, uid, RenamePlaylist(lists, id, name, now), extra);
  }

  /** `DELETE /playlists/:id`: written even when nothing matched. */
  method DeletePlaylistRoute(b: Bucket, uid: Uid, id: string) returns (reply: Reply)
    modifies b
    ensures var (lists, extra) := PlaylistsOf(Db.ReadPlaylists(old(b.objects), b.unreadable, uid));
            var ws := [Write(Db.PlaylistsKey(uid), PlaylistsDoc(DeletePlaylist(lists, id), extra))];
            b.objects == Apply(old(b.objects), b.unwritable, ws) && reply == Answer(AllWritable(b.unwritable, ws), Done)
  {
    var (lists, extra) := PlaylistsOf(Db.ReadPlaylists(b.objects, b.unreadable, uid));
    var ok := Db.WritePlaylists(b, uid, DeletePlaylist(lists, id), extra);
    reply := Answer(ok, Done);
  }

  /** `POST /playlists/:id/tracks {key}` */
  method PostTrack(b: Bucket, uid: Uid, id: string, key: Key, now: Instant) returns (reply: Reply)
    modifies b
    ensures var (lists, extra) := PlaylistsOf(Db.ReadPlaylists(old(b.objects), b.unreadable, uid));
            var changed := AddTrack(lists, id, key, now);
            && (changed.None? ==> reply == NotFound && b.objects == old(b.objects))
            && (changed.Some? ==>
                  var ws := [Write(Db.PlaylistsKey(uid), PlaylistsDoc(changed.value, extra))];
                  b.objects == Apply(old(b.objects), b.unwritable, ws) && reply == Answer(AllWritable(b.unwritable, ws), Done))
  {
    var (lists, extra) := PlaylistsOf(Db.ReadPlaylists(b.objects, b.unreadable, uid));
    reply := WriteChanged(b, uid, AddTrack(lists, id, key, now), extra);
  }

  /** `DELETE /playlists/:id/tracks {key}` */
  method DeleteTrack(b: Bucket, uid: Uid, id: string, key: Key, now: Instant) returns (reply: Reply)
    modifies b
    ensures var (lists, extra) := PlaylistsOf(Db.ReadPlaylists(old(b.objects), b.unreadable, uid));
            var changed := RemoveTrack(lists, id, key, now);
            && (changed.None? ==> reply == NotFound && b.objects == old(b.objects))
            && (changed.Some? ==>
                  var ws := [Write(Db.PlaylistsKey(uid), PlaylistsDoc(changed.value, extra))];
                  b.objects == Apply(old(b.objects), b.unwritable, ws) && reply == Answer(AllWritable(b.unwritable, ws), Done))
  {
    var (lists, extra) := PlaylistsOf(Db.ReadPlaylists(b.objects, b.unreadable, uid));
    reply := WriteChanged(b, uid, RemoveTrack(lists, id, key, now), extra);
  }

  /** `POST /session/ping`: one minute of use. */
  method SessionPing(b: Bucket, uid: Uid) returns (reply: Reply)
    modifies b
    ensures Db.GetUser(old(b.objects), b.unreadable, uid).None? ==> reply == Done && b.objects == old(b.objects)
    ensures Db.GetUser(old(b.objects), b.unreadable, uid).Some? ==>
              var user := Db.GetUser(old(b.objects), b.unreadable, uid).value;
              var ws := Db.SaveUserWrites(user.(tags := Some(ProfileTags.SessionTimed(user.tags, Some(1)))));
              b.objects == Apply(old(b.objects), b.unwritable, ws) && reply == Answer(AllWritable(b.unwritable, ws), Done)
  {
    var ok := ProfileTags.AddSessionTime(b, uid, Some(1));
    reply := Answer(ok, Done);
  }

  /** A favorite added through the route is read back, exactly once, by the
      next read of the favorites. */
  lemma AddedFavoriteIsRead(objects: map<Key, Doc>, unreadable: set<Key>, unwritable: set<Key>, uid: Uid, key: Key)
    requires Db.FavoritesKey(uid) !in unreadable && Db.FavoritesKey(uid) !in unwritable
    ensures var items := FavoriteItems(Db.ReadFavorites(objects, unreadable, uid));
            var after := Apply(objects, unwritable, [Write(Db.FavoritesKey(uid), FavoritesDoc(FavoritesAfter(items, key, "add")))]);
            var again := FavoriteItems(Db.ReadFavorites(after, unreadable, uid));
            key in again && NoDup(again)
  {
    var items := FavoriteItems(Db.ReadFavorites(objects, unreadable, uid));
    FavoriteAdd(items, key);
    assert [Write(Db.FavoritesKey(uid), FavoritesDoc(FavoritesAfter(items, key, "add")))][1..] == [];
  }
}
