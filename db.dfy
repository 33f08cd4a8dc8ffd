/** The document layer over the bucket (lib/db.js): the key layout, the
    email index, read-with-default readers, whole-document writers, and the
    ordered puts of account creation. */
module Db {
  import opened Wrappers
  import opened Documents
  import opened Store
  import Text
  import Uri

  // ---------------------------------------------------------------------
  // Key layout

  function UserKey(uid: Uid): Key { "db/users/" + uid + ".json" }

  /** The key `saveUser` writes a record to: `${user.uid}` reads "undefined"
      for a record without a uid. */
  function UserRecordKey(uid: Option<Uid>): Key { UserKey(uid.GetOr("undefined")) }

  /** `safeEmail`: the URI-encoded lower-cased address. It never contains a
      `/`, so the index key always stays directly under `db/emails/`. */
  function SafeEmail(email: string): (r: string)
    ensures '/' !in r
  {
    Uri.EncodeUriComponent(Text.Lower(email))
  }

  function EmailKey(email: string): Key { "db/emails/" + SafeEmail(email) + ".json" }
  function FavoritesKey(uid: Uid): Key { "db/users/" + uid + "/favorites.json" }
  function HistoryKey(uid: Uid): Key { "db/users/" + uid + "/history.json" }
  function PlaylistsKey(uid: Uid): Key { "db/users/" + uid + "/playlists.json" }
  function EntitlementsKey(uid: Uid): Key { "db/entitlements/" + uid + ".json" }
  const NotificationsKey: Key := "db/admin/notifications.json"

  /** Addresses that differ only in letter case share one index entry. */
  lemma EmailKeyIgnoresCase(a: string, b: string)
    requires Text.SameIgnoringCase(a, b)
    ensures EmailKey(a) == EmailKey(b)
  {
  }

  /** Keys of different layouts never collide. */
  lemma {:induction false} KeysDistinct(uid: Uid, email: string)
    ensures DistinctKeys([UserKey(uid), EmailKey(email), FavoritesKey(uid), HistoryKey(uid), EntitlementsKey(uid)])
  {
    Stems(uid, SafeEmail(email));
    LayoutsDiffer("db/users/" + uid, "db/emails/" + SafeEmail(email), "db/entitlements/" + uid);
  }

  lemma Stems(uid: Uid, safe: string)
    ensures var dir, mail, ent := "db/users/" + uid, "db/emails/" + safe, "db/entitlements/" + uid;
            && |dir| >= 5 && |mail| >= 5 && |ent| >= 5
            && dir[3] == 'u' && mail[3] == 'e' && ent[3] == 'e' && mail[4] == 'm' && ent[4] == 'n'
  {
  }

  /** The five layouts, from the user directory, the index entry and the
      entitlement stem: the second letter of the area and the character after
      the user directory tell them apart. */
  lemma LayoutsDiffer(dir: string, mail: string, ent: string)
    requires |dir| >= 5 && |mail| >= 5 && |ent| >= 5
    requires dir[3] == 'u' && mail[3] == 'e' && ent[3] == 'e' && mail[4] == 'm' && ent[4] == 'n'
    ensures DistinctKeys([dir + ".json", mail + ".json", dir + "/favorites.json", dir + "/history.json", ent + ".json"])
  {
    var u, e, f, h, n := dir + ".json", mail + ".json", dir + "/favorites.json", dir + "/history.json", ent + ".json";
    DifferAt(u, f, |dir|);
    DifferAt(u, h, |dir|);
    DifferAt(f, h, |dir| + 1);
    DifferAt(e, u, 3);
    DifferAt(e, f, 3);
    DifferAt(e, h, 3);
    DifferAt(n, u, 3);
    DifferAt(n, f, 3);
    DifferAt(n, h, 3);
    DifferAt(e, n, 4);
  }

  /** Strings that differ at a position are different. */
  lemma DifferAt(a: string, b: string, i: nat)
    requires i < |a| && i < |b| && a[i] != b[i]
    ensures a != b
  {
  }

  // ---------------------------------------------------------------------
  // Readers: a read never fails, every error yields the collection's default

  const DefaultFavorites: Doc := FavoritesDoc([])
  const DefaultHistory: Doc := HistoryDoc([], map[])
  const DefaultPlaylists: Doc := PlaylistsDoc([], map[])
  const DefaultEntitlement: Entitlement := Entitlement("free", [], None, map[])

  /** The stored document at key, or the default when the get fails. */
  function ReadOr(objects: map<Key, Doc>, unreadable: set<Key>, key: Key, default: Doc): (d: Doc)
    ensures key in objects && key !in unreadable ==> d == objects[key]
    ensures key !in objects || key in unreadable ==> d == default
  {
    match Fetch(objects, unreadable, key)
    case Ok(doc) => doc
    case Err(_) => default
  }

  /** The user is part of the favorites key: two users never share one. */
  lemma FavoritesKeyInjective(a: Uid, b: Uid)
    requires FavoritesKey(a) == FavoritesKey(b)
    ensures a == b
  {
    var ka, kb := FavoritesKey(a), FavoritesKey(b);
    assert |a| == |b|;
    assert a == ka[9..9 + |a|];
    assert b == kb[9..9 + |b|];
  }

  /** Favorites read back: after a put of the list the next read of that
      user gives it, whatever was stored or unreadable before, as long as
      the key can be read; every other user's favorites read as before. */
  lemma FavoritesReadBack(objects: map<Key, Doc>, unreadable: set<Key>, uid: Uid, other: Uid, items: seq<Key>)
    requires FavoritesKey(uid) !in unreadable
    ensures ReadFavorites(objects[FavoritesKey(uid) := FavoritesDoc(items)], unreadable, uid) == FavoritesDoc(items)
    ensures other != uid ==>
              ReadFavorites(objects[FavoritesKey(uid) := FavoritesDoc(items)], unreadable, other)
                == ReadFavorites(objects, unreadable, other)
  {
    if other != uid && FavoritesKey(other) == FavoritesKey(uid) {
      FavoritesKeyInjective(other, uid);
    }
  }

  /** `readFavorites(uid)` */
  function ReadFavorites(objects: map<Key, Doc>, unreadable: set<Key>, uid: Uid): Doc {
    ReadOr(objects, unreadable, FavoritesKey(uid), DefaultFavorites)
  }

  /** `readHistory(uid)` */
  function ReadHistory(objects: map<Key, Doc>, unreadable: set<Key>, uid: Uid): Doc {
    ReadOr(objects, unreadable, HistoryKey(uid), DefaultHistory)
  }

  /** `readPlaylists(uid)` */
  function ReadPlaylists(objects: map<Key, Doc>, unreadable: set<Key>, uid: Uid): Doc {
    ReadOr(objects, unreadable, PlaylistsKey(uid), DefaultPlaylists)
  }

  /** `getEntitlements(uid)`: the stored record, `{plan: 'free', purchases: []}`
      when the get fails, and a record with no plan (modelled as the plan "")
      when the key holds some other document. */
  function GetEntitlements(objects: map<Key, Doc>, unreadable: set<Key>, uid: Uid): (e: Entitlement)
    ensures Fetch(objects, unreadable, EntitlementsKey(uid)).Err? ==> e == DefaultEntitlement
    ensures Fetch(objects, unreadable, EntitlementsKey(uid)) == Ok(EntitlementsDoc(e))
            || e.plan in {"free", ""}
    ensures forall x :: Fetch(objects, unreadable, EntitlementsKey(uid)) == Ok(EntitlementsDoc(x)) ==> e == x
  {
    match Fetch(objects, unreadable, EntitlementsKey(uid))
    case Ok(EntitlementsDoc(ent)) => ent
    case Ok(_) => Entitlement("", [], None, map[])
    case Err(_) => DefaultEntitlement
  }

  /** `getUser(uid)`: the record stored for uid, or null when the get fails. */
  function GetUser(objects: map<Key, Doc>, unreadable: set<Key>, uid: Uid): (u: Option<User>)
    ensures u.Some? ==> Fetch(objects, unreadable, UserKey(uid)) == Ok(UserDoc(u.value))
    ensures forall x :: Fetch(objects, unreadable, UserKey(uid)) == Ok(UserDoc(x)) ==> u == Some(x)
  {
    match Fetch(objects, unreadable, UserKey(uid))
    case Ok(UserDoc(user)) => Some(user)
    case _ => None
  }

  /** `findUserByEmail(email)`: follows the email index to the user record.
      It is null when the index cannot be read or lacks a uid, or when the
      record cannot be read or lacks a uid. */
  function FindUserByEmail(objects: map<Key, Doc>, unreadable: set<Key>, email: string): (u: Option<User>)
    ensures u.Some? <==>
      exists uid :: Fetch(objects, unreadable, EmailKey(email)) == Ok(EmailIndexDoc(Some(uid))) && uid != ""
                    && GetUser(objects, unreadable, uid).Some? && Present(GetUser(objects, unreadable, uid).value.uid)
    ensures u.Some? ==> Present(u.value.uid)
  {
    match Fetch(objects, unreadable, EmailKey(email))
    case Ok(EmailIndexDoc(Some(uid))) =>
      if uid == "" then None
      else
        var user := GetUser(objects, unreadable, uid);
        if user.Some? && Present(user.value.uid) then user else None
    case _ => None
  }

  /** Lookups by address ignore letter case. */
  lemma FindUserIgnoresCase(objects: map<Key, Doc>, unreadable: set<Key>, a: string, b: string)
    requires Text.SameIgnoringCase(a, b)
    ensures FindUserByEmail(objects, unreadable, a) == FindUserByEmail(objects, unreadable, b)
  {
    EmailKeyIgnoresCase(a, b);
  }

  // ---------------------------------------------------------------------
  // Writers: each overwrites the whole document at its key

  /** The two puts of `saveUser`, record first, then the email index. */
  function SaveUserWrites(user: User): seq<Write> {
    [Write(UserRecordKey(user.uid), UserDoc(user)), Write(EmailKey(user.email), EmailIndexDoc(user.uid))]
  }

  /** `saveUser(user)`: writes the record, then the email index; a failed
      put ends the sequence, so a failed index put leaves the record written. */
  method SaveUser(b: Bucket, user: User) returns (ok: bool)
    modifies b
    ensures ok == AllWritable(b.unwritable, SaveUserWrites(user))
    ensures b.objects == Apply(old(b.objects), b.unwritable, SaveUserWrites(user))
  {
    ok := b.PutEach(SaveUserWrites(user));
  }

  /** `upsertFavorites(uid, items)` */
  method UpsertFavorites(b: Bucket, uid: Uid, items: seq<Key>) returns (ok: bool)
    modifies b
    ensures ok == (FavoritesKey(uid) !in b.unwritable)
    ensures b.objects == if ok then old(b.objects)[FavoritesKey(uid) := FavoritesDoc(items)] else old(b.objects)
  {
    ok := b.Put(FavoritesKey(uid), FavoritesDoc(items));
  }

  /** `writeHistory(uid, history)` */
  method WriteHistory(b: Bucket, uid: Uid, plays: seq<Play>, extra: Fields) returns (ok: bool)
    modifies b
    ensures ok == (HistoryKey(uid) !in b.unwritable)
    ensures b.objects == if ok then old(b.objects)[HistoryKey(uid) := HistoryDoc(plays, extra)] else old(b.objects)
  {
    ok := b.Put(HistoryKey(uid), HistoryDoc(plays, extra));
  }

  /** `writePlaylists(uid, data)` */
  method WritePlaylists(b: Bucket, uid: Uid, lists: seq<Playlist>, extra: Fields) returns (ok: bool)
    modifies b
    ensures ok == (PlaylistsKey(uid) !in b.unwritable)
    ensures b.objects == if ok then old(b.objects)[PlaylistsKey(uid) := PlaylistsDoc(lists, extra)] else old(b.objects)
  {
    ok := b.Put(PlaylistsKey(uid), PlaylistsDoc(lists, extra));
  }

  /** `setEntitlements(uid, ent)`: stores the given fields with `updatedAt`
      replaced by the current time. */
  method SetEntitlements(b: Bucket, uid: Uid, ent: Entitlement, now: Instant) returns (ok: bool)
    modifies b
    ensures ok == (EntitlementsKey(uid) !in b.unwritable)
    ensures b.objects == if ok then old(b.objects)[EntitlementsKey(uid) := EntitlementsDoc(ent.(updatedAt := Some(now)))]
                         else old(b.objects)
  {
    ok := b.Put(EntitlementsKey(uid), EntitlementsDoc(ent.(updatedAt := Some(now))));
  }

  // ---------------------------------------------------------------------
  // Account creation

  datatype CreateError = EmailInUse | StoreFailed

  /** The record `createUser` builds: role "user", plan "free", and the
      sign-up month and year as tags. */
  function NewUser(uid: Uid, name: string, email: string, passHash: string, now: Instant,
                   month: string, year: string): User
  {
    User(Some(uid), name, email, passHash, now, "user", "free", Some(Tags(Some(month), Some(year), None, None)))
  }

  /** The puts of `createUser`, in order: record, email index, empty
      favorites, empty history, free entitlement. */
  function CreateUserWrites(user: User, uid: Uid, now: Instant): seq<Write> {
    SaveUserWrites(user) + [
      Write(FavoritesKey(uid), FavoritesDoc([])),
      Write(HistoryKey(uid), HistoryDoc([], map[])),
      Write(EntitlementsKey(uid), EntitlementsDoc(Entitlement("free", [], Some(now), map[])))]
  }

  /** `createUser({name, email, password})`; the password hash, the fresh uid,
      the clock and the sign-up month and year are given. An address already
      resolving to a user is refused before anything is written. */
  method CreateUser(b: Bucket, name: string, email: string, passHash: string, uid: Uid, now: Instant,
                    month: string, year: string) returns (r: Result<User, CreateError>)
    modifies b
    ensures FindUserByEmail(old(b.objects), b.unreadable, email).Some? ==>
              r == Err(EmailInUse) && b.objects == old(b.objects)
    ensures FindUserByEmail(old(b.objects), b.unreadable, email).None? ==>
              var user := NewUser(uid, name, email, passHash, now, month, year);
              var ws := CreateUserWrites(user, uid, now);
              && b.objects == Apply(old(b.objects), b.unwritable, ws)
              && (r.Ok? <==> AllWritable(b.unwritable, ws))
              && (r.Ok? ==> r.value == user)
              && (r.Err? ==> r.error == StoreFailed)
  {
    if FindUserByEmail(b.objects, b.unreadable, email).Some? {
      return Err(EmailInUse);
    }
    var user := NewUser(uid, name, email, passHash, now, month, year);
    var ws := CreateUserWrites(user, uid, now);
    ghost var before := b.objects;
    ApplyConcat(before, b.unwritable, SaveUserWrites(user), ws[2..]);
    assert SaveUserWrites(user) + ws[2..] == ws;
    var ok := SaveUser(b, user);
    if !ok {
      return Err(StoreFailed);
    }
    ok := b.PutEach(ws[2..]);
    if !ok {
      return Err(StoreFailed);
    }
    r := Ok(user);
  }

  /** After a complete `createUser`, the address resolves to the new record,
      favorites read as empty and the entitlement plan is "free". */
  lemma CreatedUserIsFound(objects: map<Key, Doc>, unreadable: set<Key>, unwritable: set<Key>,
                           name: string, email: string, passHash: string, uid: Uid, now: Instant,
                           month: string, year: string)
    requires uid != ""
    requires var user := NewUser(uid, name, email, passHash, now, month, year);
             AllWritable(unwritable, CreateUserWrites(user, uid, now))
    requires UserKey(uid) !in unreadable && EmailKey(email) !in unreadable
    requires FavoritesKey(uid) !in unreadable && EntitlementsKey(uid) !in unreadable
    ensures var user := NewUser(uid, name, email, passHash, now, month, year);
            var after := Apply(objects, unwritable, CreateUserWrites(user, uid, now));
            && FindUserByEmail(after, unreadable, email) == Some(user)
            && ReadFavorites(after, unreadable, uid) == FavoritesDoc([])
            && GetEntitlements(after, unreadable, uid).plan == "free"
  {
    var user := NewUser(uid, name, email, passHash, now, month, year);
    var ws := CreateUserWrites(user, uid, now);
    var u, e, f, h, n := UserKey(uid), EmailKey(email), FavoritesKey(uid), HistoryKey(uid), EntitlementsKey(uid);
    var ent := Entitlement("free", [], Some(now), map[]);
    assert ws == [Write(u, UserDoc(user)), Write(e, EmailIndexDoc(Some(uid))), Write(f, FavoritesDoc([])),
                  Write(h, HistoryDoc([], map[])), Write(n, EntitlementsDoc(ent))];
    AllWritableApply(objects, unwritable, ws);
    KeysDistinct(uid, email);
    var after := FiveWritesStored(objects, u, e, f, h, n, UserDoc(user), EmailIndexDoc(Some(uid)), FavoritesDoc([]),
                                  HistoryDoc([], map[]), EntitlementsDoc(ent));
    FoundThroughIndex(after, unreadable, email, uid, user);
  }

  /** Five puts to pairwise different keys each leave their own document. */
  lemma FiveWritesStored(objects: map<Key, Doc>, u: Key, e: Key, f: Key, h: Key, n: Key,
                         du: Doc, de: Doc, df: Doc, dh: Doc, dn: Doc) returns (after: map<Key, Doc>)
    requires DistinctKeys([u, e, f, h, n])
    ensures after == Overwrite(objects, [Write(u, du), Write(e, de), Write(f, df), Write(h, dh), Write(n, dn)])
    ensures u in after && e in after && f in after && h in after && n in after
    ensures after[u] == du && after[e] == de && after[f] == df && after[h] == dh && after[n] == dn
  {
    var ws := [Write(u, du), Write(e, de), Write(f, df), Write(h, dh), Write(n, dn)];
    after := Overwrite(objects, ws);
    assert [u, e, f, h, n][0] == u && [u, e, f, h, n][1] == e && [u, e, f, h, n][2] == f;
    assert [u, e, f, h, n][3] == h && [u, e, f, h, n][4] == n;
    OverwriteLast(objects, ws, 0);
    OverwriteLast(objects, ws, 1);
    OverwriteLast(objects, ws, 2);
    OverwriteLast(objects, ws, 3);
    OverwriteLast(objects, ws, 4);
  }

  /** An address whose index entry names a readable record with a uid finds
      that record. */
  lemma FoundThroughIndex(objects: map<Key, Doc>, unreadable: set<Key>, email: string, uid: Uid, user: User)
    requires uid != "" && Present(user.uid)
    requires EmailKey(email) in objects && EmailKey(email) !in unreadable
    requires objects[EmailKey(email)] == EmailIndexDoc(Some(uid))
    requires UserKey(uid) in objects && UserKey(uid) !in unreadable && objects[UserKey(uid)] == UserDoc(user)
    ensures FindUserByEmail(objects, unreadable, email) == Some(user)
  {
  }
}
