/** The JSON documents the server keeps in its bucket, one variant per kind
    of document, with the fields the server reads and writes. */
module Documents {
  import opened Wrappers

  /** An object key in the bucket. */
  type Key = string

  /** A user id. */
  type Uid = string

  /** A point in time in milliseconds since the epoch (the documents hold it
      as an ISO-8601 string). */
  type Instant = int

  /** Top-level fields of a document that the server carries along without
      looking at them. */
  type Fields = map<string, string>

  /** The free-form tag bag of a user: month and year of sign-up, play
      counters per genre, and minutes of use. */
  datatype Tags = Tags(
    month: Option<string>,
    year: Option<string>,
    genres: Option<map<string, int>>,
    timeMinutes: Option<int>)

  /** A user record, `db/users/{uid}.json`. */
  datatype User = User(
    uid: Option<Uid>,
    name: string,
    email: string,
    pass: string,
    createdAt: Instant,
    role: string,
    plan: string,
    tags: Option<Tags>)

  /** One entry of a listening history. */
  datatype Play = Play(key: Key, at: Instant)

  /** One playlist of a user. */
  datatype Playlist = Playlist(
    id: string,
    name: string,
    items: seq<Key>,
    createdAt: Instant,
    updatedAt: Option<Instant>)

  /** A user's entitlement record; `plan` is a plain string, not checked
      against `free`, `premium` and `gold`. */
  datatype Entitlement = Entitlement(
    plan: string,
    purchases: seq<string>,
    updatedAt: Option<Instant>,
    extra: Fields)

  /** One scheduled notification. `when` is the parsed scheduled time: None
      when the stored value does not parse as a date. */
  datatype Job = Job(
    id: string,
    when: Option<Instant>,
    targets: seq<Uid>,
    title: string,
    body: string,
    icon: Option<string>,
    url: Option<string>,
    sent: bool,
    sentAt: Option<Instant>)

  datatype Doc =
    | UserDoc(user: User)
    | EmailIndexDoc(indexUid: Option<Uid>)
    | FavoritesDoc(items: seq<Key>)
    | HistoryDoc(plays: seq<Play>, historyExtra: Fields)
    | PlaylistsDoc(lists: seq<Playlist>, playlistsExtra: Fields)
    | EntitlementsDoc(ent: Entitlement)
    | NotificationsDoc(queue: seq<Job>, queueExtra: Fields)

  /** JavaScript truthiness of an optional string: present and not empty. */
  predicate Present(s: Option<string>) {
    s.Some? && s.value != ""
  }
}
