/** Profile counters on the user record (lib/tags.js): plays per genre and
    minutes of use, each a read-modify-write of the whole record. */
module ProfileTags {
  import opened Wrappers
  import opened Documents
  import opened Store
  import Db

  const NoTags: Tags := Tags(None, None, None, None)

  /** The tags after one play in genre: that genre's counter goes up by one
      from a default of 0; an empty genre leaves the counters as they were
      (creating an empty counter map when there was none). */
  function PlayTagged(tags: Option<Tags>, genre: string): Tags {
    var t := tags.GetOr(NoTags);
    var genres := t.genres.GetOr(map[]);
    t.(genres := Some(if genre != "" then genres[genre := (if genre in genres then genres[genre] else 0) + 1] else genres))
  }

  /** `minutes || 1`: a missing or zero amount counts as one minute. */
  function MinutesOrOne(minutes: Option<int>): (m: int)
    ensures minutes.None? || minutes == Some(0) ==> m == 1
    ensures minutes.Some? && minutes.value != 0 ==> m == minutes.value
  {
    if minutes.None? || minutes.value == 0 then 1 else minutes.value
  }

  /** The tags after a session of the given minutes. */
  function SessionTimed(tags: Option<Tags>, minutes: Option<int>): Tags {
    var t := tags.GetOr(NoTags);
    t.(timeMinutes := Some(t.timeMinutes.GetOr(0) + MinutesOrOne(minutes)))
  }

  /** A play raises exactly the genre's counter by one and keeps every other
      counter and every other tag. */
  lemma PlayCountsOnce(tags: Option<Tags>, genre: string)
    requires genre != ""
    ensures var before := tags.GetOr(NoTags).genres.GetOr(map[]);
            var t := PlayTagged(tags, genre);
            && t.genres.Some? && genre in t.genres.value
            && t.genres.value[genre] == (if genre in before then before[genre] else 0) + 1
            && (forall g :: g != genre ==> (g in t.genres.value <==> g in before))
            && (forall g :: g != genre && g in before ==> t.genres.value[g] == before[g])
            && t.month == tags.GetOr(NoTags).month && t.year == tags.GetOr(NoTags).year
            && t.timeMinutes == tags.GetOr(NoTags).timeMinutes
  {
  }

  /** An empty genre changes no counter. */
  lemma EmptyGenreCountsNothing(tags: Option<Tags>)
    ensures PlayTagged(tags, "").genres == Some(tags.GetOr(NoTags).genres.GetOr(map[]))
  {
  }

  /** `n` plays of one genre raise its counter by n. */
  lemma {:induction false} PlaysAccumulate(tags: Option<Tags>, genre: string, n: nat)
    requires genre != ""
    ensures var t := PlayTaggedTimes(tags, genre, n);
            var before := tags.GetOr(NoTags).genres.GetOr(map[]);
            var start := if genre in before then before[genre] else 0;
            n > 0 ==> t.value.genres.Some? && genre in t.value.genres.value && t.value.genres.value[genre] == start + n
  {
    if n > 1 {
      PlaysAccumulate(tags, genre, n - 1);
    }
  }

  /** The tags after n plays of one genre. */
  function PlayTaggedTimes(tags: Option<Tags>, genre: string, n: nat): Option<Tags> {
    if n == 0 then tags else Some(PlayTagged(PlayTaggedTimes(tags, genre, n - 1), genre))
  }

  /** Session time adds up: the minutes recorded grow by the amount given
      (one for a missing or zero amount), other tags unchanged. */
  lemma SessionAdds(tags: Option<Tags>, minutes: Option<int>)
    ensures var t := SessionTimed(tags, minutes);
            && t.timeMinutes == Some(tags.GetOr(NoTags).timeMinutes.GetOr(0)
                                     + (if minutes.None? || minutes == Some(0) then 1 else minutes.value))
            && t.(timeMinutes := tags.GetOr(NoTags).timeMinutes) == tags.GetOr(NoTags)
  {
  }

  /** `addPlayTag(uid, genre)`: nothing happens for a user that cannot be
      read; otherwise the record with its tags updated, and only its tags,
      is saved through `saveUser`. The result says whether the save
      completed (a failed put rejects the call). */
  method AddPlayTag(b: Bucket, uid: Uid, genre: string) returns (ok: bool)
    modifies b
    ensures Db.GetUser(old(b.objects), b.unreadable, uid).None? ==> ok && b.objects == old(b.objects)
    ensures Db.GetUser(old(b.objects), b.unreadable, uid).Some? ==>
              var user := Db.GetUser(old(b.objects), b.unreadable, uid).value;
              var ws := Db.SaveUserWrites(user.(tags := Some(PlayTagged(user.tags, genre))));
              ok == AllWritable(b.unwritable, ws) && b.objects == Apply(old(b.objects), b.unwritable, ws)
  {
    var user := Db.GetUser(b.objects, b.unreadable, uid);
    if user.None? {
      return true;
    }
    var u := user.value;
    ok := Db.SaveUser(b, u.(tags := Some(PlayTagged(u.tags, genre))));
  }

  /** `addSessionTime(uid, minutes)`: as AddPlayTag, for the minutes of use. */
  method AddSessionTime(b: Bucket, uid: Uid, minutes: Option<int>) returns (ok: bool)
    modifies b
    ensures Db.GetUser(old(b.objects), b.unreadable, uid).None? ==> ok && b.objects == old(b.objects)
    ensures Db.GetUser(old(b.objects), b.unreadable, uid).Some? ==>
              var user := Db.GetUser(old(b.objects), b.unreadable, uid).value;
              var ws := Db.SaveUserWrites(user.(tags := Some(SessionTimed(user.tags, minutes))));
              ok == AllWritable(b.unwritable, ws) && b.objects == Apply(old(b.objects), b.unwritable, ws)
  {
    var user := Db.GetUser(b.objects, b.unreadable, uid);
    if user.None? {
      return true;
    }
    var u := user.value;
    ok := Db.SaveUser(b, u.(tags := Some(SessionTimed(u.tags, minutes))));
  }
}
