/** The music catalog and its entitlement gate (routes/content.js): folder
    tiers, the track record of a key, the cached search index and its
    paginated refresh, search, folder browsing, and the stream-URL access
    decision. */
module Catalog {
  import opened Wrappers
  import opened Documents
  import opened Store
  import Text
  import S3
  import Db
  import ProfileTags

  // ---------------------------------------------------------------------
  // Folder tiers

  /** Positions a..k hold only white space and k..m no line break, with a at
      the start of the name or just after a `/`: the part of the tier
      expression before the word (`(^|\/)\s*.*`). */
  predicate LeadIn(s: string, a: int, k: int, m: int) {
    && 0 <= a <= k <= m <= |s|
    && (a == 0 || s[a - 1] == '/')
    && (forall t | a <= t < k :: Text.IsSpace(s[t]))
    && (forall t | k <= t < m :: !Text.IsLineTerminator(s[t]))
  }

  /** The lower-case word w, ignoring case, at m, followed by an optional
      `/` and the end of the name. */
  predicate WordEndsAt(s: string, w: string, m: int) {
    && 0 <= m && m + |w| <= |s|
    && Text.Fold(s[m..m + |w|]) == w
    && (m + |w| == |s| || (m + |w| + 1 == |s| && s[|s| - 1] == '/'))
  }

  /** The case-insensitive test `/(^|\/)\s*.*(WORD)\/?$/i` for a word in
      lower case. */
  predicate TierMatch(s: string, w: string) {
    exists a, k, m | 0 <= a <= k <= m <= |s| :: LeadIn(s, a, k, m) && WordEndsAt(s, w, m)
  }

  /** `isPremiumFolder(name)` */
  predicate IsPremiumFolder(name: string) { TierMatch(name, "premium") }

  /** `isGoldFolder(name)` */
  predicate IsGoldFolder(name: string) { TierMatch(name, "gold") }

  /** The name ends, ignoring case, in w or in w followed by one `/`. */
  predicate EndsInWord(s: string, w: string) {
    || (|w| <= |s| && Text.Fold(s[|s| - |w|..]) == w)
    || (|w| + 1 <= |s| && s[|s| - 1] == '/' && Text.Fold(s[|s| - 1 - |w|..|s| - 1]) == w)
  }

  predicate NoLineBreak(s: string) {
    forall t | 0 <= t < |s| :: !Text.IsLineTerminator(s[t])
  }

  /** Every name the tier expression accepts ends in the word. */
  lemma TierMatchEndsInWord(s: string, w: string)
    requires TierMatch(s, w)
    ensures EndsInWord(s, w)
  {
    var a, k, m :| 0 <= a <= k <= m <= |s| && LeadIn(s, a, k, m) && WordEndsAt(s, w, m);
    WordAtEnd(s, w, m);
  }

  /** The word found at the end of the name is a suffix of it. */
  lemma WordAtEnd(s: string, w: string, m: int)
    requires WordEndsAt(s, w, m)
    ensures EndsInWord(s, w)
  {
    if m + |w| == |s| {
      assert s[|s| - |w|..] == s[m..m + |w|];
    } else {
      assert s[|s| - 1 - |w|..|s| - 1] == s[m..m + |w|];
    }
  }

  /** A name without line breaks that ends in the word is accepted, with
      the lead-in starting at the beginning of the name. */
  lemma EndsInWordTierMatch(s: string, w: string)
    requires NoLineBreak(s) && EndsInWord(s, w)
    ensures TierMatch(s, w)
  {
    var m := if |w| <= |s| && Text.Fold(s[|s| - |w|..]) == w then |s| - |w| else |s| - 1 - |w|;
    assert LeadIn(s, 0, 0, m);
    if m == |s| - |w| {
      assert s[m..m + |w|] == s[|s| - |w|..];
    } else {
      assert s[m..m + |w|] == s[|s| - 1 - |w|..|s| - 1];
    }
    assert WordEndsAt(s, w, m);
  }

  /** For a name without line breaks the tier expression is a suffix test:
      the name ends, ignoring case, in the word or the word and `/`. It is
      not a test of one path segment. */
  lemma TierIsSuffixTest(s: string, w: string)
    requires NoLineBreak(s)
    ensures TierMatch(s, w) <==> EndsInWord(s, w)
  {
    if TierMatch(s, w) {
      TierMatchEndsInWord(s, w);
    }
    if EndsInWord(s, w) {
      EndsInWordTierMatch(s, w);
    }
  }

  /** The last character of a string that folds to w folds to the last
      letter of w. */
  lemma FoldLast(x: string, w: string)
    requires |w| >= 1 && Text.Fold(x) == w
    ensures |x| == |w| && Text.FoldChar(x[|x| - 1]) == w[|w| - 1]
  {
  }

  /** A name ending in the word ends, ignoring case, in the word's last
      letter, possibly followed by `/`. */
  lemma EndsInWordLast(s: string, w: string)
    requires |w| >= 1 && EndsInWord(s, w)
    ensures |s| >= 1
    ensures || Text.FoldChar(s[|s| - 1]) == w[|w| - 1]
            || (|s| >= 2 && s[|s| - 1] == '/' && Text.FoldChar(s[|s| - 2]) == w[|w| - 1])
  {
    if |w| <= |s| && Text.Fold(s[|s| - |w|..]) == w {
      var x := s[|s| - |w|..];
      FoldLast(x, w);
      assert x[|x| - 1] == s[|s| - 1];
    } else {
      var x := s[|s| - 1 - |w|..|s| - 1];
      FoldLast(x, w);
      assert x[|x| - 1] == s[|s| - 2];
    }
  }

  /** No folder is both gold and premium. */
  lemma NeverBothTiers(s: string)
    ensures !(IsGoldFolder(s) && IsPremiumFolder(s))
  {
    if IsGoldFolder(s) && IsPremiumFolder(s) {
      TierMatchEndsInWord(s, "gold");
      TierMatchEndsInWord(s, "premium");
      EndsInWordLast(s, "gold");
      EndsInWordLast(s, "premium");
    }
  }

  /** A word and a trailing `/` after other words is flagged. */
  lemma PremiumAfterGenre()
    ensures IsPremiumFolder("Pop Premium/")
  {
    var s := "Pop Premium/";
    var x := s[4..11];
    assert x == "Premium";
    var l := Text.Fold(x);
    assert l[0] == Text.FoldChar('P') == 'p';
    assert l[1] == 'r' && l[2] == 'e' && l[3] == 'm' && l[4] == 'i' && l[5] == 'u' && l[6] == 'm';
    assert l == "premium";
    assert s[|s| - 1 - 7..|s| - 1] == x;
    assert NoLineBreak(s);
    TierIsSuffixTest(s, "premium");
  }

  /** The word followed by a deeper segment is not flagged. */
  lemma PremiumParentOnly()
    ensures !IsPremiumFolder("premium/sub")
  {
    var s := "premium/sub";
    if IsPremiumFolder(s) {
      TierMatchEndsInWord(s, "premium");
      EndsInWordLast(s, "premium");
    }
  }

  /** The word followed by more text is not flagged. */
  lemma GoldPrefixOnly()
    ensures !IsGoldFolder("GOLD HITS")
  {
    var s := "GOLD HITS";
    if IsGoldFolder(s) {
      TierMatchEndsInWord(s, "gold");
      EndsInWordLast(s, "gold");
    }
  }

  // ---------------------------------------------------------------------
  // Folder listing

  /** One entry of `GET /folders`; `caption` is the answer's `label` field
      (`label` is a reserved word in Dafny). */
  datatype FolderEntry = FolderEntry(prefix: string, caption: string, premium: bool, gold: bool)

  /** The entry of one top-level prefix: its caption loses one trailing `/`. */
  function FolderOfPrefix(p: string): (e: FolderEntry)
    ensures e.prefix == p && e.premium == IsPremiumFolder(p) && e.gold == IsGoldFolder(p)
    ensures Text.EndsWith(p, "/") ==> e.caption + "/" == p
    ensures !Text.EndsWith(p, "/") ==> e.caption == p
  {
    var caption := if |p| > 0 && p[|p| - 1] == '/' then p[..|p| - 1] else p;
    FolderEntry(p, caption, IsPremiumFolder(p), IsGoldFolder(p))
  }

  /** `GET /folders`: one entry per prefix, in listing order. */
  function Folders(prefixes: seq<string>): (r: seq<FolderEntry>)
    ensures |r| == |prefixes|
    ensures forall i :: 0 <= i < |r| ==> r[i] == FolderOfPrefix(prefixes[i])
  {
    seq(|prefixes|, i requires 0 <= i < |prefixes| => FolderOfPrefix(prefixes[i]))
  }

  /** What a `/folders` entry tells the client about a prefix without line
      breaks: premium exactly when the prefix ends, ignoring case, in
      "premium" or "premium/", gold likewise for "gold", never both, and a
      caption that gives the prefix back once its trailing `/` is restored. */
  lemma FolderFlags(prefixes: seq<string>, i: int)
    requires 0 <= i < |prefixes| && NoLineBreak(prefixes[i])
    ensures var e := Folders(prefixes)[i];
            && e.prefix == prefixes[i]
            && (e.premium <==> EndsInWord(prefixes[i], "premium"))
            && (e.gold <==> EndsInWord(prefixes[i], "gold"))
            && !(e.premium && e.gold)
            && (if Text.EndsWith(prefixes[i], "/") then e.caption + "/" else e.caption) == prefixes[i]
  {
    TierIsSuffixTest(prefixes[i], "premium");
    TierIsSuffixTest(prefixes[i], "gold");
    NeverBothTiers(prefixes[i]);
  }

  // ---------------------------------------------------------------------
  // Track records

  /** The folder of a key: every segment but the last, or "" for a key
      without `/`. */
  function FolderOf(key: string): string {
    var parts := Text.Split(key, '/');
    if '/' in key then Text.Join(parts[..|parts| - 1], '/') else ""
  }

  /** The name of a key: its last segment. */
  function NameOf(key: string): (name: string)
    ensures '/' !in name
  {
    var parts := Text.Split(key, '/');
    parts[|parts| - 1]
  }

  /** Folder and name put back together give the key. */
  lemma FolderNameRoundTrip(key: string)
    ensures '/' in key ==> FolderOf(key) + "/" + NameOf(key) == key
    ensures '/' !in key ==> FolderOf(key) == "" && NameOf(key) == key
  {
    var parts := Text.Split(key, '/');
    Text.JoinSplit(key, '/');
    Text.SplitCount(key, '/');
    if '/' in key {
      Text.JoinLast(parts, '/');
    }
  }

  /** An entry of the search index. */
  datatype IndexItem = IndexItem(key: string, size: int, lastModified: Option<string>)

  /** A track as the API returns it. */
  datatype Track = Track(key: string, name: string, folder: string, size: Option<int>, lastModified: Option<string>)

  /** `mapObj(o)` for an object with the lower-case fields `key`, `size`
      and `lastModified`. */
  function MapObj(key: string, size: Option<int>, lastModified: Option<string>): (t: Track)
    ensures t.key == key && '/' !in t.name
    ensures '/' in key ==> t.folder + "/" + t.name == key
    ensures '/' !in key ==> t.folder == "" && t.name == key
  {
    FolderNameRoundTrip(key);
    Track(key, NameOf(key), FolderOf(key), size, lastModified)
  }

  // ---------------------------------------------------------------------
  // Listing responses

  /** An object of a listing page, with the storage service's field names. */
  datatype StoredObject = StoredObject(key: string, size: Option<int>, lastModified: Option<string>)

  /** One page of `listObjects`. */
  datatype Page = Page(contents: seq<StoredObject>, isTruncated: bool, nextToken: Option<string>)

  /** The answer to one listing call. */
  datatype Listing = Listed(page: Page) | ListFailed

  /** The walk goes on after this page: it is truncated and names a
      non-empty continuation token. */
  predicate Continues(p: Page) { p.isTruncated && Present(p.nextToken) }

  /** The entry of a stored object in the index: its key, its size with
      a missing size read as 0, and its modification time. */
  function ItemOf(o: StoredObject): IndexItem {
    IndexItem(o.key, o.size.GetOr(0), o.lastModified)
  }

  /** The index entries of a page's audio objects, in page order, with a
      missing or zero size read as 0. */
  function AudioItems(cs: seq<StoredObject>): (r: seq<IndexItem>)
    ensures forall i :: 0 <= i < |r| ==> S3.IsAudio(r[i].key)
    ensures |r| <= |cs|
    decreases |cs|
  {
    if cs == [] then []
    else
      var o := cs[|cs| - 1];
      AudioItems(cs[..|cs| - 1]) + if S3.IsAudio(o.key) then [ItemOf(o)] else []
  }

  /** The items of a listing split in two are those of the first part
      followed by those of the second: page order is kept. */
  lemma {:induction false} AudioItemsConcat(a: seq<StoredObject>, b: seq<StoredObject>)
    ensures AudioItems(a + b) == AudioItems(a) + AudioItems(b)
    decreases |b|
  {
    if b == [] {
      assert a + b == a;
    } else {
      var o := b[|b| - 1];
      assert (a + b)[..|a + b| - 1] == a + b[..|b| - 1];
      assert (a + b)[|a + b| - 1] == o;
      AudioItemsConcat(a, b[..|b| - 1]);
    }
  }

  /** Every audio object of the page is kept. */
  lemma {:induction false} AudioItemsComplete(cs: seq<StoredObject>)
    ensures forall k :: 0 <= k < |cs| && S3.IsAudio(cs[k].key) ==> ItemOf(cs[k]) in AudioItems(cs)
    decreases |cs|
  {
    if cs != [] {
      var init := cs[..|cs| - 1];
      AudioItemsComplete(init);
      forall k | 0 <= k < |cs| && S3.IsAudio(cs[k].key)
        ensures ItemOf(cs[k]) in AudioItems(cs)
      {
        if k < |cs| - 1 {
          assert cs[k] == init[k];
        }
      }
    }
  }

  /** One object gives its index entry exactly when it is audio. */
  lemma AudioItemsOne(o: StoredObject)
    ensures AudioItems([o]) == if S3.IsAudio(o.key) then [ItemOf(o)] else []
  {
    assert [o][..0] == [];
  }

  /** The index a complete walk over the listing answers collects: the
      audio entries of every page up to the first one that does not
      continue. A failed call, or running out of answers, fails the walk. */
  function Walk(answers: seq<Listing>): (r: Result<seq<IndexItem>, string>)
    ensures r.Ok? ==> forall i :: 0 <= i < |r.value| ==> S3.IsAudio(r.value[i].key)
    decreases |answers|
  {
    if answers == [] || answers[0].ListFailed? then Err("listing failed")
    else
      var items := AudioItems(answers[0].page.contents);
      if !Continues(answers[0].page) then Ok(items)
      else match Walk(answers[1..])
        case Ok(rest) => Ok(items + rest)
        case Err(e) => Err(e)
  }

  /** A walk that collected acc and goes on with the rest. */
  function After(acc: seq<IndexItem>, r: Result<seq<IndexItem>, string>): Result<seq<IndexItem>, string> {
    match r
    case Ok(ks) => Ok(acc + ks)
    case Err(e) => Err(e)
  }

  lemma AfterNothing(r: Result<seq<IndexItem>, string>)
    ensures After([], r) == r
  {
    if r.Ok? {
      assert [] + r.value == r.value;
    }
  }

  lemma AfterAfter(a: seq<IndexItem>, b: seq<IndexItem>, r: Result<seq<IndexItem>, string>)
    ensures After(a, After(b, r)) == After(a + b, r)
  {
    if r.Ok? {
      assert a + (b + r.value) == (a + b) + r.value;
    }
  }

  /** A walk stops at the first page that does not continue: later answers
      are never requested. */
  lemma {:induction false} WalkIgnoresLaterAnswers(answers: seq<Listing>, more: seq<Listing>)
    requires Walk(answers).Ok?
    ensures Walk(answers + more) == Walk(answers)
    decreases |answers|
  {
    assert (answers + more)[0] == answers[0];
    if Continues(answers[0].page) {
      assert (answers + more)[1..] == answers[1..] + more;
      WalkIgnoresLaterAnswers(answers[1..], more);
    }
  }

  /** The audio entries of the listed pages, page after page. */
  function PagesItems(answers: seq<Listing>): seq<IndexItem>
    decreases |answers|
  {
    if answers == [] then []
    else (if answers[0].Listed? then AudioItems(answers[0].page.contents) else []) + PagesItems(answers[1..])
  }

  /** When the first n pages continue and page n is the last, the walk
      collects the audio entries of pages 0 to n, in page order. */
  lemma {:induction false} WalkCollectsPages(answers: seq<Listing>, n: nat)
    requires n < |answers|
    requires forall i :: 0 <= i <= n ==> answers[i].Listed?
    requires forall i :: 0 <= i < n ==> Continues(answers[i].page)
    requires !Continues(answers[n].page)
    ensures Walk(answers) == Ok(PagesItems(answers[..n + 1]))
    decreases n
  {
    var items := AudioItems(answers[0].page.contents);
    assert answers[..n + 1][0] == answers[0];
    assert answers[..n + 1][1..] == answers[1..][..n];
    if n == 0 {
      assert answers[..1][1..] == [];
      assert PagesItems(answers[..1]) == items + [] == items;
      assert Walk(answers) == Ok(items);
    } else {
      var rest := answers[1..];
      assert forall i :: 0 <= i <= n - 1 ==> rest[i] == answers[i + 1];
      WalkCollectsPages(rest, n - 1);
    }
  }

  /** A failed listing call, or running out of answers, before the page
      that ends the walk fails the whole walk. */
  lemma {:induction false} WalkFailsBeforeEnd(answers: seq<Listing>, n: nat)
    requires n <= |answers|
    requires forall i :: 0 <= i < n ==> answers[i].Listed? && Continues(answers[i].page)
    requires n == |answers| || answers[n].ListFailed?
    ensures Walk(answers).Err?
    decreases n
  {
    if n > 0 {
      var rest := answers[1..];
      assert forall i :: 0 <= i < n - 1 ==> rest[i] == answers[i + 1];
      WalkFailsBeforeEnd(rest, n - 1);
    }
  }

  const IndexTtlMs: int := 10 * 60 * 1000

  /** The cached index is reused only when younger than the time to live
      and not empty. */
  predicate Fresh(keys: seq<IndexItem>, at: Instant, now: Instant) {
    now - at < IndexTtlMs && |keys| > 0
  }

  /** `INDEX_CACHE`: the search index and the time it was built. */
  class CatalogIndex {
    var keys: seq<IndexItem>
    var at: Instant

    /** `{ keys: [], at: 0 }` */
    constructor ()
      ensures keys == [] && at == 0
    {
      keys := [];
      at := 0;
    }

    /** `refreshIndexIfNeeded()`: the cached index when fresh; otherwise a
        walk over every listing page, replacing the whole cache, stamped
        with the time read on entry. A failed walk leaves the cache as it
        was. */
    method RefreshIfNeeded(now: Instant, answers: seq<Listing>) returns (r: Result<seq<IndexItem>, string>)
      modifies this
      ensures Fresh(old(keys), old(at), now) ==> r == Ok(old(keys)) && keys == old(keys) && at == old(at)
      ensures !Fresh(old(keys), old(at), now) ==> r == Walk(answers)
      ensures !Fresh(old(keys), old(at), now) && r.Ok? ==> keys == r.value && at == now
      ensures r.Err? ==> keys == old(keys) && at == old(at)
    {
      if now - at < IndexTtlMs && |keys| > 0 {
        return Ok(keys);
      }
      r := ListAll(answers);
      if r.Ok? {
        keys := r.value;
        at := now;
      }
    }
  }

  /** The do/while page loop of `refreshIndexIfNeeded`: one listing call per
      page, keeping the audio objects, until a page does not continue. */
  method ListAll(answers: seq<Listing>) returns (r: Result<seq<IndexItem>, string>)
    ensures r == Walk(answers)
  {
    var acc: seq<IndexItem> := [];
    var i := 0;
    var more := true;
    assert answers[0..] == answers;
    AfterNothing(Walk(answers));
    while more
      invariant 0 <= i <= |answers|
      invariant more ==> Walk(answers) == After(acc, Walk(answers[i..]))
      invariant !more ==> Walk(answers) == Ok(acc)
      decreases |answers| - i, more
    {
      if i == |answers| || answers[i].ListFailed? {
        return Err("listing failed");
      }
      var page := answers[i].page;
      assert Walk(answers[i..]) == if !Continues(page) then Ok(AudioItems(page.contents))
                                   else After(AudioItems(page.contents), Walk(answers[i + 1..])) by {
        assert answers[i..][1..] == answers[i + 1..];
      }
      ghost var acc0 := acc;
      acc := KeepAudio(acc, page.contents);
      AfterAfter(acc0, AudioItems(page.contents), Walk(answers[i + 1..]));
      i := i + 1;
      more := Continues(page);
    }
    r := Ok(acc);
  }

  /** The inner loop: each audio object of a page pushed onto the index. */
  method KeepAudio(acc: seq<IndexItem>, contents: seq<StoredObject>) returns (r: seq<IndexItem>)
    ensures r == acc + AudioItems(contents)
  {
    r := acc;
    var j := 0;
    while j < |contents|
      invariant 0 <= j <= |contents|
      invariant r == acc + AudioItems(contents[..j])
    {
      var o := contents[j];
      assert contents[..j + 1][..j] == contents[..j];
      if S3.IsAudio(o.key) {
        r := r + [ItemOf(o)];
      }
      j := j + 1;
    }
    assert contents[..j] == contents;
  }

  // ---------------------------------------------------------------------
  // Search and browsing

  const SearchLimit: nat := 500

  /** Whether an index entry matches a (lower-cased) search term. */
  predicate Matches(item: IndexItem, q: string) {
    Text.Includes(Text.Lower(item.key), q)
  }

  /** The index entries matching q, in index order. */
  function Matching(index: seq<IndexItem>, q: string): (r: seq<IndexItem>)
    ensures forall x :: x in r <==> x in index && Matches(x, q)
    ensures |r| <= |index|
    decreases |index|
  {
    if index == [] then []
    else (if Matches(index[0], q) then [index[0]] else []) + Matching(index[1..], q)
  }

  /** Matching works piecewise: earlier entries come first. */
  lemma {:induction false} MatchingConcat(a: seq<IndexItem>, b: seq<IndexItem>, q: string)
    ensures Matching(a + b, q) == Matching(a, q) + Matching(b, q)
    decreases |a|
  {
    if a == [] {
      assert a + b == b;
    } else {
      assert (a + b)[0] == a[0] && (a + b)[1..] == a[1..] + b;
      MatchingConcat(a[1..], b, q);
    }
  }

  /** The trimmed, lower-cased search term: no upper-case letter and no
      white space at either end. */
  function Query(search: string): (q: string)
    ensures forall i :: 0 <= i < |q| ==> !Text.IsUpper(q[i])
    ensures q == [] || (!Text.IsSpace(q[0]) && !Text.IsSpace(q[|q| - 1]))
  {
    Text.Lower(Text.Trim(search))
  }

  /** The result of a search: the first SearchLimit matching entries of the
      index, in index order, as tracks. */
  function Search(index: seq<IndexItem>, q: string): (r: seq<Track>)
    ensures |r| == if |Matching(index, q)| < SearchLimit then |Matching(index, q)| else SearchLimit
    ensures forall i :: 0 <= i < |r| ==> var x := Matching(index, q)[i]; r[i] == MapObj(x.key, Some(x.size), x.lastModified)
  {
    var found := Matching(index, q);
    var n := if |found| < SearchLimit then |found| else SearchLimit;
    seq(n, i requires 0 <= i < n => MapObj(found[i].key, Some(found[i].size), found[i].lastModified))
  }

  /** Every search result contains the term, and with fewer matches than the
      limit every matching entry is returned. */
  lemma SearchSound(index: seq<IndexItem>, q: string)
    ensures forall t :: t in Search(index, q) ==> Text.Includes(Text.Lower(t.key), q)
    ensures |Matching(index, q)| < SearchLimit ==>
              forall x :: x in index && Matches(x, q) ==> MapObj(x.key, Some(x.size), x.lastModified) in Search(index, q)
  {
    var found := Matching(index, q);
    var r := Search(index, q);
    forall t | t in r
      ensures Text.Includes(Text.Lower(t.key), q)
    {
      var i :| 0 <= i < |r| && r[i] == t;
      assert found[i] in found;
    }
    if |found| < SearchLimit {
      forall x | x in index && Matches(x, q)
        ensures MapObj(x.key, Some(x.size), x.lastModified) in r
      {
        var i :| 0 <= i < |found| && found[i] == x;
        assert r[i] == MapObj(x.key, Some(x.size), x.lastModified);
      }
    }
  }

  /** Lower-casing reaches accented capitals: the term "FORRÓ" finds the
      key "Forró/x.mp3". */
  lemma AccentedTermMatches(s: string, name: string, key: string)
    requires s == "FORRÓ" && name == "Forró" && key == name + "/x.mp3"
    ensures Matches(IndexItem(key, 0, None), Query(s))
  {
    Text.TrimUnpadded(s);
    LowerForro(s);
    LowerForro(name);
    assert key[..|name|] == name;
    PrefixMatches(key, s, |name|);
  }

  /** A key whose first n characters lower to the term matches it. */
  lemma PrefixMatches(key: string, search: string, n: nat)
    requires n <= |key| && Query(search) == Text.Lower(key[..n])
    ensures Matches(IndexItem(key, 0, None), Query(search))
  {
    Text.LowerPrefix(key, n);
    assert Text.OccursAt(Text.Lower(key), Query(search), 0);
  }

  /** Both spellings lower to "forró". */
  lemma LowerForro(s: string)
    requires s == "FORRÓ" || s == "Forró"
    ensures Text.Lower(s) == "forró"
  {
    var q := Text.Lower(s);
    assert q[0] == 'f' && q[1] == 'o' && q[2] == 'r' && q[3] == 'r' && q[4] == 'ó';
  }

  /** The answer of `GET /tracks`. `Failed` is a request whose handler
      throws. */
  datatype TracksReply = Tracks(items: seq<Track>, nextToken: Option<string>) | Failed(reason: string)

  /** The continuation token a browse answer carries: the page's token when
      it is truncated, else null. */
  function NextTokenOf(p: Page): Option<string> {
    if p.isTruncated then p.nextToken else None
  }

  /** The browse path as written: it maps the storage service's objects,
      whose fields are `Key`, `Size` and `LastModified`, through `mapObj`,
      which reads `o.key`; `undefined.split` throws as soon as the page
      holds one audio object. */
  function BrowseAsWritten(p: Page): (r: TracksReply)
    ensures r.Tracks? <==> forall i :: 0 <= i < |p.contents| ==> !S3.IsAudio(p.contents[i].key)
    ensures r.Tracks? ==> r.items == [] && r.nextToken == NextTokenOf(p)
  {
    if exists i | 0 <= i < |p.contents| :: S3.IsAudio(p.contents[i].key) then Failed("TypeError")
    else Tracks([], NextTokenOf(p))
  }

  /** A page holding one audio file makes the browse path throw. */
  lemma BrowseAsWrittenFails()
    ensures BrowseAsWritten(Page([StoredObject("A.MP3", Some(1), None)], false, None)).Failed?
  {
    S3.UpperCaseExtensionIsAudio();
    var p := Page([StoredObject("A.MP3", Some(1), None)], false, None);
    assert S3.IsAudio(p.contents[0].key);
  }

  /** The audio objects of a page as tracks, in page order. */
  function AudioTracks(cs: seq<StoredObject>): (r: seq<Track>)
    ensures forall t :: t in r ==> S3.IsAudio(t.key) && t == MapObj(t.key, t.size, t.lastModified)
    decreases |cs|
  {
    if cs == [] then []
    else (if S3.IsAudio(cs[0].key) then [MapObj(cs[0].key, cs[0].size, cs[0].lastModified)] else []) + AudioTracks(cs[1..])
  }

  /** The browse path with the storage object's fields carried over
      (`{key: o.Key, size: o.Size, lastModified: o.LastModified}`): the
      page's audio objects as tracks, with the continuation token of a
      truncated page. */
  function Browse(p: Page): (r: TracksReply)
    ensures r.Tracks? && r.nextToken == NextTokenOf(p)
    ensures forall t :: t in r.items ==> S3.IsAudio(t.key) && t == MapObj(t.key, t.size, t.lastModified)
  {
    Tracks(AudioTracks(p.contents), NextTokenOf(p))
  }

  /** Every audio object of the page is listed by the corrected browse path,
      where the path as written fails. */
  lemma {:induction false} BrowseListsEveryAudioObject(cs: seq<StoredObject>, i: int)
    requires 0 <= i < |cs| && S3.IsAudio(cs[i].key)
    ensures MapObj(cs[i].key, cs[i].size, cs[i].lastModified) in Browse(Page(cs, false, None)).items
    ensures BrowseAsWritten(Page(cs, false, None)).Failed?
    decreases |cs|
  {
    if i > 0 {
      BrowseListsEveryAudioObject(cs[1..], i - 1);
    }
  }

  // ---------------------------------------------------------------------
  // Streaming

  /** The access decision of `GET /stream-url` for a folder and a plan. */
  datatype Access = GoldRequired | PremiumRequired | Granted

  /** Gold folders need the gold plan; premium folders need premium or
      gold; the gold test comes first. */
  function StreamAccess(folder: string, plan: string): Access {
    if IsGoldFolder(folder) && plan != "gold" then GoldRequired
    else if IsPremiumFolder(folder) && plan != "premium" && plan != "gold" then PremiumRequired
    else Granted
  }

  /** The access matrix: a folder is open to a plan exactly when it is not
      gold or the plan is gold, and not premium or the plan is premium or
      gold. The gold plan opens every folder; any other plan string (free,
      or an unvalidated one) opens only unflagged folders. */
  lemma AccessMatrix(folder: string, plan: string)
    ensures StreamAccess(folder, plan) == Granted <==>
              (!IsGoldFolder(folder) || plan == "gold") && (!IsPremiumFolder(folder) || plan == "premium" || plan == "gold")
    ensures plan == "gold" ==> StreamAccess(folder, plan) == Granted
    ensures plan != "gold" && plan != "premium" ==>
              (StreamAccess(folder, plan) == Granted <==> !IsGoldFolder(folder) && !IsPremiumFolder(folder))
    ensures StreamAccess(folder, plan) == PremiumRequired ==> IsPremiumFolder(folder) && !IsGoldFolder(folder)
  {
    NeverBothTiers(folder);
  }

  /** The genre a play is tagged with: the first folder segment, trimmed. */
  function Genre(folder: string): string {
    Text.Trim(Text.Split(folder, '/')[0])
  }

  /** The answer of `GET /stream-url`. */
  datatype StreamReply = BadRequest | PaymentRequired(error: string) | Url(url: S3.SignedUrl)

  /** `GET /stream-url?key=`: 400 without a key; 402 when the plan does not
      open the key's immediate folder; otherwise a signed URL for the key,
      after which a play tag for the genre is started when the genre is not
      empty. The tag runs detached, so its outcome never changes the reply. */
  method StreamUrl(b: Bucket, uid: Uid, key: Option<string>, ttl: Option<int>) returns (reply: StreamReply)
    modifies b
    ensures !Present(key) ==> reply == BadRequest && b.objects == old(b.objects)
    ensures Present(key) ==>
              var folder := FolderOf(key.value);
              var access := StreamAccess(folder, Db.GetEntitlements(old(b.objects), b.unreadable, uid).plan);
              && (access == GoldRequired ==> reply == PaymentRequired("gold_required") && b.objects == old(b.objects))
              && (access == PremiumRequired ==> reply == PaymentRequired("premium_required") && b.objects == old(b.objects))
              && (access == Granted ==> reply == Url(S3.SignedUrl(key.value, ttl)))
              && (access == Granted && Genre(folder) == "" ==> b.objects == old(b.objects))
              && (access == Granted && Genre(folder) != "" && Db.GetUser(old(b.objects), b.unreadable, uid).Some? ==>
                    var user := Db.GetUser(old(b.objects), b.unreadable, uid).value;
                    b.objects == Apply(old(b.objects), b.unwritable,
                                       Db.SaveUserWrites(user.(tags := Some(ProfileTags.PlayTagged(user.tags, Genre(folder)))))))
              && (access == Granted && Db.GetUser(old(b.objects), b.unreadable, uid).None? ==> b.objects == old(b.objects))
  {
    if !Present(key) {
      return BadRequest;
    }
    var folder := FolderOf(key.value);
    var ent := Db.GetEntitlements(b.objects, b.unreadable, uid);
    if IsGoldFolder(folder) && ent.plan != "gold" {
      return PaymentRequired("gold_required");
    }
    if IsPremiumFolder(folder) && ent.plan != "premium" && ent.plan != "gold" {
      return PaymentRequired("premium_required");
    }
    var url := S3.SignedUrl(key.value, ttl);
    var genre := Genre(folder);
    if genre != "" {
      var _ := ProfileTags.AddPlayTag(b, uid, genre);
    }
    reply := Url(url);
  }

  /** The tier of a key is judged on its immediate folder only: a track in
      a subfolder of a premium folder is open to every plan. */
  lemma SubfolderOfPremiumIsOpen(name: string, plan: string)
    requires '/' !in name
    ensures FolderOf("premium/sub/" + name) == "premium/sub"
    ensures StreamAccess(FolderOf("premium/sub/" + name), plan) == Granted
  {
    var parts := ["premium", "sub", name];
    JoinThree(parts, '/');
    assert Text.Join(parts, '/') == "premium/sub/" + name;
    assert Text.Join(parts[..2], '/') == "premium/sub";
    FolderOfJoin(parts);
    PremiumSubfolderIsOpen(plan);
  }

  /** The folder "premium/sub" is neither premium nor gold. */
  lemma PremiumSubfolderIsOpen(plan: string)
    ensures StreamAccess("premium/sub", plan) == Granted
  {
    var f := "premium/sub";
    PremiumParentOnly();
    if IsGoldFolder(f) {
      TierMatchEndsInWord(f, "gold");
      EndsInWordLast(f, "gold");
    }
  }

  /** The folder of a key built from segments is the join of all but the
      last of them. */
  lemma {:induction false} FolderOfJoin(parts: seq<string>)
    requires |parts| >= 2
    requires forall i :: 0 <= i < |parts| ==> '/' !in parts[i]
    ensures FolderOf(Text.Join(parts, '/')) == Text.Join(parts[..|parts| - 1], '/')
  {
    var key := Text.Join(parts, '/');
    Text.SplitJoin(parts, '/');
    assert Text.Split(key, '/') == parts;
    Text.SplitCount(key, '/');
    assert '/' in key;
  }

  lemma JoinThree(parts: seq<string>, sep: char)
    requires |parts| == 3
    ensures Text.Join(parts, sep) == parts[0] + [sep] + parts[1] + [sep] + parts[2]
    ensures Text.Join(parts[..2], sep) == parts[0] + [sep] + parts[1]
  {
    assert parts[1..][1..] == [parts[2]];
    assert Text.Join(parts[1..], sep) == parts[1] + [sep] + parts[2];
    assert Text.Join(parts, sep) == parts[0] + [sep] + (parts[1] + [sep] + parts[2]);
    assert parts[..2][1..] == [parts[1]];
  }

  // ---------------------------------------------------------------------
  // The tracks route

  /** `GET /tracks`: with a non-empty search term, a search of the index
      (refreshed when stale) with no continuation token; otherwise the page
      of the folder, or a failed request when that listing call throws. The
      browse path here is the corrected one. */
  method GetTracks(cache: CatalogIndex, search: string, now: Instant, answers: seq<Listing>, folder: Listing)
    returns (reply: TracksReply)
    modifies cache
    ensures Query(search) == "" ==> cache.keys == old(cache.keys) && cache.at == old(cache.at)
    ensures Query(search) == "" && folder.Listed? ==> reply == Browse(folder.page)
    ensures Query(search) == "" && folder.ListFailed? ==> reply.Failed?
    ensures Query(search) != "" && Fresh(old(cache.keys), old(cache.at), now) ==>
              reply == Tracks(Search(old(cache.keys), Query(search)), None)
    ensures Query(search) != "" && !Fresh(old(cache.keys), old(cache.at), now) ==>
              reply == match Walk(answers)
                       case Ok(ks) => Tracks(Search(ks, Query(search)), None)
                       case Err(e) => Failed(e)
    ensures Query(search) != "" && Fresh(old(cache.keys), old(cache.at), now) ==>
              cache.keys == old(cache.keys) && cache.at == old(cache.at)
    ensures Query(search) != "" && !Fresh(old(cache.keys), old(cache.at), now) && Walk(answers).Ok? ==>
              cache.keys == Walk(answers).value && cache.at == now
    ensures Walk(answers).Err? ==> cache.keys == old(cache.keys) && cache.at == old(cache.at)
  {
    var q := Query(search);
    if q != "" {
      var all := cache.RefreshIfNeeded(now, answers);
      if all.Err? {
        return Failed(all.error);
      }
      return Tracks(Search(all.value, q), None);
    }
    if folder.ListFailed? {
      return Failed("listing failed");
    }
    reply := Browse(folder.page);
  }
}
