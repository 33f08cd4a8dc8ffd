/** Rules of the web client: picking the next and previous track
    (client/src/App.jsx), what a play does with the stream-url answer, and
    the m:ss time format of the player (client/src/components/Player.jsx). */
module Client {
  import opened Wrappers
  import opened Documents
  import opened Text
  import opened Collections
  import S3
  import Catalog

  /** `tracks.findIndex(x => x.key === key)`: the first position of key, or
      -1 when it is not in the list. */
  function IndexOf(keys: seq<Key>, key: Key): (i: int)
    ensures -1 <= i < |keys|
    ensures i >= 0 ==> keys[i] == key && forall j :: 0 <= j < i ==> keys[j] != key
    ensures i == -1 ==> key !in keys
  {
    if keys == [] then -1
    else if keys[0] == key then 0
    else
      var rest := IndexOf(keys[1..], key);
      if rest == -1 then -1 else rest + 1
  }

  /** `next()`: the key of the track it plays, or None when it does
      nothing. draw is `Math.floor(Math.random() * tracks.length)`. */
  function Next(keys: seq<Key>, current: Option<Key>, repeat: bool, shuffle: bool, draw: nat): (r: Option<Key>)
    requires keys != [] ==> draw < |keys|
    ensures r.None? <==> keys == [] || current.None?
    ensures r.Some? && repeat ==> r == current
    ensures r.Some? && !repeat ==> r.value in keys
  {
    if keys == [] || current.None? then None
    else if repeat then current
    else if shuffle then Some(keys[draw])
    else
      var n := IndexOf(keys, current.value) + 1;
      Some(keys[if n < |keys| - 1 then n else |keys| - 1])
  }

  /** `prev()`: as Next, but repeat plays no part. */
  function Prev(keys: seq<Key>, current: Option<Key>, shuffle: bool, draw: nat): (r: Option<Key>)
    requires keys != [] ==> draw < |keys|
    ensures r.None? <==> keys == [] || current.None?
    ensures r.Some? ==> r.value in keys
  {
    if keys == [] || current.None? then None
    else if shuffle then Some(keys[draw])
    else
      var p := IndexOf(keys, current.value) - 1;
      Some(keys[if p > 0 then p else 0])
  }

  /** With no tracks or no current track, neither moves. */
  lemma NothingToMove(keys: seq<Key>, current: Option<Key>, repeat: bool, shuffle: bool, draw: nat)
    requires keys != [] ==> draw < |keys|
    requires keys == [] || current.None?
    ensures Next(keys, current, repeat, shuffle, draw).None?
    ensures Prev(keys, current, shuffle, draw).None?
  {
  }

  /** The plain order: next is the track after the current one and prev the
      track before it, staying on the last and on the first track; a current
      track that is not in the list counts as position -1, so both go to the
      first track. Repeat makes next replay the current track, and shuffle
      plays the drawn one. */
  lemma Stepping(keys: seq<Key>, key: Key, draw: nat)
    requires keys != [] && draw < |keys|
    ensures var i := IndexOf(keys, key);
            && Next(keys, Some(key), false, false, draw) == Some(keys[if i + 1 < |keys| then i + 1 else |keys| - 1])
            && Prev(keys, Some(key), false, draw) == Some(keys[if i >= 1 then i - 1 else 0])
    ensures key !in keys ==>
              Next(keys, Some(key), false, false, draw) == Some(keys[0]) && Prev(keys, Some(key), false, draw) == Some(keys[0])
    ensures keys[|keys| - 1] == key && key !in keys[..|keys| - 1] ==>
              Next(keys, Some(key), false, false, draw) == Some(key)
    ensures keys[0] == key ==> Prev(keys, Some(key), false, draw) == Some(key)
    ensures forall shuffle :: Next(keys, Some(key), true, shuffle, draw) == Some(key)
    ensures forall repeat :: Next(keys, Some(key), repeat, true, draw) in {Some(key), Some(keys[draw])}
    ensures Prev(keys, Some(key), true, draw) == Some(keys[draw])
  {
  }

  /** In a list without repeated keys, prev undoes a plain next from any
      track but the last. */
  lemma PrevUndoesNext(keys: seq<Key>, i: nat, draw: nat)
    requires NoDup(keys) && i + 1 < |keys| && draw < |keys|
    ensures Next(keys, Some(keys[i]), false, false, draw) == Some(keys[i + 1])
    ensures Prev(keys, Some(keys[i + 1]), false, draw) == Some(keys[i])
  {
    FirstIndexOfDistinct(keys, i);
    FirstIndexOfDistinct(keys, i + 1);
  }

  /** In a list without repeated keys, the position of an element is its
      index. */
  lemma FirstIndexOfDistinct(keys: seq<Key>, i: nat)
    requires NoDup(keys) && i < |keys|
    ensures IndexOf(keys, keys[i]) == i
  {
    var j := IndexOf(keys, keys[i]);
    assert j >= 0;
  }

  /** What a play leaves behind: the url and the current track set, whether
      the history add was made, and whether the premium modal opened. */
  datatype Effects = Effects(url: Option<S3.SignedUrl>, current: Option<Key>, historyAdded: bool, premiumShown: bool)

  /** The body of a non-ok answer of `/content/stream-url`. */
  function ErrorBody(reply: Catalog.StreamReply): string {
    match reply
    case BadRequest => "{\"error\":\"key\"}"
    case PaymentRequired(error) => "{\"error\":\"" + error + "\"}"
    case Url(_) => ""
  }

  /** `play(t)` as written: the client's `api()` throws `new Error(await
      res.text())`, whose text is the JSON body, and the handler looks for
      "402" in it. */
  function PlayAsWritten(key: Key, reply: Catalog.StreamReply): (e: Effects)
    ensures e.historyAdded <==> e.url.Some?
    ensures e.historyAdded ==> e.current == Some(key)
    ensures e.premiumShown ==> reply.PaymentRequired?
    ensures reply.Url? ==> e.url == Some(reply.url)
    ensures !reply.Url? ==> e.url.None? && e.current.None?
  {
    if reply.Url? then Effects(Some(reply.url), Some(key), true, false)
    else
      var text := "Error: " + ErrorBody(reply);
      assert reply.BadRequest? ==> !Includes(text, "402") by {
        if reply.BadRequest? {
          assert text == "Error: {\"error\":\"key\"}";
          No402(text);
        }
      }
      Effects(None, None, false, Includes(text, "402"))
  }

  /** A text without the digit 4 never contains "402". */
  lemma No402(s: string)
    requires forall i :: 0 <= i < |s| ==> s[i] != '4'
    ensures !Includes(s, "402")
  {
    if Includes(s, "402") {
      HasFour(s);
    }
  }

  /** A text that contains "402" contains a 4. */
  lemma HasFour(s: string)
    requires Includes(s, "402")
    ensures exists i :: 0 <= i < |s| && s[i] == '4'
  {
    var i :| 0 <= i <= |s| - 3 && OccursAt(s, "402", i);
    assert s[i] == s[i..i + 3][0];
  }

  /** As written, a 402 for a premium or gold folder never opens the
      premium modal: neither body mentions 402. */
  lemma PremiumModalNeverShownAsWritten(key: Key, error: string)
    requires error == "premium_required" || error == "gold_required"
    ensures !PlayAsWritten(key, Catalog.PaymentRequired(error)).premiumShown
  {
    var text := "Error: " + ErrorBody(Catalog.PaymentRequired(error));
    assert text == "Error: {\"error\":\"" + error + "\"}";
    assert forall i :: 0 <= i < |error| ==> error[i] != '4';
    No402(text);
  }

  /** `play(t)` as evidently intended: a stream url sets the url and the
      current track and only then adds the play to the history; a 402
      answer opens the premium modal; any other failure changes nothing. */
  function Play(key: Key, reply: Catalog.StreamReply): (e: Effects)
    ensures e.historyAdded <==> e.url.Some?
    ensures e.historyAdded ==> e.current == Some(key)
    ensures e.premiumShown <==> reply.PaymentRequired?
    ensures reply.Url? ==> e.url == Some(reply.url)
    ensures !reply.Url? ==> e.url.None? && e.current.None?
  {
    if reply.Url? then Effects(Some(reply.url), Some(key), true, false)
    else Effects(None, None, false, reply.PaymentRequired?)
  }

  /** `fmt(sec)`: whole minutes, a colon and the seconds padded to two
      digits. A missing time is 0; minutes are JavaScript's floor division
      and seconds its remainder, which keeps the sign of sec. */
  function Fmt(sec: Option<int>): string {
    var t := sec.GetOr(0);
    var s := if t >= 0 then t % 60 else -((-t) % 60);
    IntToString(t / 60) + ":" + PadStart(IntToString(s), 2, '0')
  }

  /** `fmt()` and `fmt(0)` both give "0:00". */
  lemma FmtZero()
    ensures Fmt(None) == "0:00" && Fmt(Some(0)) == "0:00"
  {
    assert IntToString(0) == "0";
    assert PadStart("0", 2, '0') == "00";
  }

  /** The seconds of whole seconds n, as two digits. */
  lemma TwoDigits(s: nat)
    requires s < 60
    ensures var d := PadStart(IntToString(s), 2, '0');
            |d| == 2 && AllDigits(d) && ParseDigits(d) == s
  {
    var d := PadStart(IntToString(s), 2, '0');
    ParseDigitsOfDecimal(s);
    if s < 10 {
      assert d == ['0', DigitChar(s)];
      assert d[..1] == "0";
    } else {
      assert NatToDecimal(s) == NatToDecimal(s / 10) + [DigitChar(s % 10)];
      assert |d| == 2;
    }
  }

  /** For whole n >= 0 the text has two fields around one colon: the
      minutes, unpadded and unbounded, and the seconds, two digits below 60;
      reading them back gives n. */
  lemma FmtRoundTrip(n: nat)
    ensures var parts := Split(Fmt(Some(n)), ':');
            && |parts| == 2
            && AllDigits(parts[0]) && ParseDigits(parts[0]) == n / 60
            && |parts[1]| == 2 && AllDigits(parts[1]) && ParseDigits(parts[1]) < 60
            && ParseDigits(parts[0]) * 60 + ParseDigits(parts[1]) == n
  {
    var m, d := NatToDecimal(n / 60), PadStart(IntToString(n % 60), 2, '0');
    assert Fmt(Some(n)) == m + ":" + d;
    TwoDigits(n % 60);
    ParseDigitsOfDecimal(n / 60);
    NoColonInDigits(m);
    NoColonInDigits(d);
    SplitAround(m, d);
  }

  lemma NoColonInDigits(s: string)
    requires AllDigits(s)
    ensures ':' !in s
  {
  }

  /** Splitting two colon-free fields joined by a colon. */
  lemma SplitAround(m: string, d: string)
    requires ':' !in m && ':' !in d
    ensures Split(m + ":" + d, ':') == [m, d]
  {
    assert Join([m, d], ':') == m + ":" + d by {
      assert Join([m, d][1..], ':') == d;
    }
    SplitJoin([m, d], ':');
  }

  /** An hour shows as 60 minutes: minutes do not wrap. */
  lemma FmtHour()
    ensures Fmt(Some(3600)) == "60:00"
  {
    assert NatToDecimal(60) == "60";
    assert IntToString(0) == "0";
    assert PadStart("0", 2, '0') == "00";
  }
}
