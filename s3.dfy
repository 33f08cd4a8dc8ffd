/** The pure parts of the object-storage adapter (lib/s3.js): the audio-file
    test and the lifetime of signed URLs. Listing, get and put are modelled
    by the bucket (module Store) and the catalog's listing responses. */
module S3 {
  import opened Wrappers
  import Text

  /** The file extensions the catalog recognises as audio. */
  const AudioExtensions: seq<string> := [".mp3", ".m4a", ".wav", ".flac", ".ogg"]

  /** `isAudio(key)`: the key ends, ignoring case, in one of the audio extensions. */
  predicate IsAudio(key: string) {
    exists i | 0 <= i < |AudioExtensions| :: Text.EndsWith(Text.Fold(key), AudioExtensions[i])
  }

  /** Every audio key has a dot just before a three- or four-character
      extension at its very end. */
  lemma AudioHasExtension(key: string)
    requires IsAudio(key)
    ensures || (|key| >= 4 && key[|key| - 4] == '.')
            || (|key| >= 5 && key[|key| - 5] == '.')
  {
    var i :| 0 <= i < |AudioExtensions| && Text.EndsWith(Text.Fold(key), AudioExtensions[i]);
    ExtensionShape(i);
    DotBeforeSuffix(key, AudioExtensions[i]);
  }

  lemma ExtensionShape(i: int)
    requires 0 <= i < |AudioExtensions|
    ensures var e := AudioExtensions[i]; (|e| == 4 || |e| == 5) && e[0] == '.'
  {
  }

  /** A key that folds to something ending in a dotted suffix has the dot
      at the same place. */
  lemma DotBeforeSuffix(key: string, e: string)
    requires |e| >= 1 && e[0] == '.' && Text.EndsWith(Text.Fold(key), e)
    ensures |key| >= |e| && key[|key| - |e|] == '.'
  {
    var k, n := Text.Fold(key), |key| - |e|;
    assert k[n..][0] == '.' == k[n] == Text.FoldChar(key[n]);
  }

  /** The audio test ignores case. */
  lemma IsAudioIgnoresCase(key: string)
    ensures IsAudio(key) <==> IsAudio(Text.Fold(key))
  {
    Text.FoldIdempotent(key);
  }

  /** The default key `''` is rejected. */
  lemma EmptyKeyIsNotAudio()
    ensures !IsAudio("")
  {
  }

  /** An upper-case extension is accepted. */
  lemma UpperCaseExtensionIsAudio()
    ensures IsAudio("A.MP3")
  {
    var key := "A.MP3";
    var k := Text.Fold(key);
    assert k[0] == Text.FoldChar(key[0]) == 'a';
    assert k[1] == Text.FoldChar(key[1]) == '.';
    assert k[2] == Text.FoldChar(key[2]) == 'm';
    assert k[3] == Text.FoldChar(key[3]) == 'p';
    assert k[4] == Text.FoldChar(key[4]) == '3';
    assert k[1..] == AudioExtensions[0];
    assert Text.EndsWith(k, AudioExtensions[0]);
  }

  /** The extension must be the last thing in the key. */
  lemma PartialDownloadIsNotAudio()
    ensures !IsAudio("a.mp3.part")
  {
    var key := "a.mp3.part";
    assert key[|key| - 1] == 't';
    LastCharDecides(key);
  }

  /** A key is audio only if it ends, ignoring case, in the last letter of
      some audio extension. */
  lemma LastCharDecides(key: string)
    requires key != []
    requires Text.FoldChar(key[|key| - 1]) !in {'3', 'a', 'v', 'c', 'g'}
    ensures !IsAudio(key)
  {
    var k := Text.Fold(key);
    var last := k[|k| - 1];
    forall i | 0 <= i < |AudioExtensions|
      ensures !Text.EndsWith(k, AudioExtensions[i])
    {
      var e := AudioExtensions[i];
      assert e[|e| - 1] in {'3', 'a', 'v', 'c', 'g'};
      if |e| <= |k| {
        assert k[|k| - |e|..][|e| - 1] == last;
      }
    }
  }

  /** A presigned GET URL: opaque, standing for the object key it grants and
      the lifetime in seconds it was signed with. */
  datatype SignedUrl = SignedUrl(key: string, expiresIn: Option<int>)

  /** `SIGN_TTL`: `parseInt(SIGN_URL_EXPIRES_SECONDS || '3600', 10)`; None is NaN. */
  function SignTtl(env: Option<string>): (ttl: Option<int>)
    ensures env.None? || env == Some("") ==> ttl == Some(3600)
  {
    var text := if env.None? || env.value == "" then "3600" else env.value;
    assert text == "3600" ==> text == Text.NatToDecimal(3600);
    Text.ParseIntOfDecimal(3600);
    Text.ParseInt(text)
  }

  /** A configured decimal lifetime is read back as written. */
  lemma SignTtlOfDecimal(n: nat)
    ensures SignTtl(Some(Text.NatToDecimal(n))) == Some(n)
  {
    Text.ParseIntOfDecimal(n);
  }
}
