/** The bucket used as a document store: a map from key to document whose
    gets and puts may fail. A get fails when the key holds nothing or the
    backend refuses to read it; a put fails when the backend refuses to write
    that key. */
module Store {
  import opened Wrappers
  import opened Documents

  /** Why a get failed. */
  datatype Fault = NoSuchKey | Unavailable

  /** `getJson(key)` */
  function Fetch(objects: map<Key, Doc>, unreadable: set<Key>, key: Key): (r: Result<Doc, Fault>)
    ensures r.Ok? <==> key in objects && key !in unreadable
  {
    if key in unreadable then Err(Unavailable)
    else if key in objects then Ok(objects[key])
    else Err(NoSuchKey)
  }

  /** No key occurs twice. */
  predicate DistinctKeys(keys: seq<Key>) {
    forall i, j :: 0 <= i < j < |keys| ==> keys[i] != keys[j]
  }

  /** One `putJson(key, doc)`. */
  datatype Write = Write(key: Key, doc: Doc)

  /** Every put of ws, in order. */
  function Overwrite(objects: map<Key, Doc>, ws: seq<Write>): map<Key, Doc>
    decreases |ws|
  {
    if ws == [] then objects else Overwrite(objects[ws[0].key := ws[0].doc], ws[1..])
  }

  /** The puts of ws in order, stopping at the first one the backend refuses
      (an awaited put that throws ends the sequence). */
  function Apply(objects: map<Key, Doc>, unwritable: set<Key>, ws: seq<Write>): map<Key, Doc>
    decreases |ws|
  {
    if ws == [] || ws[0].key in unwritable then objects
    else Apply(objects[ws[0].key := ws[0].doc], unwritable, ws[1..])
  }

  /** The number of puts of ws that succeed: those before the first refused one. */
  function Succeeded(unwritable: set<Key>, ws: seq<Write>): (n: nat)
    ensures n <= |ws|
    ensures forall i :: 0 <= i < n ==> ws[i].key !in unwritable
    ensures n < |ws| ==> ws[n].key in unwritable
  {
    if ws == [] || ws[0].key in unwritable then 0 else 1 + Succeeded(unwritable, ws[1..])
  }

  predicate AllWritable(unwritable: set<Key>, ws: seq<Write>) {
    forall i :: 0 <= i < |ws| ==> ws[i].key !in unwritable
  }

  /** A failing put leaves exactly the puts before it done. */
  lemma {:induction false} ApplyIsPrefix(objects: map<Key, Doc>, unwritable: set<Key>, ws: seq<Write>)
    ensures Apply(objects, unwritable, ws) == Overwrite(objects, ws[..Succeeded(unwritable, ws)])
    decreases |ws|
  {
    if ws != [] && ws[0].key !in unwritable {
      var o' := objects[ws[0].key := ws[0].doc];
      ApplyIsPrefix(o', unwritable, ws[1..]);
      var n := Succeeded(unwritable, ws);
      assert ws[..n][1..] == ws[1..][..n - 1];
    }
  }

  /** A sequence of puts that all succeed performs every one of them. */
  lemma AllWritableApply(objects: map<Key, Doc>, unwritable: set<Key>, ws: seq<Write>)
    requires AllWritable(unwritable, ws)
    ensures Apply(objects, unwritable, ws) == Overwrite(objects, ws)
  {
    ApplyIsPrefix(objects, unwritable, ws);
    assert ws[..|ws|] == ws;
  }

  /** Running two sequences of puts one after the other: the second runs only
      when the first completed. */
  lemma {:induction false} ApplyConcat(objects: map<Key, Doc>, unwritable: set<Key>, ws1: seq<Write>, ws2: seq<Write>)
    ensures Apply(objects, unwritable, ws1 + ws2)
         == if AllWritable(unwritable, ws1) then Apply(Apply(objects, unwritable, ws1), unwritable, ws2)
            else Apply(objects, unwritable, ws1)
    ensures AllWritable(unwritable, ws1 + ws2) <==> AllWritable(unwritable, ws1) && AllWritable(unwritable, ws2)
    decreases |ws1|
  {
    if ws1 == [] {
      assert ws1 + ws2 == ws2;
    } else {
      assert (ws1 + ws2)[0] == ws1[0];
      assert (ws1 + ws2)[1..] == ws1[1..] + ws2;
      if ws1[0].key !in unwritable {
        ApplyConcat(objects[ws1[0].key := ws1[0].doc], unwritable, ws1[1..], ws2);
      }
    }
  }

  /** Keys that no put names keep their documents. */
  lemma {:induction false} OverwriteElsewhere(objects: map<Key, Doc>, ws: seq<Write>, k: Key)
    requires forall i :: 0 <= i < |ws| ==> ws[i].key != k
    ensures k in Overwrite(objects, ws) <==> k in objects
    ensures k in objects ==> Overwrite(objects, ws)[k] == objects[k]
    decreases |ws|
  {
    if ws != [] {
      OverwriteElsewhere(objects[ws[0].key := ws[0].doc], ws[1..], k);
    }
  }

  /** The last put to a key decides its document: puts overwrite whole
      documents, with no merge. */
  lemma {:induction false} OverwriteLast(objects: map<Key, Doc>, ws: seq<Write>, i: nat)
    requires i < |ws|
    requires forall j :: i < j < |ws| ==> ws[j].key != ws[i].key
    ensures ws[i].key in Overwrite(objects, ws) && Overwrite(objects, ws)[ws[i].key] == ws[i].doc
    decreases |ws|
  {
    var o' := objects[ws[0].key := ws[0].doc];
    if i == 0 {
      OverwriteElsewhere(o', ws[1..], ws[0].key);
    } else {
      OverwriteLast(o', ws[1..], i - 1);
    }
  }

  /** The bucket: its documents change by puts; the keys the backend refuses
      to read or to write are fixed for the bucket's lifetime. */
  class Bucket {
    var objects: map<Key, Doc>
    const unreadable: set<Key>
    const unwritable: set<Key>

    constructor (objects: map<Key, Doc>, unreadable: set<Key>, unwritable: set<Key>)
      ensures this.objects == objects
      ensures this.unreadable == unreadable && this.unwritable == unwritable
    {
      this.objects := objects;
      this.unreadable := unreadable;
      this.unwritable := unwritable;
    }

    /** `putJson(key, doc)`: replaces the whole document at key, or fails and
        changes nothing. */
    method Put(key: Key, doc: Doc) returns (ok: bool)
      modifies this
      ensures ok == (key !in unwritable)
      ensures objects == if ok then old(objects)[key := doc] else old(objects)
    {
      ok := key !in unwritable;
      if ok {
        objects := objects[key := doc];
      }
    }

    /** Awaited puts one after another: the first refused put ends the
        sequence, and the result says whether all of them were done. */
    method PutEach(ws: seq<Write>) returns (ok: bool)
      modifies this
      ensures ok == AllWritable(unwritable, ws)
      ensures objects == Apply(old(objects), unwritable, ws)
    {
      var i := 0;
      ok := true;
      while i < |ws|
        invariant 0 <= i <= |ws|
        invariant AllWritable(unwritable, ws[..i])
        invariant Apply(old(objects), unwritable, ws) == Apply(objects, unwritable, ws[i..])
      {
        assert ws[i..][1..] == ws[i + 1..];
        ok := Put(ws[i].key, ws[i].doc);
        if !ok {
          return;
        }
        assert ws[..i + 1] == ws[..i] + [ws[i]];
        i := i + 1;
      }
      assert ws[..i] == ws;
    }
  }
}
