/** Object-store listings: what `list_objects_v2` returns under a prefix,
    and the two selections the pipeline makes on them. */
module Listing {
  import opened Base
  import opened Text

  /** One entry of a listing: its key and its LastModified time. */
  datatype ObjectInfo = ObjectInfo(key: string, lastModified: int)

  function Keys(objs: seq<ObjectInfo>): (ks: seq<string>)
    ensures |ks| == |objs| && forall i :: 0 <= i < |objs| ==> ks[i] == objs[i].key
  {
    if objs == [] then [] else [objs[0].key] + Keys(objs[1..])
  }

  predicate IsJsonKey(key: string) {
    EndsWith(key, ".json")
  }

  /** The keys that end in `.json`, in listing order. */
  function JsonKeys(ks: seq<string>): (r: seq<string>)
    ensures |r| <= |ks|
    ensures forall k :: k in r <==> k in ks && IsJsonKey(k)
  {
    if ks == [] then []
    else if IsJsonKey(ks[0]) then [ks[0]] + JsonKeys(ks[1..])
    else JsonKeys(ks[1..])
  }

  lemma {:induction false} JsonKeysAppend(a: seq<string>, b: seq<string>)
    ensures JsonKeys(a + b) == JsonKeys(a) + JsonKeys(b)
    decreases |a|
  {
    if a != [] {
      assert (a + b)[1..] == a[1..] + b;
      JsonKeysAppend(a[1..], b);
    } else {
      assert a + b == b;
    }
  }

  /** The objects whose key ends in `.json`, in listing order. */
  function JsonObjects(objs: seq<ObjectInfo>): (r: seq<ObjectInfo>)
    ensures |r| <= |objs|
  {
    if objs == [] then []
    else if IsJsonKey(objs[0].key) then [objs[0]] + JsonObjects(objs[1..])
    else JsonObjects(objs[1..])
  }

  /** The filter keeps exactly the objects whose key ends in `.json`. */
  lemma {:induction false} JsonObjectsMembers(objs: seq<ObjectInfo>)
    ensures forall o :: o in JsonObjects(objs) <==> o in objs && IsJsonKey(o.key)
    decreases |objs|
  {
    if objs != [] {
      var tail := objs[1..];
      JsonObjectsMembers(tail);
      assert objs == [objs[0]] + tail;
    }
  }

  /** Position of `sorted(objs, key=LastModified, reverse=True)[0]`. Python's
      sort is stable also when reversed, so this is the first object, in
      listing order, among those with the greatest LastModified. */
  function LatestIndex(objs: seq<ObjectInfo>): (i: nat)
    requires objs != []
    ensures i < |objs|
    ensures forall j :: 0 <= j < |objs| ==> objs[j].lastModified <= objs[i].lastModified
    ensures forall j :: 0 <= j < i ==> objs[j].lastModified < objs[i].lastModified
  {
    if |objs| == 1 then 0
    else
      var k := LatestIndex(objs[1..]);
      if objs[0].lastModified >= objs[1 + k].lastModified then 0 else 1 + k
  }

  /** `p` is where the `i`-th `.json` object sits in the listing, and the
      `.json` objects before it are among the first `i`. */
  predicate JsonAt(listing: seq<ObjectInfo>, i: nat, p: nat) {
    var json := JsonObjects(listing);
    i < |json| && p < |listing| && listing[p] == json[i] &&
    forall j :: 0 <= j < p && IsJsonKey(listing[j].key) ==> listing[j] in json[..i]
  }

  /** Every `.json` object of the filtered listing has such a position. */
  lemma {:induction false} JsonObjectsPosition(listing: seq<ObjectInfo>, i: nat)
    requires i < |JsonObjects(listing)|
    ensures exists p :: JsonAt(listing, i, p)
    decreases |listing|
  {
    var json := JsonObjects(listing);
    var tail := listing[1..];
    var rest := JsonObjects(tail);
    if IsJsonKey(listing[0].key) {
      assert json == [listing[0]] + rest;
      if i == 0 {
        assert JsonAt(listing, 0, 0);
      } else {
        JsonObjectsPosition(tail, i - 1);
        var p: nat :| JsonAt(tail, i - 1, p);
        assert listing[p + 1] == tail[p];
        assert json[..i] == [listing[0]] + rest[..i - 1];
        forall j | 0 <= j < p + 1 && IsJsonKey(listing[j].key)
          ensures listing[j] in json[..i]
        {
          if j > 0 {
            assert listing[j] == tail[j - 1];
          }
        }
        assert JsonAt(listing, i, p + 1);
      }
    } else {
      assert json == rest;
      JsonObjectsPosition(tail, i);
      var p: nat :| JsonAt(tail, i, p);
      assert listing[p + 1] == tail[p];
      forall j | 0 <= j < p + 1 && IsJsonKey(listing[j].key)
        ensures listing[j] in json[..i]
      {
        assert j > 0;
        assert listing[j] == tail[j - 1];
      }
      assert JsonAt(listing, i, p + 1);
    }
  }

  /** The newest `.json` object, first in listing order among equally new
      ones, located in the listing. */
  lemma LatestJsonPosition(listing: seq<ObjectInfo>)
    requires JsonObjects(listing) != []
    ensures var json := JsonObjects(listing);
      exists i :: 0 <= i < |listing| && listing[i].key == json[LatestIndex(json)].key &&
        (forall j :: 0 <= j < |listing| && IsJsonKey(listing[j].key) ==> listing[j].lastModified <= listing[i].lastModified) &&
        (forall j :: 0 <= j < i && IsJsonKey(listing[j].key) ==> listing[j].lastModified < listing[i].lastModified)
  {
    var json := JsonObjects(listing);
    var i := LatestIndex(json);
    JsonObjectsPosition(listing, i);
    var p: nat :| JsonAt(listing, i, p);
    LatestNoOlder(listing, i, p);
    LatestStrictlyNewer(listing, i, p);
    assert listing[p].key == json[i].key;
  }

  lemma LatestNoOlder(listing: seq<ObjectInfo>, i: nat, p: nat)
    requires JsonObjects(listing) != [] && i == LatestIndex(JsonObjects(listing)) && JsonAt(listing, i, p)
    ensures forall j :: 0 <= j < |listing| && IsJsonKey(listing[j].key) ==> listing[j].lastModified <= listing[p].lastModified
  {
    var json := JsonObjects(listing);
    JsonObjectsMembers(listing);
    forall j | 0 <= j < |listing| && IsJsonKey(listing[j].key)
      ensures listing[j].lastModified <= listing[p].lastModified
    {
      assert listing[j] in json;
    }
  }

  lemma LatestStrictlyNewer(listing: seq<ObjectInfo>, i: nat, p: nat)
    requires JsonObjects(listing) != [] && i == LatestIndex(JsonObjects(listing)) && JsonAt(listing, i, p)
    ensures forall j :: 0 <= j < p && IsJsonKey(listing[j].key) ==> listing[j].lastModified < listing[p].lastModified
  {
    var json := JsonObjects(listing);
    forall j | 0 <= j < p && IsJsonKey(listing[j].key)
      ensures listing[j].lastModified < listing[p].lastModified
    {
      assert listing[j] in json[..i];
      var k :| 0 <= k < i && json[..i][k] == listing[j];
      assert json[k] == listing[j];
    }
  }
}
