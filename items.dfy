/** The entities the colouring-book app keeps in its state: uploaded photos,
    the colouring pages converted from them, the upload cap and removal by id. */
module Items {

  /** The number `Date.now() + Math.random()` stamped on an upload; the app only
      ever compares it for equality. */
  type ImageId = int

  /** A data URL (an upload read by the file reader) or an object URL (a
      converted colouring page fetched from the service). */
  type Url = string

  datatype Option<T> = None | Some(value: T)

  /** An uploaded photo, `{id, original, name}`. */
  datatype SourceItem = SourceItem(id: ImageId, original: Url, name: string)

  /** A converted colouring page, `{id, data, name}`; `id` and `name` are copied
      from the photo it was made from. */
  datatype Processed = Processed(id: ImageId, data: Url, name: string)

  /** At most this many photos may be uploaded. */
  const MaxImages: nat := 10

  function SourceId(item: SourceItem): ImageId { item.id }

  function ProcessedId(page: Processed): ImageId { page.id }

  /** The upload check: a batch is taken whole, appended after the photos
      already there, or refused whole when the total would pass the cap. */
  function AcceptBatch(images: seq<SourceItem>, batch: seq<SourceItem>): (r: Option<seq<SourceItem>>)
    ensures r.None? <==> |images| + |batch| > MaxImages
    ensures r.Some? ==> |r.value| == |images| + |batch| && r.value[..|images|] == images && r.value[|images|..] == batch
    ensures r.Some? ==> |r.value| <= MaxImages
  {
    if |images| + |batch| > MaxImages then None else Some(images + batch)
  }

  /** The set of ids that occur in a list. */
  function IdSet<T(==)>(s: seq<T>, idOf: T -> ImageId): set<ImageId>
  {
    set x | x in s :: idOf(x)
  }

  /** `s.filter(x => x.id !== id)`. */
  function Without<T(==)>(s: seq<T>, idOf: T -> ImageId, id: ImageId): (r: seq<T>)
    ensures |r| <= |s|
    ensures forall x :: x in r ==> x in s && idOf(x) != id
    ensures forall x :: x in s && idOf(x) != id ==> x in r
  {
    if s == [] then []
    else (if idOf(s[0]) == id then [] else [s[0]]) + Without(s[1..], idOf, id)
  }

  /** Filtering works piecewise, so the kept entries stay in their relative order. */
  lemma {:induction false} WithoutAppend<T>(a: seq<T>, b: seq<T>, idOf: T -> ImageId, id: ImageId)
    ensures Without(a + b, idOf, id) == Without(a, idOf, id) + Without(b, idOf, id)
  {
    if a == [] {
      assert a + b == b;
    } else {
      assert (a + b)[0] == a[0];
      assert (a + b)[1..] == a[1..] + b;
      WithoutAppend(a[1..], b, idOf, id);
    }
  }

  /** Removing an id that does not occur changes nothing. */
  lemma {:induction false} WithoutAbsent<T>(s: seq<T>, idOf: T -> ImageId, id: ImageId)
    requires forall j :: 0 <= j < |s| ==> idOf(s[j]) != id
    ensures Without(s, idOf, id) == s
  {
    if s != [] {
      WithoutAbsent(s[1..], idOf, id);
    }
  }

  /** Removal is idempotent. */
  lemma WithoutTwice<T>(s: seq<T>, idOf: T -> ImageId, id: ImageId)
    ensures Without(Without(s, idOf, id), idOf, id) == Without(s, idOf, id)
  {
    var r := Without(s, idOf, id);
    forall j | 0 <= j < |r| ensures idOf(r[j]) != id {
      assert r[j] in r;
    }
    WithoutAbsent(r, idOf, id);
  }

  /** Exactly the id that was removed disappears from the set of ids. */
  lemma WithoutIdSet<T>(s: seq<T>, idOf: T -> ImageId, id: ImageId)
    ensures IdSet(Without(s, idOf, id), idOf) == IdSet(s, idOf) - {id}
  {
    var r := Without(s, idOf, id);
    forall i | i in IdSet(s, idOf) - {id} ensures i in IdSet(r, idOf) {
      var x :| x in s && idOf(x) == i;
      assert x in r;
    }
  }
}
