/** The hierarchy merge of `JSONPlaceholderTreadCommand._get_albums_and_photos_valid_data`:
    every album record gets a fresh `photos` list holding, in order, the photo records
    whose `albumId` is the album's `id`; then the merged records are validated. */
module Merge {
  import opened Wrappers
  import opened Records

  /** The photo records of album `id`, in the order of `photos`. */
  function PhotosOf(photos: seq<RawPhoto>, id: int): seq<RawPhoto>
  {
    if photos == [] then []
    else
      var last := photos[|photos| - 1];
      PhotosOf(photos[..|photos| - 1], id) + (if last.albumId == id then [last] else [])
  }

  /** The album records after the merge. */
  function Merged(albums: seq<RawAlbum>, photos: seq<RawPhoto>): seq<RawAlbum>
  {
    seq(|albums|, i requires 0 <= i < |albums| => albums[i].(photos := Some(PhotosOf(photos, albums[i].id))))
  }

  /** The nested loop over the album list, updating each album record in place. */
  method MergeAlbumsAndPhotos(albums: array<RawAlbum>, photos: seq<RawPhoto>)
    modifies albums
    ensures albums[..] == Merged(old(albums[..]), photos)
  {
    for i := 0 to albums.Length
      invariant forall k :: 0 <= k < i ==> albums[k] == old(albums[k]).(photos := Some(PhotosOf(photos, old(albums[k]).id)))
      invariant forall k :: i <= k < albums.Length ==> albums[k] == old(albums[k])
    {
      albums[i] := albums[i].(photos := Some([]));
      for j := 0 to |photos|
        invariant forall k :: 0 <= k < i ==> albums[k] == old(albums[k]).(photos := Some(PhotosOf(photos, old(albums[k]).id)))
        invariant forall k :: i < k < albums.Length ==> albums[k] == old(albums[k])
        invariant albums[i] == old(albums[i]).(photos := Some(PhotosOf(photos[..j], old(albums[i]).id)))
      {
        ghost var a0 := old(albums[i]);
        PhotosOfPrefix(photos, j, a0.id);
        if albums[i].id == photos[j].albumId {
          albums[i] := albums[i].(photos := Some(albums[i].photos.value + [photos[j]]));
        } else {
          assert PhotosOf(photos[..j], a0.id) + [] == PhotosOf(photos[..j], a0.id);
        }
      }
      assert photos[..|photos|] == photos;
    }
  }

  /** One more photo scanned: the selection grows by that photo exactly when it matches. */
  lemma PhotosOfPrefix(photos: seq<RawPhoto>, j: nat, id: int)
    requires j < |photos|
    ensures PhotosOf(photos[..j + 1], id) == PhotosOf(photos[..j], id) + (if photos[j].albumId == id then [photos[j]] else [])
  {
    assert photos[..j + 1][..j] == photos[..j];
  }

  /** The work after the two fetches: merge in place, then load the merged records. */
  method PrepareValidData(albums: array<RawAlbum>, photos: seq<RawPhoto>, isUrl: string -> bool)
    returns (r: Result<seq<Album>, ValidationError>)
    modifies albums
    ensures albums[..] == Merged(old(albums[..]), photos)
    ensures r == Validate(Merged(old(albums[..]), photos), isUrl)
  {
    MergeAlbumsAndPhotos(albums, photos);
    r := Validate(albums[..], isUrl);
  }

  // ----- Properties of the merge -----

  /** Selecting from a concatenation selects from each part. */
  lemma {:induction false} PhotosOfConcat(a: seq<RawPhoto>, b: seq<RawPhoto>, id: int)
    ensures PhotosOf(a + b, id) == PhotosOf(a, id) + PhotosOf(b, id)
    decreases |b|
  {
    if b == [] {
      assert a + b == a;
    } else {
      var b' := b[..|b| - 1];
      assert (a + b)[..|a + b| - 1] == a + b';
      PhotosOfConcat(a, b', id);
    }
  }

  /** Every selected photo belongs to the album, and selects each such photo as often as
      it occurs in `photos`. */
  lemma {:induction false} PhotosOfCount(photos: seq<RawPhoto>, id: int)
    ensures forall p :: multiset(PhotosOf(photos, id))[p] == if p.albumId == id then multiset(photos)[p] else 0
    decreases |photos|
  {
    if photos != [] {
      var init := photos[..|photos| - 1];
      PhotosOfCount(init, id);
      assert photos == init + [photos[|photos| - 1]];
    }
  }

  /** Each selected photo carries the album's id and comes from `photos`. */
  lemma PhotosOfMembers(photos: seq<RawPhoto>, id: int)
    ensures forall p :: p in PhotosOf(photos, id) <==> p in photos && p.albumId == id
  {
    PhotosOfCount(photos, id);
    forall p ensures p in PhotosOf(photos, id) <==> p in photos && p.albumId == id {
      assert p in PhotosOf(photos, id) <==> multiset(PhotosOf(photos, id))[p] > 0;
      assert p in photos <==> multiset(photos)[p] > 0;
    }
  }

  /** An album gets an empty list exactly when no photo names it. */
  lemma PhotosOfEmpty(photos: seq<RawPhoto>, id: int)
    ensures PhotosOf(photos, id) == [] <==> forall k :: 0 <= k < |photos| ==> photos[k].albumId != id
  {
    PhotosOfMembers(photos, id);
    if PhotosOf(photos, id) != [] {
      var p := PhotosOf(photos, id)[0];
      assert p in PhotosOf(photos, id);
    }
  }

  /** After the merge and a successful load: albums keep their order, ids and titles, and each
      album holds exactly its own photos, in the order of the photos list. */
  lemma ValidDataOwnsItsPhotos(albums: seq<RawAlbum>, photos: seq<RawPhoto>, isUrl: string -> bool)
    requires Validate(Merged(albums, photos), isUrl).Ok?
    ensures var v := Validate(Merged(albums, photos), isUrl).value;
      && |v| == |albums|
      && forall i :: 0 <= i < |v| ==>
        && v[i].id == albums[i].id && v[i].title == albums[i].title
        && (forall k :: 0 <= k < |v[i].photos| ==> v[i].photos[k].albumId == v[i].id)
        && v[i].photos == seq(|PhotosOf(photos, albums[i].id)|, k requires 0 <= k < |PhotosOf(photos, albums[i].id)| => ToPhoto(PhotosOf(photos, albums[i].id)[k]))
  {
    var m := Merged(albums, photos);
    var v := Validate(m, isUrl).value;
    forall i, k | 0 <= i < |v| && 0 <= k < |v[i].photos| ensures v[i].photos[k].albumId == v[i].id {
      var ps := PhotosOf(photos, albums[i].id);
      PhotosOfMembers(photos, albums[i].id);
      assert ps[k] in ps;
    }
  }
}
