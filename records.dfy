/** The data model: the raw JSON records as fetched, the validated `Photo` and `Album`
    objects, and the all-or-nothing schema load that turns the first into the second. */
module Records {
  import opened Wrappers

  /** A photo record of the photos JSON array. */
  datatype RawPhoto = RawPhoto(albumId: int, id: int, title: string, url: string, thumbnailUrl: string)

  /** An album record of the albums JSON array. `userId` is optional in the schema;
      `photos` is absent until the merge attaches the album's photos. */
  datatype RawAlbum = RawAlbum(userId: Option<int>, id: int, title: string, photos: Option<seq<RawPhoto>>)

  /** A validated photo. */
  datatype Photo = Photo(albumId: int, id: int, title: string, url: string, thumbnailUrl: string)

  /** A validated album with its photos. */
  datatype Album = Album(userId: int, id: int, title: string, photos: seq<Photo>)

  /** Why the load of the merged albums failed, with the position of the album it names. */
  datatype ValidationError =
    | MissingPhotos(index: nat)   // the nested `photos` field is required
    | InvalidUrl(index: nat)      // a photo's `url` or `thumbnailUrl` is not a URL
    | MissingUserId(index: nat)   // `Album(**data)` in `post_load` raises `TypeError` without `userId`

  /** A photo record passes the photo schema; URL syntax is the caller-supplied `isUrl`. */
  predicate PhotoLoads(p: RawPhoto, isUrl: string -> bool)
  {
    isUrl(p.url) && isUrl(p.thumbnailUrl)
  }

  /** An album record passes the field checks of the album schema. */
  predicate FieldsLoad(a: RawAlbum, isUrl: string -> bool)
  {
    && a.photos.Some?
    && forall k :: 0 <= k < |a.photos.value| ==> PhotoLoads(a.photos.value[k], isUrl)
  }

  /** An album record passes the field checks, and `Album(**data)` can then be built. */
  predicate AlbumLoads(a: RawAlbum, isUrl: string -> bool)
  {
    FieldsLoad(a, isUrl) && a.userId.Some?
  }

  /** The field error of an album record, if it has one. */
  function FieldError(a: RawAlbum, index: nat, isUrl: string -> bool): (e: Option<ValidationError>)
    ensures e.None? <==> FieldsLoad(a, isUrl)
    ensures e.Some? ==> e.value.index == index && !e.value.MissingUserId?
    ensures e == Some(MissingPhotos(index)) <==> a.photos.None?
  {
    if a.photos.None? then Some(MissingPhotos(index))
    else if exists k :: 0 <= k < |a.photos.value| && !PhotoLoads(a.photos.value[k], isUrl) then Some(InvalidUrl(index))
    else None
  }

  function ToPhoto(p: RawPhoto): Photo
  {
    Photo(p.albumId, p.id, p.title, p.url, p.thumbnailUrl)
  }

  function ToAlbum(a: RawAlbum): Album
    requires a.photos.Some? && a.userId.Some?
  {
    Album(a.userId.value, a.id, a.title, seq(|a.photos.value|, k requires 0 <= k < |a.photos.value| => ToPhoto(a.photos.value[k])))
  }

  /** The first album record, from position `from` on, with a field error. */
  function FirstFieldError(raw: seq<RawAlbum>, from: nat, isUrl: string -> bool): (e: Option<ValidationError>)
    requires from <= |raw|
    ensures e.None? <==> forall i :: from <= i < |raw| ==> FieldsLoad(raw[i], isUrl)
    ensures e.Some? ==> && from <= e.value.index < |raw| && !e.value.MissingUserId?
                        && !FieldsLoad(raw[e.value.index], isUrl)
    ensures e.Some? ==> forall i :: from <= i < e.value.index ==> FieldsLoad(raw[i], isUrl)
    decreases |raw| - from
  {
    if from == |raw| then None
    else
      var e := FieldError(raw[from], from, isUrl);
      if e.Some? then e else FirstFieldError(raw, from + 1, isUrl)
  }

  /** The first album record, from position `from` on, without `userId`. */
  function FirstMissingUserId(raw: seq<RawAlbum>, from: nat): (i: Option<nat>)
    requires from <= |raw|
    ensures i.None? <==> forall j :: from <= j < |raw| ==> raw[j].userId.Some?
    ensures i.Some? ==> from <= i.value < |raw| && raw[i.value].userId.None?
    ensures i.Some? ==> forall j :: from <= j < i.value ==> raw[j].userId.Some?
    decreases |raw| - from
  {
    if from == |raw| then None
    else if raw[from].userId.None? then Some(from)
    else FirstMissingUserId(raw, from + 1)
  }

  /** `AlbumSchema(many=True).load`: the field checks of every record run first, and the
      load fails if any record has a field error; only then does `post_load` build the
      albums in order, failing at the first record without `userId`. On success the result
      holds one album per record in the same order. */
  function Validate(raw: seq<RawAlbum>, isUrl: string -> bool): (r: Result<seq<Album>, ValidationError>)
    ensures r.Ok? <==> forall i :: 0 <= i < |raw| ==> AlbumLoads(raw[i], isUrl)
    ensures r.Err? ==> r.error.index < |raw| && !AlbumLoads(raw[r.error.index], isUrl)
    ensures r.Err? ==> (r.error.MissingUserId? <==> forall i :: 0 <= i < |raw| ==> FieldsLoad(raw[i], isUrl))
    ensures r.Err? && !r.error.MissingUserId? ==>
      && !FieldsLoad(raw[r.error.index], isUrl)
      && forall i :: 0 <= i < r.error.index ==> FieldsLoad(raw[i], isUrl)
    ensures r.Err? && r.error.MissingUserId? ==>
      && raw[r.error.index].userId.None?
      && forall i :: 0 <= i < r.error.index ==> AlbumLoads(raw[i], isUrl)
    ensures r.Ok? ==> |r.value| == |raw|
    ensures r.Ok? ==> forall i :: 0 <= i < |raw| ==>
      && r.value[i].id == raw[i].id
      && r.value[i].title == raw[i].title
      && Some(r.value[i].userId) == raw[i].userId
      && |r.value[i].photos| == |raw[i].photos.value|
      && forall k :: 0 <= k < |r.value[i].photos| ==> r.value[i].photos[k] == ToPhoto(raw[i].photos.value[k])
  {
    var e := FirstFieldError(raw, 0, isUrl);
    if e.Some? then Err(e.value)
    else
      match FirstMissingUserId(raw, 0)
      case Some(i) => Err(MissingUserId(i))
      case None => Ok(seq(|raw|, i requires 0 <= i < |raw| => ToAlbum(raw[i])))
  }

  /** A field error in a later record is reported even when an earlier record lacks
      `userId`, because `post_load` never runs. */
  lemma FieldErrorsComeFirst(isUrl: string -> bool)
    requires isUrl("http://x.com/1.jpg") && !isUrl("not a url")
    ensures var good := RawPhoto(1, 10, "p1", "http://x.com/1.jpg", "http://x.com/1.jpg");
      var bad := RawPhoto(2, 20, "p2", "not a url", "http://x.com/1.jpg");
      Validate([RawAlbum(None, 1, "A", Some([good])), RawAlbum(Some(1), 2, "B", Some([bad]))], isUrl)
      == Err(InvalidUrl(1))
  {
    var good := RawPhoto(1, 10, "p1", "http://x.com/1.jpg", "http://x.com/1.jpg");
    var bad := RawPhoto(2, 20, "p2", "not a url", "http://x.com/1.jpg");
    var raw := [RawAlbum(None, 1, "A", Some([good])), RawAlbum(Some(1), 2, "B", Some([bad]))];
    assert FieldsLoad(raw[0], isUrl);
    assert !PhotoLoads(raw[1].photos.value[0], isUrl);
  }
}
