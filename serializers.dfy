/**
 * The serializers of api/serializers.py that create images and temporary
 * links and present them. Absolute URLs are built from `origin`, the
 * scheme and host of the request; the thumbnail renderer and the URL
 * reverser are not modelled beyond what their results point to.
 */
module Serializers {
  import opened Wrappers
  import opened Models
  import opened Utils
  import opened Formatting

  // ---------------------------------------------------------------------
  // ImageSerializer.create

  datatype ImageCreateError = UnauthenticatedUpload

  /**
   * Upload an image for the requesting user: the upload is refused (the
   * serializer's assertion) for the anonymous user; otherwise the new row
   * gets a new primary key, the generated file name and the requester as
   * owner.
   */
  method CreateImage(db: Database, requester: Requester, prefix: string, filename: string)
    returns (r: Result<nat, ImageCreateError>)
    requires db.Valid()
    modifies db`images, db`nextImagePk
    ensures db.Valid()
    ensures db.links == old(db.links) && db.blacklist == old(db.blacklist)
    ensures requester.Anonymous? ==>
      && r == Failure(UnauthenticatedUpload)
      && db.images == old(db.images) && db.nextImagePk == old(db.nextImagePk)
    ensures requester.Authenticated? ==>
      && r.Success?
      && r.value == old(db.nextImagePk) && r.value !in old(db.images)
      && db.images == old(db.images)[r.value := Image(FileNameGenerator(prefix, filename), requester.user)]
      && db.nextImagePk == r.value + 1
  {
    if requester.Anonymous? {
      return Failure(UnauthenticatedUpload);
    }
    var pk := db.InsertImage(Image(FileNameGenerator(prefix, filename), requester.user));
    return Success(pk);
  }

  // ---------------------------------------------------------------------
  // ImageDetailSerializer

  datatype PermissionDenied = UploadThroughDetailProhibited

  /** `ImageDetailSerializer.create`: uploads through the detail serializer are always refused. */
  function ImageDetailCreate(): (r: Result<nat, PermissionDenied>)
    ensures r == Failure(UploadThroughDetailProhibited)
  {
    Failure(UploadThroughDetailProhibited)
  }

  /** What a value of the image-detail representation points to. */
  datatype DetailValue =
    | PkValue(pk: nat)
    | OriginalUrl(file: string)
    | ThumbnailUrl(file: string, height: int)
    | TempLinkListUrl(imagePk: nat)

  /** The key of the thumbnail of height `h`: `thumbnail-<h>px`. */
  function ThumbKey(h: int): string
  {
    "thumbnail-" + IntToString(h) + "px"
  }

  /** A thumbnail key is none of the fixed keys. */
  lemma ThumbKeyNotReserved(h: int)
    ensures ThumbKey(h) != "pk" && ThumbKey(h) != "image" && ThumbKey(h) != "templink"
  {
    var k := ThumbKey(h);
    assert k[0] == 't' && k[1] == 'h';
  }

  /** Distinct heights have distinct thumbnail keys. */
  lemma ThumbKeyInjective(a: int, b: int)
    requires ThumbKey(a) == ThumbKey(b)
    ensures a == b
  {
    var ka, kb := ThumbKey(a), ThumbKey(b);
    assert ka[10..|ka| - 2] == IntToString(a);
    assert kb[10..|kb| - 2] == IntToString(b);
    IntToStringInjective(a, b);
  }

  ghost function ThumbnailKeys(heights: seq<int>): set<string>
  {
    set h | h in heights :: ThumbKey(h)
  }

  /** The keys of the image-detail representation for an owner of tier `tier`. */
  ghost function DetailKeys(tier: AccountTier): set<string>
  {
    {"pk"}
    + (if tier.showOriginal then {"image"} else {})
    + ThumbnailKeys(tier.thumbnailHeights)
    + (if tier.canGenerateTempLink then {"templink"} else {})
  }

  /** `result` after the thumbnail loop has stored one entry per height of `heights`, in order. */
  ghost function WithThumbnails(result: map<string, DetailValue>, file: string, heights: seq<int>)
    : map<string, DetailValue>
  {
    if heights == [] then result
    else
      var h := heights[|heights| - 1];
      WithThumbnails(result, file, heights[..|heights| - 1])[ThumbKey(h) := ThumbnailUrl(file, h)]
  }

  /** The thumbnail keys of a non-empty list: those of its prefix and the key of its last height. */
  lemma ThumbnailKeysSnoc(heights: seq<int>)
    requires heights != []
    ensures ThumbnailKeys(heights)
      == ThumbnailKeys(heights[..|heights| - 1]) + {ThumbKey(heights[|heights| - 1])}
  {
    assert heights == heights[..|heights| - 1] + [heights[|heights| - 1]];
  }

  /** The thumbnail loop adds exactly one key per height to the keys that were there. */
  lemma {:induction false} WithThumbnailsKeys(result: map<string, DetailValue>, file: string, heights: seq<int>)
    ensures WithThumbnails(result, file, heights).Keys == result.Keys + ThumbnailKeys(heights)
  {
    if heights != [] {
      WithThumbnailsKeys(result, file, heights[..|heights| - 1]);
      ThumbnailKeysSnoc(heights);
    }
  }

  /** After the thumbnail loop, the key of height `h` points to the thumbnail of that height. */
  lemma {:induction false} WithThumbnailsValue(result: map<string, DetailValue>, file: string, heights: seq<int>, h: int)
    requires h in heights
    ensures ThumbKey(h) in WithThumbnails(result, file, heights)
    ensures WithThumbnails(result, file, heights)[ThumbKey(h)] == ThumbnailUrl(file, h)
    decreases |heights|
  {
    var init, last := heights[..|heights| - 1], heights[|heights| - 1];
    var key, lastKey := ThumbKey(h), ThumbKey(last);
    var prev := WithThumbnails(result, file, init);
    assert WithThumbnails(result, file, heights) == prev[lastKey := ThumbnailUrl(file, last)];
    if key == lastKey {
      ThumbKeyInjective(h, last);
    } else {
      var j :| 0 <= j < |heights| && heights[j] == h;
      assert init[j] == h;
      WithThumbnailsValue(result, file, init, h);
    }
  }

  /** The thumbnail loop keeps the entry of a key that is not a thumbnail key of `heights`. */
  lemma {:induction false} WithThumbnailsKeeps(result: map<string, DetailValue>, file: string, heights: seq<int>, k: string)
    requires k in result && k !in ThumbnailKeys(heights)
    ensures k in WithThumbnails(result, file, heights) && WithThumbnails(result, file, heights)[k] == result[k]
  {
    if heights != [] {
      ThumbnailKeysSnoc(heights);
      WithThumbnailsKeeps(result, file, heights[..|heights| - 1], k);
    }
  }

  /** A key is a thumbnail key of `heights` exactly when its height is one of them. */
  lemma ThumbnailKeysMembership(heights: seq<int>, h: int)
    ensures ThumbKey(h) in ThumbnailKeys(heights) <==> h in heights
  {
    if ThumbKey(h) in ThumbnailKeys(heights) {
      var h' :| h' in heights && ThumbKey(h') == ThumbKey(h);
      ThumbKeyInjective(h', h);
    }
  }

  /** No fixed key is a thumbnail key. */
  lemma ReservedKeysAreNotThumbnails(heights: seq<int>)
    ensures "pk" !in ThumbnailKeys(heights) && "image" !in ThumbnailKeys(heights)
    ensures "templink" !in ThumbnailKeys(heights)
  {
    forall h | h in heights ensures ThumbKey(h) != "pk" && ThumbKey(h) != "image" && ThumbKey(h) != "templink" {
      ThumbKeyNotReserved(h);
    }
  }

  /** The entries the representation starts from: the primary key, and the original when the tier shows it. */
  ghost function BaseEntries(pk: nat, image: Image, tier: AccountTier): map<string, DetailValue>
  {
    var both := map["pk" := PkValue(pk), "image" := OriginalUrl(image.file)];
    if tier.showOriginal then both else both - {"image"}
  }

  /** The representation of an image whose owner has tier `tier`, entry by entry. */
  ghost function DetailEntries(pk: nat, image: Image, tier: AccountTier): map<string, DetailValue>
  {
    var thumbnails := WithThumbnails(BaseEntries(pk, image, tier), image.file, tier.thumbnailHeights);
    if tier.canGenerateTempLink then thumbnails["templink" := TempLinkListUrl(pk)] else thumbnails
  }

  /**
   * The representation has the primary key, the original exactly when the
   * tier shows it, one thumbnail per size of the tier and the link-listing
   * URL exactly when the tier can generate temporary links.
   */
  lemma DetailEntriesContents(pk: nat, image: Image, tier: AccountTier, m: map<string, DetailValue>)
    requires m == DetailEntries(pk, image, tier)
    ensures m.Keys == DetailKeys(tier)
    ensures m["pk"] == PkValue(pk)
    ensures "image" in m <==> tier.showOriginal
    ensures "image" in m ==> m["image"] == OriginalUrl(image.file)
    ensures forall h :: ThumbKey(h) in m <==> h in tier.thumbnailHeights
    ensures forall h :: ThumbKey(h) in m ==> m[ThumbKey(h)] == ThumbnailUrl(image.file, h)
    ensures "templink" in m <==> tier.canGenerateTempLink
    ensures "templink" in m ==> m["templink"] == TempLinkListUrl(pk)
  {
    var heights := tier.thumbnailHeights;
    var base := BaseEntries(pk, image, tier);
    assert base.Keys == {"pk"} + (if tier.showOriginal then {"image"} else {});
    WithThumbnailsKeys(base, image.file, heights);
    ReservedKeysAreNotThumbnails(heights);
    forall h ensures ThumbKey(h) in m <==> h in heights {
      ThumbKeyNotReserved(h);
      ThumbnailKeysMembership(heights, h);
    }
    forall h | ThumbKey(h) in m ensures m[ThumbKey(h)] == ThumbnailUrl(image.file, h) {
      ThumbKeyNotReserved(h);
      ThumbnailKeysMembership(heights, h);
      WithThumbnailsValue(base, image.file, heights, h);
    }
    WithThumbnailsKeeps(base, image.file, heights, "pk");
    if tier.showOriginal {
      WithThumbnailsKeeps(base, image.file, heights, "image");
    }
  }

  /**
   * `ImageDetailSerializer.to_representation`: start from the primary key
   * and the original image, drop the original unless the owner's tier shows
   * it, add one thumbnail per size of the tier, and add the link-listing
   * URL when the tier can generate temporary links. An owner without a tier
   * makes the attribute access fail (`None`).
   */
  method ImageDetailRepresentation(pk: nat, image: Image, ownerTier: Option<AccountTier>)
    returns (r: Option<map<string, DetailValue>>)
    ensures r.None? <==> ownerTier.None?
    ensures r.Some? ==> r.value.Keys == DetailKeys(ownerTier.value)
    ensures r.Some? ==> r.value["pk"] == PkValue(pk)
    ensures r.Some? ==> ("image" in r.value <==> ownerTier.value.showOriginal)
    ensures r.Some? && "image" in r.value ==> r.value["image"] == OriginalUrl(image.file)
    ensures r.Some? ==> forall h :: ThumbKey(h) in r.value <==> h in ownerTier.value.thumbnailHeights
    ensures r.Some? ==> forall h :: ThumbKey(h) in r.value ==> r.value[ThumbKey(h)] == ThumbnailUrl(image.file, h)
    ensures r.Some? ==> ("templink" in r.value <==> ownerTier.value.canGenerateTempLink)
    ensures r.Some? && "templink" in r.value ==> r.value["templink"] == TempLinkListUrl(pk)
  {
    if ownerTier.None? {
      return None;
    }
    var account := ownerTier.value;
    var heights := account.thumbnailHeights;
    var result := map["pk" := PkValue(pk), "image" := OriginalUrl(image.file)];
    if !account.showOriginal {
      result := result - {"image"};
    }
    ghost var base := result;
    assert base == BaseEntries(pk, image, account);

    for i := 0 to |heights|
      invariant result == WithThumbnails(base, image.file, heights[..i])
    {
      assert heights[..i + 1][..i] == heights[..i];
      result := result[ThumbKey(heights[i]) := ThumbnailUrl(image.file, heights[i])];
    }
    assert heights[..|heights|] == heights;

    if account.canGenerateTempLink {
      result := result["templink" := TempLinkListUrl(pk)];
    }
    DetailEntriesContents(pk, image, account, result);
    return Some(result);
  }

  // ---------------------------------------------------------------------
  // TempLinkSerializer

  datatype TempLinkCreateError = ImageDoesNotExist

  /**
   * `TempLinkSerializer.create`: look up the image, generate a fresh token
   * and store a link to the image that carries the image's owner and the
   * current time as its creation time.
   */
  method CreateTempLink(db: Database, imagePk: nat, expiresIn: int, now: int, draws: seq<Token>)
    returns (r: Result<TempLink, TempLinkCreateError>)
    requires db.Valid()
    requires HasFreshDraw(db.links, db.blacklist, draws)
    modifies db
    ensures db.Valid()
    ensures db.images == old(db.images) && db.nextImagePk == old(db.nextImagePk)
    ensures db.blacklist == old(db.blacklist)
    ensures imagePk !in db.images ==> r == Failure(ImageDoesNotExist) && db.links == old(db.links)
    ensures imagePk in db.images ==>
      && r.Success?
      && r.value == TempLink(r.value.token, imagePk, now, expiresIn, db.images[imagePk].owner)
      && r.value.token !in old(db.links) && r.value.token !in old(db.blacklist)
      && r.value.token in draws
      && db.links == old(db.links)[r.value.token := r.value]
    ensures forall t :: Step(old(db.StateOf(t)), db.StateOf(t))
  {
    if imagePk !in db.images {
      return Failure(ImageDoesNotExist);
    }
    var image := db.images[imagePk];
    var token := GenerateToken(db.links, db.blacklist, draws);
    var instance := TempLink(token, imagePk, now, expiresIn, image.owner);
    db.InsertLink(instance);
    return Success(instance);
  }

  /** The fields a temporary link is presented with. */
  datatype TempLinkData = TempLinkData(link: string, image: nat, created: int, expiresIn: int)

  /** The path a temporary link is served under: `/api/templink/<token>/`. */
  function LinkPath(token: Token): (path: string)
    ensures |path| == |token| + 15
    ensures path[..14] == "/api/templink/" && path[14..|path| - 1] == token && path[|path| - 1] == '/'
  {
    "/api/templink/" + token + "/"
  }

  /** `TempLinkSerializer.to_representation`: the token is replaced by the absolute link. */
  function TempLinkRepresentation(link: TempLink, origin: string): (data: TempLinkData)
  {
    TempLinkData(origin + LinkPath(link.token), link.image, link.created, link.expiresIn)
  }

  /** Distinct tokens are served under distinct paths. */
  lemma LinkPathInjective(a: Token, b: Token)
    requires LinkPath(a) == LinkPath(b)
    ensures a == b
  {
    var pa, pb := LinkPath(a), LinkPath(b);
    assert a == pa[14..|pa| - 1] && b == pb[14..|pb| - 1];
  }

  /**
   * The presented link embeds the token after the origin, so links with
   * different tokens are presented with different URLs.
   */
  lemma TempLinkRepresentationIdentifiesToken(l1: TempLink, l2: TempLink, origin: string)
    requires TempLinkRepresentation(l1, origin).link == TempLinkRepresentation(l2, origin).link
    ensures l1.token == l2.token
  {
    var u1, u2 := TempLinkRepresentation(l1, origin).link, TempLinkRepresentation(l2, origin).link;
    assert u1[|origin|..] == LinkPath(l1.token);
    assert u2[|origin|..] == LinkPath(l2.token);
    LinkPathInjective(l1.token, l2.token);
  }
}
