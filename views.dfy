/**
 * The views of api/views.py around temporary links: the owner gate and the
 * listing/creation of links to an image, the public resolution of a link,
 * and the owner-only image listing.
 */
module Views {
  import opened Wrappers
  import opened Models
  import opened Utils
  import opened Serializers

  // ---------------------------------------------------------------------
  // ImageListUploadView.get_queryset

  /** The images presented to the requester: their own, and none to the anonymous user. */
  function OwnedImages(images: map<nat, Image>, requester: Requester): (owned: map<nat, Image>)
    ensures forall pk :: pk in owned <==> pk in images && requester == Authenticated(images[pk].owner)
    ensures forall pk :: pk in owned ==> owned[pk] == images[pk]
  {
    if requester.Authenticated? then
      map pk | pk in images && images[pk].owner == requester.user :: images[pk]
    else
      map[]
  }

  /** Anonymous users see no image, whatever is stored. */
  lemma AnonymousSeesNoImages(images: map<nat, Image>)
    ensures OwnedImages(images, Anonymous) == map[]
  {
  }

  // ---------------------------------------------------------------------
  // TempLinkListCreateView

  /**
   * The `CanCreateTempLinks` permission named by the view, whose class is
   * not part of this model: the requester's tier allows temporary links.
   */
  predicate CanCreateTempLinks(requesterTier: Option<AccountTier>)
  {
    requesterTier.Some? && requesterTier.value.canGenerateTempLink
  }

  datatype Gate = Allowed | ImageNotFound | Denied

  /**
   * `TempLinkListCreateView.check_permissions`: the image must exist, the
   * requester must be its owner, and then the tier permission must hold
   * (the anonymous user is never an owner, so the authentication
   * permission adds nothing after the owner check). Every refusal is the
   * same permission error.
   */
  function CheckPermissions(images: map<nat, Image>, requester: Requester, requesterTier: Option<AccountTier>, imagePk: nat)
    : (gate: Gate)
    ensures gate == ImageNotFound <==> imagePk !in images
    ensures gate == Allowed <==>
      imagePk in images && requester == Authenticated(images[imagePk].owner) && CanCreateTempLinks(requesterTier)
  {
    if imagePk !in images then ImageNotFound
    else if requester != Authenticated(images[imagePk].owner) then Denied
    else if !CanCreateTempLinks(requesterTier) then Denied
    else Allowed
  }

  /** A requester who is not the owner of an existing image is denied, whatever their tier. */
  lemma NonOwnerDenied(images: map<nat, Image>, requester: Requester, requesterTier: Option<AccountTier>, imagePk: nat)
    requires imagePk in images && requester != Authenticated(images[imagePk].owner)
    ensures CheckPermissions(images, requester, requesterTier, imagePk) == Denied
  {
  }

  /** `TempLinkListCreateView.get_queryset`: the links whose image is the requested one. */
  function LinksOfImage(links: map<Token, TempLink>, imagePk: nat): (selected: map<Token, TempLink>)
    ensures forall t :: t in selected <==> t in links && links[t].image == imagePk
    ensures forall t :: t in selected ==> selected[t] == links[t]
  {
    map t | t in links && links[t].image == imagePk :: links[t]
  }

  datatype ListResponse = Listing(links: set<TempLinkData>) | ListForbidden403 | ListNotFound404

  /**
   * GET on the link list of an image: the permission gate, then every link
   * of that image presented with its absolute URL.
   */
  function ListTempLinks(
    images: map<nat, Image>, links: map<Token, TempLink>, requester: Requester,
    requesterTier: Option<AccountTier>, imagePk: nat, origin: string)
    : (response: ListResponse)
    ensures response == ListNotFound404 <==> imagePk !in images
    ensures response == ListForbidden403 <==> CheckPermissions(images, requester, requesterTier, imagePk) == Denied
    ensures response.Listing? <==> CheckPermissions(images, requester, requesterTier, imagePk) == Allowed
    ensures response.Listing? ==> forall t :: t in links ==>
      (links[t].image == imagePk <==> TempLinkRepresentation(links[t], origin) in response.links)
    ensures response.Listing? ==> forall data :: data in response.links ==>
      exists t :: t in links && links[t].image == imagePk && data == TempLinkRepresentation(links[t], origin)
  {
    match CheckPermissions(images, requester, requesterTier, imagePk)
    case ImageNotFound => ListNotFound404
    case Denied => ListForbidden403
    case Allowed =>
      var selected := LinksOfImage(links, imagePk);
      var listing := set t | t in selected :: TempLinkRepresentation(selected[t], origin);
      assert forall t :: t in links && TempLinkRepresentation(links[t], origin) in listing ==> links[t].image == imagePk by {
        forall t | t in links && TempLinkRepresentation(links[t], origin) in listing
          ensures links[t].image == imagePk
        {
          var t' :| t' in selected && TempLinkRepresentation(selected[t'], origin) == TempLinkRepresentation(links[t], origin);
          assert TempLinkRepresentation(links[t'], origin).image == links[t].image;
        }
      }
      Listing(listing)
  }

  datatype PostResponse = Created201(data: TempLinkData) | BadRequest400 | Forbidden403 | NotFound404

  /**
   * POST on the link list of an image: the permission gate, then the
   * `expires_in` validators, then the creation of the link.
   */
  method PostTempLink(
    db: Database, requester: Requester, requesterTier: Option<AccountTier>, imagePk: nat,
    expiresIn: int, now: int, origin: string, draws: seq<Token>)
    returns (response: PostResponse)
    requires db.Valid()
    requires HasFreshDraw(db.links, db.blacklist, draws)
    modifies db
    ensures db.Valid()
    ensures db.images == old(db.images) && db.nextImagePk == old(db.nextImagePk)
    ensures db.blacklist == old(db.blacklist)
    ensures response == NotFound404 <==> imagePk !in db.images
    ensures response == Forbidden403 <==> CheckPermissions(db.images, requester, requesterTier, imagePk) == Denied
    ensures response == BadRequest400 <==>
      CheckPermissions(db.images, requester, requesterTier, imagePk) == Allowed && !ExpiresInValid(expiresIn)
    ensures response.Created201? <==>
      CheckPermissions(db.images, requester, requesterTier, imagePk) == Allowed && ExpiresInValid(expiresIn)
    ensures !response.Created201? ==> db.links == old(db.links)
    ensures response.Created201? ==>
      exists token :: token in draws && token !in old(db.links) && token !in old(db.blacklist)
        && db.links == old(db.links)[token := TempLink(token, imagePk, now, expiresIn, requester.user)]
        && response.data == TempLinkRepresentation(db.links[token], origin)
    ensures forall t :: Step(old(db.StateOf(t)), db.StateOf(t))
  {
    match CheckPermissions(db.images, requester, requesterTier, imagePk)
    case ImageNotFound =>
      return NotFound404;
    case Denied =>
      return Forbidden403;
    case Allowed =>
      if !ExpiresInValid(expiresIn) {
        return BadRequest400;
      }
      var created := CreateTempLink(db, imagePk, expiresIn, now, draws);
      var link := created.value;
      return Created201(TempLinkRepresentation(link, origin));
  }

  // ---------------------------------------------------------------------
  // TemporaryImageView.get

  datatype TempImageResponse = FileResponse(file: string) | TokenNotFound404 | Gone410

  /**
   * Resolve a token: unknown tokens are not found; an expired link has its
   * token blacklisted and its row deleted and answers Gone; an active link
   * serves its image file and changes nothing.
   */
  method Resolve(db: Database, token: Token, now: int) returns (response: TempImageResponse)
    requires db.Valid()
    modifies db
    ensures db.Valid()
    ensures db.images == old(db.images) && db.nextImagePk == old(db.nextImagePk)
    ensures token !in old(db.links) ==>
      response == TokenNotFound404 && db.links == old(db.links) && db.blacklist == old(db.blacklist)
    ensures token in old(db.links) && HasExpired(old(db.links)[token], now) ==>
      && response == Gone410
      && db.links == old(db.links) - {token}
      && db.blacklist == old(db.blacklist) + {token}
    ensures token in old(db.links) && !HasExpired(old(db.links)[token], now) ==>
      && response == FileResponse(db.images[old(db.links)[token].image].file)
      && db.links == old(db.links) && db.blacklist == old(db.blacklist)
    ensures forall t :: Step(old(db.StateOf(t)), db.StateOf(t))
  {
    if token !in db.links {
      return TokenNotFound404;
    }
    var templink := db.links[token];
    if HasExpired(templink, now) {
      db.InsertBlacklistEntry(token);
      db.DeleteLink(token);
      return Gone410;
    }
    return FileResponse(db.images[templink.image].file);
  }

  /**
   * Two requests for the same token, the second no earlier than the first:
   * a token answers Gone at most once and is then not found; a token that
   * is not found stays not found; an active link serves the same file again
   * unless it has expired in between.
   */
  method ResolveTwice(db: Database, token: Token, now: int, later: int)
    returns (first: TempImageResponse, second: TempImageResponse)
    requires db.Valid()
    requires now <= later
    modifies db
    ensures db.Valid()
    ensures first == Gone410 ==> second == TokenNotFound404
    ensures first == TokenNotFound404 ==> second == TokenNotFound404
    ensures first.FileResponse? ==> second == first || second == Gone410
    ensures first.FileResponse? && now == later ==> second == first
    ensures second == Gone410 ==> token in old(db.links) && token !in db.links && token in db.blacklist
  {
    first := Resolve(db, token, now);
    second := Resolve(db, token, later);
  }

  /**
   * The life of one link: created with the shortest lifetime, it serves the
   * image at once, answers Gone when its lifetime has elapsed, and is not
   * found afterwards, its token remaining blacklisted.
   */
  method LinkLifecycle(db: Database, imagePk: nat, now: int, draws: seq<Token>)
    returns (link: TempLink, atOnce: TempImageResponse, atExpiry: TempImageResponse, afterwards: TempImageResponse)
    requires db.Valid()
    requires imagePk in db.images
    requires HasFreshDraw(db.links, db.blacklist, draws)
    modifies db
    ensures db.Valid()
    ensures link.image == imagePk && link.expiresIn == MinExpiresIn
    ensures imagePk in db.images && atOnce == FileResponse(db.images[imagePk].file)
    ensures atExpiry == Gone410
    ensures afterwards == TokenNotFound404
    ensures link.token !in db.links && link.token in db.blacklist
  {
    var created := CreateTempLink(db, imagePk, MinExpiresIn, now, draws);
    link := created.value;
    atOnce := Resolve(db, link.token, now);
    atExpiry := Resolve(db, link.token, now + MinExpiresIn);
    afterwards := Resolve(db, link.token, now + MinExpiresIn);
  }
}
