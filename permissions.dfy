/** The object-level ownership check of api/permissions.py. */
module Permissions {
  import opened Wrappers
  import opened Models

  /**
   * The objects the check is applied to: a user account, an image, a
   * temporary link, or a row of another model without an `owner` field.
   */
  datatype Obj =
    | UserObj(id: UserId)
    | ImageObj(pk: nat, image: Image)
    | TempLinkObj(link: TempLink)
    | OtherObj(pk: nat)

  /** `getattr(obj, 'owner', None)`. */
  function OwnerAttr(obj: Obj): Option<UserId>
  {
    match obj
    case UserObj(_) => None
    case ImageObj(_, image) => Some(image.owner)
    case TempLinkObj(link) => Some(link.owner)
    case OtherObj(_) => None
  }

  /** `obj == request.user`: only a user row equals a user, and never the anonymous user. */
  predicate IsRequester(obj: Obj, requester: Requester)
  {
    requester.Authenticated? && obj == UserObj(requester.user)
  }

  /** `owner == request.user`, with `owner` possibly `None`. */
  predicate OwnedBy(owner: Option<UserId>, requester: Requester)
  {
    owner.Some? && requester == Authenticated(owner.value)
  }

  /** `IsOwner.has_object_permission`. */
  predicate HasObjectPermission(requester: Requester, obj: Obj)
  {
    var owner := OwnerAttr(obj);
    IsRequester(obj, requester) || OwnedBy(owner, requester)
  }

  /** A user may access their own account. */
  lemma GrantsSelf(user: UserId)
    ensures HasObjectPermission(Authenticated(user), UserObj(user))
  {
  }

  /** A user may access any object whose owner they are. */
  lemma GrantsOwner(user: UserId, obj: Obj)
    requires OwnerAttr(obj) == Some(user)
    ensures HasObjectPermission(Authenticated(user), obj)
  {
  }

  /** Any other user is denied. */
  lemma DeniesOthers(user: UserId, obj: Obj)
    requires obj != UserObj(user) && OwnerAttr(obj) != Some(user)
    ensures !HasObjectPermission(Authenticated(user), obj)
  {
  }

  /** The anonymous user is denied every object. */
  lemma DeniesAnonymous(obj: Obj)
    ensures !HasObjectPermission(Anonymous, obj)
  {
  }

  /** For an object without an `owner` field only `obj == user` counts. */
  lemma WithoutOwnerOnlyIdentity(requester: Requester, obj: Obj)
    requires OwnerAttr(obj) == None
    ensures HasObjectPermission(requester, obj) <==> requester.Authenticated? && obj == UserObj(requester.user)
  {
  }
}
