/**
 * The data model of the image-hosting API (api/models.py): account tiers,
 * users, images, temporary links and the token blacklist, with the expiry
 * evaluation of a temporary link and the database constraints the tables
 * declare. Time is measured in whole seconds.
 */
module Models {
  import opened Wrappers

  type Token = string
  type UserId = nat

  /** `request.user`: Django's anonymous user or an authenticated user. */
  datatype Requester = Anonymous | Authenticated(user: UserId)

  /** Bounds of the `expires_in` validators, in seconds. */
  const MinExpiresIn: int := 300
  const MaxExpiresIn: int := 30000

  /**
   * An account tier. `thumbnailHeights` lists the heights of the tier's
   * thumbnail sizes in the order the relation yields them.
   */
  datatype AccountTier = AccountTier(
    name: string,
    thumbnailHeights: seq<int>,
    showOriginal: bool,
    canGenerateTempLink: bool,
    isDefault: bool)

  /** An uploaded image: the file name generated for the upload and its owner. */
  datatype Image = Image(file: string, owner: UserId)

  /** A temporary link row; `image` is the primary key of its image. */
  datatype TempLink = TempLink(
    token: Token,
    image: nat,
    created: int,
    expiresIn: int,
    owner: UserId)

  // ---------------------------------------------------------------------
  // Expiry evaluation

  /** The instant at which the link stops serving its image. */
  function ExpirationDate(link: TempLink): int
  {
    link.created + link.expiresIn
  }

  /** A link has expired once the clock reaches its expiration date. */
  predicate HasExpired(link: TempLink, now: int)
  {
    now >= ExpirationDate(link)
  }

  /** A link is expired exactly when it has lived for at least `expiresIn` seconds. */
  lemma HasExpiredIffAgeReachesLifetime(link: TempLink, now: int)
    ensures HasExpired(link, now) <==> now - link.created >= link.expiresIn
  {
  }

  /** The boundary is inclusive: expired at the expiration date, active one second before. */
  lemma ExpiryBoundary(link: TempLink)
    ensures HasExpired(link, ExpirationDate(link))
    ensures !HasExpired(link, ExpirationDate(link) - 1)
  {
  }

  /** Once expired, a link stays expired at every later instant. */
  lemma HasExpiredMonotone(link: TempLink, now: int, later: int)
    requires now <= later
    requires HasExpired(link, now)
    ensures HasExpired(link, later)
  {
  }

  /** The `expires_in` validators: MinValueValidator(300) and MaxValueValidator(30000). */
  predicate ExpiresInValid(expiresIn: int)
  {
    !(expiresIn < MinExpiresIn) && !(expiresIn > MaxExpiresIn)
  }

  /** 300 and 30000 are accepted, 299 and 30001 are rejected. */
  lemma ExpiresInBoundaries()
    ensures ExpiresInValid(300) && ExpiresInValid(30000)
    ensures !ExpiresInValid(299) && !ExpiresInValid(30001)
  {
  }

  /**
   * A link whose lifetime passed validation serves its image for at least
   * five minutes after creation and is expired at the latest 30000 seconds
   * after creation.
   */
  lemma ValidLifetimeWindow(link: TempLink, now: int)
    requires ExpiresInValid(link.expiresIn)
    ensures link.created <= now < link.created + MinExpiresIn ==> !HasExpired(link, now)
    ensures now >= link.created + MaxExpiresIn ==> HasExpired(link, now)
  {
  }

  // ---------------------------------------------------------------------
  // Account tiers: the default tier and the single-default constraint

  datatype LookupError = DoesNotExist | MultipleObjectsReturned

  datatype IntegrityError = DuplicateName | SecondDefault

  /** The rows of the tier table that are flagged as default, in table order. */
  function DefaultTiers(tiers: seq<AccountTier>): (defaults: seq<AccountTier>)
    ensures forall t :: t in defaults <==> t in tiers && t.isDefault
  {
    if tiers == [] then []
    else (if tiers[0].isDefault then [tiers[0]] else []) + DefaultTiers(tiers[1..])
  }

  /** `AccountTier.get_default`: `objects.get(default=True)`. */
  function GetDefault(tiers: seq<AccountTier>): (r: Result<AccountTier, LookupError>)
    ensures r.Success? ==> r.value in tiers && r.value.isDefault
    ensures r == Failure(DoesNotExist) <==> forall t :: t in tiers ==> !t.isDefault
  {
    var defaults := DefaultTiers(tiers);
    assert |defaults| > 0 ==> defaults[0] in defaults;
    if |defaults| == 0 then Failure(DoesNotExist)
    else if |defaults| > 1 then Failure(MultipleObjectsReturned)
    else Success(defaults[0])
  }

  /** The `unique_default` constraint: no two rows are both flagged as default. */
  ghost predicate AtMostOneDefault(tiers: seq<AccountTier>)
  {
    forall i, j :: 0 <= i < |tiers| && 0 <= j < |tiers| && tiers[i].isDefault && tiers[j].isDefault ==> i == j
  }

  /**
   * Under the single-default constraint the default lookup never finds
   * several rows, and it succeeds as soon as some tier is the default.
   */
  lemma {:induction false} SingleDefaultLookup(tiers: seq<AccountTier>)
    requires AtMostOneDefault(tiers)
    ensures |DefaultTiers(tiers)| <= 1
    ensures GetDefault(tiers) != Failure(MultipleObjectsReturned)
    ensures (exists t :: t in tiers && t.isDefault) ==> GetDefault(tiers).Success?
  {
    if tiers != [] {
      var rest := tiers[1..];
      assert AtMostOneDefault(rest) by {
        forall i, j | 0 <= i < |rest| && 0 <= j < |rest| && rest[i].isDefault && rest[j].isDefault
          ensures i == j
        {
          assert tiers[i + 1] == rest[i] && tiers[j + 1] == rest[j];
        }
      }
      SingleDefaultLookup(rest);
      if tiers[0].isDefault {
        assert forall t :: t in rest ==> !t.isDefault;
        assert DefaultTiers(rest) == [];
      }
    }
  }

  /**
   * Inserting a tier row under the table's constraints: the name is unique
   * and at most one row may be the default.
   */
  function AddTier(tiers: seq<AccountTier>, tier: AccountTier): (r: Result<seq<AccountTier>, IntegrityError>)
    ensures r.Success? ==> r.value == tiers + [tier]
    ensures r == Failure(DuplicateName) <==> exists t :: t in tiers && t.name == tier.name
    ensures r.Failure? <==>
      (exists t :: t in tiers && t.name == tier.name) || (tier.isDefault && exists t :: t in tiers && t.isDefault)
    ensures AtMostOneDefault(tiers) && r.Success? ==> AtMostOneDefault(r.value)
  {
    if exists t :: t in tiers && t.name == tier.name then Failure(DuplicateName)
    else if tier.isDefault && exists t :: t in tiers && t.isDefault then Failure(SecondDefault)
    else
      var added := tiers + [tier];
      assert AtMostOneDefault(tiers) ==> AtMostOneDefault(added) by {
        if AtMostOneDefault(tiers) && tier.isDefault {
          forall i | 0 <= i < |tiers| ensures !added[i].isDefault {
            assert added[i] == tiers[i] && tiers[i] in tiers;
          }
        }
      }
      Success(added)
  }

  /** A user account; `clean` fills in a missing tier with the default one. */
  class User {
    var accountTier: Option<AccountTier>

    constructor (accountTier: Option<AccountTier>)
      ensures this.accountTier == accountTier
    {
      this.accountTier := accountTier;
    }

    /**
     * `User.clean`: a user without a tier gets the default tier; the lookup
     * error is raised when there is no single default. A tier that is
     * already set is left unchanged.
     */
    method Clean(tiers: seq<AccountTier>) returns (error: Option<LookupError>)
      modifies this`accountTier
      ensures old(accountTier).Some? ==> accountTier == old(accountTier) && error == None
      ensures old(accountTier).None? && GetDefault(tiers).Success? ==>
        accountTier == Some(GetDefault(tiers).value) && error == None
      ensures old(accountTier).None? && GetDefault(tiers).Failure? ==>
        accountTier == None && error == Some(GetDefault(tiers).error)
      ensures AtMostOneDefault(tiers) && (exists t :: t in tiers && t.isDefault) ==>
        error == None && accountTier.Some? && (old(accountTier).None? ==> accountTier.value.isDefault)
    {
      error := None;
      if accountTier == None {
        if AtMostOneDefault(tiers) {
          SingleDefaultLookup(tiers);
        }
        match GetDefault(tiers)
        case Success(tier) =>
          accountTier := Some(tier);
        case Failure(e) =>
          error := Some(e);
      }
    }
  }

  // ---------------------------------------------------------------------
  // The tables

  /**
   * Where a token stands: never issued, the token of a stored link, or
   * reclaimed (in the blacklist, with no link row).
   */
  datatype TokenState = Unissued | Active | Reclaimed

  /** Where `t` stands given the link table and the blacklist. */
  function StateIn(links: map<Token, TempLink>, blacklist: set<Token>, t: Token): TokenState
  {
    if t in links then Active else if t in blacklist then Reclaimed else Unissued
  }

  /** The transitions a single operation may make on one token. */
  predicate Step(before: TokenState, after: TokenState)
  {
    before == after || (before == Unissued && after == Active) || (before == Active && after == Reclaimed)
  }

  /**
   * Along any run of operations, a reclaimed token stays reclaimed: no
   * operation can make it active again or forget it.
   */
  lemma {:induction false} ReclaimedIsTerminal(trace: seq<TokenState>, k: nat)
    requires k < |trace|
    requires forall i :: 0 <= i < |trace| - 1 ==> Step(trace[i], trace[i + 1])
    requires trace[k] == Reclaimed
    ensures forall i :: k <= i < |trace| ==> trace[i] == Reclaimed
    decreases |trace| - k
  {
    if k + 1 < |trace| {
      assert Step(trace[k], trace[k + 1]);
      ReclaimedIsTerminal(trace, k + 1);
    }
  }

  /** Along any run of operations, an issued token is never unissued again. */
  lemma {:induction false} IssuedNeverUnissued(trace: seq<TokenState>, k: nat)
    requires k < |trace|
    requires forall i :: 0 <= i < |trace| - 1 ==> Step(trace[i], trace[i + 1])
    requires trace[k] != Unissued
    ensures forall i :: k <= i < |trace| ==> trace[i] != Unissued
    decreases |trace| - k
  {
    if k + 1 < |trace| {
      assert Step(trace[k], trace[k + 1]);
      IssuedNeverUnissued(trace, k + 1);
    }
  }

  /**
   * The invariant the application keeps on the tables: primary keys come
   * from the counter, each link row is stored under its own token, no token
   * is both active and blacklisted, and each link points to an existing
   * image and carries that image's owner.
   */
  ghost predicate Consistent(images: map<nat, Image>, nextImagePk: nat, links: map<Token, TempLink>, blacklist: set<Token>)
  {
    && (forall pk :: pk in images ==> pk < nextImagePk)
    && (forall t :: t in links ==> links[t].token == t && t !in blacklist)
    && (forall t :: t in links ==> links[t].image in images && links[t].owner == images[links[t].image].owner)
  }

  /**
   * The database: the image table, the temporary-link table keyed by its
   * unique token column, and the token blacklist with its unique token
   * column.
   */
  class Database {
    var images: map<nat, Image>
    var nextImagePk: nat
    var links: map<Token, TempLink>
    var blacklist: set<Token>

    constructor ()
      ensures images == map[] && links == map[] && blacklist == {} && nextImagePk == 1
      ensures Valid()
    {
      images := map[];
      nextImagePk := 1;
      links := map[];
      blacklist := {};
    }

    /** The invariant the application keeps; see `Consistent`. */
    ghost predicate Valid()
      reads this
    {
      Consistent(images, nextImagePk, links, blacklist)
    }

    ghost function StateOf(t: Token): TokenState
      reads this
    {
      StateIn(links, blacklist, t)
    }

    /** `TempLink.objects.create`: the token column is unique. */
    method InsertLink(link: TempLink)
      requires link.token !in links
      modifies this`links
      ensures links == old(links)[link.token := link]
    {
      links := links[link.token := link];
    }

    /** `templink.delete()`. */
    method DeleteLink(token: Token)
      modifies this`links
      ensures links == old(links) - {token}
    {
      links := links - {token};
    }

    /** `TempLinkTokenBlacklist.objects.create`: the token column is unique. */
    method InsertBlacklistEntry(token: Token)
      requires token !in blacklist
      modifies this`blacklist
      ensures blacklist == old(blacklist) + {token}
    {
      blacklist := blacklist + {token};
    }

    /** `Image.objects.create`: the new row gets the next primary key. */
    method InsertImage(image: Image) returns (pk: nat)
      requires Valid()
      modifies this`images, this`nextImagePk
      ensures Valid()
      ensures pk == old(nextImagePk) && pk !in old(images)
      ensures images == old(images)[pk := image] && nextImagePk == pk + 1
    {
      pk := nextImagePk;
      images := images[pk := image];
      nextImagePk := nextImagePk + 1;
    }
  }
}
