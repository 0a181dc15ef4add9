/**
 * Helpers of api/utils.py: upload file names and temporary-link tokens.
 * `token_urlsafe` is random; here its successive results are a stream of
 * candidate strings given by the caller.
 */
module Utils {
  import opened Models

  /** `file_name_generator`: the random prefix followed by the uploaded name. */
  function FileNameGenerator(prefix: string, filename: string): (name: string)
    ensures |name| == |prefix| + |filename|
    ensures name[..|prefix|] == prefix && name[|prefix|..] == filename
  {
    prefix + filename
  }

  /** A token is fresh when it is neither active nor blacklisted. */
  predicate IsFresh(links: map<Token, TempLink>, blacklist: set<Token>, token: Token)
  {
    token !in links && token !in blacklist
  }

  /** Every candidate of `draws` collides with one of the two tables. */
  predicate AllCollide(links: map<Token, TempLink>, blacklist: set<Token>, draws: seq<Token>)
  {
    forall i :: 0 <= i < |draws| ==> !IsFresh(links, blacklist, draws[i])
  }

  /** Some candidate of `draws` is fresh: the retry loop then terminates. */
  predicate HasFreshDraw(links: map<Token, TempLink>, blacklist: set<Token>, draws: seq<Token>)
  {
    exists i :: 0 <= i < |draws| && IsFresh(links, blacklist, draws[i])
  }

  /**
   * `generate_token`: draw candidates until one is neither an active token
   * nor a blacklisted one. The result is the first fresh candidate; every
   * candidate before it collided and was discarded. The tables are only
   * read.
   */
  method GenerateToken(links: map<Token, TempLink>, blacklist: set<Token>, draws: seq<Token>)
    returns (token: Token)
    requires HasFreshDraw(links, blacklist, draws)
    ensures IsFresh(links, blacklist, token)
    ensures exists i :: 0 <= i < |draws| && draws[i] == token && AllCollide(links, blacklist, draws[..i])
  {
    var i := 0;
    while true
      invariant 0 <= i < |draws|
      invariant exists k :: i <= k < |draws| && IsFresh(links, blacklist, draws[k])
      invariant AllCollide(links, blacklist, draws[..i])
      decreases |draws| - i
    {
      var candidate := draws[i];
      var tokenIsActive := candidate in links;
      var tokenIsBlacklisted := candidate in blacklist;
      if !tokenIsActive && !tokenIsBlacklisted {
        return candidate;
      }
      assert draws[..i + 1] == draws[..i] + [candidate];
      i := i + 1;
    }
  }
}
