/**
 * The periodic task of imaginarium/tasks.py that reclaims every expired
 * temporary link: its token is blacklisted and its row deleted.
 */
module Tasks {
  import opened Models

  /** The links a sweep at `now` keeps: those that have not expired. */
  function Unexpired(links: map<Token, TempLink>, now: int): map<Token, TempLink>
  {
    map t | t in links && !HasExpired(links[t], now) :: links[t]
  }

  /** The tokens of the links a sweep at `now` reclaims. */
  function ExpiredTokens(links: map<Token, TempLink>, now: int): set<Token>
  {
    set t | t in links && HasExpired(links[t], now)
  }

  /** After a sweep no remaining link is expired, and every unexpired link is kept unchanged. */
  lemma SweepLeavesOnlyActive(links: map<Token, TempLink>, now: int)
    ensures forall t :: t in Unexpired(links, now) ==> !HasExpired(Unexpired(links, now)[t], now)
    ensures forall t :: t in links && !HasExpired(links[t], now) ==>
      t in Unexpired(links, now) && Unexpired(links, now)[t] == links[t]
  {
  }

  /** A second sweep at the same instant finds nothing to reclaim. */
  lemma SweepAgainFindsNothing(links: map<Token, TempLink>, now: int)
    ensures ExpiredTokens(Unexpired(links, now), now) == {}
  {
  }

  /** Every link is either kept or reclaimed, never both. */
  lemma SweepPartitionsLinks(links: map<Token, TempLink>, now: int)
    ensures Unexpired(links, now).Keys !! ExpiredTokens(links, now)
    ensures Unexpired(links, now).Keys + ExpiredTokens(links, now) == links.Keys
    ensures |Unexpired(links, now)| + |ExpiredTokens(links, now)| == |links|
  {
    var kept, gone := Unexpired(links, now).Keys, ExpiredTokens(links, now);
    assert kept + gone == links.Keys;
    assert |kept + gone| == |kept| + |gone|;
  }

  /** The expired links among those already visited. */
  ghost function ExpiredAmong(start: map<Token, TempLink>, visited: set<Token>, now: int): set<Token>
  {
    set t | t in visited && t in start && HasExpired(start[t], now)
  }

  /**
   * `remove_expired_templink_tokens`: reclaim every expired link and count
   * them (the count is what the task logs). The tables stay consistent and
   * each token moves at most one step of its lifecycle.
   */
  method RemoveExpiredTempLinkTokens(db: Database, now: int) returns (removed: nat)
    requires db.Valid()
    modifies db
    ensures db.Valid()
    ensures db.images == old(db.images) && db.nextImagePk == old(db.nextImagePk)
    ensures db.links == Unexpired(old(db.links), now)
    ensures db.blacklist == old(db.blacklist) + ExpiredTokens(old(db.links), now)
    ensures removed == |ExpiredTokens(old(db.links), now)|
    ensures forall t :: db.StateOf(t) ==
                        (if t in ExpiredTokens(old(db.links), now) then Reclaimed else old(db.StateOf(t)))
    ensures forall t :: Step(old(db.StateOf(t)), db.StateOf(t))
  {
    removed := ReclaimExpired(db, now);
    SweepSteps(old(db.links), old(db.blacklist), now);
    SweepKeepsConsistent(db.images, db.nextImagePk, old(db.links), old(db.blacklist), now);
  }

  /**
   * The loop of the task: visit every link; blacklist the token of each
   * expired one and delete it.
   */
  method ReclaimExpired(db: Database, now: int) returns (removed: nat)
    requires forall t :: t in db.links ==> t !in db.blacklist
    modifies db`links, db`blacklist
    ensures db.links == Unexpired(old(db.links), now)
    ensures db.blacklist == old(db.blacklist) + ExpiredTokens(old(db.links), now)
    ensures removed == |ExpiredTokens(old(db.links), now)|
  {
    ghost var start := db.links;
    ghost var visited: set<Token> := {};
    var pending := db.links.Keys;
    removed := 0;
    while pending != {}
      invariant pending !! visited && pending + visited == start.Keys
      invariant db.links == start - ExpiredAmong(start, visited, now)
      invariant db.blacklist == old(db.blacklist) + ExpiredAmong(start, visited, now)
      invariant removed == |ExpiredAmong(start, visited, now)|
      decreases pending
    {
      var token :| token in pending;
      VisitStep(start, old(db.blacklist), pending, visited, token, now);
      var reclaimed := ReclaimIfExpired(db, token, now);
      if reclaimed {
        removed := removed + 1;
      }
      pending := pending - {token};
      visited := visited + {token};
    }
    SweepEnd(start, visited, now);
  }

  /**
   * One iteration of the sweep: an expired link has its token blacklisted
   * and its row deleted; an active link is left alone.
   */
  method ReclaimIfExpired(db: Database, token: Token, now: int) returns (reclaimed: bool)
    requires token in db.links && token !in db.blacklist
    modifies db`links, db`blacklist
    ensures reclaimed <==> HasExpired(old(db.links)[token], now)
    ensures db.links == if reclaimed then old(db.links) - {token} else old(db.links)
    ensures db.blacklist == if reclaimed then old(db.blacklist) + {token} else old(db.blacklist)
  {
    var templink := db.links[token];
    reclaimed := HasExpired(templink, now);
    if reclaimed {
      db.InsertBlacklistEntry(token);
      db.DeleteLink(token);
    }
  }

  /** Visiting one more link reclaims it when it has expired and leaves the other links as they were. */
  lemma VisitStep(
    start: map<Token, TempLink>, blacklist: set<Token>, pending: set<Token>, visited: set<Token>, token: Token, now: int)
    requires pending !! visited && pending + visited == start.Keys
    requires token in pending && token !in blacklist
    ensures (pending - {token}) !! (visited + {token}) && (pending - {token}) + (visited + {token}) == start.Keys
    ensures token in start - ExpiredAmong(start, visited, now)
    ensures (start - ExpiredAmong(start, visited, now))[token] == start[token]
    ensures token !in blacklist + ExpiredAmong(start, visited, now)
    ensures var expired := HasExpired(start[token], now);
      && start - ExpiredAmong(start, visited + {token}, now)
         == (if expired then (start - ExpiredAmong(start, visited, now)) - {token}
             else start - ExpiredAmong(start, visited, now))
      && blacklist + ExpiredAmong(start, visited + {token}, now)
         == (if expired then (blacklist + ExpiredAmong(start, visited, now)) + {token}
             else blacklist + ExpiredAmong(start, visited, now))
      && |ExpiredAmong(start, visited + {token}, now)|
         == |ExpiredAmong(start, visited, now)| + (if expired then 1 else 0)
  {
    var before, after := ExpiredAmong(start, visited, now), ExpiredAmong(start, visited + {token}, now);
    if HasExpired(start[token], now) {
      assert after == before + {token};
    } else {
      assert after == before;
    }
  }

  /** Once every link is visited, the sweep has kept the unexpired links and reclaimed the expired ones. */
  lemma SweepEnd(start: map<Token, TempLink>, visited: set<Token>, now: int)
    requires visited == start.Keys
    ensures start - ExpiredAmong(start, visited, now) == Unexpired(start, now)
    ensures ExpiredAmong(start, visited, now) == ExpiredTokens(start, now)
  {
  }

  /** The tables stay consistent when the expired links are reclaimed. */
  lemma SweepKeepsConsistent(
    images: map<nat, Image>, nextImagePk: nat, links: map<Token, TempLink>, blacklist: set<Token>, now: int)
    requires Consistent(images, nextImagePk, links, blacklist)
    ensures Consistent(images, nextImagePk, Unexpired(links, now), blacklist + ExpiredTokens(links, now))
  {
  }

  /**
   * A sweep moves exactly the expired active tokens to reclaimed and leaves
   * every other token where it was; so each token moves at most one step.
   */
  lemma SweepSteps(start: map<Token, TempLink>, blacklist: set<Token>, now: int)
    requires forall t :: t in start ==> t !in blacklist
    ensures forall t :: StateIn(Unexpired(start, now), blacklist + ExpiredTokens(start, now), t) ==
                        (if t in ExpiredTokens(start, now) then Reclaimed else StateIn(start, blacklist, t))
    ensures forall t :: Step(StateIn(start, blacklist, t),
                             StateIn(Unexpired(start, now), blacklist + ExpiredTokens(start, now), t))
  {
  }

  /** Two sweeps at the same instant: the second removes nothing. */
  method SweepTwice(db: Database, now: int) returns (first: nat, second: nat)
    requires db.Valid()
    modifies db
    ensures db.Valid()
    ensures first == |ExpiredTokens(old(db.links), now)|
    ensures second == 0
  {
    first := RemoveExpiredTempLinkTokens(db, now);
    SweepAgainFindsNothing(old(db.links), now);
    second := RemoveExpiredTempLinkTokens(db, now);
  }
}
