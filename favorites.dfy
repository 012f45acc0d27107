/**
 * The favourites relation between users and crafts, as the save and unsave
 * handlers maintain it. Each handler touches two documents with two
 * independent updates; a single request is modelled as the craft update
 * followed by the user update. The two updates write different documents, so
 * the final state of one request does not depend on that order.
 */
module Favorites {
  import opened Documents

  /** The membership biconditional for one (user, craft) pair. */
  ghost predicate InSync(users: map<UserId, User>, crafts: map<CraftId, Craft>, uid: UserId, cid: CraftId)
    requires uid in users && cid in crafts
  {
    cid in users[uid].favorites <==> uid in crafts[cid].favoritedBy
  }

  /** Every stored (user, craft) pair satisfies the membership biconditional. */
  ghost predicate Consistent(users: map<UserId, User>, crafts: map<CraftId, Craft>)
  {
    forall uid, cid :: uid in users && cid in crafts ==> InSync(users, crafts, uid, cid)
  }

  /** No user lists a craft twice among its favourites. */
  ghost predicate FavoritesDuplicateFree(users: map<UserId, User>)
  {
    forall uid :: uid in users ==> NoDuplicates(users[uid].favorites)
  }

  // ---------------------------------------------------------------- save

  /** User side of saving: `$push` the craft id only when `includes` finds it absent. */
  function SaveUser(u: User, cid: CraftId): (r: User)
    ensures cid in r.favorites
    ensures forall c :: c in r.favorites <==> c in u.favorites || c == cid
    ensures cid in u.favorites ==> r == u
    ensures cid !in u.favorites ==> r.favorites == u.favorites + [cid]
    ensures r.(favorites := u.favorites) == u
  {
    if cid in u.favorites then u else u.(favorites := u.favorites + [cid])
  }

  /** Craft side of saving: an unconditional `$push` of the user id. */
  function SaveCraft(c: Craft, uid: UserId): (r: Craft)
    ensures |r.favoritedBy| == |c.favoritedBy| + 1
    ensures r.favoritedBy[..|c.favoritedBy|] == c.favoritedBy && r.favoritedBy[|c.favoritedBy|] == uid
    ensures r.(favoritedBy := c.favoritedBy) == c
  {
    c.(favoritedBy := c.favoritedBy + [uid])
  }

  /** The users after saving: only the saving user's document changes. */
  function SaveUsers(users: map<UserId, User>, uid: UserId, cid: CraftId): (r: map<UserId, User>)
    requires uid in users
    ensures r.Keys == users.Keys
    ensures forall v :: v in users && v != uid ==> r[v] == users[v]
  {
    users[uid := SaveUser(users[uid], cid)]
  }

  /** The crafts after saving: an update of a missing craft matches nothing. */
  function SaveCrafts(crafts: map<CraftId, Craft>, uid: UserId, cid: CraftId): (r: map<CraftId, Craft>)
    ensures r.Keys == crafts.Keys
    ensures forall c :: c in crafts && c != cid ==> r[c] == crafts[c]
  {
    if cid in crafts then crafts[cid := SaveCraft(crafts[cid], uid)] else crafts
  }

  // -------------------------------------------------------------- unsave

  /** User side of unsaving: `$pull` the craft id. */
  function UnsaveUser(u: User, cid: CraftId): (r: User)
    ensures cid !in r.favorites
    ensures forall c :: c in r.favorites <==> c in u.favorites && c != cid
    ensures cid !in u.favorites ==> r == u
    ensures r.(favorites := u.favorites) == u
  {
    u.(favorites := Pull(u.favorites, cid))
  }

  /** Craft side of unsaving: `$pull` the user id. */
  function UnsaveCraft(c: Craft, uid: UserId): (r: Craft)
    ensures uid !in r.favoritedBy
    ensures forall v :: v in r.favoritedBy <==> v in c.favoritedBy && v != uid
    ensures uid !in c.favoritedBy ==> r == c
    ensures r.(favoritedBy := c.favoritedBy) == c
  {
    c.(favoritedBy := Pull(c.favoritedBy, uid))
  }

  function UnsaveUsers(users: map<UserId, User>, uid: UserId, cid: CraftId): (r: map<UserId, User>)
    requires uid in users
    ensures r.Keys == users.Keys
    ensures forall v :: v in users && v != uid ==> r[v] == users[v]
  {
    users[uid := UnsaveUser(users[uid], cid)]
  }

  function UnsaveCrafts(crafts: map<CraftId, Craft>, uid: UserId, cid: CraftId): (r: map<CraftId, Craft>)
    ensures r.Keys == crafts.Keys
    ensures forall c :: c in crafts && c != cid ==> r[c] == crafts[c]
  {
    if cid in crafts then crafts[cid := UnsaveCraft(crafts[cid], uid)] else crafts
  }

  // -------------------------------------------------------------- lemmas

  /** After a save the pair is related on both sides, whatever it was before. */
  lemma SaveRelatesPair(users: map<UserId, User>, crafts: map<CraftId, Craft>, uid: UserId, cid: CraftId)
    requires uid in users && cid in crafts
    ensures cid in SaveUsers(users, uid, cid)[uid].favorites
    ensures uid in SaveCrafts(crafts, uid, cid)[cid].favoritedBy
    ensures InSync(SaveUsers(users, uid, cid), SaveCrafts(crafts, uid, cid), uid, cid)
  {
  }

  /** After an unsave neither side mentions the other, and absent entries leave both sequences unchanged. */
  lemma UnsaveUnrelatesPair(users: map<UserId, User>, crafts: map<CraftId, Craft>, uid: UserId, cid: CraftId)
    requires uid in users && cid in crafts
    ensures cid !in UnsaveUsers(users, uid, cid)[uid].favorites
    ensures uid !in UnsaveCrafts(crafts, uid, cid)[cid].favoritedBy
    ensures cid !in users[uid].favorites ==> UnsaveUsers(users, uid, cid) == users
    ensures uid !in crafts[cid].favoritedBy ==> UnsaveCrafts(crafts, uid, cid) == crafts
    ensures InSync(UnsaveUsers(users, uid, cid), UnsaveCrafts(crafts, uid, cid), uid, cid)
  {
    assert UnsaveUser(users[uid], cid) == users[uid] ==> users[uid := users[uid]] == users;
    assert UnsaveCraft(crafts[cid], uid) == crafts[cid] ==> crafts[cid := crafts[cid]] == crafts;
  }

  /** Saving keeps every (user, craft) pair in sync. */
  lemma SavePreservesConsistent(users: map<UserId, User>, crafts: map<CraftId, Craft>, uid: UserId, cid: CraftId)
    requires uid in users && Consistent(users, crafts)
    ensures Consistent(SaveUsers(users, uid, cid), SaveCrafts(crafts, uid, cid))
  {
    var users', crafts' := SaveUsers(users, uid, cid), SaveCrafts(crafts, uid, cid);
    forall v, c | v in users' && c in crafts' ensures InSync(users', crafts', v, c) {
      assert InSync(users, crafts, v, c);
      if c == cid {
        assert v in crafts'[c].favoritedBy <==> v in crafts[c].favoritedBy || v == uid;
      }
    }
  }

  /** Unsaving keeps every (user, craft) pair in sync. */
  lemma UnsavePreservesConsistent(users: map<UserId, User>, crafts: map<CraftId, Craft>, uid: UserId, cid: CraftId)
    requires uid in users && Consistent(users, crafts)
    ensures Consistent(UnsaveUsers(users, uid, cid), UnsaveCrafts(crafts, uid, cid))
  {
    var users', crafts' := UnsaveUsers(users, uid, cid), UnsaveCrafts(crafts, uid, cid);
    forall v, c | v in users' && c in crafts' ensures InSync(users', crafts', v, c) {
      assert InSync(users, crafts, v, c);
    }
  }

  /** A new user with no favourites, whom no craft lists, keeps every pair in sync. */
  lemma NewUserKeepsConsistent(users: map<UserId, User>, crafts: map<CraftId, Craft>, id: UserId, u: User)
    requires Consistent(users, crafts) && u.favorites == []
    requires forall cid :: cid in crafts ==> id !in crafts[cid].favoritedBy
    ensures Consistent(users[id := u], crafts)
  {
    var users' := users[id := u];
    forall v, c | v in users' && c in crafts ensures InSync(users', crafts, v, c) {
      if v != id {
        assert InSync(users, crafts, v, c);
      }
    }
  }

  /** Saving twice leaves the users exactly as saving once. */
  lemma SaveTwiceUsers(users: map<UserId, User>, uid: UserId, cid: CraftId)
    requires uid in users
    ensures SaveUsers(SaveUsers(users, uid, cid), uid, cid) == SaveUsers(users, uid, cid)
  {
  }

  /** Saving twice pushes the user onto the craft's `favoritedBy` twice. */
  lemma SaveTwiceCrafts(crafts: map<CraftId, Craft>, uid: UserId, cid: CraftId)
    requires cid in crafts
    ensures SaveCrafts(SaveCrafts(crafts, uid, cid), uid, cid)[cid].favoritedBy
            == crafts[cid].favoritedBy + [uid, uid]
  {
    assert crafts[cid].favoritedBy + [uid] + [uid] == crafts[cid].favoritedBy + [uid, uid];
  }

  /** Saving never introduces a duplicate into the user's favourites. */
  lemma SaveKeepsFavoritesDuplicateFree(u: User, cid: CraftId)
    requires NoDuplicates(u.favorites)
    ensures NoDuplicates(SaveUser(u, cid).favorites)
  {
    if cid !in u.favorites {
      var s := u.favorites + [cid];
      forall i, j | 0 <= i < j < |s| ensures s[i] != s[j] {
        if j == |s| - 1 {
          assert s[i] == u.favorites[i];
        } else {
          assert s[i] == u.favorites[i] && s[j] == u.favorites[j];
        }
      }
    }
  }

  /** Saving keeps every user's favourites duplicate-free. */
  lemma SavePreservesDuplicateFree(users: map<UserId, User>, uid: UserId, cid: CraftId)
    requires uid in users && FavoritesDuplicateFree(users)
    ensures FavoritesDuplicateFree(SaveUsers(users, uid, cid))
  {
    SaveKeepsFavoritesDuplicateFree(users[uid], cid);
  }

  /** Unsaving keeps every user's favourites duplicate-free. */
  lemma UnsavePreservesDuplicateFree(users: map<UserId, User>, uid: UserId, cid: CraftId)
    requires uid in users && FavoritesDuplicateFree(users)
    ensures FavoritesDuplicateFree(UnsaveUsers(users, uid, cid))
  {
    PullNoDuplicates(users[uid].favorites, cid);
  }

  /** Unsaving after saving gives the same user as unsaving alone. */
  lemma UnsaveAfterSaveUser(u: User, cid: CraftId)
    ensures UnsaveUser(SaveUser(u, cid), cid) == UnsaveUser(u, cid)
  {
    if cid !in u.favorites {
      PullAfterPush(u.favorites, cid);
    }
  }

  /** Unsaving after saving gives the same craft as unsaving alone. */
  lemma UnsaveAfterSaveCraft(c: Craft, uid: UserId)
    ensures UnsaveCraft(SaveCraft(c, uid), uid) == UnsaveCraft(c, uid)
  {
    PullAfterPush(c.favoritedBy, uid);
  }

  /**
   * Saving a craft id that names no stored craft still records it among the
   * user's favourites: the user side is not conditional on the craft existing.
   */
  lemma SaveMissingCraftDangles(users: map<UserId, User>, crafts: map<CraftId, Craft>, uid: UserId, cid: CraftId)
    requires uid in users && cid !in crafts
    ensures SaveCrafts(crafts, uid, cid) == crafts
    ensures cid in SaveUsers(users, uid, cid)[uid].favorites && cid !in SaveCrafts(crafts, uid, cid)
  {
  }

  /** A user with no favourites saves a craft nobody favourited, then unsaves it. */
  lemma SaveThenUnsaveScenario(u: User, c: Craft, uid: UserId, cid: CraftId)
    requires u.favorites == [] && c.favoritedBy == []
    ensures SaveUsers(map[uid := u], uid, cid)[uid].favorites == [cid]
    ensures SaveCrafts(map[cid := c], uid, cid)[cid].favoritedBy == [uid]
    ensures UnsaveUsers(SaveUsers(map[uid := u], uid, cid), uid, cid)[uid].favorites == []
    ensures UnsaveCrafts(SaveCrafts(map[cid := c], uid, cid), uid, cid)[cid].favoritedBy == []
  {
    UnsaveAfterSaveUser(u, cid);
    UnsaveAfterSaveCraft(c, uid);
  }
}
