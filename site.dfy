/**
 * The store the route handlers update in place: the users collection, the
 * crafts collection and the requester's session slot, with one method per
 * state-changing handler of the auth and site routers.
 */
module Site {
  import opened Documents
  import opened Responses
  import Favorites
  import Posts
  import Auth

  class Store {
    var users: map<UserId, User>
    var crafts: map<CraftId, Craft>
    /** The session's current user, by id (the session's user snapshot is read only for its `_id`). */
    var session: Option<UserId>

    ghost predicate Valid()
      reads this
    {
      && (session.Some? ==> session.value in users)
      && Favorites.Consistent(users, crafts)
      && Posts.Owned(users, crafts)
      && Auth.UniqueUsernames(users)
      && Favorites.FavoritesDuplicateFree(users)
    }

    /** A user id that no stored user has and no craft's `favoritedBy` mentions: what a newly generated ObjectId is. */
    ghost predicate FreshUserId(id: UserId)
      reads this
    {
      id !in users && forall cid :: cid in crafts ==> id !in crafts[cid].favoritedBy
    }

    constructor ()
      ensures Valid()
      ensures users == map[] && crafts == map[] && session == None
    {
      users, crafts, session := map[], map[], None;
    }

    // ========================================================= auth router

    /**
     * POST /auth/signup. The two lookups are issued together; the email
     * lookup is taken to answer first, and the first answer sent is the
     * response. Creation depends on the username lookup alone.
     */
    method Signup(username: string, password: string, email: string, zxcvbn: string -> int,
                  bcrypt: Auth.Bcrypt, saltRandom: string, newId: UserId) returns (resp: Response)
      requires Valid() && FreshUserId(newId)
      modifies this
      ensures Valid() && crafts == old(crafts) && session == old(session)
      ensures var d := Auth.DecideSignup(username, password, zxcvbn,
                                         Auth.EmailTaken(old(users), email), Auth.UsernameTaken(old(users), username));
              && resp == d.response
              && users == if d.creates
                          then old(users)[newId := Auth.NewUser(username, email,
                                                                bcrypt.hash(password, Auth.Salt(Auth.SaltRounds, saltRandom)))]
                          else old(users)
    {
      if username == "" || password == "" {
        resp := Render(Auth.SignupView, Auth.MsgSignupEmpty);
        return;
      }
      if zxcvbn(password) < 1 {
        resp := Render(Auth.SignupView, Auth.MsgWeakPassword);
        return;
      }
      var emailTaken := Auth.EmailTaken(users, email);
      var usernameTaken := Auth.UsernameTaken(users, username);
      var sent := false;
      resp := NoResponse;
      if emailTaken {
        resp, sent := Render(Auth.SignupView, Auth.MsgEmailExists), true;
      }
      if usernameTaken {
        if !sent {
          resp := Render(Auth.SignupView, Auth.MsgUsernameExists);
        }
        return;
      }
      var salt := Auth.Salt(Auth.SaltRounds, saltRandom);
      var hashed := bcrypt.hash(password, salt);
      var user := Auth.NewUser(username, email, hashed);
      Auth.SignupKeepsUsernamesUnique(users, newId, username, email, hashed);
      Favorites.NewUserKeepsConsistent(users, crafts, newId, user);
      Posts.NewUserKeepsOwned(users, crafts, newId, user);
      users := users[newId := user];
      if !sent {
        resp := Redirect(LoginPath);
      }
    }

    /** POST /auth/login. */
    method Login(username: string, password: string, bcrypt: Auth.Bcrypt) returns (resp: Response)
      requires Valid()
      modifies this
      ensures Valid() && users == old(users) && crafts == old(crafts)
      ensures var found := Auth.UserNamed(users, username);
              var d := Auth.DecideLogin(username, password, if found.Some? then Some(users[found.value]) else None, bcrypt.compare);
              && resp == Auth.LoginResponse(d)
              && session == if d.LoginSucceeded? then found else old(session)
    {
      if username == "" || password == "" {
        resp := Render(Auth.LoginView, Auth.MsgLoginEmpty);
        return;
      }
      if !Auth.UsernameTaken(users, username) {
        resp := Render(Auth.LoginView, Auth.MsgUnknownUser);
        return;
      }
      var id :| id in users && users[id].username == username;
      Auth.UserNamedIsUnique(users, username, id);
      if bcrypt.compare(password, users[id].password) {
        session := Some(id);
        resp := Redirect(HomePath);
      } else {
        resp := Render(Auth.LoginView, Auth.MsgIncorrectPassword);
      }
    }

    /** GET /auth/logout, behind the login guard. `destroyFails` is the session store's error. */
    method Logout(destroyFails: bool) returns (resp: Response)
      requires Valid() && session.Some?
      modifies this
      ensures Valid() && users == old(users) && crafts == old(crafts)
      ensures !destroyFails ==> session == None && resp == Redirect(LoginPath)
      ensures destroyFails ==> session == old(session) && resp == NoResponse
    {
      if destroyFails {
        resp := NoResponse;
      } else {
        session := None;
        resp := Redirect(LoginPath);
      }
    }

    // ========================================================= site router

    /**
     * POST /addPost. The route has no login guard: a missing upload or a
     * missing session user throws before anything is stored.
     */
    method AddPost(form: CraftForm, upload: Option<string>, newId: CraftId) returns (resp: Response)
      requires Valid() && Posts.FreshCraftId(users, crafts, newId)
      modifies this
      ensures Valid() && session == old(session)
      ensures upload.None? || old(session).None? ==>
                resp == ServerError && users == old(users) && crafts == old(crafts)
      ensures upload.Some? && old(session).Some? ==>
                && resp == Redirect(FavoritesPath)
                && crafts == old(crafts)[newId := Posts.NewCraft(form, upload.value, old(session).value)]
                && users == Posts.AddPostUsers(old(users), old(session).value, newId)
    {
      if upload.None? {
        resp := ServerError;
        return;
      }
      var imageUrl := upload.value;
      if session.None? {
        resp := ServerError;
        return;
      }
      var uid := session.value;
      Posts.AddPostOwnership(users, crafts, uid, newId, form, imageUrl);
      Auth.SameUsernamesKeepUnique(users, Posts.AddPostUsers(users, uid, newId));
      crafts := crafts[newId := Posts.NewCraft(form, imageUrl, uid)];
      var user := users[uid];
      users := users[uid := user.(posts := user.posts + [newId])];
      resp := Redirect(FavoritesPath);
    }

    /** GET /savePost/:id, behind the login guard. The handler sends no response. */
    method SavePost(cid: CraftId) returns (resp: Response)
      requires Valid() && session.Some?
      modifies this
      ensures Valid() && session == old(session)
      ensures crafts == Favorites.SaveCrafts(old(crafts), old(session).value, cid)
      ensures users == Favorites.SaveUsers(old(users), old(session).value, cid)
      ensures resp == NoResponse
    {
      var uid := session.value;
      ghost var users', crafts' := Favorites.SaveUsers(users, uid, cid), Favorites.SaveCrafts(crafts, uid, cid);
      Favorites.SavePreservesConsistent(users, crafts, uid, cid);
      Favorites.SavePreservesDuplicateFree(users, uid, cid);
      Posts.FavoritesKeepOwned(users, crafts, users', crafts');
      Auth.SameUsernamesKeepUnique(users, users');
      if cid in crafts {
        var craft := crafts[cid];
        crafts := crafts[cid := craft.(favoritedBy := craft.favoritedBy + [uid])];
      }
      assert crafts == crafts';
      var user := users[uid];
      if cid !in user.favorites {
        users := users[uid := user.(favorites := user.favorites + [cid])];
      }
      assert users == users';
      resp := NoResponse;
    }

    /** GET /unsavePost/:id, behind the login guard. */
    method UnsavePost(cid: CraftId) returns (resp: Response)
      requires Valid() && session.Some?
      modifies this
      ensures Valid() && session == old(session)
      ensures crafts == Favorites.UnsaveCrafts(old(crafts), old(session).value, cid)
      ensures users == Favorites.UnsaveUsers(old(users), old(session).value, cid)
      ensures resp == Redirect(FavoritesPath)
    {
      var uid := session.value;
      Favorites.UnsavePreservesConsistent(users, crafts, uid, cid);
      Favorites.UnsavePreservesDuplicateFree(users, uid, cid);
      Posts.FavoritesKeepOwned(users, crafts, Favorites.UnsaveUsers(users, uid, cid), Favorites.UnsaveCrafts(crafts, uid, cid));
      Auth.SameUsernamesKeepUnique(users, Favorites.UnsaveUsers(users, uid, cid));
      if cid in crafts {
        var craft := crafts[cid];
        crafts := crafts[cid := craft.(favoritedBy := Pull(craft.favoritedBy, uid))];
      }
      var user := users[uid];
      users := users[uid := user.(favorites := Pull(user.favorites, cid))];
      resp := Redirect(FavoritesPath);
    }

    /** GET /deletePost/:id, behind the login guard: the craft goes, every user document stays. */
    method DeletePost(cid: CraftId) returns (resp: Response)
      requires Valid() && session.Some?
      modifies this
      ensures Valid() && session == old(session)
      ensures crafts == old(crafts) - {cid}
      ensures users == old(users)
      ensures resp == Redirect(FavoritesPath)
    {
      Posts.DeletePostOnlyRemovesCraft(users, crafts, cid);
      crafts := crafts - {cid};
      resp := Redirect(FavoritesPath);
    }

    /**
     * POST /editPost. The route has no login guard: a missing session user
     * throws before anything is updated.
     */
    method EditPost(id: CraftId, form: CraftForm, upload: Option<string>, bodyImageURL: Option<string>)
      returns (resp: Response)
      requires Valid()
      modifies this
      ensures Valid() && users == old(users) && session == old(session)
      ensures old(session).None? ==> resp == ServerError && crafts == old(crafts)
      ensures old(session).Some? ==>
                && crafts == Posts.EditCrafts(old(crafts), id, form, Posts.ChooseImage(upload, bodyImageURL))
                && resp == match Posts.ChooseImage(upload, bodyImageURL)
                           case UseUpload(_) => Redirect(FavoritesPath)
                           case KeepStored => if id in old(crafts) then Redirect(FavoritesPath) else NoResponse
                           case NoUpdate => NoResponse
    {
      var imageUrl := upload;
      if session.None? {
        resp := ServerError;
        return;
      }
      if id in crafts {
        Posts.EditPostEffect(users, crafts, id, form, upload, bodyImageURL);
      }
      if imageUrl.Some? && imageUrl.value != "" {
        if id in crafts {
          crafts := crafts[id := Posts.EditCraft(crafts[id], form, imageUrl.value)];
        }
        resp := Redirect(FavoritesPath);
        return;
      }
      if bodyImageURL.None? {
        if id in crafts {
          var defaultUrl := crafts[id].imageURL;
          crafts := crafts[id := Posts.EditCraft(crafts[id], form, defaultUrl)];
          resp := Redirect(FavoritesPath);
        } else {
          // reading `imageURL` of a missing craft rejects the promise, and nothing answers
          resp := NoResponse;
        }
        return;
      }
      resp := NoResponse;
    }
  }
}
