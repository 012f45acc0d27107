/**
 * Post ownership, deletion and editing: the rules the add-post, delete-post
 * and edit-post handlers apply to the stored users and crafts.
 */
module Posts {
  import opened Documents
  import Favorites

  /**
   * Every stored craft names a stored user as its creator, and that user's
   * `posts` lists the craft.
   */
  ghost predicate Owned(users: map<UserId, User>, crafts: map<CraftId, Craft>)
  {
    forall cid :: cid in crafts ==> crafts[cid].createdBy in users && cid in users[crafts[cid].createdBy].posts
  }

  /** A craft id that no stored craft has and no user has favourited: what a newly generated ObjectId is. */
  ghost predicate FreshCraftId(users: map<UserId, User>, crafts: map<CraftId, Craft>, cid: CraftId)
  {
    cid !in crafts && forall uid :: uid in users ==> cid !in users[uid].favorites
  }

  /** Updates that keep every user's `posts` and every craft's creator keep ownership. */
  lemma FavoritesKeepOwned(users: map<UserId, User>, crafts: map<CraftId, Craft>,
                           users': map<UserId, User>, crafts': map<CraftId, Craft>)
    requires Owned(users, crafts)
    requires users'.Keys == users.Keys && crafts'.Keys == crafts.Keys
    requires forall uid :: uid in users ==> users'[uid].posts == users[uid].posts
    requires forall cid :: cid in crafts ==> crafts'[cid].createdBy == crafts[cid].createdBy
    ensures Owned(users', crafts')
  {
  }

  /** Adding a user leaves every craft owned. */
  lemma NewUserKeepsOwned(users: map<UserId, User>, crafts: map<CraftId, Craft>, id: UserId, u: User)
    requires Owned(users, crafts) && id !in users
    ensures Owned(users[id := u], crafts)
  {
  }

  // ------------------------------------------------------------- add post

  /** The craft document `Craft.create` stores for a submitted form. */
  function NewCraft(form: CraftForm, imageURL: string, creator: UserId): (r: Craft)
    ensures r.createdBy == creator && r.imageURL == imageURL && r.favoritedBy == []
    ensures r.title == form.title && r.category == form.category && r.description == form.description
    ensures r.materials == form.materials && r.instructions == form.instructions
  {
    Craft(form.title, imageURL, form.category, form.description, form.materials, form.instructions, creator, [])
  }

  /** The users after the creator's `posts` receives a `$push` of the new craft. */
  function AddPostUsers(users: map<UserId, User>, uid: UserId, cid: CraftId): (r: map<UserId, User>)
    requires uid in users
    ensures r.Keys == users.Keys
    ensures forall v :: v in users && v != uid ==> r[v] == users[v]
    ensures r[uid].posts == users[uid].posts + [cid]
    ensures r[uid].(posts := users[uid].posts) == users[uid]
  {
    users[uid := users[uid].(posts := users[uid].posts + [cid])]
  }

  /**
   * Adding a post: the new craft is owned by the session user and carries the
   * uploaded image, its id ends the creator's `posts`, no other user changes,
   * and the ownership and favourites invariants are kept.
   */
  lemma AddPostOwnership(users: map<UserId, User>, crafts: map<CraftId, Craft>,
                         uid: UserId, cid: CraftId, form: CraftForm, imageURL: string)
    requires uid in users && FreshCraftId(users, crafts, cid)
    requires Owned(users, crafts) && Favorites.Consistent(users, crafts)
    ensures var crafts' := crafts[cid := NewCraft(form, imageURL, uid)];
            var users' := AddPostUsers(users, uid, cid);
            && crafts'.Keys == crafts.Keys + {cid}
            && crafts'[cid].createdBy == uid && crafts'[cid].imageURL == imageURL
            && users'[uid].posts[|users'[uid].posts| - 1] == cid
            && Owned(users', crafts')
            && Favorites.Consistent(users', crafts')
  {
    var crafts' := crafts[cid := NewCraft(form, imageURL, uid)];
    var users' := AddPostUsers(users, uid, cid);
    forall c | c in crafts' ensures crafts'[c].createdBy in users' && c in users'[crafts'[c].createdBy].posts {
      if c != cid {
        var owner := crafts[c].createdBy;
        assert c in users[owner].posts;
        if owner == uid {
          assert users'[owner].posts == users[owner].posts + [cid];
        }
      }
    }
    forall v, c | v in users' && c in crafts' ensures Favorites.InSync(users', crafts', v, c) {
      if c != cid {
        assert Favorites.InSync(users, crafts, v, c);
      }
    }
  }

  // ----------------------------------------------------------- delete post

  /**
   * Deleting a post removes the craft and leaves every user as it was; the
   * favourites and ownership invariants still hold for the crafts that remain,
   * even though users may keep references to the deleted one.
   */
  lemma DeletePostOnlyRemovesCraft(users: map<UserId, User>, crafts: map<CraftId, Craft>, cid: CraftId)
    requires Owned(users, crafts) && Favorites.Consistent(users, crafts)
    ensures Owned(users, crafts - {cid}) && Favorites.Consistent(users, crafts - {cid})
  {
    var crafts' := crafts - {cid};
    forall v, c | v in users && c in crafts' ensures Favorites.InSync(users, crafts', v, c) {
      assert Favorites.InSync(users, crafts, v, c);
    }
  }

  // ------------------------------------------------------------- edit post

  /** Which image URL the edit handler stores. */
  datatype ImageChoice =
    | UseUpload(url: string)  // a new file was uploaded
    | KeepStored              // no upload and no `imageURL` in the body: keep the stored URL
    | NoUpdate                // no upload but the body carries `imageURL`: the handler updates nothing

  /**
   * The image decision of the edit handler. `upload` is the uploaded file's
   * URL when a file was sent; an empty URL is falsy and counts as no upload.
   * `bodyImageURL` is the form's own `imageURL` field when it is defined.
   */
  function ChooseImage(upload: Option<string>, bodyImageURL: Option<string>): (r: ImageChoice)
    ensures r.UseUpload? <==> upload.Some? && upload.value != ""
    ensures r.UseUpload? ==> r.url == upload.value
    ensures r.KeepStored? <==> !(upload.Some? && upload.value != "") && bodyImageURL.None?
  {
    if upload.Some? && upload.value != "" then UseUpload(upload.value)
    else if bodyImageURL.None? then KeepStored
    else NoUpdate
  }

  /** The craft with the form's text fields and the given image; owner and favourites untouched. */
  function EditCraft(c: Craft, form: CraftForm, imageURL: string): (r: Craft)
    ensures r.createdBy == c.createdBy && r.favoritedBy == c.favoritedBy
    ensures r.imageURL == imageURL
    ensures r.title == form.title && r.category == form.category && r.description == form.description
    ensures r.materials == form.materials && r.instructions == form.instructions
  {
    c.(title := form.title, imageURL := imageURL, category := form.category,
       description := form.description, materials := form.materials, instructions := form.instructions)
  }

  /** The crafts after the edit handler's update (an update of a missing id matches nothing). */
  function EditCrafts(crafts: map<CraftId, Craft>, id: CraftId, form: CraftForm, choice: ImageChoice): (r: map<CraftId, Craft>)
    ensures r.Keys == crafts.Keys
    ensures forall c :: c in crafts && c != id ==> r[c] == crafts[c]
  {
    if id !in crafts then crafts
    else match choice
      case UseUpload(url) => crafts[id := EditCraft(crafts[id], form, url)]
      case KeepStored => crafts[id := EditCraft(crafts[id], form, crafts[id].imageURL)]
      case NoUpdate => crafts
  }

  /**
   * What an edit does to the edited craft: with an upload the image becomes
   * the upload, without one the stored image is kept, and when the body
   * carries its own `imageURL` nothing changes. The creator and the
   * favourites are never changed, so both invariants are kept.
   */
  lemma EditPostEffect(users: map<UserId, User>, crafts: map<CraftId, Craft>, id: CraftId, form: CraftForm,
                       upload: Option<string>, bodyImageURL: Option<string>)
    requires id in crafts
    requires Owned(users, crafts) && Favorites.Consistent(users, crafts)
    ensures var r := EditCrafts(crafts, id, form, ChooseImage(upload, bodyImageURL));
            && (upload.Some? && upload.value != "" ==>
                  r[id].imageURL == upload.value && r[id] == EditCraft(crafts[id], form, upload.value))
            && (!(upload.Some? && upload.value != "") && bodyImageURL.None? ==>
                  r[id].imageURL == crafts[id].imageURL && r[id] == EditCraft(crafts[id], form, crafts[id].imageURL))
            && (!(upload.Some? && upload.value != "") && bodyImageURL.Some? ==> r == crafts)
            && r[id].createdBy == crafts[id].createdBy && r[id].favoritedBy == crafts[id].favoritedBy
            && Owned(users, r) && Favorites.Consistent(users, r)
  {
    var r := EditCrafts(crafts, id, form, ChooseImage(upload, bodyImageURL));
    forall v, c | v in users && c in r ensures Favorites.InSync(users, r, v, c) {
      assert Favorites.InSync(users, crafts, v, c);
    }
  }
}
