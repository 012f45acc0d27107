# The Art Box: the store rules of the auth and site routers

The Art Box is a crafts site. Visitors browse craft posts by category. Registered users sign up, log in, create and edit posts, and mark posts as favourites. This project models the state-changing part of its two Express routers (`routes/authRouter.js` and `routes/siteRouter.js`) as rules on an abstract picture of the MongoDB store:

- **users**: a map from id to a user document. Each user has a username, an email, a bcrypt password hash, `posts` and `favorites`.
- **crafts**: a map from id to a craft document. Each craft has its text fields, `imageURL`, `createdBy` and `favoritedBy`.
- **session**: the requester's session slot, holding the current user's id or nothing.

MongoDB's `$push` is sequence append. `$pull` (`Documents.Pull`) removes every occurrence of a value and keeps the order of the rest (`Documents.PullConcat`).

Layout:

- `documents.dfy` (module `Documents`): the documents and `$pull`.
- `responses.dfy` (module `Responses`): the abstract answer of a request. It is a rendered form with its error message, a redirect, an error thrown synchronously in the handler (`ServerError`), or no answer at all (`NoResponse`).
- `favorites.dfy` (module `Favorites`): save and unsave on both sides of the relation, and the membership invariant "craft ∈ user.favorites ⇔ user ∈ craft.favoritedBy".
- `posts.dfy` (module `Posts`): add, delete and edit, the ownership invariant, and the edit handler's image choice.
- `search.dfy` (module `Search`): the term the craft search matches titles against.
- `auth.dfy` (module `Auth`): the signup and login decision chains. bcrypt and zxcvbn appear as arrow-typed parameters.
- `site.dfy` (module `Site`): class `Store`, with one method per state-changing handler. Each method states its new state through the functions above. `Store.Valid()` says five things: the session user exists, the favourites relation is in sync for every stored pair, every craft is listed in its creator's `posts`, usernames are unique, and no user's `favorites` lists a craft twice. Every method keeps `Valid()`.

The handlers start store updates that they never await. Each handler is modelled as one sequential step, in this order:

- `savePost` and `unsavePost` update the craft first, then the user. These are two different documents, so the final state does not depend on the order.
- In `signup`, the email lookup is taken to answer before the username lookup. The response is the first answer sent.

The model keeps these behaviours of the code, though a reader might expect otherwise:

- **Email check.** Signup's email check does not gate creation. A taken email sends "The email already exists", and the user is still created when the username is free (`Auth.SignupEmailDoesNotGate`, `Auth.SignupCanDuplicateEmail`).
- **Duplicates in `favoritedBy`.** Saving pushes the user onto `favoritedBy` unconditionally, so duplicates occur there (`Favorites.SaveTwiceCrafts`). Only the user side is checked with `includes`.
- **Deletion.** Deleting a post removes the craft only. Users keep their references to it (`Site.Store.DeletePost` leaves the users unchanged; `Posts.DeletePostOnlyRemovesCraft` shows both invariants survive).
- **No login guard.** `POST /addPost` and `POST /editPost` have no login guard. Without a session user they throw before storing anything.
- **No response from savePost.** `savePost` never answers, because its redirect is commented out.

## Model

| member | source | states |
|---|---|---|
| Documents.Pull | routes/siteRouter.js:151-166 | `$pull` removes every occurrence and nothing else: the result's multiset is the input's with that value's count set to zero. Membership is the input's minus the value. An absent value leaves the sequence unchanged. |
| Documents.PullAfterPush | routes/siteRouter.js:117-166 | Pulling a value right after pushing it gives the same sequence as pulling it from the original. |
| Documents.PullNoDuplicates | routes/siteRouter.js:161-166 | Pulling keeps a duplicate-free sequence duplicate-free. |
| Documents.PullConcat | routes/siteRouter.js:151-166 | `$pull` keeps the order of the other elements: pulling from a concatenation is pulling from each part, and a single element other than the pulled value stays. |
| Documents.PullTwice | routes/siteRouter.js:151-166 | Pulling twice is the same as pulling once. |
| Favorites.SaveUser | routes/siteRouter.js:127-144 | After saving, the craft is in the user's favourites. A craft already listed leaves the user unchanged; otherwise it is appended at the end. No other field of the user changes. |
| Favorites.SaveCraft | routes/siteRouter.js:117-121 | Saving always appends the user to `favoritedBy`: the sequence grows by exactly one, the old prefix is kept, and the new last entry is the user. No other field changes. |
| Favorites.SaveUsers | routes/siteRouter.js:127-144 | Saving changes only the saving user's document. |
| Favorites.SaveCrafts | routes/siteRouter.js:117-121 | Saving changes only the saved craft. An id that names no craft changes nothing. |
| Favorites.UnsaveUser | routes/siteRouter.js:161-166 | After unsaving, no occurrence of the craft is left in the favourites and every other entry remains. If the craft was absent, the user is unchanged. |
| Favorites.UnsaveCraft | routes/siteRouter.js:151-155 | After unsaving, no occurrence of the user is left in `favoritedBy` and every other entry remains. If the user was absent, the craft is unchanged. |
| Favorites.UnsaveUsers | routes/siteRouter.js:161-166 | Unsaving changes only the unsaving user's document. |
| Favorites.UnsaveCrafts | routes/siteRouter.js:151-155 | Unsaving changes only the unsaved craft. An id that names no craft changes nothing. |
| Favorites.SaveRelatesPair | routes/siteRouter.js:117-143 | After a save, the craft is in the user's favourites and the user is in the craft's `favoritedBy`, so the pair satisfies the biconditional whatever its state before. |
| Favorites.UnsaveUnrelatesPair | routes/siteRouter.js:151-166 | After an unsave, neither side mentions the other. If an entry was absent, that side is unchanged. |
| Favorites.SavePreservesConsistent | routes/siteRouter.js:113-145 | Saving keeps the biconditional for every stored (user, craft) pair. |
| Favorites.UnsavePreservesConsistent | routes/siteRouter.js:147-173 | Unsaving keeps the biconditional for every stored (user, craft) pair. |
| Favorites.NewUserKeepsConsistent | routes/authRouter.js:69-73 | A newly created user has no favourites and no craft lists them, so every pair stays in sync. |
| Favorites.SaveTwiceUsers | routes/siteRouter.js:127-137 | Saving twice leaves the users exactly as saving once (the `includes` check). |
| Favorites.SaveTwiceCrafts | routes/siteRouter.js:117-121 | Saving twice appends the user to `favoritedBy` twice, so duplicates occur there. |
| Favorites.SaveKeepsFavoritesDuplicateFree | routes/siteRouter.js:128-137 | Saving never introduces a duplicate into a duplicate-free favourites list. |
| Favorites.SavePreservesDuplicateFree | routes/siteRouter.js:128-137 | Saving keeps every user's favourites duplicate-free. |
| Favorites.UnsavePreservesDuplicateFree | routes/siteRouter.js:161-166 | Unsaving keeps every user's favourites duplicate-free. |
| Favorites.UnsaveAfterSaveUser | routes/siteRouter.js:113-173 | Unsaving after saving gives the same user as unsaving alone. |
| Favorites.UnsaveAfterSaveCraft | routes/siteRouter.js:113-173 | Unsaving after saving gives the same craft as unsaving alone. |
| Favorites.SaveMissingCraftDangles | routes/siteRouter.js:117-143 | Saving an id that names no craft leaves the crafts alone, yet the id is still recorded in the user's favourites. |
| Favorites.SaveThenUnsaveScenario | routes/siteRouter.js:113-173 | A user saves a craft: the favourites become [craft] and `favoritedBy` becomes [user]. Unsaving then empties both. |
| Posts.FavoritesKeepOwned | routes/siteRouter.js:113-173 | Updates that change neither `posts` nor `createdBy` keep every craft owned. |
| Posts.NewUserKeepsOwned | routes/authRouter.js:69-73 | Adding a user keeps every craft owned. |
| Posts.NewCraft | routes/siteRouter.js:83-91 | The created craft carries the form's fields and the upload URL, is created by the session user, and is favourited by nobody. |
| Posts.AddPostUsers | routes/siteRouter.js:95-99 | The new craft id is appended to the end of the creator's `posts`. Nothing else about any user changes. |
| Posts.AddPostOwnership | routes/siteRouter.js:69-111 | Adding a post adds exactly one craft. Its `createdBy` is the session user, its image is the upload, and its id is the last of the creator's `posts`. Ownership and the favourites relation stay intact. |
| Posts.DeletePostOnlyRemovesCraft | routes/siteRouter.js:175-183 | Both invariants still hold for the crafts that remain after the deleted one is removed, with the users untouched. That the users are untouched, so dangling ids remain, is `Site.Store.DeletePost`'s `users == old(users)`. |
| Posts.ChooseImage | routes/siteRouter.js:199-249 | The edit uses the upload exactly when a non-empty upload URL is present. It keeps the stored image exactly when there is no upload and the body has no `imageURL`. Otherwise nothing is updated. |
| Posts.EditCraft | routes/siteRouter.js:214-247 | An edited craft takes the form's text fields and the chosen image, and keeps its creator and its `favoritedBy`. |
| Posts.EditCrafts | routes/siteRouter.js:214-249 | An edit changes at most the edited craft. It never adds or removes crafts. |
| Posts.EditPostEffect | routes/siteRouter.js:199-250 | With an upload, the craft becomes the stored craft edited with the form and the upload URL. Without an upload or a body `imageURL`, it becomes the stored craft edited with the form and its own stored URL. In both cases `EditCraft` replaces all five text fields. With a body `imageURL` and no upload, nothing changes. `createdBy` and `favoritedBy` never change, and both invariants hold. |
| Search.UpperCase | routes/siteRouter.js:254 | The result is never a lower-case ASCII letter. A lower-case letter becomes the same letter in upper case. Every other character is unchanged. |
| Search.SearchTerm | routes/siteRouter.js:252-256 | The term has the query's length and the query's characters after the first. Its first character is the query's first, upper-cased. The empty query gives the empty term. |
| Search.SearchTermIdempotent | routes/siteRouter.js:253-256 | Building a term from a term changes nothing. |
| Search.SearchTermEqual | routes/siteRouter.js:253-256 | Two non-empty queries give the same term exactly when their first characters upper-case alike and the rest are equal. |
| Auth.UserNamed | routes/authRouter.js:104 | The username lookup finds nothing exactly when no user has that name. Otherwise it finds a stored user with that name. |
| Auth.UserNamedIsUnique | routes/authRouter.js:104-111 | When usernames are unique, the lookup finds exactly the user with that name. |
| Auth.NewUser | routes/authRouter.js:69-73 | The created user has the given username and email and the hashed password, with no posts and no favourites. |
| Auth.DecideSignup | routes/authRouter.js:20-82 | Signup creates a user exactly when both fields are non-empty, the strength score is at least 1, and the username is free. The email plays no part. It redirects to `/auth/login` exactly when it creates and the email was free. Every other outcome re-renders the signup form. |
| Auth.SignupRejections | routes/authRouter.js:27-62 | The checks run in order, each with its own message: empty fields ("Enter username and password"), then a weak password ("Password too weak. Try again!"), then the email, then the username. Empty fields, a weak password and a taken username create no user. |
| Auth.SignupEmailDoesNotGate | routes/authRouter.js:43-73 | Whether signup creates a user does not depend on the email lookup. |
| Auth.SignupKeepsUsernamesUnique | routes/authRouter.js:55-73 | A successful signup adds exactly one user under the new id and keeps usernames unique. Afterwards the username lookup finds that user. |
| Auth.SignupCanDuplicateEmail | routes/authRouter.js:43-73 | A concrete run: signing up with a free username and a taken email decides to create, and the users that decision yields hold two users with the same email, while the response says the email exists. |
| Auth.DecideLogin | routes/authRouter.js:92-123 | Login succeeds exactly when both fields are non-empty, the user exists, and the password matches the stored hash. Every failure carries one of the three login messages. |
| Auth.LoginResponse | routes/authRouter.js:95-122 | Success redirects to `/`. A failure re-renders the login form with its message. |
| Auth.LoginFailures | routes/authRouter.js:95-122 | The three failures: empty fields give "Please enter username and password", an unknown user gives "The username doesn't exist", and a wrong password gives "Incorrect password". |
| Auth.SignupThenLogin | routes/authRouter.js:64-119 | If bcrypt is sound, a user created by signup logs in with the same username and password: the lookup finds the new user and the password check passes. |
| Site.Store.Signup | routes/authRouter.js:20-82 | The response and the created user follow `DecideSignup` on the current store. The new user's stored password is `hash(password, salt)` with 10 salt rounds. The session and the crafts are untouched. |
| Site.Store.Login | routes/authRouter.js:92-124 | The response follows `DecideLogin` for the user with that name. The session becomes that user only on success and is otherwise unchanged. The store is untouched. |
| Site.Store.Logout | routes/authRouter.js:129-140 | A successful destroy clears the session and redirects to `/auth/login`. A failed destroy keeps the session and sends no response. |
| Site.Store.AddPost | routes/siteRouter.js:69-111 | A missing upload or a missing session user throws and stores nothing. Otherwise the new craft is stored, its id is appended to the creator's `posts`, and the handler redirects to `/favorites`. |
| Site.Store.SavePost | routes/siteRouter.js:113-145 | The new users and crafts are the save rules applied to the session user and the craft id. The handler sends no response. |
| Site.Store.UnsavePost | routes/siteRouter.js:147-173 | The new users and crafts are the unsave rules applied to the session user and the craft id. The handler redirects to `/favorites`. |
| Site.Store.DeletePost | routes/siteRouter.js:175-183 | The craft is removed, the users are unchanged, and the handler redirects to `/favorites`. |
| Site.Store.EditPost | routes/siteRouter.js:199-250 | Without a session user it throws and changes nothing. Otherwise the crafts follow the image choice. It redirects after an update with an upload, or after keeping an existing craft's image. It sends nothing when the craft is missing in the keep branch, or when the body carries `imageURL`. |

## Left out

- Rendering, redirect mechanics and logging are left out. A request's answer is the abstract `Response` value.
- The read-only handlers only fetch and render, so they are left out: `GET /results/:category`, `GET /details/:id`, `GET /favorites`, and the GET forms for adding and editing a post.
- The Cloudinary upload middleware is left out. The upload is an optional URL parameter.
- The craft search's `$regex` match over titles is left out. Only the search term is modelled.
- Search.UpperCase: upper-cases ASCII letters only. JavaScript's `toUpperCase` also maps other characters, and some of those mappings change the length ('ß' becomes "SS").
- bcrypt and zxcvbn are foreign libraries. They are parameters. The model does not check that a hash differs from its plaintext.
- ObjectId generation is a parameter. The caller supplies a fresh id, one the store does not already use. Errors from casting malformed ids are left out.
- Concurrency is left out: each request runs as one sequential step. The race between two signups with the same username is therefore not modelled. Username uniqueness in `Store.Valid()` holds only for requests that do not overlap.
- Store failures are left out: every store operation succeeds in the model. The only failure modelled is the session store's destroy error. Most store calls in the source log a failure and carry on. Four lookups have no error handler, so a failure there is an unhandled promise rejection that nothing logs and that can end the process: the login `User.findOne` (routes/authRouter.js:104-123), the user lookups of save and unsave (routes/siteRouter.js:127-144 and 161-172), and the edit handler's `Craft.findById` (routes/siteRouter.js:232-247).
- Site.Store.EditPost: reading `imageURL` of a missing craft (routes/siteRouter.js:233) throws inside that same handler-less promise. The model records only what follows: no answer and no change to the store. The process ending is not modelled.
- Site.Store.Login: keeps only the user's id in the session. The source stores a snapshot of the whole user document, but the handlers read only its `_id`.
- There is one session in the model: the requester's. Cookies and session persistence are left out.
- The body of the `isLoggedIn` guard is not part of this model. The guarded handlers require a present session.
- Form fields are always strings. A missing (`undefined`) field is not modelled, nor is a missing search query, which throws in the source.
- In signup, a second answer after the first one was sent fails with "headers already sent". The model keeps only the first answer. The user is still created.
- `models/User.model.js` and `models/Craft.model.js` are not part of this model, so schema validation and unique indexes are not modelled.
