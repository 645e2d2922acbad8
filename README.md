# eduse-backend: authentication, gates and listing routes in Dafny

This project models the request-handling core of the eduse marketplace
backend, an Express and Mongo service. Users and sellers register and log in.
Bearer-token middlewares protect the seller and admin routes. Sellers create,
update and delete their own products and courses. Admins list and delete
users.

Each handler is modelled as an ordered decision pipeline over in-memory
tables. The collaborators the handlers call are abstract:

- **Password hashing** (bcrypt) is a `hash` function. `Match(pw, h)` holds
  exactly when `h == hash(pw)`.
- **Tokens** (jsonwebtoken) come from an `issue` and a `verify` function. The
  assumption `Sound` says a freshly issued token verifies to its own claims
  and contains no space.
- **Each collection** is a class holding a sequence of records in insertion
  order and a clock. Ids and creation stamps are drawn from the clock, so
  "sorted by createdAt, newest first" is the reversed sequence.

A handler's outcome is a `Reply`:

- `Sent`: a success body.
- `Refused`: an error body the handler writes itself.
- `Raised`: an error thrown to the error middleware, with the status set
  beforehand, if any.

Every handler that changes a table has two forms:

- a pure function returning the reply and the table afterwards;
- a method on the collection class, proved equal to that function.

The middlewares are methods on a `Request` object. They set `req.user` or
`req.seller` and return the events they caused: calling the next handler, or
sending one response. Each middleware is proved to cause exactly one event.

Modules, one per file:

- `Wrappers`, `Http`, `Crypto`, `Text`, `Tables`: option and result types,
  replies, the abstract collaborators, the JavaScript string operations used,
  and the sequence queries used.
- `UserModel`, `SellerModel`, `ListingModel`: the User collection, the Seller
  schema and collection, and the shared Course and Product schema and
  collection.
- `AuthController`, `SellerAuthController`: the user and seller
  authentication handlers.
- `Requests`, `AuthMiddleware`, `SellerAuthMiddleware`: the request object and
  the bearer-token gates.
- `Upload`: the image upload step.
- `ListingRoutes`, `AdminRoutes`: the product and course routers (one module,
  parameterised by `Kind`) and the admin router.

Two properties of the code as written stand out.

- **No seller registration can ever be stored.** The registration handler
  demands that the raw email end in "@edu.com". The Seller schema lower-cases
  and trims the email, then demands that it end in "@edu". A string ending in
  "@edu.com" ends in 'm', so it cannot end in "@edu", which ends in 'u'.
  `SellerAuthController.RegistrationNeverPersists` proves that every request
  reaching `Seller.create` fails validation and leaves the table unchanged.
- **No seller login can succeed against a table of schema-valid sellers.**
  `SellerAuthController.LoginNeverSucceedsOnSchemaValidTable` proves this.

## Model

| member | source | states |
|---|---|---|
| Crypto.Verify | middleware/authMiddleware.js:10-11 | a missing or empty token never verifies |
| Crypto.IssuedVerifies | controllers/authController.js:5-6 | under `Sound`, every issued token verifies to the claims it was issued for |
| Text.TrimIdempotent | models/sellerModel.js:9 | trimming an already trimmed string changes nothing |
| Text.SecondPieceOfJoin | middleware/authMiddleware.js:10 | `split(" ")[1]` of "Bearer " + token is the token when the token has no space |
| Text.LowerKeepsSuffix | models/sellerModel.js:15 | lower-casing keeps a suffix that is already lower case |
| Text.TrimKeepsSuffix | models/sellerModel.js:16 | trimming keeps a suffix that neither starts nor ends with white space |
| Tables.Window | routes/adminRoutes.js:70-71 | skip and limit give at most `count` records, the ones from position `skip` on |
| Tables.ReverseIsNewestFirst | routes/productRoutes.js:75 | with increasing stamps, the reversed table is sorted newest first |
| Tables.RemoveOnlyThat | routes/productRoutes.js:181 | removing the record found for an id keeps exactly the records with other ids |
| Tables.FilterMembers | routes/productRoutes.js:73 | a record is in the filtered table exactly when it is in the table and satisfies the filter |
| Tables.FilterPreservesIncreasing | routes/productRoutes.js:88-93 | filtering keeps increasing stamps increasing, so a filtered listing stays newest first once reversed |
| UserModel.FindByEmail | controllers/authController.js:22 | finds a user with exactly that email, or reports that none has it |
| UserModel.FindById | middleware/authMiddleware.js:14 | finds the user with that id, or reports that none has it |
| UserModel.AllWithoutPassword | routes/adminRoutes.js:68 | the same users in the same order, each without its password |
| UserModel.UserCollection.Create | controllers/authController.js:26-31 | appends one user with the next id and stamp and keeps ids and stamps increasing |
| UserModel.UserCollection.FindByIdAndDelete | routes/adminRoutes.js:102 | removes exactly the user with that id, if any, and keeps the invariant |
| AuthController.GenerateToken | controllers/authController.js:5-6 | the token verifies to the id and the role |
| AuthController.RoleOrUser | controllers/authController.js:68-69 | an unset or empty role reads as "user" |
| AuthController.Registration | controllers/authController.js:9-43 | 400 on a missing field; success exactly when the email is not @admin.com and not yet present; success appends one user with role "user" and the password's hash; every failure leaves the table unchanged |
| AuthController.AdminEmailCannotRegister | controllers/authController.js:16-20 | an @admin.com email gets 403 whatever the password and the table |
| AuthController.ExistingEmailCannotRegister | controllers/authController.js:22-23 | an email already present gets 400 and the table is unchanged |
| AuthController.RegistrationTokenVerifies | controllers/authController.js:33-39 | the token returned on registration verifies to the new id with role "user" |
| AuthController.RegisterUser | controllers/authController.js:9-43 | the handler on the collection gives exactly the reply and the table of `Registration` |
| AuthController.LoginUser | controllers/authController.js:46-77 | success exactly when the user exists, the email is not @admin.com and the password matches; the role defaults to "user"; @admin.com gets 403 |
| AuthController.LoginFailuresIndistinguishable | controllers/authController.js:61-73 | an unknown email and a wrong password get the same 401 and the same message |
| AuthController.AdminLogin | controllers/authController.js:80-123 | success exactly when the email is @admin.com, the user exists, its role is "admin" and the password matches |
| AuthController.AdminLoginChecksInOrder | controllers/authController.js:84-119 | each check gives its own status and message, and the role is checked before the password |
| AuthController.AdminTokenVerifies | controllers/authController.js:109-116 | an admin token verifies to the admin's id with role "admin" |
| AuthController.GetProfile | controllers/authController.js:126-133 | the stored user with the principal's id, without its password |
| SellerModel.Violations | models/sellerModel.js:5-39 | no violation exactly when every schema constraint holds; an email that does not end in "@edu" after normalising is reported |
| SellerModel.ShortPasswordRefused | models/sellerModel.js:27 | a password shorter than six characters is reported and the input does not conform |
| SellerModel.NewSeller | models/sellerModel.js:40-63 | the stored email is normalised and ends in "@edu"; the defaults are unverified, active, empty image and zero totals |
| SellerModel.FindByEmail | models/sellerModel.js:15-16 | the lookup compares against the lower-cased, trimmed filter value |
| SellerModel.FindById | middleware/sellerAuthMiddleware.js:16 | finds the seller with that id, or reports that none has it |
| SellerModel.SuffixesClash | models/sellerModel.js:18-20 | no string ends both in "@edu.com" and in "@edu" |
| SellerModel.HandlerSuffixFailsSchema | models/sellerModel.js:18-20 | an email ending in "@edu.com" still does after normalising, so it fails the "@edu" validator |
| SellerModel.ConformingEmailFailsHandlerGate | controllers/sellerAuthController.js:31 | an email the schema accepts never passes the handlers' "@edu.com" gate |
| SellerModel.SellerDocument.PreSave | models/sellerModel.js:69-77 | hashes the password only when it was modified |
| SellerModel.SellerDocument.Save | models/sellerModel.js:69-82 | after saving, nothing is modified; a modified password is stored hashed and then matches the plain password; an unmodified one is left as it was |
| SellerModel.SellerCollection.Create | controllers/sellerAuthController.js:50-57 | validation, then the pre-save hook, then the insert; equals `Created` and keeps the table invariant |
| SellerModel.Created | models/sellerModel.js:5-77 | a non-conforming input fails with its violations and changes nothing; success appends one record holding the password's hash |
| SellerModel.CreatedOutcome | models/sellerModel.js:11-17 | creation succeeds exactly when the input conforms and no stored email equals the normalised one; the stored record is the schema's defaults with the hash; a taken email fails with the duplicate-email error and changes nothing |
| SellerModel.CreatedMatchesOwnPassword | models/sellerModel.js:80-82 | a created seller's hash matches the password it was created with |
| SellerModel.CreatedWellFormed | models/sellerModel.js:11-23 | creating keeps ids and stamps increasing and every email ending in "@edu" |
| AuthMiddleware.Authenticate | middleware/authMiddleware.js:5-27 | 401 "no token" without a Bearer header, 401 "token failed" when the token does not verify; passes exactly when the token's id resolves, with that user without its password |
| AuthMiddleware.IssuedTokenAuthenticates | middleware/authMiddleware.js:8-20 | a token issued to a stored user passes with that user, whatever the role claim |
| AuthMiddleware.IsAdmin | middleware/authMiddleware.js:30-51 | 401 without a principal, 403 unless the role is "admin", otherwise passes |
| AuthMiddleware.AuthenticateAdmin | middleware/authMiddleware.js:33-42 | authMiddleware then isAdmin passes exactly when the token's user has the stored role "admin" |
| AuthMiddleware.AdminGateIgnoresRoleClaim | middleware/authMiddleware.js:38 | the admin decision depends on the stored role, not the token's role claim |
| AuthMiddleware.Protect | middleware/authMiddleware.js:5-27 | exactly one event, the one `Authenticate` decides; `req.user` is the principal on success |
| SellerAuthMiddleware.AuthenticateSeller | middleware/sellerAuthMiddleware.js:4-49 | the three 401s and the 403; passes exactly when the token's id resolves to an active seller, which is attached without its password |
| SellerAuthMiddleware.DeactivatedSellerRefused | middleware/sellerAuthMiddleware.js:26-31 | a deactivated seller gets 403 even with a valid token of its own |
| SellerAuthMiddleware.ActiveSellerPasses | middleware/sellerAuthMiddleware.js:16-33 | an active seller with an issued token passes, without its password |
| AuthMiddleware.BearerRoundTrip | middleware/authMiddleware.js:8-11 | "Bearer " + an issued token passes the prefix check and decodes to the token's claims |
| Tables.KeyFindsOwnRecord | middleware/authMiddleware.js:14 | `findById(decoded.id)` on a table with strictly increasing ids finds the record that id was taken from |
| SellerAuthMiddleware.ProtectSeller | middleware/sellerAuthMiddleware.js:4-49 | the mutable token and the trailing check still give exactly one event, the one `AuthenticateSeller` decides; `req.seller` is set as the source sets it |
| SellerAuthController.GenerateToken | controllers/sellerAuthController.js:6-8 | the token verifies to the id with no role claim |
| SellerAuthController.Registration | controllers/sellerAuthController.js:13-77 | required fields, then "@edu.com", then password confirmation, then existence, each a 400 thrown with its message; only success changes the table |
| SellerAuthController.RegistrationNeverPersists | controllers/sellerAuthController.js:31-57 | the table never changes and no registration succeeds; a request that passes every handler check gets the schema's email violation |
| SellerAuthController.MismatchedConfirmationRefused | controllers/sellerAuthController.js:37-40 | a differing confirmation gets 400 "Passwords do not match" and nothing is created |
| SellerAuthController.RegisterSeller | controllers/sellerAuthController.js:13-77 | the handler on the collection gives exactly the reply and the table of `Registration` |
| SellerAuthController.LoginSeller | controllers/sellerAuthController.js:82-128 | success exactly when the raw email ends in "@edu.com", the seller exists and the password matches; every failure is a 400 thrown |
| SellerAuthController.LoginFailuresIndistinguishable | controllers/sellerAuthController.js:99-109 | an unknown email and a wrong password get the same 400 and message |
| SellerAuthController.LoginNeverSucceedsOnSchemaValidTable | controllers/sellerAuthController.js:92-102 | against sellers whose emails passed the schema, every login gets "Invalid email or password" or an earlier error |
| SellerAuthController.LoginTokenVerifies | controllers/sellerAuthController.js:115 | a login token verifies to the seller's id with no role |
| Upload.ExtName | routes/productRoutes.js:27 | the extension is empty or a suffix of the name that starts with its only dot |
| Upload.Receive | routes/productRoutes.js:22-33 | no file passes as none; the filter runs before the 5 MiB limit; each refusal is thrown with its message |
| Upload.MimeMatchIsUnanchored | routes/productRoutes.js:26-28 | text around an accepted MIME type is accepted too |
| Upload.ExtNameOfLastComponent | routes/productRoutes.js:27 | the extension of a path is that of its last component, whatever directories precede it |
| Upload.DotDotHasNoExtension | routes/productRoutes.js:27 | the name "..", alone or as the last path component, has the empty extension, as Node's `extname` gives |
| Upload.ExtNameOfStemAndExtension | routes/productRoutes.js:27 | "stem.ext" has extension ".ext" |
| Upload.ExtensionMatchIsUnanchored | routes/courseRoutes.js:26-27 | any extension containing "png" in any case passes with an image MIME type |
| ListingModel.Violations | models/productModel.js:3-49 | no violation exactly when every path meets its constraint; negative prices are reported |
| ListingModel.NegativePriceRefused | models/productModel.js:23-27 | a negative price makes the fields fail validation |
| ListingModel.LevelViolations | models/courseModel.js:46-50 | a level passes exactly when it is Beginner, Intermediate or Advanced |
| ListingModel.Defaults | models/courseModel.js:42-54 | a product has no course paths and a course has them; the default level passes the enum |
| ListingModel.NewListing | models/courseModel.js:3-62 | a new record meets the schema, holds the trimmed text paths and the prices, and gets the defaults of its kind |
| ListingModel.Updated | routes/productRoutes.js:154-157 | an update rewrites the listing paths and keeps id, owner, type, stamp and course paths |
| ListingModel.UpdatedWithOwnFields | routes/productRoutes.js:154-157 | writing back a record's own fields changes nothing |
| ListingModel.FindIndex | routes/productRoutes.js:130 | the position of the record with that id, or none |
| ListingModel.ListingCollection.Create | routes/productRoutes.js:46-59 | appends the new record with the next id and stamp, keeping the invariant |
| ListingModel.ListingCollection.UpdateAt | routes/productRoutes.js:154-157 | replaces one record by its update, keeping the invariant |
| ListingModel.ListingCollection.DeleteAt | routes/productRoutes.js:181 | removes one record, keeping the invariant |
| ListingRoutes.ParseFloat | routes/productRoutes.js:51 | an absent or empty price parses to NaN |
| ListingRoutes.ImagePath | routes/productRoutes.js:54 | the stored path is the router's upload directory followed by the file name |
| ListingRoutes.CreateFields | routes/productRoutes.js:40-58 | the original price is the sent one when truthy, else the price; the image is the upload's path |
| ListingRoutes.Create | routes/productRoutes.js:38-66 | 400 without a file; 400 with the violations; otherwise 201 and exactly one appended record: the fields from the body and the image path, owned by the caller, with the router's type and the clock's id and stamp |
| ListingRoutes.CreateRoute | routes/productRoutes.js:38 | the seller gate runs first, then the upload, then the handler; once both pass, the outcome is exactly `Create` for the authenticated seller's id |
| ListingRoutes.CreatedListingHasActiveOwner | routes/courseRoutes.js:37-56 | every created record's owner is an active seller in the Seller table |
| ListingRoutes.Merged | routes/productRoutes.js:140-152 | each field is the truthy body value or the stored one; the image changes only with a file |
| ListingRoutes.Update | routes/productRoutes.js:128-164 | 404, then 403 for a non-owner, then 400 for invalid merged fields, each leaving the table unchanged; it succeeds exactly when the record exists, the caller owns it and the merged fields conform; success rewrites only that record and keeps its id, owner, stamp and type |
| ListingRoutes.MergedPathByPath | routes/courseRoutes.js:130-142 | an accepted update stores the trimmed body value where one was sent and the stored value otherwise |
| ListingRoutes.UpdateMergesFieldByField | routes/courseRoutes.js:144 | a successful update stores the merged fields of the record found by id |
| ListingRoutes.NegativePriceUpdateRefused | routes/productRoutes.js:154-163 | an owner's update with a negative price gets 400 with the price violation and changes nothing |
| ListingRoutes.EmptyUpdateChangesNothing | routes/productRoutes.js:140-157 | an update with no fields and no file returns the record unchanged |
| ListingRoutes.UpdateRoute | routes/productRoutes.js:128 | once the seller gate and the upload pass, the outcome is exactly `Update` for the authenticated seller's id; only that owner changes the table, and the table invariant is kept |
| ListingRoutes.Delete | routes/productRoutes.js:169-188 | 404, then 403 for a non-owner; success exactly for the owner, removing that record |
| ListingRoutes.DeleteRemovesExactlyOne | routes/courseRoutes.js:167-168 | an owner's delete keeps exactly the records with other ids and the table invariant |
| ListingRoutes.DeleteRoute | routes/courseRoutes.js:155 | once the seller gate passes, the outcome is exactly `Delete` for the authenticated seller's id; only that owner changes the table |
| ListingRoutes.GetOne | routes/productRoutes.js:109-123 | 200 with the record exactly when the id exists, else 404 |
| ListingRoutes.ListAll | routes/courseRoutes.js:67-77 | the course listing is the whole table newest first; the count is the length |
| ListingRoutes.ListBySeller | routes/productRoutes.js:86-104 | the count is the length of the returned list |
| ListingRoutes.ListAllMembers | routes/productRoutes.js:73 | the product listing holds exactly the records tagged "product"; the course listing holds every record |
| ListingRoutes.ListBySellerMembers | routes/courseRoutes.js:84-87 | a seller listing holds exactly that seller's records of the router's type |
| ListingRoutes.ListingsNewestFirst | routes/productRoutes.js:75 | both listings are in strictly decreasing creation order |
| ListingRoutes.ListAllAfterAppend | routes/productRoutes.js:46-75 | a newly appended record of the router's type goes in front of the listing of all records |
| ListingRoutes.ListBySellerAfterAppend | routes/productRoutes.js:88-93 | a newly appended record goes in front of its seller's listing |
| ListingRoutes.GetOneAfterAppend | routes/productRoutes.js:111 | a newly appended record with a fresh id is what its id finds |
| ListingRoutes.CreatedComesFirst | routes/productRoutes.js:46-61 | what a create stores comes first in both listings and is found by its id |
| ListingRoutes.CreateListing | routes/productRoutes.js:38-66 | protectSeller, the upload and the handler on the collection give exactly `CreateRoute` |
| ListingRoutes.UpdateListing | routes/productRoutes.js:128-164 | protectSeller, the upload and the handler on the collection give exactly `UpdateRoute` |
| ListingRoutes.DeleteListing | routes/productRoutes.js:169-188 | protectSeller and the handler on the collection give exactly `DeleteRoute` |
| AdminRoutes.CheckAdmin | routes/adminRoutes.js:10-26 | 404 when the principal is gone, 403 unless its stored role is "admin", otherwise passes |
| AdminRoutes.AdminGateMatchesMiddleware | routes/adminRoutes.js:12-22 | on the table authMiddleware read, the 404 never happens and the router's gate equals authMiddleware followed by isAdmin |
| AdminRoutes.ParseOr | routes/adminRoutes.js:63-64 | a query that is not a number, or is 0, takes the default |
| AdminRoutes.Pages | routes/adminRoutes.js:80 | the ceiling of total over limit: for a positive limit, `(pages-1)*limit < total <= pages*limit`, so 0 pages for no users |
| AdminRoutes.ListUsers | routes/adminRoutes.js:61-86 | a negative skip is a 500; otherwise at most `limit` users, those from position skip on in newest-first order, without passwords, with total and pages |
| AdminRoutes.PageOfPosition | routes/adminRoutes.js:65 | position k lies on page k / limit + 1, which is one of the announced pages |
| AdminRoutes.EveryUserIsOnAPage | routes/adminRoutes.js:63-80 | every user appears on some announced page |
| AdminRoutes.DefaultPageIsTheTenNewest | routes/adminRoutes.js:63-64 | without page and limit the list is the ten newest users on page 1 |
| AdminRoutes.Dashboard | routes/adminRoutes.js:29-58 | the user count, course and product counts of 0, and the at most five newest users |
| AdminRoutes.RecentUsersAreTheNewest | routes/adminRoutes.js:42-45 | every recent user is newer than every user left out |
| AdminRoutes.DeleteUser | routes/adminRoutes.js:89-107 | 404 when missing, 400 for one's own account, otherwise exactly that user is removed |
| AdminRoutes.DeleteUserRoute | routes/adminRoutes.js:89 | the admin gate runs before the handler |
| AdminRoutes.DeleteOnlyByAdminAndNeverSelf | routes/adminRoutes.js:97-103 | only an admin changes the table, never removing their own record, and removes exactly the requested user |
| AdminRoutes.NonAdminRefused | routes/adminRoutes.js:18-20 | a stored non-admin user gets 403 from stats, the user list and user deletion |
| AdminRoutes.StatsRoute | routes/adminRoutes.js:29 | the admin gate, then the dashboard |
| AdminRoutes.UsersRoute | routes/adminRoutes.js:61 | the admin gate, then the page of users |
| AdminRoutes.EmptyListing | routes/adminRoutes.js:110-136 | behind the gate, always an empty page with total 0 and 0 pages |
| AdminRoutes.AcknowledgeDelete | routes/adminRoutes.js:139-151 | behind the gate, a success message and no table touched |
| AdminRoutes.DeleteUserHandler | routes/adminRoutes.js:89-107 | authMiddleware, the router's isAdmin and the handler on the collection give exactly `DeleteUserRoute` |

## Left out

- Bcrypt salts and cost factors, JWT signing, secrets and the 30-day expiry are not modelled. They are the abstract `hash`, `issue` and `verify` functions. An expired token is one that `verify` refuses.
- Mongo is not modelled: query execution, `populate`, indexes and ObjectId casting are left out. A malformed id, which the source answers with a cast error, is outside the model because ids are natural numbers.
- Ids are numbered per collection, whereas ObjectIds are unique across collections. In the model, a seller's token could name a user with the same number. In the source, it cannot.
- Schema strict mode is not modelled. The routes write and filter on a `type` field that neither the Product nor the Course schema declares. The model keeps `typeTag` as the routes write it. Whether Mongoose strips that field on create, or drops or keeps the filter, is library behaviour and is not modelled.
- `populate('createdBy', 'name email')` is not modelled. It refers to the User model while `createdBy` holds seller ids, so the listings return records without their creator's details.
- Error message texts of Mongoose are not modelled. A validation error is the list of `Violation(path, message)` in schema order, at most one per path. The text Mongoose assembles from that list is left out. A NaN price is reported as a cast failure on its path.
- ListingRoutes.Update: the update validators of `findByIdAndUpdate` are modelled as validating the whole merged record. The source validates only the paths in the update. Every stored record already meets the schema, so the outcome is the same.
- The `updatedAt` timestamp is not modelled.
- Lower-casing covers ASCII letters only. JavaScript's `toLowerCase` folds all of Unicode and can change a string's length ("İ" becomes two code units), so an email with non-ASCII capitals is normalised differently.
- `minlength` counts UTF-16 code units in the source but characters in the model. A password of three emoji has length 6 in the source and 3 here, so the two disagree for characters outside the Basic Multilingual Plane.
- Request bodies are modelled as optional strings. A JSON body with a non-string value (such as `email: 123`) makes `endsWith` throw a TypeError in the source, which the error middleware answers with a 500. The model has no such input.
- Multer's "Unexpected field" error, for a file sent under a field other than `image`, is not modelled. The model's upload has no field name.
- Multer disk storage is not modelled. The stored file name comes from the clock and a random number, so it is an input. Node's `path.extname` cases for trailing slashes and Windows separators are left out; the last component's last dot, a leading dot and the name ".." are modelled.
- `parseFloat` and `parseInt` are not modelled. A price arrives as its text with its parsed value given. Page and limit arrive as an optional integer, where absent stands for NaN.
- AdminRoutes.ListUsers: a negative limit is modelled as returning its absolute value of users, the way the database treats a negative limit. Floating-point rounding of `Math.ceil` is left out.
- `errorMiddleware.js` is not part of this model. A thrown error is recorded as `Raised` with the status set before the throw.
- The User schema (`userModel.js`) is not part of this model. User emails are compared exactly, with no case normalisation.
- Concurrency is not modelled. Each request runs alone, so the re-lookup in the admin router's isAdmin sees the table authMiddleware read.
- The route tables (`authRoutes.js`, `sellerAuthRoutes.js`) and `server.js` are wiring and are not modelled.
- Course enrolment is not modelled: no course route increments `enrolledStudents`, so the model has no enrol operation.
- The combined listing of users and sellers in one admin feed is not modelled, because the admin router in the source lists users only.
