# six-cities core, modelled in Dafny

This project models the parts of the six-cities rental backend that carry their own logic, separated from the Express and Mongoose glue around them:

- **Session whitelist** (`JWTAuthService`). The service registers users, logs them in, logs them out and validates tokens over an in-memory set of live tokens. The model is a class whose `tokenWhitelist: set<string>` field is updated by `Login` and `Logout`. It sits over a `UserRepository` class whose record list `Register` appends to.
  - Each method is specified by a pure function: `RegisterResult`, `LoginResult` or `ValidateResult`.
  - The JWT codec and the bcrypt hasher are oracles fixed at construction.
  - The fresh `ObjectId`, the bcrypt salt and the clock are parameters.
- **Bearer-token gate** (`AuthMiddleware.execute`). It extracts the token from the `Authorization` header. The response to the request is a `Decision`: a status with its message, or `next()`. The decision also records which token, if any, the gate handed to the service.
- **Existence gate** (`CheckExistMiddleware.execute`). This is the same kind of decision, over the route parameter named at construction and the service's `exists`.
- **TSV import** (`parseTsvToRentalOffers`). A loop over the lines keeps those with exactly seventeen tab-separated fields, in order. It is proved equal to a line-by-line specification.
- **TSV export** (`saveDataToFile`). Each offer becomes one line of twenty-two tab-joined fields, and the lines are joined by line breaks.
- **Offer document** (`rentalOffer.schema.ts`):
  - the schema's bounds as a validity predicate;
  - the set of paths validation reports;
  - the `calculateRating` virtual over the offer's comments.

JavaScript's `String.prototype.split`, `Array.prototype.join`, `startsWith` and the UTF-16 `length` that Mongoose's `minlength`/`maxlength` measure are modelled in `text.dfy`, with their round-trip lemmas.

## Model

| member | source | states |
|---|---|---|
| Text.Split | src/tsvRentalOffersParser.ts:19 | `line.split('\t')` gives at least one part and no part holds the separator |
| Text.SplitCount | src/tsvRentalOffersParser.ts:19-21 | a split has one part more than the string has separators, so seventeen fields means sixteen tabs |
| Text.JoinSplit | src/tsvRentalOffersParser.ts:53 | joining the parts of a split gives back the string (`photos.split(',')` loses nothing) |
| Text.SplitJoin | src/main.cli.ts:51 | splitting the join of separator-free parts gives back the parts |
| Text.JoinAvoids | src/main.cli.ts:28-51 | a join contains a character only if the separator or a part does |
| Text.JoinLength | src/main.cli.ts:51 | a join of n parts is at least n - 1 characters long |
| Text.SplitWithoutSeparator | src/middleware/auth.middleware.ts:15 | a string without the separator splits into itself alone |
| Text.SplitAfterPart | src/middleware/auth.middleware.ts:15 | a separator-free head followed by the separator is split off as the first part |
| Text.SplitFirst | src/middleware/auth.middleware.ts:15 | the first part of a split is the longest separator-free prefix |
| Text.Utf16Length | src/infrastructure/DAL/rentalOffer.schema.ts:35-36 | the JavaScript length counts each character once, or twice above U+FFFF, so it lies between the character count and twice it |
| UserStore.RecordWithId | src/infrastructure/DAL/user.repository.ts:14-21 | `findById` returns a stored record carrying that id, and nothing exactly when no record has it |
| UserStore.RecordWithEmail | src/infrastructure/DAL/user.repository.ts:23-30 | `findOne({ email })` returns a stored record with that email, and nothing exactly when none has it |
| UserStore.CreateKeepsKeysUnique | src/infrastructure/DAL/user.model.ts:19-23 | adding a record the store accepts (its id and email unused) keeps ids and emails unique |
| UserStore.FoundAfterAppend | src/infrastructure/DAL/user.repository.ts:32-36 | after a record is created, looking up its email or id finds it |
| UserStore.RecordWithIdAfterAppend | src/infrastructure/DAL/user.repository.ts:14-21 | creating a record does not change what a lookup by an id already in the store finds |
| UserStore.UserRepository.FindById | src/infrastructure/DAL/user.repository.ts:14-21 | a found user is a stored record carrying that id, and nothing is found exactly when no record has it |
| UserStore.UserRepository.FindByEmail | src/infrastructure/DAL/user.repository.ts:23-30 | a found user is a stored record carrying that email, and nothing is found exactly when none has it |
| UserStore.UserRepository.Create | src/infrastructure/DAL/user.repository.ts:32-40 | `save` stores the record exactly when its id and email are unused and the schema, with the corrected password bound, accepts it, and otherwise leaves the store unchanged |
| AuthService.GenerateToken | src/infrastructure/JWTAuthService.ts:110-129 | no token for a user without an id; otherwise the token is whatever signing the user's claims gives, claims with subject = `userId` = the user's id and the user's email |
| AuthService.IssuedTokenVerifies | src/infrastructure/JWTAuthService.ts:116-122 | under an honest codec, a generated token verifies within 24 hours to the user's id and email |
| AuthService.RegisterResultAsWritten | src/infrastructure/JWTAuthService.ts:32-60 | `register` against the user schema as declared: any success satisfies the declared bounds and stores the hash |
| AuthService.RegisterNeverSucceedsAsWritten | src/infrastructure/DAL/user.model.ts:28-33 | as declared, every 60-character bcrypt hash breaks the 12-character password bound, so `register` always fails |
| AuthService.RegisterResult | src/infrastructure/JWTAuthService.ts:32-60 | a taken email fails with `Failed to register user`; every failure is that error; a success is the new record with the fresh id, the given fields and the hashed password, and the store accepts it |
| AuthService.RegisterSucceedsWhenFresh | src/infrastructure/JWTAuthService.ts:41-55 | with the corrected bound, a fresh id and email and a valid name register exactly the new record |
| AuthService.LoginResult | src/infrastructure/JWTAuthService.ts:62-83 | login looks the user up by id with its first argument; it succeeds exactly when the user exists, the password compares and a token is generated; every failure is `Invalid credentials`; the token signs that user's claims |
| AuthService.ValidateResult | src/infrastructure/JWTAuthService.ts:90-108 | a token outside the whitelist is refused before verification; for a whitelisted token any failure is `Invalid token`; a success is a stored user whose id is the verified subject, and a found subject always succeeds |
| AuthService.SessionLifecycle | src/infrastructure/JWTAuthService.ts:32-108 | register, then login with the new id, then validate: the result is the registered user; after logout the same token is refused as revoked |
| AuthService.JWTAuthService.constructor | src/infrastructure/JWTAuthService.ts:19-30 | the service starts with an empty whitelist over the given store and collaborators |
| AuthService.JWTAuthService.Register | src/infrastructure/JWTAuthService.ts:32-60 | returns `RegisterResult`; the store grows by exactly the returned record on success and is unchanged on failure; the whitelist is untouched |
| AuthService.JWTAuthService.Login | src/infrastructure/JWTAuthService.ts:62-83 | returns `LoginResult`; a success adds exactly the returned token to the whitelist and to the tokens ever issued, a failure leaves both unchanged; only issued tokens are ever live |
| AuthService.JWTAuthService.Logout | src/infrastructure/JWTAuthService.ts:85-88 | removes only the given token, never fails, issues nothing, and a second logout changes nothing |
| AuthService.JWTAuthService.ValidateToken | src/infrastructure/JWTAuthService.ts:90-108 | returns `ValidateResult` of the current whitelist and store and changes neither |
| AuthGate.GetTokenFromHeader | src/middleware/auth.middleware.ts:12-18 | a token exactly when the header is present and starts with `"Bearer "`; the token holds no space |
| AuthGate.BearerToken | src/middleware/auth.middleware.ts:14-15 | for `"Bearer " + rest`, the token is `rest` up to its first space: all of `rest` without spaces, and empty after a double space |
| AuthGate.Execute | src/middleware/auth.middleware.ts:20-45 | a missing or empty token is a 401 and the service is not consulted; a user means `next()`; no user means 401 `Пользователь не найден`; a throw means 500; each case happens exactly then, and the gate always answers or passes on |
| AuthGate.GateOverService | src/middleware/auth.middleware.ts:29-44 | in front of `JWTAuthService`, a request passes exactly when validation succeeds; every refusal, a revoked token included, is a 500 and never a 401 |
| CheckExist.Execute | src/middleware/checkExist.middleware.ts:8-22 | the id is the named route parameter; a missing or empty id is a 400 without consulting the service; an unknown id is a 404; a known id is `next()`; a rejected lookup neither answers nor passes on; each case happens exactly then |
| Offers.HousingTypeNamed | src/tsvRentalOffersParser.ts:57 | a housing type exactly for the four declared names |
| Offers.HousingTypeNamesRoundTrip | src/domain/rent/HousingType.ts:1-6 | names and housing types correspond one to one |
| TsvParser.ParseLine | src/tsvRentalOffersParser.ts:19-23 | a line yields an offer exactly when it splits into seventeen fields, that is, when it holds sixteen tabs |
| TsvParser.LineOffers | src/tsvRentalOffersParser.ts:19-23 | a line contributes one offer when it has seventeen fields and none otherwise |
| TsvParser.ParseLines | src/tsvRentalOffersParser.ts:16-70 | there are never more offers than lines |
| TsvParser.ParseLinesCount | src/tsvRentalOffersParser.ts:16-23 | there are exactly as many offers as seventeen-field lines, whatever the other lines hold |
| TsvParser.ParseTsvToRentalOffers | src/tsvRentalOffersParser.ts:9-71 | the loop with `push` returns exactly the line-by-line specification `ParseLines` |
| TsvParser.ParseLineFields | src/tsvRentalOffersParser.ts:45-65 | in a parsed offer:<br>- title, description, city and preview image are fields 1, 2, 4 and 5 verbatim;<br>- the flags are true exactly for `"true"`;<br>- photos and facilities are their fields split on commas, non-empty, and join back to the field;<br>- there is one coordinate per comma-separated part;<br>- the author is field 15 with the placeholder name, email and password |
| TsvParser.ParseLinesAppend | src/tsvRentalOffersParser.ts:16-18 | parsing distributes over concatenation of lines: offers come out in line order |
| TsvParser.ParseLinesAllWellFormed | src/tsvRentalOffersParser.ts:16-70 | when every line has seventeen fields, there are as many offers as lines, and offer i is built from line i |
| TsvParser.ParseLinesNoneWellFormed | src/tsvRentalOffersParser.ts:21-23 | when no line has seventeen fields, nothing is parsed |
| TsvWriter.OfferLines | src/main.cli.ts:28-51 | one line per offer |
| TsvWriter.SaveDataToFile | src/main.cli.ts:27-54 | serialising throws (no output) exactly when some offer has an invalid publication date; otherwise the output is empty exactly when there are no offers |
| TsvWriter.OfferLineSplits | src/main.cli.ts:28-51 | a clean offer's line splits back on tabs into exactly its fields |
| TsvWriter.OfferLineFields | src/main.cli.ts:28-51 | a clean offer's line has twenty-two fields:<br>- the title is first and the city fourth;<br>- photos and facilities are comma-joined in fields 6 and 14;<br>- the author's id, name, email, password, type and avatar are fields 15 to 20;<br>- the comment count is field 21 and the coordinates are comma-joined in field 22 |
| TsvWriter.SaveDataLines | src/main.cli.ts:51 | for offers with valid dates and clean fields, the output exists and splits on line breaks into the offers' lines, in order, with no trailing line |
| TsvWriter.ParserSkipsWrittenFile | src/main.cli.ts:28-51 | for offers with valid dates and clean fields, the importer accepts no line the exporter writes (twenty-two fields against seventeen) |
| OfferSchema.FacilityErrorsExact | src/infrastructure/DAL/rentalOffer.schema.ts:88-92 | a facility error names exactly the indices outside the enumeration; none means every facility is allowed |
| OfferSchema.FieldErrorsEmpty | src/infrastructure/DAL/rentalOffer.schema.ts:32-87 | no scalar path fails exactly when title, description, city, housing type, rooms, guests and price are within their bounds |
| OfferSchema.ValidationErrorsExact | src/infrastructure/DAL/rentalOffer.schema.ts:30-101 | validation reports each path exactly when its bound fails; no report exactly when `OfferValid` holds |
| OfferSchema.CommentsOf | src/infrastructure/DAL/rentalOffer.schema.ts:112-113 | exactly the offer's comments: every comment found belongs to the offer and comes from the store, and every comment of the offer is found |
| OfferSchema.RoundHalfUpToTenth | src/infrastructure/DAL/rentalOffer.schema.ts:120 | the nearest tenth is within 0.05 of the number |
| OfferSchema.ToFixed1 | src/infrastructure/DAL/rentalOffer.schema.ts:120 | `Number(x.toFixed(1))` is within 0.05 of `x` |
| OfferSchema.ToFixed1Bounds | src/infrastructure/DAL/rentalOffer.schema.ts:120 | rounding keeps a number of 1..5 within 1..5 |
| OfferSchema.MeanRating | src/infrastructure/DAL/rentalOffer.schema.ts:115-120 | 0 for no comments, otherwise within 0.05 of the exact mean |
| OfferSchema.CalculateRating | src/infrastructure/DAL/rentalOffer.schema.ts:111-121 | 0 when the offer has no comments, otherwise within 0.05 of the mean of its comments' ratings |
| OfferSchema.CommentsOfAppend | src/infrastructure/DAL/rentalOffer.schema.ts:113 | finding an offer's comments distributes over concatenation |
| OfferSchema.CommentsOfSkips | src/infrastructure/DAL/rentalOffer.schema.ts:113 | a comment of another offer is skipped wherever it sits |
| OfferSchema.OtherOffersCommentsIgnored | src/infrastructure/DAL/rentalOffer.schema.ts:112-113 | a comment of another offer changes no rating, wherever it sits |
| OfferSchema.RatingSumBounds | src/infrastructure/DAL/rentalOffer.schema.ts:119 | ratings in 1..5 sum to between the count and five times the count |
| OfferSchema.RatingWithinCommentBounds | src/infrastructure/DAL/rentalOffer.schema.ts:119-120 | when the offer's comments are valid (rating 1..5), a rating from at least one comment lies in 1..5 |

## Left out

- Cryptography:
  - `jose` signing and verification, and `bcrypt` hashing and comparison, are oracles (`TokenCodec`, `PasswordHasher`).
  - Signatures, expiry and the 24-hour lifetime are assumed only through `HonestCodec` and `HonestHasher` in the lemmas that need them.
  - The secret key (`createSecretKey`) is inside the codec.
- Randomness and the clock:
  - `new ObjectId()` is the `newId` parameter and the bcrypt salt is the `salt` parameter.
  - The time that `setIssuedAt` and `jwtVerify` read is the `now` parameter.
  - A user "without `_id`" is a user whose id is the empty string.
- Concurrency and `async`: every operation runs to completion, one at a time. Interleaved `login`/`logout` calls on the shared whitelist are not modelled.
- Logging: the `logger.error` calls are left out.
- MongoDB storage:
  - The user store is a sequence of records in insertion order, and lookups return the first match.
  - Failed lookups that log and return `null` are folded into "not found".
  - `UserStore.SchemaAcceptsAsWritten` is the user schema as declared. `UserStore.UserRepository.Create`, `AuthService.JWTAuthService.Register` and `AuthService.RegisterResult` validate with `UserStore.SchemaAccepts` instead, which drops the 12-character maximum on the stored password (see Findings); `CanCreate` adds the unique index on `email` and the `_id` key.
  - Ids are compared as plain strings. Mongoose casts the argument of `findById` to an `ObjectId`, so an id written in upper-case hex finds the same user there but not in the model, and a string that is no `ObjectId` makes the lookup fail and log (folded into "not found").
  - `src/infrastructure/IAuthService.ts` is not part of this model.
- `UserStore.UserRepository.Create`: returns whether the record was stored. The source instead returns the saved document or rethrows, and `register` maps both failures to the same error.
- Express:
  - requests and responses are values;
  - `res.status(...).json(...)` is a `Respond(status, message)` action, `next()` is `Next`, and a rejection that escapes the handler is `Unanswered`;
  - the `Decision` records which token or id, if any, was handed to the service.
- `AuthGate.Execute`: the gate's `validateToken` is a function of the token alone, so its result is the one the service gives for the current whitelist, store and clock.
- `CheckExist.Execute`: the service's `exists` is an oracle over the id that resolves to a boolean or rejects. A rejection escapes `execute` as an unhandled promise rejection, which the model records as `Unanswered`; what Express then does with the request is left out. `IBaseService` is not part of this model.
- File and command-line I/O:
  - the `readline` stream is given as the sequence of its lines;
  - `crlfDelay: Infinity` and line-ending handling are left out;
  - `writeFileSync` and the commander actions (`generate`, `import`) are left out.
- JavaScript conversions: `Number(text)`, `new Date(text)`, `String(number)` and `toISOString()` are abstract functions (`Conversions`, `Formats`); of `toISOString()` only its `RangeError` on an invalid date is modelled (`TsvWriter.Writable`). Numbers are a real value or `NaN`; `Infinity` and `-0` are not distinguished.
- `OfferSchema.ToFixed1`: models `Number(x.toFixed(1))` on exact reals, rounding a half away from zero. Binary double representation and its tie cases are not modelled, and the lemmas rely only on the result lying within 0.05 of `x`.
- `Offers.HousingTypeNamed`: models `HousingType[housingType]` in the parser as a lookup of the name among `HousingTypes`. In `src/domain/rent/HousingType.ts`, `HousingType` is declared only as a type, so indexing it has no value of its own; the model follows the evident intent.
- `TsvParser.OfferFromFields`: the parser's author follows the positional constructor `User(id, name, email, password, userType, avatar)` of `src/domain/user/User.ts:11`:
  - `'main'` becomes the name and `'psw'` the email;
  - `UserType.Pro` becomes the password;
  - type and avatar are `undefined`.

  `src/domain/user/UserType.ts` is not part of this model, and `UserType.Pro` is taken to be the string `"pro"`.
- String lengths: the schemas' `minlength`/`maxlength` are checked on the JavaScript length in UTF-16 code units (`Text.Utf16Length`). A Dafny string holds Unicode scalar values, so lone surrogates, which a JavaScript string may hold, cannot be expressed.
- Offer collections: the city and facility lists (`src/domain/rent/City.ts`, `src/domain/rent/Facilities.ts`) are not part of this model; `OfferValid` and the validation errors take them as parameters.
- Schema details left out:
  - `required` checks and type casting (a document here always has every field, already typed);
  - the `timestamps` option;
  - the `rating` virtual's promise (the rating is computed directly).
- Comment lookup: `CommentModel.find({ offerId })` is a filter over a given sequence of comments, in store order.
- Writer→parser round trip: not claimed, because the exporter writes twenty-two fields and the importer accepts only seventeen. `TsvWriter.ParserSkipsWrittenFile` states what happens instead.
- Behaviour worth noting:
  - `validateToken` refuses a token outside the whitelist with its own error, `Token is not valid or has been revoked`, and not `Invalid token`.
  - Behind `JWTAuthService`, the gate answers such a token with 500, not 401, because the service throws instead of returning nothing (`AuthGate.GateOverService`).
- Mappers, controllers, routes, the legacy `AuthMiddleware.ts`, upload handling, mock data generation and the database client are outside the modelled core.

## Findings

| source | as written | input that shows it | evidently intended | confidence | as-written member | corrected member |
|---|---|---|---|---|---|---|
| src/infrastructure/DAL/user.model.ts:28-33 | `register` stores the bcrypt hash in `password`, and the schema bounds that field to at most 12 characters, so `save` rejects every new user and `register` always throws `Failed to register user` | any registration with a fresh email, e.g. name `"ann"`, email `"a@b.c"`, password `"secret1"`: its 60-character hash breaks the 12-character bound | the 6..12 bound applies to the password the user types, not to the stored hash, so a fresh user registers | high (not executed) | AuthService.RegisterNeverSucceedsAsWritten | AuthService.RegisterSucceedsWhenFresh |
