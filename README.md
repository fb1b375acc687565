# profile-api, modelled in Dafny

profile-api is a REST backend for a personal profile site. It stores a
user's profile, skills, work experience, qualifications and certificates,
plus a versioned journal, in MongoDB collections. It registers and logs in
users with a JWT cookie. Profile images go to a local directory or an S3
bucket.

This project models the handlers as operations on in-memory collections.
Each collection is a `seq` field of a per-package class, standing in for the
package-level `xxxCollection` variable of the Go code. The store semantics
live once, in module `Store`:

- `FindOne` returns the first match.
- `Find` (`Filter`) returns all matches, in store order.
- `InsertOne` appends.
- `UpdateOne` with `$set` changes the first match. If nothing matches and
  upsert is set, it appends the upserted document.
- `DeleteOne` removes the first match.

The modules follow the Go packages:

- `Store` and `Http`: the store semantics, and reply and bind-result shapes.
- `Skills`, `Experience`, `Qualifications`, `Certificates`: the per-user CRUD
  tables.
- `Profiles`: profile CRUD, `PutImage`, and the start-up choice of image store.
- `ImageStores`: the local and S3 stores. This covers naming, URLs, the
  "localstack" rewrite and the bucket `LocationConstraint` rule.
- `Journal`: the versioned aggregates, their projections and the public
  listing filter.
- `Auth` and `Middleware`: register, login, and the required/optional cookie
  check.
- `Strings` and `HostIdentifier`: the `strings` operations used and the
  subdomain/identifier rule of `src/main.go`.

Things outside the program become parameters:

- a request body that fails to bind is `Http.Bind.Invalid`;
- fresh ids (`freshID`) and the clock (`now`);
- the outcome of hashing (`hashed`), hash comparison (`passwordMatches`),
  token signing (`issue`) and token verification (`verify`);
- the outcomes of file-system and S3 calls (`SaveIo`, `S3Service`,
  `configLoads`).

Behaviours of the code reproduced as written:

- Create stamps pointer 1 but leaves the posted entry's version untouched
  (`SeededPointerValidIff`).
- Update numbers the new entry from the pointer, not from the largest
  version. After a repoint this duplicates a version
  (`RepointThenReviseDuplicates`).
- Versions are Go `int`s, 64 bits wide, and the increment wraps: an
  aggregate repointed to the largest version and then updated stores the
  smallest one (`Inc64`, `RepointToMaxThenReviseWraps`).
- The journal's mutating handlers read a context value "userID" that the
  middleware never sets; the middleware sets only "user". The owner id is
  therefore a parameter of those handlers.
- `GET /journal/:journalid` has no middleware, so the context "user" is a
  parameter. Any value other than nil, including a non-`User` value, gets
  the full view.
- `GetJournalVersions` looks the aggregate up by id only, so any
  authenticated caller can read any journal's versions.
- The public listing's date range compares `created_at`, a BSON date, with
  two strings. MongoDB compares only values of the same type, so with both
  bounds given the listing is empty (`DateRangeSelectsNothing`). The filter
  is modelled with that type bracketing.
- Register's duplicate check tests the found user's e-mail against "", so
  an empty e-mail is never a conflict (`EmailTaken`).
- `PostProfile` inserts without looking, so a user can have two profiles,
  and `GetProfile` returns only the first.
- `InitImageStore` sends its own `CreateBucket` without a region constraint
  whenever `HeadBucket` fails. `InitBucketAndCORS` is then reached only
  with the bucket present, so its `LocationConstraint` rule is never
  exercised at start-up (the `sent` output of `InitImageStore`). The model
  treats `HeadBucket` as succeeding exactly when the bucket exists.
- The local store's URL does not mention its base path
  (`LocalUrlIgnoresBasePath`). Image names may collide (`ImageNamesCollide`).

## Model

| member | source | states |
|---|---|---|
| Store.FirstMatch | src/skills/skills.go:78 | the index returned matches the filter and every earlier document does not; None means no document matches |
| Store.FindOne | src/skills/skills.go:78-82 | the result is a stored document matching the filter; None exactly when no document matches (the decode error path) |
| Store.Filter | src/skills/skills.go:41-55 | the result is no longer than the collection and every element matches the filter |
| Store.DeleteOne | src/skills/skills.go:184 | one document fewer exactly when some document matched, otherwise the same length |
| Store.UpdateOne | src/skills/skills.go:153 | with a match the collection keeps its length; without one it is unchanged, or gains the upserted document at the end when upsert is set |
| Store.FilterCount | src/journal/journal.go:406-414 | each document occurs in the result as often as it is stored if it matches, else not at all |
| Store.FilterAppend | src/skills/skills.go:47-55 | filtering a concatenation is the concatenation of the filtered parts (the cursor loop's step) |
| Store.FilterNone | src/journal/journal.go:406 | a filter nothing matches returns the empty list |
| Store.FilterSingle | src/skills/skills.go:53-54 | a one-document list filters to itself or to nothing |
| Store.Around | src/skills/skills.go:184 | a sequence splits around any of its positions |
| Store.FilterAround | src/skills/skills.go:184 | filtering splits around any position of the collection |
| Store.FindOneIsFirstOfFilter | src/skills/skills.go:78-82 | FindOne is the first element of Find with the same filter, and None when Find is empty |
| Store.DeleteOneRemovesFirstMatch | src/skills/skills.go:184 | after DeleteOne the matches are the old matches without the first one |
| Store.DeleteOneKeepsOthers | src/skills/skills.go:184 | documents of a filter disjoint from the deleted one are untouched, in order |
| Store.UpdateOneThenFindOne | src/skills/skills.go:153 | after UpdateOne the first match is the updated old first match, or the upserted document, or none |
| Store.UpdateOneKeepsOthers | src/skills/skills.go:153 | documents of a filter disjoint from the updated one are untouched, in order |
| Store.InsertOneFilter | src/skills/skills.go:115 | after InsertOne a filter's result gains the new document at the end exactly when it matches |
| Store.InsertOneThenFindOne | src/skills/skills.go:115 | a document inserted where nothing matched becomes the first match |
| Store.InsertOneKeepsFindOne | src/profile/profile.go:243 | inserting leaves FindOne's answer unchanged when something already matched |
| Store.FilterCongruent | src/journal/journal.go:369-406 | filters that agree on every document select the same list |
| Skills.SkillsApi.constructor | src/skills/skills.go:16 | the collection starts empty |
| Skills.SkillsApi.GetSkills | src/skills/skills.go:37-57 | the loop returns exactly the user's skills, in store order, with 200 |
| Skills.SkillsApi.GetSkill | src/skills/skills.go:73-84 | 200 exactly when some skill has both ids, and then the first such skill; otherwise 500 "Could not retrieve skill" |
| Skills.SkillsApi.PostSkill | src/skills/skills.go:104-121 | bind failure is 400 with no change; otherwise the body with the path user and the fresh id is appended, becomes findable under its key, and other users' skills are unchanged |
| Skills.SkillsApi.PutSkill | src/skills/skills.go:141-159 | bind failure is 400 with no change; otherwise an upsert of the body under the path ids, which is then the key's first match, and no other record or user changes |
| Skills.SkillsApi.DeleteSkill | src/skills/skills.go:180-190 | at most one record goes, only when one matched; other records and users are unchanged; 200 "Skill deleted" either way |
| Experience.ExperienceApi.constructor | src/experience/experience.go:15 | the collection starts empty |
| Experience.ExperienceApi.GetExperience | src/experience/experience.go:33-52 | the loop returns exactly the user's records, in store order, with 200 |
| Experience.ExperienceApi.GetExperienceItem | src/experience/experience.go:67-77 | 200 exactly when a record has both ids, and then the first; otherwise 500 "Could not retrieve experience" |
| Experience.ExperienceApi.PostExperience | src/experience/experience.go:136-153 | bind failure is 400 with no change; otherwise the body with the path user and fresh id is appended and returned as stored; other users unchanged |
| Experience.ExperienceApi.PutExperienceItem | src/experience/experience.go:97-115 | upsert keyed on (user_id, experience_id) with the path ids overriding the body; nothing else changes |
| Experience.ExperienceApi.DeleteExperienceItem | src/experience/experience.go:168-178 | removes at most the first match; others unchanged; 200 "Experience deleted" either way |
| Qualifications.QualificationsApi.constructor | src/qualifications/qualifications.go:17 | the collection starts empty |
| Qualifications.QualificationsApi.GetQualifications | src/qualifications/qualifications.go:40-60 | the loop returns exactly the user's qualifications, in store order, with 200 |
| Qualifications.QualificationsApi.GetQualificationEntry | src/qualifications/qualifications.go:76-87 | 200 exactly when a record has both ids, and then the first; otherwise 500 "Could not retrieve qualification" |
| Qualifications.QualificationsApi.PostQualification | src/qualifications/qualifications.go:208-226 | bind failure is 400 with no change; otherwise the body with the path user and fresh id is appended; 200 "Qualification Created"; other users unchanged |
| Qualifications.QualificationsApi.PutQualificationEntry | src/qualifications/qualifications.go:105-123 | upsert keyed on (user_id, qualification_id) with the path ids overriding the body; nothing else changes |
| Qualifications.QualificationsApi.DeleteQualificationEntry | src/qualifications/qualifications.go:139-149 | removes at most the first match; others unchanged; "Qualification deleted" either way |
| Certificates.CertificatesApi.constructor | src/certificates/certificates.go:16 | the collection starts empty |
| Certificates.CertificatesApi.GetCertificates | src/certificates/certificates.go:35-55 | the loop returns exactly the user's certificates, in store order, with 200; the result does not depend on authentication |
| Certificates.CertificatesApi.GetCertificateEntry | src/certificates/certificates.go:74-85 | 200 exactly when a record has both ids, and then the first; otherwise 500 "Could not retrieve certificate" |
| Certificates.CertificatesApi.PostCertificate | src/certificates/certificates.go:206-223 | bind failure is 400 with no change; otherwise the body with the path user and fresh id is appended; 200 "Certificate Added"; other users unchanged |
| Certificates.CertificatesApi.PutCertificateEntry | src/certificates/certificates.go:105-123 | upsert keyed on (user_id, certificate_id) with the path ids overriding the body; nothing else changes |
| Certificates.CertificatesApi.DeleteCertificateEntry | src/certificates/certificates.go:137-147 | removes at most the first match; others unchanged; "Certificate deleted" either way |
| Profiles.ProfileApi.constructor | src/profile/profile.go:21-28 | no profiles and no image store yet |
| Profiles.ProfileApi.InitImageStore | src/profile/profile.go:30-87 | local store over LOCAL_PATH unless IMAGE_STORE is "s3"; with "s3", success exactly when the config loads, the bucket exists or is created, and CORS is set, and only then the S3 store; any CreateBucket it sends has no region constraint; on error the store is unchanged |
| Profiles.ProfileApi.GetProfile | src/profile/profile.go:101-113 | 200 with the user's first profile exactly when one exists; otherwise 500 "Could not retrieve profile" |
| Profiles.ProfileApi.PutImage | src/profile/profile.go:129-171 | 400 without a file; 500 when it cannot be opened, with no store, or when saving fails, and then no change; on success only profile_img of the user's profile is set (or an image-only profile inserted) to the URL the store returned, which the reply carries; others unchanged |
| Profiles.ProfileApi.PutProfile | src/profile/profile.go:187-217 | bind failure is 400 with no change; otherwise an upsert of the body with user_id forced to the path id, which becomes the user's profile; other users unchanged |
| Profiles.ProfileApi.PostProfile | src/profile/profile.go:233-250 | bind failure is 400 with no change; otherwise the body is appended without a check, the user's profile count grows by one, and GetProfile keeps returning an earlier profile if there was one |
| ImageStores.LocalSaveImage | src/profile/image_store_local.go:15-28 | success exactly when the file can be created and copied; the URL is "/images/" + `<user>-<file>`; on failure the URL is "" with an error |
| ImageStores.LocalUrlIgnoresBasePath | src/profile/image_store_local.go:17-27 | two local stores over different directories return the same URL |
| ImageStores.ImageName | src/profile/image_store_local.go:16 | the name (and S3 key) of an upload is the user id, a dash and the file name, in that order, and nothing else |
| ImageStores.JoinPath | src/profile/image_store_local.go:17 | the path ends with the image name; it is the name alone exactly when the base path is empty, otherwise the base, a slash and the name |
| ImageStores.ImageNamesCollide | src/profile/image_store_local.go:16 | for all a, b, c the pairs ("a-b", c) and (a, "b-c") share one image name, so uploads can overwrite each other |
| ImageStores.PublicEndpoint | src/profile/image_store_s3.go:94-97 | the endpoint is unchanged without "localstack"; otherwise only its first "localstack" becomes "localhost" |
| ImageStores.LocalstackHostBecomesLocalhost | src/profile/image_store_s3.go:94-97 | an endpoint with host "localstack" is handed out with host "localhost" |
| ImageStores.S3Url | src/profile/image_store_s3.go:90-102 | the URL ends with the object key; under an endpoint it starts with the public endpoint, otherwise with "https://" and the bucket |
| ImageStores.S3SaveImage | src/profile/image_store_s3.go:73-105 | success exactly when the upload under the key succeeds; failure gives "" and an error; the URL is path-style under the public endpoint, or the AWS virtual-host URL without an endpoint |
| ImageStores.SaveImage | src/profile/image_store.go:1-9 | either store gives "" on error and, on success, a non-empty URL ending in the image name |
| ImageStores.LocationConstraint | src/profile/image_store_s3.go:27-44 | a region constraint exactly when there is no endpoint, the region is non-empty and not "us-east-1", and it is the region |
| ImageStores.InitBucketAndCORS | src/profile/image_store_s3.go:20-71 | no CreateBucket when the bucket exists; otherwise one carrying the LocationConstraint rule; success exactly when creation (if needed) and CORS succeed; the two error messages |
| Journal.Inc64 | src/journal/journal.go:118 | Go's `int` increment: one more below the largest 64-bit value, and the smallest value at the largest |
| Journal.SetRevision | src/journal/journal.go:124-128 | the update writes the revised entries, version and updated_at, and keeps id, owner, status, taxonomy, summary and created_at |
| Journal.SetPointer | src/journal/journal.go:250-254 | the update sets version and updated_at only; entries, id, owner and status are kept |
| Journal.SetStatus | src/journal/journal.go:291-295 | the update sets any status string and updated_at; entries, version, id and owner are kept |
| Journal.MarkProcessing | src/journal/journal.go:179-183 | the update sets status "processing" and leaves updated_at, entries, version, id and owner alone |
| Journal.Seeded | src/journal/journal.go:70-78 | the created aggregate holds exactly the posted entry, pointer 1, status "pending", the caller as owner, an empty taxonomy and summary, and both times now |
| Journal.Revise | src/journal/journal.go:118-122 | exactly one entry appended, numbered with Go's pointer + 1 (wrapping at the largest version) and stamped now; earlier entries kept; pointer moved to it; nothing else in the aggregate changes |
| Journal.Latest | src/journal/journal.go:337-340 | at most one entry, empty exactly when there are no entries, otherwise the last stored entry |
| Journal.MetaOf | src/journal/journal.go:155-161 | the metadata carries the aggregate's times, pointer, status and owner |
| Journal.FullOf | src/journal/journal.go:324-333 | the authenticated view carries every stored entry, the taxonomy, summary, times, pointer, status and owner |
| Journal.PublicOf | src/journal/journal.go:336-350 | the anonymous view carries at most one entry, none exactly when nothing is stored and otherwise the last stored one, with id, owner, pointer, status, taxonomy and summary |
| Journal.MetaIsPartOfFull | src/journal/journal.go:155-161 | the metadata is the full view without entries, taxonomy and summary |
| Journal.PublicViewIgnoresPointer | src/journal/journal.go:336-350 | the anonymous view's entries do not depend on the pointer: the last stored entry |
| Journal.Matches | src/journal/journal.go:369-406 | a matching aggregate has the filter's status, owner and date range where those are set; with no condition but status, matching is exactly having that status |
| Journal.Listed | src/journal/journal.go:369-404 | a listed aggregate is public, and belongs to the queried user and carries the queried category and tag when those are given; the empty query lists exactly the public aggregates |
| Journal.ListedExactly | src/journal/journal.go:369-419 | an aggregate is listed exactly when it is stored and selected by the query, and only public ones are |
| Journal.DateRangeSelectsNothing | src/journal/journal.go:379-384 | with both start and end given nothing matches: a BSON date never compares with strings |
| Journal.SeededPointerValidIff | src/journal/journal.go:70-80 | the created aggregate's pointer names a stored entry exactly when the posted entry has version 1 |
| Journal.ReviseMakesPointerValid | src/journal/journal.go:118-122 | after an update the current version is that of a stored entry, the appended one |
| Journal.ReviseAllKeepsNumbering | src/journal/journal.go:118-122 | while the numbers stay below the largest version, updates keep "entry i has version i + 1 from the second entry on, pointer at the last" and add one entry each |
| Journal.CreateThenUpdates | src/journal/journal.go:70-122 | after create and n updates (n below the largest version): n + 1 entries, the first as posted, entry i numbered i + 1, pointer n + 1 |
| Journal.RepointThenReviseDuplicates | src/journal/journal.go:118-122 | repointing below a stored version and then updating stores that version twice |
| Journal.RepointToMaxThenReviseWraps | src/journal/journal.go:118-122 | repointing to the largest version and updating appends an entry with the smallest version, which the pointer then names |
| Journal.JournalApi.constructor | src/journal/journal.go:15 | the collection starts empty |
| Journal.JournalApi.CreateJournalEntry | src/journal/journal.go:50-86 | no "user" is 401 with no insert; a nil or non-User value is 500; bind failure is 400; otherwise exactly one aggregate with pointer 1, the posted entry unchanged, status "pending" and the caller's id is appended and returned with 201 |
| Journal.JournalApi.UpdateJournalEntry | src/journal/journal.go:101-135 | bind failure is 400; a missing or foreign aggregate is 404 with no change; otherwise the owner's aggregate becomes its revision, returned with 200; no other aggregate changes |
| Journal.JournalApi.GetJournalMeta | src/journal/journal.go:145-164 | 200 with the metadata of the first aggregate with the id exactly when one exists, whoever owns it; otherwise 404 |
| Journal.JournalApi.ProcessJournalEntry | src/journal/journal.go:175-191 | the owner's aggregate, if any, gets status "processing" with updated_at untouched; nothing else changes; success reported either way |
| Journal.JournalApi.GetJournalVersions | src/journal/journal.go:201-212 | 200 with every stored entry of the first aggregate with the id exactly when one exists, with no owner check; otherwise 404 |
| Journal.JournalApi.SetJournalVersion | src/journal/journal.go:226-266 | bind failure 400; missing aggregate 404; success exactly when some stored entry has the version, and then only version and updated_at change, leaving a valid pointer; otherwise 400 "Version not found" with no change |
| Journal.JournalApi.SetJournalStatus | src/journal/journal.go:279-302 | bind failure 400; otherwise the owner's aggregate, if any, gets the status and updated_at; nothing else changes; success reported either way |
| Journal.JournalApi.GetJournalEntry | src/journal/journal.go:312-352 | 404 when no aggregate has the id; an absent or nil user gets the public view with at most the last entry; any other value gets the full view with all entries |
| Journal.JournalApi.GetPublicJournals | src/journal/journal.go:368-420 | the incrementally built filter selects exactly the aggregates of the conjunctive specification `Listed`, in store order |
| Journal.JournalApi.GetUserJournals | src/journal/journal.go:430-449 | an aggregate is returned exactly when it is stored and belongs to the user, in store order |
| Journal.JournalApi.DeleteJournalEntry | src/journal/journal.go:459-470 | removes at most the owner's first matching aggregate, none when nothing matched; others unchanged; success either way |
| Auth.EmailTaken | src/auth/auth.go:52-62 | a conflict exactly when the e-mail is non-empty and some user has it |
| Auth.AuthApi.constructor | src/auth/auth.go:16 | the users collection starts empty |
| Auth.AuthApi.Register | src/auth/auth.go:38-78 | 400 on bind failure first, then 500 on hash failure, then 409 on a taken e-mail, each with no insert; otherwise exactly one user with the fresh id, name, e-mail and the hash is appended; unique non-empty e-mails stay unique |
| Auth.AuthApi.Login | src/auth/auth.go:90-116 | 200 exactly when a user has the e-mail and the password matches its hash; then the token issued for that user's id is the body and the "token" cookie with max-age 3600; an unknown e-mail and a wrong password give the same 401 |
| Middleware.AuthMiddleware | src/auth/middleware.go:13-54 | "user" is set exactly when the cookie verifies and names a stored user, and it is the first stored user with the token's id; abort with 401 "Not authenticated" exactly when required and that fails; otherwise continue anonymously |
| Middleware.RequiredDiffersOnlyOnFailure | src/auth/middleware.go:15-48 | required and optional mode agree except where the first aborts and the second continues without a user |
| Strings.IndexOf | src/main.go:59 | the first position of the character; None exactly when it is absent |
| Strings.IndexOfAfter | src/main.go:59 | after a prefix free of the character, its first position is right after the prefix |
| Strings.LastIndexOf | src/main.go:53 | the last position of the character; None exactly when it is absent |
| Strings.Split | src/main.go:59 | at least one part; the first part is everything before the first separator |
| Strings.CountFromFirst | src/main.go:59 | counting a character from its first occurrence on accounts for all but one of them |
| Strings.SplitCount | src/main.go:59-62 | strings.Split gives one part more than there are separators |
| Strings.SplitPartsHaveNoSeparator | src/main.go:59-63 | no part contains the separator |
| Strings.JoinSplit | src/main.go:59 | joining the parts with the separator restores the string |
| Strings.Find | src/profile/image_store_s3.go:95 | the first position at or after `from` where the pattern occurs, and it occurs nowhere earlier; None when it occurs nowhere |
| Strings.ReplaceFirst | src/profile/image_store_s3.go:96 | without the target the string is unchanged; otherwise only the first occurrence is replaced, prefix and suffix kept |
| HostIdentifier.SplitHostPort | src/main.go:53-56 | a split exactly when there is one colon and no brackets, and host + ":" + port is the input |
| HostIdentifier.Hostname | src/main.go:53-56 | the host without its port when it splits, otherwise the whole host |
| HostIdentifier.ExtractSubdomain | src/main.go:51-67 | "" with fewer than three labels; otherwise the first label, a prefix of the hostname without "." |
| HostIdentifier.Identifier | src/main.go:34-46 | the subdomain when non-empty, else the e-mail when non-empty, else nothing |
| HostIdentifier.HostnameOfHostPort | src/main.go:53-56 | a host:port strips to its host |
| HostIdentifier.SubdomainOfThreeLabels | src/main.go:59-64 | a hostname of three or more labels yields its first label |
| HostIdentifier.NoSubdomainOfTwoLabels | src/main.go:59-67 | a hostname of two labels yields "" |
| HostIdentifier.DottedQuadWithPort | src/main.go:51-67 | a dotted quad with a port, such as 127.0.0.1:8080, yields its first octet |
| HostIdentifier.TwoLabelsWithPort | src/main.go:53-67 | a two-label host with a port, such as example.com:8080, yields "" |
| HostIdentifier.RequestContext.constructor | src/main.go:34-36 | the request context starts without keys |
| HostIdentifier.RequestContext.ExtractIdentifierMiddleware | src/main.go:34-46 | "identifier" is set to the identifier when there is one, and no other key changes |

## Left out

- Database errors: the in-memory store never fails. Every "Could not create/update/delete …" 500 path after a driver call, and the cursor decode errors, are not modelled. The connection set-up in `src/utils/database.go` is not part of this model.
- Gin routing, JSON binding and the Swagger annotations. A bind failure is the `Invalid` input; its message (`err.Error()` in the journal) is a parameter.
- bcrypt, JWT signing and parsing, UUID and ObjectID generation, and `time.Now`. They are parameters: `hashed`, `passwordMatches`, `issue`, `verify`, `freshID`, `now`. A few handlers call `time.Now` twice; the model uses one `now` for both.
- The AWS client calls and the CORS rules. Their outcomes are `S3Service` and `configLoads`. `HeadBucket` is taken to succeed exactly when the bucket exists. The S3 client's endpoint resolution and credentials are not modelled.
- The file system and multipart streams. `SaveIo` says whether create, copy and upload succeed. `JoinPath` is `filepath.Join` without its lexical clean-up (`..`, doubled or trailing slashes).
- The `cert_image` upload handlers of qualifications and certificates (`src/qualifications/qualifications.go:168-191`, `src/certificates/certificates.go:162-185`). They store a file handle in the database.
- HostIdentifier.SplitHostPort: does not model `net.SplitHostPort`'s bracketed IPv6 grammar, because only the plain host:port form matters to the subdomain rule; any bracket is treated as a failed split.
- Concurrency: the read-modify-write races in UpdateJournalEntry and SetJournalVersion, and the check-then-insert race in Register.
- Panics and logging: `MustGet("userID")` panics in the real handlers; here the owner id is a parameter. The `log.Panicln` calls in PutProfile and the debug prints are ignored.
- `main()`: configuration, environment loading, port parsing and server start-up. Logout, which only clears the cookie, is also left out.
- The placeholder "AI processing" comment in ProcessJournalEntry, which does nothing.
- Error texts: only the fixed part of a wrapped error (`fmt.Errorf("…: %w", err)`, `os.Create` errors) is modelled.
- Go's nil versus empty slices (`null` versus `[]` in JSON) are not distinguished. Profile's pointer fields are `Option`, with `None` standing for null.
- The authentication middleware on routes is not woven into the handlers. It is modelled as its own decision function, and each protected handler takes the authenticated caller, or its owner id, as input.
- Middleware.RequiredDiffersOnlyOnFailure: follows directly from AuthMiddleware's contract, so it adds no proof of its own.
