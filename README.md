# User service core of cirestechnologies, modelled in Dafny

This project models the user-management core of the cirestechnologies Spring application:

- **Random user generation.** A count is split over a worker pool by index remainder. Each
  slot becomes one user with the role ROLE or ADMIN and a gender of MALE or FEMALE.
- **Bulk import of uploaded users.** The upload is cut into chunks of 100 by index. Each chunk
  is filtered against the emails and usernames already stored. The new candidates are
  prepared (enabled, unlocked, password encoded) and bulk-saved under the table's unique
  constraints. The upload reports total, imported and failed counts.
- **Bearer-token ledger.** Tokens are issued and later revoked.
- **Password change, disconnection and the current-user lookup.**
- **The `Role`/`Permission` enumerations** and the authority list a role grants.
- **The two request guards of the user controller.**

Files:

- `wrappers.dfy`: `Option`, `Result` and `Outcome`.
- `sequences.dfy`: `Distinct`, `Flatten`, `Range` and generic facts about them.
- `permission.dfy`, `role.dfy`: the two enumerations.
- `entities.dfy`: the records the core exchanges.
- `generation.dfy`: `generateUsers` and `generateBatch` as functions. The source is stream
  expressions.
- `import.dfy`: the upload's behaviour, as functions over the user table.
- `user_service.dfy`: the service as a class.
  - Its `users`/`tokens` fields are updated by its methods.
  - The upload's chunk loop is proved against `import.dfy`.
  - Tokens are objects whose `expired`/`revoked` flags are flipped in place by the revocation
    sweep.
- `user_controller.dfy`: the generation and upload endpoints.

The upload's behaviour, as proved:

- Every record of the upload falls in exactly one chunk, in order.
- A candidate is imported only if neither its email nor its username was stored before.
  So the import never stores more than the candidates new to the store.
- Within one chunk, two new candidates that share a key make the chunk's bulk save fail.
  The whole chunk is then lost, including its unrelated new candidates.
- An upload that repeats no key stores every new candidate, in upload order, and counts
  exactly those. Uploading it again imports nothing.
- `totalRecords == successfullyImported + failedToImport`, with `0 <= successfullyImported <= totalRecords`.

## Model

| member | source | states |
|---|---|---|
| Permissions.EightConstants | src/main/java/com/ouharri/cirestechnologies/model/enums/Permission.java:19-54 | every permission is one of the eight declared constants, and there are exactly eight |
| Permissions.AuthorityIsScopeAndAction | src/main/java/com/ouharri/cirestechnologies/model/enums/Permission.java:19-56 | the authority string of ADMIN_x is "admin:x" and that of ROLE_x is "management:x", against an independent scope/action reading of the constant names |
| Permissions.AuthorityInjective | src/main/java/com/ouharri/cirestechnologies/model/enums/Permission.java:19-56 | distinct constants carry distinct authority strings |
| Permissions.Authority | src/main/java/com/ouharri/cirestechnologies/model/enums/Permission.java:19-54 | the authority string of each of the eight constants, "admin:" or "management:" followed by read, update, create or delete (its properties are the contracts of AuthorityIsScopeAndAction and AuthorityInjective) |
| Roles.PermissionsOf | src/main/java/com/ouharri/cirestechnologies/model/enums/Role.java:25-49 | USER is declared with no permissions, ROLE and ADMIN with four each |
| Roles.GetAuthorities | src/main/java/com/ouharri/cirestechnologies/model/enums/Role.java:60-69 | the list starts with "ROLE_" + the constant's name, followed by the authority strings of exactly the role's permissions, each once; entry k+1 is the authority of the k-th permission in the set's iteration order |
| Roles.HasAuthority | src/main/java/com/ouharri/cirestechnologies/services/impl/UserServiceImpl.java:246-247 | the `hasAuthority` check holds exactly for "ROLE_" + the role's name and for the authority strings of the role's permissions |
| Roles.UserAuthorities | src/main/java/com/ouharri/cirestechnologies/model/enums/Role.java:25-69 | USER, declared with the empty set, grants only "ROLE_USER" |
| Roles.PermissionsByScope | src/main/java/com/ouharri/cirestechnologies/model/enums/Role.java:25-49 | ROLE holds exactly the management permissions and ADMIN exactly the admin ones, and USER holds none |
| Roles.RoleAndAdminDisjoint | src/main/java/com/ouharri/cirestechnologies/model/enums/Role.java:30-49 | the permission sets of ROLE and ADMIN, and their authority strings, are disjoint |
| Roles.PermissionIsNotRoleAuthority | src/main/java/com/ouharri/cirestechnologies/model/enums/Role.java:60-69 | no permission string equals any "ROLE_" authority |
| Roles.AdminGuard | src/main/java/com/ouharri/cirestechnologies/model/enums/Role.java:60-69 | a role has the authority "ROLE_ADMIN" if and only if it is ADMIN |
| UserGeneration.NumThreads | src/main/java/com/ouharri/cirestechnologies/services/impl/UserServiceImpl.java:122-123 | the worker count is between 1 and max(1, processors); it is 1 below 2000 users and all processors once count reaches 1000 per processor; more than one worker means at least 1000 indices each, and fewer workers than max(1, processors) means one more would fall below 1000, so the count is exactly max(1, min(count/1000, processors)) (Java's truncating division) |
| UserGeneration.GroupFrom | src/main/java/com/ouharri/cirestechnologies/services/impl/UserServiceImpl.java:125-127 | a group holds exactly the indices in range with the given remainder, without repeats |
| UserGeneration.Partition | src/main/java/com/ouharri/cirestechnologies/services/impl/UserServiceImpl.java:125-128 | grouping by `i % n` yields min(n, count) groups, none for a non-positive count |
| UserGeneration.PartitionGroups | src/main/java/com/ouharri/cirestechnologies/services/impl/UserServiceImpl.java:125-128 | group k holds exactly the indices below count with remainder k, and is never empty |
| UserGeneration.PartitionDisjoint | src/main/java/com/ouharri/cirestechnologies/services/impl/UserServiceImpl.java:125-128 | no index lies in two groups |
| UserGeneration.PartitionHome | src/main/java/com/ouharri/cirestechnologies/services/impl/UserServiceImpl.java:125-128 | every index below count lies in the group of its remainder |
| UserGeneration.PartitionCovers | src/main/java/com/ouharri/cirestechnologies/services/impl/UserServiceImpl.java:125-128 | the groups together hold exactly the indices 0 .. count-1 |
| UserGeneration.GenerationOrder | src/main/java/com/ouharri/cirestechnologies/services/impl/UserServiceImpl.java:125-137 | the concatenated groups hold an index exactly when it lies in 0 .. count-1 |
| UserGeneration.GenerationOrderDistinct | src/main/java/com/ouharri/cirestechnologies/services/impl/UserServiceImpl.java:125-140 | the concatenated groups repeat no index |
| UserGeneration.GenerationOrderIsPermutation | src/main/java/com/ouharri/cirestechnologies/services/impl/UserServiceImpl.java:121-145 | the indices handed to the workers are a permutation of 0 .. count-1 |
| UserGeneration.Synthesize | src/main/java/com/ouharri/cirestechnologies/services/impl/UserServiceImpl.java:155-170 | a generated user keeps the drawn profile, username, email and password; its role is ROLE or ADMIN by the draw's role coin, never USER, and its gender is MALE or FEMALE by the draw's gender coin |
| UserGeneration.GenerateBatch | src/main/java/com/ouharri/cirestechnologies/services/impl/UserServiceImpl.java:153-173 | one user per index of the batch, built from that index's draw, in batch order |
| UserGeneration.GenerateAll | src/main/java/com/ouharri/cirestechnologies/services/impl/UserServiceImpl.java:133-140 | joining the workers' lists equals generating the concatenated groups |
| UserGeneration.GenerateUsers | src/main/java/com/ouharri/cirestechnologies/services/impl/UserServiceImpl.java:121-145 | exactly max(0, count) users, the j-th built from slot j of the generation order, none with role USER |
| UserGeneration.EachSlotGeneratedOnce | src/main/java/com/ouharri/cirestechnologies/services/impl/UserServiceImpl.java:121-145 | every requested slot yields a record, and no slot yields two |
| UserImport.Chunk | src/main/java/com/ouharri/cirestechnologies/services/impl/UserServiceImpl.java:187-199 | chunk c holds 1 to 100 records; every chunk but the last holds exactly 100; the records from chunk c on are chunk c followed by those from chunk c+1 on |
| UserImport.ChunkOfIndex | src/main/java/com/ouharri/cirestechnologies/services/impl/UserServiceImpl.java:191-199 | record i lands in chunk i / 100, at position i % 100 |
| UserImport.ChunksCover | src/main/java/com/ouharri/cirestechnologies/services/impl/UserServiceImpl.java:191-199 | the chunks, concatenated, give back the upload: nothing lost, nothing repeated, order kept |
| UserImport.ChunksFrom | src/main/java/com/ouharri/cirestechnologies/services/impl/UserServiceImpl.java:191-194 | there is one chunk per value of i / 100 from c on, and the k-th one is chunk c + k |
| UserImport.Survivors | src/main/java/com/ouharri/cirestechnologies/services/impl/UserServiceImpl.java:207-208 | the filter keeps at most the batch |
| UserImport.SurvivorsMembership | src/main/java/com/ouharri/cirestechnologies/services/impl/UserServiceImpl.java:207-208 | a candidate survives if and only if it is in the batch and neither its email nor its username is taken |
| UserImport.SurvivorsAppend | src/main/java/com/ouharri/cirestechnologies/services/impl/UserServiceImpl.java:207-208 | filtering keeps the batch order: filtering a concatenation filters each part |
| UserImport.SurvivorsLookup | src/main/java/com/ouharri/cirestechnologies/services/impl/UserServiceImpl.java:201-208 | filtering against the stored keys among the batch's own keys (the two bulk lookups) keeps exactly what filtering against all stored keys keeps |
| UserImport.SurvivorsAgree | src/main/java/com/ouharri/cirestechnologies/services/impl/UserServiceImpl.java:207-208 | two key sets that judge every candidate alike filter the batch alike |
| UserImport.SurvivorsNone | src/main/java/com/ouharri/cirestechnologies/services/impl/UserServiceImpl.java:207-208 | a batch whose every candidate clashes keeps nothing |
| UserImport.SurvivorsShrink | src/main/java/com/ouharri/cirestechnologies/services/impl/UserServiceImpl.java:204-208 | more stored keys never let more candidates through |
| UserImport.ToEntity | src/main/java/com/ouharri/cirestechnologies/services/impl/UserServiceImpl.java:209-215 | a saved survivor is enabled and unlocked, has the encoded password, and keeps the email, username, profile and role |
| UserImport.Prepare | src/main/java/com/ouharri/cirestechnologies/services/impl/UserServiceImpl.java:207-216 | one entity per survivor |
| UserImport.PrepareEntries | src/main/java/com/ouharri/cirestechnologies/services/impl/UserServiceImpl.java:209-216 | entity k is survivor k converted |
| UserImport.PrepareAppend | src/main/java/com/ouharri/cirestechnologies/services/impl/UserServiceImpl.java:207-216 | preparing a concatenation prepares each part, in order |
| UserImport.SaveAll | src/main/java/com/ouharri/cirestechnologies/services/impl/UserServiceImpl.java:218-223 | a successful bulk save appends the whole list and keeps the table's unique constraints; a failed one (integrity violation) stores nothing |
| UserImport.ImportChunk | src/main/java/com/ouharri/cirestechnologies/services/impl/UserServiceImpl.java:196-224 | a chunk counts at most its own size |
| UserImport.ImportAll | src/main/java/com/ouharri/cirestechnologies/services/impl/UserServiceImpl.java:195-224 | the chunks, run one after another against the growing store, count at most the records they hold |
| UserImport.Import | src/main/java/com/ouharri/cirestechnologies/services/impl/UserServiceImpl.java:191-224 | the whole upload counts at most its own number of records as imported |
| UserImport.ImportChunkOutcome | src/main/java/com/ouharri/cirestechnologies/services/impl/UserServiceImpl.java:218-223 | a chunk either leaves the store as it was and counts 0, or appends all its prepared survivors and counts them |
| UserImport.ImportChunkAppends | src/main/java/com/ouharri/cirestechnologies/services/impl/UserServiceImpl.java:218-220 | a chunk only appends, one row per counted record |
| UserImport.ImportChunkKeepsKeys | src/main/java/com/ouharri/cirestechnologies/services/impl/UserServiceImpl.java:218-220 | keys stored before a chunk are still stored after it |
| UserImport.ImportChunkKeepsUnique | src/main/java/com/ouharri/cirestechnologies/services/impl/UserServiceImpl.java:218-223 | a chunk never breaks the unique constraints on email and username |
| UserImport.ImportGrows | src/main/java/com/ouharri/cirestechnologies/services/impl/UserServiceImpl.java:191-224 | the store grows by exactly the imported count |
| UserImport.ImportKeepsRows | src/main/java/com/ouharri/cirestechnologies/services/impl/UserServiceImpl.java:191-224 | the rows stored before the import stay, in place |
| UserImport.ImportKeepsUnique | src/main/java/com/ouharri/cirestechnologies/services/impl/UserServiceImpl.java:191-224 | the import keeps the unique constraints |
| UserImport.ImportBoundStep | src/main/java/com/ouharri/cirestechnologies/services/impl/UserServiceImpl.java:201-224 | one chunk imports at most its survivors, and only narrows what later chunks can import |
| UserImport.ImportBound | src/main/java/com/ouharri/cirestechnologies/services/impl/UserServiceImpl.java:191-224 | the chunks import at most the candidates new to the store before the import began |
| UserImport.UploadBound | src/main/java/com/ouharri/cirestechnologies/services/impl/UserServiceImpl.java:182-236 | an upload imports at most its candidates new to the store, hence at most its records |
| UserImport.KeysOfAppend | src/main/java/com/ouharri/cirestechnologies/services/impl/UserServiceImpl.java:204-205 | the stored keys after an append are the old keys plus the appended ones |
| UserImport.UploadDistinctSplit | src/main/java/com/ouharri/cirestechnologies/services/impl/UserServiceImpl.java:191-199 | the parts of an upload without repeated keys repeat none and share none |
| UserImport.SurvivorsDistinct | src/main/java/com/ouharri/cirestechnologies/services/impl/UserServiceImpl.java:207-208 | filtering an upload without repeated keys keeps one without repeated keys |
| UserImport.PreparedKeysFree | src/main/java/com/ouharri/cirestechnologies/services/impl/UserServiceImpl.java:207-219 | for a chunk without repeated keys, the list handed to saveAll repeats no key and takes no stored key |
| UserImport.SharedKeyLosesChunk | src/main/java/com/ouharri/cirestechnologies/services/impl/UserServiceImpl.java:218-223 | two new candidates of a chunk that share an email or username make the chunk import nothing and leave the store unchanged |
| UserImport.DistinctChunkSaves | src/main/java/com/ouharri/cirestechnologies/services/impl/UserServiceImpl.java:218-220 | a chunk without repeated keys saves all its survivors |
| UserImport.LaterCandidatesUnaffected | src/main/java/com/ouharri/cirestechnologies/services/impl/UserServiceImpl.java:201-208 | within an upload without repeated keys, storing one chunk does not change which later candidates are new |
| UserImport.DistinctStep | src/main/java/com/ouharri/cirestechnologies/services/impl/UserServiceImpl.java:191-224 | the first chunk of such an upload saves its survivors, and the rest still see their candidates as new |
| UserImport.DistinctCountStep | src/main/java/com/ouharri/cirestechnologies/services/impl/UserServiceImpl.java:218-220 | the counts of such an upload add up to its number of new candidates |
| UserImport.DistinctStoreStep | src/main/java/com/ouharri/cirestechnologies/services/impl/UserServiceImpl.java:218-220 | the store after such an upload is the old one plus its prepared new candidates |
| UserImport.ImportDistinct | src/main/java/com/ouharri/cirestechnologies/services/impl/UserServiceImpl.java:191-224 | chunks without repeated keys store exactly their new candidates, in order, and count them |
| UserImport.UploadDistinctImportsAllNew | src/main/java/com/ouharri/cirestechnologies/services/impl/UserServiceImpl.java:182-236 | an upload without repeated keys never hits an integrity violation: it stores all its new candidates, in upload order, and counts them |
| UserImport.AllCandidatesTaken | src/main/java/com/ouharri/cirestechnologies/services/impl/UserServiceImpl.java:201-224 | after such an upload, none of its candidates is new to the store |
| UserImport.ReimportImportsNothing | src/main/java/com/ouharri/cirestechnologies/services/impl/UserServiceImpl.java:182-236 | an upload without repeated keys, imported again, imports nothing |
| UserImport.ReimportCanImportMore | src/main/java/com/ouharri/cirestechnologies/services/impl/UserServiceImpl.java:201-223 | with a repeated key, importing the same upload again can import more: A and 99 copies of B (sharing A's email) then C (sharing B's username) import 1, and 1 again |
| UserImport.SummaryBounds | src/main/java/com/ouharri/cirestechnologies/services/impl/UserServiceImpl.java:226-232 | the summary's imported and failed counts lie between 0 and the total, and they add up to it |
| UserImport.Summarize | src/main/java/com/ouharri/cirestechnologies/services/impl/UserServiceImpl.java:226-232 | the summary carries the total and the imported count, and the failed count is what remains |
| UserService.FindByUsername | src/main/java/com/ouharri/cirestechnologies/services/impl/UserServiceImpl.java:277-280 | a found user is stored under that username; nothing is found if and only if no stored user has it |
| UserService.Save | src/main/java/com/ouharri/cirestechnologies/services/impl/UserServiceImpl.java:321-323 | a save replaces one row or adds one |
| UserService.SaveThenFind | src/main/java/com/ouharri/cirestechnologies/services/impl/UserServiceImpl.java:321-323 | after a save, looking the username up finds the saved user |
| UserService.SaveKeepsOthers | src/main/java/com/ouharri/cirestechnologies/services/impl/UserServiceImpl.java:331-335 | a save leaves every other username's row as it was |
| UserService.SaveGrowsOnlyForNewUsers | src/main/java/com/ouharri/cirestechnologies/services/impl/UserServiceImpl.java:321-323 | a save adds a row if and only if the username was not stored |
| UserService.CurrentUser | src/main/java/com/ouharri/cirestechnologies/services/impl/UserServiceImpl.java:100-113 | a returned user is stored under the principal's name, which requires an authentication |
| UserService.CurrentUserGuard | src/main/java/com/ouharri/cirestechnologies/services/impl/UserServiceImpl.java:100-113 | a user is returned if and only if the caller is authenticated, not anonymous and stored; NoAuthenticateUser is raised if and only if the authentication is missing, unauthenticated or anonymous |
| UserService.ValidTokens | src/main/java/com/ouharri/cirestechnologies/services/impl/UserServiceImpl.java:372-373 | the valid-token query returns exactly the user's tokens with neither flag set |
| UserService.Token.constructor | src/main/java/com/ouharri/cirestechnologies/services/impl/UserServiceImpl.java:356-363 | a new token is BEARER, not expired, not revoked |
| UserService.UserServiceImpl.UploadBatch | src/main/java/com/ouharri/cirestechnologies/services/impl/UserServiceImpl.java:182-236 | an unreadable file fails with ResourceNotCreated and stores nothing; otherwise the store and the summary are those of the chunked import, with a consistent summary |
| UserService.UserServiceImpl.ImportRecords | src/main/java/com/ouharri/cirestechnologies/services/impl/UserServiceImpl.java:187-224 | the chunk loop leaves the store and the count that the chunked import specifies |
| UserService.UserServiceImpl.SaveUserToken | src/main/java/com/ouharri/cirestechnologies/services/impl/UserServiceImpl.java:356-365 | one new valid BEARER token for the user is appended; the user's valid tokens gain exactly that token |
| UserService.UserServiceImpl.RevokeAllUserTokens | src/main/java/com/ouharri/cirestechnologies/services/impl/UserServiceImpl.java:372-381 | each previously valid token of the user gets both flags set, no other token changes, the user is left with no valid token, and one bulk write happens if and only if there was a valid token |
| UserService.UserServiceImpl.ChangePassword | src/main/java/com/ouharri/cirestechnologies/services/impl/UserServiceImpl.java:310-324 | WrongPassword is checked first, then PasswordsNotTheSame; it succeeds if and only if both checks pass, and then it saves the user with the new password encoded |
| UserService.UserServiceImpl.Disconnect | src/main/java/com/ouharri/cirestechnologies/services/impl/UserServiceImpl.java:331-336 | a present user is saved with status OFFLINE; an absent one changes nothing |
| UserService.IssueThreeTokens | src/main/java/com/ouharri/cirestechnologies/services/impl/UserServiceImpl.java:356-365 | three issued tokens are stored in order, all valid, with their owners |
| UserService.RevocationScenario | src/test/java/com/ouharri/services/impl/UserServiceImplTest.java:84-95 | with two valid tokens for one user, a revocation sets both flags on both, in one bulk write, and another user's token stays valid |
| UserService.ReissueScenario | src/main/java/com/ouharri/cirestechnologies/services/impl/UserServiceImpl.java:356-381 | after a revocation the user has no valid token; a token issued afterwards is the only valid one |
| UserService.ValidTokensAppend | src/main/java/com/ouharri/cirestechnologies/services/impl/UserServiceImpl.java:356-365 | appending a token adds it to its owner's valid tokens when it is valid, and changes nothing for other owners |
| UserService.NoneValidLeft | src/main/java/com/ouharri/cirestechnologies/services/impl/UserServiceImpl.java:372-381 | a user whose tokens are all flagged has no valid token |
| UserController.Decimal | src/main/java/com/ouharri/cirestechnologies/controllers/UserController.java:57 | the count is written as non-empty decimal digits without leading zeros |
| UserController.DecimalRoundTrip | src/main/java/com/ouharri/cirestechnologies/controllers/UserController.java:57 | reading the written digits back gives the count |
| UserController.AttachmentNameInjective | src/main/java/com/ouharri/cirestechnologies/controllers/UserController.java:57 | different counts are downloaded under different file names |
| UserController.AttachmentName | src/main/java/com/ouharri/cirestechnologies/controllers/UserController.java:57 | the name is "generated_", then the decimal digits that read back as the count, then "_users.json" |
| UserController.GenerateUser | src/main/java/com/ouharri/cirestechnologies/controllers/UserController.java:46-67 | the request is rejected with ResourceNotFound if and only if the count is outside 1..200000; there is no content if and only if the service returns nothing; otherwise the service's users are sent under "generated_<count>_users.json" |
| UserController.GenerateUserWithService | src/main/java/com/ouharri/cirestechnologies/controllers/UserController.java:46-67 | with the real generator, an accepted count always yields exactly count users, none with role USER, so the no-content branch is never taken; any other count is rejected |
| UserController.UploadGuard | src/main/java/com/ouharri/cirestechnologies/controllers/UserController.java:78-82 | a file whose declared type is not "application/json" is refused for its format, whatever its size; a JSON file is refused as empty if and only if its size is 0; the upload passes if and only if both checks pass |
| UserController.UploadUserBatch | src/main/java/com/ouharri/cirestechnologies/controllers/UserController.java:76-91 | a failed guard or an unreadable file gives 400 and stores nothing; otherwise the store is that of the import and the response carries its summary; tokens are untouched |

## Left out

- Concurrency:
  - The thread pool, `parallelStream` and `CompletableFuture` scheduling are not modelled.
  - Upload chunks run one after another in ascending order. In the source they may
    interleave, so the dedup-then-insert race between chunks is not modelled.
  - A revocation racing with token issue is not modelled.
  - `@Transactional` is not modelled.
- Generation:
  - The order of the generated list is one fixed order, the groups one after another. The
    source leaves it unspecified.
  - The Faker and `Random` values are a parameter `draw`, so their content is arbitrary.
  - The `InterruptedException`/`ExecutionException` path is not modelled.
- Parsing and password encoding:
  - The JSON reading of the uploaded file is an `Option` parameter: `None` when the file is
    not a list of user records.
  - `PasswordEncoder.encode` and `matches` are function parameters.
- Persistence:
  - The repositories are values. Users are keyed by username, and a token's owner is its
    user's username; JPA ids are not modelled.
  - A store outage, and any other exception inside a chunk besides the integrity
    violation, are not modelled.
  - `findAllValidTokenByUser` is modelled as the user's tokens with neither flag set. The
    repository that declares it is not part of this model.
- The declarations of `Gender` and of the `Token`/`TokenType` entities are not among the
  modelled source files. Both are reconstructed: `Gender` as MALE | FEMALE, a token as a
  BEARER token with two flags.
- Mapping: `modelMapper`/`UserMapper` conversions copy the fields named in `ToEntity`; DTO
  mapping of results is not modelled. The mapper's handling of gender and status is not
  part of this model, so `ToEntity` sets them to fixed defaults, MALE and OFFLINE, that
  the model chose. No contract depends on them.
- HTTP:
  - Response headers other than the file name are not modelled.
  - Status codes are datatype constructors.
  - The mapping of `ResourceNotFoundException` to a status by the exception handler is not
    modelled.
- Java `int` overflow is not modelled. Counts are mathematical integers; an upload has
  fewer than 2^31 records.
- `changeRole`, `findByEmail`, `findByUsernameOrEmail`, `findById` and `getUserByUsername`
  are outside the modelled core. Of these, only `changeRole` and `getUserByUsername` carry a
  `hasAuthority('ROLE_ADMIN')` guard. That guard is modelled by `Roles.AdminGuard`. The
  three lookups have no guard.
- Token issue by the authentication flow is not modelled. That caller is not part of this
  model.
- UserService.Save: a save is modelled on the row with the same username. JPA merges by
  id, which this model does not carry.
- UserImport.Prepare: its own contract gives only the length. The entries are stated by
  `PrepareEntries`.
- UserImport.ReimportImportsNothing: promised only for uploads that repeat no key. When a
  chunk repeats a key, its single `saveAll` fails as a whole. A second import can then
  save members of that chunk whose clashing partner is now filtered out by a key stored
  in a later chunk. `ReimportCanImportMore` shows an upload of 101 records for which both
  imports count 1.
