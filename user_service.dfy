/**
 * The user service: the upload loop that runs the chunks against the user table and
 * counts what was saved, the bearer-token ledger, the password change, the disconnect
 * and the lookup of the authenticated user. The user table is a sequence of rows that
 * the methods replace; a token is an object whose two flags the revocation sweep
 * flips in place.
 */
module UserService {
  import opened Wrappers
  import opened Sequences
  import opened Entities
  import opened UserImport

  // ---------------------------------------------------------------------------
  // Rows by username

  /** The first stored user with this username, if any. */
  function FindByUsername(users: seq<UserEntity>, username: string): (found: Option<UserEntity>)
    ensures found.Some? ==> found.value in users && found.value.username == username
    ensures found.None? <==> forall u :: u in users ==> u.username != username
  {
    if users == [] then None
    else if users[0].username == username then Some(users[0])
    else FindByUsername(users[1..], username)
  }

  /**
   * The repository's save: the row with the same username is replaced in place, and a
   * user not yet stored is appended.
   */
  function Save(users: seq<UserEntity>, user: UserEntity): (stored: seq<UserEntity>)
    ensures |stored| == |users| || |stored| == |users| + 1
  {
    if users == [] then [user]
    else if users[0].username == user.username then [user] + users[1..]
    else [users[0]] + Save(users[1..], user)
  }

  /** After a save, looking the user up by username finds the saved row. */
  lemma {:induction false} SaveThenFind(users: seq<UserEntity>, user: UserEntity)
    ensures FindByUsername(Save(users, user), user.username) == Some(user)
  {
    if users != [] && users[0].username != user.username {
      SaveThenFind(users[1..], user);
      assert Save(users, user)[1..] == Save(users[1..], user);
    }
  }

  /** A save leaves every other username's row as it was. */
  lemma {:induction false} SaveKeepsOthers(users: seq<UserEntity>, user: UserEntity, username: string)
    requires username != user.username
    ensures FindByUsername(Save(users, user), username) == FindByUsername(users, username)
  {
    if users != [] {
      if users[0].username == user.username {
        assert Save(users, user)[1..] == users[1..];
      } else if users[0].username != username {
        SaveKeepsOthers(users[1..], user, username);
        assert Save(users, user)[1..] == Save(users[1..], user);
      }
    }
  }

  /** A save adds a row exactly when the username was not stored yet. */
  lemma {:induction false} SaveGrowsOnlyForNewUsers(users: seq<UserEntity>, user: UserEntity)
    ensures |Save(users, user)| == if FindByUsername(users, user.username).None? then |users| + 1 else |users|
  {
    if users != [] && users[0].username != user.username {
      SaveGrowsOnlyForNewUsers(users[1..], user);
    }
  }

  // ---------------------------------------------------------------------------
  // The authenticated user

  /** What the security context holds about the caller. */
  datatype Authentication = Authentication(principal: string, authenticated: bool, anonymous: bool)

  /**
   * The current user: no authentication, an unauthenticated one or an anonymous one is
   * refused; otherwise the principal's row, which must exist.
   */
  function CurrentUser(users: seq<UserEntity>, auth: Option<Authentication>): (r: Result<UserEntity, ServiceError>)
    ensures r.Success? ==> auth.Some? && r.value in users && r.value.username == auth.value.principal
  {
    if auth.None? || !auth.value.authenticated || auth.value.anonymous then Failure(NoAuthenticateUser)
    else
      match FindByUsername(users, auth.value.principal)
      case None => Failure(ResourceNotFound)
      case Some(user) => Success(user)
  }

  /** The guard, both ways: a user is returned exactly for an authenticated, non-anonymous principal that is stored. */
  lemma CurrentUserGuard(users: seq<UserEntity>, auth: Option<Authentication>)
    ensures CurrentUser(users, auth).Success?
        <==> auth.Some? && auth.value.authenticated && !auth.value.anonymous
             && exists u :: u in users && u.username == auth.value.principal
    ensures CurrentUser(users, auth) == Failure(NoAuthenticateUser)
        <==> auth.None? || !auth.value.authenticated || auth.value.anonymous
  {
    if auth.Some? && auth.value.authenticated && !auth.value.anonymous {
      var found := FindByUsername(users, auth.value.principal);
      if found.Some? {
        assert found.value in users;
      }
    }
  }

  // ---------------------------------------------------------------------------
  // Tokens

  datatype TokenType = BEARER

  /** A token row. The owner, the string and the type never change; the sweep flips the flags. */
  class Token {
    const owner: string
    const value: string
    const tokenType: TokenType
    var expired: bool
    var revoked: bool

    /** A token is valid while neither flag is set. */
    predicate IsValid()
      reads this
    {
      !expired && !revoked
    }

    constructor (owner: string, value: string)
      ensures this.owner == owner && this.value == value && tokenType == BEARER
      ensures !expired && !revoked
    {
      this.owner := owner;
      this.value := value;
      tokenType := BEARER;
      expired := false;
      revoked := false;
    }
  }

  /** The valid tokens of a user, in ledger order: the repository's valid-token query. */
  function ValidTokens(tokens: seq<Token>, owner: string): (valid: seq<Token>)
    reads set t | t in tokens
    ensures forall t :: t in valid ==> t in tokens && t.owner == owner && t.IsValid()
    ensures forall t :: t in tokens && t.owner == owner && t.IsValid() ==> t in valid
  {
    if tokens == [] then []
    else
      var rest := ValidTokens(tokens[1..], owner);
      if tokens[0].owner == owner && tokens[0].IsValid() then [tokens[0]] + rest else rest
  }

  /** Whether a token was revoked: both flags are set. */
  predicate Revoked(t: Token)
    reads t
  {
    t.expired && t.revoked
  }

  // ---------------------------------------------------------------------------
  // The service

  /** A change-password request. */
  datatype ChangePasswordRequest = ChangePasswordRequest(currentPassword: string, newPassword: string, confirmationPassword: string)

  class UserServiceImpl {
    /** The user table. */
    var users: seq<UserEntity>
    /** The token table, in insertion order. */
    var tokens: seq<Token>
    /** How many bulk writes the token repository has received. */
    var tokenBulkWrites: nat

    constructor (users: seq<UserEntity>)
      ensures this.users == users && tokens == [] && tokenBulkWrites == 0
    {
      this.users := users;
      tokens := [];
      tokenBulkWrites := 0;
    }

    /**
     * The upload: `parsed` is the file's content as a list of records, or None when the
     * file could not be read as one, which fails with ResourceNotCreated and stores
     * nothing. Otherwise the chunks of 100 run one after another; each looks up its
     * stored keys, filters, prepares and bulk-saves, and a save that hits an integrity
     * violation adds nothing. The summary reports the records, the saved count and the
     * difference.
     */
    method UploadBatch(parsed: Option<seq<UserResponse>>, encode: string -> string) returns (r: Result<UploadSummary, ServiceError>)
      modifies this
      ensures parsed.None? ==> r == Failure(ResourceNotCreated) && users == old(users)
      ensures parsed.Some? ==>
                var outcome := Import(old(users), parsed.value, encode);
                && users == outcome.users
                && r == Success(Summarize(|parsed.value|, outcome.imported))
      ensures r.Success? ==> 0 <= r.value.successfullyImported <= r.value.totalRecords
                             && r.value.failedToImport == r.value.totalRecords - r.value.successfullyImported
      ensures tokens == old(tokens) && tokenBulkWrites == old(tokenBulkWrites)
    {
      if parsed.None? {
        return Failure(ResourceNotCreated);
      }
      var records := parsed.value;
      var totalRecords := |records|;
      var successfullyImported := ImportRecords(records, encode);
      UploadBound(old(users), records, encode);
      r := Success(Summarize(totalRecords, successfullyImported));
    }

    /**
     * The chunk loop of the upload: the records are grouped into chunks of 100 by index,
     * and each chunk looks up which of its emails and usernames are stored, keeps the
     * candidates with neither taken, prepares them and bulk-saves them; a save that hits
     * an integrity violation adds nothing. Returns how many rows were saved.
     */
    method ImportRecords(records: seq<UserResponse>, encode: string -> string) returns (successfullyImported: nat)
      modifies this
      ensures var outcome := Import(old(users), records, encode);
              users == outcome.users && successfullyImported == outcome.imported
      ensures tokens == old(tokens) && tokenBulkWrites == old(tokenBulkWrites)
    {
      successfullyImported := 0;
      var batches := ChunksFrom(records, 0);
      var i := 0;
      while i < |batches|
        invariant 0 <= i <= |batches|
        invariant var remaining := ImportAll(users, batches[i..], encode);
                  var outcome := Import(old(users), records, encode);
                  remaining.users == outcome.users && successfullyImported + remaining.imported == outcome.imported
        invariant tokens == old(tokens) && tokenBulkWrites == old(tokenBulkWrites)
      {
        var batch := batches[i];
        var existingEmails := EmailsOf(users) * RequestedEmails(batch);
        var existingUsernames := UsernamesOf(users) * RequestedUsernames(batch);
        var usersToSave := Prepare(Survivors(batch, existingEmails, existingUsernames), encode);
        var saved := SaveAll(users, usersToSave);
        ChunkSaved(users, batch, encode);
        assert batches[i..][0] == batch && batches[i..][1..] == batches[i + 1..];
        if saved.Some? {
          users := saved.value;
          successfullyImported := successfullyImported + |usersToSave|;
        }
        i := i + 1;
      }
    }

    /** Issuing a token: one new valid BEARER token for the user is appended to the ledger. */
    method SaveUserToken(user: UserEntity, jwtToken: string)
      modifies this
      ensures |tokens| == |old(tokens)| + 1 && tokens[..|old(tokens)|] == old(tokens)
      ensures var t := tokens[|tokens| - 1];
              fresh(t) && t.owner == user.username && t.value == jwtToken && t.tokenType == BEARER && t.IsValid()
      ensures ValidTokens(tokens, user.username) == old(ValidTokens(tokens, user.username)) + [tokens[|tokens| - 1]]
      ensures users == old(users) && tokenBulkWrites == old(tokenBulkWrites)
    {
      var token := new Token(user.username, jwtToken);
      tokens := tokens + [token];
      ValidTokensAppend(old(tokens), token, user.username);
    }

    /**
     * Revocation: every valid token of the user gets both flags set, and the changed
     * tokens go to the repository in one bulk write; with no valid token nothing is
     * written. No other token changes, and no token becomes valid again.
     */
    method RevokeAllUserTokens(user: UserEntity)
      modifies this, set t | t in tokens
      ensures tokens == old(tokens) && users == old(users)
      ensures forall t :: t in tokens && t.owner == user.username && old(t.IsValid()) ==> Revoked(t)
      ensures forall t :: t in tokens && !(t.owner == user.username && old(t.IsValid())) ==>
                t.expired == old(t.expired) && t.revoked == old(t.revoked)
      ensures tokenBulkWrites == old(tokenBulkWrites) + if old(ValidTokens(tokens, user.username)) == [] then 0 else 1
      ensures ValidTokens(tokens, user.username) == []
    {
      var validUserTokens := ValidTokens(tokens, user.username);
      if validUserTokens != [] {
        var i := 0;
        while i < |validUserTokens|
          invariant 0 <= i <= |validUserTokens|
          invariant forall k :: 0 <= k < i ==> Revoked(validUserTokens[k])
          invariant forall t :: t in tokens && t !in validUserTokens[..i] ==>
                      t.expired == old(t.expired) && t.revoked == old(t.revoked)
          invariant tokens == old(tokens) && users == old(users) && tokenBulkWrites == old(tokenBulkWrites)
          modifies set t | t in validUserTokens
        {
          validUserTokens[i].expired := true;
          validUserTokens[i].revoked := true;
          i := i + 1;
        }
        assert validUserTokens[..i] == validUserTokens;
        tokenBulkWrites := tokenBulkWrites + 1;
      }
      NoneValidLeft(tokens, user.username);
    }

    /**
     * The password change of the connected user: a current password that does not match
     * the stored one fails with WrongPassword, then a confirmation that differs from the
     * new password fails with PasswordsNotTheSame; otherwise the user is saved with the
     * new password encoded.
     */
    method ChangePassword(request: ChangePasswordRequest, connectedUser: UserEntity,
                          matches: (string, string) -> bool, encode: string -> string)
      returns (r: Outcome<ServiceError>)
      modifies this
      ensures !matches(request.currentPassword, connectedUser.password) ==>
                r == Fail(WrongPassword) && users == old(users)
      ensures matches(request.currentPassword, connectedUser.password) && request.newPassword != request.confirmationPassword ==>
                r == Fail(PasswordsNotTheSame) && users == old(users)
      ensures r.Pass? <==> matches(request.currentPassword, connectedUser.password) && request.newPassword == request.confirmationPassword
      ensures r.Pass? ==> users == Save(old(users), connectedUser.(password := encode(request.newPassword)))
      ensures tokens == old(tokens) && tokenBulkWrites == old(tokenBulkWrites)
    {
      if !matches(request.currentPassword, connectedUser.password) {
        return Fail(WrongPassword);
      }
      if request.newPassword != request.confirmationPassword {
        return Fail(PasswordsNotTheSame);
      }
      var user := connectedUser.(password := encode(request.newPassword));
      users := Save(users, user);
      r := Pass;
    }

    /** Disconnecting a user: with a user, its row is saved with status OFFLINE; with none, nothing happens. */
    method Disconnect(user: Option<UserEntity>)
      modifies this
      ensures user.None? ==> users == old(users)
      ensures user.Some? ==> users == Save(old(users), user.value.(status := OFFLINE))
      ensures tokens == old(tokens) && tokenBulkWrites == old(tokenBulkWrites)
    {
      if user.Some? {
        var offline := user.value.(status := OFFLINE);
        users := Save(users, offline);
      }
    }
  }

  /** A fresh service holding two tokens of `first` and then one of `second`, all valid. */
  method IssueThreeTokens(first: UserEntity, second: UserEntity, store: seq<UserEntity>)
    returns (service: UserServiceImpl, t1: Token, t2: Token, t3: Token)
    ensures fresh(service) && fresh(t1) && fresh(t2) && fresh(t3)
    ensures service.tokens == [t1, t2, t3] && service.tokenBulkWrites == 0
    ensures t1.owner == first.username && t2.owner == first.username && t3.owner == second.username
    ensures t1.IsValid() && t2.IsValid() && t3.IsValid()
  {
    service := new UserServiceImpl(store);
    service.SaveUserToken(first, "first-1");
    t1 := service.tokens[0];
    assert service.tokens == [t1];
    service.SaveUserToken(first, "first-2");
    t2 := service.tokens[1];
    assert service.tokens == [t1, t2];
    service.SaveUserToken(second, "second-1");
    t3 := service.tokens[2];
  }

  /**
   * Revocation on a service holding two tokens of one user and one of another: both
   * of the first user's tokens end revoked, in a single bulk write, and the other
   * user's token stays valid.
   */
  method RevocationScenario(first: UserEntity, second: UserEntity, store: seq<UserEntity>)
    returns (bothRevoked: bool, otherValid: bool, bulkWrites: nat)
    requires first.username != second.username
    ensures bothRevoked && otherValid && bulkWrites == 1
  {
    var service, t1, t2, t3 := IssueThreeTokens(first, second, store);
    assert forall t :: t in service.tokens ==> fresh(t);
    service.RevokeAllUserTokens(first);
    assert t1 in service.tokens && t2 in service.tokens && t3 in service.tokens;
    bothRevoked := Revoked(t1) && Revoked(t2);
    otherValid := t3.IsValid();
    bulkWrites := service.tokenBulkWrites;
  }

  /** A token issued after a revocation is valid and is the user's only valid token. */
  method ReissueScenario(user: UserEntity, store: seq<UserEntity>)
    returns (validAfterRevoke: nat, validAfterReissue: nat)
    ensures validAfterRevoke == 0 && validAfterReissue == 1
  {
    var service := new UserServiceImpl(store);
    service.SaveUserToken(user, "old");
    service.RevokeAllUserTokens(user);
    validAfterRevoke := |ValidTokens(service.tokens, user.username)|;
    service.SaveUserToken(user, "new");
    validAfterReissue := |ValidTokens(service.tokens, user.username)|;
  }

  // ---------------------------------------------------------------------------
  // Facts the methods use

  /** The chunk step spelled out as the upload loop performs it: look up, filter, prepare, save. */
  lemma ChunkSaved(users: seq<UserEntity>, chunk: seq<UserResponse>, encode: string -> string)
    ensures var toSave := Prepare(Survivors(chunk, EmailsOf(users) * RequestedEmails(chunk), UsernamesOf(users) * RequestedUsernames(chunk)), encode);
            var saved := SaveAll(users, toSave);
            ImportChunk(users, chunk, encode) == if saved.Some? then ImportState(saved.value, |toSave|) else ImportState(users, 0)
  {
  }

  /** Appending a valid token of the owner appends it to the owner's valid tokens; other owners are unaffected. */
  lemma {:induction false} ValidTokensAppend(tokens: seq<Token>, t: Token, owner: string)
    ensures ValidTokens(tokens + [t], owner)
         == ValidTokens(tokens, owner) + (if t.owner == owner && t.IsValid() then [t] else [])
  {
    if tokens == [] {
      assert [] + [t] == [t];
    } else {
      ValidTokensAppend(tokens[1..], t, owner);
      assert (tokens + [t])[1..] == tokens[1..] + [t];
    }
  }

  /** A ledger whose tokens of the owner are all revoked has no valid token for the owner. */
  lemma {:induction false} NoneValidLeft(tokens: seq<Token>, owner: string)
    requires forall t :: t in tokens && t.owner == owner ==> !t.IsValid()
    ensures ValidTokens(tokens, owner) == []
  {
    if tokens != [] {
      NoneValidLeft(tokens[1..], owner);
    }
  }
}
