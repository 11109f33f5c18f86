/**
 * Bulk import of uploaded user records, as functions over the user table: the split into
 * chunks of 100 by `i / 100`, the per-chunk duplicate filter against the stored emails and
 * usernames, the preparation of the survivors, the bulk save and the success count.
 * The chunks run one after another, in ascending order.
 */
module UserImport {
  import opened Wrappers
  import opened Sequences
  import opened Entities

  /** Records per chunk. */
  const UploadBatchSize: int := 100

  /** The number of chunks `i / 100` produces for indices 0 .. total - 1. */
  function ChunkCount(total: int): nat
  {
    if total <= 0 then 0 else (total + UploadBatchSize - 1) / UploadBatchSize
  }

  /** The records from chunk c on: the part of the upload not yet processed. */
  function Rest<T>(records: seq<T>, c: nat): seq<T>
  {
    records[Min(c * UploadBatchSize, |records|)..]
  }

  /** Chunk c: the records whose index i has i / 100 == c, in ascending index order. */
  function Chunk<T>(records: seq<T>, c: nat): (chunk: seq<T>)
    requires c < ChunkCount(|records|)
    ensures 1 <= |chunk| <= UploadBatchSize
    ensures c + 1 < ChunkCount(|records|) ==> |chunk| == UploadBatchSize
    ensures Rest(records, c) == chunk + Rest(records, c + 1)
  {
    var lo := c * UploadBatchSize;
    var hi := Min(|records|, lo + UploadBatchSize);
    assert records[lo..] == records[lo..hi] + records[hi..];
    records[lo..hi]
  }

  /** Record i lands in chunk i / 100, at position i % 100. */
  lemma ChunkOfIndex<T>(records: seq<T>, i: int)
    requires 0 <= i < |records|
    ensures i / UploadBatchSize < ChunkCount(|records|)
    ensures i % UploadBatchSize < |Chunk(records, i / UploadBatchSize)|
    ensures Chunk(records, i / UploadBatchSize)[i % UploadBatchSize] == records[i]
  {
  }

  /** The chunks from c on, in order. */
  function ChunksFrom<T>(records: seq<T>, c: nat): (chunks: seq<seq<T>>)
    requires c <= ChunkCount(|records|)
    decreases ChunkCount(|records|) - c
    ensures |chunks| == ChunkCount(|records|) - c
    ensures forall k :: 0 <= k < |chunks| ==> chunks[k] == Chunk(records, c + k)
  {
    if c == ChunkCount(|records|) then [] else [Chunk(records, c)] + ChunksFrom(records, c + 1)
  }

  /** The chunks, concatenated in order, give back the whole upload: nothing is lost or repeated. */
  lemma {:induction false} ChunksCover<T>(records: seq<T>, c: nat)
    requires c <= ChunkCount(|records|)
    decreases ChunkCount(|records|) - c
    ensures Flatten(ChunksFrom(records, c)) == Rest(records, c)
  {
    if c == ChunkCount(|records|) {
      assert Rest(records, c) == [];
    } else {
      ChunksCover(records, c + 1);
      var cs := ChunksFrom(records, c);
      assert cs[0] == Chunk(records, c) && cs[1..] == ChunksFrom(records, c + 1);
    }
  }

  // ---------------------------------------------------------------------------
  // Keys and the duplicate filter

  function EmailsOf(users: seq<UserEntity>): set<string>
  {
    set u | u in users :: u.email
  }

  function UsernamesOf(users: seq<UserEntity>): set<string>
  {
    set u | u in users :: u.username
  }

  function RequestedEmails(batch: seq<UserResponse>): set<string>
  {
    set u | u in batch :: u.email
  }

  function RequestedUsernames(batch: seq<UserResponse>): set<string>
  {
    set u | u in batch :: u.username
  }

  /** Neither the candidate's email nor its username is already taken. */
  predicate IsNew(u: UserResponse, emails: set<string>, usernames: set<string>)
  {
    u.email !in emails && u.username !in usernames
  }

  /** The candidates of a batch that pass the duplicate filter, in batch order. */
  function Survivors(batch: seq<UserResponse>, emails: set<string>, usernames: set<string>): (kept: seq<UserResponse>)
    ensures |kept| <= |batch|
  {
    if batch == [] then []
    else
      var rest := Survivors(batch[1..], emails, usernames);
      if IsNew(batch[0], emails, usernames) then [batch[0]] + rest else rest
  }

  /** A candidate survives exactly when it is in the batch and neither of its keys is taken. */
  lemma {:induction false} SurvivorsMembership(batch: seq<UserResponse>, emails: set<string>, usernames: set<string>)
    ensures forall u :: u in Survivors(batch, emails, usernames) <==> u in batch && IsNew(u, emails, usernames)
  {
    if batch != [] {
      SurvivorsMembership(batch[1..], emails, usernames);
      assert batch == [batch[0]] + batch[1..];
    }
  }

  /** The filter keeps the batch's order: filtering a concatenation filters each part. */
  lemma {:induction false} SurvivorsAppend(a: seq<UserResponse>, b: seq<UserResponse>, emails: set<string>, usernames: set<string>)
    ensures Survivors(a + b, emails, usernames) == Survivors(a, emails, usernames) + Survivors(b, emails, usernames)
  {
    if a != [] {
      SurvivorsAppend(a[1..], b, emails, usernames);
      assert (a + b)[1..] == a[1..] + b;
    } else {
      assert a + b == b;
    }
  }

  /**
   * Filtering against the two bulk lookups (the stored keys among the batch's own keys)
   * keeps exactly what filtering against every stored key keeps.
   */
  lemma SurvivorsLookup(batch: seq<UserResponse>, users: seq<UserEntity>)
    ensures Survivors(batch, EmailsOf(users) * RequestedEmails(batch), UsernamesOf(users) * RequestedUsernames(batch))
         == Survivors(batch, EmailsOf(users), UsernamesOf(users))
  {
    SurvivorsAgree(batch, EmailsOf(users) * RequestedEmails(batch), UsernamesOf(users) * RequestedUsernames(batch),
                   EmailsOf(users), UsernamesOf(users));
  }

  /** Two key sets that judge every candidate of the batch alike filter it alike. */
  lemma {:induction false} SurvivorsAgree(batch: seq<UserResponse>, e1: set<string>, u1: set<string>, e2: set<string>, u2: set<string>)
    requires forall u :: u in batch ==> (IsNew(u, e1, u1) <==> IsNew(u, e2, u2))
    ensures Survivors(batch, e1, u1) == Survivors(batch, e2, u2)
  {
    if batch != [] {
      SurvivorsAgree(batch[1..], e1, u1, e2, u2);
    }
  }

  /** A batch whose every candidate clashes with the stored keys keeps nothing. */
  lemma {:induction false} SurvivorsNone(batch: seq<UserResponse>, emails: set<string>, usernames: set<string>)
    requires forall u :: u in batch ==> !IsNew(u, emails, usernames)
    ensures Survivors(batch, emails, usernames) == []
  {
    if batch != [] {
      SurvivorsNone(batch[1..], emails, usernames);
    }
  }

  /** More stored keys never let more candidates through. */
  lemma {:induction false} SurvivorsShrink(batch: seq<UserResponse>, e1: set<string>, u1: set<string>, e2: set<string>, u2: set<string>)
    requires e1 <= e2 && u1 <= u2
    ensures |Survivors(batch, e2, u2)| <= |Survivors(batch, e1, u1)|
  {
    if batch != [] {
      SurvivorsShrink(batch[1..], e1, u1, e2, u2);
    }
  }

  // ---------------------------------------------------------------------------
  // Preparing and saving the survivors

  /** A survivor as it is persisted: enabled, unlocked, with its password encoded. */
  function ToEntity(u: UserResponse, encode: string -> string): (e: UserEntity)
    ensures e.enabled && e.accountNonLocked
    ensures e.password == encode(u.password)
    ensures e.email == u.email && e.username == u.username && e.profile == u.profile && e.role == u.role
  {
    UserEntity(u.profile, u.email, u.username, encode(u.password), u.role, MALE, OFFLINE, true, true)
  }

  /** The survivors as they are saved, in the same order. */
  function Prepare(batch: seq<UserResponse>, encode: string -> string): (entities: seq<UserEntity>)
    ensures |entities| == |batch|
  {
    if batch == [] then [] else [ToEntity(batch[0], encode)] + Prepare(batch[1..], encode)
  }

  /** Each prepared entity is the candidate at the same position, converted. */
  lemma {:induction false} PrepareEntries(batch: seq<UserResponse>, encode: string -> string)
    ensures forall k :: 0 <= k < |batch| ==> Prepare(batch, encode)[k] == ToEntity(batch[k], encode)
  {
    if batch != [] {
      PrepareEntries(batch[1..], encode);
      forall k | 0 < k < |batch| ensures Prepare(batch, encode)[k] == ToEntity(batch[k], encode) {
        assert batch[1..][k - 1] == batch[k];
      }
    }
  }

  lemma {:induction false} PrepareAppend(a: seq<UserResponse>, b: seq<UserResponse>, encode: string -> string)
    ensures Prepare(a + b, encode) == Prepare(a, encode) + Prepare(b, encode)
  {
    if a == [] {
      assert a + b == b;
    } else {
      PrepareAppend(a[1..], b, encode);
      assert (a + b)[1..] == a[1..] + b;
    }
  }

  /** No two stored users share an email or a username: the table's unique constraints. */
  predicate KeysDistinct(users: seq<UserEntity>)
  {
    forall i, j :: 0 <= i < j < |users| ==> users[i].email != users[j].email && users[i].username != users[j].username
  }

  /** No two uploaded candidates share an email or a username. */
  predicate UploadDistinct(batch: seq<UserResponse>)
  {
    forall i, j :: 0 <= i < j < |batch| ==> batch[i].email != batch[j].email && batch[i].username != batch[j].username
  }

  /**
   * The bulk save under the unique constraints: it stores the whole list when the list
   * repeats no key and takes no key already stored, and otherwise fails with an
   * integrity violation (None) and stores nothing.
   */
  function SaveAll(users: seq<UserEntity>, toSave: seq<UserEntity>): (stored: Option<seq<UserEntity>>)
    ensures stored.Some? ==> stored.value == users + toSave
    ensures KeysDistinct(users) && stored.Some? ==> KeysDistinct(stored.value)
  {
    if KeysDistinct(toSave) && forall e :: e in toSave ==> e.email !in EmailsOf(users) && e.username !in UsernamesOf(users)
    then
      assert KeysDistinct(users) ==> KeysDistinct(users + toSave) by {
        if KeysDistinct(users) {
          var s := users + toSave;
          forall i, j | 0 <= i < j < |s| ensures s[i].email != s[j].email && s[i].username != s[j].username {
            if j >= |users| && i < |users| {
              assert s[j] == toSave[j - |users|] && s[j] in toSave;
              assert s[i] in users;
            } else if i >= |users| {
              assert s[i] == toSave[i - |users|] && s[j] == toSave[j - |users|];
            }
          }
        }
      }
      Some(users + toSave)
    else None
  }

  // ---------------------------------------------------------------------------
  // One chunk, and all chunks

  /** The store after some chunks, and how many records those chunks imported. */
  datatype ImportState = ImportState(users: seq<UserEntity>, imported: nat)

  /**
   * One chunk: look up the chunk's keys, filter, prepare, save. A chunk whose save hits
   * an integrity violation imports nothing and leaves the store as it was.
   */
  function ImportChunk(users: seq<UserEntity>, chunk: seq<UserResponse>, encode: string -> string): (o: ImportState)
    ensures o.imported <= |chunk|
  {
    var existingEmails := EmailsOf(users) * RequestedEmails(chunk);
    var existingUsernames := UsernamesOf(users) * RequestedUsernames(chunk);
    var toSave := Prepare(Survivors(chunk, existingEmails, existingUsernames), encode);
    SurvivorsLookup(chunk, users);
    match SaveAll(users, toSave)
    case Some(stored) => ImportState(stored, |toSave|)
    case None => ImportState(users, 0)
  }

  /** The chunks, run one after another against the growing store; the counts add up. */
  function ImportAll(users: seq<UserEntity>, chunks: seq<seq<UserResponse>>, encode: string -> string): (o: ImportState)
    decreases |chunks|
    ensures o.imported <= |Flatten(chunks)|
  {
    if chunks == [] then ImportState(users, 0)
    else
      var first := ImportChunk(users, chunks[0], encode);
      var rest := ImportAll(first.users, chunks[1..], encode);
      ImportState(rest.users, first.imported + rest.imported)
  }

  /** The whole upload: its chunks of 100, in ascending order. */
  function Import(users: seq<UserEntity>, records: seq<UserResponse>, encode: string -> string): (o: ImportState)
    ensures o.imported <= |records|
  {
    ChunksCover(records, 0);
    ImportAll(users, ChunksFrom(records, 0), encode)
  }

  /**
   * A chunk either hits an integrity violation, importing nothing and leaving the store
   * as it was, or appends all its survivors and counts them.
   */
  lemma ImportChunkOutcome(users: seq<UserEntity>, chunk: seq<UserResponse>, encode: string -> string)
    ensures var o := ImportChunk(users, chunk, encode);
            var kept := Survivors(chunk, EmailsOf(users), UsernamesOf(users));
            || (o.users == users && o.imported == 0)
            || (o.users == users + Prepare(kept, encode) && o.imported == |kept|)
  {
    SurvivorsLookup(chunk, users);
  }

  /** One chunk only appends to the store, one row per imported record. */
  lemma ImportChunkAppends(users: seq<UserEntity>, chunk: seq<UserResponse>, encode: string -> string)
    ensures var o := ImportChunk(users, chunk, encode);
            |o.users| == |users| + o.imported && users <= o.users
  {
    ImportChunkOutcome(users, chunk, encode);
  }

  /** Keys stored before a chunk are still stored after it. */
  lemma ImportChunkKeepsKeys(users: seq<UserEntity>, chunk: seq<UserResponse>, encode: string -> string)
    ensures var o := ImportChunk(users, chunk, encode);
            EmailsOf(users) <= EmailsOf(o.users) && UsernamesOf(users) <= UsernamesOf(o.users)
  {
    var o := ImportChunk(users, chunk, encode);
    ImportChunkOutcome(users, chunk, encode);
    assert forall x :: x in users ==> x in o.users;
  }

  /** A chunk never breaks the table's unique constraints. */
  lemma ImportChunkKeepsUnique(users: seq<UserEntity>, chunk: seq<UserResponse>, encode: string -> string)
    requires KeysDistinct(users)
    ensures KeysDistinct(ImportChunk(users, chunk, encode).users)
  {
    var o := ImportChunk(users, chunk, encode);
    if o.users != users {
      SurvivorsLookup(chunk, users);
      var kept := Survivors(chunk, EmailsOf(users), UsernamesOf(users));
      assert SaveAll(users, Prepare(kept, encode)).Some?;
    }
  }

  /** The import adds one row per imported record. */
  lemma {:induction false} ImportGrows(users: seq<UserEntity>, chunks: seq<seq<UserResponse>>, encode: string -> string)
    decreases |chunks|
    ensures |ImportAll(users, chunks, encode).users| == |users| + ImportAll(users, chunks, encode).imported
  {
    if chunks != [] {
      ImportChunkAppends(users, chunks[0], encode);
      ImportGrows(ImportChunk(users, chunks[0], encode).users, chunks[1..], encode);
    }
  }

  /** The import only appends to the store: the rows stored before stay, in place. */
  lemma {:induction false} ImportKeepsRows(users: seq<UserEntity>, chunks: seq<seq<UserResponse>>, encode: string -> string)
    decreases |chunks|
    ensures users <= ImportAll(users, chunks, encode).users
  {
    if chunks != [] {
      var first := ImportChunk(users, chunks[0], encode);
      ImportChunkAppends(users, chunks[0], encode);
      ImportKeepsRows(first.users, chunks[1..], encode);
      PrefixTransitive(users, first.users, ImportAll(first.users, chunks[1..], encode).users);
    }
  }

  /** The import keeps the table's unique constraints. */
  lemma {:induction false} ImportKeepsUnique(users: seq<UserEntity>, chunks: seq<seq<UserResponse>>, encode: string -> string)
    decreases |chunks|
    requires KeysDistinct(users)
    ensures KeysDistinct(ImportAll(users, chunks, encode).users)
  {
    if chunks != [] {
      ImportChunkKeepsUnique(users, chunks[0], encode);
      ImportKeepsUnique(ImportChunk(users, chunks[0], encode).users, chunks[1..], encode);
    }
  }

  /**
   * One chunk stores at most its own survivors, and whatever it stores only makes the
   * later candidates' keys more likely to be taken.
   */
  lemma ImportBoundStep(users: seq<UserEntity>, chunks: seq<seq<UserResponse>>, encode: string -> string)
    requires chunks != []
    ensures var first := ImportChunk(users, chunks[0], encode);
            first.imported + |Survivors(Flatten(chunks[1..]), EmailsOf(first.users), UsernamesOf(first.users))|
              <= |Survivors(Flatten(chunks), EmailsOf(users), UsernamesOf(users))|
  {
    var e, u := EmailsOf(users), UsernamesOf(users);
    var first := ImportChunk(users, chunks[0], encode);
    ImportChunkOutcome(users, chunks[0], encode);
    ImportChunkKeepsKeys(users, chunks[0], encode);
    SurvivorsShrink(Flatten(chunks[1..]), e, u, EmailsOf(first.users), UsernamesOf(first.users));
    SurvivorsAppend(chunks[0], Flatten(chunks[1..]), e, u);
  }

  /**
   * Whatever the chunks hold, the import stores at most the candidates that were new to
   * the store before it began.
   */
  lemma {:induction false} ImportBound(users: seq<UserEntity>, chunks: seq<seq<UserResponse>>, encode: string -> string)
    decreases |chunks|
    ensures ImportAll(users, chunks, encode).imported <= |Survivors(Flatten(chunks), EmailsOf(users), UsernamesOf(users))|
  {
    if chunks != [] {
      ImportBoundStep(users, chunks, encode);
      ImportBound(ImportChunk(users, chunks[0], encode).users, chunks[1..], encode);
    }
  }

  /** The whole upload imports at most its candidates new to the store, so at most its records. */
  lemma UploadBound(users: seq<UserEntity>, records: seq<UserResponse>, encode: string -> string)
    ensures Import(users, records, encode).imported <= |Survivors(records, EmailsOf(users), UsernamesOf(users))| <= |records|
  {
    ChunksCover(records, 0);
    ImportBound(users, ChunksFrom(records, 0), encode);
  }

  /** Keys of appended rows add to the stored keys. */
  lemma KeysOfAppend(users: seq<UserEntity>, more: seq<UserEntity>)
    ensures EmailsOf(users + more) == EmailsOf(users) + EmailsOf(more)
    ensures UsernamesOf(users + more) == UsernamesOf(users) + UsernamesOf(more)
  {
    assert forall x :: x in users + more <==> x in users || x in more;
  }

  /** A part of an upload without repeated keys has none either, and its parts share no key. */
  lemma UploadDistinctSplit(a: seq<UserResponse>, b: seq<UserResponse>)
    requires UploadDistinct(a + b)
    ensures UploadDistinct(a) && UploadDistinct(b)
    ensures forall x, y :: x in a && y in b ==> x.email != y.email && x.username != y.username
  {
    var s := a + b;
    forall i, j | 0 <= i < j < |a| ensures a[i].email != a[j].email && a[i].username != a[j].username {
      assert a[i] == s[i] && a[j] == s[j];
    }
    forall i, j | 0 <= i < j < |b| ensures b[i].email != b[j].email && b[i].username != b[j].username {
      assert b[i] == s[|a| + i] && b[j] == s[|a| + j];
    }
    forall x, y | x in a && y in b ensures x.email != y.email && x.username != y.username {
      var i :| 0 <= i < |a| && a[i] == x;
      var j :| 0 <= j < |b| && b[j] == y;
      assert s[i] == x && s[|a| + j] == y;
    }
  }

  /** What the filter keeps from a candidate list without repeated keys repeats no key. */
  lemma {:induction false} SurvivorsDistinct(batch: seq<UserResponse>, emails: set<string>, usernames: set<string>)
    requires UploadDistinct(batch)
    ensures UploadDistinct(Survivors(batch, emails, usernames))
  {
    if batch != [] {
      assert batch == [batch[0]] + batch[1..];
      UploadDistinctSplit([batch[0]], batch[1..]);
      SurvivorsDistinct(batch[1..], emails, usernames);
      SurvivorsMembership(batch[1..], emails, usernames);
      var rest := Survivors(batch[1..], emails, usernames);
      if IsNew(batch[0], emails, usernames) {
        var kept := [batch[0]] + rest;
        forall i, j | 0 <= i < j < |kept| ensures kept[i].email != kept[j].email && kept[i].username != kept[j].username {
          assert kept[j] == rest[j - 1] && kept[j] in batch[1..];
          if i > 0 {
            assert kept[i] == rest[i - 1];
          }
        }
      }
    }
  }

  /** Survivors prepared for saving repeat no key and take no stored key. */
  lemma PreparedKeysFree(users: seq<UserEntity>, chunk: seq<UserResponse>, encode: string -> string)
    requires UploadDistinct(chunk)
    ensures var toSave := Prepare(Survivors(chunk, EmailsOf(users), UsernamesOf(users)), encode);
            && KeysDistinct(toSave)
            && forall x :: x in toSave ==> x.email !in EmailsOf(users) && x.username !in UsernamesOf(users)
  {
    var e, u := EmailsOf(users), UsernamesOf(users);
    var kept := Survivors(chunk, e, u);
    var toSave := Prepare(kept, encode);
    PrepareEntries(kept, encode);
    SurvivorsDistinct(chunk, e, u);
    SurvivorsMembership(chunk, e, u);
    forall i, j | 0 <= i < j < |toSave| ensures toSave[i].email != toSave[j].email && toSave[i].username != toSave[j].username {
      assert toSave[i] == ToEntity(kept[i], encode) && toSave[j] == ToEntity(kept[j], encode);
    }
    forall x | x in toSave ensures x.email !in e && x.username !in u {
      var k :| 0 <= k < |toSave| && toSave[k] == x;
      assert kept[k] in kept;
    }
  }

  /**
   * Two new candidates of one chunk that share an email or a username make the chunk's
   * bulk save fail: the store is left as it was and none of the chunk's candidates,
   * not even the unrelated new ones, is counted as imported.
   */
  lemma SharedKeyLosesChunk(users: seq<UserEntity>, chunk: seq<UserResponse>, encode: string -> string, i: int, j: int)
    requires var kept := Survivors(chunk, EmailsOf(users), UsernamesOf(users));
             0 <= i < j < |kept| && (kept[i].email == kept[j].email || kept[i].username == kept[j].username)
    ensures ImportChunk(users, chunk, encode) == ImportState(users, 0)
  {
    var kept := Survivors(chunk, EmailsOf(users), UsernamesOf(users));
    var toSave := Prepare(kept, encode);
    PrepareEntries(kept, encode);
    SurvivorsLookup(chunk, users);
    assert toSave[i].email == toSave[j].email || toSave[i].username == toSave[j].username;
    assert SaveAll(users, toSave).None?;
  }

  /** A chunk that repeats no key, on a store keeping its unique constraints, saves all its survivors. */
  lemma DistinctChunkSaves(users: seq<UserEntity>, chunk: seq<UserResponse>, encode: string -> string)
    requires UploadDistinct(chunk)
    ensures var kept := Survivors(chunk, EmailsOf(users), UsernamesOf(users));
            ImportChunk(users, chunk, encode) == ImportState(users + Prepare(kept, encode), |kept|)
  {
    PreparedKeysFree(users, chunk, encode);
    SurvivorsLookup(chunk, users);
  }

  /** Storing one chunk's survivors does not change how the later candidates are judged. */
  lemma LaterCandidatesUnaffected(users: seq<UserEntity>, chunk: seq<UserResponse>, tail: seq<UserResponse>, encode: string -> string)
    requires UploadDistinct(chunk + tail)
    ensures var e, u := EmailsOf(users), UsernamesOf(users);
            var stored := users + Prepare(Survivors(chunk, e, u), encode);
            Survivors(tail, EmailsOf(stored), UsernamesOf(stored)) == Survivors(tail, e, u)
  {
    var e, u := EmailsOf(users), UsernamesOf(users);
    UploadDistinctSplit(chunk, tail);
    var kept := Survivors(chunk, e, u);
    SurvivorsMembership(chunk, e, u);
    var toSave := Prepare(kept, encode);
    PrepareEntries(kept, encode);
    var stored := users + toSave;
    KeysOfAppend(users, toSave);
    forall y | y in tail ensures IsNew(y, EmailsOf(stored), UsernamesOf(stored)) <==> IsNew(y, e, u) {
      forall x | x in toSave ensures x.email != y.email && x.username != y.username {
        var k :| 0 <= k < |toSave| && toSave[k] == x;
        assert kept[k] in chunk;
      }
    }
    SurvivorsAgree(tail, EmailsOf(stored), UsernamesOf(stored), e, u);
  }

  /**
   * One step of ImportDistinct: the first chunk saves its survivors, and the later chunks
   * see the same candidates as new as before.
   */
  lemma DistinctStep(users: seq<UserEntity>, chunks: seq<seq<UserResponse>>, encode: string -> string)
    requires chunks != []
    requires UploadDistinct(Flatten(chunks))
    ensures var e, u := EmailsOf(users), UsernamesOf(users);
            var kept := Survivors(chunks[0], e, u);
            var first := ImportChunk(users, chunks[0], encode);
            && UploadDistinct(Flatten(chunks[1..]))
            && first == ImportState(users + Prepare(kept, encode), |kept|)
            && Survivors(Flatten(chunks[1..]), EmailsOf(first.users), UsernamesOf(first.users)) == Survivors(Flatten(chunks[1..]), e, u)
  {
    UploadDistinctSplit(chunks[0], Flatten(chunks[1..]));
    DistinctChunkSaves(users, chunks[0], encode);
    LaterCandidatesUnaffected(users, chunks[0], Flatten(chunks[1..]), encode);
  }

  /** The count half of one step of ImportDistinct, given the count for the later chunks. */
  lemma DistinctCountStep(users: seq<UserEntity>, chunks: seq<seq<UserResponse>>, encode: string -> string)
    requires chunks != []
    requires UploadDistinct(Flatten(chunks))
    requires var first := ImportChunk(users, chunks[0], encode);
             ImportAll(first.users, chunks[1..], encode).imported
               == |Survivors(Flatten(chunks[1..]), EmailsOf(first.users), UsernamesOf(first.users))|
    ensures ImportAll(users, chunks, encode).imported == |Survivors(Flatten(chunks), EmailsOf(users), UsernamesOf(users))|
  {
    DistinctStep(users, chunks, encode);
    SurvivorsAppend(chunks[0], Flatten(chunks[1..]), EmailsOf(users), UsernamesOf(users));
  }

  /** The store half of one step of ImportDistinct, given the store after the later chunks. */
  lemma DistinctStoreStep(users: seq<UserEntity>, chunks: seq<seq<UserResponse>>, encode: string -> string)
    requires chunks != []
    requires UploadDistinct(Flatten(chunks))
    requires var first := ImportChunk(users, chunks[0], encode);
             ImportAll(first.users, chunks[1..], encode).users
               == first.users + Prepare(Survivors(Flatten(chunks[1..]), EmailsOf(first.users), UsernamesOf(first.users)), encode)
    ensures ImportAll(users, chunks, encode).users
              == users + Prepare(Survivors(Flatten(chunks), EmailsOf(users), UsernamesOf(users)), encode)
  {
    var e, u := EmailsOf(users), UsernamesOf(users);
    var first := ImportChunk(users, chunks[0], encode);
    var kept, later := Survivors(chunks[0], e, u), Survivors(Flatten(chunks[1..]), e, u);
    DistinctStep(users, chunks, encode);
    SurvivorsAppend(chunks[0], Flatten(chunks[1..]), e, u);
    calc {
      ImportAll(users, chunks, encode).users;
      ImportAll(first.users, chunks[1..], encode).users;
      first.users + Prepare(later, encode);
      (users + Prepare(kept, encode)) + Prepare(later, encode);
      { ConcatAssoc(users, Prepare(kept, encode), Prepare(later, encode)); }
      users + (Prepare(kept, encode) + Prepare(later, encode));
      { PrepareAppend(kept, later, encode); }
      users + Prepare(Survivors(Flatten(chunks), e, u), encode);
    }
  }

  /**
   * For chunks that together repeat no email and no username, no chunk hits an integrity
   * violation: the import stores every candidate new to the store, in upload order, and
   * counts exactly those.
   */
  lemma {:induction false} ImportDistinct(users: seq<UserEntity>, chunks: seq<seq<UserResponse>>, encode: string -> string)
    decreases |chunks|
    requires UploadDistinct(Flatten(chunks))
    ensures var kept := Survivors(Flatten(chunks), EmailsOf(users), UsernamesOf(users));
            && ImportAll(users, chunks, encode).imported == |kept|
            && ImportAll(users, chunks, encode).users == users + Prepare(kept, encode)
  {
    if chunks == [] {
      assert users + [] == users;
    } else {
      UploadDistinctSplit(chunks[0], Flatten(chunks[1..]));
      ImportDistinct(ImportChunk(users, chunks[0], encode).users, chunks[1..], encode);
      DistinctCountStep(users, chunks, encode);
      DistinctStoreStep(users, chunks, encode);
    }
  }

  /**
   * An upload that repeats no email and no username never hits an integrity violation:
   * it stores every candidate new to the store, in upload order, and counts exactly those.
   */
  lemma UploadDistinctImportsAllNew(users: seq<UserEntity>, records: seq<UserResponse>, encode: string -> string)
    requires UploadDistinct(records)
    ensures var kept := Survivors(records, EmailsOf(users), UsernamesOf(users));
            Import(users, records, encode) == ImportState(users + Prepare(kept, encode), |kept|)
  {
    ChunksCover(records, 0);
    ImportDistinct(users, ChunksFrom(records, 0), encode);
  }

  /** After importing an upload without repeated keys, none of its candidates is new to the store. */
  lemma AllCandidatesTaken(users: seq<UserEntity>, records: seq<UserResponse>, encode: string -> string)
    requires UploadDistinct(records)
    ensures var stored := Import(users, records, encode).users;
            Survivors(records, EmailsOf(stored), UsernamesOf(stored)) == []
  {
    UploadDistinctImportsAllNew(users, records, encode);
    var e, u := EmailsOf(users), UsernamesOf(users);
    var kept := Survivors(records, e, u);
    SurvivorsMembership(records, e, u);
    var stored := users + Prepare(kept, encode);
    PrepareEntries(kept, encode);
    KeysOfAppend(users, Prepare(kept, encode));
    forall y | y in records ensures !IsNew(y, EmailsOf(stored), UsernamesOf(stored)) {
      if IsNew(y, e, u) {
        var k :| 0 <= k < |kept| && kept[k] == y;
        assert Prepare(kept, encode)[k] in Prepare(kept, encode);
      }
    }
    SurvivorsNone(records, EmailsOf(stored), UsernamesOf(stored));
  }

  /**
   * Importing the same upload again right after imports nothing: every candidate was
   * either stored by the first import or already clashed with the store.
   */
  lemma ReimportImportsNothing(users: seq<UserEntity>, records: seq<UserResponse>, encode: string -> string)
    requires UploadDistinct(records)
    ensures Import(Import(users, records, encode).users, records, encode).imported == 0
  {
    AllCandidatesTaken(users, records, encode);
    UploadBound(Import(users, records, encode).users, records, encode);
  }

  /** An upload of two chunks runs the first, then the second against the store it left. */
  lemma ImportTwoChunks(users: seq<UserEntity>, records: seq<UserResponse>, x: seq<UserResponse>, y: seq<UserResponse>,
                        encode: string -> string)
    requires ChunksFrom(records, 0) == [x, y]
    ensures var o1 := ImportChunk(users, x, encode);
            var o2 := ImportChunk(o1.users, y, encode);
            Import(users, records, encode) == ImportState(o2.users, o1.imported + o2.imported)
  {
    var o1 := ImportChunk(users, x, encode);
    var o2 := ImportChunk(o1.users, y, encode);
    assert [y][1..] == [];
    assert ImportAll(o1.users, [y], encode) == ImportState(o2.users, o2.imported);
    assert [x, y][1..] == [y];
    assert ImportAll(users, [x, y], encode) == ImportState(o2.users, o1.imported + o2.imported);
  }

  /** A chunk whose first two candidates share an email, saved into the empty store, is lost. */
  lemma SharedEmailChunkLost(a: UserResponse, b: UserResponse, rest: seq<UserResponse>, encode: string -> string)
    requires a.email == b.email
    ensures ImportChunk([], [a, b] + rest, encode) == ImportState([], 0)
  {
    var none: set<string> := {};
    assert EmailsOf([]) == none && UsernamesOf([]) == none;
    var chunk := [a, b] + rest;
    SurvivorsLookup(chunk, []);
    assert chunk == [a] + ([b] + rest);
    var kept := Survivors(chunk, none, none);
    assert kept[..2] == [a, b];
    PrepareEntries(kept, encode);
    assert Prepare(kept, encode)[0].email == Prepare(kept, encode)[1].email;
  }

  /** A chunk of one candidate, saved into the empty store, is stored. */
  lemma SingleChunkSaved(c: UserResponse, encode: string -> string)
    ensures ImportChunk([], [c], encode) == ImportState([ToEntity(c, encode)], 1)
  {
    var none: set<string> := {};
    assert EmailsOf([]) == none && UsernamesOf([]) == none;
    SurvivorsLookup([c], []);
  }

  /** A chunk whose only new candidate is its first one stores that one alone. */
  lemma OnlyFirstSaved(stored: seq<UserEntity>, a: UserResponse, rest: seq<UserResponse>, encode: string -> string)
    requires IsNew(a, EmailsOf(stored), UsernamesOf(stored))
    requires forall x :: x in rest ==> !IsNew(x, EmailsOf(stored), UsernamesOf(stored))
    ensures ImportChunk(stored, [a] + rest, encode) == ImportState(stored + [ToEntity(a, encode)], 1)
  {
    SurvivorsLookup([a] + rest, stored);
    SurvivorsNone(rest, EmailsOf(stored), UsernamesOf(stored));
    assert ([a] + rest)[1..] == rest;
  }

  /** A chunk whose every candidate is taken stores nothing. */
  lemma TakenChunkSkipped(stored: seq<UserEntity>, chunk: seq<UserResponse>, encode: string -> string)
    requires forall x :: x in chunk ==> !IsNew(x, EmailsOf(stored), UsernamesOf(stored))
    ensures ImportChunk(stored, chunk, encode) == ImportState(stored, 0)
  {
    SurvivorsLookup(chunk, stored);
    SurvivorsNone(chunk, EmailsOf(stored), UsernamesOf(stored));
    assert stored + [] == stored;
  }

  /** A candidate followed by 99 others and one more: two chunks, the second holding the last alone. */
  lemma HundredAndOne(a: UserResponse, bs: seq<UserResponse>, c: UserResponse)
    requires |bs| == 99
    ensures ChunksFrom([a] + bs + [c], 0) == [[a] + bs, [c]]
  {
    var records := [a] + bs + [c];
    assert records[0..100] == [a] + bs;
    assert records[100..101] == [c];
  }

  /**
   * Without distinct keys a second import can store more. A and B share an email, B and
   * C a username; chunk 0 is A and 99 copies of B, chunk 1 is C. The first import loses
   * chunk 0 to the integrity violation and stores C; the second filters out every B
   * against C's username, so A alone is saved and the count is 1 again, not 0.
   */
  lemma ReimportCanImportMore(p: Profile, pa: string, pb: string, pc: string, encode: string -> string)
    ensures var a, b, c := UserResponse(p, "e1", "ua", pa, None), UserResponse(p, "e1", "ub", pb, None),
                           UserResponse(p, "ec", "ub", pc, None);
            var records := [a] + seq(99, _ => b) + [c];
            var first := Import([], records, encode);
            first.imported == 1 && Import(first.users, records, encode).imported == 1
  {
    var a, b, c := UserResponse(p, "e1", "ua", pa, None), UserResponse(p, "e1", "ub", pb, None),
                   UserResponse(p, "ec", "ub", pc, None);
    var bs := seq(99, _ => b);
    var records := [a] + bs + [c];
    var head := [a] + bs;
    HundredAndOne(a, bs, c);
    // First import: chunk 0 repeats "e1" and is lost, C is stored.
    assert head == [a, b] + bs[1..];
    SharedEmailChunkLost(a, b, bs[1..], encode);
    SingleChunkSaved(c, encode);
    ImportTwoChunks([], records, head, [c], encode);
    // Second import: every B clashes with C's username, A is saved, C is already stored.
    var stored := [ToEntity(c, encode)];
    assert EmailsOf(stored) == {"ec"} && UsernamesOf(stored) == {"ub"};
    OnlyFirstSaved(stored, a, bs, encode);
    var again := stored + [ToEntity(a, encode)];
    assert c.email in EmailsOf(again) by { assert again[0] == ToEntity(c, encode); }
    TakenChunkSkipped(again, [c], encode);
    ImportTwoChunks(stored, records, head, [c], encode);
  }

  /** The upload's result: the number of records, how many were imported, and the difference. */
  function Summarize(total: int, imported: int): (s: UploadSummary)
    ensures s.totalRecords == total
    ensures s.successfullyImported == imported
    ensures s.totalRecords == s.successfullyImported + s.failedToImport
  {
    UploadSummary(total, imported, total - imported)
  }

  /** The whole import's summary: 0 <= imported <= total and failed = total - imported. */
  lemma SummaryBounds(users: seq<UserEntity>, records: seq<UserResponse>, encode: string -> string)
    ensures var s := Summarize(|records|, Import(users, records, encode).imported);
            && 0 <= s.successfullyImported <= s.totalRecords
            && 0 <= s.failedToImport <= s.totalRecords
  {
    UploadBound(users, records, encode);
  }
}
