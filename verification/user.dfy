/**
 * The identity part of the `User` entity: the ranking of user classes, the
 * API key and link token that a user can be issued, the lookups by platform id
 * and link token, and the merge of a Twitch account with a Discord account.
 * The database table is a map from id to record; saving is an insert-or-update
 * by id that the table's unique columns may refuse.
 */
module Users {
  import opened Wrappers

  datatype UserClass = User | Admin

  /** `userClassRank`: the classes from least to most privileged. */
  const UserClassRank: seq<UserClass> := [User, Admin]

  /** `indexOf` on an array of classes: the first position of c, or -1. */
  function IndexIn(s: seq<UserClass>, c: UserClass): (r: int)
    ensures r == -1 <==> c !in s
    ensures r != -1 ==> 0 <= r < |s| && s[r] == c
  {
    if s == [] then -1
    else if s[0] == c then 0
    else
      var k := IndexIn(s[1..], c);
      if k == -1 then -1 else k + 1
  }

  /** `pickHigherUserClass`: the class of higher rank, the second one on a tie. */
  function PickHigherUserClass(userClass1: UserClass, userClass2: UserClass): (r: UserClass)
    ensures r == userClass1 || r == userClass2
    ensures r == Admin <==> userClass1 == Admin || userClass2 == Admin
    ensures IndexIn(UserClassRank, r) >= IndexIn(UserClassRank, userClass1)
    ensures IndexIn(UserClassRank, r) >= IndexIn(UserClassRank, userClass2)
  {
    if IndexIn(UserClassRank, userClass1) > IndexIn(UserClassRank, userClass2) then userClass1
    else userClass2
  }

  lemma PickHigherCommutative(a: UserClass, b: UserClass)
    ensures PickHigherUserClass(a, b) == PickHigherUserClass(b, a)
  {
  }

  lemma PickHigherIdempotent(a: UserClass)
    ensures PickHigherUserClass(a, a) == a
  {
  }

  /** A row of the user table. `linkToken` is nullable. */
  datatype UserRecord = UserRecord(
    id: string,
    twitchUserId: string,
    discordUserId: string,
    apiKey: string,
    userClass: UserClass,
    linkToken: Option<string>)

  datatype StorageError = StorageError

  /** `isAdmin`: the user holds the highest-ranked class. */
  function IsAdmin(u: UserRecord): (b: bool)
    ensures b <==> IndexIn(UserClassRank, u.userClass) == |UserClassRank| - 1
  {
    u.userClass == Admin
  }

  /** The stored form of a link request: the username to link, a space, the token. */
  function LinkValue(username: string, token: string): string
  {
    username + " " + token
  }

  /** The position of the last space in s, or -1. */
  function LastSpace(s: string): (r: int)
    ensures -1 <= r < |s|
    ensures r != -1 ==> s[r] == ' '
    ensures forall i :: r < i < |s| ==> s[i] != ' '
  {
    if s == [] then -1
    else if s[|s| - 1] == ' ' then |s| - 1
    else LastSpace(s[..|s| - 1])
  }

  lemma LastSpaceOfLinkValue(username: string, token: string)
    requires ' ' !in token
    ensures LastSpace(LinkValue(username, token)) == |username|
  {
    var s := LinkValue(username, token);
    assert s[|username|] == ' ';
    assert forall i :: |username| < i < |s| ==> s[i] == token[i - |username| - 1];
  }

  /**
   * A stored link value determines the username and the token when tokens hold
   * no space (as generated uuids do): a lookup with a wrong token cannot match.
   */
  lemma LinkValueInjective(u1: string, t1: string, u2: string, t2: string)
    requires ' ' !in t1 && ' ' !in t2
    requires LinkValue(u1, t1) == LinkValue(u2, t2)
    ensures u1 == u2 && t1 == t2
  {
    LastSpaceOfLinkValue(u1, t1);
    LastSpaceOfLinkValue(u2, t2);
    var s := LinkValue(u1, t1);
    assert u1 == s[..|u1|] && u2 == s[..|u2|];
    assert t1 == s[|u1| + 1..] && t2 == s[|u2| + 1..];
  }

  /** The table invariant: rows are keyed by their id, and the unique columns are unique. */
  ghost predicate StoreValid(rows: map<string, UserRecord>)
  {
    && (forall id :: id in rows ==> rows[id].id == id)
    && (forall a, b :: a in rows && b in rows && a != b ==>
          && rows[a].twitchUserId != rows[b].twitchUserId
          && rows[a].discordUserId != rows[b].discordUserId
          && rows[a].apiKey != rows[b].apiKey)
  }

  /** The unique columns of u clash with no row other than the one with u's id. */
  predicate Saveable(rows: map<string, UserRecord>, u: UserRecord)
  {
    forall id :: id in rows && id != u.id ==>
      && rows[id].twitchUserId != u.twitchUserId
      && rows[id].discordUserId != u.discordUserId
      && rows[id].apiKey != u.apiKey
  }

  /** The record `linkAccounts` builds; the id and API key are the generated ones. */
  function Combine(twitchUser: UserRecord, discordUser: UserRecord, newId: string, newApiKey: string): UserRecord
  {
    UserRecord(newId, twitchUser.twitchUserId, discordUser.discordUserId, newApiKey,
               PickHigherUserClass(twitchUser.userClass, discordUser.userClass), None)
  }

  /** The table after the merge transaction commits: both old rows gone, the combined row added. */
  function AfterLink(rows: map<string, UserRecord>, twitchUser: UserRecord, discordUser: UserRecord, combined: UserRecord)
    : map<string, UserRecord>
  {
    (rows - {twitchUser.id, discordUser.id})[combined.id := combined]
  }

  /** The merged user is an admin exactly when one of the two accounts was. */
  lemma CombinedIsAdmin(twitchUser: UserRecord, discordUser: UserRecord, newId: string, newApiKey: string)
    ensures IsAdmin(Combine(twitchUser, discordUser, newId, newApiKey)) <==> IsAdmin(twitchUser) || IsAdmin(discordUser)
  {
  }

  /**
   * Merging two current, distinct rows: the unique columns never refuse it; after
   * it, neither old id is present, the Twitch id of the first and the Discord id
   * of the second lead to the combined row, and the identifiers that were not
   * carried over are found nowhere.
   */
  lemma LinkOfCurrentRows(rows: map<string, UserRecord>, twitchUser: UserRecord, discordUser: UserRecord,
                          newId: string, newApiKey: string)
    requires StoreValid(rows)
    requires twitchUser.id in rows && rows[twitchUser.id] == twitchUser
    requires discordUser.id in rows && rows[discordUser.id] == discordUser
    requires twitchUser.id != discordUser.id
    requires newId !in rows
    requires forall id :: id in rows ==> rows[id].apiKey != newApiKey
    ensures Saveable(rows - {twitchUser.id, discordUser.id}, Combine(twitchUser, discordUser, newId, newApiKey))
    ensures var after := AfterLink(rows, twitchUser, discordUser, Combine(twitchUser, discordUser, newId, newApiKey));
      && StoreValid(after)
      && twitchUser.id !in after && discordUser.id !in after
      && (forall id :: id in after && after[id].twitchUserId == twitchUser.twitchUserId ==> id == newId)
      && (forall id :: id in after && after[id].discordUserId == discordUser.discordUserId ==> id == newId)
      && (forall id :: id in after ==> after[id].twitchUserId != discordUser.twitchUserId)
      && (forall id :: id in after ==> after[id].discordUserId != twitchUser.discordUserId)
  {
  }

  /** The user table. */
  class UserStore {
    var rows: map<string, UserRecord>

    ghost predicate Valid()
      reads this
    {
      StoreValid(rows)
    }

    constructor ()
      ensures Valid() && rows == map[]
    {
      rows := map[];
    }

    /** `save`: insert or update the row with u's id, unless a unique column would clash. */
    method Save(u: UserRecord) returns (r: Result<(), StorageError>)
      requires Valid()
      modifies this
      ensures Valid()
      ensures r.Success? <==> Saveable(old(rows), u)
      ensures rows == if r.Success? then old(rows)[u.id := u] else old(rows)
    {
      if Saveable(rows, u) {
        rows := rows[u.id := u];
        r := Success(());
      } else {
        r := Failure(StorageError);
      }
    }

    /**
     * `getNewApiKey`: sets the API key to the freshly generated one, saves, and
     * returns the key. `updated` is the entity after the assignment.
     */
    method GetNewApiKey(u: UserRecord, freshKey: string) returns (updated: UserRecord, r: Result<string, StorageError>)
      requires Valid()
      requires forall id :: id in rows ==> rows[id].apiKey != freshKey
      modifies this
      ensures Valid()
      ensures updated == u.(apiKey := freshKey)
      ensures r.Success? <==> Saveable(old(rows), updated)
      ensures r.Success? ==> r.value == freshKey && rows == old(rows)[u.id := updated]
      ensures r.Failure? ==> rows == old(rows)
      ensures u.id in old(rows) && old(rows)[u.id] == u ==> r.Success?
    {
      updated := u.(apiKey := freshKey);
      var saved := Save(updated);
      if saved.Success? {
        r := Success(freshKey);
      } else {
        r := Failure(saved.error);
      }
    }

    /**
     * `generateNewLinkToken`: stores "<username> <token>" as the link token,
     * saves, and returns the token alone.
     */
    method GenerateNewLinkToken(u: UserRecord, usernameToLink: string, randomToken: string)
      returns (updated: UserRecord, r: Result<string, StorageError>)
      requires Valid()
      modifies this
      ensures Valid()
      ensures updated == u.(linkToken := Some(LinkValue(usernameToLink, randomToken)))
      ensures r.Success? <==> Saveable(old(rows), updated)
      ensures r.Success? ==> r.value == randomToken && rows == old(rows)[u.id := updated]
      ensures r.Failure? ==> rows == old(rows)
      ensures u.id in old(rows) && old(rows)[u.id] == u ==> r.Success?
    {
      updated := u.(linkToken := Some(LinkValue(usernameToLink, randomToken)));
      var saved := Save(updated);
      if saved.Success? {
        r := Success(randomToken);
      } else {
        r := Failure(saved.error);
      }
    }

    /** `findByDiscordId`: a row with that Discord id, the only one there is. */
    method FindByDiscordId(discordId: string) returns (found: Option<UserRecord>)
      requires Valid()
      ensures found.Some? ==> found.value.id in rows && rows[found.value.id] == found.value
      ensures found.Some? ==> found.value.discordUserId == discordId
      ensures found.Some? ==> forall id :: id in rows && rows[id].discordUserId == discordId ==> rows[id] == found.value
      ensures found.None? <==> forall id :: id in rows ==> rows[id].discordUserId != discordId
    {
      if exists id :: id in rows && rows[id].discordUserId == discordId {
        var id :| id in rows && rows[id].discordUserId == discordId;
        found := Some(rows[id]);
      } else {
        found := None;
      }
    }

    /** `findByTwitchUserId`: a row with that Twitch id, the only one there is. */
    method FindByTwitchUserId(twitchUserId: string) returns (found: Option<UserRecord>)
      requires Valid()
      ensures found.Some? ==> found.value.id in rows && rows[found.value.id] == found.value
      ensures found.Some? ==> found.value.twitchUserId == twitchUserId
      ensures found.Some? ==> forall id :: id in rows && rows[id].twitchUserId == twitchUserId ==> rows[id] == found.value
      ensures found.None? <==> forall id :: id in rows ==> rows[id].twitchUserId != twitchUserId
    {
      if exists id :: id in rows && rows[id].twitchUserId == twitchUserId {
        var id :| id in rows && rows[id].twitchUserId == twitchUserId;
        found := Some(rows[id]);
      } else {
        found := None;
      }
    }

    /**
     * `findByLinkToken`: some row whose link token is exactly "<username> <token>".
     * The column is not unique, so which matching row is found is not determined.
     */
    method FindByLinkToken(username: string, randomToken: string) returns (found: Option<UserRecord>)
      requires Valid()
      ensures found.Some? ==> found.value.id in rows && rows[found.value.id] == found.value
      ensures found.Some? ==> found.value.linkToken == Some(LinkValue(username, randomToken))
      ensures found.None? <==> forall id :: id in rows ==> rows[id].linkToken != Some(LinkValue(username, randomToken))
    {
      var value := LinkValue(username, randomToken);
      if exists id :: id in rows && rows[id].linkToken == Some(value) {
        var id :| id in rows && rows[id].linkToken == Some(value);
        found := Some(rows[id]);
      } else {
        found := None;
      }
    }

    /**
     * `linkAccounts`: builds the combined record, then in one transaction deletes
     * both old rows and saves the combined one. The transaction commits when the
     * storage layer is available and the unique columns accept the new row;
     * otherwise nothing changes.
     */
    method LinkAccounts(twitchUser: UserRecord, discordUser: UserRecord, newId: string, newApiKey: string,
                        storageAvailable: bool)
      returns (r: Result<UserRecord, StorageError>)
      requires Valid()
      requires newId !in rows && newId != twitchUser.id && newId != discordUser.id
      requires forall id :: id in rows ==> rows[id].apiKey != newApiKey
      modifies this
      ensures Valid()
      ensures r.Success? <==>
        storageAvailable && Saveable(old(rows) - {twitchUser.id, discordUser.id}, Combine(twitchUser, discordUser, newId, newApiKey))
      ensures r.Success? ==>
        && r.value.id == newId
        && r.value.twitchUserId == twitchUser.twitchUserId
        && r.value.discordUserId == discordUser.discordUserId
        && r.value.userClass == PickHigherUserClass(twitchUser.userClass, discordUser.userClass)
        && r.value.apiKey == newApiKey
        && r.value.linkToken == None
      ensures r.Success? ==> r.value == Combine(twitchUser, discordUser, newId, newApiKey)
      ensures r.Success? ==> rows == AfterLink(old(rows), twitchUser, discordUser, r.value)
      ensures r.Failure? ==> rows == old(rows)
    {
      var combined := Combine(twitchUser, discordUser, newId, newApiKey);
      var rest := rows - {twitchUser.id, discordUser.id};
      if storageAvailable && Saveable(rest, combined) {
        rows := rest[newId := combined];
        assert StoreValid(rows) by {
          forall a, b | a in rows && b in rows && a != b
            ensures rows[a].twitchUserId != rows[b].twitchUserId
            ensures rows[a].discordUserId != rows[b].discordUserId
            ensures rows[a].apiKey != rows[b].apiKey
          {
            if a != newId && b != newId {
              assert rows[a] == old(rows)[a] && rows[b] == old(rows)[b];
            }
          }
        }
        r := Success(combined);
      } else {
        r := Failure(StorageError);
      }
    }
  }

  /**
   * The linking handshake on the store: a token issued for a current row is
   * found again with the same username and token, and finds that row, when no
   * other row holds the same link value (a fresh uuid token).
   */
  method LinkTokenRoundTrip(store: UserStore, u: UserRecord, username: string, token: string)
    returns (found: Option<UserRecord>)
    requires store.Valid()
    requires u.id in store.rows && store.rows[u.id] == u
    requires forall id :: id in store.rows ==> store.rows[id].linkToken != Some(LinkValue(username, token))
    modifies store
    ensures store.Valid()
    ensures store.rows == old(store.rows)[u.id := u.(linkToken := Some(LinkValue(username, token)))]
    ensures found == Some(store.rows[u.id])
  {
    var updated, r := store.GenerateNewLinkToken(u, username, token);
    found := store.FindByLinkToken(username, token);
  }
}
