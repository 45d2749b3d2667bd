/**
  The user directory behind the `/api/users` endpoints: a table of user
  records and the handlers that look records up, create them, delete them,
  disable them and replace their tokens. Every handler first asks for the
  "su_full" capability and answers 401 with the gate's reason when it is
  refused; it then reads or changes at most one record.
*/
module UsersApi {
  import opened Wrappers
  import opened Entities

  /** The decision of `Authorize("su_full")` for the current request. */
  datatype AuthModel = AuthModel(Authorized: bool, Reason: string)

  /** The process-wide configuration that a handler consults. */
  datatype Config = Config(PreserveDeletedFiles: bool)

  /** The body of a create-user request. */
  datatype NewUserModel = NewUserModel(Name: string, Username: string, Email: string, UploadLimit: Megabytes)

  /** The full projection of a user that the lookups answer with. */
  datatype UserInfo = UserInfo(
    id: int,
    username: string,
    name: string,
    email: string,
    upload_limit: Megabytes,
    initial_ip: Option<string>,
    timestamp: string,
    token: string,
    deleted: bool,
    disabled: bool,
    account_type: string,
    links: set<BakaLink>,
    files: set<BakaFile>)

  /** The projection of a new user that create-user answers with: no
      account type and no owned collections. */
  datatype CreatedInfo = CreatedInfo(
    id: int,
    username: string,
    name: string,
    initial_ip: Option<string>,
    timestamp: string,
    token: string,
    deleted: bool,
    disabled: bool,
    email: string,
    upload_limit: Megabytes)

  /** The JSON answer of a handler. A `Failure` is `{success: false, error, code}`. */
  datatype Response =
    | Failure(code: int, error: string)
    | UserFound(info: UserInfo)
    | UserCreated(created: CreatedInfo)
    | UserDeleted   // {success: true, code: 200, deleted: true}
    | UserDisabled  // {success: true, code: 200, disabled: true}
    | TokenReset(new_token: string)
  {
    /** The HTTP status the handler sets. */
    function StatusCode(): int {
      if Failure? then code else 200
    }
  }

  const NotFound: Response := Failure(404, "404 Not Found")

  function Unauthorized(auth: AuthModel): Response {
    Failure(401, auth.Reason)
  }

  // ---------------------------------------------------------------------
  // Finding a record: `FirstOrDefault` over the table
  // ---------------------------------------------------------------------

  /** The column a lookup compares with its key. */
  datatype Key = ByEmail(email: string) | ById(id: int) | ByToken(token: string)

  predicate Matches(u: BakaUser, key: Key) {
    match key
    case ByEmail(email) => u.Email == email
    case ById(id) => u.Id == id
    case ByToken(token) => u.Token == token
  }

  /** Record `i` matches `key` and no earlier record does. */
  ghost predicate FirstMatch(users: seq<BakaUser>, key: Key, i: int) {
    0 <= i < |users| && Matches(users[i], key) &&
    forall j :: 0 <= j < i ==> !Matches(users[j], key)
  }

  ghost predicate NoMatch(users: seq<BakaUser>, key: Key) {
    forall j :: 0 <= j < |users| ==> !Matches(users[j], key)
  }

  /** The position of the first record matching `key`, in table order. */
  function FindFirst(users: seq<BakaUser>, key: Key): (r: Option<nat>)
    ensures r.Some? ==> FirstMatch(users, key, r.value)
    ensures r.None? <==> NoMatch(users, key)
  {
    if users == [] then None
    else if Matches(users[0], key) then Some(0)
    else match FindFirst(users[1..], key)
      case None => None
      case Some(i) => Some(i + 1)
  }

  // ---------------------------------------------------------------------
  // Projections
  // ---------------------------------------------------------------------

  /** Every stored field of the user, the timestamp as its epoch string,
      and the owned links and files whatever their own deleted flags. */
  function Project(u: BakaUser): (info: UserInfo)
    ensures IsDigits(info.timestamp) && ParseDecimal(info.timestamp) == u.Timestamp
    ensures info.files == u.Files && info.links == u.Links
  {
    UserInfo(u.Id, u.Username, u.Name, u.Email, u.UploadLimitMB, u.InitialIp, u.Epoch(),
             u.Token, u.Deleted, u.Disabled, u.AccountType, u.Links, u.Files)
  }

  /** The fields create-user answers with; the timestamp again as its epoch string. */
  function ProjectCreated(u: BakaUser): (c: CreatedInfo)
    ensures IsDigits(c.timestamp) && ParseDecimal(c.timestamp) == u.Timestamp
  {
    CreatedInfo(u.Id, u.Username, u.Name, u.InitialIp, u.Epoch(), u.Token,
                u.Deleted, u.Disabled, u.Email, u.UploadLimitMB)
  }

  /** The full projection loses nothing: two users with the same projection are the same record. */
  lemma ProjectionIsFaithful(u1: BakaUser, u2: BakaUser)
    ensures Project(u1) == Project(u2) <==> u1 == u2
  {
  }

  /** What create-user answers is the full projection with the account type
      and the owned collections left out. */
  lemma CreatedIsNarrowedProjection(u: BakaUser)
    ensures var c, p := ProjectCreated(u), Project(u);
      c.id == p.id && c.username == p.username && c.name == p.name &&
      c.initial_ip == p.initial_ip && c.timestamp == p.timestamp && c.token == p.token &&
      c.deleted == p.deleted && c.disabled == p.disabled && c.email == p.email &&
      c.upload_limit == p.upload_limit
  {
  }

  /** `r` is the authorized answer to a lookup by `key`: 404 when nothing
      matches, the projection of the first match otherwise. */
  ghost predicate AnswersLookup(users: seq<BakaUser>, key: Key, r: Response) {
    (NoMatch(users, key) ==> r == NotFound) &&
    (forall i :: FirstMatch(users, key, i) ==> r == UserFound(Project(users[i])))
  }

  /** The answer of a lookup handler, shared by the email, id and token
      lookups: a refusal never looks at the table. */
  function Lookup(users: seq<BakaUser>, auth: AuthModel, key: Key): (r: Response)
    ensures !auth.Authorized ==> r == Unauthorized(auth)
    ensures auth.Authorized ==> AnswersLookup(users, key, r)
  {
    if !auth.Authorized then Unauthorized(auth)
    else match FindFirst(users, key)
      case None => NotFound
      case Some(i) => UserFound(Project(users[i]))
  }

  // ---------------------------------------------------------------------
  // Table invariants
  // ---------------------------------------------------------------------

  /** Keys increase along the table: rows are kept in insertion order and
      each insert takes a larger key. */
  ghost predicate IdsIncreasing(users: seq<BakaUser>) {
    forall i, j :: 0 <= i < j < |users| ==> users[i].Id < users[j].Id
  }

  ghost predicate IdsDistinct(users: seq<BakaUser>) {
    forall i, j :: 0 <= i < j < |users| ==> users[i].Id != users[j].Id
  }

  /** Keys lie below the next key to be assigned and increase along the
      table, and every user owns the files and links it lists. */
  ghost predicate TableInvariant(users: seq<BakaUser>, nextId: int) {
    1 <= nextId &&
    (forall i :: 0 <= i < |users| ==> 1 <= users[i].Id < nextId) &&
    IdsIncreasing(users) &&
    (forall i :: 0 <= i < |users| ==> users[i].OwnsItems())
  }

  lemma IncreasingIdsAreDistinct(users: seq<BakaUser>)
    requires IdsIncreasing(users)
    ensures IdsDistinct(users)
  {
  }

  /** With keys increasing along the table, the first match in table order
      is the match with the least key: what a scan in key order returns. */
  lemma FirstMatchHasLeastId(users: seq<BakaUser>, key: Key, i: int)
    requires IdsIncreasing(users) && FirstMatch(users, key, i)
    ensures forall j :: 0 <= j < |users| && Matches(users[j], key) ==> users[i].Id <= users[j].Id
  {
  }

  /** Tokens are not declared unique by the store; this is the invariant
      that create and reset keep when the generated token is fresh. */
  ghost predicate TokensDistinct(users: seq<BakaUser>) {
    forall i, j :: 0 <= i < j < |users| ==> users[i].Token != users[j].Token
  }

  /** No user holds `token`: what the token generator is assumed to deliver. */
  ghost predicate TokenFresh(users: seq<BakaUser>, token: string) {
    forall j :: 0 <= j < |users| ==> users[j].Token != token
  }

  // ---------------------------------------------------------------------
  // How the handlers' changes affect later lookups
  // ---------------------------------------------------------------------

  /** With distinct keys, looking a user up by its own key finds that user. */
  lemma DistinctIdResolves(users: seq<BakaUser>, i: int)
    requires IdsDistinct(users) && 0 <= i < |users|
    ensures FirstMatch(users, ById(users[i].Id), i)
  {
  }

  /** Replacing the first match by a record that still matches keeps it the first match. */
  lemma UpdateKeepsFirstMatch(users: seq<BakaUser>, key: Key, i: int, v: BakaUser)
    requires FirstMatch(users, key, i) && Matches(v, key)
    ensures FirstMatch(users[i := v], key, i)
  {
  }

  /** A record given a key nobody held becomes the first (and only) match for it. */
  lemma UpdateWithFreshKey(users: seq<BakaUser>, key: Key, i: int, v: BakaUser)
    requires 0 <= i < |users| && NoMatch(users, key) && Matches(v, key)
    ensures FirstMatch(users[i := v], key, i)
  {
  }

  /** A record that was the only match and stops matching leaves no match. */
  lemma UpdateDropsOnlyMatch(users: seq<BakaUser>, key: Key, i: int, v: BakaUser)
    requires 0 <= i < |users| && !Matches(v, key)
    requires forall j :: 0 <= j < |users| && j != i ==> !Matches(users[j], key)
    ensures NoMatch(users[i := v], key)
  {
  }

  /** Removing the only match leaves no match. */
  lemma RemoveOnlyMatch(users: seq<BakaUser>, key: Key, i: int)
    requires 0 <= i < |users|
    requires forall j :: 0 <= j < |users| && j != i ==> !Matches(users[j], key)
    ensures NoMatch(users[..i] + users[i + 1..], key)
  {
  }

  /** Removing record `i` (a hard delete) keeps the table invariant and
      leaves no record with the removed key. */
  lemma RemoveKeepsInvariant(users: seq<BakaUser>, nextId: int, i: int)
    requires TableInvariant(users, nextId) && 0 <= i < |users|
    ensures TableInvariant(users[..i] + users[i + 1..], nextId)
    ensures NoMatch(users[..i] + users[i + 1..], ById(users[i].Id))
  {
  }

  /** Changing a record's flags or token, but not its key or its owned
      items, keeps the table invariant. */
  lemma UpdateKeepsInvariant(users: seq<BakaUser>, nextId: int, i: int, v: BakaUser)
    requires TableInvariant(users, nextId) && 0 <= i < |users|
    requires v.Id == users[i].Id && v.Files == users[i].Files && v.Links == users[i].Links
    ensures TableInvariant(users[i := v], nextId)
  {
  }

  /** Appending a record that owns its items under the next key keeps the
      table invariant, and the new key finds exactly that record. */
  lemma AppendKeepsInvariant(users: seq<BakaUser>, nextId: int, u: BakaUser)
    requires TableInvariant(users, nextId) && u.Id == nextId && u.OwnsItems()
    ensures TableInvariant(users + [u], nextId + 1)
    ensures FirstMatch(users + [u], ById(u.Id), |users|)
  {
  }

  /** A record appended with a key nobody held is the first match for it. */
  lemma AppendWithFreshKey(users: seq<BakaUser>, key: Key, u: BakaUser)
    requires NoMatch(users, key) && Matches(u, key)
    ensures FirstMatch(users + [u], key, |users|)
  {
  }

  /** A fresh token keeps the tokens distinct, whether it is appended with a
      new record or replaces the token of an existing one. */
  lemma FreshTokenKeepsTokensDistinct(users: seq<BakaUser>, i: int, u: BakaUser)
    requires TokensDistinct(users) && TokenFresh(users, u.Token) && 0 <= i < |users|
    ensures TokensDistinct(users + [u])
    ensures TokensDistinct(users[i := users[i].(Token := u.Token)])
  {
  }

  /** With distinct tokens, the holder of a token is its only match. */
  lemma DistinctTokenHolder(users: seq<BakaUser>, token: string, i: int)
    requires TokensDistinct(users) && FirstMatch(users, ByToken(token), i)
    ensures forall j :: 0 <= j < |users| && j != i ==> !Matches(users[j], ByToken(token))
  {
  }

  // ---------------------------------------------------------------------
  // The store and its handlers
  // ---------------------------------------------------------------------

  /** The user table as the handlers see it. `nextId` is the key the store
      will give the next inserted record: keys are assigned in increasing
      order and never reused. */
  class UsersApiController {
    var users: seq<BakaUser>
    var nextId: int

    ghost predicate Valid()
      reads this
    {
      TableInvariant(users, nextId)
    }

    constructor ()
      ensures Valid() && users == [] && nextId == 1
    {
      users := [];
      nextId := 1;
    }

    /** GET from-email/{email}. */
    function GetUserFromEmail(auth: AuthModel, email: string): (r: Response)
      reads this
      ensures !auth.Authorized ==> r == Unauthorized(auth)
      ensures auth.Authorized ==> AnswersLookup(users, ByEmail(email), r)
    {
      Lookup(users, auth, ByEmail(email))
    }

    /** GET by id: the lookup by key the endpoint is meant to perform. */
    function GetUserFromId(auth: AuthModel, id: int): (r: Response)
      reads this
      ensures !auth.Authorized ==> r == Unauthorized(auth)
      ensures auth.Authorized ==> AnswersLookup(users, ById(id), r)
    {
      Lookup(users, auth, ById(id))
    }

    /** GET {token}. */
    function GetUserInfo(auth: AuthModel, token: string): (r: Response)
      reads this
      ensures !auth.Authorized ==> r == Unauthorized(auth)
      ensures auth.Authorized ==> AnswersLookup(users, ByToken(token), r)
    {
      Lookup(users, auth, ByToken(token))
    }

    /** POST create-user: store a new "su_upload" account built from the
        request, with a token from `generateToken` and the next key. */
    method CreateUser(auth: AuthModel, details: NewUserModel, now: FileTime,
                      generateToken: BakaUser -> string) returns (r: Response)
      requires Valid()
      modifies this
      ensures Valid()
      ensures !auth.Authorized ==> r == Unauthorized(auth) && users == old(users) && nextId == old(nextId)
      ensures auth.Authorized ==>
        var usr := NewBakaUser().(Name := details.Name, Username := details.Username,
                                  Email := details.Email, InitialIp := None, Timestamp := now,
                                  UploadLimitMB := details.UploadLimit, Deleted := false,
                                  Disabled := false, AccountType := "su_upload");
        var u := usr.(Token := generateToken(usr), Id := old(nextId));
        users == old(users) + [u] && nextId == old(nextId) + 1 && r == UserCreated(ProjectCreated(u))
      ensures auth.Authorized ==>
        GetUserFromId(auth, users[|users| - 1].Id) == UserFound(Project(users[|users| - 1]))
      ensures auth.Authorized && TokenFresh(old(users), users[|users| - 1].Token) ==>
        GetUserInfo(auth, users[|users| - 1].Token) == UserFound(Project(users[|users| - 1])) &&
        (TokensDistinct(old(users)) ==> TokensDistinct(users))
    {
      if !auth.Authorized {
        return Unauthorized(auth);
      }
      var usr := NewBakaUser().(Name := details.Name, Username := details.Username,
                                Email := details.Email, InitialIp := None, Timestamp := now,
                                UploadLimitMB := details.UploadLimit, Deleted := false,
                                Disabled := false, AccountType := "su_upload");
      usr := usr.(Token := generateToken(usr));
      usr := usr.(Id := nextId);
      ghost var before := users;
      users := users + [usr];
      nextId := nextId + 1;
      r := UserCreated(ProjectCreated(usr));

      AppendKeepsInvariant(before, old(nextId), usr);
      if TokenFresh(before, usr.Token) {
        AppendWithFreshKey(before, ByToken(usr.Token), usr);
        if TokensDistinct(before) && |before| > 0 {
          FreshTokenKeepsTokensDistinct(before, 0, usr);
        }
      }
    }

    /** POST {token} and POST delete/{token}: remove the record, or only
        mark it deleted when deleted users' files are preserved. */
    method DeleteUser(auth: AuthModel, config: Config, token: string) returns (r: Response)
      requires Valid()
      modifies this
      ensures Valid() && nextId == old(nextId)
      ensures !auth.Authorized ==> r == Unauthorized(auth) && users == old(users)
      ensures auth.Authorized && NoMatch(old(users), ByToken(token)) ==> r == NotFound && users == old(users)
      ensures auth.Authorized ==> forall i :: FirstMatch(old(users), ByToken(token), i) ==>
        r == UserDeleted &&
        users == if config.PreserveDeletedFiles then old(users)[i := old(users)[i].(Deleted := true)]
                 else old(users)[..i] + old(users)[i + 1..]
      ensures auth.Authorized ==> forall i :: FirstMatch(old(users), ByToken(token), i) ==>
        GetUserFromId(auth, old(users)[i].Id) ==
          if config.PreserveDeletedFiles then UserFound(Project(old(users)[i].(Deleted := true)))
          else NotFound
      ensures auth.Authorized && r == UserDeleted && TokensDistinct(old(users)) ==>
        (GetUserInfo(auth, token).UserFound? <==> config.PreserveDeletedFiles)
    {
      if !auth.Authorized {
        return Unauthorized(auth);
      }
      var found := FindFirst(users, ByToken(token));
      if found.None? {
        return NotFound;
      }
      var i := found.value;
      ghost var before := users;
      ghost var id := before[i].Id;
      IncreasingIdsAreDistinct(before);
      if !config.PreserveDeletedFiles {
        users := users[..i] + users[i + 1..];
        RemoveKeepsInvariant(before, nextId, i);
        if TokensDistinct(before) {
          DistinctTokenHolder(before, token, i);
          RemoveOnlyMatch(before, ByToken(token), i);
        }
      } else {
        users := users[i := users[i].(Deleted := true)];
        UpdateKeepsInvariant(before, nextId, i, users[i]);
        DistinctIdResolves(before, i);
        UpdateKeepsFirstMatch(before, ById(id), i, users[i]);
        UpdateKeepsFirstMatch(before, ByToken(token), i, users[i]);
      }
      r := UserDeleted;
    }

    /** POST disable/{token}: set the record's disabled flag and nothing else. */
    method DisableUser(auth: AuthModel, token: string) returns (r: Response)
      requires Valid()
      modifies this
      ensures Valid() && nextId == old(nextId)
      ensures !auth.Authorized ==> r == Unauthorized(auth) && users == old(users)
      ensures auth.Authorized && NoMatch(old(users), ByToken(token)) ==> r == NotFound && users == old(users)
      ensures auth.Authorized ==> forall i :: FirstMatch(old(users), ByToken(token), i) ==>
        r == UserDisabled &&
        users == old(users)[i := old(users)[i].(Disabled := true)] &&
        GetUserInfo(auth, token) == UserFound(Project(users[i])) && users[i].Disabled
    {
      if !auth.Authorized {
        return Unauthorized(auth);
      }
      var found := FindFirst(users, ByToken(token));
      if found.None? {
        return NotFound;
      }
      var i := found.value;
      ghost var before := users;
      users := users[i := users[i].(Disabled := true)];
      UpdateKeepsInvariant(before, nextId, i, users[i]);
      UpdateKeepsFirstMatch(before, ByToken(token), i, users[i]);
      r := UserDisabled;
    }

    /** POST reset-token/{token}: give the record a newly generated token and answer with it. */
    method ResetUserToken(auth: AuthModel, token: string, generateToken: BakaUser -> string)
      returns (r: Response)
      requires Valid()
      modifies this
      ensures Valid() && nextId == old(nextId)
      ensures !auth.Authorized ==> r == Unauthorized(auth) && users == old(users)
      ensures auth.Authorized && NoMatch(old(users), ByToken(token)) ==> r == NotFound && users == old(users)
      ensures auth.Authorized ==> forall i :: FirstMatch(old(users), ByToken(token), i) ==>
        var newToken := generateToken(old(users)[i].(Files := {}, Links := {}));
        r == TokenReset(newToken) &&
        users == old(users)[i := old(users)[i].(Token := newToken)] &&
        (TokenFresh(old(users), newToken) ==>
          GetUserInfo(auth, newToken) == UserFound(Project(users[i])) &&
          !Matches(users[i], ByToken(token)) &&
          (TokensDistinct(old(users)) ==> TokensDistinct(users) && GetUserInfo(auth, token) == NotFound))
    {
      if !auth.Authorized {
        return Unauthorized(auth);
      }
      var found := FindFirst(users, ByToken(token));
      if found.None? {
        return NotFound;
      }
      var i := found.value;
      ghost var before := users;
      // the holder is loaded without its files and links
      var newToken := generateToken(users[i].(Files := {}, Links := {}));
      users := users[i := users[i].(Token := newToken)];
      UpdateKeepsInvariant(before, nextId, i, users[i]);
      r := TokenReset(newToken);
      if TokenFresh(before, newToken) {
        UpdateWithFreshKey(before, ByToken(newToken), i, users[i]);
        if TokensDistinct(before) {
          FreshTokenKeepsTokensDistinct(before, i, users[i]);
          DistinctTokenHolder(before, token, i);
          UpdateDropsOnlyMatch(before, ByToken(token), i, users[i]);
        }
      }
    }
  }
}
