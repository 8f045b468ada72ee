/** UserService.java: register, login and logout over the store. Tokens (UUIDs in the source) are parameters. */
module UserServices {
  import opened Wrappers
  import opened Records
  import opened MemoryStore

  /** A string argument that is neither null nor empty. */
  predicate Present(x: Option<string>)
  {
    x.Some? && x.value != ""
  }

  const BadRequest := DataAccessException("Error: bad request")
  const AlreadyTaken := DataAccessException("Error: already taken")
  const Unauthorized := DataAccessException("Error: unauthorized")

  /** Every token is issued to a registered user. */
  predicate TokensReferToUsers(s: StoreState)
  {
    forall t | t in s.auths :: s.auths[t].username in s.users
  }

  /** register: reject missing fields, then a taken name; otherwise store the user and a token for them. */
  function RegisterOn(s: StoreState, username: Option<string>, password: Option<string>, email: Option<string>, authToken: string)
    : (StoreState, Result<AuthData, DataAccessException>)
  {
    if !Present(username) || !Present(password) || !Present(email) then (s, Failure(BadRequest))
    else if Lookup(s.users, username.value).Some? then (s, Failure(AlreadyTaken))
    else
      var s1 := AddUserOn(s, UserData(username.value, password.value, email.value)).0;
      var auth := AuthData(authToken, username.value);
      (AddAuthOn(s1, auth), Success(auth))
  }

  /** login: an unknown user or a different (or null) password is unauthorized; otherwise a new token is added. */
  function LoginOn(s: StoreState, username: Option<string>, password: Option<string>, authToken: string)
    : (StoreState, Result<AuthData, DataAccessException>)
  {
    var user := if username.None? then None else Lookup(s.users, username.value);
    if user.None? || password != Some(user.value.password) then (s, Failure(Unauthorized))
    else
      var auth := AuthData(authToken, username.value);
      (AddAuthOn(s, auth), Success(auth))
  }

  /** logout: an unknown token is unauthorized; otherwise it is deleted. */
  function LogoutOn(s: StoreState, authToken: string): (StoreState, Outcome<DataAccessException>)
  {
    if Lookup(s.auths, authToken).None? then (s, Fail(Unauthorized))
    else (DeleteAuthOn(s, authToken), Pass)
  }

  /** register's failures, in the source's order; a success files the user and a token naming them. */
  lemma RegisterOutcomes(s: StoreState, username: Option<string>, password: Option<string>, email: Option<string>, authToken: string)
    ensures var (s', r) := RegisterOn(s, username, password, email, authToken);
      (r == Failure(BadRequest) <==> !Present(username) || !Present(password) || !Present(email)) &&
      (r == Failure(AlreadyTaken) <==> Present(username) && Present(password) && Present(email) && username.value in s.users) &&
      (r.Failure? ==> s' == s) &&
      (r.Success? ==>
         r.value == AuthData(authToken, username.value) &&
         Lookup(s'.users, username.value) == Some(UserData(username.value, password.value, email.value)) &&
         Lookup(s'.auths, authToken) == Some(r.value) &&
         s'.games == s.games)
  {
  }

  /** A user who has just registered can log in with the same name and password. */
  lemma {:induction false} RegisterThenLogin(s: StoreState, username: string, password: string, email: string, t1: string, t2: string)
    requires RegisterOn(s, Some(username), Some(password), Some(email), t1).1.Success?
    ensures var s1 := RegisterOn(s, Some(username), Some(password), Some(email), t1).0;
      LoginOn(s1, Some(username), Some(password), t2).1 == Success(AuthData(t2, username))
  {
    var s1 := RegisterOn(s, Some(username), Some(password), Some(email), t1).0;
    assert Lookup(s1.users, username) == Some(UserData(username, password, email));
  }

  /** login fails exactly for an unknown user or a wrong password; a success adds a token and keeps every other one. */
  lemma LoginOutcomes(s: StoreState, username: Option<string>, password: Option<string>, authToken: string)
    ensures var (s', r) := LoginOn(s, username, password, authToken);
      (r.Failure? <==> username.None? || username.value !in s.users || password != Some(s.users[username.value].password)) &&
      (r.Failure? ==> r.error == Unauthorized && s' == s) &&
      (r.Success? ==>
         r.value == AuthData(authToken, username.value) &&
         Lookup(s'.auths, authToken) == Some(r.value) &&
         (forall t | t in s.auths && t != authToken :: Lookup(s'.auths, t) == Some(s.auths[t])) &&
         s'.users == s.users && s'.games == s.games)
  {
  }

  /** logout fails exactly for an unknown token, so logging out twice with one token fails the second time. */
  lemma {:induction false} LogoutTwiceFails(s: StoreState, authToken: string)
    ensures LogoutOn(s, authToken).1.Fail? <==> authToken !in s.auths
    ensures LogoutOn(LogoutOn(s, authToken).0, authToken).1 == Fail(Unauthorized)
  {
    var s1 := LogoutOn(s, authToken).0;
    assert authToken !in s1.auths;
  }

  /** The three operations keep records under their own keys and tokens tied to registered users. */
  lemma UserOperationsKeepInvariants(s: StoreState, username: Option<string>, password: Option<string>, email: Option<string>, authToken: string)
    requires WellKeyed(s) && TokensReferToUsers(s)
    ensures var s' := RegisterOn(s, username, password, email, authToken).0; WellKeyed(s') && TokensReferToUsers(s')
    ensures var s' := LoginOn(s, username, password, authToken).0; WellKeyed(s') && TokensReferToUsers(s')
    ensures var s' := LogoutOn(s, authToken).0; WellKeyed(s') && TokensReferToUsers(s')
  {
  }

  class UserService {
    const dataAccess: MemoryDataAccess

    constructor(dataAccess: MemoryDataAccess)
      ensures this.dataAccess == dataAccess
    {
      this.dataAccess := dataAccess;
    }

    method Register(username: Option<string>, password: Option<string>, email: Option<string>, authToken: string)
      returns (r: Result<AuthData, DataAccessException>)
      requires dataAccess.Valid()
      modifies dataAccess
      ensures dataAccess.Valid()
      ensures (dataAccess.State(), r) == RegisterOn(old(dataAccess.State()), username, password, email, authToken)
    {
      if !Present(username) || !Present(password) || !Present(email) {
        return Failure(BadRequest);
      }
      var existing := dataAccess.GetUser(username.value);
      if existing.Some? {
        return Failure(AlreadyTaken);
      }
      var newUser := UserData(username.value, password.value, email.value);
      // cannot fail: the name was just found absent
      var _ := dataAccess.AddUser(newUser);
      var authData := AuthData(authToken, username.value);
      dataAccess.AddAuth(authData);
      return Success(authData);
    }

    method Login(username: Option<string>, password: Option<string>, authToken: string)
      returns (r: Result<AuthData, DataAccessException>)
      requires dataAccess.Valid()
      modifies dataAccess
      ensures dataAccess.Valid()
      ensures (dataAccess.State(), r) == LoginOn(old(dataAccess.State()), username, password, authToken)
    {
      var user := if username.None? then None else dataAccess.GetUser(username.value);
      if user.None? || password != Some(user.value.password) {
        return Failure(Unauthorized);
      }
      var authData := AuthData(authToken, username.value);
      dataAccess.AddAuth(authData);
      return Success(authData);
    }

    method Logout(authToken: string) returns (r: Outcome<DataAccessException>)
      requires dataAccess.Valid()
      modifies dataAccess
      ensures dataAccess.Valid()
      ensures (dataAccess.State(), r) == LogoutOn(old(dataAccess.State()), authToken)
    {
      if dataAccess.GetAuth(authToken).None? {
        return Fail(Unauthorized);
      }
      dataAccess.DeleteAuth(authToken);
      return Pass;
    }
  }
}
