/** The simulated session of client/src/context/AuthContext.jsx: login and register
    accept any non-empty credentials, store a token and the user record, and mark the
    session authenticated; logout clears both. Local storage is a pair of fields of the
    state; the clock and the random token are parameters. */
module AuthContext {
  import opened Values
  import opened JsText

  datatype User = User(id: int, email: string, name: string)

  /** `{ success: true }` or `{ success: false, error }`. */
  datatype AuthResult = Success | Failure(error: string)

  /** The part of an address before its first "@" (all of it when there is none). */
  function LocalPart(email: string): (p: string)
    ensures '@' !in p
    ensures p <= email
    ensures |p| < |email| ==> email[|p|] == '@'
    ensures |p| == IndexOf(email, '@')
  {
    email[..IndexOf(email, '@')]
  }

  /** `email.split('@')[0]` is the local part. */
  lemma SplitGivesLocalPart(email: string)
    ensures Split(email, '@')[0] == LocalPart(email)
  {
  }

  /** `s.charAt(0).toUpperCase() + s.slice(1)`. */
  function Capitalize(s: string): (r: string)
    ensures |r| == |s|
    ensures s != [] ==> r[0] == UpperChar(s[0]) && r[1..] == s[1..]
  {
    if s == [] then "" else [UpperChar(s[0])] + s[1..]
  }

  /** The name login derives from an address: its local part, capitalised. */
  function DerivedName(email: string): (name: string)
    ensures '@' !in name
    ensures |name| == IndexOf(email, '@')
    ensures name != [] ==> name[0] == UpperChar(email[0]) && name[1..] == email[1..|name|]
  {
    Capitalize(Split(email, '@')[0])
  }

  class AuthState {
    var isAuthenticated: bool
    var user: Option<User>
    var loading: bool
    /** The `authToken` key of local storage. */
    var authToken: Option<string>
    /** The `userData` key of local storage, already parsed. */
    var userData: Option<User>

    /** Mounting, after the effect that reads storage: authenticated exactly when both a
        non-empty token and user data are stored. */
    constructor(token: Option<string>, data: Option<User>)
      ensures isAuthenticated <==> token.Some? && token.value != "" && data.Some?
      ensures user == (if isAuthenticated then data else None)
      ensures authToken == token && userData == data && !loading
    {
      authToken := token;
      userData := data;
      if token.Some? && token.value != "" && data.Some? {
        isAuthenticated := true;
        user := data;
      } else {
        isAuthenticated := false;
        user := None;
      }
      loading := false;
    }

    /** Stores and adopts a user record. */
    method SignIn(u: User, token: string)
      modifies this
      ensures isAuthenticated && user == Some(u)
      ensures authToken == Some(token) && userData == Some(u) && loading == old(loading)
    {
      authToken := Some(token);
      userData := Some(u);
      isAuthenticated := true;
      user := Some(u);
    }

    /** `login` at time `now` with the generated `token`. */
    method Login(email: string, password: string, now: int, token: string) returns (result: AuthResult)
      modifies this
      ensures email == "" || password == "" ==> result == Failure("Invalid credentials")
      ensures result.Failure? ==>
        && isAuthenticated == old(isAuthenticated) && user == old(user)
        && authToken == old(authToken) && userData == old(userData)
      ensures email != "" && password != "" ==> result == Success
      ensures result.Success? ==>
        && isAuthenticated && user == Some(User(now, email, DerivedName(email)))
        && authToken == Some(token) && userData == user
      ensures loading == old(loading)
    {
      if email != "" && password != "" {
        SignIn(User(now, email, DerivedName(email)), token);
        return Success;
      }
      return Failure("Invalid credentials");
    }

    /** `register` at time `now` with the generated `token`. */
    method Register(name: string, email: string, password: string, now: int, token: string) returns (result: AuthResult)
      modifies this
      ensures name == "" || email == "" || password == "" ==> result == Failure("Please fill all fields")
      ensures result.Failure? ==>
        && isAuthenticated == old(isAuthenticated) && user == old(user)
        && authToken == old(authToken) && userData == old(userData)
      ensures name != "" && email != "" && password != "" ==> result == Success
      ensures result.Success? ==>
        && isAuthenticated && user == Some(User(now, email, name))
        && authToken == Some(token) && userData == user
      ensures loading == old(loading)
    {
      if name != "" && email != "" && password != "" {
        SignIn(User(now, email, name), token);
        return Success;
      }
      return Failure("Please fill all fields");
    }

    method Logout()
      modifies this
      ensures !isAuthenticated && user.None? && authToken.None? && userData.None?
      ensures loading == old(loading)
    {
      authToken := None;
      userData := None;
      isAuthenticated := false;
      user := None;
    }
  }

  /** A session restored from what login stored is the same session. */
  method LoginThenReload(email: string, password: string, now: int, token: string) returns (restored: AuthState)
    requires email != "" && password != "" && token != ""
    ensures restored.isAuthenticated && restored.user == Some(User(now, email, DerivedName(email)))
  {
    var s := new AuthState(None, None);
    var r := s.Login(email, password, now, token);
    restored := new AuthState(s.authToken, s.userData);
  }
}
