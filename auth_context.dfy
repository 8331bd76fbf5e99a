/** The session context: the signed-in user, a loading flag and the
    persisted slot under the key "user". The slot is modelled as one
    optional user value, standing for `localStorage` with the JSON
    serialisation in between. */
module AuthContext {
  import opened Types

  /** How the promise returned by `login` or `register` settles. */
  datatype Outcome = Resolved | RejectedWith(reason: string)

  const InvalidCredentials: string := "Invalid credentials"
  const RegistrationFailed: string := "Registration failed"
  const IdPrefix: string := "user-"

  /** `email.split("@")[0]`: the text before the first "@", or all of it
      when there is none. */
  function EmailName(email: string): (r: string)
    ensures r <= email
    ensures '@' !in r
    ensures |r| < |email| ==> email[|r|] == '@'
  {
    if email == [] || email[0] == '@' then []
    else [email[0]] + EmailName(email[1..])
  }

  /** The three properties of `EmailName` pin the result down: no other
      prefix free of "@" ends at an "@" or at the end of the address. */
  lemma {:induction false} EmailNameUnique(email: string, r: string)
    requires r <= email && '@' !in r
    requires |r| < |email| ==> email[|r|] == '@'
    ensures r == EmailName(email)
  {
    if r != [] {
      assert email[0] == r[0];
      assert r[0] in r;
      EmailNameUnique(email[1..], r[1..]);
    }
  }

  /** An address without "@" is its own name, and `name@domain` yields
      `name`. */
  lemma EmailNameOfAddress(name: string, domain: string)
    requires '@' !in name
    ensures EmailName(name) == name
    ensures EmailName(name + "@" + domain) == name
  {
    EmailNameUnique(name, name);
    var email := name + "@" + domain;
    assert email[|name|] == '@';
    EmailNameUnique(email, name);
  }

  /** `"user-" + Math.random().toString(36).substr(2, 9)`. `digits` stands
      for the base-36 rendering of the random number ("0." followed by
      digits); `substr(2, 9)` takes at most nine characters after the
      leading "0.". */
  function SessionId(digits: string): (r: string)
    ensures IdPrefix <= r
    ensures |r| <= |IdPrefix| + 9
    ensures |digits| >= 11 ==> r == IdPrefix + digits[2..11]
  {
    var from := if |digits| < 2 then |digits| else 2;
    var to := if |digits| < 11 then |digits| else 11;
    IdPrefix + digits[from..to]
  }

  /** `AuthProvider`: the state behind `useAuth()`. */
  class AuthProvider {
    var user: Option<User>
    var isLoading: bool
    /** The "user" entry of `localStorage`. */
    var stored: Option<User>

    /** The session and the slot agree, except that before the restore
        effect has run nobody is signed in whatever the slot holds. */
    ghost predicate Valid()
      reads this
    {
      (user.Some? ==> user == stored) && (!isLoading ==> user == stored)
    }

    /** `isAuthenticated: !!user`. In a valid state an authenticated
        session's user is the one persisted in the slot. */
    predicate IsAuthenticated(): (b: bool)
      reads this
      ensures b <==> user != None
      ensures b && Valid() ==> stored.Some? && stored == user
    {
      user.Some?
    }

    /** Mounting the provider: nobody signed in, still loading, and the
        slot as the previous page left it. */
    constructor (persisted: Option<User>)
      ensures user == None && isLoading && stored == persisted
      ensures Valid() && !IsAuthenticated()
    {
      user := None;
      isLoading := true;
      stored := persisted;
    }

    /** The mount effect: adopt the stored user if there is one, then stop
        loading. The stored record is taken as it is. */
    method RestoreSession()
      modifies this
      ensures stored == old(stored) && !isLoading
      ensures user == if old(stored).Some? then old(stored) else old(user)
      ensures old(Valid()) ==> Valid() && user == stored
      ensures old(Valid()) ==> (IsAuthenticated() <==> stored.Some?)
    {
      if stored.Some? {
        user := stored;
      }
      isLoading := false;
    }

    /** `login(email, password)`: with both non-empty, sign in a made-up
        user named after the address and persist it; otherwise reject with
        "Invalid credentials" and change nothing. */
    method Login(email: string, password: string, digits: string, now: int) returns (outcome: Outcome)
      modifies this
      ensures isLoading == old(isLoading)
      ensures email != [] && password != [] ==>
                && outcome == Resolved
                && user == Some(User(SessionId(digits), email, EmailName(email), now))
                && stored == user
      ensures email == [] || password == [] ==>
                outcome == RejectedWith(InvalidCredentials) && user == old(user) && stored == old(stored)
      ensures old(Valid()) ==> Valid()
    {
      if email != [] && password != [] {
        var mockUser := User(SessionId(digits), email, EmailName(email), now);
        user := Some(mockUser);
        stored := Some(mockUser);
        outcome := Resolved;
      } else {
        outcome := RejectedWith(InvalidCredentials);
      }
    }

    /** `register(name, email, password)`: with all three non-empty, sign
        in a new user with that name and address and persist it; otherwise
        reject with "Registration failed" and change nothing. */
    method Register(name: string, email: string, password: string, digits: string, now: int)
      returns (outcome: Outcome)
      modifies this
      ensures isLoading == old(isLoading)
      ensures name != [] && email != [] && password != [] ==>
                && outcome == Resolved
                && user == Some(User(SessionId(digits), email, name, now))
                && stored == user
      ensures name == [] || email == [] || password == [] ==>
                outcome == RejectedWith(RegistrationFailed) && user == old(user) && stored == old(stored)
      ensures old(Valid()) ==> Valid()
    {
      if name != [] && email != [] && password != [] {
        var mockUser := User(SessionId(digits), email, name, now);
        user := Some(mockUser);
        stored := Some(mockUser);
        outcome := Resolved;
      } else {
        outcome := RejectedWith(RegistrationFailed);
      }
    }

    /** `logout()`: from any state, nobody is signed in and the slot is
        cleared; a second logout changes nothing. */
    method Logout()
      modifies this
      ensures user == None && stored == None && isLoading == old(isLoading)
      ensures !IsAuthenticated()
      ensures old(Valid()) ==> Valid()
    {
      user := None;
      stored := None;
    }

    /** Reloading the page: a new provider over the same slot. */
    method Reload() returns (next: AuthProvider)
      ensures fresh(next)
      ensures next.user == None && next.isLoading && next.stored == stored
      ensures next.Valid()
    {
      next := new AuthProvider(stored);
    }
  }

  /** Sign in, reload the page and let the effect run: the reloaded session
      has the same user. */
  method LoginSurvivesReload(session: AuthProvider, email: string, password: string, digits: string, now: int)
    returns (outcome: Outcome, reloaded: AuthProvider)
    requires session.Valid()
    requires email != [] && password != []
    modifies session
    ensures outcome == Resolved
    ensures fresh(reloaded) && reloaded.Valid() && !reloaded.isLoading
    ensures reloaded.user == session.user == Some(User(SessionId(digits), email, EmailName(email), now))
  {
    outcome := session.Login(email, password, digits, now);
    reloaded := session.Reload();
    reloaded.RestoreSession();
  }

  /** Sign out, reload the page and let the effect run: nobody is signed
      in. */
  method LogoutSurvivesReload(session: AuthProvider) returns (reloaded: AuthProvider)
    requires session.Valid()
    modifies session
    ensures fresh(reloaded) && reloaded.Valid() && !reloaded.isLoading
    ensures reloaded.user == None && !reloaded.IsAuthenticated()
  {
    session.Logout();
    reloaded := session.Reload();
    reloaded.RestoreSession();
  }
}
