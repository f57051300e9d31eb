/** The Flask application of `app.py` as an object: the credential file `users.json` and
    the client's session are its fields, and the request handlers that change them are its
    methods, each proved to make the transition its `Auth` function describes. */
module App {
  import opened Wrappers
  import opened Text
  import opened CredentialStore
  import opened Auth

  class CropApp {
    const env: Env
    var file: Option<string>
    var session: Session

    /** The abstract state the `Auth` transitions speak about. */
    function State(): Auth.State
      reads this
    {
      Auth.State(file, session)
    }

    /** The store read back by the codec is what was saved, and a logged-in session names a
        registered user and has a language. */
    ghost predicate Valid()
      reads this
    {
      Faithful(env.codec) && Invariant(State(), env)
    }

    /** A fresh client of the application, with whatever is on disk. */
    constructor (env: Env, file: Option<string>)
      requires Faithful(env.codec)
      ensures Valid()
      ensures this.env == env && this.file == file && session == NoSession
    {
      this.env := env;
      this.file := file;
      session := NoSession;
    }

    /** `load_users`: create a missing file holding `{}`, then read, strip and decode it,
        degrading to the empty mapping for blank or undecodable content. */
    method LoadUsers() returns (users: map<string, string>)
      modifies this`file
      ensures file == Initialized(old(file))
      ensures users == Load(old(file), env.codec)
    {
      if file.None? {
        file := Some(EmptyDocument);
      }
      var data := Strip(file.value);
      if data == [] {
        users := map[];
      } else {
        match env.codec.decode(data)
        case None =>
          users := map[];
        case Some(m) =>
          users := m;
      }
    }

    /** `save_users`: overwrite the file with the whole mapping. */
    method SaveUsers(users: map<string, string>)
      modifies this`file
      ensures file == Save(users, env.codec)
      ensures Faithful(env.codec) ==> Load(file, env.codec) == users
    {
      file := Some(env.codec.encode(users));
    }

    /** `POST /signup`. */
    method Signup(username: Option<string>, password: Option<string>) returns (reply: SignupReply)
      requires Valid()
      modifies this
      ensures Valid()
      ensures Step(reply, State()) == Auth.Signup(old(State()), username, password, env)
      ensures session == old(session)
      ensures reply == AccountCreated
              ==> Users(State(), env) == Users(old(State()), env)[Strip(username.value) := env.hash(Strip(password.value))]
      ensures reply != AccountCreated ==> Users(State(), env) == Users(old(State()), env)
    {
      ghost var before := State();
      SignupPreservesInvariant(before, username, password, env);
      FailedSignupChangesNothing(before, username, password, env);
      if username.None? || password.None? {
        return SignupBadRequest;
      }
      var u := Strip(username.value);
      var p := Strip(password.value);
      var users := LoadUsers();
      if u in users {
        return UserExists;
      }
      SignupFreshInserts(before, username.value, password.value, env);
      users := users[u := env.hash(p)];
      SaveUsers(users);
      return AccountCreated;
    }

    /** `POST /login`. */
    method Login(username: Option<string>, password: Option<string>) returns (reply: LoginReply)
      requires Valid()
      modifies this
      ensures Valid()
      ensures Step(reply, State()) == Auth.Login(old(State()), username, password, env)
      ensures Users(State(), env) == Users(old(State()), env)
      ensures reply == LoggedIn ==> session.user == Some(Strip(username.value))
      ensures reply != LoggedIn ==> session == old(session)
    {
      ghost var before := State();
      LoginPreservesInvariant(before, username, password, env);
      LoginOutcome(before, username, password, env);
      if username.None? || password.None? {
        return LoginBadRequest;
      }
      var u := Strip(username.value);
      var p := Strip(password.value);
      var users := LoadUsers();
      if u !in users {
        return UserNotFound;
      }
      if users[u] != env.hash(p) {
        return IncorrectPassword;
      }
      session := session.(user := Some(u));
      if session.language.None? {
        session := session.(language := Some(DefaultLanguage));
      }
      return LoggedIn;
    }

    /** `GET /logout`. */
    method Logout()
      requires Valid()
      modifies this`session
      ensures Valid()
      ensures State() == Auth.Logout(old(State()))
      ensures session == NoSession
    {
      SessionUpdatesPreserveInvariant(State(), None, env);
      session := NoSession;
    }

    /** `POST /set_language`, with the `lang` member of the request body. */
    method SetLanguage(lang: Option<string>)
      requires Valid()
      modifies this`session
      ensures Valid()
      ensures State() == Auth.SetLanguage(old(State()), lang)
      ensures session == old(session).(language := Some(lang.GetOr(DefaultLanguage)))
    {
      SessionUpdatesPreserveInvariant(State(), lang, env);
      session := session.(language := Some(lang.GetOr(DefaultLanguage)));
    }
  }

  /** A client session against the object: after a signup that creates the account, the
      same credentials log in, the account stays stored, and logout empties the session.
      When the signup does not create the account no login is attempted and `reply` is
      `LoginBadRequest`. */
  method SignupLoginLogout(app: CropApp, username: string, password: string)
    returns (created: SignupReply, reply: LoginReply)
    requires app.Valid()
    modifies app
    ensures app.Valid()
    ensures created == AccountCreated
            ==> reply == LoggedIn && app.session == NoSession
                && Strip(username) in Users(app.State(), app.env)
    ensures created != AccountCreated ==> app.session == old(app.session)
  {
    created := app.Signup(Some(username), Some(password));
    reply := LoginBadRequest;
    if created == AccountCreated {
      SignupThenLogin(old(app.State()), username, password, username, password, app.env);
      SignupFreshInserts(old(app.State()), username, password, app.env);
      reply := app.Login(Some(username), Some(password));
      app.Logout();
    }
  }
}
