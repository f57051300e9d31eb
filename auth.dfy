/** The authentication flow of `app.py` as transitions over the whole application state:
    the credential file and the client's session. Each request handler is a function from
    the state before to the reply and the state after. */
module Auth {
  import opened Wrappers
  import opened Text
  import opened CredentialStore

  /** Flask's `session` dict; the handlers only ever use the keys `user` and `language`. */
  datatype Session = Session(user: Option<string>, language: Option<string>)

  /** The session after `session.clear()`, and the one a new client starts with. */
  const NoSession: Session := Session(None, None)

  /** The language used wherever the session or the request names none. */
  const DefaultLanguage: string := "english"

  /** The credential-store file (`None` while `users.json` does not exist) and the session. */
  datatype State = State(file: Option<string>, session: Session)

  /** The collaborators the handlers call: the password digest (`hash_password`, SHA-256
      in the source) and the JSON codec of `users.json`. */
  datatype Env = Env(hash: string -> string, codec: Codec)

  /** The replies of `signup`; `SignupBadRequest` is Flask's 400 for a missing form field. */
  datatype SignupReply = SignupBadRequest | AccountCreated | UserExists {
    /** The JSON `message` `signup` returns; for `SignupBadRequest`, the title of the 400
        response Flask sends when a form field is missing. */
    function Message(): string {
      match this
      case SignupBadRequest => "Bad Request"
      case AccountCreated => "\U{2705} Account created successfully!"
      case UserExists => "\U{26A0}\U{FE0F} User already exists!"
    }
  }

  /** The replies of `login`; `LoggedIn` carries the redirect target `url_for("predict_page")`. */
  datatype LoginReply = LoginBadRequest | LoggedIn | UserNotFound | IncorrectPassword {
    /** The JSON `message` of a failed login, the `redirect` target for `LoggedIn`, and
        the title of Flask's 400 response for `LoginBadRequest`. */
    function Message(): string {
      match this
      case LoginBadRequest => "Bad Request"
      case LoggedIn => "/predict_page"
      case UserNotFound => "\U{274C} User not found!"
      case IncorrectPassword => "\U{274C} Incorrect password!"
    }
  }

  datatype Step<R> = Step(reply: R, next: State)

  /** Every reply tells the client which outcome it got: the texts of different replies
      differ, and in particular "not found" and "incorrect password" are told apart. */
  lemma ReplyMessagesDistinct(a: SignupReply, b: SignupReply, c: LoginReply, d: LoginReply)
    ensures a != b ==> a.Message() != b.Message()
    ensures c != d ==> c.Message() != d.Message()
    ensures UserNotFound.Message() != IncorrectPassword.Message()
  {
  }

  /** The mapping `load_users()` returns in state `st`. */
  function Users(st: State, env: Env): map<string, string> {
    Load(st.file, env.codec)
  }

  /** `signup`: strip both fields, load the store, refuse a username that is already a key,
      otherwise insert the digest of the stripped password and save the whole mapping.
      The session is never touched. */
  function Signup(st: State, username: Option<string>, password: Option<string>, env: Env): (r: Step<SignupReply>)
    ensures r.next.session == st.session
  {
    if username.None? || password.None? then Step(SignupBadRequest, st)
    else
      var u := Strip(username.value);
      var p := Strip(password.value);
      var users := Load(st.file, env.codec);
      if u in users then Step(UserExists, st.(file := Initialized(st.file)))
      else Step(AccountCreated, st.(file := Save(users[u := env.hash(p)], env.codec)))
  }

  /** `login`: strip both fields, load the store, report an unknown username and a wrong
      password apart, and on success put the username into the session, adding the
      default language only when the session has none. The store is never rewritten. */
  function Login(st: State, username: Option<string>, password: Option<string>, env: Env): (r: Step<LoginReply>)
    ensures r.next.file == st.file || r.next.file == Initialized(st.file)
  {
    if username.None? || password.None? then Step(LoginBadRequest, st)
    else
      var u := Strip(username.value);
      var p := Strip(password.value);
      var users := Load(st.file, env.codec);
      var st' := st.(file := Initialized(st.file));
      if u !in users then Step(UserNotFound, st')
      else if users[u] != env.hash(p) then Step(IncorrectPassword, st')
      else
        var language := if st.session.language.None? then Some(DefaultLanguage) else st.session.language;
        Step(LoggedIn, st'.(session := Session(Some(u), language)))
  }

  /** `logout`: `session.clear()`. */
  function Logout(st: State): (st': State)
    ensures st'.session.user.None? && st'.session.language.None?
    ensures st'.file == st.file
  {
    st.(session := NoSession)
  }

  /** `set_language`: store the requested language, English when the request names none;
      any string is accepted. */
  function SetLanguage(st: State, lang: Option<string>): (st': State)
    ensures st'.session.language == Some(lang.GetOr(DefaultLanguage))
    ensures st'.session.user == st.session.user && st'.file == st.file
  {
    st.(session := st.session.(language := Some(lang.GetOr(DefaultLanguage))))
  }

  // ---------------------------------------------------------------------------------------
  // Signup

  /** A stripped username that is already a key is refused, and the store, the session and
      every saved byte stay as they were (only a missing file gets created). */
  lemma SignupExistingRefused(st: State, username: string, password: string, env: Env)
    requires Strip(username) in Users(st, env)
    ensures var r := Signup(st, Some(username), Some(password), env);
      r.reply == UserExists && Users(r.next, env) == Users(st, env)
      && r.next.session == st.session && r.next.file == Initialized(st.file)
  {
    LoadIgnoresCreation(st.file, env.codec);
  }

  /** A fresh stripped username is inserted with the digest of the stripped password, every
      other entry stays, the new mapping is exactly what is saved, and the session stays. */
  lemma SignupFreshInserts(st: State, username: string, password: string, env: Env)
    requires Faithful(env.codec)
    requires Strip(username) !in Users(st, env)
    ensures var r := Signup(st, Some(username), Some(password), env);
      var u := Strip(username);
      r.reply == AccountCreated
      && Users(r.next, env) == Users(st, env)[u := env.hash(Strip(password))]
      && r.next.file == Save(Users(r.next, env), env.codec)
      && r.next.session == st.session
      && (forall k :: k != u ==> (k in Users(r.next, env) <==> k in Users(st, env)))
      && (forall k :: k != u && k in Users(st, env) ==> Users(r.next, env)[k] == Users(st, env)[k])
  {
  }

  /** Only a successful signup changes the store. */
  lemma FailedSignupChangesNothing(st: State, username: Option<string>, password: Option<string>, env: Env)
    ensures var r := Signup(st, username, password, env);
      r.reply != AccountCreated ==> Users(r.next, env) == Users(st, env) && r.next.session == st.session
  {
    LoadIgnoresCreation(st.file, env.codec);
  }

  /** Signup sees only the stripped fields: padding them with whitespace changes nothing. */
  lemma {:induction false} SignupStripsFields(st: State, username: string, password: string, env: Env)
    ensures Signup(st, Some(username), Some(password), env) == Signup(st, Some(Strip(username)), Some(Strip(password)), env)
  {
    StripIdempotent(username);
    StripIdempotent(password);
  }

  /** After a successful signup the username is taken: a second signup with it, whatever
      the password and padding, is refused. */
  lemma {:induction false} SignupTwiceRefused(st: State, username: string, password: string,
                                              username2: string, password2: string, env: Env)
    requires Faithful(env.codec)
    requires Strip(username2) == Strip(username)
    ensures var r := Signup(st, Some(username), Some(password), env);
      r.reply == AccountCreated ==> Signup(r.next, Some(username2), Some(password2), env).reply == UserExists
  {
    var r := Signup(st, Some(username), Some(password), env);
    if r.reply == AccountCreated {
      SignupFreshInserts(st, username, password, env);
      SignupExistingRefused(r.next, username2, password2, env);
    }
  }

  // ---------------------------------------------------------------------------------------
  // Login

  /** A stripped username that is not a key gives "not found", and the session and the
      store stay as they were. */
  lemma LoginUnknownUser(st: State, username: string, password: string, env: Env)
    requires Strip(username) !in Users(st, env)
    ensures var r := Login(st, Some(username), Some(password), env);
      r.reply == UserNotFound && r.next.session == st.session && Users(r.next, env) == Users(st, env)
  {
    LoadIgnoresCreation(st.file, env.codec);
  }

  /** A known username whose stored digest is not the digest of the stripped password gives
      "incorrect password", never "not found", and the session and the store stay. */
  lemma LoginWrongPassword(st: State, username: string, password: string, env: Env)
    requires Strip(username) in Users(st, env)
    requires Users(st, env)[Strip(username)] != env.hash(Strip(password))
    ensures var r := Login(st, Some(username), Some(password), env);
      r.reply == IncorrectPassword && r.reply != UserNotFound
      && r.next.session == st.session && Users(r.next, env) == Users(st, env)
  {
    LoadIgnoresCreation(st.file, env.codec);
  }

  /** Login succeeds exactly when both fields are present, the stripped username is a key
      and its digest is that of the stripped password. Success binds the session to the
      stripped username and keeps an existing language (English otherwise); every other
      reply leaves the session as it was. No reply changes the store. */
  lemma LoginOutcome(st: State, username: Option<string>, password: Option<string>, env: Env)
    ensures var r := Login(st, username, password, env);
      (r.reply == LoggedIn <==>
        username.Some? && password.Some? && Strip(username.value) in Users(st, env)
        && Users(st, env)[Strip(username.value)] == env.hash(Strip(password.value)))
      && (r.reply == LoggedIn ==>
            r.next.session == Session(Some(Strip(username.value)), Some(st.session.language.GetOr(DefaultLanguage))))
      && (r.reply != LoggedIn ==> r.next.session == st.session)
      && Users(r.next, env) == Users(st, env)
  {
    var r := Login(st, username, password, env);
    if username.None? || password.None? {
      assert r == Step(LoginBadRequest, st);
    } else {
      var u, p := Strip(username.value), Strip(password.value);
      var users := Users(st, env);
      var st' := st.(file := Initialized(st.file));
      LoadIgnoresCreation(st.file, env.codec);
      assert Users(st', env) == users;
      if u !in users {
        assert r == Step(UserNotFound, st');
      } else if users[u] != env.hash(p) {
        assert r == Step(IncorrectPassword, st');
      } else {
        var language := Some(st.session.language.GetOr(DefaultLanguage));
        assert language == if st.session.language.None? then Some(DefaultLanguage) else st.session.language;
        assert r == Step(LoggedIn, st'.(session := Session(Some(u), language)));
      }
    }
  }

  /** Login sees only the stripped fields. */
  lemma {:induction false} LoginStripsFields(st: State, username: string, password: string, env: Env)
    ensures Login(st, Some(username), Some(password), env) == Login(st, Some(Strip(username)), Some(Strip(password)), env)
  {
    StripIdempotent(username);
    StripIdempotent(password);
  }

  /** Signing up and then logging in with the same credentials (stripped alike) succeeds
      and puts the stripped username into the session. */
  lemma {:induction false} SignupThenLogin(st: State, username: string, password: string,
                                           username2: string, password2: string, env: Env)
    requires Faithful(env.codec)
    requires Strip(username2) == Strip(username) && Strip(password2) == Strip(password)
    ensures var r := Signup(st, Some(username), Some(password), env);
      var l := Login(r.next, Some(username2), Some(password2), env);
      r.reply == AccountCreated ==> l.reply == LoggedIn && l.next.session.user == Some(Strip(username))
  {
    var r := Signup(st, Some(username), Some(password), env);
    if r.reply == AccountCreated {
      SignupFreshInserts(st, username, password, env);
      LoginOutcome(r.next, Some(username2), Some(password2), env);
    }
  }

  /** One account, one wrong-password attempt, one right one: signing up `user` with
      `pw1` succeeds, signing up again with `pw2` is refused, logging in with `pw2` is an
      incorrect password (its digest differs) and logging in with `pw1` succeeds. */
  lemma {:induction false} SignupRefuseLoginScenario(st: State, user: string, pw1: string, pw2: string, env: Env)
    requires Faithful(env.codec)
    requires Strip(user) !in Users(st, env)
    requires env.hash(Strip(pw1)) != env.hash(Strip(pw2))
    ensures var s1 := Signup(st, Some(user), Some(pw1), env);
      var s2 := Signup(s1.next, Some(user), Some(pw2), env);
      var l1 := Login(s2.next, Some(user), Some(pw2), env);
      var l2 := Login(l1.next, Some(user), Some(pw1), env);
      s1.reply == AccountCreated && s2.reply == UserExists
      && l1.reply == IncorrectPassword && l2.reply == LoggedIn
      && l2.next.session.user == Some(Strip(user))
  {
    var s1 := Signup(st, Some(user), Some(pw1), env);
    SignupFreshInserts(st, user, pw1, env);
    var users := Users(s1.next, env);
    assert Strip(user) in users && users[Strip(user)] == env.hash(Strip(pw1));
    var s2 := Signup(s1.next, Some(user), Some(pw2), env);
    SignupExistingRefused(s1.next, user, pw2, env);
    var l1 := Login(s2.next, Some(user), Some(pw2), env);
    LoginWrongPassword(s2.next, user, pw2, env);
    LoginOutcome(l1.next, Some(user), Some(pw1), env);
  }

  /** The scenario for "alice" with "pw1" and then "pw2", for any faithful codec and any
      digest that tells "pw1" and "pw2" apart, starting from a store without "alice". */
  lemma AliceScenario(st: State, env: Env)
    requires Faithful(env.codec)
    requires "alice" !in Users(st, env)
    requires env.hash("pw1") != env.hash("pw2")
    ensures var s1 := Signup(st, Some("alice"), Some("pw1"), env);
      var s2 := Signup(s1.next, Some("alice"), Some("pw2"), env);
      var l1 := Login(s2.next, Some("alice"), Some("pw2"), env);
      var l2 := Login(l1.next, Some("alice"), Some("pw1"), env);
      s1.reply == AccountCreated && s2.reply == UserExists
      && l1.reply == IncorrectPassword && l2.reply == LoggedIn
      && l2.next.session.user == Some("alice")
  {
    var user, pw1, pw2 := "alice", "pw1", "pw2";
    StripTrimmed(user);
    StripTrimmed(pw1);
    StripTrimmed(pw2);
    SignupRefuseLoginScenario(st, user, pw1, pw2, env);
  }

  // ---------------------------------------------------------------------------------------
  // The session invariant

  /** A logged-in session names a registered user and has a language. */
  ghost predicate Invariant(st: State, env: Env) {
    st.session.user.Some? ==> st.session.user.value in Users(st, env) && st.session.language.Some?
  }

  /** Signup keeps the invariant and never removes a registered user. */
  lemma SignupPreservesInvariant(st: State, username: Option<string>, password: Option<string>, env: Env)
    requires Faithful(env.codec) && Invariant(st, env)
    ensures var r := Signup(st, username, password, env);
      Invariant(r.next, env) && Users(st, env).Keys <= Users(r.next, env).Keys
  {
    FailedSignupChangesNothing(st, username, password, env);
    var r := Signup(st, username, password, env);
    if r.reply == AccountCreated {
      SignupFreshInserts(st, username.value, password.value, env);
    }
  }

  /** Login keeps the invariant: it logs in only a registered user and gives the session a
      language. */
  lemma LoginPreservesInvariant(st: State, username: Option<string>, password: Option<string>, env: Env)
    requires Invariant(st, env)
    ensures Invariant(Login(st, username, password, env).next, env)
  {
    LoginOutcome(st, username, password, env);
  }

  /** Logout and set_language keep the invariant. */
  lemma SessionUpdatesPreserveInvariant(st: State, lang: Option<string>, env: Env)
    requires Invariant(st, env)
    ensures Invariant(Logout(st), env) && Invariant(SetLanguage(st, lang), env)
  {
  }
}
