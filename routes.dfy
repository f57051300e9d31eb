/** The pages `index`, `predict_page` and `predict` serve, as functions of the session.
    Rendering is abstracted to the template and the values handed to it. */
module Routes {
  import opened Wrappers
  import opened Text
  import opened Crops
  import opened Auth

  datatype Route = IndexRoute | PredictPageRoute

  datatype Page =
    | LoginForm                                     // login.html
    | RedirectTo(target: Route)                     // redirect(url_for(...))
    | PredictForm(lang: string)                     // index.html
    | ResultPage(crop: string, tip: string, fertilizer: string, lang: string)  // result.html

  /** `"user" in session`. */
  predicate Authenticated(s: Session) {
    s.user.Some?
  }

  /** `session.get("language", "english")`. */
  function LanguageOf(s: Session): (lang: string)
    ensures s.language.Some? ==> lang == s.language.value
    ensures s.language.None? ==> lang == DefaultLanguage
  {
    s.language.GetOr(DefaultLanguage)
  }

  /** `index`: a logged-in client is sent to the prediction form, anyone else gets the
      login form. */
  function Index(s: Session): (p: Page)
    ensures p == RedirectTo(PredictPageRoute) <==> Authenticated(s)
    ensures p == LoginForm <==> !Authenticated(s)
  {
    if s.user.Some? then RedirectTo(PredictPageRoute) else LoginForm
  }

  /** `predict_page`: the form is served only to a logged-in client, in the session's
      language; anyone else is sent back to the index. */
  function PredictPage(s: Session): (p: Page)
    ensures p.RedirectTo? <==> !Authenticated(s)
    ensures !Authenticated(s) ==> p == RedirectTo(IndexRoute)
    ensures Authenticated(s) ==> p.PredictForm? && p.lang == LanguageOf(s)
  {
    if s.user.None? then RedirectTo(IndexRoute) else PredictForm(LanguageOf(s))
  }

  /** `predict`, given the label the classifier produced for the seven measurements: only
      a logged-in client gets a result, which shows the lower-cased label with its table
      row, or the fallback row for a label missing from the table, so the tip and the
      fertiliser text are never empty. */
  function Predict(s: Session, prediction: string): (p: Page)
    ensures p.RedirectTo? <==> !Authenticated(s)
    ensures !Authenticated(s) ==> p == RedirectTo(IndexRoute)
    ensures Authenticated(s) ==>
              p.ResultPage? && p.lang == LanguageOf(s) && p.crop == Lower(prediction) && IsLower(p.crop)
              && p.tip != [] && p.fertilizer != []
    ensures Authenticated(s) && Lower(prediction) in CropTable ==>
              p.tip == CropTable[Lower(prediction)].tip && p.fertilizer == CropTable[Lower(prediction)].fert
    ensures Authenticated(s) && Lower(prediction) !in CropTable ==>
              p.tip == Fallback.tip && p.fertilizer == Fallback.fert
  {
    if s.user.None? then RedirectTo(IndexRoute)
    else
      var crop := Lower(prediction);
      var info := Lookup(crop);
      ResultPage(crop, info.tip, info.fert, LanguageOf(s))
  }

  /** After logout the protected pages redirect to the index, which shows the login form,
      whatever the state before. */
  lemma LogoutLocksOut(st: State, prediction: string)
    ensures var s := Logout(st).session;
      Index(s) == LoginForm && PredictPage(s) == RedirectTo(IndexRoute)
      && Predict(s, prediction) == RedirectTo(IndexRoute)
  {
  }

  /** In a state that keeps the session invariant, the prediction form and a prediction
      result are only ever served to a user who is registered in the store. */
  lemma ServedOnlyToRegisteredUsers(st: State, prediction: string, env: Env)
    requires Invariant(st, env)
    ensures PredictPage(st.session).PredictForm? ==> st.session.user.value in Users(st, env)
    ensures Predict(st.session, prediction).ResultPage? ==> st.session.user.value in Users(st, env)
  {
  }

  /** After a successful login the prediction form is served, in the language chosen
      before the login if there was one and in English otherwise. */
  lemma LoginUnlocks(st: State, username: Option<string>, password: Option<string>, env: Env)
    ensures var r := Login(st, username, password, env);
      r.reply == LoggedIn ==> PredictPage(r.next.session) == PredictForm(LanguageOf(st.session))
  {
    LoginOutcome(st, username, password, env);
  }

  /** A language chosen with `set_language` is the one the prediction pages use, until
      logout; a later login keeps it. */
  lemma ChosenLanguageSticks(st: State, lang: string, username: Option<string>, password: Option<string>, env: Env)
    ensures var st1 := SetLanguage(st, Some(lang));
      var r := Login(st1, username, password, env);
      LanguageOf(st1.session) == lang && LanguageOf(r.next.session) == lang
  {
    LoginOutcome(SetLanguage(st, Some(lang)), username, password, env);
  }
}
