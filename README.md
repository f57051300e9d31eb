# Crop recommendation app: credential store and session flow

A model of the authentication core of the Flask crop-recommendation web application
(`app.py`). The application keeps a JSON file `users.json` that maps usernames to
SHA-256 digests of their passwords. A Flask session records the logged-in `user`
and the chosen display `language`. The handlers are `signup`, `login`, `logout` and
`set_language`, plus the guards of `index`, `predict_page` and `predict`. Around them
sit three small pure helpers: `str.strip()` on form fields, the `crop_data` lookup
with its fallback row, and `translate_text` with its English short-circuit and its
failure fallback.

Layout:

- `wrappers.dfy` (`Wrappers`): `Option`, used for absent form fields, a missing file, unset session keys and failed translator calls.
- `text.dfy` (`Text`): Python's `str.strip()` and, for ASCII, `str.lower()`.
- `store.dfy` (`CredentialStore`): what `load_users` reads from the file, with its degrade rules, and what `save_users` writes. JSON is an abstract `Codec`.
- `auth.dfy` (`Auth`): the session record and the application state `(file, session)`. Each handler is a pure transition, and lemmas state its outcomes and the session invariant.
- `routes.dfy` (`Routes`): the pages that `index`, `predict_page` and `predict` serve, as functions of the session.
- `crops.dfy` (`Crops`): the 22-row `crop_data` table and `crop_data.get` with its default.
- `translation.dfy` (`Translation`): `translate_text` and the `/translate` route, over a translator oracle.
- `app.dfy` (`App`): the application as a class. Its fields are the file and the session, its methods are the mutating handlers, and each method is proved to make the transition its `Auth` function describes.

The collaborators are parameters. `Env.hash` stands for `hash_password`: any
deterministic function from strings to strings. `Env.codec` stands for `json.dump`
and `json.loads`. `Faithful(codec)` says that what save writes, load reads back, and
that `{}` decodes to the empty mapping. Lemmas that need a round trip through the
file assume it. The translator is a function from (text, target) to `Option<string>`,
where `None` means the call raised. The classifier's output is the `prediction`
argument of `Routes.Predict`.

Some behaviour of the code worth knowing, which the model keeps:

- `signup` never checks that a username is non-empty. A blank username strips to `""` and is stored (app.py:101, 104-107).
- `set_language` overwrites the session language on every request, not only the first time (app.py:131-132).
- `login` does not start a fresh session. It only assigns `session["user"]`, and adds `language` when it is absent, so a second login replaces the user and keeps the language (app.py:119-121).
- A corrupt file reads as an empty store (app.py:70-71). The next successful signup then overwrites the file with a one-entry mapping, and the earlier users are lost (app.py:106-107). `Auth.SignupFreshInserts` states the new content in terms of what was loaded.

## Model

| member | source | states |
|---|---|---|
| Text.LeadingSpaces | app.py:101-102 | the count is the length of the longest all-whitespace prefix: every character before it is whitespace and the next one is not |
| Text.TrailingSpaces | app.py:101-102 | the count is the length of the longest all-whitespace suffix |
| Text.Strip | app.py:101-102 | the stripped field neither starts nor ends with whitespace and is no longer than the input |
| Text.StripSplits | app.py:101-102 | what strip removes is whitespace: the result is the infix after the leading whitespace run, and everything after it is whitespace |
| Text.StripUnique | app.py:112-113 | whenever the input is whitespace, a trimmed middle and whitespace, strip returns exactly that middle |
| Text.StripIdempotent | app.py:101-102 | stripping a stripped field changes nothing |
| Text.StripTrimmed | app.py:112-113 | a field without surrounding whitespace is used as typed |
| Text.Lower | app.py:148 | the classifier label, lower-cased: each upper-case ASCII letter becomes its lower-case partner, every other character is kept, and the result has no upper-case letter |
| CredentialStore.Initialized | app.py:63-65 | after load the file always exists, and an existing file is untouched |
| CredentialStore.Parse | app.py:66-71 | blank or undecodable content gives the empty mapping, and a non-empty result is exactly what the stripped content decodes to |
| CredentialStore.Load | app.py:62-71 | a non-empty store is what the (possibly just created) file decodes to |
| CredentialStore.Save | app.py:73-75 | with a faithful codec, loading after a save gives back exactly the saved mapping |
| CredentialStore.LoadDegrades | app.py:62-71 | a missing, blank or undecodable file loads as the empty mapping, and otherwise as what its stripped content decodes to |
| CredentialStore.LoadIgnoresCreation | app.py:63-65 | creating the missing file does not change what is loaded |
| Auth.Signup | app.py:99-108 | signup never changes the session |
| Auth.Login | app.py:110-122 | login never rewrites the credential file; at most it creates a missing one |
| Auth.Logout | app.py:124-127 | logout leaves a session with neither user nor language, and the file is untouched |
| Auth.SetLanguage | app.py:129-133 | the language becomes the requested string, or "english" when none is given; user and file are untouched |
| Auth.ReplyMessagesDistinct | app.py:105-118 | different replies have different texts, so "already exists", "created", "not found" and "incorrect password" are told apart |
| Auth.SignupExistingRefused | app.py:103-105 | a taken stripped username gives "already exists", and the store, the saved file (apart from creating a missing one) and the session stay as they were |
| Auth.SignupFreshInserts | app.py:106-108 | a fresh stripped username is stored with the digest of the stripped password, every other entry is unchanged, the new mapping is what is saved, and the session is untouched |
| Auth.FailedSignupChangesNothing | app.py:99-105 | a signup that does not create an account leaves the store and the session unchanged |
| Auth.SignupStripsFields | app.py:101-102 | signup depends only on the stripped fields |
| Auth.SignupTwiceRefused | app.py:104-107 | once an account exists, a second signup with the same stripped username is refused, whatever the password |
| Auth.LoginUnknownUser | app.py:114-116 | an unknown stripped username gives "not found", and the session and store are unchanged |
| Auth.LoginWrongPassword | app.py:117-118 | a known username with a different digest gives "incorrect password", which is distinct from "not found", and the session is unchanged |
| Auth.LoginOutcome | app.py:110-122 | login succeeds if and only if the stripped user is stored with the digest of the stripped password; success sets the user and keeps an existing language (else "english"); every failure leaves the session as it was; no reply changes the store |
| Auth.LoginStripsFields | app.py:112-113 | login depends only on the stripped fields |
| Auth.SignupThenLogin | app.py:99-122 | signup followed by login with the same (equally stripped) credentials succeeds and logs in the stripped username |
| Auth.SignupRefuseLoginScenario | app.py:99-122 | for any user whose passwords have different digests: the first signup succeeds, a second is refused, login with the second password is an incorrect password and with the first succeeds |
| Auth.AliceScenario | app.py:99-122 | signup alice/pw1 succeeds, signup alice/pw2 is refused, login alice/pw2 is an incorrect password, and login alice/pw1 succeeds |
| Auth.SignupPreservesInvariant | app.py:99-108 | signup keeps "a logged-in user is registered and has a language" and never removes a user |
| Auth.LoginPreservesInvariant | app.py:110-122 | login keeps the session invariant |
| Auth.SessionUpdatesPreserveInvariant | app.py:124-133 | logout and set_language keep the session invariant |
| Routes.LanguageOf | app.py:139 | the session's language, or "english" when unset |
| Routes.Index | app.py:89-93 | a logged-in client is redirected to the prediction form, and any other client gets the login form |
| Routes.PredictPage | app.py:135-140 | the form is served if and only if `user` is in the session, in the session's language; otherwise the client is redirected to the index |
| Routes.Predict | app.py:142-157 | a result is served if and only if `user` is in the session; it shows `Lower(prediction)` with its table row, or the fallback row, in the session's language, and tip and fertiliser are never empty |
| Routes.LogoutLocksOut | app.py:124-145 | after logout, index shows the login form and both protected pages redirect to the index |
| Routes.ServedOnlyToRegisteredUsers | app.py:135-150 | under the session invariant, the prediction form and a result are served only to a user who is registered in the store |
| Routes.LoginUnlocks | app.py:119-121 | after a successful login the form is served in the language chosen before, or in English |
| Routes.ChosenLanguageSticks | app.py:120-132 | a language set before login survives the login |
| Crops.TableRowsDefined | app.py:12-57 | every table row has a non-empty tip and fertiliser text and differs from the fallback row |
| Crops.Lookup | app.py:150 | a known label gets its own row and any other label the fallback; the fallback is returned exactly for unknown labels; both fields are always non-empty |
| Translation.TranslateText | app.py:80-86 | "english" and "en" return the text without using the translator, a failed call returns the text, and otherwise the result is the translator's answer |
| Translation.TranslateRoute | app.py:159-164 | missing text is "" and a missing language is English, so such a request echoes its text; for a non-alias language an answering translator's translation of that text is returned; a failed call echoes the text |
| Translation.FrenchIsTranslatedEnglishIsNot | app.py:80-86 | "Rice" to "fr" is translated, to "english" it is returned unchanged, and "English" (capitalised) is not an alias |
| App.CropApp.constructor | app.py:59 | a new client starts with no session over whatever file is on disk, in a valid state |
| App.CropApp.LoadUsers | app.py:62-71 | creates a missing file holding `{}` and returns the degraded-or-decoded mapping |
| App.CropApp.SaveUsers | app.py:73-75 | the file becomes the encoded mapping, which loads back as that mapping |
| App.CropApp.Signup | app.py:99-108 | makes exactly the `Auth.Signup` transition, keeps the invariant and the session, and inserts the new digest only on success |
| App.CropApp.Login | app.py:110-122 | makes exactly the `Auth.Login` transition, keeps the invariant and the store, and changes the session only on success |
| App.CropApp.Logout | app.py:124-127 | the session becomes empty |
| App.CropApp.SetLanguage | app.py:129-133 | only the language changes, to the given value or "english" |
| App.SignupLoginLogout | app.py:99-127 | on the object, a successful signup makes the same credentials log in and keeps the account stored, and a later logout leaves an empty session |

## Left out

- `train_model.py`: loading the CSV and training and serialising the random forest are library calls over floating point.
- The classifier (`model.predict`) and the `float(...)`/`np.array` conversion of the seven form fields are left out. The label is a parameter of `Routes.Predict`. A missing or non-numeric field, which makes the source fail with an uncaught error after the session guard, is not modelled.
- Text.Lower: lower-casing is modelled for the ASCII letters only. Python's `str.lower()` also maps non-ASCII letters. The 22 table labels are ASCII.
- `hash_password` is SHA-256 over UTF-8 bytes. Here it is an arbitrary deterministic function. Collision resistance is assumed only where a lemma requires two digests to differ: `Auth.SignupRefuseLoginScenario` and `Auth.AliceScenario`.
- JSON encoding and decoding are the abstract `Codec`, whose decoded value is a mapping from strings to strings. Valid JSON of any other shape is treated here as undecodable, so it loads as an empty store. The source behaves differently.
  - For an object with a non-string value, such as `{"alice": 1}`, the key is still present. Signup of alice is refused with "already exists", and login gets "Incorrect password" because `1` never equals a digest.
  - For a list such as `[]`, login gets "User not found".
  - In the model, the store is empty in both cases. A signup of alice succeeds, and its save drops the existing entries.
- Real file I/O, and the write-then-read of a missing file, are collapsed into one step. Any I/O error other than a decode error, which would propagate as an exception, is not modelled.
- Flask is modelled only as outcome tags and pages that carry the values handed to the templates. Not modelled: routing, `render_template`, `jsonify`, `redirect`/`url_for`, the `signup_page` GET handler (it only renders a template), and cookie signing with `secret_key`.
- The model has one client session and runs requests one at a time. The lost-update race between concurrent signups, and cookie expiry, are not modelled.
- `set_language` is modelled with a `lang` that is a string or absent. A request body that is not a JSON object, or a `lang` that is not a string, is not modelled.
- The translator is a deterministic function of text and target. Network timing and nondeterminism are not modelled.
