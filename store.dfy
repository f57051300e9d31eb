/** The credential store of `app.py`: a JSON file mapping each username to the hex digest
    of its password. The file is read in full by `load_users` and rewritten in full by
    `save_users`; JSON itself is abstract here (a `Codec`). */
module CredentialStore {
  import opened Wrappers
  import opened Text

  /** JSON encoding of `json.dump` and decoding of `json.loads`; `decode` is `None`
      exactly where `json.loads` raises `JSONDecodeError` or yields something other than
      an object of strings. */
  datatype Codec = Codec(encode: map<string, string> -> string, decode: string -> Option<map<string, string>>)

  /** What `load_users` writes into a missing file: `json.dump({}, f)`. */
  const EmptyDocument: string := "{}"

  /** The codec reads back what it writes: every encoded mapping survives the strip and
      the decode of `load_users`, and the document written for a missing file decodes to
      the empty mapping. */
  ghost predicate Faithful(c: Codec) {
    c.decode(EmptyDocument) == Some(map[])
    && forall m {:trigger c.encode(m)} :: Strip(c.encode(m)) != [] && c.decode(Strip(c.encode(m))) == Some(m)
  }

  /** The file after `load_users` ran: it creates a missing file holding `EmptyDocument`
      and leaves an existing one alone. */
  function Initialized(file: Option<string>): (f: Option<string>)
    ensures f.Some?
    ensures file.Some? ==> f == file
  {
    if file.None? then Some(EmptyDocument) else file
  }

  /** The mapping `load_users` returns for file content `text`: blank content and content
      that does not decode both give the empty mapping instead of an error. */
  function Parse(text: string, c: Codec): (users: map<string, string>)
    ensures users != map[] ==> Strip(text) != [] && c.decode(Strip(text)) == Some(users)
    ensures AllSpace(text) ==> users == map[]
    ensures c.decode(Strip(text)) == None ==> users == map[]
  {
    var data := Strip(text);
    if data == [] then map[]
    else match c.decode(data)
      case None => map[]
      case Some(m) => m
  }

  /** The mapping `load_users` returns when the file holds `file` (`None`: no such file). */
  function Load(file: Option<string>, c: Codec): (users: map<string, string>)
    ensures users != map[] ==> c.decode(Strip(Initialized(file).value)) == Some(users)
  {
    Parse(Initialized(file).value, c)
  }

  /** The file after `save_users(users)`: the whole mapping, encoded. */
  function Save(users: map<string, string>, c: Codec): (f: Option<string>)
    ensures Faithful(c) ==> Load(f, c) == users
  {
    Some(c.encode(users))
  }

  /** The store degrades to empty for a missing file, for a blank one and for one that
      does not decode; otherwise it is what the stripped content decodes to. */
  lemma LoadDegrades(file: Option<string>, c: Codec)
    requires c.decode(EmptyDocument) == Some(map[])
    ensures file.None? ==> Load(file, c) == map[]
    ensures file.Some? && AllSpace(file.value) ==> Load(file, c) == map[]
    ensures file.Some? && c.decode(Strip(file.value)) == None ==> Load(file, c) == map[]
    ensures file.Some? && Strip(file.value) != [] && c.decode(Strip(file.value)).Some?
            ==> Load(file, c) == c.decode(Strip(file.value)).value
  {
    if file.None? {
      StripTrimmed(EmptyDocument);
    }
  }

  /** Creating the missing file does not change what is loaded from it. */
  lemma LoadIgnoresCreation(file: Option<string>, c: Codec)
    ensures Load(Initialized(file), c) == Load(file, c)
  {
  }
}
