/** Reading the `Authorization` header, as both implementations do it
    (src/routes/admin.js and backend/src/middleware/auth.js share the same
    lines): the word after the first space is base64-decoded, and the decoded
    text is `username:password` or `:password`. */
module Credentials {
  import opened Values
  import opened Text

  /** `!authHeader` is false: the header is there and not empty. */
  predicate HeaderPresent(header: Option<string>)
  {
    header.Some? && header.value != ""
  }

  /** `(authHeader.split(' ')[1] || '').trim()`: the scheme word is never
      looked at, and a header without a space gives the empty token. */
  function Token(header: string): (t: string)
    ensures ' ' !in header ==> t == ""
  {
    var words := Split(header, ' ');
    if |words| >= 2 then
      assert header[|words[0]|] == ' ' by {
        assert header == words[0] + [' '] + Join(words[1..], ' ');
      }
      Trim(words[1])
    else
      ""
  }

  /** Whatever the scheme word, the token is the next word, trimmed. */
  lemma TokenAfterScheme(scheme: string, word: string, tail: string)
    requires ' ' !in scheme && ' ' !in word
    requires tail == [] || tail[0] == ' '
    ensures Token(scheme + " " + word + tail) == Trim(word)
  {
    var header := scheme + " " + word + tail;
    assert header == scheme + [' '] + (word + tail);
    SplitCons(scheme, word + tail, ' ');
    FirstPiece(word, tail);
  }

  /** A word followed by nothing or by a space is the first piece. */
  lemma FirstPiece(word: string, tail: string)
    requires ' ' !in word
    requires tail == [] || tail[0] == ' '
    ensures Split(word + tail, ' ')[0] == word
  {
    if tail == [] {
      assert word + tail == word;
      SplitNone(word, ' ');
    } else {
      assert tail == [' '] + tail[1..];
      assert word + tail == word + [' '] + tail[1..];
      SplitCons(word, tail[1..], ' ');
    }
  }

  /** The decoded credential: an optional username and the password. */
  datatype Login = Login(username: Option<string>, password: string)

  /** The text a username stood for before `parts[0] || null`. */
  function UserPart(username: Option<string>): string
  {
    if username.Some? then username.value else ""
  }

  /** Without a colon the whole text is the password; otherwise the text
      before the first colon is the username (empty means none) and the rest,
      inner colons included, is the password. */
  function Parse(credentials: string): (l: Login)
    ensures ':' !in credentials ==> l == Login(None, credentials)
    ensures ':' in credentials ==> credentials == UserPart(l.username) + ":" + l.password
    ensures l.username.Some? ==> l.username.value != "" && ':' !in l.username.value
  {
    if ':' !in credentials then
      Login(None, credentials)
    else
      var parts := Split(credentials, ':');
      assert |parts| >= 2;
      Login(if parts[0] == "" then None else Some(parts[0]), Join(parts[1..], ':'))
  }

  /** `username:password` gives both back, whatever colons the password has. */
  lemma ParseNamed(username: string, password: string)
    requires username != "" && ':' !in username
    ensures Parse(username + ":" + password) == Login(Some(username), password)
  {
    var s := username + ":" + password;
    assert s[|username|] == ':';
    SplitCons(username, password, ':');
  }

  /** `:password` is the legacy form: no username. */
  lemma ParseUnnamed(password: string)
    ensures Parse(":" + password) == Login(None, password)
  {
    var s := ":" + password;
    assert s[0] == ':';
    assert s == [] + [':'] + password;
    SplitCons([], password, ':');
  }

  /** The credential a header carries: its token, base64-decoded, parsed. */
  function LoginOf(header: string, p: Primitives): Login
  {
    Parse(p.decode(Token(header)))
  }
}
