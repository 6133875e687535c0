/** The CRS source lock: a reader and an in-place rewriter of one block of a YAML-like file
    (cmd/mwaf-crs-updater/main.go). */
module LockFormat {
  import opened Prelude
  import opened Text

  datatype Lock = Lock(channel: string, line: string, repository: string, version: string, commit: string,
                       tagObject: string, tagVerified: bool, archive: string, sha256: string)

  const DefaultRepository := "coreruleset/coreruleset"
  const GitHub := "https://github.com/"

  // ---------------------------------------------------------------- single lines

  predicate Quote(c: char) { c == '\'' || c == '"' }

  function TrimQuotesLeft(s: string): string {
    if s != [] && Quote(s[0]) then TrimQuotesLeft(s[1..]) else s
  }

  function TrimQuotesRight(s: string): string {
    if s != [] && Quote(s[|s| - 1]) then TrimQuotesRight(s[..|s| - 1]) else s
  }

  function Unquote(value: string): string { TrimQuotesRight(TrimQuotesLeft(TrimSpace(value))) }

  /** What a line means to both scans. */
  datatype Kind = Header | Foreign | Item(channel: Option<string>) | Entry

  function Classify(line: string): Kind {
    if line == "crs:" then Header
    else if line != "" && line[0] != ' ' then Foreign
    else
      var trimmed := TrimSpace(line);
      if "- " <= trimmed then
        match Cut(TrimPrefix(trimmed, "- "), ':')
        case None => Item(None)
        case Some((key, value)) => Item(if key == "channel" then Some(Unquote(value)) else None)
      else Entry
  }

  /** Key and value of an entry line. */
  function KeyValue(line: string): Option<(string, string)> {
    match Cut(TrimSpace(line), ':')
    case None => None
    case Some((key, value)) => Some((key, Unquote(value)))
  }

  function NewLine(key: string, value: string): string { "    " + key + ": " + value }

  /** Values the file format can hold: no blanks or quotes at either end. */
  predicate Clean(value: string) {
    value == "" || (!IsSpace(value[0]) && !Quote(value[0]) && !IsSpace(value[|value| - 1]) && !Quote(value[|value| - 1]))
  }

  predicate PlainKey(key: string) {
    key != "" && !IsSpace(key[0]) && key[0] != '-' && ':' !in key
  }

  lemma TrimNewLine(key: string, value: string)
    requires PlainKey(key) && Clean(value)
    ensures TrimSpace(NewLine(key, value)) == if value == "" then key + ":" else key + ": " + value
  {
    var body := key + ": " + value;
    TrimLeftBlanks("    ", body);
    assert NewLine(key, value) == "    " + body;
    if value == "" {
      TrimRightBlank(key + ":");
      assert body == key + ":" + " ";
    } else {
      assert body[|body| - 1] == value[|value| - 1];
      TrimRightBlank(body);
    }
  }

  lemma UnquoteClean(value: string)
    requires Clean(value)
    ensures Unquote(value) == value
  {
  }

  lemma {:induction false} LeftQuote(quote: char, s: string)
    requires Quote(quote) && s != "" && !Quote(s[0])
    ensures TrimQuotesLeft([quote] + s) == s
  {
    assert ([quote] + s)[1..] == s && TrimQuotesLeft(s) == s;
  }

  lemma {:induction false} RightQuote(quote: char, s: string)
    requires Quote(quote) && s != "" && !Quote(s[|s| - 1])
    ensures TrimQuotesRight(s + [quote]) == s
  {
    assert (s + [quote])[..|s|] == s && TrimQuotesRight(s) == s;
  }

  /** Quotes of either kind around a value are dropped. */
  lemma {:induction false} UnquoteQuoted(value: string, quote: char)
    requires Clean(value) && value != "" && (quote == '\'' || quote == '"')
    ensures Unquote([quote] + (value + [quote])) == value
  {
    var quoted := [quote] + (value + [quote]);
    assert Trimmed(quoted);
    LeftQuote(quote, value + [quote]);
    RightQuote(quote, value);
  }

  lemma UnquoteBlank(value: string)
    requires Clean(value) && value != ""
    ensures Unquote(" " + value) == value
  {
    TrimLeftBlanks(" ", value);
    TrimRightBlank(value);
  }

  lemma EntryLine(line: string, first: char)
    requires line != "" && line[0] == ' ' && TrimSpace(line) != "" && TrimSpace(line)[0] == first && first != '-'
    ensures Classify(line) == Entry
  {
  }

  lemma CutNewLine(key: string, value: string)
    requires PlainKey(key)
    ensures Cut(key + ":", ':') == Some((key, "")) && Cut(key + ": " + value, ':') == Some((key, " " + value))
  {
    CutAt(key, ':', "");
    CutAt(key, ':', " " + value);
    assert key + ":" == key + [':'] + "";
    assert key + ": " + value == key + [':'] + (" " + value);
  }

  /** A rewritten line is an entry that reads back as its key and value. */
  lemma NewLineReads(key: string, value: string)
    requires PlainKey(key) && Clean(value)
    ensures Classify(NewLine(key, value)) == Entry
    ensures KeyValue(NewLine(key, value)) == Some((key, value))
  {
    TrimNewLine(key, value);
    CutNewLine(key, value);
    EntryLine(NewLine(key, value), key[0]);
    if value == "" { UnquoteClean(value); } else { UnquoteBlank(value); }
  }

  // ---------------------------------------------------------------- keys

  datatype Key = Line | Repository | Version | Commit | TagObject | TagVerified | Archive | Sha256

  function Name(key: Key): string {
    match key
    case Line => "line"
    case Repository => "repository"
    case Version => "version"
    case Commit => "commit"
    case TagObject => "tag_object_sha"
    case TagVerified => "tag_signature_verified"
    case Archive => "archive"
    case Sha256 => "sha256"
  }

  function KeyOf(name: string): Option<Key> {
    if name == "line" then Some(Line)
    else if name == "repository" then Some(Repository)
    else if name == "version" then Some(Version)
    else if name == "commit" then Some(Commit)
    else if name == "tag_object_sha" then Some(TagObject)
    else if name == "tag_signature_verified" then Some(TagVerified)
    else if name == "archive" then Some(Archive)
    else if name == "sha256" then Some(Sha256)
    else None
  }

  lemma KeyNames(key: Key)
    ensures KeyOf(Name(key)) == Some(key) && PlainKey(Name(key))
  {
    var name := Name(key);
    match key
    case Line => assert |name| == 4;
    case Repository => assert |name| == 10;
    case Version => assert |name| == 7 && name[0] == 'v';
    case Commit => assert |name| == 6;
    case TagObject => assert |name| == 14;
    case TagVerified => assert |name| == 22;
    case Archive => assert |name| == 7 && name[0] == 'a';
    case Sha256 => assert |name| == 6 && name[0] == 's';
  }

  /** Text a rewrite puts under a key; the line is never rewritten. */
  function Value(lock: Lock, key: Key): string {
    match key
    case Line => lock.line
    case Repository => GitHub + lock.repository
    case Version => lock.version
    case Commit => lock.commit
    case TagObject => lock.tagObject
    case TagVerified => if lock.tagVerified then "true" else "false"
    case Archive => lock.archive
    case Sha256 => lock.sha256
  }

  /** The lines that a rewrite writes. */
  lemma {:induction false} RenderedText(lock: Lock)
    ensures Rendered(lock, Repository) == "    " + "repository" + ": " + ("https://github.com/" + lock.repository)
    ensures Rendered(lock, Version) == "    " + "version" + ": " + lock.version
    ensures Rendered(lock, Commit) == "    " + "commit" + ": " + lock.commit
    ensures Rendered(lock, TagObject) == "    " + "tag_object_sha" + ": " + lock.tagObject
    ensures Rendered(lock, TagVerified) == "    " + "tag_signature_verified" + ": " + if lock.tagVerified then "true" else "false"
    ensures Rendered(lock, Archive) == "    " + "archive" + ": " + lock.archive
    ensures Rendered(lock, Sha256) == "    " + "sha256" + ": " + lock.sha256
  {
  }

  function EntryOf(line: string): Option<(Key, string)> {
    match KeyValue(line)
    case None => None
    case Some((name, value)) => match KeyOf(name) case None => None case Some(key) => Some((key, value))
  }

  function Rendered(lock: Lock, key: Key): string { NewLine(Name(key), Value(lock, key)) }

  predicate CleanLock(lock: Lock) { forall key: Key :: key.Line? || Clean(Value(lock, key)) }

  lemma RenderedReads(lock: Lock, key: Key)
    requires CleanLock(lock) && !key.Line?
    ensures Classify(Rendered(lock, key)) == Entry && EntryOf(Rendered(lock, key)) == Some((key, Value(lock, key)))
  {
    KeyNames(key);
    assert Clean(Value(lock, key));
    NewLineReads(Name(key), Value(lock, key));
  }

  /** Stores one value in a lock. */
  function Assign(lock: Lock, key: Key, value: string): Lock {
    match key
    case Line => lock.(line := value)
    case Repository => lock.(repository := TrimPrefix(value, GitHub))
    case Version => lock.(version := value)
    case Commit => lock.(commit := value)
    case TagObject => lock.(tagObject := value)
    case TagVerified => lock.(tagVerified := value == "true")
    case Archive => lock.(archive := value)
    case Sha256 => lock.(sha256 := value)
  }

  /** What a lock holds under a key. */
  datatype Stored = Text(text: string) | Flag(flag: bool)

  function Content(lock: Lock, key: Key): Stored {
    match key
    case Line => Text(lock.line)
    case Repository => Text(lock.repository)
    case Version => Text(lock.version)
    case Commit => Text(lock.commit)
    case TagObject => Text(lock.tagObject)
    case TagVerified => Flag(lock.tagVerified)
    case Archive => Text(lock.archive)
    case Sha256 => Text(lock.sha256)
  }

  /** Storing the text of a value stores the value, and touches nothing else. */
  lemma AssignValue(into: Lock, lock: Lock, key: Key, other: Key)
    ensures Content(Assign(into, key, Value(lock, key)), other) == Content(if other == key then lock else into, other)
    ensures Assign(into, key, Value(lock, key)).channel == into.channel
  {
    assert (GitHub + lock.repository)[|GitHub|..] == lock.repository;
    assert "true"[0] != "false"[0];
  }
}
