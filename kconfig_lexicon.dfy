/**
 * The vocabulary of the Mini-Kconfig validator (scripts/minikconf.py):
 * character classes, the token table, the text helpers the scanner and the
 * error reporter use, the column computation with 8-column tab stops, and
 * the errors a parse can end with.
 */
module KconfigLexicon {
  import opened Wrappers

  // ---------------------------------------------------------------------
  // Character classes: the str methods of Python 2 in the C locale, where
  // a source file is read as bytes and only ASCII letters and digits count.
  // ---------------------------------------------------------------------

  predicate IsAlpha(c: char) { 'a' <= c <= 'z' || 'A' <= c <= 'Z' }

  predicate IsDigit(c: char) { '0' <= c <= '9' }

  predicate IsAlnum(c: char) { IsAlpha(c) || IsDigit(c) }

  predicate IsSpace(c: char) {
    c == ' ' || c == '\t' || c == '\n' || c == '\r' || c == '\U{000B}' || c == '\U{000C}'
  }

  /** A character that may continue an identifier. */
  predicate IsIdentChar(c: char) { IsAlnum(c) || c == '_' }

  /** A buffer as parse_file leaves it: non-empty and ending in a newline. */
  predicate Terminated(s: string) { |s| > 0 && s[|s| - 1] == '\n' }

  /** The text parse_file scans: an empty file, or one whose last character
      is not a newline, gets one newline appended. */
  function Normalize(s: string): (r: string)
    ensures Terminated(r)
    ensures Terminated(s) ==> r == s
    ensures !Terminated(s) ==> r == s + "\n"
  {
    if s == "" || s[|s| - 1] != '\n' then s + "\n" else s
  }

  /** str.find('\n', from) on a terminated buffer: the first newline at or
      after `from`; there always is one. */
  function FindNewline(s: string, from: nat): (k: nat)
    requires Terminated(s) && from < |s|
    ensures from <= k < |s| && s[k] == '\n'
    ensures forall j :: from <= j < k ==> s[j] != '\n'
    decreases |s| - from
  {
    if s[from] == '\n' then from else FindNewline(s, from + 1)
  }

  /** check_keyword's test: `rest` stands at index k and is followed by a
      character that is neither alphanumeric nor '|' (an underscore does
      not stop a keyword). */
  predicate KeywordAt(s: string, k: int, rest: string) {
    0 <= k && k + |rest| < |s| && s[k..k + |rest|] == rest
    && !IsAlnum(s[k + |rest|]) && s[k + |rest|] != '|'
  }

  // ---------------------------------------------------------------------
  // Tokens, numbered as in the TOKENS table
  // ---------------------------------------------------------------------

  type Tok = t: int | -1 <= t <= 17

  const TOK_NONE: Tok := -1
  const TOK_LPAREN: Tok := 0
  const TOK_RPAREN: Tok := 1
  const TOK_EQUAL: Tok := 2
  const TOK_AND: Tok := 3
  const TOK_OR: Tok := 4
  const TOK_NOT: Tok := 5
  const TOK_DEPENDS: Tok := 6
  const TOK_ON: Tok := 7
  const TOK_SELECT: Tok := 8
  const TOK_CONFIG: Tok := 9
  const TOK_DEFAULT: Tok := 10
  const TOK_Y: Tok := 11
  const TOK_N: Tok := 12
  const TOK_SOURCE: Tok := 13
  const TOK_BOOL: Tok := 14
  const TOK_IF: Tok := 15
  const TOK_ID: Tok := 16
  const TOK_EOF: Tok := 17

  /** A token the parser has consumed, with the value get_token stored for
      it (the identifier's text, or the file name of a source directive). */
  datatype Lexeme = Lexeme(tok: Tok, val: Option<string>)

  /** The human-readable name of each token kind, used after "before". */
  const TOKENS: seq<string> := [
    "\"(\"", "\")\"", "\"=\"", "\"&&\"", "\"||\"", "\"!\"", "\"depends\"",
    "\"on\"", "\"select\"", "\"config\"", "\"default\"", "\"y\"", "\"n\"",
    "\"source\"", "\"bool\"", "\"if\"", "identifier", "end of file"]

  function TokenName(t: Tok): string
    requires t != TOK_NONE
  {
    TOKENS[t]
  }

  /** The kinds whose text is always the same: punctuation and keywords. */
  predicate HasFixedText(t: Tok) { 0 <= t <= 15 && t != TOK_SOURCE }

  /** The kinds recognised through check_keyword. */
  predicate IsKeyword(t: Tok) { 6 <= t <= 15 && t != TOK_SOURCE }

  const FIXED_TEXT: seq<string> := [
    "(", ")", "=", "&&", "||", "!", "depends", "on", "select", "config",
    "default", "y", "n", "", "bool", "if"]

  function FixedText(t: Tok): string
    requires HasFixedText(t)
  {
    FIXED_TEXT[t]
  }

  /** The keyword scan_token recognises at index k, tried in the order of
      its elif chain; None when the text at k is not a keyword. */
  function KeywordMatch(s: string, k: nat): Option<Tok>
    requires k < |s|
  {
    var c := s[k];
    if c == 'd' && KeywordAt(s, k + 1, "epends") then Some(TOK_DEPENDS)
    else if c == 'o' && KeywordAt(s, k + 1, "n") then Some(TOK_ON)
    else if c == 's' && KeywordAt(s, k + 1, "elect") then Some(TOK_SELECT)
    else if c == 'c' && KeywordAt(s, k + 1, "onfig") then Some(TOK_CONFIG)
    else if c == 'd' && KeywordAt(s, k + 1, "efault") then Some(TOK_DEFAULT)
    else if c == 'b' && KeywordAt(s, k + 1, "ool") then Some(TOK_BOOL)
    else if c == 'i' && KeywordAt(s, k + 1, "f") then Some(TOK_IF)
    else if c == 'y' && KeywordAt(s, k + 1, "") then Some(TOK_Y)
    else if c == 'n' && KeywordAt(s, k + 1, "") then Some(TOK_N)
    else if (c == 's' && KeywordAt(s, k + 1, "ource")) || (c == 'i' && KeywordAt(s, k + 1, "nclude"))
    then Some(TOK_SOURCE)
    else None
  }

  /** A recognised keyword other than source/include is its own text at k,
      and the character after it is neither alphanumeric nor '|'. */
  lemma KeywordMatchText(s: string, k: nat)
    requires k < |s| && KeywordMatch(s, k).Some? && KeywordMatch(s, k) != Some(TOK_SOURCE)
    ensures IsKeyword(KeywordMatch(s, k).value)
    ensures var w := FixedText(KeywordMatch(s, k).value);
            k + |w| < |s| && s[k..k + |w|] == w && !IsAlnum(s[k + |w|]) && s[k + |w|] != '|'
  {
    var t := KeywordMatch(s, k).value;
    var w := FixedText(t);
    assert w == [s[k]] + w[1..];
    KeywordSlice(s, k, w[1..]);
  }

  /** A keyword tail matched right after index k makes the text from k the
      keyword's first character followed by the tail. */
  lemma KeywordSlice(s: string, k: nat, rest: string)
    requires KeywordAt(s, k + 1, rest)
    ensures s[k..k + 1 + |rest|] == [s[k]] + rest
  {
    assert s[k..k + 1 + |rest|] == [s[k]] + s[k + 1..k + 1 + |rest|];
  }

  // ---------------------------------------------------------------------
  // Decimal rendering ("%d") and columns with 8-column tab stops
  // ---------------------------------------------------------------------

  function NatToString(n: nat): (s: string)
    ensures |s| > 0 && forall i :: 0 <= i < |s| ==> IsDigit(s[i])
  {
    if n < 10 then ["0123456789"[n]] else NatToString(n / 10) + ["0123456789"[n % 10]]
  }

  /** The column after one character at column `col`: a tab moves to the
      next tab stop, anything else moves one column. */
  function NextColumn(col: int, ch: char): int {
    if ch == '\t' then col + 8 - (col - 1) % 8 else col + 1
  }

  function ColumnAfter(col: int, s: string): int
    decreases |s|
  {
    if s == "" then col else ColumnAfter(NextColumn(col, s[0]), s[1..])
  }

  /** The 1-based column reached after the text `s` that precedes the
      cursor on its line. */
  function Column(s: string): (c: int)
    ensures |s| + 1 <= c <= 8 * |s| + 1
  {
    ColumnBounds(1, s);
    ColumnAfter(1, s)
  }

  /** Every character moves at least one and at most eight columns. */
  lemma {:induction false} ColumnBounds(col: int, s: string)
    requires col >= 1
    ensures col + |s| <= ColumnAfter(col, s) <= col + 8 * |s|
    decreases |s|
  {
    if s != "" {
      ColumnBounds(NextColumn(col, s[0]), s[1..]);
    }
  }

  /** Appending one character applies NextColumn to the column reached. */
  lemma {:induction false} ColumnAfterSnoc(col: int, s: string, ch: char)
    ensures ColumnAfter(col, s + [ch]) == NextColumn(ColumnAfter(col, s), ch)
    decreases |s|
  {
    if s == "" {
      assert ([] + [ch])[1..] == [];
    } else {
      assert (s + [ch])[0] == s[0];
      assert (s + [ch])[1..] == s[1..] + [ch];
      ColumnAfterSnoc(NextColumn(col, s[0]), s[1..], ch);
    }
  }

  /** After a tab the column is a tab stop: one more than a multiple of 8. */
  lemma TabLandsOnStop(s: string)
    ensures (Column(s + ['\t']) - 1) % 8 == 0
  {
    ColumnAfterSnoc(1, s, '\t');
  }

  /** On a line without tabs the column is the character count plus one. */
  lemma {:induction false} ColumnWithoutTabs(col: int, s: string)
    requires forall i :: 0 <= i < |s| ==> s[i] != '\t'
    ensures ColumnAfter(col, s) == col + |s|
    decreases |s|
  {
    if s != "" {
      ColumnWithoutTabs(col + 1, s[1..]);
    }
  }

  // ---------------------------------------------------------------------
  // Assignment targets
  // ---------------------------------------------------------------------

  /** The symbol an assignment target names: the identifier with its
      "CONFIG_" prefix removed, or None when it has no such prefix. */
  function AssignmentName(id: string): (r: Option<string>)
    ensures r.Some? <==> |id| >= 7 && id[..7] == "CONFIG_"
    ensures r.Some? ==> "CONFIG_" + r.value == id
  {
    if |id| >= 7 && id[..7] == "CONFIG_" then Some(id[7..]) else None
  }

  /** Prefixing a name with "CONFIG_" gives a target that names it. */
  lemma AssignmentNameOfPrefixed(name: string)
    ensures AssignmentName("CONFIG_" + name) == Some(name)
  {
    assert ("CONFIG_" + name)[..7] == "CONFIG_";
    assert ("CONFIG_" + name)[7..] == name;
  }

  // ---------------------------------------------------------------------
  // How a parse ends
  // ---------------------------------------------------------------------

  datatype Failure =
    | ParserError(loc: string, msg: string)   // KconfigParserError
    | DefinedTwice(name: string)              // the plain Exception of do_declaration
    | IndexError                              // indexing the buffer past its end
    | RecursionLimit                          // the interpreter's recursion limit
  {
    /** The text str() gives the exception. */
    function Text(): string {
      match this
      case ParserError(loc, msg) => loc + ": " + msg
      case DefinedTwice(name) => "variable \"" + name + "\" defined twice"
      case IndexError => "string index out of range"
      case RecursionLimit => "maximum recursion depth exceeded"
    }
  }

  datatype Result<+T> = Ok(value: T) | Err(failure: Failure) {
    predicate IsFailure() { Err? }

    function PropagateFailure<U>(): Result<U>
      requires Err?
    {
      Err(failure)
    }

    function Extract(): T
      requires Ok?
    {
      value
    }
  }

  /** The strerror text of the IOError raised when a file is missing. */
  const NO_SUCH_FILE := "No such file or directory"

  /** KconfigParserError(parser, msg, tok): the location and the message,
      followed by "before" and the name of the token `tok or parser.tok`
      unless that is TOK_NONE. TOK_LPAREN is 0, so an explicit TOK_LPAREN
      counts as no token given. */
  function ErrorBefore(loc: string, msg: string, given: Option<Tok>, current: Tok): (f: Failure)
    ensures f.ParserError? && f.loc == loc
    ensures given == Some(TOK_NONE) ==> f.msg == msg
    ensures (given.None? || given == Some(TOK_LPAREN)) && current == TOK_NONE ==> f.msg == msg
    ensures (given.None? || given == Some(TOK_LPAREN)) && current != TOK_NONE ==>
              f.msg == msg + " before " + TokenName(current)
    ensures given.Some? && given.value != TOK_NONE && given.value != TOK_LPAREN ==>
              f.msg == msg + " before " + TokenName(given.value)
  {
    var t := if given.None? || given.value == TOK_LPAREN then current else given.value;
    ParserError(loc, if t == TOK_NONE then msg else msg + " before " + TokenName(t))
  }

  /** An explicit TOK_LPAREN is indistinguishable from no token at all. */
  lemma LparenCountsAsNoToken(loc: string, msg: string, current: Tok)
    ensures ErrorBefore(loc, msg, Some(TOK_LPAREN), current) == ErrorBefore(loc, msg, None, current)
  {
  }

  function StrayMessage(c: char): string {
    "Stray \"" + [c] + "\""
  }

  /** The error for a stray character, raised with TOK_NONE so that no
      token name is looked up. */
  function StrayError(loc: string, c: char): (f: Failure)
    ensures f.ParserError? && f.loc == loc
    ensures f.msg == "Stray \"" + [c] + "\""
  {
    ErrorBefore(loc, StrayMessage(c), Some(TOK_NONE), TOK_NONE)
  }

  // ---------------------------------------------------------------------
  // The error constructor as written, where parser.tok may still hold the
  // character get_token stored there before calling scan_token
  // ---------------------------------------------------------------------

  datatype TokSlot = Kind(kind: Tok) | Char(c: char)

  datatype Raised = Raised(failure: Failure) | KeyErrorRaised(key: TokSlot)

  function ErrorAsWritten(loc: string, msg: string, given: Option<Tok>, current: TokSlot): (r: Raised)
    ensures current.Char? && (given.None? || given == Some(TOK_LPAREN)) ==> r == KeyErrorRaised(current)
    ensures current.Kind? ==> r == Raised(ErrorBefore(loc, msg, given, current.kind))
  {
    var eff := if given.None? || given.value == TOK_LPAREN then current else Kind(given.value);
    match eff
    case Char(_) => KeyErrorRaised(eff)
    case Kind(t) => Raised(ParserError(loc, if t == TOK_NONE then msg else msg + " before " + TokenName(t)))
  }

  /** scan_token raises KconfigParserError(self, 'Stray "c"') while
      self.tok still holds the character: the constructor then looks the
      character up in TOKENS and raises KeyError instead. */
  lemma StrayCharacterRaisesKeyError(loc: string)
    ensures ErrorAsWritten(loc, StrayMessage('$'), None, Char('$')) == KeyErrorRaised(Char('$'))
    ensures ErrorAsWritten(loc, StrayMessage('$'), None, Char('$')) != Raised(StrayError(loc, '$'))
  {
  }
}
