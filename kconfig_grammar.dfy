/**
 * The scanner and the recursive-descent parser of scripts/minikconf.py as
 * functions over the parser's registers and the shared symbol table.  The
 * imperative KconfigParser is proved to end exactly as these functions say;
 * their own contracts state what a parse adds to the table, in terms of the
 * tokens it consumes: every identifier of an expression is referenced, the
 * identifier after `config` is declared, an assignment target is referenced
 * without its CONFIG_ prefix.
 */
module KconfigGrammar {
  import opened Wrappers
  import opened KconfigLexicon
  import opened KconfigSemantics

  // ---------------------------------------------------------------------
  // The environment of a parse
  // ---------------------------------------------------------------------

  /** What the parser uses of the operating system: the files open() can
      read (path to contents) and the three os.path functions, left
      abstract. */
  datatype PathEnv = PathEnv(
    files: map<string, string>,
    abspath: string -> string,
    dirname: string -> string,
    join: (string, string) -> string)

  /** The file a `source` directive names: the directive's text joined to
      the directory of the including file. */
  function IncludeTarget(env: PathEnv, includer: string, directive: string): string {
    env.join(env.dirname(includer), directive)
  }

  /** do_include's cycle test: some frame of the chain names a file whose
      absolute path is the target. */
  predicate InclusionLoop(env: PathEnv, chain: InclInfo, target: string) {
    match chain
    case NoInclude => false
    case Included(f, _, p) => target == env.abspath(f) || InclusionLoop(env, p, target)
  }

  /** The chain is `base` with zero or more frames pushed on top of it. */
  predicate Atop(chain: InclInfo, base: InclInfo) {
    chain == base || (chain.Included? && Atop(chain.parent, base))
  }

  lemma {:induction false} AtopParent(chain: InclInfo, f: string, l: nat, base: InclInfo)
    requires Atop(chain, Included(f, l, base))
    ensures Atop(chain, base)
  {
    if chain != Included(f, l, base) {
      AtopParent(chain.parent, f, l, base);
    }
  }

  /** The failures a scan or a grammar rule can end in. */
  predicate SyntaxFailure(f: Failure) {
    f.ParserError? || f.IndexError?
  }

  /** The tokens that may start a clause, and end the input. */
  predicate ClauseFollow(t: Tok) {
    t == TOK_SOURCE || t == TOK_CONFIG || t == TOK_ID || t == TOK_EOF
  }

  /** The tokens that start a clause. */
  predicate ClauseStart(t: Tok) {
    t == TOK_SOURCE || t == TOK_CONFIG || t == TOK_ID
  }

  /** The tokens that start a property. */
  predicate StartsProperty(t: Tok) {
    t == TOK_DEFAULT || t == TOK_DEPENDS || t == TOK_SELECT || t == TOK_BOOL
  }

  // ---------------------------------------------------------------------
  // Scanner
  // ---------------------------------------------------------------------

  /** The registers of a parser: the buffer, the cursor, the start of the
      current token, the line number and the start of the line, and the
      current token with its value. */
  datatype Scanner = Scanner(src: string, cursor: nat, pos: nat, line: nat, linePos: nat, tok: Tok, val: Option<string>)

  /** get_token may read the character at the cursor. */
  predicate Scannable(sc: Scanner) {
    Terminated(sc.src) && sc.linePos <= sc.cursor < |sc.src|
  }

  /** Token t with value v was read from src[k..c]. */
  predicate ReadAt(src: string, k: nat, t: Tok, c: nat, v: Option<string>) {
    && Terminated(src) && k < c <= |src|
    && t != TOK_NONE
    && (t == TOK_EOF <==> c == |src|)
    && (t == TOK_EOF ==> k == |src| - 1)
    && (HasFixedText(t) ==> src[k..c] == FixedText(t))
    && (IsKeyword(t) ==> c < |src| && !IsAlnum(src[c]) && src[c] != '|')
    && (t == TOK_ID ==>
          && c < |src| && v == Some(src[k..c]) && IsAlpha(src[k])
          && (forall j :: k < j < c ==> IsIdentChar(src[j]))
          && !IsIdentChar(src[c]))
    && (t == TOK_SOURCE ==>
          && c < |src| && src[c] == '\n' && v.Some?
          && ((src[k] == 's' && KeywordAt(src, k + 1, "ource"))
              || (src[k] == 'i' && KeywordAt(src, k + 1, "nclude")))
          && k < c - |v.value| && v.value == src[c - |v.value|..c]
          && (forall j :: 0 <= j < |v.value| ==> v.value[j] != '\n'))
    && (t != TOK_ID && t != TOK_SOURCE ==> v == None)
  }

  /** The registers between two tokens: the current token was read from the
      text just before the cursor, on the current line. */
  predicate Ready(sc: Scanner) {
    sc.linePos <= sc.pos && ReadAt(sc.src, sc.pos, sc.tok, sc.cursor, sc.val)
  }

  /** What scan_token makes of one character: nothing (whitespace, a
      comment, a newline, with the registers it moves), a token, a stray
      character, or an index past the end of the buffer. */
  datatype Scanned =
    | Skip(cursor: nat, line: nat, linePos: nat)
    | Read(tok: Tok, next: nat, val: Option<string>)
    | Stray
    | Overrun

  /** The first index at or after c whose character does not continue an
      identifier. */
  function IdentEnd(src: string, c: nat): (e: nat)
    requires Terminated(src) && c < |src|
    ensures c <= e < |src| && !IsIdentChar(src[e])
    ensures forall j :: c <= j < e ==> IsIdentChar(src[j])
    decreases |src| - c
  {
    if !IsIdentChar(src[c]) then c else IdentEnd(src, c + 1)
  }

  /** The first index at or after c whose character is not whitespace, or
      the end of the buffer. */
  function SkipSpaces(src: string, c: nat): (e: nat)
    requires c <= |src|
    ensures c <= e <= |src| && (e < |src| ==> !IsSpace(src[e]))
    ensures forall j :: c <= j < e ==> IsSpace(src[j])
    decreases |src| - c
  {
    if c < |src| && IsSpace(src[c]) then SkipSpaces(src, c + 1) else c
  }

  /** source FILENAME / include FILENAME, the keyword ending at c: the file
      name is the rest of the line after the whitespace (newlines included)
      that follows; whitespace up to the end of the buffer overruns it. */
  function FileNameAt(src: string, k: nat, c: nat): (r: Scanned)
    requires Terminated(src) && k < c < |src|
    requires || (src[k] == 's' && KeywordAt(src, k + 1, "ource") && c == k + 6)
             || (src[k] == 'i' && KeywordAt(src, k + 1, "nclude") && c == k + 7)
    ensures r.Read? || r.Overrun?
    ensures r.Overrun? <==> forall j :: c <= j < |src| ==> IsSpace(src[j])
    ensures r.Read? ==> && r.tok == TOK_SOURCE && ReadAt(src, k, TOK_SOURCE, r.next, r.val)
                        && (forall j :: c <= j < r.next - |r.val.value| ==> IsSpace(src[j]))
                        && |r.val.value| > 0 && !IsSpace(r.val.value[0])
  {
    var s := SkipSpaces(src, c);
    if s == |src| then Overrun
    else
      var e := FindNewline(src, s);
      assert forall j :: 0 <= j < e - s ==> src[s..e][j] == src[s + j];
      Read(TOK_SOURCE, e, Some(src[s..e]))
  }

  /** The branches of scan_token for a letter at k: a keyword, then
      source/include with its file name, then an identifier. */
  function WordAt(src: string, k: nat): (r: Scanned)
    requires Terminated(src) && k < |src| && IsAlpha(src[k])
    ensures r.Read? || r.Overrun?
    ensures r.Read? ==> ReadAt(src, k, r.tok, r.next, r.val)
    ensures KeywordMatch(src, k).Some? && KeywordMatch(src, k) != Some(TOK_SOURCE) ==>
              r == Read(KeywordMatch(src, k).value, k + |FixedText(KeywordMatch(src, k).value)|, None)
    ensures KeywordMatch(src, k).None? ==> r.Read? && r.tok == TOK_ID
    ensures r.Overrun? ==> KeywordMatch(src, k) == Some(TOK_SOURCE)
  {
    var kw := KeywordMatch(src, k);
    if kw == Some(TOK_SOURCE) then
      FileNameAt(src, k, if src[k] == 's' && KeywordAt(src, k + 1, "ource") then k + 6 else k + 7)
    else if kw.Some? then
      KeywordMatchText(src, k);
      Read(kw.value, k + |FixedText(kw.value)|, None)
    else
      var e := IdentEnd(src, k + 1);
      Read(TOK_ID, e, Some(src[k..e]))
  }

  /** scan_token for the character at k, in the order of its elif chain. */
  function ScanAt(src: string, k: nat, line: nat, linePos: nat): (r: Scanned)
    requires Terminated(src) && linePos <= k < |src|
    ensures r.Skip? ==> k < r.cursor < |src| && r.linePos <= r.cursor
    ensures r.Read? ==> ReadAt(src, k, r.tok, r.next, r.val)
  {
    var ch := src[k];
    if ch == '#' then Skip(FindNewline(src, k + 1), line, linePos)
    else if ch == '=' then Read(TOK_EQUAL, k + 1, None)
    else if ch == '(' then Read(TOK_LPAREN, k + 1, None)
    else if ch == ')' then Read(TOK_RPAREN, k + 1, None)
    else if ch == '&' && src[k + 1] == '&' then Read(TOK_AND, k + 2, None)
    else if ch == '|' && src[k + 1] == '|' then Read(TOK_OR, k + 2, None)
    else if ch == '!' then Read(TOK_NOT, k + 1, None)
    else if IsAlpha(ch) then WordAt(src, k)
    else if ch == '\n' then
      if k + 1 == |src| then Read(TOK_EOF, k + 1, None) else Skip(k + 1, line + 1, k + 1)
    else if IsSpace(ch) then Skip(k + 1, line, linePos)
    else Stray
  }

  /** The location text of index pos: the prefix (include chain and file
      name), the line, and the column with 8-column tab stops. */
  function Loc(where: string, src: string, line: nat, linePos: nat, pos: nat): string
    requires linePos <= pos <= |src|
  {
    where + ":" + NatToString(line) + ":" + NatToString(Column(src[linePos..pos]))
  }

  /** get_token: scans characters from the cursor until one yields a token;
      a stray character is reported at its own position. */
  function Lex(where: string, src: string, cursor: nat, line: nat, linePos: nat): (r: Result<Scanner>)
    requires Terminated(src) && linePos <= cursor < |src|
    ensures r.Ok? ==> Ready(r.value) && r.value.src == src && cursor <= r.value.pos
    ensures r.Err? ==> SyntaxFailure(r.failure)
    decreases |src| - cursor
  {
    match ScanAt(src, cursor, line, linePos)
    case Skip(c, l, lp) => Lex(where, src, c, l, lp)
    case Read(t, c, v) => Ok(Scanner(src, c, cursor, line, linePos, t, v))
    case Stray => Err(StrayError(Loc(where, src, line, linePos, cursor), src[cursor]))
    case Overrun => Err(IndexError)
  }

  /** src[a..b] is what get_token passes over: whitespace (newlines that
      are not the last character included) and comments up to their
      newline. */
  predicate Skipped(src: string, a: nat, b: nat)
    requires Terminated(src) && a <= b < |src|
    decreases b - a
  {
    a == b ||
    if src[a] == '#' then
      var e := FindNewline(src, a + 1);
      e <= b && Skipped(src, e, b)
    else IsSpace(src[a]) && Skipped(src, a + 1, b)
  }

  function Newlines(s: string): nat {
    if s == [] then 0 else (if s[0] == '\n' then 1 else 0) + Newlines(s[1..])
  }

  lemma {:induction false} NewlinesConcat(a: string, b: string)
    ensures Newlines(a + b) == Newlines(a) + Newlines(b)
    decreases |a|
  {
    if a != [] {
      assert (a + b)[1..] == a[1..] + b;
      NewlinesConcat(a[1..], b);
    } else {
      assert a + b == b;
    }
  }

  lemma {:induction false} NoNewlines(s: string)
    requires forall j :: 0 <= j < |s| ==> s[j] != '\n'
    ensures Newlines(s) == 0
    decreases |s|
  {
    if s != [] {
      NoNewlines(s[1..]);
    }
  }

  /** The three ways scan_token skips a character. */
  lemma SkipCases(src: string, cursor: nat, line: nat, linePos: nat)
    requires Terminated(src) && linePos <= cursor < |src| && ScanAt(src, cursor, line, linePos).Skip?
    ensures var s := ScanAt(src, cursor, line, linePos);
            || (src[cursor] == '#' && s == Skip(FindNewline(src, cursor + 1), line, linePos))
            || (src[cursor] == '\n' && s == Skip(cursor + 1, line + 1, cursor + 1))
            || (src[cursor] != '#' && src[cursor] != '\n' && IsSpace(src[cursor]) && s == Skip(cursor + 1, line, linePos))
  {
  }

  /** What get_token passes over before the token it returns: whitespace
      and comments only; the line number grows by the newlines among them,
      and the line starts after the last of them. */
  predicate SkipsTo(src: string, cursor: nat, line: nat, linePos: nat, sc: Scanner)
    requires Terminated(src) && cursor <= sc.pos < |src|
  {
    && Skipped(src, cursor, sc.pos)
    && sc.line == line + Newlines(src[cursor..sc.pos])
    && (Newlines(src[cursor..sc.pos]) == 0 ==> sc.linePos == linePos)
    && (Newlines(src[cursor..sc.pos]) > 0 ==>
          && cursor < sc.linePos <= sc.pos && src[sc.linePos - 1] == '\n'
          && Newlines(src[sc.linePos..sc.pos]) == 0)
  }

  /** One skipped character in front of what the rest of the scan skips. */
  lemma SkipStep(src: string, cursor: nat, line: nat, linePos: nat, sc: Scanner)
    requires Terminated(src) && linePos <= cursor < |src| && ScanAt(src, cursor, line, linePos).Skip?
    requires var s := ScanAt(src, cursor, line, linePos);
             s.cursor <= sc.pos < |src| && SkipsTo(src, s.cursor, s.line, s.linePos, sc)
    ensures SkipsTo(src, cursor, line, linePos, sc)
  {
    var s := ScanAt(src, cursor, line, linePos);
    SkipCases(src, cursor, line, linePos);
    var c := s.cursor;
    assert src[cursor..sc.pos] == src[cursor..c] + src[c..sc.pos];
    NewlinesConcat(src[cursor..c], src[c..sc.pos]);
    if src[cursor] == '#' {
      NoNewlines(src[cursor..c]);
    } else {
      assert src[cursor..c] == [src[cursor]];
      if Newlines(src[c..sc.pos]) == 0 && src[cursor] == '\n' {
        assert src[c..sc.pos] == src[sc.linePos..sc.pos];
      }
    }
  }

  lemma {:induction false} LexSkips(where: string, src: string, cursor: nat, line: nat, linePos: nat)
    requires Terminated(src) && linePos <= cursor < |src|
    ensures var r := Lex(where, src, cursor, line, linePos);
            r.Ok? ==> r.value.pos < |src| && SkipsTo(src, cursor, line, linePos, r.value)
    decreases |src| - cursor
  {
    var r := Lex(where, src, cursor, line, linePos);
    var s := ScanAt(src, cursor, line, linePos);
    if r.Ok? && s.Skip? {
      assert r == Lex(where, src, s.cursor, s.line, s.linePos);
      LexSkips(where, src, s.cursor, s.line, s.linePos);
      SkipStep(src, cursor, line, linePos, r.value);
    } else if r.Ok? {
      assert r.value.pos == cursor;
      assert src[cursor..cursor] == [];
    }
  }

  // ---------------------------------------------------------------------
  // What a parse consumes and what it adds to the table
  // ---------------------------------------------------------------------

  /** The symbols a run of consumed tokens references: each identifier,
      except that an identifier followed by "=" is an assignment target and
      references its name without the CONFIG_ prefix. */
  function Refs(ls: seq<Lexeme>): set<string>
    decreases |ls|
  {
    if ls == [] then {} else RefAt(ls) + Refs(ls[1..])
  }

  function RefAt(ls: seq<Lexeme>): set<string>
    requires ls != []
  {
    if ls[0].tok != TOK_ID || ls[0].val.None? then {}
    else if |ls| > 1 && ls[1].tok == TOK_EQUAL then
      match AssignmentName(ls[0].val.value)
      case Some(n) => {n}
      case None => {}
    else {ls[0].val.value}
  }

  /** The symbols a run of consumed tokens declares: the token after each
      `config`. */
  function Declared(ls: seq<Lexeme>): set<string>
    decreases |ls|
  {
    if |ls| < 2 then {}
    else (if ls[0].tok == TOK_CONFIG && ls[1].val.Some? then {ls[1].val.value} else {}) + Declared(ls[1..])
  }

  lemma {:induction false} RefsConcat(a: seq<Lexeme>, b: seq<Lexeme>)
    requires b == [] || b[0].tok != TOK_EQUAL
    ensures Refs(a + b) == Refs(a) + Refs(b)
    decreases |a|
  {
    if a == [] {
      assert a + b == b;
    } else {
      assert (a + b)[1..] == a[1..] + b;
      assert (a + b)[0] == a[0];
      if |a| > 1 {
        assert (a + b)[1] == a[1];
      }
      assert RefAt(a + b) == RefAt(a);
      RefsConcat(a[1..], b);
    }
  }

  lemma {:induction false} DeclaredConcat(a: seq<Lexeme>, b: seq<Lexeme>)
    requires a == [] || a[|a| - 1].tok != TOK_CONFIG
    ensures Declared(a + b) == Declared(a) + Declared(b)
    decreases |a|
  {
    if a == [] {
      assert a + b == b;
    } else if |a| == 1 {
      if b != [] {
        assert (a + b)[1..] == b;
      }
    } else {
      assert (a + b)[1..] == a[1..] + b;
      assert (a + b)[0] == a[0] && (a + b)[1] == a[1];
      DeclaredConcat(a[1..], b);
    }
  }

  /** Lexemes of an expression or of properties: never "=" nor "config". */
  predicate Plain(ls: seq<Lexeme>) {
    forall i :: 0 <= i < |ls| ==> ls[i].tok != TOK_EQUAL && ls[i].tok != TOK_CONFIG
  }

  lemma {:induction false} PlainDeclaresNothing(ls: seq<Lexeme>)
    requires Plain(ls)
    ensures Declared(ls) == {}
    decreases |ls|
  {
    if |ls| >= 2 {
      PlainDeclaresNothing(ls[1..]);
    }
  }

  /** Lexemes of whole clauses: none, or starting a clause and not ending
      in `config`. */
  predicate Clauses(ls: seq<Lexeme>) {
    ls == [] || (ClauseStart(ls[0].tok) && ls[|ls| - 1].tok != TOK_CONFIG)
  }

  /** The lexemes consumed since table t, in table u of the same parse. */
  function Since(t: Table, u: Table): seq<Lexeme>
    requires |t.consumed| <= |u.consumed|
  {
    u.consumed[|t.consumed|..]
  }

  lemma SinceSplit(t: Table, u: Table, w: Table)
    requires t.consumed <= u.consumed && u.consumed <= w.consumed
    ensures t.consumed <= w.consumed
    ensures Since(t, w) == Since(t, u) + Since(u, w)
  {
  }

  lemma SinceAppend(t: Table, u: Table, w: Table, ls: seq<Lexeme>)
    requires u.consumed == t.consumed + ls && u.consumed <= w.consumed
    ensures t.consumed <= w.consumed
    ensures Since(t, w) == ls + Since(u, w)
  {
    assert Since(t, u) == ls;
    SinceSplit(t, u, w);
  }

  /** u is t after an expression, a condition or properties: the lexemes
      consumed are neither "=" nor "config", the table gains exactly the
      identifiers among them, and nothing else changes. */
  predicate Refers(t: Table, u: Table) {
    && t.consumed <= u.consumed
    && Plain(Since(t, u))
    && u == t.(consumed := u.consumed, referenced := t.referenced + Refs(Since(t, u)))
  }

  lemma RefersRefl(t: Table)
    ensures Refers(t, t)
  {
    assert Since(t, t) == [];
  }

  lemma RefersTrans(t: Table, u: Table, w: Table)
    requires Refers(t, u) && Refers(u, w)
    ensures Refers(t, w)
  {
    SinceSplit(t, u, w);
    RefsConcat(Since(t, u), Since(u, w));
  }

  /** u is t after whole clauses: the lexemes consumed form clauses, the
      table gains exactly the symbols they reference and the symbols they
      declare, none of which was declared before, the include chain is as
      it was and the included files only grow. */
  predicate Accounted(t: Table, u: Table) {
    && t.consumed <= u.consumed
    && Clauses(Since(t, u))
    && u.referenced == t.referenced + Refs(Since(t, u))
    && u.defined == t.defined + Declared(Since(t, u))
    && t.defined !! Declared(Since(t, u))
    && u.inclInfo == t.inclInfo
    && t.previouslyIncluded <= u.previouslyIncluded
  }

  lemma AccountedRefl(t: Table)
    ensures Accounted(t, t)
  {
    assert Since(t, t) == [];
  }

  lemma AccountedTrans(t: Table, u: Table, w: Table)
    requires Accounted(t, u) && Accounted(u, w)
    ensures Accounted(t, w)
  {
    SinceSplit(t, u, w);
    var a, b := Since(t, u), Since(u, w);
    RefsConcat(a, b);
    DeclaredConcat(a, b);
    assert a + b == Since(t, w);
  }

  /** The lexemes of a declaration: config, the identifier, properties. */
  lemma DeclarationLexemes(name: string, rest: seq<Lexeme>)
    requires Plain(rest)
    ensures var ls := [Lexeme(TOK_CONFIG, None), Lexeme(TOK_ID, Some(name))] + rest;
            && Refs(ls) == {name} + Refs(rest)
            && Declared(ls) == {name}
            && Clauses(ls)
  {
    var head := [Lexeme(TOK_CONFIG, None), Lexeme(TOK_ID, Some(name))];
    RefsConcat(head, rest);
    DeclaredConcat(head, rest);
    PlainDeclaresNothing(rest);
    assert head[1..] == [Lexeme(TOK_ID, Some(name))];
    assert Refs(head[1..]) == {name};
    assert Declared(head[1..]) == {};
  }

  /** The lexemes of an assignment: the target, "=", y or n. */
  lemma AssignmentLexemes(target: string, name: string, yn: Tok)
    requires AssignmentName(target) == Some(name) && (yn == TOK_Y || yn == TOK_N)
    ensures var ls := [Lexeme(TOK_ID, Some(target)), Lexeme(TOK_EQUAL, None), Lexeme(yn, None)];
            && Refs(ls) == {name}
            && Declared(ls) == {}
            && Clauses(ls)
  {
    var ls := [Lexeme(TOK_ID, Some(target)), Lexeme(TOK_EQUAL, None), Lexeme(yn, None)];
    assert ls[1..] == [Lexeme(TOK_EQUAL, None), Lexeme(yn, None)];
    assert ls[1..][1..] == [Lexeme(yn, None)];
    assert Refs(ls[1..][1..]) == {};
    assert Declared(ls[1..]) == {};
  }

  lemma AssignmentAccounted(t: Table, u: Table, target: string, name: string, yn: Tok)
    requires AssignmentName(target) == Some(name) && (yn == TOK_Y || yn == TOK_N)
    requires u == t.(consumed := t.consumed + [Lexeme(TOK_ID, Some(target))] + [Lexeme(TOK_EQUAL, None), Lexeme(yn, None)],
                     referenced := t.referenced + {name})
    ensures Accounted(t, u)
  {
    var ls := [Lexeme(TOK_ID, Some(target)), Lexeme(TOK_EQUAL, None), Lexeme(yn, None)];
    assert t.consumed + [Lexeme(TOK_ID, Some(target))] + [Lexeme(TOK_EQUAL, None), Lexeme(yn, None)] == t.consumed + ls;
    assert Since(t, u) == ls;
    AssignmentLexemes(target, name, yn);
  }

  /** The lexemes from t to u are `config`, a name not declared in t, and
      the lexemes of properties; u declares that name and references it
      with the properties' identifiers. */
  predicate DeclaresOne(t: Table, u: Table) {
    && |t.consumed| <= |u.consumed|
    && var ls := Since(t, u);
       && |ls| >= 2 && ls[0] == Lexeme(TOK_CONFIG, None) && ls[1].tok == TOK_ID && ls[1].val.Some?
       && ls[1].val.value !in t.defined
       && u.defined == t.defined + {ls[1].val.value}
       && u.referenced == t.referenced + {ls[1].val.value} + Refs(ls[2..])
  }

  lemma DeclarationAccounted(t: Table, u: Table, w: Table, name: string)
    requires u == t.(consumed := t.consumed + [Lexeme(TOK_CONFIG, None), Lexeme(TOK_ID, Some(name))],
                     referenced := t.referenced + {name}, defined := t.defined + {name})
    requires Refers(u, w) && name !in t.defined
    ensures Accounted(t, w) && DeclaresOne(t, w)
    ensures Since(t, w)[1] == Lexeme(TOK_ID, Some(name))
  {
    var rest := Since(u, w);
    SinceAppend(t, u, w, [Lexeme(TOK_CONFIG, None), Lexeme(TOK_ID, Some(name))]);
    DeclarationLexemes(name, rest);
    assert Since(t, w)[2..] == rest;
  }

  // ---------------------------------------------------------------------
  // Parser
  // ---------------------------------------------------------------------

  /** The file a parser reads: the environment, the name it was opened
      under and its absolute path. */
  datatype Ctx = Ctx(env: PathEnv, fname: string, absFname: string)

  /** A parser's registers and the table it shares. */
  datatype PState = PState(sc: Scanner, tb: Table)

  /** The location prefix: the include chain, then the file name. */
  function Where(ctx: Ctx, tb: Table): string {
    IncludedFromText(tb.inclInfo) + ctx.fname
  }

  /** KconfigParserError(self, msg, given) at the current token. */
  function ErrorText(ctx: Ctx, p: PState, msg: string, given: Option<Tok>): Failure
    requires p.sc.linePos <= p.sc.pos <= |p.sc.src|
  {
    ErrorBefore(Loc(Where(ctx, p.tb), p.sc.src, p.sc.line, p.sc.linePos, p.sc.pos), msg, given, p.sc.tok)
  }

  /** The same error, raised. */
  function ErrorAt<T>(ctx: Ctx, p: PState, msg: string, given: Option<Tok>): Result<T>
    requires p.sc.linePos <= p.sc.pos <= |p.sc.src|
  {
    Err(ErrorText(ctx, p, msg, given))
  }

  /** The token get_token replaces, if there is one. */
  function Consumed(sc: Scanner): seq<Lexeme> {
    if sc.tok == TOK_NONE then [] else [Lexeme(sc.tok, sc.val)]
  }

  /** q lies further on in p's buffer, between two tokens. */
  predicate Advances(p: PState, q: PState) {
    Ready(q.sc) && q.sc.src == p.sc.src && q.sc.cursor > p.sc.cursor
  }

  predicate Stays(p: PState, q: PState) {
    Ready(q.sc) && q.sc.src == p.sc.src && q.sc.cursor >= p.sc.cursor
  }

  /** get_token on the parser: the current token is consumed and the next
      one read. */
  function Next(ctx: Ctx, p: PState): (r: Result<PState>)
    requires Scannable(p.sc)
    ensures r.Ok? ==> Advances(p, r.value)
    ensures r.Ok? ==> r.value.tb == p.tb.(consumed := p.tb.consumed + Consumed(p.sc))
    ensures r.Err? ==> SyntaxFailure(r.failure)
  {
    var sc :- Lex(Where(ctx, p.tb), p.sc.src, p.sc.cursor, p.sc.line, p.sc.linePos);
    Ok(PState(sc, p.tb.(consumed := p.tb.consumed + Consumed(p.sc))))
  }

  /** Consuming a token that is neither an identifier, "=" nor "config"
      adds nothing to the table but the token. */
  lemma NextRefers(ctx: Ctx, p: PState)
    requires Scannable(p.sc) && Next(ctx, p).Ok?
    requires p.sc.tok != TOK_NONE && p.sc.tok != TOK_ID && p.sc.tok != TOK_EQUAL && p.sc.tok != TOK_CONFIG
    ensures Refers(p.tb, Next(ctx, p).value.tb)
  {
    var q := Next(ctx, p).value;
    assert Since(p.tb, q.tb) == [Lexeme(p.sc.tok, p.sc.val)];
  }

  /** y_or_n: Y | N */
  function YOrN(ctx: Ctx, p: PState): (r: Result<(PState, bool)>)
    requires Ready(p.sc)
    ensures r.Ok? ==> Advances(p, r.value.0) && Refers(p.tb, r.value.0.tb)
    ensures r.Ok? ==> (p.sc.tok == TOK_Y || p.sc.tok == TOK_N) && (r.value.1 <==> p.sc.tok == TOK_Y)
    ensures r.Ok? ==> r.value.0.tb == p.tb.(consumed := p.tb.consumed + [Lexeme(p.sc.tok, None)])
    ensures r.Err? ==> SyntaxFailure(r.failure)
    ensures p.sc.tok != TOK_Y && p.sc.tok != TOK_N ==> r == ErrorAt(ctx, p, "Expected \"y\" or \"n\"", None)
  {
    if p.sc.tok == TOK_Y || p.sc.tok == TOK_N then
      var q :- Next(ctx, p);
      NextRefers(ctx, p);
      Ok((q, p.sc.tok == TOK_Y))
    else ErrorAt(ctx, p, "Expected \"y\" or \"n\"", None)
  }

  /** var: ID, reported to do_var once the next token is read. */
  function Var(ctx: Ctx, p: PState): (r: Result<(PState, string)>)
    requires Ready(p.sc)
    ensures r.Ok? ==> Advances(p, r.value.0) && Refers(p.tb, r.value.0.tb)
    ensures r.Ok? ==> && p.sc.tok == TOK_ID && p.sc.val == Some(r.value.1)
                      && r.value.0.tb == p.tb.(consumed := p.tb.consumed + [Lexeme(TOK_ID, p.sc.val)],
                                               referenced := p.tb.referenced + {r.value.1})
    ensures r.Err? ==> SyntaxFailure(r.failure)
    ensures p.sc.tok != TOK_ID ==> r == ErrorAt(ctx, p, "Expected identifier", None)
  {
    if p.sc.tok == TOK_ID then
      var name := p.sc.val.value;
      var q :- Next(ctx, p);
      var u := q.tb.(referenced := q.tb.referenced + {name});
      assert Since(p.tb, u) == [Lexeme(TOK_ID, Some(name))];
      Ok((PState(q.sc, u), name))
    else ErrorAt(ctx, p, "Expected identifier", None)
  }

  /** assignment_var: ID starting with "CONFIG_"; the symbol is the rest
      of the identifier. */
  function AssignmentVar(ctx: Ctx, p: PState): (r: Result<(PState, string)>)
    requires Ready(p.sc)
    ensures r.Ok? ==> Advances(p, r.value.0)
    ensures r.Ok? ==> && p.sc.tok == TOK_ID && AssignmentName(p.sc.val.value) == Some(r.value.1)
                      && r.value.0.tb == p.tb.(consumed := p.tb.consumed + [Lexeme(TOK_ID, p.sc.val)],
                                               referenced := p.tb.referenced + {r.value.1})
    ensures r.Err? ==> SyntaxFailure(r.failure)
    ensures p.sc.tok != TOK_ID ==> r == ErrorAt(ctx, p, "Expected identifier", None)
    ensures p.sc.tok == TOK_ID && AssignmentName(p.sc.val.value).None? ==>
              r == ErrorAt(ctx, p, "Expected identifier starting with \"CONFIG_\"", Some(TOK_NONE))
  {
    if p.sc.tok == TOK_ID then
      var name := AssignmentName(p.sc.val.value);
      if name.None? then ErrorAt(ctx, p, "Expected identifier starting with \"CONFIG_\"", Some(TOK_NONE))
      else
        var q :- Next(ctx, p);
        Ok((PState(q.sc, q.tb.(referenced := q.tb.referenced + {name.value})), name.value))
    else ErrorAt(ctx, p, "Expected identifier", None)
  }

  /** assignment: var EQUAL y_or_n; the target, stripped of CONFIG_, is
      referenced. */
  function Assignment(ctx: Ctx, p: PState): (r: Result<PState>)
    requires Ready(p.sc)
    ensures r.Ok? ==> Advances(p, r.value) && Accounted(p.tb, r.value.tb)
    ensures r.Ok? ==> && p.sc.tok == TOK_ID && AssignmentName(p.sc.val.value).Some?
                      && r.value.tb.referenced == p.tb.referenced + {AssignmentName(p.sc.val.value).value}
                      && r.value.tb.defined == p.tb.defined
    ensures r.Err? ==> SyntaxFailure(r.failure)
    ensures p.sc.tok != TOK_ID ==> r == ErrorAt(ctx, p, "Expected identifier", None)
  {
    var v :- AssignmentVar(ctx, p);
    var y :- AssignmentValue(ctx, v.0);
    AssignmentAccounted(p.tb, y.0.tb, p.sc.val.value, v.1, if y.1 then TOK_Y else TOK_N);
    Ok(y.0)
  }

  /** The rest of assignment once its target is read: EQUAL y_or_n. */
  function AssignmentValue(ctx: Ctx, p: PState): (r: Result<(PState, bool)>)
    requires Ready(p.sc)
    ensures r.Ok? ==> && Advances(p, r.value.0) && p.sc.tok == TOK_EQUAL
                      && r.value.0.tb == p.tb.(consumed := p.tb.consumed + [Lexeme(TOK_EQUAL, None),
                                                                            Lexeme(if r.value.1 then TOK_Y else TOK_N, None)])
    ensures r.Err? ==> SyntaxFailure(r.failure)
    ensures p.sc.tok != TOK_EQUAL ==> r == ErrorAt(ctx, p, "Expected \"=\"", None)
  {
    if p.sc.tok != TOK_EQUAL then ErrorAt(ctx, p, "Expected \"=\"", None)
    else
      var p1 :- Next(ctx, p);
      var y :- YOrN(ctx, p1);
      assert p.tb.consumed + [Lexeme(TOK_EQUAL, None)] + [Lexeme(p1.sc.tok, None)]
          == p.tb.consumed + [Lexeme(TOK_EQUAL, None), Lexeme(p1.sc.tok, None)];
      Ok(y)
  }

  /** primary: NOT primary | LPAREN expr RPAREN | var */
  function Primary(ctx: Ctx, p: PState): (r: Result<PState>)
    requires Ready(p.sc)
    ensures r.Ok? ==> Advances(p, r.value) && Refers(p.tb, r.value.tb)
    ensures r.Ok? ==> p.sc.tok == TOK_NOT || p.sc.tok == TOK_LPAREN || p.sc.tok == TOK_ID
    ensures r.Err? ==> SyntaxFailure(r.failure)
    ensures p.sc.tok != TOK_NOT && p.sc.tok != TOK_LPAREN && p.sc.tok != TOK_ID ==>
              r == ErrorAt(ctx, p, "Expected \"!\" or \"(\" or identifier", None)
    decreases |p.sc.src| - p.sc.cursor, 0
  {
    if p.sc.tok == TOK_NOT then
      var p1 :- Next(ctx, p);
      var q :- Primary(ctx, p1);
      NextRefers(ctx, p);
      RefersTrans(p.tb, p1.tb, q.tb);
      Ok(q)
    else if p.sc.tok == TOK_LPAREN then
      var p1 :- Next(ctx, p);
      var p2 :- Expr(ctx, p1);
      if p2.sc.tok != TOK_RPAREN then ErrorAt(ctx, p2, "Expected \")\"", None)
      else
        var q :- Next(ctx, p2);
        NextRefers(ctx, p);
        NextRefers(ctx, p2);
        RefersTrans(p.tb, p1.tb, p2.tb);
        RefersTrans(p.tb, p2.tb, q.tb);
        Ok(q)
    else if p.sc.tok == TOK_ID then
      var v :- Var(ctx, p);
      Ok(v.0)
    else ErrorAt(ctx, p, "Expected \"!\" or \"(\" or identifier", None)
  }

  /** The loop of disj: (OR primary)* */
  function DisjTail(ctx: Ctx, p: PState): (r: Result<PState>)
    requires Ready(p.sc)
    ensures r.Ok? ==> Stays(p, r.value) && Refers(p.tb, r.value.tb) && r.value.sc.tok != TOK_OR
    ensures p.sc.tok != TOK_OR ==> r == Ok(p)
    ensures r.Err? ==> SyntaxFailure(r.failure)
    decreases |p.sc.src| - p.sc.cursor, 1
  {
    if p.sc.tok != TOK_OR then
      RefersRefl(p.tb);
      Ok(p)
    else
      var p1 :- Next(ctx, p);
      var p2 :- Primary(ctx, p1);
      var q :- DisjTail(ctx, p2);
      NextRefers(ctx, p);
      RefersTrans(p.tb, p1.tb, p2.tb);
      RefersTrans(p.tb, p2.tb, q.tb);
      Ok(q)
  }

  /** disj: primary (OR primary)* */
  function Disj(ctx: Ctx, p: PState): (r: Result<PState>)
    requires Ready(p.sc)
    ensures r.Ok? ==> Advances(p, r.value) && Refers(p.tb, r.value.tb) && r.value.sc.tok != TOK_OR
    ensures r.Err? ==> SyntaxFailure(r.failure)
    ensures p.sc.tok != TOK_NOT && p.sc.tok != TOK_LPAREN && p.sc.tok != TOK_ID ==>
              r == ErrorAt(ctx, p, "Expected \"!\" or \"(\" or identifier", None)
    decreases |p.sc.src| - p.sc.cursor, 2
  {
    var p1 :- Primary(ctx, p);
    var q :- DisjTail(ctx, p1);
    RefersTrans(p.tb, p1.tb, q.tb);
    Ok(q)
  }

  /** The loop of expr: (AND disj)* */
  function ExprTail(ctx: Ctx, p: PState): (r: Result<PState>)
    requires Ready(p.sc)
    ensures r.Ok? ==> Stays(p, r.value) && Refers(p.tb, r.value.tb) && r.value.sc.tok != TOK_AND
    ensures r.Ok? && p.sc.tok != TOK_OR ==> r.value.sc.tok != TOK_OR
    ensures p.sc.tok != TOK_AND ==> r == Ok(p)
    ensures r.Err? ==> SyntaxFailure(r.failure)
    decreases |p.sc.src| - p.sc.cursor, 3
  {
    if p.sc.tok != TOK_AND then
      RefersRefl(p.tb);
      Ok(p)
    else
      var p1 :- Next(ctx, p);
      var p2 :- Disj(ctx, p1);
      var q :- ExprTail(ctx, p2);
      NextRefers(ctx, p);
      RefersTrans(p.tb, p1.tb, p2.tb);
      RefersTrans(p.tb, p2.tb, q.tb);
      Ok(q)
  }

  /** expr: disj (AND disj)* -- the symbols an expression references are
      exactly the identifiers it consumes. */
  function Expr(ctx: Ctx, p: PState): (r: Result<PState>)
    requires Ready(p.sc)
    ensures r.Ok? ==> Advances(p, r.value) && Refers(p.tb, r.value.tb)
    ensures r.Ok? ==> r.value.sc.tok != TOK_AND && r.value.sc.tok != TOK_OR
    ensures r.Err? ==> SyntaxFailure(r.failure)
    ensures p.sc.tok != TOK_NOT && p.sc.tok != TOK_LPAREN && p.sc.tok != TOK_ID ==>
              r == ErrorAt(ctx, p, "Expected \"!\" or \"(\" or identifier", None)
    decreases |p.sc.src| - p.sc.cursor, 4
  {
    var p1 :- Disj(ctx, p);
    var q :- ExprTail(ctx, p1);
    RefersTrans(p.tb, p1.tb, q.tb);
    Ok(q)
  }

  /** condition: IF expr | empty */
  function Condition(ctx: Ctx, p: PState): (r: Result<PState>)
    requires Ready(p.sc)
    ensures r.Ok? ==> Stays(p, r.value) && Refers(p.tb, r.value.tb)
    ensures p.sc.tok != TOK_IF ==> r == Ok(p)
    ensures p.sc.tok == TOK_IF && r.Ok? ==>
              r.value.sc.cursor > p.sc.cursor && r.value.sc.tok != TOK_AND && r.value.sc.tok != TOK_OR
    ensures r.Err? ==> SyntaxFailure(r.failure)
  {
    if p.sc.tok != TOK_IF then
      RefersRefl(p.tb);
      Ok(p)
    else
      var p1 :- Next(ctx, p);
      var q :- Expr(ctx, p1);
      NextRefers(ctx, p);
      RefersTrans(p.tb, p1.tb, q.tb);
      Ok(q)
  }

  /** property: DEFAULT y_or_n condition | DEPENDS ON expr
              | SELECT var condition | BOOL */
  function Property(ctx: Ctx, p: PState): (r: Result<PState>)
    requires Ready(p.sc)
    ensures r.Ok? ==> Advances(p, r.value) && Refers(p.tb, r.value.tb) && StartsProperty(p.sc.tok)
    ensures r.Err? ==> SyntaxFailure(r.failure)
    ensures !StartsProperty(p.sc.tok) ==> r == ErrorAt(ctx, p, "Error in recursive descent?", None)
  {
    if p.sc.tok == TOK_DEFAULT then DefaultProperty(ctx, p)
    else if p.sc.tok == TOK_DEPENDS then DependsProperty(ctx, p)
    else if p.sc.tok == TOK_SELECT then SelectProperty(ctx, p)
    else if p.sc.tok == TOK_BOOL then
      var q :- Next(ctx, p);
      NextRefers(ctx, p);
      Ok(q)
    else ErrorAt(ctx, p, "Error in recursive descent?", None)
  }

  /** DEFAULT y_or_n condition, with the current token DEFAULT */
  function DefaultProperty(ctx: Ctx, p: PState): (r: Result<PState>)
    requires Ready(p.sc) && p.sc.tok == TOK_DEFAULT
    ensures r.Ok? ==> Advances(p, r.value) && Refers(p.tb, r.value.tb)
    ensures r.Err? ==> SyntaxFailure(r.failure)
  {
    var p1 :- Next(ctx, p);
    var y :- YOrN(ctx, p1);
    var q :- Condition(ctx, y.0);
    NextRefers(ctx, p);
    RefersTrans(p.tb, p1.tb, y.0.tb);
    RefersTrans(p.tb, y.0.tb, q.tb);
    Ok(q)
  }

  /** DEPENDS ON expr, with the current token DEPENDS */
  function DependsProperty(ctx: Ctx, p: PState): (r: Result<PState>)
    requires Ready(p.sc) && p.sc.tok == TOK_DEPENDS
    ensures r.Ok? ==> Advances(p, r.value) && Refers(p.tb, r.value.tb)
    ensures r.Err? ==> SyntaxFailure(r.failure)
  {
    var p1 :- Next(ctx, p);
    if p1.sc.tok != TOK_ON then ErrorAt(ctx, p1, "Expected \"on\"", None)
    else
      var p2 :- Next(ctx, p1);
      var q :- Expr(ctx, p2);
      NextRefers(ctx, p);
      NextRefers(ctx, p1);
      RefersTrans(p.tb, p1.tb, p2.tb);
      RefersTrans(p.tb, p2.tb, q.tb);
      Ok(q)
  }

  /** SELECT var condition, with the current token SELECT */
  function SelectProperty(ctx: Ctx, p: PState): (r: Result<PState>)
    requires Ready(p.sc) && p.sc.tok == TOK_SELECT
    ensures r.Ok? ==> Advances(p, r.value) && Refers(p.tb, r.value.tb)
    ensures r.Err? ==> SyntaxFailure(r.failure)
  {
    var p1 :- Next(ctx, p);
    var v :- Var(ctx, p1);
    var q :- Condition(ctx, v.0);
    NextRefers(ctx, p);
    RefersTrans(p.tb, p1.tb, v.0.tb);
    RefersTrans(p.tb, v.0.tb, q.tb);
    Ok(q)
  }

  /** The loop of properties: property* */
  function PropertyList(ctx: Ctx, p: PState): (r: Result<PState>)
    requires Ready(p.sc)
    ensures r.Ok? ==> Stays(p, r.value) && Refers(p.tb, r.value.tb) && !StartsProperty(r.value.sc.tok)
    ensures !StartsProperty(p.sc.tok) ==> r == Ok(p)
    ensures r.Err? ==> SyntaxFailure(r.failure)
    decreases |p.sc.src| - p.sc.cursor
  {
    if !StartsProperty(p.sc.tok) then
      RefersRefl(p.tb);
      Ok(p)
    else
      var p1 :- Property(ctx, p);
      var q :- PropertyList(ctx, p1);
      RefersTrans(p.tb, p1.tb, q.tb);
      Ok(q)
  }

  /** properties: property*, which must be followed by a token that can
      start a clause. */
  function Properties(ctx: Ctx, p: PState): (r: Result<PState>)
    requires Ready(p.sc)
    ensures r.Ok? ==> Stays(p, r.value) && Refers(p.tb, r.value.tb) && ClauseFollow(r.value.sc.tok)
    ensures ClauseFollow(p.sc.tok) ==> r == Ok(p)
    ensures r.Err? ==> SyntaxFailure(r.failure)
    ensures !StartsProperty(p.sc.tok) && !ClauseFollow(p.sc.tok) ==>
              r == ErrorAt(ctx, p, PROPERTIES_FOLLOW, None)
  {
    var q :- PropertyList(ctx, p);
    if !ClauseFollow(q.sc.tok) then ErrorAt(ctx, q, PROPERTIES_FOLLOW, None) else Ok(q)
  }

  /** declaration: config var properties -- declares the identifier after
      `config`, which must not be declared yet, and references it together
      with the identifiers of its properties. */
  function Declaration(ctx: Ctx, p: PState): (r: Result<PState>)
    requires Ready(p.sc)
    ensures r.Ok? ==> Advances(p, r.value) && Accounted(p.tb, r.value.tb) && ClauseFollow(r.value.sc.tok)
    ensures r.Ok? ==> DeclaresOne(p.tb, r.value.tb)
    ensures r.Err? ==> || SyntaxFailure(r.failure)
                       || (r.failure.DefinedTwice? && p.sc.tok == TOK_CONFIG && r.failure.name in p.tb.defined)
    ensures p.sc.tok != TOK_CONFIG ==> r == ErrorAt(ctx, p, "Error in recursive descent?", None)
  {
    if p.sc.tok != TOK_CONFIG then ErrorAt(ctx, p, "Error in recursive descent?", None)
    else
      var p1 :- Next(ctx, p);
      var q :- Declare(ctx, p1);
      DeclarationAccounted(p.tb, DeclaredTable(p1), q.tb, p1.sc.val.value);
      Ok(q)
  }

  /** The table once var has read the declared name and do_declaration
      has recorded it. */
  function DeclaredTable(p: PState): Table
    requires p.sc.val.Some?
  {
    var name := p.sc.val.value;
    p.tb.(consumed := p.tb.consumed + [Lexeme(TOK_ID, p.sc.val)],
          referenced := p.tb.referenced + {name}, defined := p.tb.defined + {name})
  }

  /** The rest of declaration after `config`: var reads the name,
      do_declaration rejects a name declared before, and the properties
      follow. */
  function Declare(ctx: Ctx, p: PState): (r: Result<PState>)
    requires Ready(p.sc)
    ensures r.Ok? ==> && p.sc.tok == TOK_ID && p.sc.val.value !in p.tb.defined
                      && Advances(p, r.value) && ClauseFollow(r.value.sc.tok)
                      && Refers(DeclaredTable(p), r.value.tb)
    ensures r.Err? ==> || SyntaxFailure(r.failure)
                       || (&& r.failure.DefinedTwice? && p.sc.tok == TOK_ID
                           && p.sc.val == Some(r.failure.name) && r.failure.name in p.tb.defined)
    ensures p.sc.tok != TOK_ID ==> r == ErrorAt(ctx, p, "Expected identifier", None)
  {
    var v :- Var(ctx, p);
    if v.1 in v.0.tb.defined then Err(DefinedTwice(v.1))
    else Properties(ctx, PState(v.0.sc, DeclaredTable(p)))
  }

  /** clause: SOURCE | declaration | assignment */
  function Clause(ctx: Ctx, p: PState, depth: nat): (r: Result<PState>)
    requires Ready(p.sc)
    ensures r.Ok? ==> Advances(p, r.value) && Accounted(p.tb, r.value.tb) && ClauseStart(p.sc.tok)
    ensures !ClauseStart(p.sc.tok) ==>
              r == ErrorAt(ctx, p, "expected \"source\", \"config\" or identifier", None)
    decreases depth, 1, 0
  {
    if p.sc.tok == TOK_SOURCE then
      var directive := p.sc.val.value;
      var p1 :- Next(ctx, p);
      var q :- Include(ctx, p1, directive, depth);
      assert Since(p.tb, p1.tb) == [Lexeme(TOK_SOURCE, p.sc.val)];
      AccountedTrans(p.tb, p1.tb, q.tb);
      Ok(q)
    else if p.sc.tok == TOK_CONFIG then Declaration(ctx, p)
    else if p.sc.tok == TOK_ID then Assignment(ctx, p)
    else ErrorAt(ctx, p, "expected \"source\", \"config\" or identifier", None)
  }

  /** config: clause+ EOF (a file without clauses is accepted as well) --
      the table gains what the clauses reference and declare. */
  function Config(ctx: Ctx, p: PState, depth: nat): (r: Result<PState>)
    requires Ready(p.sc)
    ensures r.Ok? ==> Stays(p, r.value) && Accounted(p.tb, r.value.tb) && r.value.sc.tok == TOK_EOF
    ensures p.sc.tok == TOK_EOF ==> r == Ok(p)
    decreases depth, 2, |p.sc.src| - p.sc.cursor
  {
    if p.sc.tok == TOK_EOF then
      AccountedRefl(p.tb);
      Ok(p)
    else
      var p1 :- Clause(ctx, p, depth);
      var q :- Config(ctx, p1, depth);
      AccountedTrans(p.tb, p1.tb, q.tb);
      Ok(q)
  }

  /** The table as parse_file leaves it before scanning: the file's
      absolute path appended to the included files. */
  function Opened(env: PathEnv, name: string, tb: Table): Table {
    tb.(previouslyIncluded := tb.previouslyIncluded + [env.abspath(name)])
  }

  /** parse_file: a parser for `name` reads its first token and parses;
      the text gets a newline appended when it does not end in one. */
  function File(env: PathEnv, name: string, contents: string, depth: nat, tb: Table): (r: Result<PState>)
    ensures r.Ok? ==> && Ready(r.value.sc) && r.value.sc.src == Normalize(contents) && r.value.sc.tok == TOK_EOF
                      && Accounted(Opened(env, name, tb), r.value.tb)
    decreases depth, 3, 0
  {
    var ctx := Ctx(env, name, env.abspath(name));
    var t0 := Opened(env, name, tb);
    var p0 := PState(Scanner(Normalize(contents), 0, 0, 1, 0, TOK_NONE, None), t0);
    var p1 :- Next(ctx, p0);
    assert p1.tb == t0;
    Config(ctx, p1, depth)
  }

  /** do_include: a file on the include chain is an inclusion loop, one
      included before is skipped, a missing one fails, and otherwise it is
      parsed by a new parser with the current file and line as the
      innermost frame, which is popped afterwards. */
  function Include(ctx: Ctx, p: PState, directive: string, depth: nat): (r: Result<PState>)
    requires Ready(p.sc)
    ensures r.Ok? ==> r.value.sc == p.sc && Accounted(p.tb, r.value.tb)
    ensures var target := IncludeTarget(ctx.env, ctx.absFname, directive);
            && (InclusionLoop(ctx.env, p.tb.inclInfo, target) ==>
                  r == ErrorAt(ctx, p, "Inclusion loop for " + directive, None))
            && (!InclusionLoop(ctx.env, p.tb.inclInfo, target) && target in p.tb.previouslyIncluded ==>
                  r == Ok(p))
            && (!InclusionLoop(ctx.env, p.tb.inclInfo, target) && target !in p.tb.previouslyIncluded
                && target !in ctx.env.files ==>
                  r == ErrorAt(ctx, p, NO_SUCH_FILE + ": " + directive, None))
            && (!InclusionLoop(ctx.env, p.tb.inclInfo, target) && target !in p.tb.previouslyIncluded
                && target in ctx.env.files ==>
                  if depth == 0 then r == Err(RecursionLimit)
                  else
                    var framed := p.tb.(inclInfo := Included(ctx.fname, p.sc.line, p.tb.inclInfo));
                    match File(ctx.env, target, ctx.env.files[target], depth - 1, framed)
                    case Err(f) => r == Err(f)
                    case Ok(inner) => r == Ok(PState(p.sc, inner.tb.(inclInfo := p.tb.inclInfo))))
    decreases depth, 0, 0
  {
    var env := ctx.env;
    var target := IncludeTarget(env, ctx.absFname, directive);
    if InclusionLoop(env, p.tb.inclInfo, target) then ErrorAt(ctx, p, "Inclusion loop for " + directive, None)
    else if target in p.tb.previouslyIncluded then
      AccountedRefl(p.tb);
      Ok(p)
    else if target !in env.files then ErrorAt(ctx, p, NO_SUCH_FILE + ": " + directive, None)
    else if depth == 0 then Err(RecursionLimit)
    else
      var framed := p.tb.(inclInfo := Included(ctx.fname, p.sc.line, p.tb.inclInfo));
      var inner :- File(env, target, env.files[target], depth - 1, framed);
      var u := inner.tb.(inclInfo := p.tb.inclInfo);
      assert Since(p.tb, u) == Since(Opened(env, target, framed), inner.tb);
      Ok(PState(p.sc, u))
  }

  lemma UndefinedMessage(loc: string)
    ensures ErrorBefore(loc, "there were undefined symbols", None, TOK_EOF).msg
            == "there were undefined symbols before end of file"
  {
  }

  /** KconfigParser.parse: the table of a top-level file, which fails when
      a referenced symbol was never declared. */
  function Parsed(env: PathEnv, name: string, contents: string, maxDepth: nat): (r: Result<Table>)
    ensures r.Ok? ==> && r.value.inclInfo == NoInclude
                      && r.value.defined == Declared(r.value.consumed)
                      && r.value.referenced == Refs(r.value.consumed)
                      && Refs(r.value.consumed) <= Declared(r.value.consumed)
                      && |r.value.previouslyIncluded| > 0 && r.value.previouslyIncluded[0] == env.abspath(name)
    ensures match File(env, name, contents, maxDepth, EMPTY_TABLE)
            case Err(f) => r == Err(f)
            case Ok(q) => && (q.tb.referenced <= q.tb.defined ==> r == Ok(q.tb))
                          && (r.Ok? <==> q.tb.referenced <= q.tb.defined)
                          && (r.Err? ==> && r.failure.ParserError?
                                         && r.failure.msg == "there were undefined symbols before end of file")
  {
    var q :- File(env, name, contents, maxDepth, EMPTY_TABLE);
    assert Since(Opened(env, name, EMPTY_TABLE), q.tb) == q.tb.consumed[0..] == q.tb.consumed;
    assert q.sc.tok == TOK_EOF;
    if !(q.tb.referenced <= q.tb.defined) then
      UndefinedMessage(Loc(Where(Ctx(env, name, env.abspath(name)), q.tb), q.sc.src, q.sc.line, q.sc.linePos, q.sc.pos));
      ErrorAt(Ctx(env, name, env.abspath(name)), q, "there were undefined symbols", None)
    else Ok(q.tb)
  }

  const PROPERTIES_FOLLOW :=
    "expected \"source\", \"config\", identifier, \"default\", \"depends on\" or \"select\""
}
