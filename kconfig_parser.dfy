/**
 * KconfigParser of scripts/minikconf.py: a scanner over one file's buffer,
 * the recursive-descent parser whose grammar sits above each Parse method,
 * the error reporter, and include resolution. Every parser of one parse
 * shares a single KconfigData.  Each method is proved to end exactly as the
 * function of the same rule in KconfigGrammar says: with the same failure,
 * or with registers and table equal to the function's result.
 */
module KconfigParsing {
  import opened Wrappers
  import opened KconfigLexicon
  import opened KconfigSemantics
  import opened KconfigGrammar

  class KconfigParser {
    const data: KconfigData
    const env: PathEnv
    var fname: string
    var absFname: string
    var src: string
    var cursor: nat
    var pos: nat
    var line: nat
    var linePos: nat
    var tok: Tok
    var val: Option<string>

    /** A new parser has read no token yet. */
    constructor (data: KconfigData, env: PathEnv)
      ensures this.data == data && this.env == env && tok == TOK_NONE
    {
      this.data := data;
      this.env := env;
      fname, absFname, src := "", "", "";
      cursor, pos, line, linePos := 0, 0, 0, 0;
      tok, val := TOK_NONE, None;
    }

    // -------------------------------------------------------------------
    // The parser as a value
    // -------------------------------------------------------------------

    ghost function Context(): Ctx
      reads this`fname, this`absFname
    {
      Ctx(env, fname, absFname)
    }

    ghost function Scan(): Scanner
      reads this`src, this`cursor, this`pos, this`line, this`linePos, this`tok, this`val
    {
      Scanner(src, cursor, pos, line, linePos, tok, val)
    }

    ghost function State(): PState
      reads this`src, this`cursor, this`pos, this`line, this`linePos, this`tok, this`val, data
    {
      PState(Scan(), data.Snapshot())
    }

    /** The method ended as `spec` says: with its failure, or in its
        state. */
    ghost predicate Ends(r: Result<()>, spec: Result<PState>)
      reads this`src, this`cursor, this`pos, this`line, this`linePos, this`tok, this`val, data
    {
      match spec
      case Err(f) => r == Err(f)
      case Ok(q) => r == Ok(()) && State() == q
    }

    /** The same for a rule with a semantic value. */
    ghost predicate EndsWith<T>(r: Result<T>, spec: Result<(PState, T)>)
      reads this`src, this`cursor, this`pos, this`line, this`linePos, this`tok, this`val, data
    {
      match spec
      case Err(f) => r == Err(f)
      case Ok(q) => r == Ok(q.1) && State() == q.0
    }

    // -------------------------------------------------------------------
    // Error reporting
    // -------------------------------------------------------------------

    /** error_path: the "In file included from" lines, oldest first. */
    method ErrorPath() returns (res: string)
      ensures res == IncludedFromText(data.inclInfo)
    {
      var inf := data.inclInfo;
      res := "";
      while inf.Included?
        invariant IncludedFromText(data.inclInfo) == IncludedFromText(inf) + res
        decreases inf
      {
        res := IncludedFromLine(inf.file, inf.line) + res;
        inf := inf.parent;
      }
    }

    /** location: include chain, file name, line, and the column of the
        current token with tabs expanded to 8-column stops. */
    method Location() returns (loc: string)
      requires linePos <= pos <= |src|
      ensures loc == Loc(Where(Context(), data.Snapshot()), src, line, linePos, pos)
    {
      var col := 1;
      var i := linePos;
      while i < pos
        invariant linePos <= i <= pos
        invariant col >= 1
        invariant ColumnAfter(col, src[i..pos]) == Column(src[linePos..pos])
      {
        assert src[i..pos][0] == src[i] && src[i..pos][1..] == src[i + 1..pos];
        if src[i] == '\t' {
          col := col + 8 - (col - 1) % 8;
        } else {
          col := col + 1;
        }
        i := i + 1;
      }
      var path := ErrorPath();
      loc := path + fname + ":" + NatToString(line) + ":" + NatToString(col);
    }

    /** KconfigParserError(self, msg, given) at the current location. */
    method ErrorHere(msg: string, given: Option<Tok>) returns (f: Failure)
      requires linePos <= pos <= |src|
      ensures f == ErrorText(Context(), State(), msg, given)
    {
      var loc := Location();
      f := ErrorBefore(loc, msg, given, tok);
    }

    // -------------------------------------------------------------------
    // Scanner
    // -------------------------------------------------------------------

    /** get_token: scans characters until one yields a token.  The current
        token is recorded as consumed; what the scan passes over is
        whitespace and comments, and the line number counts its
        newlines. */
    method GetToken() returns (r: Result<()>)
      requires Scannable(Scan())
      modifies this`tok, this`pos, this`cursor, this`line, this`linePos, this`val, data`consumed
      ensures Ends(r, Next(Context(), old(State())))
      ensures r.Ok? ==> SkipsTo(src, old(cursor), old(line), old(linePos), Scan())
    {
      LexSkips(Where(Context(), data.Snapshot()), src, cursor, line, linePos);
      data.consumed := data.consumed + Consumed(Scan());
      r := ScanTokens();
    }

    /** The loop of get_token, exactly as Lex: scan_token on each character
        until it yields a token or fails. */
    method ScanTokens() returns (r: Result<()>)
      requires Scannable(Scan())
      modifies this`tok, this`pos, this`cursor, this`line, this`linePos, this`val
      ensures match Lex(Where(Context(), data.Snapshot()), src, old(cursor), old(line), old(linePos))
              case Ok(sc) => r == Ok(()) && Scan() == sc
              case Err(f) => r == Err(f)
    {
      ghost var scanned := Lex(Where(Context(), data.Snapshot()), src, cursor, line, linePos);
      while true
        invariant Scannable(Scan())
        invariant Lex(Where(Context(), data.Snapshot()), src, cursor, line, linePos) == scanned
        decreases |src| - cursor
      {
        var ch := src[cursor];
        pos := cursor;
        cursor := cursor + 1;
        val := None;
        var t :- ScanToken(ch);
        if t.Some? {
          tok := t.value;
          return Ok(());
        }
      }
    }

    /** check_keyword: consumes `rest` when it stands at the cursor and is
        not followed by an alphanumeric character or '|'. (On a buffer that
        ends in a newline a match of `rest` never reaches the end, so the
        character after it always exists.) */
    method CheckKeyword(rest: string) returns (ok: bool)
      requires Terminated(src) && cursor < |src|
      modifies this`cursor
      ensures ok <==> KeywordAt(src, old(cursor), rest)
      ensures cursor == if ok then old(cursor) + |rest| else old(cursor)
    {
      var length := |rest|;
      if !(cursor + length < |src| && src[cursor..cursor + length] == rest) {
        return false;
      }
      if IsAlnum(src[cursor + length]) || src[cursor + length] == '|' {
        return false;
      }
      cursor := cursor + length;
      return true;
    }

    /** scan_token for the character `ch` at pos, exactly as ScanAt: a
        token, nothing (whitespace, a comment, a newline, with the
        registers moved), a stray character, or an index past the end. */
    method ScanToken(ch: char) returns (r: Result<Option<Tok>>)
      requires Terminated(src) && linePos <= pos < |src| && cursor == pos + 1 && ch == src[pos]
      requires val.None?
      modifies this`cursor, this`line, this`linePos, this`val
      ensures match ScanAt(src, pos, old(line), old(linePos))
              case Skip(c, l, lp) => r == Ok(None) && cursor == c && line == l && linePos == lp
              case Read(t, c, v) =>
                r == Ok(Some(t)) && cursor == c && val == v && line == old(line) && linePos == old(linePos)
              case Stray =>
                && line == old(line) && linePos == old(linePos)
                && r == Err(StrayError(Loc(Where(Context(), data.Snapshot()), src, line, linePos, pos), ch))
              case Overrun => r == Err(IndexError)
    {
      if ch == '#' {
        cursor := FindNewline(src, cursor);
        return Ok(None);
      } else if ch == '=' {
        return Ok(Some(TOK_EQUAL));
      } else if ch == '(' {
        return Ok(Some(TOK_LPAREN));
      } else if ch == ')' {
        return Ok(Some(TOK_RPAREN));
      } else if ch == '&' && src[pos + 1] == '&' {
        cursor := cursor + 1;
        return Ok(Some(TOK_AND));
      } else if ch == '|' && src[pos + 1] == '|' {
        cursor := cursor + 1;
        return Ok(Some(TOK_OR));
      } else if ch == '!' {
        return Ok(Some(TOK_NOT));
      } else if IsAlpha(ch) {
        // every keyword starts with a letter, so the keyword branches
        // and the identifier branch are all reached through here
        r := ScanWord(ch);
        return;
      } else if ch == '\n' {
        if cursor == |src| {
          return Ok(Some(TOK_EOF));
        }
        line := line + 1;
        linePos := cursor;
      } else if !IsSpace(ch) {
        var loc := Location();
        return Err(StrayError(loc, ch));
      }
      return Ok(None);
    }

    /** The branches of scan_token for a letter, exactly as WordAt: a
        keyword, then source/directive, then an identifier. */
    method ScanWord(ch: char) returns (r: Result<Option<Tok>>)
      requires Terminated(src) && linePos <= pos < |src| && cursor == pos + 1 && ch == src[pos]
      requires IsAlpha(ch) && val.None?
      modifies this`cursor, this`val
      ensures match WordAt(src, pos)
              case Read(t, c, v) => r == Ok(Some(t)) && cursor == c && val == v
              case _ => r == Err(IndexError)
    {
      var kw := MatchKeyword(ch);
      if kw == Some(TOK_SOURCE) {
        assert WordAt(src, pos) == FileNameAt(src, pos, cursor);
        r := ScanFileName();
        return;
      } else if kw.Some? {
        assert WordAt(src, pos) == Read(kw.value, cursor, None);
        return Ok(kw);
      }
      assert WordAt(src, pos) == Read(TOK_ID, IdentEnd(src, pos + 1), Some(src[pos..IdentEnd(src, pos + 1)]));
      ScanIdentifier();
      return Ok(Some(TOK_ID));
    }

    /** The identifier branch of scan_token: letters, digits and '_' after
        the first letter. */
    method ScanIdentifier()
      requires Terminated(src) && pos < |src| && IsAlpha(src[pos]) && cursor == pos + 1
      modifies this`cursor, this`val
      ensures cursor == IdentEnd(src, pos + 1) && val == Some(src[pos..cursor])
    {
      while IsIdentChar(src[cursor])
        invariant pos < cursor < |src|
        invariant IdentEnd(src, cursor) == IdentEnd(src, pos + 1)
        decreases |src| - cursor
      {
        cursor := cursor + 1;
      }
      val := Some(src[pos..cursor]);
    }

    /** The keyword branches of scan_token, tried in its order through
        check_keyword, which consumes the keyword's tail on a match. */
    method MatchKeyword(ch: char) returns (kw: Option<Tok>)
      requires Terminated(src) && pos < |src| && cursor == pos + 1 && ch == src[pos]
      modifies this`cursor
      ensures kw == KeywordMatch(src, pos)
      ensures kw.None? ==> cursor == pos + 1
      ensures kw.Some? && kw != Some(TOK_SOURCE) ==> cursor == pos + |FixedText(kw.value)|
      ensures kw == Some(TOK_SOURCE) ==>
                || (ch == 's' && KeywordAt(src, pos + 1, "ource") && cursor == pos + 6)
                || (ch == 'i' && KeywordAt(src, pos + 1, "nclude") && cursor == pos + 7)
    {
      var m := false;
      if ch == 'd' {
        m := CheckKeyword("epends");
        if m { return Some(TOK_DEPENDS); }
      }
      if ch == 'o' {
        m := CheckKeyword("n");
        if m { return Some(TOK_ON); }
      }
      if ch == 's' {
        m := CheckKeyword("elect");
        if m { return Some(TOK_SELECT); }
      }
      if ch == 'c' {
        m := CheckKeyword("onfig");
        if m { return Some(TOK_CONFIG); }
      }
      if ch == 'd' {
        m := CheckKeyword("efault");
        if m { return Some(TOK_DEFAULT); }
      }
      if ch == 'b' {
        m := CheckKeyword("ool");
        if m { return Some(TOK_BOOL); }
      }
      if ch == 'i' {
        m := CheckKeyword("f");
        if m { return Some(TOK_IF); }
      }
      if ch == 'y' {
        m := CheckKeyword("");
        if m { return Some(TOK_Y); }
      }
      if ch == 'n' {
        m := CheckKeyword("");
        if m { return Some(TOK_N); }
      }
      if ch == 's' {
        m := CheckKeyword("ource");
      }
      if !m && ch == 'i' {
        m := CheckKeyword("nclude");
      }
      if m {
        return Some(TOK_SOURCE);
      }
      return None;
    }

    /** source FILENAME / include FILENAME, exactly as FileNameAt: after
        the keyword, skip whitespace (newlines included) and take the rest
        of that line.  Skipping past the end of the buffer is Python's
        IndexError. */
    method ScanFileName() returns (r: Result<Option<Tok>>)
      requires Terminated(src) && linePos <= pos < |src| && pos < cursor < |src|
      requires || (src[pos] == 's' && KeywordAt(src, pos + 1, "ource") && cursor == pos + 6)
               || (src[pos] == 'i' && KeywordAt(src, pos + 1, "nclude") && cursor == pos + 7)
      modifies this`cursor, this`val
      ensures match FileNameAt(src, pos, old(cursor))
              case Read(t, c, v) => r == Ok(Some(t)) && cursor == c && val == v
              case _ => r == Err(IndexError)
    {
      while cursor < |src| && IsSpace(src[cursor])
        invariant old(cursor) <= cursor <= |src|
        invariant SkipSpaces(src, cursor) == SkipSpaces(src, old(cursor))
        decreases |src| - cursor
      {
        cursor := cursor + 1;
      }
      if cursor == |src| {
        return Err(IndexError);
      }
      var start := cursor;
      cursor := FindNewline(src, cursor);
      val := Some(src[start..cursor]);
      return Ok(Some(TOK_SOURCE));
    }

    // -------------------------------------------------------------------
    // Recursive descent parser
    // -------------------------------------------------------------------

    /** y_or_n: Y | N */
    method ParseYOrN() returns (r: Result<bool>)
      requires Ready(Scan())
      modifies this`tok, this`pos, this`cursor, this`line, this`linePos, this`val, data`consumed
      ensures EndsWith(r, YOrN(Context(), old(State())))
    {
      if tok == TOK_Y {
        var _ :- GetToken();
        return Ok(true);
      }
      if tok == TOK_N {
        var _ :- GetToken();
        return Ok(false);
      }
      var f := ErrorHere("Expected \"y\" or \"n\"", None);
      return Err(f);
    }

    /** var: ID, reported to do_var once the next token is read. */
    method ParseVar() returns (r: Result<string>)
      requires Ready(Scan())
      modifies this`tok, this`pos, this`cursor, this`line, this`linePos, this`val, data`consumed, data`referencedVars
      ensures EndsWith(r, Var(Context(), old(State())))
    {
      if tok == TOK_ID {
        var name := val.value;
        var _ :- GetToken();
        var v := data.DoVar(name);
        return Ok(v);
      }
      var f := ErrorHere("Expected identifier", None);
      return Err(f);
    }

    /** assignment_var: ID starting with "CONFIG_"; the symbol is the rest
        of the identifier. */
    method ParseAssignmentVar() returns (r: Result<string>)
      requires Ready(Scan())
      modifies this`tok, this`pos, this`cursor, this`line, this`linePos, this`val, data`consumed, data`referencedVars
      ensures EndsWith(r, AssignmentVar(Context(), old(State())))
    {
      if tok == TOK_ID {
        var name := AssignmentName(val.value);
        if name.None? {
          var f := ErrorHere("Expected identifier starting with \"CONFIG_\"", Some(TOK_NONE));
          return Err(f);
        }
        var _ :- GetToken();
        var v := data.DoVar(name.value);
        return Ok(v);
      }
      var f := ErrorHere("Expected identifier", None);
      return Err(f);
    }

    /** assignment: var EQUAL y_or_n */
    method ParseAssignment() returns (r: Result<()>)
      requires Ready(Scan())
      modifies this`tok, this`pos, this`cursor, this`line, this`linePos, this`val, data`consumed, data`referencedVars
      ensures Ends(r, Assignment(Context(), old(State())))
    {
      var name :- ParseAssignmentVar();
      ghost var p1 := State();
      if tok != TOK_EQUAL {
        var f := ErrorHere("Expected \"=\"", None);
        return Err(f);
      }
      var _ :- GetToken();
      var value :- ParseYOrN();
      data.DoAssignment(name, value);
      assert AssignmentValue(Context(), p1) == Ok((State(), value));
      return Ok(());
    }

    /** primary: NOT primary | LPAREN expr RPAREN | var */
    method ParsePrimary() returns (r: Result<()>)
      requires Ready(Scan())
      modifies this`tok, this`pos, this`cursor, this`line, this`linePos, this`val, data`consumed, data`referencedVars
      decreases |src| - cursor, 0
      ensures Ends(r, Primary(Context(), old(State())))
    {
      if tok == TOK_NOT {
        var _ :- GetToken();
        var _ :- ParsePrimary();
      } else if tok == TOK_LPAREN {
        var _ :- GetToken();
        var _ :- ParseExpr();
        if tok != TOK_RPAREN {
          var f := ErrorHere("Expected \")\"", None);
          return Err(f);
        }
        var _ :- GetToken();
      } else if tok == TOK_ID {
        var _ :- ParseVar();
      } else {
        var f := ErrorHere("Expected \"!\" or \"(\" or identifier", None);
        return Err(f);
      }
      return Ok(());
    }

    /** disj: primary (OR primary)* */
    method ParseDisj() returns (r: Result<()>)
      requires Ready(Scan())
      modifies this`tok, this`pos, this`cursor, this`line, this`linePos, this`val, data`consumed, data`referencedVars
      decreases |src| - cursor, 1
      ensures Ends(r, Disj(Context(), old(State())))
    {
      var _ :- ParsePrimary();
      while tok == TOK_OR
        invariant Ready(Scan()) && cursor > old(cursor)
        invariant Disj(Context(), old(State())) == DisjTail(Context(), State())
        decreases |src| - cursor
      {
        var _ :- GetToken();
        var _ :- ParsePrimary();
      }
      return Ok(());
    }

    /** expr: disj (AND disj)* */
    method ParseExpr() returns (r: Result<()>)
      requires Ready(Scan())
      modifies this`tok, this`pos, this`cursor, this`line, this`linePos, this`val, data`consumed, data`referencedVars
      decreases |src| - cursor, 2
      ensures Ends(r, Expr(Context(), old(State())))
    {
      var _ :- ParseDisj();
      while tok == TOK_AND
        invariant Ready(Scan()) && cursor > old(cursor)
        invariant Expr(Context(), old(State())) == ExprTail(Context(), State())
        decreases |src| - cursor
      {
        var _ :- GetToken();
        var _ :- ParseDisj();
      }
      return Ok(());
    }

    /** condition: IF expr | empty */
    method ParseCondition() returns (r: Result<()>)
      requires Ready(Scan())
      modifies this`tok, this`pos, this`cursor, this`line, this`linePos, this`val, data`consumed, data`referencedVars
      ensures Ends(r, Condition(Context(), old(State())))
    {
      if tok == TOK_IF {
        var _ :- GetToken();
        var _ :- ParseExpr();
      }
      return Ok(());
    }

    /** property: DEFAULT y_or_n condition | DEPENDS ON expr
                | SELECT var condition | BOOL */
    method ParseProperty(name: string) returns (r: Result<()>)
      requires Ready(Scan())
      modifies this`tok, this`pos, this`cursor, this`line, this`linePos, this`val, data`consumed, data`referencedVars
      ensures Ends(r, Property(Context(), old(State())))
    {
      ghost var p := State();
      if tok == TOK_DEFAULT {
        assert Property(Context(), p) == DefaultProperty(Context(), p);
        var _ :- GetToken();
        var value :- ParseYOrN();
        var _ :- ParseCondition();
        data.DoDefault(name, value);
      } else if tok == TOK_DEPENDS {
        assert Property(Context(), p) == DependsProperty(Context(), p);
        var _ :- GetToken();
        if tok != TOK_ON {
          var f := ErrorHere("Expected \"on\"", None);
          return Err(f);
        }
        var _ :- GetToken();
        var _ :- ParseExpr();
        data.DoDependsOn(name);
      } else if tok == TOK_SELECT {
        assert Property(Context(), p) == SelectProperty(Context(), p);
        var _ :- GetToken();
        var symbol :- ParseVar();
        var _ :- ParseCondition();
        data.DoSelect(name, symbol);
      } else if tok == TOK_BOOL {
        var _ :- GetToken();
      } else {
        var f := ErrorHere("Error in recursive descent?", None);
        return Err(f);
      }
      return Ok(());
    }

    /** properties: property*, which must be followed by a token that can
        start a clause. */
    method ParseProperties(name: string) returns (r: Result<()>)
      requires Ready(Scan())
      modifies this`tok, this`pos, this`cursor, this`line, this`linePos, this`val, data`consumed, data`referencedVars
      ensures Ends(r, Properties(Context(), old(State())))
    {
      while StartsProperty(tok)
        invariant Ready(Scan())
        invariant PropertyList(Context(), old(State())) == PropertyList(Context(), State())
        decreases |src| - cursor
      {
        var _ :- ParseProperty(name);
      }
      data.DoDefault(name, false);
      if !ClauseFollow(tok) {
        var f := ErrorHere(PROPERTIES_FOLLOW, None);
        return Err(f);
      }
      return Ok(());
    }

    /** declaration: config var properties. The declared name is first
        referenced by var, then declared. */
    method ParseDeclaration() returns (r: Result<()>)
      requires Ready(Scan())
      modifies this`tok, this`pos, this`cursor, this`line, this`linePos, this`val
      modifies data`consumed, data`referencedVars, data`definedVars
      ensures Ends(r, Declaration(Context(), old(State())))
    {
      if tok != TOK_CONFIG {
        var f := ErrorHere("Error in recursive descent?", None);
        return Err(f);
      }
      var _ :- GetToken();
      ghost var p1 := State();
      var name :- ParseVar();
      var _ :- data.DoDeclaration(name);
      assert State() == PState(Scan(), DeclaredTable(p1));
      r := ParseProperties(name);
    }

    /** clause: SOURCE | declaration | assignment */
    method ParseClause(depth: nat) returns (r: Result<()>)
      requires Ready(Scan())
      modifies this`tok, this`pos, this`cursor, this`line, this`linePos, this`val, data
      decreases depth, 1
      ensures Ends(r, Clause(Context(), old(State()), depth))
      ensures Atop(data.inclInfo, old(data.inclInfo))
    {
      if tok == TOK_SOURCE {
        var directive := val.value;
        var _ :- GetToken();
        r := DoInclude(directive, depth);
      } else if tok == TOK_CONFIG {
        r := ParseDeclaration();
      } else if tok == TOK_ID {
        r := ParseAssignment();
      } else {
        var f := ErrorHere("expected \"source\", \"config\" or identifier", None);
        return Err(f);
      }
    }

    /** config: clause+ EOF (a file without clauses is accepted as well). */
    method ParseConfig(depth: nat) returns (r: Result<()>)
      requires Ready(Scan())
      modifies this`tok, this`pos, this`cursor, this`line, this`linePos, this`val, data
      decreases depth, 2
      ensures Ends(r, Config(Context(), old(State()), depth))
      ensures Atop(data.inclInfo, old(data.inclInfo))
    {
      while tok != TOK_EOF
        invariant Ready(Scan()) && data.inclInfo == old(data.inclInfo)
        invariant Config(Context(), old(State()), depth) == Config(Context(), State(), depth)
        decreases |src| - cursor
      {
        var _ :- ParseClause(depth);
      }
      return Ok(());
    }

    /** parse_file: records the file as included, appends a newline when
        the text does not end in one, reads the first token and parses. */
    method ParseFile(name: string, contents: string, depth: nat) returns (r: Result<()>)
      requires tok == TOK_NONE
      modifies this, data
      decreases depth, 3
      ensures fname == name && absFname == env.abspath(name)
      ensures Ends(r, File(env, name, contents, depth, old(data.Snapshot())))
      ensures Atop(data.inclInfo, old(data.inclInfo))
    {
      Open(name, contents);
      var _ :- GetToken();
      r := ParseConfig(depth);
    }

    /** The first half of parse_file: the parser is pointed at the start of
        the text, before its first token. */
    method Open(name: string, contents: string)
      requires tok == TOK_NONE
      modifies this`fname, this`absFname, this`src, this`cursor, this`line, this`linePos, data`previouslyIncluded
      ensures Context() == Ctx(env, name, env.abspath(name))
      ensures State() == PState(Scanner(Normalize(contents), 0, pos, 1, 0, TOK_NONE, val),
                                Opened(env, name, old(data.Snapshot())))
    {
      absFname := env.abspath(name);
      fname := name;
      data.previouslyIncluded := data.previouslyIncluded + [absFname];
      src := Normalize(contents);
      cursor := 0;
      line := 1;
      linePos := 0;
    }

    /** do_include: rejects a file already on the include chain, skips one
        included before, and otherwise parses it with a new parser sharing
        this one's data, recording the current file and line as the frame.
        The frame is popped only when the included file parses; a failure
        leaves it, and whatever the included file pushed, on the chain. */
    method DoInclude(directive: string, depth: nat) returns (r: Result<()>)
      requires Ready(Scan())
      modifies data
      decreases depth, 0
      ensures Ends(r, Include(Context(), old(State()), directive, depth))
      ensures Atop(data.inclInfo, old(data.inclInfo))
      ensures var target := IncludeTarget(env, absFname, directive);
              !InclusionLoop(env, old(data.inclInfo), target) && target in old(data.previouslyIncluded) ==>
                r == Ok(()) && unchanged(data)
      ensures var target := IncludeTarget(env, absFname, directive);
              && !InclusionLoop(env, old(data.inclInfo), target) && target !in old(data.previouslyIncluded)
              && target in env.files && depth > 0 && r.Err? ==>
                Atop(data.inclInfo, Included(fname, line, old(data.inclInfo)))
    {
      ghost var p := State();
      var target := IncludeTarget(env, absFname, directive);
      var inf := data.inclInfo;
      while inf.Included?
        invariant InclusionLoop(env, data.inclInfo, target) == InclusionLoop(env, inf, target)
        decreases inf
      {
        if target == env.abspath(inf.file) {
          var f := ErrorHere("Inclusion loop for " + directive, None);
          return Err(f);
        }
        inf := inf.parent;
      }
      if target in data.previouslyIncluded {
        return Ok(());
      }
      if target !in env.files {
        var f := ErrorHere(NO_SUCH_FILE + ": " + directive, None);
        return Err(f);
      }
      if depth == 0 {
        return Err(RecursionLimit);
      }
      var frame := data.inclInfo;
      data.inclInfo := Included(fname, line, frame);
      ghost var framed := data.Snapshot();
      var included := new KconfigParser(data, env);
      r := included.ParseFile(target, env.files[target], depth - 1);
      ghost var inner := File(env, target, env.files[target], depth - 1, framed);
      if r.Err? {
        AtopParent(data.inclInfo, fname, line, frame);
        assert inner == Err(r.failure);
        return;
      }
      data.inclInfo := frame;
      assert data.Snapshot() == inner.value.tb.(inclInfo := p.tb.inclInfo);
    }

    /** KconfigParser.parse: parses a top-level file with a fresh symbol
        table and fails when a referenced symbol was never declared; the
        table it returns is the one Parsed describes. */
    static method Parse(env: PathEnv, name: string, contents: string, maxDepth: nat)
      returns (r: Result<KconfigData>)
      ensures match Parsed(env, name, contents, maxDepth)
              case Err(f) => r == Err(f)
              case Ok(t) => r.Ok? && fresh(r.value) && r.value.Snapshot() == t
    {
      var data := new KconfigData();
      var parser := new KconfigParser(data, env);
      var parsed := parser.ParseFile(name, contents, maxDepth);
      if parsed.Err? {
        return Err(parsed.failure);
      }
      var undef, _ := data.CheckUndefined();
      if undef {
        var f := parser.ErrorHere("there were undefined symbols", None);
        return Err(f);
      }
      return Ok(data);
    }
  }
}
