/**
 * Two small Kconfig files run through the grammar: a symbol that is only
 * referenced makes the parse fail, a declared one makes it succeed with
 * exactly the expected symbol table.  Each lemma evaluates one token or
 * one rule, so that every proof stays small.
 */
module KconfigExamples {
  import opened Wrappers
  import opened KconfigLexicon
  import opened KconfigSemantics
  import opened KconfigGrammar

  const BOOL_FILE := "config FOO\n  bool\n"
  const DEPENDS_FILE := "config FOO\n  depends on BAR\n"

  /** Both files are parsed as the top-level file K. */
  function TopContext(env: PathEnv): Ctx {
    Ctx(env, "K", env.abspath("K"))
  }

  /** get_token from a state whose next token is known. */
  lemma NextIs(ctx: Ctx, p: PState, sc: Scanner)
    requires Scannable(p.sc) && Lex(Where(ctx, p.tb), p.sc.src, p.sc.cursor, p.sc.line, p.sc.linePos) == Ok(sc)
    ensures Next(ctx, p) == Ok(PState(sc, p.tb.(consumed := p.tb.consumed + Consumed(p.sc))))
  {
  }

  /** var on an identifier whose successor is known. */
  lemma VarIs(ctx: Ctx, p: PState, q: PState)
    requires Ready(p.sc) && p.sc.tok == TOK_ID && Next(ctx, p) == Ok(q)
    ensures Var(ctx, p) == Ok((PState(q.sc, q.tb.(referenced := q.tb.referenced + {p.sc.val.value})), p.sc.val.value))
  {
  }

  /** A newline before a token counts one line, and the token's line
      starts after it. */
  lemma NewlineBeforeEqual(w: string, line: nat)
    ensures Lex(w, "\n=\n", 0, line, 0) == Ok(Scanner("\n=\n", 2, 1, line + 1, 1, TOK_EQUAL, None))
  {
    var src := "\n=\n";
    assert ScanAt(src, 0, line, 0) == Skip(1, line + 1, 1);
    assert ScanAt(src, 1, line + 1, 1) == Read(TOK_EQUAL, 2, None);
  }

  // ---------------------------------------------------------------------
  // The first line, the same in both files
  // ---------------------------------------------------------------------

  /** `config` at the start of a file that begins with "config FOO\n". */
  lemma ConfigToken(w: string, src: string)
    requires Terminated(src) && |src| > 11 && src[..11] == "config FOO\n"
    ensures Lex(w, src, 0, 1, 0) == Ok(Scanner(src, 6, 0, 1, 0, TOK_CONFIG, None))
  {
    assert src[1..6] == src[..11][1..6] == "onfig";
    assert src[6] == src[..11][6];
    assert KeywordMatch(src, 0) == Some(TOK_CONFIG);
  }

  /** `FOO` after it. */
  lemma FooToken(w: string, src: string)
    requires Terminated(src) && |src| > 11 && src[..11] == "config FOO\n"
    ensures Lex(w, src, 6, 1, 0) == Ok(Scanner(src, 10, 7, 1, 0, TOK_ID, Some("FOO")))
  {
    assert src[7..10] == src[..11][7..10] == "FOO";
    assert src[6] == src[..11][6] && src[10] == src[..11][10];
    assert ScanAt(src, 6, 1, 0) == Skip(7, 1, 0);
    assert KeywordMatch(src, 7) == None;
    assert IdentEnd(src, 8) == 10;
    assert ScanAt(src, 7, 1, 0) == Read(TOK_ID, 10, Some("FOO"));
  }

  /** The newline and the indentation of the second line. */
  lemma SecondLineIndent(w: string, src: string)
    requires Terminated(src) && |src| > 13 && src[..13] == "config FOO\n  "
    ensures Lex(w, src, 10, 1, 0) == Lex(w, src, 13, 2, 11)
  {
    assert src[10] == src[..13][10] && src[11] == src[..13][11] && src[12] == src[..13][12];
    assert ScanAt(src, 10, 1, 0) == Skip(11, 2, 11);
    assert ScanAt(src, 11, 2, 11) == Skip(12, 2, 11);
    assert ScanAt(src, 12, 2, 11) == Skip(13, 2, 11);
    assert Lex(w, src, 12, 2, 11) == Lex(w, src, 13, 2, 11);
    assert Lex(w, src, 11, 2, 11) == Lex(w, src, 12, 2, 11);
  }

  /** The file K opened and its first token read. */
  lemma FirstToken(env: PathEnv, src: string)
    requires Terminated(src) && |src| > 11 && src[..11] == "config FOO\n"
    ensures Next(TopContext(env), PState(Scanner(src, 0, 0, 1, 0, TOK_NONE, None), Opened(env, "K", EMPTY_TABLE)))
            == Ok(PState(Scanner(src, 6, 0, 1, 0, TOK_CONFIG, None), Opened(env, "K", EMPTY_TABLE)))
  {
    var ctx := TopContext(env);
    var t0 := Opened(env, "K", EMPTY_TABLE);
    ConfigToken(Where(ctx, t0), src);
    assert t0.consumed + [] == t0.consumed;
  }

  /** `config` consumed, `FOO` read. */
  lemma SecondToken(env: PathEnv, src: string)
    requires Terminated(src) && |src| > 11 && src[..11] == "config FOO\n"
    ensures Next(TopContext(env), PState(Scanner(src, 6, 0, 1, 0, TOK_CONFIG, None), Opened(env, "K", EMPTY_TABLE)))
            == Ok(PState(Scanner(src, 10, 7, 1, 0, TOK_ID, Some("FOO")),
                         Opened(env, "K", EMPTY_TABLE).(consumed := [Lexeme(TOK_CONFIG, None)])))
  {
    var ctx := TopContext(env);
    var t0 := Opened(env, "K", EMPTY_TABLE);
    FooToken(Where(ctx, t0), src);
    assert t0.consumed + [Lexeme(TOK_CONFIG, None)] == [Lexeme(TOK_CONFIG, None)];
  }

  /** The table once `config FOO` is declared. */
  function FooDeclared(env: PathEnv): Table {
    Table([env.abspath("K")], NoInclude, {"FOO"}, {"FOO"}, [Lexeme(TOK_CONFIG, None), Lexeme(TOK_ID, Some("FOO"))])
  }

  lemma FooDeclaredTable(env: PathEnv, src: string)
    ensures DeclaredTable(PState(Scanner(src, 10, 7, 1, 0, TOK_ID, Some("FOO")),
                                 Opened(env, "K", EMPTY_TABLE).(consumed := [Lexeme(TOK_CONFIG, None)])))
            == FooDeclared(env)
  {
  }

  /** From the start of the file to the end, through the declaration. */
  lemma WholeFile(env: PathEnv, src: string, q: PState)
    requires Terminated(src) && |src| > 11 && src[..11] == "config FOO\n"
    requires Ready(q.sc) && q.sc.tok == TOK_EOF
    ensures var p1 := PState(Scanner(src, 6, 0, 1, 0, TOK_CONFIG, None), Opened(env, "K", EMPTY_TABLE));
            Ready(p1.sc) && Declaration(TopContext(env), p1) == Ok(q) ==> File(env, "K", src, 5, EMPTY_TABLE) == Ok(q)
  {
    var p1 := PState(Scanner(src, 6, 0, 1, 0, TOK_CONFIG, None), Opened(env, "K", EMPTY_TABLE));
    if Ready(p1.sc) && Declaration(TopContext(env), p1) == Ok(q) {
      assert Normalize(src) == src;
      FirstToken(env, src);
      assert Clause(TopContext(env), p1, 5) == Ok(q);
      assert Config(TopContext(env), q, 5) == Ok(q);
    }
  }

  /** The declaration of FOO up to the properties. */
  lemma DeclarationOfFoo(env: PathEnv, src: string, sc: Scanner, q: PState)
    ensures var p1 := PState(Scanner(src, 6, 0, 1, 0, TOK_CONFIG, None), Opened(env, "K", EMPTY_TABLE));
            && Ready(p1.sc)
            && Next(TopContext(env), p1) == Ok(PState(Scanner(src, 10, 7, 1, 0, TOK_ID, Some("FOO")),
                                                      Opened(env, "K", EMPTY_TABLE).(consumed := [Lexeme(TOK_CONFIG, None)])))
            && Lex(Where(TopContext(env), FooDeclared(env)), src, 10, 1, 0) == Ok(sc)
            && Properties(TopContext(env), PState(sc, FooDeclared(env))) == Ok(q)
            ==> Declaration(TopContext(env), p1) == Ok(q)
  {
    FooDeclare(env, src, sc, q);
  }

  /** `FOO` read and declared, then the properties. */
  lemma FooDeclare(env: PathEnv, src: string, sc: Scanner, q: PState)
    ensures var p2 := PState(Scanner(src, 10, 7, 1, 0, TOK_ID, Some("FOO")),
                             Opened(env, "K", EMPTY_TABLE).(consumed := [Lexeme(TOK_CONFIG, None)]));
            && Ready(p2.sc)
            && Lex(Where(TopContext(env), FooDeclared(env)), src, 10, 1, 0) == Ok(sc)
            && Properties(TopContext(env), PState(sc, FooDeclared(env))) == Ok(q)
            ==> Declare(TopContext(env), p2) == Ok(q)
  {
    var ctx := TopContext(env);
    var p2 := PState(Scanner(src, 10, 7, 1, 0, TOK_ID, Some("FOO")),
                     Opened(env, "K", EMPTY_TABLE).(consumed := [Lexeme(TOK_CONFIG, None)]));
    if Ready(p2.sc) && Lex(Where(ctx, FooDeclared(env)), src, 10, 1, 0) == Ok(sc) {
      FooDeclaredTable(env, src);
      assert Where(ctx, p2.tb) == Where(ctx, FooDeclared(env));
      NextIs(ctx, p2, sc);
      VarIs(ctx, p2, PState(sc, p2.tb.(consumed := p2.tb.consumed + Consumed(p2.sc))));
    }
  }

  // ---------------------------------------------------------------------
  // config FOO / bool
  // ---------------------------------------------------------------------

  function BoolAtEnd(env: PathEnv): PState {
    PState(Scanner(BOOL_FILE, 18, 17, 2, 11, TOK_EOF, None),
           FooDeclared(env).(consumed := FooDeclared(env).consumed + [Lexeme(TOK_BOOL, None)]))
  }

  lemma BoolKeyword()
    ensures ScanAt(BOOL_FILE, 13, 2, 11) == Read(TOK_BOOL, 17, None)
  {
    assert BOOL_FILE[14..17] == "ool";
    assert KeywordAt(BOOL_FILE, 14, "ool");
    assert KeywordMatch(BOOL_FILE, 13) == Some(TOK_BOOL);
    assert |FixedText(TOK_BOOL)| == 4;
  }

  lemma BoolToken(w: string)
    ensures Lex(w, BOOL_FILE, 10, 1, 0) == Ok(Scanner(BOOL_FILE, 17, 13, 2, 11, TOK_BOOL, None))
  {
    assert BOOL_FILE[..13] == "config FOO\n  ";
    SecondLineIndent(w, BOOL_FILE);
    BoolKeyword();
  }

  /** The property `bool`, then the end of the file. */
  lemma BoolProperties(env: PathEnv)
    ensures Ready(Scanner(BOOL_FILE, 17, 13, 2, 11, TOK_BOOL, None))
    ensures Properties(TopContext(env), PState(Scanner(BOOL_FILE, 17, 13, 2, 11, TOK_BOOL, None), FooDeclared(env)))
            == Ok(BoolAtEnd(env))
  {
    var ctx := TopContext(env);
    BoolKeyword();
    var p3 := PState(Scanner(BOOL_FILE, 17, 13, 2, 11, TOK_BOOL, None), FooDeclared(env));
    assert Lex(Where(ctx, p3.tb), BOOL_FILE, 17, 2, 11) == Ok(BoolAtEnd(env).sc);
    NextIs(ctx, p3, BoolAtEnd(env).sc);
    assert Property(ctx, p3) == Ok(BoolAtEnd(env));
    assert PropertyList(ctx, BoolAtEnd(env)) == Ok(BoolAtEnd(env));
  }

  lemma BoolFile(env: PathEnv)
    ensures File(env, "K", BOOL_FILE, 5, EMPTY_TABLE) == Ok(BoolAtEnd(env))
  {
    var ctx := TopContext(env);
    var sc := Scanner(BOOL_FILE, 17, 13, 2, 11, TOK_BOOL, None);
    BoolToken(Where(ctx, FooDeclared(env)));
    BoolProperties(env);
    FirstToken(env, BOOL_FILE);
    SecondToken(env, BOOL_FILE);
    DeclarationOfFoo(env, BOOL_FILE, sc, BoolAtEnd(env));
    WholeFile(env, BOOL_FILE, BoolAtEnd(env));
  }

  /** `config FOO` with a `bool` property declares FOO and references it,
      and nothing else. */
  lemma BoolDeclarationParses(env: PathEnv)
    ensures Parsed(env, "K", BOOL_FILE, 5)
            == Ok(Table([env.abspath("K")], NoInclude, {"FOO"}, {"FOO"},
                        [Lexeme(TOK_CONFIG, None), Lexeme(TOK_ID, Some("FOO")), Lexeme(TOK_BOOL, None)]))
  {
    BoolFile(env);
    var q := BoolAtEnd(env);
    assert q.tb.referenced <= q.tb.defined;
    assert Parsed(env, "K", BOOL_FILE, 5) == Ok(q.tb);
    assert q.tb.consumed == [Lexeme(TOK_CONFIG, None), Lexeme(TOK_ID, Some("FOO")), Lexeme(TOK_BOOL, None)];
  }

  // ---------------------------------------------------------------------
  // config FOO / depends on BAR
  // ---------------------------------------------------------------------

  lemma DependsKeyword()
    ensures ScanAt(DEPENDS_FILE, 13, 2, 11) == Read(TOK_DEPENDS, 20, None)
  {
    assert DEPENDS_FILE[14..20] == "epends";
    assert KeywordAt(DEPENDS_FILE, 14, "epends");
    assert KeywordMatch(DEPENDS_FILE, 13) == Some(TOK_DEPENDS);
    assert |FixedText(TOK_DEPENDS)| == 7;
  }

  lemma DependsToken(w: string)
    ensures Lex(w, DEPENDS_FILE, 10, 1, 0) == Ok(Scanner(DEPENDS_FILE, 20, 13, 2, 11, TOK_DEPENDS, None))
  {
    assert DEPENDS_FILE[..13] == "config FOO\n  ";
    SecondLineIndent(w, DEPENDS_FILE);
    DependsKeyword();
  }

  lemma OnToken(w: string)
    ensures Lex(w, DEPENDS_FILE, 20, 2, 11) == Ok(Scanner(DEPENDS_FILE, 23, 21, 2, 11, TOK_ON, None))
  {
    var src := DEPENDS_FILE;
    assert ScanAt(src, 20, 2, 11) == Skip(21, 2, 11);
    assert src[22..23] == "n";
    assert KeywordMatch(src, 21) == Some(TOK_ON);
  }

  lemma BarToken(w: string)
    ensures Lex(w, DEPENDS_FILE, 23, 2, 11) == Ok(Scanner(DEPENDS_FILE, 27, 24, 2, 11, TOK_ID, Some("BAR")))
  {
    var src := DEPENDS_FILE;
    assert ScanAt(src, 23, 2, 11) == Skip(24, 2, 11);
    assert KeywordMatch(src, 24) == None;
    assert IdentEnd(src, 25) == 27;
    assert src[24..27] == "BAR";
    assert ScanAt(src, 24, 2, 11) == Read(TOK_ID, 27, Some("BAR"));
  }

  lemma DependsEndToken(w: string)
    ensures Lex(w, DEPENDS_FILE, 27, 2, 11) == Ok(Scanner(DEPENDS_FILE, 28, 27, 2, 11, TOK_EOF, None))
  {
  }

  /** The table after `depends on`, and at the end of the file. */
  function AfterOn(env: PathEnv): Table {
    FooDeclared(env).(consumed := FooDeclared(env).consumed + [Lexeme(TOK_DEPENDS, None), Lexeme(TOK_ON, None)])
  }

  function DependsAtEnd(env: PathEnv): PState {
    PState(Scanner(DEPENDS_FILE, 28, 27, 2, 11, TOK_EOF, None),
           AfterOn(env).(consumed := AfterOn(env).consumed + [Lexeme(TOK_ID, Some("BAR"))],
                         referenced := {"FOO", "BAR"}))
  }

  /** The expression `BAR`. */
  lemma BarExpr(env: PathEnv)
    ensures var p := PState(Scanner(DEPENDS_FILE, 27, 24, 2, 11, TOK_ID, Some("BAR")), AfterOn(env));
            Ready(p.sc) && Expr(TopContext(env), p) == Ok(DependsAtEnd(env))
  {
    var ctx := TopContext(env);
    var p5 := PState(Scanner(DEPENDS_FILE, 27, 24, 2, 11, TOK_ID, Some("BAR")), AfterOn(env));
    assert DEPENDS_FILE[24..27] == "BAR";
    var p6 := DependsAtEnd(env);
    DependsEndToken(Where(ctx, p5.tb));
    NextIs(ctx, p5, p6.sc);
    assert AfterOn(env).consumed + [Lexeme(TOK_ID, Some("BAR"))] == p6.tb.consumed;
    assert AfterOn(env).referenced + {"BAR"} == {"FOO", "BAR"};
    assert Var(ctx, p5) == Ok((p6, "BAR"));
    assert Primary(ctx, p5) == Ok(p6);
    assert Disj(ctx, p5) == Ok(p6);
  }

  /** The property `depends on BAR`. */
  lemma DependsProperty(env: PathEnv)
    ensures Ready(Scanner(DEPENDS_FILE, 20, 13, 2, 11, TOK_DEPENDS, None))
    ensures Property(TopContext(env), PState(Scanner(DEPENDS_FILE, 20, 13, 2, 11, TOK_DEPENDS, None), FooDeclared(env)))
            == Ok(DependsAtEnd(env))
  {
    var ctx := TopContext(env);
    DependsKeyword();
    var p3 := PState(Scanner(DEPENDS_FILE, 20, 13, 2, 11, TOK_DEPENDS, None), FooDeclared(env));
    var s4 := Scanner(DEPENDS_FILE, 23, 21, 2, 11, TOK_ON, None);
    OnToken(Where(ctx, p3.tb));
    NextIs(ctx, p3, s4);
    var p4 := PState(s4, FooDeclared(env).(consumed := FooDeclared(env).consumed + [Lexeme(TOK_DEPENDS, None)]));
    var s5 := Scanner(DEPENDS_FILE, 27, 24, 2, 11, TOK_ID, Some("BAR"));
    BarToken(Where(ctx, p4.tb));
    NextIs(ctx, p4, s5);
    assert p4.tb.consumed + [Lexeme(TOK_ON, None)] == AfterOn(env).consumed;
    BarExpr(env);
  }

  lemma DependsProperties(env: PathEnv)
    ensures Ready(Scanner(DEPENDS_FILE, 20, 13, 2, 11, TOK_DEPENDS, None))
    ensures Properties(TopContext(env), PState(Scanner(DEPENDS_FILE, 20, 13, 2, 11, TOK_DEPENDS, None), FooDeclared(env)))
            == Ok(DependsAtEnd(env))
  {
    DependsProperty(env);
    assert PropertyList(TopContext(env), DependsAtEnd(env)) == Ok(DependsAtEnd(env));
  }

  lemma DependsFile(env: PathEnv)
    ensures File(env, "K", DEPENDS_FILE, 5, EMPTY_TABLE) == Ok(DependsAtEnd(env))
  {
    var ctx := TopContext(env);
    DependsToken(Where(ctx, FooDeclared(env)));
    DependsProperties(env);
    FirstToken(env, DEPENDS_FILE);
    SecondToken(env, DEPENDS_FILE);
    DeclarationOfFoo(env, DEPENDS_FILE, Scanner(DEPENDS_FILE, 20, 13, 2, 11, TOK_DEPENDS, None), DependsAtEnd(env));
    WholeFile(env, DEPENDS_FILE, DependsAtEnd(env));
  }

  /** A `depends on` naming a symbol no clause declares makes the parse
      fail at the end of the file. */
  lemma UndeclaredDependencyFails(env: PathEnv)
    ensures var r := Parsed(env, "K", DEPENDS_FILE, 5);
            r.Err? && r.failure.ParserError? && r.failure.msg == "there were undefined symbols before end of file"
  {
    DependsFile(env);
    assert "BAR" !in DependsAtEnd(env).tb.defined;
  }

  // ---------------------------------------------------------------------
  // source directives that name a file already being parsed
  // ---------------------------------------------------------------------

  /** The file being parsed is on the included list but not on the include
      chain, so a directive naming the top-level file itself is skipped
      rather than reported as a loop. */
  lemma SelfSourceIsSkipped(ctx: Ctx, p: PState, directive: string, depth: nat)
    requires Ready(p.sc) && p.tb.inclInfo == NoInclude && p.tb.previouslyIncluded == [ctx.absFname]
    requires IncludeTarget(ctx.env, ctx.absFname, directive) == ctx.absFname
    ensures Include(ctx, p, directive, depth) == Ok(p)
  {
  }

  /** A directive naming the file that included the current one is an
      inclusion loop, reported at the directive. */
  lemma SourcingTheIncluderLoops(ctx: Ctx, p: PState, directive: string, depth: nat, f: string, l: nat, up: InclInfo)
    requires Ready(p.sc) && p.tb.inclInfo == Included(f, l, up)
    requires IncludeTarget(ctx.env, ctx.absFname, directive) == ctx.env.abspath(f)
    ensures Include(ctx, p, directive, depth) == ErrorAt(ctx, p, "Inclusion loop for " + directive, None)
  {
  }
}
