/** What the reading of a shell command comes to, law by law: each says of a shape of text what its tokens
    are, without the lexer. */
module ShellLaws {
  import opened Prelude
  import opened Shell

  /** The control operators and redirections of one character. */
  predicate IsOne(c: char) { c in {';', '&', '|', '(', ')', '<', '>'} }

  /** Those of two, without the here-document: `&&`, `||`, `;;`, `>>`, `<&`, `<>`, `>&`, `>|`. */
  predicate IsTwo(c: char, d: char) {
    || (c == d && c in {'&', '|', ';', '>'})
    || (c == '<' && d in {'&', '>'})
    || (c == '>' && d in {'&', '|'})
  }

  const A := Literal("a")
  const B := Literal("b")

  lemma Letters()
    ensures A == Piece([Bare('a')], false) && B == Piece([Bare('b')], false)
  {
    assert IsSafe('a') && IsSafe('b');
    assert Mapped(ToBare, "a") == [Bare('a')] && Mapped(ToBare, "b") == [Bare('b')];
  }

  lemma ScanThree(l: Lexer, s: string, t: string, u: string)
    ensures Scan(l, s + t + u) == Scan(Scan(Scan(l, s), t), u)
  {
    ScanAppend(l, s + t, u);
    ScanAppend(l, s, t);
  }

  lemma Ends(s: string, tokens: seq<Token>, p: Piece)
    ensures Scan(START, s) == At(Plain, tokens, p) || Scan(START, s) == At(Param(Free), tokens, p) ==>
              Tokens(s) == Some(tokens + [Word(p)])
    ensures Scan(START, s) == At(Between, tokens, NONE) || Scan(START, s) == At(Comment, tokens, NONE) ==> Tokens(s) == Some(tokens)
    ensures Scan(START, s).control.context == Top && (Scan(START, s).control.mode in {Squote, Within(Double)} || Scan(START, s).control.mode.Escape?) ==>
              Tokens(s) == None
  {
    hide Scan;
  }

  lemma StartsWord(c: char)
    requires IsSafe(c)
    ensures Step(START, c) == At(Plain, [], Piece([Bare(c)], false))
  {
    StepSafe(START, c);
    hide Step;
    assert [] + [Bare(c)] == [Bare(c)];
  }

  lemma GoesOn(tokens: seq<Token>, c: char)
    requires IsSafe(c)
    ensures Step(At(Between, tokens, NONE), c) == At(Plain, tokens, Piece([Bare(c)], false))
    ensures forall text :: !IsHereDoc(text) && !Extends(text, c) ==>
              Step(At(Op(text), tokens, NONE), c) == At(Plain, tokens + [Operator(text)], Piece([Bare(c)], false))
  {
    UnquotedSafe(Between, Top, c);
    hide Unquoted;
    assert [] + [Bare(c)] == [Bare(c)];
  }

  lemma OperatorBegins(tokens: seq<Token>, c: char)
    requires IsOne(c)
    ensures Step(At(Plain, tokens, A), c) == At(Op([c]), tokens + [Word(A)], NONE)
  {
    Letters();
    assert A.atoms[0] == Bare('a') && !IsIoNumber(A);
  }

  lemma ScanA()
    ensures Scan(START, "a") == At(Plain, [], A)
  {
    Letters();
    assert IsSafe('a');
    StartsWord('a');
    ScanOne(START, 'a');
    hide Step, Scan;
  }

  lemma OperatorReads(op: string)
    requires Scan(At(Plain, [], A), op) == At(Op(op), [Word(A)], NONE) && !Extends(op, 'b') && !IsHereDoc(op)
    ensures Tokens("a" + op + "b") == Some([Word(A), Operator(op), Word(B)])
  {
    Letters();
    assert IsSafe('b');
    GoesOn([Word(A)], 'b');
    ScanOne(At(Op(op), [Word(A)], NONE), 'b');
    ScanA();
    ScanThree(START, "a", op, "b");
    hide Step, Scan, Finish, Tokens;
    Ends("a" + op + "b", [Word(A)] + [Operator(op)], B);
    assert [Word(A)] + [Operator(op)] + [Word(B)] == [Word(A), Operator(op), Word(B)];
  }

  /** Operators need no blanks around them, and the longest one is taken. */
  lemma OperatorsSeparate(c: char, d: char)
    requires IsOne(c)
    ensures Tokens("a" + [c] + "b") == Some([Word(A), Operator([c]), Word(B)])
    ensures IsTwo(c, d) ==> Tokens("a" + [c, d] + "b") == Some([Word(A), Operator([c, d]), Word(B)])
  {
    OperatorBegins([], c);
    ScanOne(At(Plain, [], A), c);
    assert [] + [Word(A)] == [Word(A)];
    OperatorsEnd(c, d);
    hide Step, Scan, Tokens;
    OperatorReads([c]);
    if IsTwo(c, d) {
      OperatorGoesOn(c, d);
      assert [c] + [d] == [c, d];
      ScanAppend(At(Plain, [], A), [c], [d]);
      ScanOne(At(Op([c]), [Word(A)], NONE), d);
      OperatorReads([c, d]);
    }
  }

  lemma OperatorsEnd(c: char, d: char)
    ensures !Extends([c], 'b') && !IsHereDoc([c]) && (IsTwo(c, d) ==> !Extends([c, d], 'b') && !IsHereDoc([c, d]))
  {
  }

  lemma OperatorGoesOn(c: char, d: char)
    requires IsTwo(c, d)
    ensures Step(At(Op([c]), [Word(A)], NONE), d) == At(Op([c, d]), [Word(A)], NONE)
  {
    assert Extends([c], d) && [c] + [d] == [c, d] && d != '\\';
    hide Unquoted;
  }

  /** Blanks and line ends separate words; of these only line ends are tokens. */
  lemma BlanksSeparate(c: char)
    ensures c == ' ' || c == '\t' ==> Tokens("a" + [c] + "b") == Some([Word(A), Word(B)])
    ensures c == '\n' ==> Tokens("a" + [c] + "b") == Some([Word(A), Newline, Word(B)])
  {
    if c == ' ' || c == '\t' || c == '\n' {
      Letters();
      assert IsSafe('a') && IsSafe('b');
      StartsWord('a');
      StepBlank(c);
      hide Step;
      ScanOne(START, 'a');
      ScanOne(At(Plain, [], A), c);
      var tokens := if c == '\n' then [Word(A), Newline] else [Word(A)];
      GoesOn(tokens, 'b');
      ScanOne(At(Between, tokens, NONE), 'b');
      ScanThree(START, "a", [c], "b");
      hide Step, Scan, Finish, Tokens;
      Ends("a" + [c] + "b", tokens, B);
      assert tokens + [Word(B)] == if c == '\n' then [Word(A), Newline, Word(B)] else [Word(A), Word(B)];
    }
  }

  lemma StepBlank(c: char)
    requires c == ' ' || c == '\t' || c == '\n'
    ensures Step(At(Plain, [], A), c) == At(Between, if c == '\n' then [Word(A), Newline] else [Word(A)], NONE)
  {
    hide IsIoNumber;
    assert [] + [Word(A)] == [Word(A)] && [Word(A)] + [Newline] == [Word(A), Newline];
  }

  /** Every other character but quotes is part of the word, `#` included; `*`, `?`, `[` and `~` act. */
  lemma OthersJoin(c: char)
    requires c !in {' ', '\t', '\n', ';', '&', '|', '(', ')', '<', '>', '\\', '\'', '"', '$', '`'}
    ensures Tokens("a" + [c] + "b")
            == Some([Word(Piece([Bare('a'), if c in {'*', '?', '[', '~'} then Act(c) else Bare(c), Bare('b')], false))])
  {
    Letters();
    assert IsSafe('a') && IsSafe('b');
    var atom := if c in {'*', '?', '[', '~'} then Act(c) else Bare(c);
    StartsWord('a');
    ScanOne(START, 'a');
    StepJoins(c, atom);
    ScanOne(At(Plain, [], A), c);
    var l := At(Plain, [], Piece([Bare('a'), atom], false));
    StepSafe(l, 'b');
    ScanOne(l, 'b');
    ScanThree(START, "a", [c], "b");
    var p := Piece([Bare('a'), atom, Bare('b')], false);
    assert [Bare('a'), atom] + [Bare('b')] == p.atoms;
    hide Step, Scan, Finish, Tokens;
    Ends("a" + [c] + "b", [], p);
    assert [] + [Word(p)] == [Word(p)];
  }

  lemma StepJoins(c: char, atom: Atom)
    requires c !in {' ', '\t', '\n', ';', '&', '|', '(', ')', '<', '>', '\\', '\'', '"', '$', '`'}
    requires atom == if c in {'*', '?', '[', '~'} then Act(c) else Bare(c)
    ensures Step(At(Plain, [], A), c) == At(Plain, [], Piece([Bare('a'), atom], false))
  {
    Letters();
    hide IsIoNumber;
    assert [Bare('a')] + [atom] == [Bare('a'), atom];
  }

  // ----- quoting --------------------------------------------------------------------------------

  lemma {:induction false} ScanQuotation(mode: Mode, p: Piece, s: string)
    requires p.quoted
    requires mode == Squote || mode == Within(Double)
    requires forall c :: c in s ==> c != '\'' && (mode == Within(Double) ==> c !in {'"', '$', '`', '\\'})
    ensures Scan(At(mode, [], p), s) == At(mode, [], Piece(p.atoms + Mapped(ToQuoted, s), true))
    decreases |s|
  {
    hide Step, Mapped;
    if s == "" {
      assert p.atoms + Mapped(ToQuoted, s) == p.atoms;
    } else {
      var c, rest := s[0], s[1..];
      assert s == [c] + rest && c in s && forall d :: d in rest ==> d in s;
      StepQuoted(mode, p, c);
      ScanQuotation(mode, Push(p, Quoted(c)), rest);
      AppendCons(p.atoms, ToQuoted, c, rest);
    }
  }

  lemma StepQuoted(mode: Mode, p: Piece, c: char)
    requires mode == Squote || mode == Within(Double)
    requires c != '\'' && (mode == Within(Double) ==> c !in {'"', '$', '`', '\\'})
    ensures Step(At(mode, [], p), c) == At(mode, [], Push(p, Quoted(c)))
  {
    hide Unquoted;
  }

  lemma StepQuotes(p: Piece)
    ensures Step(START, '\'') == At(Squote, [], Piece([], true)) && Step(START, '"') == At(Within(Double), [], Piece([], true))
    ensures Step(At(Squote, [], p), '\'') == At(Plain, [], p) && Step(At(Within(Double), [], p), '"') == At(Plain, [], p)
  {
  }

  /** Between single quotes every character stands for itself; between double quotes all but `"`, `$`, the
      backquote and the backslash; and the quotes make one word, be it empty. */
  lemma QuotesKeep(s: string)
    ensures (forall c :: c in s ==> c != '\'') ==> Tokens("'" + s + "'") == Some([Word(Piece(Mapped(ToQuoted, s), true))])
    ensures (forall c :: c in s ==> c !in {'\'', '"', '$', '`', '\\'}) ==>
              Tokens("\"" + s + "\"") == Some([Word(Piece(Mapped(ToQuoted, s), true))])
  {
    hide *;
    if forall c :: c in s ==> c != '\'' { SinglesKeep(s); }
    if forall c :: c in s ==> c !in {'\'', '"', '$', '`', '\\'} { DoublesKeep(s); }
  }

  lemma SinglesKeep(s: string)
    requires forall c :: c in s ==> c != '\''
    ensures Tokens("'" + s + "'") == Some([Word(Piece(Mapped(ToQuoted, s), true))])
  {
    var word := Piece(Mapped(ToQuoted, s), true);
    StepQuotes(word);
    hide Step;
    ScanOne(START, '\'');
    ScanOne(At(Squote, [], word), '\'');
    ScanThree(START, "'", s, "'");
    ScanQuotation(Squote, Piece([], true), s);
    hide Scan, Mapped, Finish, Tokens;
    assert [] + Mapped(ToQuoted, s) == Mapped(ToQuoted, s);
    Ends("'" + s + "'", [], word);
    assert [] + [Word(word)] == [Word(word)];
  }

  lemma DoublesKeep(s: string)
    requires forall c :: c in s ==> c !in {'\'', '"', '$', '`', '\\'}
    ensures Tokens("\"" + s + "\"") == Some([Word(Piece(Mapped(ToQuoted, s), true))])
  {
    var word := Piece(Mapped(ToQuoted, s), true);
    StepQuotes(word);
    hide Step;
    ScanOne(START, '"');
    ScanOne(At(Within(Double), [], word), '"');
    ScanThree(START, "\"", s, "\"");
    ScanQuotation(Within(Double), Piece([], true), s);
    hide Scan, Mapped, Finish, Tokens;
    assert [] + Mapped(ToQuoted, s) == Mapped(ToQuoted, s);
    Ends("\"" + s + "\"", [], word);
    assert [] + [Word(word)] == [Word(word)];
  }

  /** A quotation that does not end leaves no tokens. */
  lemma OpenQuotes(s: string)
    ensures (forall c :: c in s ==> c != '\'') ==> Tokens("'" + s) == None
    ensures (forall c :: c in s ==> c !in {'\'', '"', '$', '`', '\\'}) ==> Tokens("\"" + s) == None
  {
    StepQuotes(NONE);
    ScanOne(START, '\'');
    ScanOne(START, '"');
    ScanAppend(START, "'", s);
    ScanAppend(START, "\"", s);
    if forall c :: c in s ==> c != '\'' { ScanQuotation(Squote, Piece([], true), s); }
    if forall c :: c in s ==> c !in {'\'', '"', '$', '`', '\\'} { ScanQuotation(Within(Double), Piece([], true), s); }
    hide Step, Scan, Mapped, Finish, Tokens;
    Ends("'" + s, [], NONE);
    Ends("\"" + s, [], NONE);
  }

  /** A backslash quotes any character but a line end, which goes with it. */
  lemma BackslashQuotes(c: char)
    ensures c != '\n' ==> Tokens("\\" + [c]) == Some([Word(Piece([Quoted(c)], true))])
    ensures Tokens("a" + "\\" + "\nb") == Some([Word(Literal("ab"))])
    ensures Tokens("\\") == None
  {
    var l := At(Escape(Between), [], NONE);
    StepBackslash(c);
    ScanOne(START, '\\');
    ScanOne(l, c);
    ScanAppend(START, "\\", [c]);
    Continuation();
    var p := Piece([Quoted(c)], true);
    hide Step, Scan, Finish, Tokens;
    Ends("\\" + [c], [], p);
    Ends("\\", [], NONE);
    assert [] + [Word(p)] == [Word(p)];
  }

  lemma StepBackslash(c: char)
    ensures Step(START, '\\') == At(Escape(Between), [], NONE)
    ensures c != '\n' ==> Step(At(Escape(Between), [], NONE), c) == At(Plain, [], Piece([Quoted(c)], true))
    ensures Step(At(Plain, [], A), '\\') == At(Escape(Plain), [], A) && Step(At(Escape(Plain), [], A), '\n') == At(Plain, [], A)
  {
    hide IsIoNumber;
    assert [] + [Quoted(c)] == [Quoted(c)];
  }

  lemma Continuation()
    ensures Tokens("a" + "\\" + "\nb") == Some([Word(Literal("ab"))])
  {
    Letters();
    assert IsSafe('a') && IsSafe('b');
    StepBackslash(' ');
    StartsWord('a');
    ScanOne(START, 'a');
    ScanOne(At(Plain, [], A), '\\');
    var l, m := At(Escape(Plain), [], A), At(Plain, [], A);
    assert "\nb" == ['\n'] + "b";
    ScanAppend(l, ['\n'], "b");
    ScanOne(l, '\n');
    StepSafe(m, 'b');
    ScanOne(m, 'b');
    ScanThree(START, "a", "\\", "\nb");
    assert Mapped(ToBare, "ab") == [Bare('a'), Bare('b')];
    assert Literal("ab") == Piece([Bare('a'), Bare('b')], false) by { assert [] + [Bare('a'), Bare('b')] == [Bare('a'), Bare('b')]; }
    hide Step, Scan, Joined, Finish, Tokens;
    assert [Bare('a')] + [Bare('b')] == [Bare('a'), Bare('b')];
    Ends("a" + "\\" + "\nb", [], Literal("ab"));
    assert [] + [Word(Literal("ab"))] == [Word(Literal("ab"))];
  }

  // ----- comments and IO numbers ---------------------------------------------------------------------

  lemma {:induction false} ScanComment(s: string)
    requires forall c :: c in s ==> c != '\n'
    ensures Scan(At(Comment, [], NONE), s) == At(Comment, [], NONE)
    decreases |s|
  {
    if s != "" {
      assert s[0] in s && forall c :: c in s[1..] ==> c in s;
      ScanComment(s[1..]);
    }
  }

  /** A `#` that begins a word begins a comment, up to the end of the line. */
  lemma CommentsGo(s: string)
    requires forall c :: c in s ==> c != '\n'
    ensures Tokens("#" + s) == Some([])
    ensures Tokens("#" + s + "\n") == Some([Newline])
  {
    StepComment();
    hide Step;
    ScanOne(START, '#');
    ScanAppend(START, "#", s);
    ScanComment(s);
    ScanOne(At(Comment, [], NONE), '\n');
    ScanAppend(START, "#" + s, "\n");
    hide Scan, Finish, Tokens;
    Ends("#" + s, [], NONE);
    Ends("#" + s + "\n", [Newline], NONE);
  }

  lemma StepComment()
    ensures Step(START, '#') == At(Comment, [], NONE) && Step(At(Comment, [], NONE), '\n') == At(Between, [Newline], NONE)
  {
    assert [] + [Newline] == [Newline];
  }

  lemma {:induction false} ScanDigits(p: Piece, s: string)
    requires forall c :: c in s ==> IsDigit(c)
    ensures Scan(At(Plain, [], p), s) == At(Plain, [], Piece(p.atoms + Mapped(ToBare, s), p.quoted))
  {
    ScanSafe(At(Plain, [], p), s);
  }

  /** Digits right before `<` or `>` are an IO number, before anything else a word. */
  lemma DigitsRedirect(s: string, c: char)
    requires s != "" && (forall d :: d in s ==> '0' <= d <= '9') && c in {'<', '>', '&', '|', ';'}
    ensures Tokens(s + [c] + "b")
            == Some([if c == '<' || c == '>' then IoNumber(Mapped(ToBare, s)) else Word(Literal(s)), Operator([c]), Word(B)])
  {
    Letters();
    assert IsSafe('b');
    var p := DigitsWord(s);
    DigitsStep(p, c);
    hide Step, Joined, Mapped;
    var first := if c == '<' || c == '>' then IoNumber(p.atoms) else Word(p);
    ScanOne(At(Plain, [], p), c);
    GoesOn([first], 'b');
    assert !Extends([c], 'b') && !IsHereDoc([c]);
    ScanOne(At(Op([c]), [first], NONE), 'b');
    ScanThree(START, s, [c], "b");
    hide Scan, Finish, Tokens;
    Ends(s + [c] + "b", [first] + [Operator([c])], B);
    assert [first] + [Operator([c])] + [Word(B)] == [first, Operator([c]), Word(B)];
  }

  lemma DigitsWord(s: string) returns (p: Piece)
    requires s != "" && forall d :: d in s ==> '0' <= d <= '9'
    ensures p == Piece(Mapped(ToBare, s), false) == Literal(s) && Scan(START, s) == At(Plain, [], p) && p.atoms != []
    ensures forall i :: 0 <= i < |p.atoms| ==> p.atoms[i].Bare? && '0' <= p.atoms[i].c <= '9'
  {
    assert IsBare(s);
    ScanBare(START, s);
    BareLiteral(s);
    p := Piece(Mapped(ToBare, s), false);
    forall i | 0 <= i < |s| ensures p.atoms[i].Bare? && '0' <= p.atoms[i].c <= '9' {
      assert s[i] in s;
    }
  }

  lemma DigitsStep(p: Piece, c: char)
    requires !p.quoted && p.atoms != [] && forall i :: 0 <= i < |p.atoms| ==> p.atoms[i].Bare? && '0' <= p.atoms[i].c <= '9'
    requires c in {'<', '>', '&', '|', ';'}
    ensures Step(At(Plain, [], p), c) == At(Op([c]), [if c == '<' || c == '>' then IoNumber(p.atoms) else Word(p)], NONE)
  {
    assert IsIoNumber(p);
    hide IsIoNumber;
    assert [] + [IoNumber(p.atoms)] == [IoNumber(p.atoms)] && [] + [Word(p)] == [Word(p)];
  }

  // ----- parameters ------------------------------------------------------------------------------------

  lemma {:induction false} ScanParam(p: Piece, s: string)
    requires forall c :: c in s ==> IsLetter(c) || IsDigit(c)
    ensures Scan(At(Param(Free), [], p), s) == At(Param(Free), [], Piece(p.atoms + Mapped(ToAct, s), p.quoted))
    decreases |s|
  {
    hide Step, Mapped;
    if s == "" {
      assert p.atoms + Mapped(ToAct, s) == p.atoms;
    } else {
      var c, rest := s[0], s[1..];
      assert s == [c] + rest && c in s && forall d :: d in rest ==> d in s;
      StepParam(p, c);
      ScanParam(Push(p, Act(c)), rest);
      AppendCons(p.atoms, ToAct, c, rest);
    }
  }

  lemma StepParam(p: Piece, c: char)
    ensures IsLetter(c) || IsDigit(c) ==> Step(At(Param(Free), [], p), c) == At(Param(Free), [], Push(p, Act(c)))
    ensures IsLetter(c) ==> Step(At(Dollar(Free), [], p), c) == At(Param(Free), [], Push(p, Act(c)))
  {
    hide Unquoted;
  }

  /** `$name` is one word that acts, as far as letters, digits and underscores go. */
  lemma ParametersAct(name: string)
    requires name != "" && ('a' <= name[0] <= 'z' || 'A' <= name[0] <= 'Z' || name[0] == '_')
    requires forall c :: c in name ==> 'a' <= c <= 'z' || 'A' <= c <= 'Z' || c == '_' || '0' <= c <= '9'
    ensures Tokens("$" + name) == Some([Word(Piece(Mapped(ToAct, "$" + name), false))])
  {
    ScanParameter(name);
    hide Scan, Mapped, Finish, Tokens, IsLetter, IsDigit;
    MappedCons(ToAct, '$', name);
    var word := Piece(Mapped(ToAct, "$" + name), false);
    assert "$" + name == ['$'] + name;
    Ends("$" + name, [], word);
    assert [] + [Word(word)] == [Word(word)];
  }

  lemma ScanParameter(name: string)
    requires name != "" && IsLetter(name[0]) && forall c :: c in name ==> IsLetter(c) || IsDigit(c)
    ensures Scan(START, "$" + name) == At(Param(Free), [], Piece([Act('$')] + Mapped(ToAct, name), false))
  {
    var p, c, rest := Piece([Act('$')], false), name[0], name[1..];
    var l := At(Dollar(Free), [], p);
    StepDollarSign();
    hide Step, Scan, Mapped, IsLetter, IsDigit;
    ScanOne(START, '$');
    ScanAppend(START, "$", name);
    assert name == [c] + rest && forall d :: d in rest ==> d in name;
    StepParam(p, c);
    ScanOne(l, c);
    ScanAppend(l, [c], rest);
    ScanParam(Push(p, Act(c)), rest);
    AppendCons(p.atoms, ToAct, c, rest);
  }

  lemma StepDollarSign()
    ensures Step(START, '$') == At(Dollar(Free), [], Piece([Act('$')], false))
  {
    assert [] + [Act('$')] == [Act('$')];
  }

  // ----- what else nests -----------------------------------------------------------------------------------

  /** Within double quotes a backslash quotes `$`, the backquote, `"` and itself, and stands before anything
      else but a line end. */
  lemma BackslashInQuotes(c: char)
    requires c != '\n'
    ensures Tokens("\"\\" + [c] + "\"")
            == Some([Word(Piece(if c in {'$', '`', '"', '\\'} then [Quoted(c)] else [Quoted('\\'), Quoted(c)], true))])
  {
    var word := Piece(if c in {'$', '`', '"', '\\'} then [Quoted(c)] else [Quoted('\\'), Quoted(c)], true);
    var l, m := At(Within(Double), [], Piece([], true)), At(WithinEscape(Double, Body), [], Piece([], true));
    StepQuotes(word);
    StepEscaped(c);
    hide Step;
    assert "\"\\" == ['"'] + ['\\'];
    ScanOne(START, '"');
    ScanOne(l, '\\');
    ScanAppend(START, ['"'], ['\\']);
    ScanOne(m, c);
    ScanOne(At(Within(Double), [], word), '"');
    ScanThree(START, "\"\\", [c], "\"");
    hide Scan, Finish, Tokens;
    Ends("\"\\" + [c] + "\"", [], word);
    assert [] + [Word(word)] == [Word(word)];
  }

  lemma StepEscaped(c: char)
    requires c != '\n'
    ensures Step(At(Within(Double), [], Piece([], true)), '\\') == At(WithinEscape(Double, Body), [], Piece([], true))
    ensures Step(At(WithinEscape(Double, Body), [], Piece([], true)), c)
            == At(Within(Double), [], Piece(if c in {'$', '`', '"', '\\'} then [Quoted(c)] else [Quoted('\\'), Quoted(c)], true))
  {
    hide Unquoted;
    assert [] + [Quoted(c)] == [Quoted(c)] && [] + [Quoted('\\')] == [Quoted('\\')];
    assert [Quoted('\\')] + [Quoted(c)] == [Quoted('\\'), Quoted(c)];
  }

  predicate IsVerbatim(mode: Mode) { mode == Backquote || mode == Within(Arithmetic(2)) }

  lemma {:induction false} ScanVerbatim(mode: Mode, ctx: Context, tokens: seq<Token>, p: Piece, outer: Outer, s: string)
    requires IsVerbatim(mode) && forall c :: c in s ==> c !in {'`', '\\', '$', '(', ')'}
    ensures Scan(Lexer(Control(mode, ctx), Data(tokens, p, outer)), s)
            == Lexer(Control(mode, ctx), Data(tokens, Piece(p.atoms + Mapped(ToAct, s), p.quoted), outer))
    decreases |s|
  {
    hide Step, Mapped;
    if s == "" {
      assert p.atoms + Mapped(ToAct, s) == p.atoms;
    } else {
      var c, rest := s[0], s[1..];
      assert s == [c] + rest && c in s && forall d :: d in rest ==> d in s;
      StepVerbatim(mode, ctx, Data(tokens, p, outer), c);
      ScanVerbatim(mode, ctx, tokens, Push(p, Act(c)), outer, rest);
      AppendCons(p.atoms, ToAct, c, rest);
    }
  }

  lemma StepVerbatim(mode: Mode, ctx: Context, d: Data, c: char)
    requires IsVerbatim(mode) && c !in {'`', '\\', '$', '(', ')'}
    ensures Step(Lexer(Control(mode, ctx), d), c) == Lexer(Control(mode, ctx), d.(word := Push(d.word, Act(c))))
  {
    hide Unquoted;
  }

  lemma StepBackquotes(p: Piece)
    ensures Step(START, '`') == Lexer(Control(Backquote, In(Verbatim, Free, Top)), Data([], NONE, Saved([], Piece([Act('`')], false), Bottom)))
    ensures Step(Lexer(Control(Backquote, In(Verbatim, Free, Top)), Data([], p, Saved([], Piece([Act('`')], false), Bottom))), '`')
            == At(Plain, [], Piece([Act('`'), Inside([], p)], false))
  {
    assert [] + [Act('`')] == [Act('`')] && [Act('`')] + [Inside([], p)] == [Act('`'), Inside([], p)];
  }

  /** Backquotes hold the characters up to the next backquote, as they are. */
  lemma BackquotesRead(s: string)
    requires forall c :: c in s ==> c !in {'`', '\\', '$', '(', ')'}
    ensures Tokens("`" + s + "`") == Some([Word(Piece([Act('`'), Inside([], Piece(Mapped(ToAct, s), false))], false))])
  {
    var p := Piece(Mapped(ToAct, s), false);
    var word := Piece([Act('`'), Inside([], p)], false);
    var ctx, outer := In(Verbatim, Free, Top), Saved([], Piece([Act('`')], false), Bottom);
    StepBackquotes(p);
    hide Step;
    ScanOne(START, '`');
    ScanVerbatim(Backquote, ctx, [], NONE, outer, s);
    assert [] + Mapped(ToAct, s) == Mapped(ToAct, s);
    ScanOne(Lexer(Control(Backquote, ctx), Data([], p, outer)), '`');
    ScanThree(START, "`", s, "`");
    hide Scan, Finish, Tokens, Mapped;
    Ends("`" + s + "`", [], word);
    assert [] + [Word(word)] == [Word(word)];
  }

  const OPENED := Saved([], Piece([Act('$'), Act('(')], false), Bottom)

  function InArithmetic(depth: nat, p: Piece): Lexer {
    Lexer(Control(Within(Arithmetic(depth)), In(Verbatim, Free, Top)), Data([], p, OPENED))
  }

  lemma OpenArithmetic()
    ensures Step(At(Dollar(Free), [], Piece([Act('$')], false)), '(') == Lexer(Control(Opening, In(Commands(0), Free, Top)), Data([], NONE, OPENED))
    ensures Step(Lexer(Control(Opening, In(Commands(0), Free, Top)), Data([], NONE, OPENED)), '(') == InArithmetic(2, Piece([Act('(')], false))
  {
    assert [] + [Act('(')] == [Act('(')] && [Act('$')] + [Act('(')] == [Act('$'), Act('(')];
  }

  lemma CloseArithmetic(p: Piece)
    ensures Step(InArithmetic(2, p), ')') == InArithmetic(1, Push(p, Act(')')))
    ensures Step(InArithmetic(1, p), ')') == At(Plain, [], Piece([Act('$'), Act('('), Inside([], p)], false))
  {
    assert [Act('$'), Act('(')] + [Inside([], p)] == [Act('$'), Act('('), Inside([], p)];
  }

  /** An arithmetic expansion goes up to its second closing parenthesis. */
  lemma ArithmeticReads(s: string)
    requires forall c :: c in s ==> c !in {'`', '\\', '$', '(', ')'}
    ensures Tokens("$((" + s + "))")
            == Some([Word(Piece([Act('$'), Act('('), Inside([], Piece([Act('(')] + Mapped(ToAct, s) + [Act(')')], false))], false))])
  {
    var p := Piece([Act('(')] + Mapped(ToAct, s), false);
    var q := Push(p, Act(')'));
    var word := Piece([Act('$'), Act('('), Inside([], q)], false);
    StepDollarSign();
    OpenArithmetic();
    CloseArithmetic(p);
    CloseArithmetic(q);
    hide Step;
    var l, m := At(Dollar(Free), [], Piece([Act('$')], false)), Lexer(Control(Opening, In(Commands(0), Free, Top)), Data([], NONE, OPENED));
    ScanOne(START, '$');
    ScanOne(l, '(');
    ScanOne(m, '(');
    ScanThree(START, "$", "(", "(");
    assert "$" + "(" + "(" == "$((";
    ScanVerbatim(Within(Arithmetic(2)), In(Verbatim, Free, Top), [], Piece([Act('(')], false), OPENED, s);
    ScanOne(InArithmetic(2, p), ')');
    ScanOne(InArithmetic(1, q), ')');
    assert "))" == ")" + ")";
    ScanAppend(InArithmetic(2, p), ")", ")");
    ScanThree(START, "$((", s, "))");
    hide Scan, Finish, Tokens, Mapped;
    Ends("$((" + s + "))", [], word);
    assert [] + [Word(word)] == [Word(word)];
  }
}
