/** The two levels of shell that a streamed command passes through: the login shell reads
    the remote command, and the inner `sh -c` reads the grouped command. */
module RemoteCommand {
  import opened Prelude
  import opened Shell

  /** `printf '%s' "$$" > file; command` */
  function Grouped(groupFile: string, command: string): string {
    "printf " + ("'%s' " + ("\"$$\" " + ("> " + (Quote(groupFile) + ("; " + command)))))
  }

  /** `setsid sh -c '...'; status=$?; exit "$status"` */
  function Remote(grouped: string): string {
    "setsid " + ("sh " + ("-c " + (Quote(grouped) + ("; " + ("status=" + ("$?" + ("; " + ("exit " + "\"$status\""))))))))
  }

  const STATUS := Piece([Act('$')] + Mapped(ToAct, "status"), true)
  const SAVED := Piece(Mapped(ToBare, "status=") + [Act('$'), Act('?')], false)
  const FORMAT := Piece([Quoted('%'), Quoted('s')], true)
  const PID := Piece([Act('$'), Act('$')], true)

  // ----- reading fixed pieces ------------------------------------------------------

  lemma ScanTwo(l: Lexer, a: char, b: char)
    ensures Scan(l, [a, b]) == Step(Step(l, a), b)
  {
    hide Step;
    assert [a, b][1..] == [b];
    ScanOne(Step(l, a), b);
  }

  lemma StepBlank(tokens: seq<Token>, p: Piece)
    ensures Step(At(Plain, tokens, p), ' ') == At(Between, tokens + [Word(p)], NONE)
  {
    hide IsIoNumber;
  }

  lemma ScanBlank(tokens: seq<Token>, p: Piece)
    ensures Scan(At(Plain, tokens, p), " ") == At(Between, tokens + [Word(p)], NONE)
  {
    StepBlank(tokens, p);
    ScanOne(At(Plain, tokens, p), ' ');
    hide Step, Scan;
  }

  lemma InsertBetween(tokens: seq<Token>, value: string)
    ensures Insert(At(Between, tokens, NONE), value) == At(Plain, tokens, Literal(value))
  {
    hide Joined;
  }

  lemma ScanWord(tokens: seq<Token>, word: string)
    requires IsBare(word)
    ensures Scan(At(Between, tokens, NONE), word + " ") == At(Between, tokens + [Word(Literal(word))], NONE)
  {
    var l := At(Between, tokens, NONE);
    ScanBare(l, word);
    ScanAppend(l, word, " ");
    InsertBetween(tokens, word);
    ScanBlank(tokens, Literal(word));
  }

  lemma StepSemicolon(tokens: seq<Token>, p: Piece)
    ensures Step(At(Plain, tokens, p), ';') == At(Op(";"), tokens + [Word(p)], NONE)
    ensures Step(At(Op(";"), tokens, NONE), ' ') == At(Between, tokens + [Operator(";")], NONE)
  {
    hide IsIoNumber;
  }

  lemma ScanSemicolon(tokens: seq<Token>, p: Piece)
    ensures Scan(At(Plain, tokens, p), "; ") == At(Between, tokens + [Word(p), Operator(";")], NONE)
  {
    ScanTwo(At(Plain, tokens, p), ';', ' ');
    StepSemicolon(tokens, p);
    StepSemicolon(tokens + [Word(p)], p);
    hide Step, Scan;
    assert tokens + [Word(p)] + [Operator(";")] == tokens + [Word(p), Operator(";")];
  }

  lemma ScanExitStatus(tokens: seq<Token>, p: Piece)
    ensures Scan(At(Plain, tokens, p), "$?") == At(Plain, tokens, Piece(p.atoms + [Act('$'), Act('?')], p.quoted))
  {
    ScanTwo(At(Plain, tokens, p), '$', '?');
    hide IsIoNumber, Scan;
    assert p.atoms + [Act('$')] + [Act('?')] == p.atoms + [Act('$'), Act('?')];
  }

  lemma StepOpen(tokens: seq<Token>)
    ensures Step(At(Between, tokens, NONE), '"') == At(Within(Double), tokens, Piece([], true))
    ensures Step(At(Between, tokens, NONE), '\'') == At(Squote, tokens, Piece([], true))
  {
    hide IsIoNumber;
  }

  lemma StepClose(tokens: seq<Token>, p: Piece)
    ensures Step(At(Within(Double), tokens, p), '"') == At(Plain, tokens, p)
    ensures Step(At(Param(Double), tokens, p), '"') == At(Plain, tokens, p)
    ensures Step(At(Squote, tokens, p), '\'') == At(Plain, tokens, p)
  {
    hide Unquoted;
  }

  lemma StepInside(tokens: seq<Token>, p: Piece, c: char)
    ensures Step(At(Within(Double), tokens, p), '$') == At(Dollar(Double), tokens, Push(p, Act('$')))
    ensures Step(At(Dollar(Double), tokens, p), '$') == At(Within(Double), tokens, Push(p, Act('$')))
    ensures IsLetter(c) ==> Step(At(Dollar(Double), tokens, p), c) == At(Param(Double), tokens, Push(p, Act(c)))
    ensures IsLetter(c) ==> Step(At(Param(Double), tokens, p), c) == At(Param(Double), tokens, Push(p, Act(c)))
    ensures c != '\'' ==> Step(At(Squote, tokens, p), c) == At(Squote, tokens, Push(p, Quoted(c)))
  {
    hide Unquoted;
  }

  lemma {:induction false} ScanName(mode: Mode, tokens: seq<Token>, p: Piece, s: string)
    requires (mode == Dollar(Double) || mode == Param(Double)) && s != "" && forall c :: c in s ==> IsLetter(c)
    ensures Scan(At(mode, tokens, p), s) == At(Param(Double), tokens, Piece(p.atoms + Mapped(ToAct, s), p.quoted))
    decreases |s|
  {
    hide Step, Mapped;
    var c, rest := s[0], s[1..];
    assert s == [c] + rest && c in s && forall d :: d in rest ==> d in s;
    StepInside(tokens, p, c);
    AppendCons(p.atoms, ToAct, c, rest);
    if rest == "" {
      assert p.atoms + [Act(c)] + Mapped(ToAct, rest) == p.atoms + [Act(c)];
    } else {
      ScanName(Param(Double), tokens, Push(p, Act(c)), rest);
    }
  }

  /** A double-quoted variable reference is one word. */
  lemma ScanStatusVariable(tokens: seq<Token>)
    ensures Scan(At(Between, tokens, NONE), "\"$status\"") == At(Plain, tokens, STATUS)
  {
    hide Step, Scan;
    var l := At(Between, tokens, NONE);
    assert "\"$status\"" == ['"', '$'] + ("status" + "\"");
    ScanTwo(l, '"', '$');
    StepOpen(tokens);
    StepInside(tokens, Piece([], true), '$');
    ScanAppend(l, ['"', '$'], "status" + "\"");
    assert Push(Piece([], true), Act('$')) == Piece([Act('$')], true);
    ScanRest(tokens);
  }

  lemma ScanRest(tokens: seq<Token>)
    ensures Scan(At(Dollar(Double), tokens, Piece([Act('$')], true)), "status" + "\"") == At(Plain, tokens, STATUS)
  {
    hide Step, Scan;
    var l := At(Dollar(Double), tokens, Piece([Act('$')], true));
    ScanName(Dollar(Double), tokens, Piece([Act('$')], true), "status");
    hide Mapped;
    ScanAppend(l, "status", "\"");
    ScanOne(At(Param(Double), tokens, STATUS), '"');
    StepClose(tokens, STATUS);
  }

  // ----- the outer shell -------------------------------------------------------------

  /** The login shell runs `setsid sh -c` with the grouped command as one literal argument,
      whatever characters it holds, and then exits with its status. */
  lemma RemoteTokens(grouped: string)
    ensures Tokens(Remote(grouped))
            == Some([Word(Literal("setsid")), Word(Literal("sh")), Word(Literal("-c")), Word(Literal(grouped)),
                     Operator(";"), Word(SAVED),
                     Operator(";"), Word(Literal("exit")), Word(STATUS)])
  {
    hide Step, Scan, Insert, Quote, Joined;
    var tail2 := "; " + ("exit " + "\"$status\"");
    var tail := "; " + ("status=" + ("$?" + tail2));
    RemoteHead(grouped, tail);
    assert Remote(grouped) == "setsid " + ("sh " + ("-c " + (Quote(grouped) + tail)));
    var word := Literal(grouped);
    ScanSemicolon(SETSID, word);
    ScanAppend(At(Plain, SETSID, word), "; ", "status=" + ("$?" + tail2));
    var tokens := SETSID + [Word(word), Operator(";")];
    ScanStatus(tokens, tail2);
    RemoteTail(tokens, SAVED);
    hide Finish;
    assert tokens + [Word(SAVED), Operator(";"), Word(Literal("exit")), Word(STATUS)]
        == [Word(Literal("setsid")), Word(Literal("sh")), Word(Literal("-c")), Word(Literal(grouped)),
            Operator(";"), Word(SAVED),
            Operator(";"), Word(Literal("exit")), Word(STATUS)];
  }

  const SETSID: seq<Token> := [Word(Literal("setsid")), Word(Literal("sh")), Word(Literal("-c"))]

  lemma RemoteTail(tokens: seq<Token>, p: Piece)
    ensures Finish(Scan(At(Plain, tokens, p), "; " + ("exit " + "\"$status\"")))
            == Some(tokens + [Word(p), Operator(";"), Word(Literal("exit")), Word(STATUS)])
  {
    hide Step, Joined, Scan;
    ScanSemicolon(tokens, p);
    ScanAppend(At(Plain, tokens, p), "; ", "exit " + "\"$status\"");
    var after := tokens + [Word(p), Operator(";")];
    assert "exit" + " " == "exit ";
    ScanWord(after, "exit");
    ScanAppend(At(Between, after, NONE), "exit ", "\"$status\"");
    ScanStatusVariable(after + [Word(Literal("exit"))]);
    assert after + [Word(Literal("exit"))] + [Word(STATUS)]
        == tokens + [Word(p), Operator(";"), Word(Literal("exit")), Word(STATUS)];
  }

  lemma RemoteHead(grouped: string, tail: string)
    ensures Scan(START, "setsid " + ("sh " + ("-c " + (Quote(grouped) + tail))))
            == Scan(At(Plain, SETSID, Literal(grouped)), tail)
  {
    hide Step, Scan, Insert, Quote, Joined;
    assert "setsid" + " " == "setsid " && "sh" + " " == "sh " && "-c" + " " == "-c ";
    ScanWord([], "setsid");
    assert [] + [Word(Literal("setsid"))] == SETSID[..1];
    ScanAppend(START, "setsid ", "sh " + ("-c " + (Quote(grouped) + tail)));
    ScanWord(SETSID[..1], "sh");
    assert SETSID[..1] + [Word(Literal("sh"))] == SETSID[..2];
    ScanAppend(At(Between, SETSID[..1], NONE), "sh ", "-c " + (Quote(grouped) + tail));
    ScanWord(SETSID[..2], "-c");
    assert SETSID[..2] + [Word(Literal("-c"))] == SETSID;
    ScanAppend(At(Between, SETSID[..2], NONE), "-c ", Quote(grouped) + tail);
    ScanQuoted(At(Between, SETSID, NONE), grouped);
    InsertBetween(SETSID, grouped);
    ScanAppend(At(Between, SETSID, NONE), Quote(grouped), tail);
  }

  lemma ScanStatus(tokens: seq<Token>, tail: string)
    ensures Scan(At(Between, tokens, NONE), "status=" + ("$?" + tail)) == Scan(At(Plain, tokens, SAVED), tail)
  {
    StatusIsBare();
    BareLiteral("status=");
    hide Step, Joined, IsBare, Mapped, Scan;
    ScanBare(At(Between, tokens, NONE), "status=");
    InsertBetween(tokens, "status=");
    ScanAppend(At(Between, tokens, NONE), "status=", "$?" + tail);
    ScanExitStatus(tokens, Literal("status="));
    ScanAppend(At(Plain, tokens, Literal("status=")), "$?", tail);
  }

  lemma StatusIsBare()
    ensures IsBare("status=")
  {
  }

  /** The fixed words, character by character: `status=$?`, `"$status"`, `printf`, `'%s'`, `"$$"`. */
  lemma FixedWords()
    ensures SAVED == Piece([Bare('s'), Bare('t'), Bare('a'), Bare('t'), Bare('u'), Bare('s'), Bare('='), Act('$'), Act('?')], false)
    ensures STATUS == Piece([Act('$'), Act('s'), Act('t'), Act('a'), Act('t'), Act('u'), Act('s')], true)
    ensures PREFIX == [Word(Literal("printf")), Word(Piece([Quoted('%'), Quoted('s')], true)), Word(Piece([Act('$'), Act('$')], true)),
                       Operator(">")]
  {
    assert Mapped(ToBare, "status=") == [Bare('s'), Bare('t'), Bare('a'), Bare('t'), Bare('u'), Bare('s'), Bare('=')];
    assert Mapped(ToAct, "status") == [Act('s'), Act('t'), Act('a'), Act('t'), Act('u'), Act('s')];
  }

  // ----- the inner shell ---------------------------------------------------------------

  const PREFIX: seq<Token> := [
    Word(Literal("printf")), Word(FORMAT), Word(PID), Operator(">")]

  /** The inner shell reads the file name as one literal word, and then the command exactly as
      a shell of its own would. */
  lemma GroupedTokens(groupFile: string, command: string)
    ensures Scan(START, Grouped(groupFile, command))
            == After(PREFIX + [Word(Literal(groupFile)), Operator(";")], Scan(START, command))
    ensures Tokens(Grouped(groupFile, command))
            == match Tokens(command)
               case None => None
               case Some(tokens) => Some(PREFIX + [Word(Literal(groupFile)), Operator(";")] + tokens)
  {
    hide Step, Scan, Insert, Quote, Joined, Finish;
    var tail := "; " + command;
    GroupedHead(groupFile, tail);
    ScanSemicolon(PREFIX, Literal(groupFile));
    ScanAppend(At(Plain, PREFIX, Literal(groupFile)), "; ", command);
    var before := PREFIX + [Word(Literal(groupFile)), Operator(";")];
    ScanAfter(before, START, command);
    assert before + START.data.tokens == before;
    FinishAfter(before, Scan(START, command));
  }

  lemma GroupedHead(groupFile: string, tail: string)
    ensures Scan(START, "printf " + ("'%s' " + ("\"$$\" " + ("> " + (Quote(groupFile) + tail)))))
            == Scan(At(Plain, PREFIX, Literal(groupFile)), tail)
  {
    hide Step, Scan, Insert, Quote, Joined;
    assert "printf" + " " == "printf ";
    ScanWord([], "printf");
    assert [] + [Word(Literal("printf"))] == PREFIX[..1];
    ScanAppend(START, "printf ", "'%s' " + ("\"$$\" " + ("> " + (Quote(groupFile) + tail))));
    ScanFormat(PREFIX[..1]);
    assert PREFIX[..1] + [PREFIX[1]] == PREFIX[..2];
    ScanAppend(At(Between, PREFIX[..1], NONE), "'%s' ", "\"$$\" " + ("> " + (Quote(groupFile) + tail)));
    ScanPid(PREFIX[..2]);
    assert PREFIX[..2] + [PREFIX[2]] == PREFIX[..3];
    ScanAppend(At(Between, PREFIX[..2], NONE), "\"$$\" ", "> " + (Quote(groupFile) + tail));
    ScanRedirect(PREFIX[..3]);
    assert PREFIX[..3] + [PREFIX[3]] == PREFIX;
    ScanAppend(At(Between, PREFIX[..3], NONE), "> ", Quote(groupFile) + tail);
    ScanQuoted(At(Between, PREFIX, NONE), groupFile);
    InsertBetween(PREFIX, groupFile);
    ScanAppend(At(Between, PREFIX, NONE), Quote(groupFile), tail);
  }

  lemma ScanFormat(tokens: seq<Token>)
    ensures Scan(At(Between, tokens, NONE), "'%s' ") == At(Between, tokens + [Word(FORMAT)], NONE)
  {
    hide Step, Scan;
    var l, m := At(Between, tokens, NONE), At(Squote, tokens, Piece([Quoted('%')], true));
    assert "'%s' " == ['\'', '%'] + (['s', '\''] + " ");
    StepOpen(tokens);
    StepInside(tokens, Piece([], true), '%');
    assert Push(Piece([], true), Quoted('%')) == m.data.word;
    ScanTwo(l, '\'', '%');
    ScanAppend(l, ['\'', '%'], ['s', '\''] + " ");
    StepInside(tokens, m.data.word, 's');
    assert Push(m.data.word, Quoted('s')) == FORMAT;
    StepClose(tokens, FORMAT);
    ScanTwo(m, 's', '\'');
    ScanAppend(m, ['s', '\''], " ");
    ScanBlank(tokens, FORMAT);
  }

  lemma ScanPid(tokens: seq<Token>)
    ensures Scan(At(Between, tokens, NONE), "\"$$\" ") == At(Between, tokens + [Word(PID)], NONE)
  {
    hide Step, Scan;
    var l, m := At(Between, tokens, NONE), At(Dollar(Double), tokens, Piece([Act('$')], true));
    assert "\"$$\" " == ['"', '$'] + (['$', '"'] + " ");
    StepOpen(tokens);
    StepInside(tokens, Piece([], true), '$');
    assert Push(Piece([], true), Act('$')) == m.data.word;
    ScanTwo(l, '"', '$');
    ScanAppend(l, ['"', '$'], ['$', '"'] + " ");
    StepInside(tokens, m.data.word, '$');
    assert Push(m.data.word, Act('$')) == PID;
    StepClose(tokens, PID);
    ScanTwo(m, '$', '"');
    ScanAppend(m, ['$', '"'], " ");
    ScanBlank(tokens, PID);
  }

  lemma ScanRedirect(tokens: seq<Token>)
    ensures Scan(At(Between, tokens, NONE), "> ") == At(Between, tokens + [Operator(">")], NONE)
  {
    ScanTwo(At(Between, tokens, NONE), '>', ' ');
    hide Scan, IsIoNumber;
    assert Step(At(Between, tokens, NONE), '>') == At(Op(">"), tokens, NONE);
  }

  // ----- tokens already read do not matter ------------------------------------------------

  function OuterAfter(before: seq<Token>, outer: Outer): Outer {
    match outer
    case Bottom => Bottom
    case Saved(tokens, word, rest) =>
      if rest == Bottom then Saved(before + tokens, word, rest) else Saved(tokens, word, OuterAfter(before, rest))
  }

  /** The outermost text has more tokens before it. */
  function DataAfter(before: seq<Token>, d: Data): Data {
    if d.outer == Bottom then d.(tokens := before + d.tokens) else d.(outer := OuterAfter(before, d.outer))
  }

  function After(before: seq<Token>, l: Lexer): Lexer { l.(data := DataAfter(before, l.data)) }

  lemma DoAfter(before: seq<Token>, d: Data, e: Edit)
    requires e == Leave ==> d.outer != Bottom
    ensures Do(DataAfter(before, d), e) == DataAfter(before, Do(d, e))
  {
    hide IsIoNumber;
    match e
    case EndWord => assert before + (d.tokens + [Word(d.word)]) == before + d.tokens + [Word(d.word)];
    case EndBefore =>
      var t := if IsIoNumber(d.word) then IoNumber(d.word.atoms) else Word(d.word);
      assert before + (d.tokens + [t]) == before + d.tokens + [t];
    case Emit(t) => assert before + (d.tokens + [t]) == before + d.tokens + [t];
    case _ =>
  }

  lemma StepAfter(before: seq<Token>, l: Lexer, c: char)
    requires Sound(l)
    ensures Step(After(before, l), c) == After(before, Step(l, c))
  {
    var m := NextMove(l.control, c);
    assert Proper(l.control.context, m);
    DoHeight(l.data, m.first);
    hide NextMove, DataAfter;
    DoAfter(before, l.data, m.first);
    var d := Do(l.data, m.first);
    DoAfter(before, d, m.second);
    DoAfter(before, Do(d, m.second), m.third);
  }

  lemma {:induction false} ScanAfter(before: seq<Token>, l: Lexer, s: string)
    requires Sound(l)
    ensures Scan(After(before, l), s) == After(before, Scan(l, s))
    decreases |s|
  {
    hide Step, After, Sound;
    if s != "" {
      StepAfter(before, l, s[0]);
      StepSound(l, s[0]);
      ScanAfter(before, Step(l, s[0]), s[1..]);
    }
  }

  lemma {:induction false} CollapseAfter(before: seq<Token>, d: Data)
    ensures Collapse(DataAfter(before, d)) == DataAfter(before, Collapse(d)) && Collapse(d).outer == Bottom
    decreases d.outer
  {
    if d.outer.Saved? {
      DoAfter(before, d, Leave);
      CollapseAfter(before, Do(d, Leave));
    }
  }

  lemma FinishAfter(before: seq<Token>, l: Lexer)
    ensures Finish(After(before, l))
            == match Finish(l)
               case None => None
               case Some(tokens) => Some(before + tokens)
  {
    var last := LastEdit(l.control.mode);
    CollapseAfter(before, l.data);
    DoAfter(before, Collapse(l.data), last);
    hide Collapse;
  }
}
