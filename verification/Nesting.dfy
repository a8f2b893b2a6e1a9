/** Expansions are read as texts of their own, wherever they stand. */
module Nesting {
  import opened Prelude
  import opened Shell
  import opened Template

  // ----- the same text at the top and inside a command substitution -------------------------

  /** A command substitution with so many open parentheses, and what it stands in. */
  datatype Place = Place(open: nat, back: Ground, around: Context)

  /** A context over the top becomes one over the substitution. */
  function LiftContext(ctx: Context, p: Place): Context {
    match ctx
    case Top => In(Commands(p.open), p.back, p.around)
    case In(kind, ground, outer) => In(kind, ground, LiftContext(outer, p))
  }

  function Lift(k: Control, p: Place): Control { Control(k.mode, LiftContext(k.context, p)) }

  /** The parentheses open at the top after one more character; None if it closes one too many. */
  function Opened(m: Move, open: nat, c: char): Option<nat> {
    if m.control.context != Top || !m.control.mode.Op? then Some(open)
    else if c == '(' then Some(open + 1)
    else if c == ')' then if open == 0 then None else Some(open - 1)
    else Some(open)
  }

  /** The text leaves no parenthesis open, closes none too many, and is read to its end. */
  predicate Closed(k: Control, open: nat, s: string)
    decreases |s|
  {
    && k.mode != Raw
    && (if s == "" then open == 0 && k.mode != Comment && !(k.mode.Op? && IsHereDoc(k.mode.text))
        else
          var m := NextMove(k, s[0]);
          Opened(m, open, s[0]).Some? && Closed(m.control, Opened(m, open, s[0]).value, s[1..]))
  }

  /** The start of a substitution, which is never at the top. */
  predicate Starts(mode: Mode) { mode == Opening || (mode.Escape? && Starts(mode.back)) }

  /** The same move inside. */
  predicate Lifted(m': Move, m: Move, p: Place) {
    && m'.first == m.first && m'.second == m.second && m'.third == m.third
    && m'.control.mode == m.control.mode
    && m'.control.context == LiftContext(m.control.context, p)
  }

  /** The same move inside, as long as the text goes on there. */
  predicate Lifts(m': Move, m: Move, p: Place, c: char) {
    Opened(m, p.open, c).Some? && m.control.mode != Raw ==>
      && Lifted(m', m, p.(open := Opened(m, p.open, c).value))
      && (m.control.context == Top ==> !Starts(m.control.mode))
  }

  /** A move that leaves the context alone, whatever it is. */
  predicate Unmoved(m': Move, m: Move, inner: Context, ctx: Context) {
    m' == m.(control := Control(m.control.mode, inner)) && m.control.context == ctx
  }

  lemma UnmovedLifts(m': Move, m: Move, ctx: Context, p: Place, c: char)
    requires Unmoved(m', m, LiftContext(ctx, p), ctx) && !m.control.mode.Op? && (ctx == Top ==> !Starts(m.control.mode))
    ensures Lifts(m', m, p, c)
  {
  }

  /** Within an expansion nothing is opened at the top, and what is left is not at its start. */
  lemma InnerLifts(m': Move, m: Move, ctx: Context, p: Place, c: char)
    requires ctx.In? && Proper(ctx, m) && Lifted(m', m, p)
    ensures Lifts(m', m, p, c)
  {
  }

  lemma NestLifts(mode: Mode, kind: Kind, ground: Ground, ctx: Context, p: Place, c: char)
    ensures Lifts(Nest(mode, kind, ground, LiftContext(ctx, p), c), Nest(mode, kind, ground, ctx, c), p, c)
  {
  }

  lemma PopLifts(ctx: Context, p: Place, first: Edit, c: char)
    requires IsFlat(first)
    ensures Lifts(Pop(LiftContext(ctx, p), first), Pop(ctx, first), p, c)
    ensures ctx.In? ==> Lifted(Pop(LiftContext(ctx, p), first), Pop(ctx, first), p)
  {
  }

  // ----- commands ---------------------------------------------------------------------------------

  lemma CountedLifts(ctx: Context, p: Place, c: char)
    requires ctx.In?
    ensures Counted(LiftContext(ctx, p), c) == LiftContext(Counted(ctx, c), p)
  {
    var counted := Counted(ctx, c);
    assert counted == In(counted.kind, ctx.back, ctx.outer);
  }

  lemma CharLifts(mode: Mode, ctx: Context, p: Place, c: char)
    requires ctx.In? && !IsOperatorChar(c)
    ensures Lifted(Ordinary(mode, LiftContext(ctx, p), c), Ordinary(mode, ctx, c), p)
  {
    assert c != '(' && c != ')';
    hide IsPattern, IsBlank, IsOperatorChar, LiftContext, Counted, Closes, Ending, Pop, Proper, Depth;
  }

  lemma OperatorCharLifts(mode: Mode, ctx: Context, p: Place, c: char)
    requires ctx.In? && IsOperatorChar(c)
    ensures Lifted(Ordinary(mode, LiftContext(ctx, p), c), Ordinary(mode, ctx, c), p)
  {
    var inner, first := LiftContext(ctx, p), Ending(mode, c);
    assert !IsBlank(c) && c != '\n';
    CountedLifts(ctx, p, c);
    assert Closes(inner) == Closes(ctx) && inner.In? && inner.back == ctx.back;
    if c == ')' && Closes(ctx) {
      PopLifts(ctx, p, first, c);
    } else if c == '(' && mode == Opening {
      assert LiftContext(In(Verbatim, ctx.back, ctx.outer), p) == In(Verbatim, inner.back, inner.outer);
    }
    hide IsPattern, IsBlank, IsOperatorChar, LiftContext, Counted, Closes, Ending, Pop, Proper, Depth, Lifts;
  }

  lemma OrdinaryTopLifts(mode: Mode, p: Place, c: char)
    requires mode == Between || mode == Plain
    ensures Lifts(Ordinary(mode, LiftContext(Top, p), c), Ordinary(mode, Top, c), p, c)
  {
    hide IsPattern, IsBlank, Ending, Proper, Depth;
  }

  lemma OrdinaryLifts(mode: Mode, ctx: Context, p: Place, c: char)
    requires mode == Between || mode == Plain || (mode == Opening && ctx.In?)
    ensures Lifts(Ordinary(mode, LiftContext(ctx, p), c), Ordinary(mode, ctx, c), p, c)
  {
    hide Ordinary, LiftContext, Lifts, Lifted;
    if ctx.Top? {
      OrdinaryTopLifts(mode, p, c);
    } else {
      if IsOperatorChar(c) {
        OperatorCharLifts(mode, ctx, p, c);
      } else {
        CharLifts(mode, ctx, p, c);
      }
      InnerLifts(Ordinary(mode, LiftContext(ctx, p), c), Ordinary(mode, ctx, c), ctx, p, c);
    }
  }

  predicate IsQuoting(c: char) { c in {'\\', '\'', '"', '$'} }

  /** Quotes, and in the word of `${...}` anything but its end, leave the context alone. */
  lemma UnquotedStays(mode: Mode, ctx: Context, inner: Context, c: char)
    requires IsQuoting(c) || (InBraces(ctx) && InBraces(inner) && c != '`' && c != '}')
    ensures var m := Unquoted(mode, ctx, c);
            Unmoved(Unquoted(mode, inner, c), m, inner, ctx) && !m.control.mode.Op? && (Starts(m.control.mode) ==> Starts(mode))
  {
    hide IsPattern, IsBlank, IsOperatorChar, Ordinary, Nest, Pop, Proper, Depth;
  }

  lemma UnquotedLifts(mode: Mode, ctx: Context, p: Place, c: char)
    requires mode == Between || mode == Plain || (mode == Opening && ctx.In?)
    ensures Lifts(Unquoted(mode, LiftContext(ctx, p), c), Unquoted(mode, ctx, c), p, c)
  {
    var inner := LiftContext(ctx, p);
    assert InBraces(inner) == InBraces(ctx);
    hide LiftContext, Lifts;
    if IsQuoting(c) || (InBraces(ctx) && c != '`' && c != '}') {
      UnquotedStays(mode, ctx, inner, c);
      UnmovedLifts(Unquoted(mode, inner, c), Unquoted(mode, ctx, c), ctx, p, c);
      hide Unquoted;
    } else if c == '`' {
      NestLifts(Backquote, Verbatim, Free, ctx, p, c);
    } else if InBraces(ctx) {
      PopLifts(ctx, p, Skip, c);
    } else {
      OrdinaryLifts(mode, ctx, p, c);
    }
    hide Ordinary, Nest, Pop, Proper, Depth;
  }

  // ----- quotes and expansions -------------------------------------------------------------------

  /** The end of what is read like double quotes inside an expansion. */
  predicate Ends(ground: Ground, c: char) {
    (ground.Arithmetic? && ground.depth <= 1 && c == ')') || (ground == Default && c == '}')
  }

  /** Anything else but a backquote leaves the context alone. */
  lemma EnclosedStays(ground: Ground, ctx: Context, inner: Context, c: char)
    requires c != '`' && !Ends(ground, c)
    ensures var m := Enclosed(ground, ctx, c);
            Unmoved(Enclosed(ground, inner, c), m, inner, ctx) && !m.control.mode.Op? && !Starts(m.control.mode)
  {
    hide Proper, Depth, Pop, Nest;
  }

  lemma EnclosedLifts(ground: Ground, ctx: Context, p: Place, c: char)
    ensures Lifts(Enclosed(ground, LiftContext(ctx, p), c), Enclosed(ground, ctx, c), p, c)
  {
    var inner := LiftContext(ctx, p);
    hide LiftContext, Lifts, Nest, Proper, Depth, Pop;
    if c == '`' {
      NestLifts(Backquote, Verbatim, ground, ctx, p, c);
    } else if Ends(ground, c) {
      PopLifts(ctx, p, Skip, c);
    } else {
      EnclosedStays(ground, ctx, inner, c);
      UnmovedLifts(Enclosed(ground, inner, c), Enclosed(ground, ctx, c), ctx, p, c);
      hide Enclosed;
    }
  }

  lemma ResumeLifts(ground: Ground, ctx: Context, p: Place, c: char)
    ensures Lifts(Resume(ground, LiftContext(ctx, p), c), Resume(ground, ctx, c), p, c)
  {
    hide LiftContext, Unquoted, Enclosed, Lifts;
    if ground == Free {
      UnquotedLifts(Plain, ctx, p, c);
    } else {
      EnclosedLifts(ground, ctx, p, c);
    }
  }

  lemma DollarStays(ground: Ground, ctx: Context, inner: Context, c: char)
    requires c == '\\' || IsLetter(c) || IsSpecialParameter(c)
    ensures var m := AfterDollar(ground, ctx, c);
            Unmoved(AfterDollar(ground, inner, c), m, inner, ctx) && !m.control.mode.Op? && !Starts(m.control.mode)
  {
    hide Resume, Nest, Proper, Depth, IsLetter;
  }

  lemma DollarNests(ground: Ground, ctx: Context)
    ensures AfterDollar(ground, ctx, '(') == Nest(Opening, Commands(0), ground, ctx, '(')
    ensures AfterDollar(ground, ctx, '{') == Nest(BraceStart(ground != Free), BraceWord, ground, ctx, '{')
  {
    hide Resume, Nest, Proper, Depth;
  }

  lemma DollarResumes(ground: Ground, ctx: Context, c: char)
    requires c !in {'\\', '(', '{'} && !IsLetter(c) && !IsSpecialParameter(c)
    ensures AfterDollar(ground, ctx, c) == Resume(ground, ctx, c)
  {
    hide Resume, Nest, Proper, Depth, IsLetter, IsSpecialParameter;
  }

  lemma DollarLifts(ground: Ground, ctx: Context, p: Place, c: char)
    ensures Lifts(AfterDollar(ground, LiftContext(ctx, p), c), AfterDollar(ground, ctx, c), p, c)
  {
    var inner := LiftContext(ctx, p);
    hide LiftContext, AfterDollar, Resume, Lifts, Unmoved, Nest, IsLetter, IsSpecialParameter;
    if c == '\\' || IsLetter(c) || IsSpecialParameter(c) {
      DollarStays(ground, ctx, inner, c);
      UnmovedLifts(AfterDollar(ground, inner, c), AfterDollar(ground, ctx, c), ctx, p, c);
    } else if c == '(' || c == '{' {
      DollarNests(ground, ctx);
      DollarNests(ground, inner);
      NestLifts(Opening, Commands(0), ground, ctx, p, c);
      NestLifts(BraceStart(ground != Free), BraceWord, ground, ctx, p, c);
    } else {
      DollarResumes(ground, ctx, c);
      DollarResumes(ground, inner, c);
      ResumeLifts(ground, ctx, p, c);
    }
  }

  lemma ParamLifts(ground: Ground, ctx: Context, p: Place, c: char)
    ensures Lifts(InParam(ground, LiftContext(ctx, p), c), InParam(ground, ctx, c), p, c)
  {
    var inner := LiftContext(ctx, p);
    hide LiftContext, Resume, Lifts, IsLetter, IsDigit, Proper, Depth;
    if c == '\\' || IsLetter(c) || IsDigit(c) {
      UnmovedLifts(InParam(ground, inner, c), InParam(ground, ctx, c), ctx, p, c);
    } else {
      ResumeLifts(ground, ctx, p, c);
    }
  }

  predicate IsBrace(mode: Mode) {
    mode.BraceStart? || mode.BraceHash? || mode.BraceLength? || mode.BraceName? || mode.BraceColon? || mode.BracePattern?
  }

  /** Before its end, and but for the pattern, `${...}` leaves the context alone. */
  lemma BraceStays(mode: Mode, ctx: Context, inner: Context, c: char)
    requires IsBrace(mode) && c != '}' && (mode.BracePattern? ==> c == if mode.suffix then '%' else '#')
    ensures var m := InBrace(mode, ctx, c);
            Unmoved(InBrace(mode, inner, c), m, inner, ctx) && !m.control.mode.Op? && !Starts(m.control.mode)
  {
    hide Proper, Depth, IsLetter, IsDigit, IsSpecialParameter, Unquoted, Pop;
  }

  lemma BraceLifts(mode: Mode, ctx: Context, p: Place, c: char)
    requires IsBrace(mode)
    ensures Lifts(InBrace(mode, LiftContext(ctx, p), c), InBrace(mode, ctx, c), p, c)
  {
    var inner := LiftContext(ctx, p);
    hide LiftContext, Unquoted, Proper, Depth, Pop, IsLetter, IsDigit, IsSpecialParameter;
    if mode.BracePattern? && c != if mode.suffix then '%' else '#' {
      UnquotedLifts(Plain, ctx, p, c);
      hide Lifts;
    } else if c != '}' {
      BraceStays(mode, ctx, inner, c);
      UnmovedLifts(InBrace(mode, inner, c), InBrace(mode, ctx, c), ctx, p, c);
      hide InBrace, Lifts;
    } else {
      BraceEndLifts(mode, ctx, p);
    }
  }

  lemma BraceEnds(mode: Mode, ctx: Context)
    requires IsBrace(mode) && !mode.BracePattern?
    ensures InBrace(mode, ctx, '}')
            == if mode.BraceStart? || mode.BraceColon? then Put(Raw, ctx, Act('}')) else Pop(ctx, Skip)
  {
    hide Unquoted, Proper, Depth, Pop;
  }

  lemma BraceEndLifts(mode: Mode, ctx: Context, p: Place)
    requires IsBrace(mode) && !mode.BracePattern?
    ensures Lifts(InBrace(mode, LiftContext(ctx, p), '}'), InBrace(mode, ctx, '}'), p, '}')
  {
    BraceEnds(mode, ctx);
    BraceEnds(mode, LiftContext(ctx, p));
    PopLifts(ctx, p, Skip, '}');
    hide InBrace, LiftContext, Proper, Depth, Pop;
  }

  lemma OperatorLifts(text: string, ctx: Context, p: Place, c: char)
    ensures Lifts(InOperator(text, LiftContext(ctx, p), c), InOperator(text, ctx, c), p, c)
  {
    var m, m' := InOperator(text, ctx, c), InOperator(text, LiftContext(ctx, p), c);
    assert Extends(text, c) ==> c != '(' && c != ')';
    hide LiftContext, Unquoted, Proper, Depth, IsHereDoc, Extends;
    if c == '\\' {
      UnmovedLifts(m', m, ctx, p, c);
    } else if !Extends(text, c) && !IsHereDoc(text) {
      UnquotedLifts(Between, ctx, p, c);
    } else {
      assert m.control.mode != Raw ==> Opened(m, p.open, c) == Some(p.open);
    }
  }

  predicate IsSimple(mode: Mode) {
    mode == Squote || mode.WithinEscape? || mode.Escape? || mode == Comment || mode == Backquote || mode == BackEscape || mode == Raw
  }

  /** In these modes only the end of backquotes touches the context. */
  lemma SimpleStays(mode: Mode, ctx: Context, inner: Context, c: char)
    requires IsSimple(mode) && !(mode == Backquote && c == '`')
    ensures var m := NextMove(Control(mode, ctx), c);
            && Unmoved(NextMove(Control(mode, inner), c), m, inner, ctx)
            && (m.control.mode.Op? ==> c == '\n') && (Starts(m.control.mode) ==> Starts(mode))
  {
    hide Unquoted, Enclosed, AfterDollar, InParam, InBrace, InOperator, Pop, Proper, Depth, IsHereDoc;
  }

  lemma SimpleLifts(mode: Mode, ctx: Context, p: Place, c: char)
    requires IsSimple(mode) && (ctx == Top ==> !Starts(mode))
    ensures Lifts(NextMove(Control(mode, LiftContext(ctx, p)), c), NextMove(Control(mode, ctx), c), p, c)
  {
    if mode == Backquote && c == '`' {
      PopLifts(ctx, p, Skip, c);
      hide Pop, LiftContext;
    } else {
      SimpleStays(mode, ctx, LiftContext(ctx, p), c);
      hide NextMove;
    }
  }

  lemma MoveLifts(k: Control, p: Place, c: char)
    requires k.context == Top ==> !Starts(k.mode)
    ensures Lifts(NextMove(Lift(k, p), c), NextMove(k, c), p, c)
  {
    var ctx := k.context;
    hide LiftContext, Lifts, Unquoted, Enclosed, AfterDollar, InParam, InBrace, InOperator, AfterEscape, Proper, Depth;
    match k.mode
    case Between => UnquotedLifts(Between, ctx, p, c);
    case Opening => UnquotedLifts(Opening, ctx, p, c);
    case Plain => UnquotedLifts(Plain, ctx, p, c);
    case Within(ground) => EnclosedLifts(ground, ctx, p, c);
    case Dollar(ground) => DollarLifts(ground, ctx, p, c);
    case Param(ground) => ParamLifts(ground, ctx, p, c);
    case Op(text) => OperatorLifts(text, ctx, p, c);
    case _ =>
      if IsSimple(k.mode) {
        SimpleLifts(k.mode, ctx, p, c);
        hide NextMove;
      } else {
        BraceLifts(k.mode, ctx, p, c);
      }
  }

  // ----- a whole text -----------------------------------------------------------------------------------

  function LiftOuter(outer: Outer, around: Outer): Outer {
    match outer
    case Bottom => around
    case Saved(tokens, word, rest) => Saved(tokens, word, LiftOuter(rest, around))
  }

  function LiftData(d: Data, around: Outer): Data { d.(outer := LiftOuter(d.outer, around)) }

  function LiftLexer(l: Lexer, p: Place, around: Outer): Lexer { Lexer(Lift(l.control, p), LiftData(l.data, around)) }

  lemma DoLifts(d: Data, e: Edit, around: Outer)
    requires e == Leave ==> d.outer != Bottom
    ensures Do(LiftData(d, around), e) == LiftData(Do(d, e), around)
  {
    hide IsIoNumber;
  }

  lemma StepLifts(l: Lexer, p: Place, around: Outer, c: char)
    requires Sound(l) && (l.control.context == Top ==> !Starts(l.control.mode))
    requires var m := NextMove(l.control, c); m.control.mode != Raw && Opened(m, p.open, c).Some?
    ensures var next, p' := Step(l, c), p.(open := Opened(NextMove(l.control, c), p.open, c).value);
            && Step(LiftLexer(l, p, around), c) == LiftLexer(next, p', around)
            && (next.control.context == Top ==> !Starts(next.control.mode))
  {
    var m := NextMove(l.control, c);
    MoveLifts(l.control, p, c);
    assert Proper(l.control.context, m);
    DoHeight(l.data, m.first);
    hide NextMove, LiftData, LiftContext, Opened;
    DoLifts(l.data, m.first, around);
    var d := Do(l.data, m.first);
    DoLifts(d, m.second, around);
    DoLifts(Do(d, m.second), m.third, around);
    hide Do;
  }

  lemma {:induction false} ScanLifts(l: Lexer, p: Place, around: Outer, s: string)
    requires Sound(l) && InPlace(l) && (l.control.context == Top ==> !Starts(l.control.mode)) && Closed(l.control, p.open, s)
    ensures Scan(LiftLexer(l, p, around), s) == LiftLexer(Scan(l, s), p.(open := 0), around)
    ensures Sound(Scan(l, s)) && InPlace(Scan(l, s)) && Closed(Scan(l, s).control, 0, "")
    decreases |s|
  {
    hide NextMove, Do, LiftLexer, Sound, InPlace, Opened;
    if s != "" {
      var m := NextMove(l.control, s[0]);
      assert m.control.mode != Raw;
      StepLifts(l, p, around, s[0]);
      StepSound(l, s[0]);
      StepInPlace(l, s[0]);
      ScanLifts(Step(l, s[0]), p.(open := Opened(m, p.open, s[0]).value), around, s[1..]);
    }
  }

  // ----- command substitutions -------------------------------------------------------------------------

  /** A text whose end does not depend on what follows, and that a `(` before it does not turn into an
      arithmetic expansion. */
  predicate Encloses(s: string) {
    Closed(START.control, 0, s) && Tokens(s).Some? && (s != "" ==> s[0] !in {'(', '\\'})
  }

  lemma OpeningIsBetween(ctx: Context, c: char)
    requires c !in {'(', '\\'}
    ensures NextMove(Control(Opening, ctx), c) == NextMove(Control(Between, ctx), c)
  {
    hide Proper, Depth;
  }

  lemma StepDollar(l: Lexer, ground: Ground)
    requires l.control.mode == ModeOf(ground)
    ensures Step(l, '$') == WithWord(l, Dollar(ground), Push(l.data.word, Act('$')))
  {
    hide Ordinary, Proper, Depth;
  }

  lemma StepParenthesis(l: Lexer, ground: Ground)
    requires l.control.mode == Dollar(ground)
    ensures var d := l.data;
            Step(l, '(') == Lexer(Control(Opening, In(Commands(0), ground, l.control.context)),
                                  Data([], NONE, Saved(d.tokens, Push(d.word, Act('(')), d.outer)))
  {
    hide Unquoted, Enclosed, Proper, Depth;
  }

  /** The `)` ends the text as its own end would. */
  lemma StepClose(k: Control, d: Data)
    requires k.context.In? && k.context.kind == Commands(0) && d.outer.Saved?
    requires k.mode in {Between, Opening, Plain, Dollar(Free), Param(Free)} || (k.mode.Op? && !IsHereDoc(k.mode.text))
    ensures var last := if k.mode == Opening then Skip else LastEdit(k.mode);
            Step(Lexer(k, d), ')') == Lexer(Control(ModeOf(k.context.back), k.context.outer), Do(Do(d, last), Leave))
  {
    hide Enclosed, IsPattern, Counted, Proper, Depth;
  }

  /** A command substitution reads its text as a shell of its own would, whatever is around it, and then
      the text around goes on where it was. */
  lemma SubstitutionReads(l: Lexer, ground: Ground, s: string)
    requires l.control.mode == ModeOf(ground) && Encloses(s)
    ensures Scan(l, "$(" + s + ")")
            == WithWord(l, l.control.mode, Push(Push(Push(l.data.word, Act('$')), Act('(')), Inside(Tokens(s).value, NONE)))
  {
    hide Step, Closed, Finish, Scan;
    var ctx, p := l.control.context, Push(l.data.word, Act('$'));
    var a := WithWord(l, Dollar(ground), p);
    var around := Saved(l.data.tokens, Push(p, Act('(')), l.data.outer);
    var inside := Lexer(Control(Opening, In(Commands(0), ground, ctx)), Data([], NONE, around));
    StepDollar(l, ground);
    StepParenthesis(a, ground);
    ScanOne(l, '$');
    ScanOne(a, '(');
    ScanAppend(l, "$", "(");
    assert "$" + "(" == "$(";
    ScanAppend(l, "$(" + s, ")");
    ScanAppend(l, "$(", s);
    ScanOne(Scan(inside, s), ')');
    ScanInside(ground, ctx, around, s);
    var end := Scan(inside, s);
    StepClose(end.control, end.data);
  }

  lemma ScanInside(ground: Ground, ctx: Context, around: Outer, s: string)
    requires Encloses(s) && around.Saved?
    ensures var k := In(Commands(0), ground, ctx);
            var end := Scan(Lexer(Control(Opening, k), Data([], NONE, around)), s);
            var mode := end.control.mode;
            && end.control.context == k && end.data.outer == around
            && (mode in {Between, Opening, Plain, Dollar(Free), Param(Free)} || (mode.Op? && !IsHereDoc(mode.text)))
            && var last := Do(end.data, if mode == Opening then Skip else LastEdit(mode));
               last == Data(Tokens(s).value, NONE, around)
  {
    var k, top := In(Commands(0), ground, ctx), Scan(START, s);
    var inside := Lexer(Control(Opening, k), Data([], NONE, around));
    if s == "" {
      hide Step;
    } else {
      var lifted := LiftLexer(START, Place(0, ground, ctx), around);
      assert lifted == Lexer(Control(Between, k), Data([], NONE, around));
      OpeningIsBetween(k, s[0]);
      ScanLifts(START, Place(0, ground, ctx), around, s);
      assert Step(inside, s[0]) == Step(lifted, s[0]);
      assert Scan(inside, s) == LiftLexer(top, Place(0, ground, ctx), around);
      hide Scan, Step;
      EndsInside(top, ground, ctx, around);
    }
  }

  lemma EndsInside(l: Lexer, ground: Ground, ctx: Context, around: Outer)
    requires Sound(l) && InPlace(l) && Closed(l.control, 0, "") && Finish(l).Some?
    ensures var end := LiftLexer(l, Place(0, ground, ctx), around);
            var mode := end.control.mode;
            && end.control.context == In(Commands(0), ground, ctx) && end.data.outer == around
            && (mode in {Between, Plain, Dollar(Free), Param(Free)} || (mode.Op? && !IsHereDoc(mode.text)))
            && Do(end.data, LastEdit(mode)) == Data(Finish(l).value, NONE, around)
  {
    assert l.data.outer == Bottom;
    hide IsIoNumber;
  }

  // ----- parameter expansions -----------------------------------------------------------------------------

  lemma {:induction false} ScanBraceName(l: Lexer, quoted: bool, name: string)
    requires l.control.mode == BraceName(quoted) && forall c :: c in name ==> IsLetter(c) || IsDigit(c)
    ensures Scan(l, name) == WithWord(l, BraceName(quoted), Piece(l.data.word.atoms + Mapped(ToAct, name), l.data.word.quoted))
    decreases |name|
  {
    hide Step, Mapped;
    if name == "" {
      assert l.data.word.atoms + Mapped(ToAct, name) == l.data.word.atoms;
    } else {
      var c, rest := name[0], name[1..];
      assert name == [c] + rest && c in name && forall d :: d in rest ==> d in name;
      StepBraceName(l, c);
      ScanBraceName(Step(l, c), quoted, rest);
      AppendCons(l.data.word.atoms, ToAct, c, rest);
    }
  }

  lemma StepBraceName(l: Lexer, c: char)
    requires l.control.mode.BraceName? || l.control.mode.BraceStart?
    requires IsLetter(c) || (l.control.mode.BraceName? && IsDigit(c))
    ensures Step(l, c) == WithWord(l, BraceName(l.control.mode.quoted), Push(l.data.word, Act(c)))
  {
    hide Unquoted, Enclosed, Proper, Depth;
  }

  lemma StepBraces(l: Lexer, ground: Ground)
    requires l.control.mode == Dollar(ground)
    ensures var d := l.data;
            Step(l, '{') == Lexer(Control(BraceStart(ground != Free), In(BraceWord, ground, l.control.context)),
                                  Data([], NONE, Saved(d.tokens, Push(d.word, Act('{')), d.outer)))
  {
    hide Unquoted, Enclosed, Proper, Depth;
  }

  lemma StepCloseBrace(k: Control, d: Data)
    requires k.mode.BraceName? && k.context.In?
    ensures Step(Lexer(k, d), '}') == Lexer(Control(ModeOf(k.context.back), k.context.outer), Do(d, Leave))
  {
    hide Unquoted, Enclosed, Proper, Depth;
  }

  lemma ScanWholeName(l: Lexer, name: string)
    requires l.control.mode.BraceStart?
    requires name != "" && IsLetter(name[0]) && forall c :: c in name ==> IsLetter(c) || IsDigit(c)
    ensures Scan(l, name)
            == WithWord(l, BraceName(l.control.mode.quoted), Piece(l.data.word.atoms + Mapped(ToAct, name), l.data.word.quoted))
  {
    hide Step, Scan, Mapped;
    var c, rest := name[0], name[1..];
    assert name == [c] + rest && forall d :: d in rest ==> d in name;
    StepBraceName(l, c);
    ScanOne(l, c);
    ScanAppend(l, [c], rest);
    ScanBraceName(Step(l, c), l.control.mode.quoted, rest);
    AppendCons(l.data.word.atoms, ToAct, c, rest);
  }

  /** `${name}` is one expansion, and then the text around goes on where it was. */
  lemma ParameterReads(l: Lexer, ground: Ground, name: string)
    requires l.control.mode == ModeOf(ground)
    requires name != "" && IsLetter(name[0]) && forall c :: c in name ==> IsLetter(c) || IsDigit(c)
    ensures Scan(l, "${" + name + "}")
            == WithWord(l, l.control.mode,
                        Push(Push(Push(l.data.word, Act('$')), Act('{')), Inside([], Piece(Mapped(ToAct, name), false))))
  {
    hide Step, Scan, Mapped, IsLetter, IsDigit;
    var p := Push(l.data.word, Act('$'));
    var a := WithWord(l, Dollar(ground), p);
    var around := Saved(l.data.tokens, Push(p, Act('{')), l.data.outer);
    var b := Lexer(Control(BraceStart(ground != Free), In(BraceWord, ground, l.control.context)), Data([], NONE, around));
    StepDollar(l, ground);
    StepBraces(a, ground);
    ScanOne(l, '$');
    ScanOne(a, '{');
    ScanAppend(l, "$", "{");
    assert "$" + "{" == "${";
    ScanWholeName(b, name);
    assert [] + Mapped(ToAct, name) == Mapped(ToAct, name);
    ScanAppend(l, "${" + name, "}");
    ScanAppend(l, "${", name);
    var end := Scan(b, name);
    ScanOne(end, '}');
    StepCloseBrace(end.control, end.data);
  }

  // ----- placeholders after an expansion ---------------------------------------------------------------------

  /** Reading the text before it decides about a placeholder. */
  lemma {:induction false} UnquotedAfterText(l: Lexer, s: string, rest: seq<Part>, optional: set<string>)
    ensures AllUnquoted(l.control, Mapped(ToText, s) + rest, optional) <==> AllUnquoted(Scan(l, s).control, rest, optional)
    decreases |s|
  {
    hide NextMove, Do, Mapped, IsPlainPosition, InBraces;
    if s == "" {
      assert Mapped(ToText, s) + rest == rest;
    } else {
      var parts := Mapped(ToText, s) + rest;
      assert parts[0] == Text(s[0]) && parts[1..] == Mapped(ToText, s[1..]) + rest;
      UnquotedAfterText(Step(l, s[0]), s[1..], rest, optional);
    }
  }

  /** A placeholder after a closed `${name}` or `$(...)` stands as unquoted as one before it. */
  lemma UnquotedAfterExpansion(l: Lexer, name: string, s: string, rest: seq<Part>, optional: set<string>)
    requires l.control.mode == Plain && name != "" && IsLetter(name[0]) && forall c :: c in name ==> IsLetter(c) || IsDigit(c)
    requires Encloses(s)
    ensures AllUnquoted(l.control, Mapped(ToText, "${" + name + "}") + rest, optional) <==> AllUnquoted(l.control, rest, optional)
    ensures AllUnquoted(l.control, Mapped(ToText, "$(" + s + ")") + rest, optional) <==> AllUnquoted(l.control, rest, optional)
  {
    ParameterReads(l, Free, name);
    SubstitutionReads(l, Free, s);
    UnquotedAfterText(l, "${" + name + "}", rest, optional);
    UnquotedAfterText(l, "$(" + s + ")", rest, optional);
    hide Scan, AllUnquoted, Mapped, Encloses;
  }

  lemma MoveSafe(mode: Mode, c: char)
    requires (mode == Between || mode == Plain) && IsSafe(c)
    ensures NextMove(Control(mode, Top), c) == Put(Plain, Top, Bare(c))
  {
    UnquotedSafe(mode, Top, c);
    hide Unquoted;
  }

  lemma {:induction false} SafeIsClosed(mode: Mode, s: string)
    requires mode == Between || mode == Plain
    requires forall c :: c in s ==> IsSafe(c)
    ensures Closed(Control(mode, Top), 0, s)
    decreases |s|
  {
    if s != "" {
      assert s[0] in s && forall c :: c in s[1..] ==> c in s;
      MoveSafe(mode, s[0]);
      SafeIsClosed(Plain, s[1..]);
    }
    hide NextMove, IsSafe;
  }

  /** For example, a command name without arguments. */
  lemma BareWordEncloses(s: string)
    requires IsBare(s)
    ensures Encloses(s) && Tokens(s) == Some([Word(Literal(s))])
  {
    ScanBare(START, s);
    SafeIsClosed(Between, s);
    assert s[0] in s && !IsSafe('(') && !IsSafe('\\');
    hide Scan, Closed, Joined, IsSafe;
    assert [] + [Word(Literal(s))] == [Word(Literal(s))];
  }
}
