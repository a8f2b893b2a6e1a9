/** Token recognition and quoting of the POSIX shell command language (POSIX.1-2017, XCU
    sections 2.2, 2.3 and 2.6), and `shlex.quote`.

    A word is a sequence of atoms.  A quoted one stands for itself whatever comes later.  A bare one
    stands for itself in its word, but the word as a whole may still be a reserved word or an assignment,
    and beside an active `~` or `[` it takes part in the tilde prefix or the bracket expression.  An
    active one is what a later phase acts on.  `$(...)`, `${...}`, `$((...))` and backquotes nest: what
    they hold is read by its own rules, kept as one atom, and then the text around them goes on.

    What follows a here-document operator, or within `${` anything but the forms of section 2.6.2, is
    not read further.  A `)` that no `(` opened ends a command substitution: the patterns of a `case`
    command in one need their own `(`. */
module Shell {
  import opened Prelude

  datatype Atom = Bare(c: char) | Quoted(c: char) | Act(c: char) | Inside(tokens: seq<Token>, word: Piece)

  /** A word so far, and whether any part of it is quoted, be it an empty part. */
  datatype Piece = Piece(atoms: seq<Atom>, quoted: bool)

  const NONE := Piece([], false)

  datatype Token = Word(piece: Piece) | IoNumber(digits: seq<Atom>) | Operator(text: string) | Newline

  /** What an expansion stands in: no quotes, double quotes, the word of `${name:-word}` within double
      quotes, or an arithmetic expansion with so many open parentheses. */
  datatype Ground = Free | Double | Default | Arithmetic(depth: nat)

  /** What a backslash within quotes interrupts, should a line continuation follow. */
  datatype Held = Body | Sign | Name

  datatype Mode =
    | Between                             // no token has begun
    | Opening                             // right after `$(`
    | Plain                               // inside a word, unquoted
    | Squote
    | Within(ground: Ground)              // inside double quotes, or what is read like them
    | WithinEscape(ground: Ground, held: Held)
    | Escape(back: Mode)                  // after an unquoted backslash
    | Dollar(ground: Ground)              // after `$`
    | Param(ground: Ground)               // inside the name of `$name`
    | Op(text: string)                    // inside an operator
    | Comment
    | BraceStart(quoted: bool)            // after `${`
    | BraceHash                           // after `${#`
    | BraceLength                         // inside the name of `${#name}`
    | BraceName(quoted: bool)
    | BraceColon(quoted: bool)
    | BracePattern(suffix: bool)          // after the first `%` or `#`
    | Backquote
    | BackEscape
    | Raw                                 // not read further

  /** What holds the text being read: commands with so many open parentheses, the word of `${...}`, or
      text whose mode alone tells its end. */
  datatype Kind = Commands(depth: nat) | BraceWord | Verbatim

  datatype Context = Top | In(kind: Kind, back: Ground, outer: Context)

  datatype Control = Control(mode: Mode, context: Context)

  /** What has been read: tokens, the current word, and those of the texts around. */
  datatype Outer = Bottom | Saved(tokens: seq<Token>, word: Piece, outer: Outer)

  datatype Data = Data(tokens: seq<Token>, word: Piece, outer: Outer)

  datatype Lexer = Lexer(control: Control, data: Data)

  const START := At(Between, [], NONE)

  function At(mode: Mode, tokens: seq<Token>, word: Piece): Lexer {
    Lexer(Control(mode, Top), Data(tokens, word, Bottom))
  }

  // ----- character classes ------------------------------------------------------

  predicate IsLetter(c: char) { 'a' <= c <= 'z' || 'A' <= c <= 'Z' || c == '_' }

  predicate IsDigit(c: char) { '0' <= c <= '9' }

  predicate IsBlank(c: char) { c == ' ' || c == '\t' }

  predicate IsOperatorChar(c: char) { c in {'&', '|', ';', '<', '>', '(', ')'} }

  predicate IsRedirection(c: char) { c == '<' || c == '>' }

  /** Unquoted characters that pathname or tilde expansion looks for. */
  predicate IsPattern(c: char) { c in {'*', '?', '[', '~'} }

  predicate IsSpecialParameter(c: char) { IsDigit(c) || c in {'@', '*', '#', '?', '-', '$', '!'} }

  /** Every operator of more than one character, by its proper prefix. */
  predicate Extends(text: string, c: char) {
    || (text == "&" && c == '&')
    || (text == "|" && c == '|')
    || (text == ";" && c == ';')
    || (text == "<" && c in {'<', '&', '>'})
    || (text == ">" && c in {'>', '&', '|'})
    || (text == "<<" && c == '-')
  }

  predicate IsHereDoc(text: string) { text == "<<" || text == "<<-" }

  // ----- what one character does to what has been read ---------------------------------

  datatype Edit =
    | Skip
    | Add(atom: Atom)
    | Mark               // part of the word is quoted
    | EndWord
    | EndBefore          // before `<` or `>`
    | Emit(token: Token)
    | Enter
    | Leave

  predicate IsDigits(p: Piece) {
    !p.quoted && forall i :: 0 <= i < |p.atoms| ==> p.atoms[i].Bare? && IsDigit(p.atoms[i].c)
  }

  predicate IsIoNumber(p: Piece) { p.atoms != [] && IsDigits(p) }

  function Push(p: Piece, a: Atom): Piece { Piece(p.atoms + [a], p.quoted || a.Quoted?) }

  /** Unquoted digits right before `<` or `>` are an IO number (section 2.10.1). */
  function Do(d: Data, e: Edit): Data {
    match e
    case Skip => d
    case Add(a) => d.(word := Push(d.word, a))
    case Mark => d.(word := d.word.(quoted := true))
    case EndWord => d.(tokens := d.tokens + [Word(d.word)], word := NONE)
    case EndBefore => d.(tokens := d.tokens + [if IsIoNumber(d.word) then IoNumber(d.word.atoms) else Word(d.word)], word := NONE)
    case Emit(token) => d.(tokens := d.tokens + [token])
    case Enter => Data([], NONE, Saved(d.tokens, d.word, d.outer))
    case Leave =>
      match d.outer
      case Bottom => d
      case Saved(tokens, word, outer) => Data(tokens, Push(word, Inside(d.tokens, d.word)), outer)
  }

  // ----- the lexer -----------------------------------------------------------------

  /** Where the next character finds the lexer, and up to three edits. */
  datatype Move = Move(control: Control, first: Edit, second: Edit, third: Edit)

  function Depth(ctx: Context): nat { if ctx.Top? then 0 else 1 + Depth(ctx.outer) }

  predicate IsFlat(e: Edit) { e != Enter && e != Leave }

  /** A move ends a word first, and enters a text, leaves one, or does neither. */
  predicate Proper(ctx: Context, m: Move) {
    var n := Depth(m.control.context);
    && IsFlat(m.first)
    && m.second != EndBefore && m.third != EndBefore
    && ((IsFlat(m.second) && IsFlat(m.third) && n == Depth(ctx))
        || (IsFlat(m.second) && m.third == Enter && n == Depth(ctx) + 1)
        || (m.second == Leave && IsFlat(m.third) && n + 1 == Depth(ctx) && (m.control.mode == Plain || m.control.mode.Within?)))
  }

  function Stay(mode: Mode, ctx: Context): (m: Move)
    ensures Proper(ctx, m)
  { Move(Control(mode, ctx), Skip, Skip, Skip) }

  function Put(mode: Mode, ctx: Context, a: Atom): (m: Move)
    ensures Proper(ctx, m)
  { Move(Control(mode, ctx), Skip, Add(a), Skip) }

  function Nest(mode: Mode, kind: Kind, ground: Ground, ctx: Context, c: char): (m: Move)
    ensures Proper(ctx, m)
  {
    Move(Control(mode, In(kind, ground, ctx)), Skip, Add(Act(c)), Enter)
  }

  function ModeOf(ground: Ground): Mode { if ground == Free then Plain else Within(ground) }

  function Pop(ctx: Context, first: Edit): (m: Move)
    requires IsFlat(first)
    ensures Proper(ctx, m)
  {
    if ctx.In? then Move(Control(ModeOf(ctx.back), ctx.outer), first, Leave, Skip)
    else Move(Control(Raw, ctx), first, Skip, Skip)
  }

  /** The edit that ends the current word, if there is one. */
  function Ending(mode: Mode, c: char): Edit {
    if mode != Plain then Skip else if IsRedirection(c) then EndBefore else EndWord
  }

  predicate Closes(ctx: Context) { ctx.In? && ctx.kind == Commands(0) }

  /** The open parentheses after an operator character. */
  function Counted(ctx: Context, c: char): (r: Context)
    ensures Depth(r) == Depth(ctx)
  {
    if !ctx.In? || !ctx.kind.Commands? then ctx
    else if c == '(' then ctx.(kind := Commands(ctx.kind.depth + 1))
    else if c == ')' && ctx.kind.depth > 0 then ctx.(kind := Commands(ctx.kind.depth - 1))
    else ctx
  }

  /** A character of commands that quotes nothing: between tokens or inside a word. */
  function Ordinary(mode: Mode, ctx: Context, c: char): (m: Move)
    ensures mode != Plain ==> m.first == Skip
    ensures Proper(ctx, m)
  {
    if IsBlank(c) then Move(Control(Between, ctx), Ending(mode, c), Skip, Skip)
    else if c == '\n' then Move(Control(Between, ctx), Ending(mode, c), Emit(Newline), Skip)
    else if c == ')' && Closes(ctx) then Pop(ctx, Ending(mode, c))
    else if c == '(' && mode == Opening && ctx.In? then
      Put(Within(Arithmetic(2)), In(Verbatim, ctx.back, ctx.outer), Act(c))
    else if IsOperatorChar(c) then Move(Control(Op([c]), Counted(ctx, c)), Ending(mode, c), Skip, Skip)
    else if c == '#' && mode != Plain then Stay(Comment, ctx)
    else Put(Plain, ctx, if IsPattern(c) then Act(c) else Bare(c))
  }

  /** A character where no quoting is in force. */
  function Unquoted(mode: Mode, ctx: Context, c: char): (m: Move)
    ensures mode != Plain ==> m.first == Skip
    ensures Proper(ctx, m)
  {
    if c == '\\' then Stay(Escape(mode), ctx)
    else if c == '\'' then Move(Control(Squote, ctx), Skip, Mark, Skip)
    else if c == '"' then Move(Control(Within(Double), ctx), Skip, Mark, Skip)
    else if c == '$' then Put(Dollar(Free), ctx, Act(c))
    else if c == '`' then Nest(Backquote, Verbatim, Free, ctx, c)
    else if !ctx.In? || !ctx.kind.BraceWord? then Ordinary(mode, ctx, c)
    else if c == '}' then Pop(ctx, Skip)
    else Put(Plain, ctx, if IsBlank(c) || c == '\n' || IsOperatorChar(c) || IsPattern(c) then Act(c) else Bare(c))
  }

  /** A character inside double quotes, or inside what is read like them. */
  function Enclosed(ground: Ground, ctx: Context, c: char): (m: Move)
    ensures Proper(ctx, m)
  {
    if c == '\\' then Stay(WithinEscape(ground, Body), ctx)
    else if c == '$' then Put(Dollar(ground), ctx, Act(c))
    else if c == '`' then Nest(Backquote, Verbatim, ground, ctx, c)
    else
      match ground
      case Arithmetic(depth) =>
        if c == '(' then Put(Within(Arithmetic(depth + 1)), ctx, Act(c))
        else if c == ')' then if depth <= 1 then Pop(ctx, Skip) else Put(Within(Arithmetic(depth - 1)), ctx, Act(c))
        else Put(Within(ground), ctx, Act(c))
      case Default =>
        if c == '}' then Pop(ctx, Skip)
        else if c == '"' then Put(Raw, ctx, Act(c))
        else Put(Within(ground), ctx, Quoted(c))
      case _ => if c == '"' then Stay(Plain, ctx) else Put(Within(ground), ctx, Quoted(c))
  }

  /** The text around an expansion goes on. */
  function Resume(ground: Ground, ctx: Context, c: char): (m: Move)
    ensures Proper(ctx, m)
  {
    if ground == Free then Unquoted(Plain, ctx, c) else Enclosed(ground, ctx, c)
  }

  function AfterDollar(ground: Ground, ctx: Context, c: char): (m: Move)
    ensures Proper(ctx, m)
  {
    if c == '\\' then Stay(if ground == Free then Escape(Dollar(Free)) else WithinEscape(ground, Sign), ctx)
    else if IsLetter(c) then Put(Param(ground), ctx, Act(c))
    else if IsSpecialParameter(c) then Put(ModeOf(ground), ctx, Act(c))
    else if c == '(' then Nest(Opening, Commands(0), ground, ctx, c)
    else if c == '{' then Nest(BraceStart(ground != Free), BraceWord, ground, ctx, c)
    else Resume(ground, ctx, c)
  }

  function InParam(ground: Ground, ctx: Context, c: char): (m: Move)
    ensures Proper(ctx, m)
  {
    if c == '\\' then Stay(if ground == Free then Escape(Param(Free)) else WithinEscape(ground, Name), ctx)
    else if IsLetter(c) || IsDigit(c) then Put(Param(ground), ctx, Act(c))
    else Resume(ground, ctx, c)
  }

  /** The parameter and the operator of `${...}` (section 2.6.2).  Within double quotes, quotes act in the
      pattern after `#` or `%` but not in the word after the other operators. */
  function InBrace(mode: Mode, ctx: Context, c: char): (m: Move)
    ensures Proper(ctx, m)
  {
    var name := IsLetter(c) || IsDigit(c);
    match mode
    case BraceStart(quoted) =>
      if c == '#' then Put(BraceHash, ctx, Act(c))
      else if name || IsSpecialParameter(c) then Put(BraceName(quoted), ctx, Act(c))
      else Put(Raw, ctx, Act(c))
    case BraceName(quoted) =>
      if name then Put(mode, ctx, Act(c))
      else if c == '}' then Pop(ctx, Skip)
      else if c == ':' then Put(BraceColon(quoted), ctx, Act(c))
      else if c == '#' || c == '%' then Put(BracePattern(c == '%'), ctx, Act(c))
      else Operand(quoted, ctx, c)
    case BraceColon(quoted) => Operand(quoted, ctx, c)
    case BracePattern(suffix) => if c == (if suffix then '%' else '#') then Put(Plain, ctx, Act(c)) else Unquoted(Plain, ctx, c)
    case BraceHash =>
      if name then Put(BraceLength, ctx, Act(c)) else if c == '}' then Pop(ctx, Skip) else Put(Raw, ctx, Act(c))
    case _ =>
      if name then Put(mode, ctx, Act(c)) else if c == '}' then Pop(ctx, Skip) else Put(Raw, ctx, Act(c))
  }

  function Operand(quoted: bool, ctx: Context, c: char): (m: Move)
    ensures Proper(ctx, m)
  {
    if c in {'-', '=', '?', '+'} then Put(if quoted then Within(Default) else Plain, ctx, Act(c))
    else Put(Raw, ctx, Act(c))
  }

  function HeldMode(ground: Ground, held: Held): Mode {
    match held
    case Body => Within(ground)
    case Sign => Dollar(ground)
    case Name => Param(ground)
  }

  function AfterEscape(back: Mode, ctx: Context, c: char): (m: Move)
    ensures Proper(ctx, m)
  {
    if c == '\n' then Stay(back, ctx)
    else if back.Op? && IsHereDoc(back.text) then Move(Control(Raw, ctx), Emit(Operator(back.text)), Add(Act('\\')), Add(Act(c)))
    else Move(Control(Plain, ctx), if back.Op? then Emit(Operator(back.text)) else Skip, Add(Quoted(c)), Skip)
  }

  function InOperator(text: string, ctx: Context, c: char): (m: Move)
    ensures Proper(ctx, m)
  {
    if c == '\\' then Stay(Escape(Op(text)), ctx)
    else if Extends(text, c) then Stay(Op(text + [c]), ctx)
    else if IsHereDoc(text) then Move(Control(Raw, ctx), Emit(Operator(text)), Add(Act(c)), Skip)
    else Unquoted(Between, ctx, c).(first := Emit(Operator(text)))
  }

  function NextMove(k: Control, c: char): (m: Move)
    ensures Proper(k.context, m)
  {
    var ctx := k.context;
    match k.mode
    case Between => Unquoted(Between, ctx, c)
    case Opening => Unquoted(Opening, ctx, c)
    case Plain => Unquoted(Plain, ctx, c)
    case Squote => if c == '\'' then Stay(Plain, ctx) else Put(Squote, ctx, Quoted(c))
    case Within(ground) => Enclosed(ground, ctx, c)
    case WithinEscape(ground, held) =>
      if c == '\n' then Stay(HeldMode(ground, held), ctx)
      else if c in {'$', '`', '"', '\\'} || (c == '}' && ground == Default) then Put(Within(ground), ctx, Quoted(c))
      else Move(Control(Within(ground), ctx), Skip, Add(Quoted('\\')), Add(Quoted(c)))
    case Escape(back) => AfterEscape(back, ctx, c)
    case Dollar(ground) => AfterDollar(ground, ctx, c)
    case Param(ground) => InParam(ground, ctx, c)
    case Op(text) => InOperator(text, ctx, c)
    case Comment => if c == '\n' then Move(Control(Between, ctx), Skip, Emit(Newline), Skip) else Stay(Comment, ctx)
    case Backquote =>
      if c == '`' then Pop(ctx, Skip) else Put(if c == '\\' then BackEscape else Backquote, ctx, Act(c))
    case BackEscape => Put(Backquote, ctx, Act(c))
    case Raw => Put(Raw, ctx, Act(c))
    case _ => InBrace(k.mode, ctx, c)
  }

  function Step(l: Lexer, c: char): Lexer {
    var m := NextMove(l.control, c);
    Lexer(m.control, Do(Do(Do(l.data, m.first), m.second), m.third))
  }

  /** Delimit an operator; a word goes on. */
  function Settle(l: Lexer): Lexer {
    if l.control.mode.Op? then l.(data := Do(l.data, Emit(Operator(l.control.mode.text)))) else l
  }

  function Scan(l: Lexer, s: string): Lexer
    decreases |s|
  {
    if s == "" then l else Scan(Step(l, s[0]), s[1..])
  }

  /** The raw rest ends all texts around it. */
  function Collapse(d: Data): Data
    decreases d.outer
  {
    if d.outer.Bottom? then d else Collapse(Do(d, Leave))
  }

  /** No quotation and no expansion is open, and no backslash ends the text. */
  predicate CanEnd(k: Control) {
    || k.mode == Raw
    || (k.context == Top && (k.mode in {Between, Comment, Plain, Dollar(Free), Param(Free)} || k.mode.Op?))
  }

  function LastEdit(mode: Mode): Edit {
    match mode
    case Between => Skip
    case Comment => Skip
    case Op(text) => Emit(Operator(text))
    case _ => EndWord
  }

  function Finish(l: Lexer): Option<seq<Token>> {
    if CanEnd(l.control) then Some(Do(Collapse(l.data), LastEdit(l.control.mode)).tokens) else None
  }

  function Tokens(s: string): Option<seq<Token>> { Finish(Scan(START, s)) }

  lemma {:induction false} ScanAppend(l: Lexer, s: string, t: string)
    ensures Scan(l, s + t) == Scan(Scan(l, s), t)
    decreases |s|
  {
    hide Step;
    if s == "" {
      assert s + t == t;
    } else {
      assert (s + t)[1..] == s[1..] + t;
      ScanAppend(Step(l, s[0]), s[1..], t);
    }
  }

  lemma ScanOne(l: Lexer, c: char)
    ensures Scan(l, [c]) == Step(l, c)
  {
    hide Step;
    assert [c][1..] == "";
  }

  // ----- every text around the current one has been saved ---------------------------------

  function Height(outer: Outer): nat { if outer.Bottom? then 0 else 1 + Height(outer.outer) }

  predicate Sound(l: Lexer) { Height(l.data.outer) == Depth(l.control.context) }

  lemma DoHeight(d: Data, e: Edit)
    ensures IsFlat(e) ==> Height(Do(d, e).outer) == Height(d.outer)
    ensures e == Enter ==> Height(Do(d, e).outer) == Height(d.outer) + 1
    ensures e == Leave && d.outer != Bottom ==> Height(Do(d, e).outer) + 1 == Height(d.outer)
  {
  }

  lemma StepSound(l: Lexer, c: char)
    requires Sound(l)
    ensures Sound(Step(l, c))
  {
    var m := NextMove(l.control, c);
    assert Proper(l.control.context, m);
    hide NextMove, Do;
    DoHeight(l.data, m.first);
    DoHeight(Do(l.data, m.first), m.second);
    DoHeight(Do(Do(l.data, m.first), m.second), m.third);
  }

  // ----- between words there is no word ---------------------------------------------------------------

  predicate Idle(mode: Mode) {
    match mode
    case Between => true
    case Opening => true
    case Comment => true
    case Op(_) => true
    case Escape(back) => Idle(back)
    case _ => false
  }

  predicate InPlace(l: Lexer) { Idle(l.control.mode) ==> l.data.word == NONE }

  predicate Wordless(e: Edit) { e == Skip || e.Emit? }

  /** A move to where no word is ends the word, starts a text, or leaves all as it was. */
  predicate Tidy(idle: bool, m: Move) {
    Idle(m.control.mode) ==>
      || m.third == Enter
      || (Wordless(m.second) && Wordless(m.third) && (if idle then Wordless(m.first) else m.first == EndWord || m.first == EndBefore))
  }

  lemma UnquotedTidy(mode: Mode, ctx: Context, c: char)
    requires mode == Between || mode == Opening || mode == Plain
    ensures Tidy(mode != Plain, Unquoted(mode, ctx, c)) || (c == '\\' && Unquoted(mode, ctx, c) == Stay(Escape(mode), ctx))
  {
  }

  lemma EnclosedBusy(ground: Ground, ctx: Context, c: char)
    ensures !Idle(Enclosed(ground, ctx, c).control.mode)
  {
  }

  lemma MoveTidy(k: Control, c: char)
    ensures Tidy(Idle(k.mode), NextMove(k, c))
  {
    var ctx := k.context;
    hide Unquoted, Enclosed, IsLetter, IsDigit, IsSpecialParameter, Extends;
    match k.mode
    case Between => UnquotedTidy(Between, ctx, c);
    case Opening => UnquotedTidy(Opening, ctx, c);
    case Plain => UnquotedTidy(Plain, ctx, c);
    case Op(_) => UnquotedTidy(Between, ctx, c);
    case Dollar(ground) => UnquotedTidy(Plain, ctx, c); EnclosedBusy(ground, ctx, c);
    case Param(ground) => UnquotedTidy(Plain, ctx, c); EnclosedBusy(ground, ctx, c);
    case Within(ground) => EnclosedBusy(ground, ctx, c);
    case BracePattern(_) => UnquotedTidy(Plain, ctx, c);
    case _ =>
  }

  lemma StepInPlace(l: Lexer, c: char)
    requires InPlace(l)
    ensures InPlace(Step(l, c))
  {
    MoveTidy(l.control, c);
    hide NextMove;
  }

  // ----- shlex.quote ------------------------------------------------------------------

  predicate IsSafe(c: char) {
    IsLetter(c) || IsDigit(c) || c in {'@', '%', '+', '=', ':', ',', '.', '/', '-'}
  }

  /** value.replace("'", "'\"'\"'") */
  function EscapeQuotes(value: string): string {
    if value == "" then ""
    else (if value[0] == '\'' then "'\"'\"'" else [value[0]]) + EscapeQuotes(value[1..])
  }

  /** Values that `shlex.quote` leaves as they are. */
  predicate IsBare(value: string) { value != "" && forall c :: c in value ==> IsSafe(c) }

  function Quote(value: string): string {
    if IsBare(value) then value
    else if value == "" then "''"
    else "'" + EscapeQuotes(value) + "'"
  }

  function ToBare(c: char): Atom { Bare(c) }

  function ToQuoted(c: char): Atom { Quoted(c) }

  function ToAct(c: char): Atom { Act(c) }

  /** A word with a value added: bare characters if the value needs no quotes, quoted ones otherwise. */
  function Joined(p: Piece, value: string): Piece {
    if IsBare(value) then Piece(p.atoms + Mapped(ToBare, value), p.quoted)
    else Piece(p.atoms + Mapped(ToQuoted, value), true)
  }

  /** The word that holds just this value. */
  function Literal(value: string): Piece { Joined(NONE, value) }

  /** Where a placeholder is unquoted, be it in the text itself, in a command substitution or in the word
      of `${...}`: between tokens, inside a word but not after a backslash or within a name, after an
      operator that does not start a here-document, or after a first `#`, which no value doubles. */
  predicate IsPlainPosition(mode: Mode) {
    || mode == Between || mode == Opening || mode == Plain
    || (mode.Op? && !IsHereDoc(mode.text))
    || mode == BracePattern(false)
  }

  function WithWord(l: Lexer, mode: Mode, word: Piece): Lexer {
    Lexer(l.control.(mode := mode), l.data.(word := word))
  }

  /** What a placeholder is meant to do: its value joins the current word, character by
      character, and the position is unquoted again; elsewhere the position does not change. */
  function Insert(l: Lexer, value: string): Lexer {
    if IsPlainPosition(l.control.mode) then
      var s := Settle(l);
      WithWord(s, Plain, Joined(s.data.word, value))
    else if l.control.mode == Comment then l
    else WithWord(l, l.control.mode, Joined(l.data.word, value))
  }

  lemma MappedCons(f: char -> Atom, c: char, value: string)
    ensures Mapped(f, [c] + value) == [f(c)] + Mapped(f, value)
  {
  }

  lemma AppendCons(atoms: seq<Atom>, f: char -> Atom, c: char, value: string)
    ensures atoms + [f(c)] + Mapped(f, value) == atoms + Mapped(f, [c] + value)
  {
    MappedCons(f, c, value);
    hide Mapped;
    assert atoms + [f(c)] + Mapped(f, value) == atoms + ([f(c)] + Mapped(f, value));
  }

  lemma {:induction false} ScanSafe(l: Lexer, value: string)
    requires l.control.mode == Plain && forall c :: c in value ==> IsSafe(c)
    ensures Scan(l, value) == WithWord(l, Plain, Piece(l.data.word.atoms + Mapped(ToBare, value), l.data.word.quoted))
    decreases |value|
  {
    hide Step, Settle, IsSafe, Mapped;
    if value == "" {
      assert l.data.word.atoms + Mapped(ToBare, value) == l.data.word.atoms;
    } else {
      var c, rest := value[0], value[1..];
      assert value == [c] + rest && c in value;
      assert forall d :: d in rest ==> d in value;
      StepSafe(l, c);
      SettlePlain(l);
      ScanSafe(WithWord(l, Plain, Push(l.data.word, Bare(c))), rest);
      AppendCons(l.data.word.atoms, ToBare, c, rest);
    }
  }

  lemma SettlePlain(l: Lexer)
    requires !l.control.mode.Op?
    ensures Settle(l) == l
  {
  }

  lemma StepSafe(l: Lexer, c: char)
    requires IsPlainPosition(l.control.mode) && IsSafe(c)
    ensures Step(l, c) == WithWord(Settle(l), Plain, Push(Settle(l).data.word, Bare(c)))
  {
    UnquotedSafe(if l.control.mode.Op? then Between else if l.control.mode.BracePattern? then Plain else l.control.mode, l.control.context, c);
    hide Unquoted;
  }

  lemma UnquotedSafe(mode: Mode, ctx: Context, c: char)
    requires IsSafe(c)
    ensures Unquoted(mode, ctx, c) == Put(Plain, ctx, Bare(c))
  {
    hide Nest, Pop, Counted, Closes, Ending, Proper, Depth;
  }

  lemma StepQuote(l: Lexer)
    requires IsPlainPosition(l.control.mode)
    ensures Step(l, '\'') == WithWord(Settle(l), Squote, Settle(l).data.word.(quoted := true))
  {
  }

  lemma StepInQuotes(l: Lexer, c: char)
    requires l.control.mode == Squote
    ensures Step(l, c) == if c == '\'' then l.(control := l.control.(mode := Plain)) else WithWord(l, Squote, Push(l.data.word, Quoted(c)))
  {
  }

  lemma StepInDouble(l: Lexer)
    requires l.control.mode == Within(Double)
    ensures Step(l, '"') == l.(control := l.control.(mode := Plain))
    ensures Step(l, '\'') == WithWord(l, Within(Double), Push(l.data.word, Quoted('\'')))
  {
  }

  lemma StepDoubleQuote(l: Lexer)
    requires l.control.mode == Plain
    ensures Step(l, '"') == WithWord(l, Within(Double), l.data.word.(quoted := true))
  {
  }

  /** Inside single quotes the escaped value is read back character by character. */
  lemma {:induction false} ScanEscaped(l: Lexer, value: string)
    requires l.control.mode == Squote && l.data.word.quoted
    ensures Scan(l, EscapeQuotes(value)) == WithWord(l, Squote, Piece(l.data.word.atoms + Mapped(ToQuoted, value), true))
    decreases |value|
  {
    hide Step, Mapped;
    if value == "" {
      assert l.data.word.atoms + Mapped(ToQuoted, value) == l.data.word.atoms;
    } else {
      var c, rest := value[0], value[1..];
      var head := if c == '\'' then "'\"'\"'" else [c];
      ScanHead(l, c, head);
      ScanAppend(l, head, EscapeQuotes(rest));
      ScanEscaped(WithWord(l, Squote, Push(l.data.word, Quoted(c))), rest);
      assert value == [c] + rest;
      AppendCons(l.data.word.atoms, ToQuoted, c, rest);
    }
  }

  lemma ScanHead(l: Lexer, c: char, head: string)
    requires l.control.mode == Squote && l.data.word.quoted && head == if c == '\'' then "'\"'\"'" else [c]
    ensures Scan(l, head) == WithWord(l, Squote, Push(l.data.word, Quoted(c)))
  {
    hide Step;
    StepInQuotes(l, head[0]);
    ScanOne(l, head[0]);
    if c == '\'' {
      assert head == "'" + ("\"" + ("'" + ("\"" + "'")));
      var l1 := Step(l, '\'');
      var l2 := Step(l1, '"');
      var l3 := Step(l2, '\'');
      var l4 := Step(l3, '"');
      StepDoubleQuote(l1);
      StepInDouble(l2);
      StepInDouble(l3);
      StepQuote(l4);
      SettlePlain(l4);
      ScanAppend(l, "'", "\"" + ("'" + ("\"" + "'")));
      ScanOne(l, '\'');
      ScanAppend(l1, "\"", "'" + ("\"" + "'"));
      ScanOne(l1, '"');
      ScanAppend(l2, "'", "\"" + "'");
      ScanOne(l2, '\'');
      ScanAppend(l3, "\"", "'");
      ScanOne(l3, '"');
      ScanOne(l4, '\'');
    } else {
      assert head == [c];
    }
  }

  /** The quoted value, read at an unquoted position, is one piece of a word: the value itself, bare
      if it needs no quotes, quoted otherwise. */
  lemma ScanQuoted(l: Lexer, value: string)
    requires IsPlainPosition(l.control.mode)
    ensures Scan(l, Quote(value)) == Insert(l, value)
  {
    if IsBare(value) {
      ScanBare(l, value);
    } else {
      assert value == "" ==> "'" + EscapeQuotes(value) + "'" == "''";
      ScanWrapped(l, value);
    }
  }

  lemma ScanBare(l: Lexer, value: string)
    requires IsPlainPosition(l.control.mode) && IsBare(value)
    ensures Scan(l, value) == Insert(l, value)
  {
    hide Step, Settle, IsSafe, Mapped, IsPlainPosition;
    var s, c, rest := Settle(l), value[0], value[1..];
    assert value == [c] + rest && c in value;
    assert forall d :: d in rest ==> d in value;
    StepSafe(l, c);
    ScanSafe(WithWord(s, Plain, Push(s.data.word, Bare(c))), rest);
    AppendCons(s.data.word.atoms, ToBare, c, rest);
  }

  lemma ScanWrapped(l: Lexer, value: string)
    requires IsPlainPosition(l.control.mode) && !IsBare(value)
    ensures Scan(l, "'" + EscapeQuotes(value) + "'") == Insert(l, value)
  {
    hide Step, Settle, IsBare, IsPlainPosition, Mapped;
    var s, body := Settle(l), EscapeQuotes(value);
    var inside := WithWord(s, Squote, s.data.word.(quoted := true));
    ScanOne(l, '\'');
    StepQuote(l);
    ScanEscaped(inside, value);
    var end := WithWord(inside, Squote, Piece(s.data.word.atoms + Mapped(ToQuoted, value), true));
    ScanOne(end, '\'');
    StepInQuotes(end, '\'');
    ScanAppend(l, "'", body + "'");
    ScanAppend(inside, body, "'");
    assert "'" + body + "'" == "'" + (body + "'");
  }

  // ----- and only there ------------------------------------------------------------------

  /** The text is read up to here: no here-document, and no form of `${...}` of which section 2.6.2 says
      nothing, has begun. */
  predicate Reads(mode: Mode) { mode != Raw && !(mode.Op? && IsHereDoc(mode.text)) }

  /** A value for which quoting goes wrong when the placeholder stands at this position. */
  function Spoiler(mode: Mode): string {
    match mode
    case Comment => "\n"
    case Dollar(_) => "a"
    case Param(_) => "a"
    case BracePattern(_) => "%"
    case _ => " "
  }

  /** Quoting does what a placeholder is meant to do, for every value, exactly at the unquoted
      positions. */
  lemma QuotingWorksIff(l: Lexer)
    requires Reads(l.control.mode)
    ensures (forall value :: Scan(l, Quote(value)) == Insert(l, value)) <==> IsPlainPosition(l.control.mode)
  {
    if IsPlainPosition(l.control.mode) {
      forall value ensures Scan(l, Quote(value)) == Insert(l, value) {
        ScanQuoted(l, value);
      }
    } else {
      QuotingFails(l);
    }
  }

  lemma QuotingFails(l: Lexer)
    requires Reads(l.control.mode) && !IsPlainPosition(l.control.mode)
    ensures Scan(l, Quote(Spoiler(l.control.mode))) != Insert(l, Spoiler(l.control.mode))
  {
    var mode, value := l.control.mode, Spoiler(l.control.mode);
    if mode.Dollar? || mode.Param? || mode.BracePattern? {
      BareFails(l, value[0]);
    } else {
      WrappedFails(l, value[0]);
    }
  }

  lemma WrappedFails(l: Lexer, c: char)
    requires var mode := l.control.mode; Reads(mode) && !IsPlainPosition(mode) && !mode.Dollar? && !mode.Param? && !mode.BracePattern?
    requires c == if l.control.mode == Comment then '\n' else ' '
    ensures Scan(l, Quote([c])) != Insert(l, [c])
  {
    assert c in [c] && !IsSafe(c) && c != '\'';
    assert EscapeQuotes([c]) == [c] by {
      assert [c][1..] == "";
    }
    assert Quote([c]) == "'" + ([c] + "'");
    ThreeSteps(l, c);
    hide Step, Reads;
    ScanAppend(l, "'", [c] + "'");
    ScanOne(l, '\'');
    ScanAppend(Step(l, '\''), [c], "'");
    ScanOne(Step(l, '\''), c);
    ScanOne(Step(Step(l, '\''), c), '\'');
    assert Mapped(ToQuoted, [c]) == [Quoted(c)];
    hide Scan, IsPlainPosition, Quote, EscapeQuotes, IsBare;
    var p := l.data.word;
    assert (p.atoms + [Act(' ')])[|p.atoms|] != (p.atoms + [Quoted(c)])[|p.atoms|];
  }

  lemma BareFails(l: Lexer, c: char)
    requires var mode := l.control.mode; ((mode.Dollar? || mode.Param?) && c == 'a') || (mode == BracePattern(true) && c == '%')
    ensures Scan(l, Quote([c])) != Insert(l, [c])
  {
    BareActs(l.control, c);
    assert IsSafe('a') && IsSafe('%');
    assert Quote([c]) == [c];
    assert Mapped(ToBare, [c]) == [Bare(c)];
    ScanOne(l, c);
    hide NextMove, Scan, Quote, Mapped, IsSafe;
    var p := l.data.word;
    assert Step(l, c).data.word.atoms == p.atoms + [Act(c)];
    assert Insert(l, [c]).data.word.atoms == p.atoms + [Bare(c)];
    assert (p.atoms + [Act(c)])[|p.atoms|] != (p.atoms + [Bare(c)])[|p.atoms|];
  }

  lemma BareActs(k: Control, c: char)
    requires ((k.mode.Dollar? || k.mode.Param?) && c == 'a') || (k.mode == BracePattern(true) && c == '%')
    ensures NextMove(k, c) == Put(NextMove(k, c).control.mode, k.context, Act(c))
  {
    hide Unquoted, Enclosed;
  }

  lemma ThreeSteps(l: Lexer, c: char)
    requires var mode := l.control.mode; Reads(mode) && !IsPlainPosition(mode) && !mode.Dollar? && !mode.Param? && !mode.BracePattern?
    requires c == if l.control.mode == Comment then '\n' else ' '
    ensures var end := Step(Step(Step(l, '\''), c), '\'');
            || end.control.mode != l.control.mode
            || |end.data.tokens| != |l.data.tokens|
            || |end.data.word.atoms| > |l.data.word.atoms| + 1
            || end.data.word.atoms == l.data.word.atoms + [Act(' ')]
  {
    var a := Step(l, '\'');
    var b := Step(a, c);
    hide Step;
    match l.control.mode
    case Within(_) => Holds(l, '\''); Holds(a, c); Holds(b, '\'');
    case Backquote => Holds(l, '\''); Holds(a, c); Holds(b, '\'');
    case WithinEscape(_, _) => EscapeEnds(l); Holds(a, c); Holds(b, '\'');
    case BackEscape => EscapeEnds(l); Holds(a, c); Holds(b, '\'');
    case Squote => SquoteSteps(l);
    case Comment => CommentSteps(l);
    case Escape(_) =>
      EscapeEnds(l);
      StaysUnquoted(a, c);
      StaysUnquoted(b, '\'');
    case _ =>
      BraceBreaks(l);
      RawStays(a, c);
      RawStays(b, '\'');
  }

  lemma Holds(l: Lexer, c: char)
    requires (l.control.mode.Within? || l.control.mode == Backquote) && (c == '\'' || c == ' ')
    ensures Step(l, c).control == l.control && |Step(l, c).data.word.atoms| == |l.data.word.atoms| + 1
  {
    hide Unquoted;
  }

  lemma EscapeEnds(l: Lexer)
    ensures l.control.mode.WithinEscape? ==> Step(l, '\'').control.mode.Within?
    ensures l.control.mode == BackEscape ==> Step(l, '\'').control.mode == Backquote
    ensures l.control.mode.Escape? ==> Step(l, '\'').control.mode in {Plain, Raw}
  {
    hide Unquoted, Enclosed, Do;
  }

  lemma StaysUnquoted(l: Lexer, c: char)
    requires l.control.mode in {Plain, Between, Squote, Raw} && (c == '\'' || c == ' ')
    ensures Step(l, c).control.mode in {Plain, Between, Squote, Raw}
  {
    hide Do;
  }

  lemma SquoteSteps(l: Lexer)
    requires l.control.mode == Squote
    ensures var end := Step(Step(Step(l, '\''), ' '), '\'');
            |end.data.tokens| != |l.data.tokens| || end.data.word.atoms == l.data.word.atoms + [Act(' ')]
  {
    hide Enclosed;
  }

  lemma CommentSteps(l: Lexer)
    requires l.control.mode == Comment
    ensures Step(Step(Step(l, '\''), '\n'), '\'').control.mode == Squote
  {
    hide Enclosed, Do;
  }

  lemma BraceBreaks(l: Lexer)
    requires var mode := l.control.mode; mode.BraceStart? || mode.BraceHash? || mode.BraceLength? || mode.BraceName? || mode.BraceColon?
    ensures Step(l, '\'').control.mode == Raw
  {
    hide Unquoted, Enclosed, Do;
  }

  lemma RawStays(l: Lexer, c: char)
    requires l.control.mode == Raw
    ensures Step(l, c).control.mode == Raw
  {
    hide Unquoted, Enclosed, Do;
  }

  // ----- what a bare value may still become ---------------------------------------------------

  const RESERVED: set<string> := {
    "!", "{", "}", "case", "do", "done", "elif", "else", "esac", "fi", "for", "if", "in", "then", "until", "while"}

  /** A reserved word is one only if no part of it is quoted (section 2.4). */
  ghost predicate IsReserved(p: Piece) {
    !p.quoted && exists word :: word in RESERVED && p.atoms == Mapped(ToBare, word)
  }

  predicate IsNameChar(c: char) { IsLetter(c) || IsDigit(c) }

  predicate IsBareName(a: Atom) { a.Bare? && IsNameChar(a.c) }

  /** The part of the word before position `k` is an unquoted name, and `=` follows it. */
  predicate AssignsAt(p: Piece, k: nat) {
    && 1 <= k < |p.atoms|
    && p.atoms[k] == Bare('=')
    && IsBareName(p.atoms[0]) && !IsDigit(p.atoms[0].c)
    && forall j :: 0 <= j < k ==> IsBareName(p.atoms[j])
  }

  /** At command position such a word is a variable assignment (section 2.10.2). */
  predicate IsAssignment(p: Piece) {
    exists k :: 0 <= k < |p.atoms| && AssignsAt(p, k)
  }

  predicate AssignsText(value: string, k: nat) {
    && 1 <= k < |value|
    && value[k] == '='
    && IsNameChar(value[0]) && !IsDigit(value[0])
    && forall j :: 0 <= j < k ==> IsNameChar(value[j])
  }

  lemma BareInjective(a: string, b: string)
    requires Mapped(ToBare, a) == Mapped(ToBare, b)
    ensures a == b
  {
    forall i | 0 <= i < |a| ensures a[i] == b[i] {
      assert Mapped(ToBare, a)[i] == Mapped(ToBare, b)[i];
    }
  }

  /** What a placeholder that is a whole word may turn into: a reserved word iff its value is one without
      `!` or braces, an assignment iff its value needs no quotes and assigns to a name, and an IO number
      before `<` or `>` iff its value is digits. */
  lemma LoneValueBecomes(value: string)
    ensures IsReserved(Literal(value)) <==> value in RESERVED - {"!", "{", "}"}
    ensures IsAssignment(Literal(value)) <==> IsBare(value) && exists k :: 0 <= k < |value| && AssignsText(value, k)
    ensures IsIoNumber(Literal(value)) <==> value != "" && forall c :: c in value ==> IsDigit(c)
  {
    hide *;
    if IsBare(value) {
      BareLiteral(value);
      BareReserved(value);
      BareAssigns(value);
      BareDigits(value);
    } else {
      QuotedBecomes(value);
    }
  }

  lemma QuotedBecomes(value: string)
    requires !IsBare(value)
    ensures !IsReserved(Literal(value)) && !IsAssignment(Literal(value)) && !IsIoNumber(Literal(value))
    ensures value !in RESERVED - {"!", "{", "}"} && !(value != "" && forall c :: c in value ==> IsDigit(c))
  {
    QuotedValueNeverBecomes(NONE, value);
    LettersAreSafe();
    hide IsReserved, IsAssignment, IsIoNumber, Joined;
  }

  lemma BareLiteral(value: string)
    requires IsBare(value)
    ensures value != "" && Literal(value) == Piece(Mapped(ToBare, value), false)
  {
    hide IsSafe, Mapped;
    assert [] + Mapped(ToBare, value) == Mapped(ToBare, value);
  }

  lemma BareReserved(value: string)
    requires IsBare(value)
    ensures IsReserved(Piece(Mapped(ToBare, value), false)) <==> value in RESERVED - {"!", "{", "}"}
  {
    assert value !in {"!", "{", "}"} by {
      assert !IsSafe('!') && !IsSafe('{') && !IsSafe('}') && value[0] in value;
    }
    hide IsBare, Mapped;
    if word :| word in RESERVED && Mapped(ToBare, value) == Mapped(ToBare, word) {
      BareInjective(value, word);
    }
  }

  lemma BareAssigns(value: string)
    ensures IsAssignment(Piece(Mapped(ToBare, value), false)) <==> exists k :: 0 <= k < |value| && AssignsText(value, k)
  {
    var p := Piece(Mapped(ToBare, value), false);
    hide Mapped, IsLetter, IsDigit;
    forall k | 0 <= k < |value| ensures AssignsAt(p, k) <==> AssignsText(value, k) {
      if AssignsAt(p, k) {
        forall j | 0 <= j < k ensures IsNameChar(value[j]) {
          assert IsBareName(p.atoms[j]);
        }
      }
    }
    hide AssignsAt, AssignsText;
  }

  lemma BareDigits(value: string)
    requires value != ""
    ensures IsIoNumber(Piece(Mapped(ToBare, value), false)) <==> forall c :: c in value ==> IsDigit(c)
  {
    var p := Piece(Mapped(ToBare, value), false);
    if IsDigits(p) {
      forall i | 0 <= i < |value| ensures IsDigit(value[i]) {
        assert p.atoms[i] == Bare(value[i]);
      }
    }
  }

  lemma LettersAreSafe()
    ensures forall word :: word in RESERVED - {"!", "{", "}"} ==> IsBare(word)
  {
  }

  /** A value that needs quotes makes its whole word neither a reserved word nor an IO number, and an
      assignment only if what stands before it is one already. */
  lemma QuotedValueNeverBecomes(p: Piece, value: string)
    requires !IsBare(value)
    ensures !IsReserved(Joined(p, value)) && !IsIoNumber(Joined(p, value))
    ensures IsAssignment(Joined(p, value)) <==> IsAssignment(p)
  {
    var q := Joined(p, value);
    forall k | 0 <= k < |q.atoms| && AssignsAt(q, k) ensures AssignsAt(p, k) {
      assert k < |p.atoms|;
      assert forall j :: 0 <= j < k ==> q.atoms[j] == p.atoms[j];
    }
    forall k | 0 <= k < |p.atoms| && AssignsAt(p, k) ensures AssignsAt(q, k) {
      assert forall j :: 0 <= j <= k ==> q.atoms[j] == p.atoms[j];
    }
  }
}
