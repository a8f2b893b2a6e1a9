/** When the values of a template decide nothing about the shape of its command. */
module Shape {
  import opened Prelude
  import opened Shell
  import opened Template

  // ----- the shape of what has been read ---------------------------------------------------

  /** Tokens without the contents of words and IO numbers, but with the expansions in each word and the
      commands in each expansion. */
  datatype Form = WordForm(nests: seq<NestForm>) | NumberForm | OperatorForm(text: string) | LineForm

  datatype NestForm = NestForm(forms: seq<Form>, nests: seq<NestForm>)

  function FormOf(t: Token): Form {
    match t
    case Word(piece) => WordForm(NestsOf(piece.atoms))
    case IoNumber(_) => NumberForm
    case Operator(text) => OperatorForm(text)
    case Newline => LineForm
  }

  function FormsOf(tokens: seq<Token>): seq<Form> {
    if tokens == [] then [] else FormsOf(tokens[..|tokens| - 1]) + [FormOf(tokens[|tokens| - 1])]
  }

  function NestsOf(atoms: seq<Atom>): seq<NestForm> {
    if atoms == [] then []
    else
      var last := atoms[|atoms| - 1];
      NestsOf(atoms[..|atoms| - 1])
      + (if last.Inside? then [NestForm(FormsOf(last.tokens), NestsOf(last.word.atoms))] else [])
  }

  predicate SameShape(a: seq<Token>, b: seq<Token>) { FormsOf(a) == FormsOf(b) }

  datatype OuterForm = BottomForm | SavedForm(forms: seq<Form>, nests: seq<NestForm>, outer: OuterForm)

  datatype Outline = Outline(forms: seq<Form>, nests: seq<NestForm>, outer: OuterForm)

  function OuterOf(outer: Outer): OuterForm {
    match outer
    case Bottom => BottomForm
    case Saved(tokens, word, rest) => SavedForm(FormsOf(tokens), NestsOf(word.atoms), OuterOf(rest))
  }

  function OutlineOf(d: Data): Outline { Outline(FormsOf(d.tokens), NestsOf(d.word.atoms), OuterOf(d.outer)) }

  function NestsAfter(nests: seq<NestForm>, a: Atom): seq<NestForm> {
    if a.Inside? then nests + [NestForm(FormsOf(a.tokens), NestsOf(a.word.atoms))] else nests
  }

  /** An edit of the outline; `number` says whether the word that ends is an IO number. */
  function Redo(o: Outline, e: Edit, number: bool): Outline {
    match e
    case Skip => o
    case Add(a) => o.(nests := NestsAfter(o.nests, a))
    case Mark => o
    case EndWord => o.(forms := o.forms + [WordForm(o.nests)], nests := [])
    case EndBefore => o.(forms := o.forms + [if number then NumberForm else WordForm(o.nests)], nests := [])
    case Emit(token) => o.(forms := o.forms + [FormOf(token)])
    case Enter => Outline([], [], SavedForm(o.forms, o.nests, o.outer))
    case Leave =>
      match o.outer
      case BottomForm => o
      case SavedForm(forms, nests, outer) => Outline(forms, nests + [NestForm(o.forms, o.nests)], outer)
  }

  lemma FormsSnoc(tokens: seq<Token>, t: Token)
    ensures FormsOf(tokens + [t]) == FormsOf(tokens) + [FormOf(t)]
  {
    assert (tokens + [t])[..|tokens|] == tokens;
  }

  lemma NestsSnoc(atoms: seq<Atom>, a: Atom)
    ensures NestsOf(atoms + [a]) == NestsAfter(NestsOf(atoms), a)
  {
    assert (atoms + [a])[..|atoms|] == atoms;
  }

  lemma OutlineDo(d: Data, e: Edit)
    ensures OutlineOf(Do(d, e)) == Redo(OutlineOf(d), e, IsIoNumber(d.word))
  {
    hide FormOf, FormsOf, NestsOf, IsIoNumber;
    match e
    case Add(a) => NestsSnoc(d.word.atoms, a);
    case EndWord => FormsSnoc(d.tokens, Word(d.word)); WordFormOf(d.word); NoneOutline();
    case EndBefore =>
      FormsSnoc(d.tokens, Word(d.word));
      FormsSnoc(d.tokens, IoNumber(d.word.atoms));
      WordFormOf(d.word);
      NoneOutline();
    case Emit(token) => FormsSnoc(d.tokens, token);
    case Enter => NoneOutline();
    case Leave => if d.outer.Saved? { NestsSnoc(d.outer.word.atoms, Inside(d.tokens, d.word)); }
    case _ =>
  }

  lemma WordFormOf(p: Piece)
    ensures FormOf(Word(p)) == WordForm(NestsOf(p.atoms)) && FormOf(IoNumber(p.atoms)) == NumberForm
  {
  }

  lemma NoneOutline()
    ensures FormsOf([]) == [] && NestsOf(NONE.atoms) == []
  {
  }

  lemma {:induction false} PlainNests(atoms: seq<Atom>, f: char -> Atom, s: string)
    requires forall c :: !f(c).Inside?
    ensures NestsOf(atoms + Mapped(f, s)) == NestsOf(atoms)
  {
    hide NestsOf;
    if s == "" {
      assert atoms + Mapped(f, s) == atoms;
    } else {
      var n := |s| - 1;
      PlainNests(atoms, f, s[..n]);
      NestsSnoc(atoms + Mapped(f, s[..n]), f(s[n]));
      assert atoms + Mapped(f, s) == atoms + Mapped(f, s[..n]) + [f(s[n])];
    }
  }

  /** Filling a placeholder changes no outline, except that it ends an operator. */
  lemma FillOutline(l: Lexer, f: Filling)
    requires IsPlainPosition(l.control.mode)
    ensures OutlineOf(Fill(l, f).data) == OutlineOf(Settle(l).data)
  {
    var p := Settle(l).data.word;
    PlainNests(p.atoms, ToBare, f.text);
    PlainNests(p.atoms, ToQuoted, f.text);
    hide NestsOf, FormsOf, OuterOf, Mapped;
  }

  lemma SettleOutline(l: Lexer)
    ensures OutlineOf(Settle(l).data)
            == if l.control.mode.Op? then Redo(OutlineOf(l.data), Emit(Operator(l.control.mode.text)), false) else OutlineOf(l.data)
  {
    if l.control.mode.Op? { OutlineDo(l.data, Emit(Operator(l.control.mode.text))); }
    hide OutlineOf, IsIoNumber;
  }

  // ----- words made of digits and placeholders ------------------------------------------------

  /** The word so far: unquoted digits only; unquoted digits and at least one placeholder; or more. */
  datatype Run = Digits | Mixed | More

  function RunAfter(run: Run, e: Edit): Run {
    match e
    case Skip => run
    case Emit(_) => run
    case Add(a) => if a.Bare? && IsDigit(a.c) then run else More
    case Mark => More
    case Leave => More
    case _ => Digits
  }

  function NextRun(run: Run, m: Move): Run {
    RunAfter(RunAfter(RunAfter(run, m.first), m.second), m.third)
  }

  function SlotRun(run: Run): Run { if run == More then More else Mixed }

  /** No word of digits and placeholders, with at least one placeholder, stands right before `<` or `>`:
      a property of the template alone. */
  predicate Steady(k: Control, run: Run, parts: seq<Part>)
    decreases |parts|
  {
    parts == []
    || match parts[0]
       case Text(c) =>
         var m := NextMove(k, c);
         !(m.first == EndBefore && run == Mixed) && Steady(m.control, NextRun(run, m), parts[1..])
       case Slot(_) => Steady(Control(Plain, k.context), SlotRun(run), parts[1..])
  }

  lemma DigitsPush(p: Piece, a: Atom)
    ensures IsDigits(Push(p, a)) <==> IsDigits(p) && a.Bare? && IsDigit(a.c)
    ensures Push(p, a).atoms != []
  {
    var q := Push(p, a);
    assert q.atoms[|p.atoms|] == a;
    assert forall i :: 0 <= i < |p.atoms| ==> q.atoms[i] == p.atoms[i];
  }

  lemma {:induction false} MoreStays(p: Piece, f: char -> Atom, s: string, quoted: bool)
    requires !IsDigits(p)
    ensures !IsDigits(Piece(p.atoms + Mapped(f, s), p.quoted || quoted))
  {
    var q := Piece(p.atoms + Mapped(f, s), p.quoted || quoted);
    assert forall i :: 0 <= i < |p.atoms| ==> q.atoms[i] == p.atoms[i];
  }

  /** A word that is more than digits still is when a placeholder is filled. */
  lemma FillMore(l: Lexer, f: Filling)
    requires IsPlainPosition(l.control.mode) && !IsDigits(l.data.word)
    ensures !IsDigits(Fill(l, f).data.word)
  {
    MoreStays(l.data.word, ToBare, f.text, false);
    MoreStays(l.data.word, ToQuoted, f.text, true);
    hide IsDigits, Mapped, IsBare;
  }

  // ----- a steady template keeps its shape ---------------------------------------------------------

  /** The words of two readings of one template. */
  predicate Fits(run: Run, p: Piece, q: Piece) {
    match run
    case Digits => p == q && IsDigits(p)
    case Mixed => true
    case More => !IsDigits(p) && !IsDigits(q)
  }

  predicate Alike(run: Run, d: Data, e: Data) {
    OutlineOf(d) == OutlineOf(e) && Fits(run, d.word, e.word) && Height(d.outer) == Height(e.outer)
  }

  predicate CanLeave(d: Data, e: Edit) { e == Leave ==> d.outer != Bottom }

  lemma DoKeepsAlike(d: Data, e: Data, x: Edit, run: Run)
    requires Alike(run, d, e) && CanLeave(d, x) && CanLeave(e, x) && !(x == EndBefore && run == Mixed)
    ensures Alike(RunAfter(run, x), Do(d, x), Do(e, x))
  {
    OutlineDo(d, x);
    OutlineDo(e, x);
    DoHeight(d, x);
    DoHeight(e, x);
    hide OutlineOf;
    DoFits(d, e, x, run);
    hide Do, Fits, IsIoNumber, RunAfter, Height;
    if x == EndBefore {
      FitsNumber(run, d.word, e.word);
    } else {
      RedoIgnores(OutlineOf(d), x, IsIoNumber(d.word), IsIoNumber(e.word));
    }
  }

  lemma RedoIgnores(o: Outline, e: Edit, x: bool, y: bool)
    requires e != EndBefore
    ensures Redo(o, e, x) == Redo(o, e, y)
  {
  }

  lemma FitsNumber(run: Run, p: Piece, q: Piece)
    requires Fits(run, p, q) && run != Mixed
    ensures IsIoNumber(p) == IsIoNumber(q)
  {
    hide IsDigits;
  }

  lemma DoFits(d: Data, e: Data, x: Edit, run: Run)
    requires Fits(run, d.word, e.word) && CanLeave(d, x) && CanLeave(e, x)
    ensures Fits(RunAfter(run, x), Do(d, x).word, Do(e, x).word)
  {
    assert IsDigits(NONE);
    match x
    case Add(a) => DigitsPush(d.word, a); DigitsPush(e.word, a); hide IsDigits;
    case Leave =>
      DigitsPush(d.outer.word, Inside(d.tokens, d.word));
      DigitsPush(e.outer.word, Inside(e.tokens, e.word));
      hide IsDigits;
    case Mark =>
    case _ => hide IsDigits;
  }

  /** What the moves of a sound lexer leave, it has entered. */
  lemma MoveCanLeave(l: Lexer, m: Move)
    requires Sound(l) && Proper(l.control.context, m)
    ensures CanLeave(l.data, m.first) && CanLeave(Do(l.data, m.first), m.second)
    ensures CanLeave(Do(Do(l.data, m.first), m.second), m.third)
  {
    DoHeight(l.data, m.first);
  }

  lemma StepKeepsAlike(l: Lexer, n: Lexer, c: char, run: Run)
    requires l.control == n.control && Sound(l) && Sound(n) && Alike(run, l.data, n.data)
    requires var m := NextMove(l.control, c); !(m.first == EndBefore && run == Mixed)
    ensures Alike(NextRun(run, NextMove(l.control, c)), Step(l, c).data, Step(n, c).data)
  {
    var m := NextMove(l.control, c);
    MoveCanLeave(l, m);
    MoveCanLeave(n, m);
    assert Proper(l.control.context, m);
    hide NextMove, Alike, Do, RunAfter, CanLeave, Proper, Sound;
    DoKeepsAlike(l.data, n.data, m.first, run);
    var d, e, run1 := Do(l.data, m.first), Do(n.data, m.first), RunAfter(run, m.first);
    DoKeepsAlike(d, e, m.second, run1);
    DoKeepsAlike(Do(d, m.second), Do(e, m.second), m.third, RunAfter(run1, m.second));
  }

  lemma FillKeepsAlike(l: Lexer, n: Lexer, f: Filling, g: Filling, run: Run)
    requires l.control == n.control && IsPlainPosition(l.control.mode) && Alike(run, l.data, n.data)
    ensures Alike(SlotRun(run), Fill(l, f).data, Fill(n, g).data)
  {
    FillOutline(l, f);
    FillOutline(n, g);
    SettleOutline(l);
    SettleOutline(n);
    if run == More {
      FillMore(l, f);
      FillMore(n, g);
    }
    hide OutlineOf, IsDigits, Mapped, IsPlainPosition, Joined;
  }

  lemma FillSound(l: Lexer, f: Filling)
    requires IsPlainPosition(l.control.mode) && Sound(l)
    ensures Sound(Fill(l, f))
  {
    hide Joined, Mapped;
  }

  lemma {:induction false} ScanPartsKeepsAlike(
    l: Lexer, n: Lexer, parts: seq<Part>, optional: set<string>, f: string -> Filling, g: string -> Filling, run: Run)
    requires l.control == n.control && Sound(l) && Sound(n) && Alike(run, l.data, n.data)
    requires AllUnquoted(l.control, parts, optional) && Steady(l.control, run, parts)
    ensures var x, y := ScanParts(l, parts, f), ScanParts(n, parts, g);
            x.control == y.control && OutlineOf(x.data) == OutlineOf(y.data)
    decreases |parts|
  {
    if parts == [] {
      hide OutlineOf, Fits;
    } else {
      hide NextMove, Do, Fill, Alike, Sound, NextRun, IsPlainPosition, InBraces;
      match parts[0]
      case Text(c) =>
        StepKeepsAlike(l, n, c, run);
        StepSound(l, c);
        StepSound(n, c);
        ScanPartsKeepsAlike(Step(l, c), Step(n, c), parts[1..], optional, f, g, NextRun(run, NextMove(l.control, c)));
      case Slot(name) =>
        FillKeepsAlike(l, n, f(name), g(name), run);
        FillControl(l, f(name));
        FillControl(n, g(name));
        FillSound(l, f(name));
        FillSound(n, g(name));
        ScanPartsKeepsAlike(Fill(l, f(name)), Fill(n, g(name)), parts[1..], optional, f, g, SlotRun(run));
    }
  }

  lemma FinishKeepsShape(l: Lexer, n: Lexer)
    requires l.control == n.control && OutlineOf(l.data) == OutlineOf(n.data)
    ensures Finish(l).Some? <==> Finish(n).Some?
    ensures Finish(l).Some? ==> SameShape(Finish(l).value, Finish(n).value)
  {
    var d, e, last := Collapse(l.data), Collapse(n.data), LastEdit(l.control.mode);
    CollapseOutline(l.data);
    CollapseOutline(n.data);
    OutlineDo(d, last);
    OutlineDo(e, last);
    assert SameShape(Do(d, last).tokens, Do(e, last).tokens) by {
      hide FormsOf, NestsOf, OuterOf, Collapse, Do, IsIoNumber;
      RedoIgnores(OutlineOf(d), last, IsIoNumber(d.word), IsIoNumber(e.word));
      hide Redo, LastEdit;
    }
    hide SameShape, OutlineOf, Collapse, CanEnd, LastEdit, Do, Redo;
  }

  /** The outline of all texts around ended. */
  function Flattened(o: Outline): Outline
    decreases o.outer
  {
    if o.outer.BottomForm? then o else Flattened(Redo(o, Leave, false))
  }

  lemma {:induction false} CollapseOutline(d: Data)
    ensures OutlineOf(Collapse(d)) == Flattened(OutlineOf(d))
    decreases d.outer
  {
    if d.outer.Saved? {
      OutlineDo(d, Leave);
      CollapseOutline(Do(d, Leave));
      hide FormsOf, NestsOf;
    }
  }

  /** Two renderings of one steady template have the same number of tokens, the same operators, line
      ends and IO numbers, and words in the same places, which hold the same expansions with commands of
      the same shape: no value can add, remove or turn one. */
  lemma ShapeIgnoresValues(
    w: char -> bool, template: string, use: Use, ps: seq<Parameter>, params: map<string, string>,
    qs: seq<Parameter>, params2: map<string, string>)
    requires var parts := Parts(w, template, use);
             && IsWordClass(w) && AllUnquoted(START.control, parts, use.optional) && Steady(START.control, Digits, parts)
             && Obeys(use, parts, ps, params) && Obeys(use, parts, qs, params2)
    requires Render(w, template, ps, params).Ok? && Render(w, template, qs, params2).Ok?
    ensures var a := Tokens(Render(w, template, ps, params).value);
            var b := Tokens(Render(w, template, qs, params2).value);
            (a.Some? <==> b.Some?) && (a.Some? ==> SameShape(a.value, b.value))
  {
    var parts := Parts(w, template, use);
    var f := (name: string) => Meaning(ps, params, name);
    var g := (name: string) => Meaning(qs, params2, name);
    RenderKeepsWords(w, template, use, ps, params);
    RenderKeepsWords(w, template, use, qs, params2);
    hide Render, Parts, Scan, ScanParts, AllUnquoted, Meaning, IsWordClass, Steady, KeepsOnly, Finish, SameShape, Obeys;
    ScanPartsKeepsAlike(START, START, parts, use.optional, f, g, Digits);
    ScanPartsSound(START, parts, use.optional, f);
    hide *;
    FinishKeepsShape(ScanParts(START, parts, f), ScanParts(START, parts, g));
  }

  /** Where reading the template ends. */
  function ControlAfter(k: Control, parts: seq<Part>): Control
    decreases |parts|
  {
    if parts == [] then k
    else ControlAfter(match parts[0] case Text(c) => NextMove(k, c).control case Slot(_) => Control(Plain, k.context), parts[1..])
  }

  lemma {:induction false} ScanPartsSound(l: Lexer, parts: seq<Part>, optional: set<string>, f: string -> Filling)
    requires AllUnquoted(l.control, parts, optional) && Sound(l)
    ensures Sound(ScanParts(l, parts, f)) && ScanParts(l, parts, f).control == ControlAfter(l.control, parts)
    decreases |parts|
  {
    hide NextMove, Do, Fill, Sound, IsPlainPosition, InBraces;
    if parts != [] {
      match parts[0]
      case Text(c) =>
        StepSound(l, c);
        ScanPartsSound(Step(l, c), parts[1..], optional, f);
      case Slot(name) =>
        FillControl(l, f(name));
        FillSound(l, f(name));
        ScanPartsSound(Fill(l, f(name)), parts[1..], optional, f);
    }
  }

  // ----- and only a steady one does ------------------------------------------------------------------

  /** Outlines that differ keep differing. */
  predicate Apart(d: Data, e: Data) {
    OutlineOf(d) != OutlineOf(e) && Height(d.outer) == Height(e.outer)
  }

  lemma NumberHasNoNests(p: Piece)
    requires IsIoNumber(p)
    ensures NestsOf(p.atoms) == []
  {
    NoNests(p.atoms);
  }

  lemma {:induction false} NoNests(atoms: seq<Atom>)
    requires forall i :: 0 <= i < |atoms| ==> !atoms[i].Inside?
    ensures NestsOf(atoms) == []
  {
    if atoms != [] {
      NoNests(atoms[..|atoms| - 1]);
    }
  }

  lemma SnocInjective<T>(a: seq<T>, x: T, b: seq<T>, y: T)
    requires a + [x] == b + [y]
    ensures a == b && x == y
  {
    assert |a| == |b|;
    assert x == (a + [x])[|a|] == y;
    assert a == (a + [x])[..|a|] == (b + [y])[..|a|] == b;
  }

  lemma RedoInjective(o: Outline, p: Outline, e: Edit, x: bool, y: bool)
    requires Redo(o, e, x) == Redo(p, e, y)
    requires e == Leave ==> o.outer.SavedForm? && p.outer.SavedForm?
    requires e == EndBefore ==> (x ==> o.nests == []) && (y ==> p.nests == [])
    ensures o == p
  {
    match e
    case EndWord => SnocInjective(o.forms, WordForm(o.nests), p.forms, WordForm(p.nests));
    case EndBefore =>
      SnocInjective(o.forms, if x then NumberForm else WordForm(o.nests), p.forms, if y then NumberForm else WordForm(p.nests));
    case Emit(token) => SnocInjective(o.forms, FormOf(token), p.forms, FormOf(token));
    case Add(a) => if a.Inside? {
      var n := NestForm(FormsOf(a.tokens), NestsOf(a.word.atoms));
      SnocInjective(o.nests, n, p.nests, n);
    }
    case Leave =>
      SnocInjective(o.outer.nests, NestForm(o.forms, o.nests), p.outer.nests, NestForm(p.forms, p.nests));
    case _ =>
  }

  lemma DoKeepsApart(d: Data, e: Data, x: Edit)
    requires Apart(d, e) && CanLeave(d, x) && CanLeave(e, x)
    ensures Apart(Do(d, x), Do(e, x))
  {
    OutlineDo(d, x);
    OutlineDo(e, x);
    DoHeight(d, x);
    DoHeight(e, x);
    if IsIoNumber(d.word) { NumberHasNoNests(d.word); }
    if IsIoNumber(e.word) { NumberHasNoNests(e.word); }
    hide FormsOf, NestsOf, IsIoNumber, Do, Redo;
    if OutlineOf(Do(d, x)) == OutlineOf(Do(e, x)) {
      RedoInjective(OutlineOf(d), OutlineOf(e), x, IsIoNumber(d.word), IsIoNumber(e.word));
    }
  }

  lemma StepKeepsApart(l: Lexer, n: Lexer, c: char)
    requires l.control == n.control && Sound(l) && Sound(n) && Apart(l.data, n.data)
    ensures Apart(Step(l, c).data, Step(n, c).data)
  {
    var m := NextMove(l.control, c);
    MoveCanLeave(l, m);
    MoveCanLeave(n, m);
    hide NextMove, Apart, Do, CanLeave, Proper, Sound;
    DoKeepsApart(l.data, n.data, m.first);
    var d, e := Do(l.data, m.first), Do(n.data, m.first);
    DoKeepsApart(d, e, m.second);
    DoKeepsApart(Do(d, m.second), Do(e, m.second), m.third);
  }

  lemma FillKeepsApart(l: Lexer, n: Lexer, f: Filling, g: Filling)
    requires l.control == n.control && IsPlainPosition(l.control.mode) && Apart(l.data, n.data)
    ensures Apart(Fill(l, f).data, Fill(n, g).data)
  {
    FillOutline(l, f);
    FillOutline(n, g);
    SettleOutline(l);
    SettleOutline(n);
    hide OutlineOf, Mapped, IsPlainPosition, Joined, Redo;
    if l.control.mode.Op? && OutlineOf(Settle(l).data) == OutlineOf(Settle(n).data) {
      RedoInjective(OutlineOf(l.data), OutlineOf(n.data), Emit(Operator(l.control.mode.text)), false, false);
    }
  }

  lemma {:induction false} ScanPartsKeepsApart(
    l: Lexer, n: Lexer, parts: seq<Part>, optional: set<string>, f: string -> Filling, g: string -> Filling)
    requires l.control == n.control && Sound(l) && Sound(n) && Apart(l.data, n.data) && AllUnquoted(l.control, parts, optional)
    ensures Apart(ScanParts(l, parts, f).data, ScanParts(n, parts, g).data)
    decreases |parts|
  {
    hide NextMove, Do, Fill, Apart, Sound, IsPlainPosition, InBraces;
    if parts != [] {
      match parts[0]
      case Text(c) =>
        StepKeepsApart(l, n, c);
        StepSound(l, c);
        StepSound(n, c);
        ScanPartsKeepsApart(Step(l, c), Step(n, c), parts[1..], optional, f, g);
      case Slot(name) =>
        FillKeepsApart(l, n, f(name), g(name));
        FillControl(l, f(name));
        FillControl(n, g(name));
        FillSound(l, f(name));
        FillSound(n, g(name));
        ScanPartsKeepsApart(Fill(l, f(name)), Fill(n, g(name)), parts[1..], optional, f, g);
    }
  }

  /** The words of the two readings that put `0` and `a` at every placeholder. */
  predicate Differ(run: Run, p: Piece, q: Piece) {
    match run
    case Digits => p == q && IsDigits(p)
    case Mixed => IsIoNumber(p) && !IsDigits(q)
    case More => !IsDigits(p) && !IsDigits(q)
  }

  predicate Differing(run: Run, d: Data, e: Data) { Differ(run, d.word, e.word) && Height(d.outer) == Height(e.outer) }

  lemma DoDiffers(d: Data, e: Data, x: Edit, run: Run)
    requires Differing(run, d, e) && CanLeave(d, x) && CanLeave(e, x)
    ensures Differing(RunAfter(run, x), Do(d, x), Do(e, x))
  {
    assert IsDigits(NONE);
    DoHeight(d, x);
    DoHeight(e, x);
    match x
    case Add(a) => DigitsPush(d.word, a); DigitsPush(e.word, a); hide IsDigits, Height;
    case Leave =>
      DigitsPush(d.outer.word, Inside(d.tokens, d.word));
      DigitsPush(e.outer.word, Inside(e.tokens, e.word));
      hide IsDigits, Height;
    case Mark => hide Height;
    case _ => hide IsDigits, Height;
  }

  lemma StepDiffers(l: Lexer, n: Lexer, c: char, run: Run)
    requires l.control == n.control && Sound(l) && Sound(n) && Differing(run, l.data, n.data)
    ensures Differing(NextRun(run, NextMove(l.control, c)), Step(l, c).data, Step(n, c).data)
  {
    var m := NextMove(l.control, c);
    MoveCanLeave(l, m);
    MoveCanLeave(n, m);
    hide NextMove, Differing, Do, RunAfter, CanLeave, Proper, Sound;
    DoDiffers(l.data, n.data, m.first, run);
    var d, e, run1 := Do(l.data, m.first), Do(n.data, m.first), RunAfter(run, m.first);
    DoDiffers(d, e, m.second, run1);
    DoDiffers(Do(d, m.second), Do(e, m.second), m.third, RunAfter(run1, m.second));
  }

  lemma ZeroAndLetter(p: Piece)
    ensures IsDigits(p) <==> IsDigits(Joined(p, "0"))
    ensures Joined(p, "0").atoms != [] && !IsDigits(Joined(p, "a"))
  {
    assert IsSafe('0') && IsSafe('a');
    assert Mapped(ToBare, "0") == [Bare('0')] && Mapped(ToBare, "a") == [Bare('a')];
    DigitsPush(p, Bare('0'));
    DigitsPush(p, Bare('a'));
  }

  lemma FillDiffers(l: Lexer, n: Lexer, run: Run)
    requires l.control == n.control && IsPlainPosition(l.control.mode) && Differing(run, l.data, n.data)
    ensures Differing(SlotRun(run), Fill(l, Value("0")).data, Fill(n, Value("a")).data)
  {
    ZeroAndLetter(l.data.word);
    ZeroAndLetter(n.data.word);
    if run == More { FillMore(n, Value("a")); }
    hide IsDigits, Joined, Height;
  }

  /** Before `<` or `>`, one reading has an IO number and the other a word. */
  lemma RedirectionParts(l: Lexer, n: Lexer, c: char)
    requires l.control == n.control && Sound(l) && Sound(n) && Differing(Mixed, l.data, n.data)
    requires NextMove(l.control, c).first == EndBefore
    ensures Apart(Step(l, c).data, Step(n, c).data)
  {
    var m := NextMove(l.control, c);
    MoveCanLeave(l, m);
    MoveCanLeave(n, m);
    hide NextMove, CanLeave, Proper, Sound;
    EndsApart(l.data, n.data);
    var d, e := Do(l.data, m.first), Do(n.data, m.first);
    hide Do, Apart;
    DoKeepsApart(d, e, m.second);
    DoKeepsApart(Do(d, m.second), Do(e, m.second), m.third);
  }

  lemma EndsApart(d: Data, e: Data)
    requires Differing(Mixed, d, e)
    ensures Apart(Do(d, EndBefore), Do(e, EndBefore))
  {
    OutlineDo(d, EndBefore);
    OutlineDo(e, EndBefore);
    hide FormsOf, NestsOf, IsDigits;
    if OutlineOf(Do(d, EndBefore)) == OutlineOf(Do(e, EndBefore)) {
      SnocInjective(FormsOf(d.tokens), NumberForm, FormsOf(e.tokens), WordForm(NestsOf(e.word.atoms)));
    }
  }

  lemma {:induction false} UnsteadyParts(
    l: Lexer, n: Lexer, parts: seq<Part>, optional: set<string>, f: string -> Filling, g: string -> Filling, run: Run)
    requires l.control == n.control && Sound(l) && Sound(n) && Differing(run, l.data, n.data)
    requires AllUnquoted(l.control, parts, optional) && !Steady(l.control, run, parts)
    requires forall i :: 0 <= i < |parts| && parts[i].Slot? ==> f(parts[i].name) == Value("0") && g(parts[i].name) == Value("a")
    ensures Apart(ScanParts(l, parts, f).data, ScanParts(n, parts, g).data)
    decreases |parts|
  {
    hide NextMove, Do, Fill, Apart, Differing, Sound, NextRun, IsPlainPosition, InBraces;
    match parts[0]
    case Text(c) =>
      var m := NextMove(l.control, c);
      StepSound(l, c);
      StepSound(n, c);
      if m.first == EndBefore && run == Mixed {
        RedirectionParts(l, n, c);
        ScanPartsKeepsApart(Step(l, c), Step(n, c), parts[1..], optional, f, g);
      } else {
        StepDiffers(l, n, c, run);
        UnsteadyParts(Step(l, c), Step(n, c), parts[1..], optional, f, g, NextRun(run, m));
      }
    case Slot(name) =>
      FillDiffers(l, n, run);
      FillControl(l, f(name));
      FillControl(n, g(name));
      FillSound(l, f(name));
      FillSound(n, g(name));
      UnsteadyParts(Fill(l, Value("0")), Fill(n, Value("a")), parts[1..], optional, f, g, SlotRun(run));
  }

  // ----- from readings to tokens ------------------------------------------------------------------------

  lemma {:induction false} ScanPartsInPlace(l: Lexer, parts: seq<Part>, optional: set<string>, f: string -> Filling)
    requires AllUnquoted(l.control, parts, optional) && InPlace(l)
    ensures InPlace(ScanParts(l, parts, f))
    decreases |parts|
  {
    hide NextMove, Do, Fill, IsPlainPosition, InBraces;
    if parts != [] {
      match parts[0]
      case Text(c) =>
        StepInPlace(l, c);
        ScanPartsInPlace(Step(l, c), parts[1..], optional, f);
      case Slot(name) =>
        FillControl(l, f(name));
        ScanPartsInPlace(Fill(l, f(name)), parts[1..], optional, f);
    }
  }

  lemma {:induction false} CollapseKeepsApart(d: Data, e: Data)
    requires Apart(d, e)
    ensures Apart(Collapse(d), Collapse(e)) && Collapse(d).outer == Bottom == Collapse(e).outer
    ensures d.outer == Bottom ==> Collapse(d) == d && Collapse(e) == e
    decreases d.outer
  {
    if d.outer.Saved? {
      DoKeepsApart(d, e, Leave);
      CollapseKeepsApart(Do(d, Leave), Do(e, Leave));
      hide OutlineOf;
    } else {
      assert e.outer.Bottom?;
    }
  }

  lemma FinishApart(l: Lexer, n: Lexer)
    requires l.control == n.control && CanEnd(l.control) && Apart(l.data, n.data)
    requires Sound(l) && InPlace(l) && InPlace(n)
    ensures !SameShape(Finish(l).value, Finish(n).value)
  {
    var last := LastEdit(l.control.mode);
    CollapseKeepsApart(l.data, n.data);
    var d, e := Collapse(l.data), Collapse(n.data);
    DoKeepsApart(d, e, last);
    OutlineDo(d, last);
    OutlineDo(e, last);
    NoneOutline();
    hide FormsOf, NestsOf, Collapse;
    if last == EndWord {
      assert Do(d, last).word == NONE == Do(e, last).word;
    } else {
      assert Idle(l.control.mode) && Height(l.data.outer) == 0;
    }
  }

  /** Parameters that declare every placeholder of a template, all optional, and one value for all. */
  function Declaring(parts: seq<Part>): seq<Parameter> {
    if parts == [] then []
    else (if parts[0].Slot? then [Parameter(parts[0].name, false, None)] else []) + Declaring(parts[1..])
  }

  function Everywhere(parts: seq<Part>, text: string): map<string, string> {
    map name | name in Slots(parts) :: text
  }

  lemma {:induction false} DeclaringDeclares(parts: seq<Part>)
    ensures forall i :: 0 <= i < |parts| && parts[i].Slot? ==> parts[i].name in Declared(Declaring(parts))
    ensures forall i :: 0 <= i < |Declaring(parts)| ==> !Declaring(parts)[i].required && Declaring(parts)[i].default == None
  {
    if parts != [] {
      var ps, rest := Declaring(parts), Declaring(parts[1..]);
      DeclaringDeclares(parts[1..]);
      var k := |ps| - |rest|;
      forall i | 0 <= i < |parts| && parts[i].Slot? ensures parts[i].name in Declared(ps) {
        if i == 0 {
          assert ps[0].name == parts[0].name;
        } else {
          assert parts[1..][i - 1] == parts[i];
          var j :| 0 <= j < |rest| && rest[j].name == parts[i].name;
          assert ps[k + j] == rest[j];
        }
      }
    }
  }

  lemma EverywhereRenders(w: char -> bool, template: string, use: Use, text: string)
    ensures var parts, ps := Parts(w, template, use), Declaring(Parse(w, template));
            && Render(w, template, ps, Everywhere(parts, text)).Ok?
            && Obeys(use, parts, ps, Everywhere(parts, text))
            && forall i :: 0 <= i < |parts| && parts[i].Slot? ==>
                 Meaning(ps, Everywhere(parts, text), parts[i].name) == Value(text)
  {
    var all, parts := Parse(w, template), Parts(w, template, use);
    var ps, params := Declaring(all), Everywhere(parts, text);
    DeclaringDeclares(all);
    NoDefaults(ps);
    SpelledSlots(all, use.kept);
    RenderSucceedsIff(w, template, ps, params);
    hide Parse, Declaring, Render, Spelled, DefaultOf;
    forall i | 0 <= i < |parts| && parts[i].Slot? ensures parts[i].name in params {
      assert parts[i].name in Slots(parts);
    }
    forall name | name in Slots(all) ensures name in Declared(ps) {
      var i :| 0 <= i < |all| && all[i].Slot? && all[i].name == name;
    }
  }

  lemma {:induction false} NoDefaults(ps: seq<Parameter>)
    requires forall i :: 0 <= i < |ps| ==> ps[i].default == None
    ensures forall name :: DefaultOf(ps, name) == None
  {
    if ps != [] {
      NoDefaults(ps[..|ps| - 1]);
    }
  }

  /** Its quotations and expansions are closed: a property of the template alone. */
  predicate Completes(parts: seq<Part>) { CanEnd(ControlAfter(START.control, parts)) }

  /** Whatever the values, a rendering can be read to its end iff its template can. */
  lemma RenderingCompletesIff(w: char -> bool, template: string, use: Use, ps: seq<Parameter>, params: map<string, string>)
    requires var parts := Parts(w, template, use);
             IsWordClass(w) && AllUnquoted(START.control, parts, use.optional) && Obeys(use, parts, ps, params)
    requires Render(w, template, ps, params).Ok?
    ensures Tokens(Render(w, template, ps, params).value).Some? <==> Completes(Parts(w, template, use))
  {
    hide Render, Parts, Scan, ScanParts, AllUnquoted, Meaning, IsWordClass, ControlAfter, KeepsOnly, CanEnd, Collapse, LastEdit, Obeys;
    var f := (name: string) => Meaning(ps, params, name);
    RenderKeepsWords(w, template, use, ps, params);
    ScanPartsSound(START, Parts(w, template, use), use.optional, f);
  }

  /** A template that completes and is not steady has two renderings of different shape: put `0` at
      every placeholder, and then `a`, and an IO number becomes a word. */
  lemma UnsteadyChangesShape(w: char -> bool, template: string, use: Use)
    requires var parts := Parts(w, template, use);
             && IsWordClass(w) && AllUnquoted(START.control, parts, use.optional)
             && !Steady(START.control, Digits, parts) && Completes(parts)
    ensures var parts, ps := Parts(w, template, use), Declaring(Parse(w, template));
            var zero, letter := Render(w, template, ps, Everywhere(parts, "0")), Render(w, template, ps, Everywhere(parts, "a"));
            && zero.Ok? && letter.Ok?
            && Obeys(use, parts, ps, Everywhere(parts, "0")) && Obeys(use, parts, ps, Everywhere(parts, "a"))
            && Tokens(zero.value).Some? && Tokens(letter.value).Some?
            && !SameShape(Tokens(zero.value).value, Tokens(letter.value).value)
  {
    var parts, ps := Parts(w, template, use), Declaring(Parse(w, template));
    var zeros, letters := Everywhere(parts, "0"), Everywhere(parts, "a");
    EverywhereRenders(w, template, use, "0");
    EverywhereRenders(w, template, use, "a");
    RenderKeepsWords(w, template, use, ps, zeros);
    RenderKeepsWords(w, template, use, ps, letters);
    var f := (name: string) => Meaning(ps, zeros, name);
    var g := (name: string) => Meaning(ps, letters, name);
    hide Render, Parse, Parts, Scan, ScanParts, AllUnquoted, Meaning, IsWordClass, Steady;
    hide Everywhere, Declaring, Obeys, Finish, SameShape, CanEnd, ControlAfter;
    ReadingsApart(parts, use.optional, f, g);
  }

  lemma ReadingsApart(parts: seq<Part>, optional: set<string>, f: string -> Filling, g: string -> Filling)
    requires AllUnquoted(START.control, parts, optional) && !Steady(START.control, Digits, parts)
    requires CanEnd(ControlAfter(START.control, parts))
    requires forall i :: 0 <= i < |parts| && parts[i].Slot? ==> f(parts[i].name) == Value("0") && g(parts[i].name) == Value("a")
    ensures var a, b := Finish(ScanParts(START, parts, f)), Finish(ScanParts(START, parts, g));
            a.Some? && b.Some? && !SameShape(a.value, b.value)
  {
    hide ScanParts, AllUnquoted, Steady, Finish, SameShape, CanEnd, ControlAfter;
    UnsteadyParts(START, START, parts, optional, f, g, Digits);
    ScanPartsSound(START, parts, optional, f);
    ScanPartsSound(START, parts, optional, g);
    ScanPartsInPlace(START, parts, optional, f);
    ScanPartsInPlace(START, parts, optional, g);
    FinishApart(ScanParts(START, parts, f), ScanParts(START, parts, g));
    FinishSome(ScanParts(START, parts, f));
    FinishSome(ScanParts(START, parts, g));
  }

  lemma FinishSome(l: Lexer)
    ensures Finish(l).Some? <==> CanEnd(l.control)
  {
  }

  predicate Renders(w: char -> bool, template: string, use: Use, ps: seq<Parameter>, params: map<string, string>) {
    Render(w, template, ps, params).Ok? && Obeys(use, Parts(w, template, use), ps, params)
  }

  /** Any two renderings of the template that use its names so have the same shape. */
  ghost predicate OneShape(w: char -> bool, template: string, use: Use) {
    forall ps, params, qs, params2 :: Renders(w, template, use, ps, params) && Renders(w, template, use, qs, params2) ==>
      var a := Tokens(Render(w, template, ps, params).value);
      var b := Tokens(Render(w, template, qs, params2).value);
      (a.Some? <==> b.Some?) && (a.Some? ==> SameShape(a.value, b.value))
  }

  /** For a template with unquoted placeholders only: its values decide nothing about the shape of the
      command iff it is steady, or cannot be read to its end at all. */
  lemma OneShapeIff(w: char -> bool, template: string, use: Use)
    requires IsWordClass(w) && AllUnquoted(START.control, Parts(w, template, use), use.optional)
    ensures var parts := Parts(w, template, use);
            OneShape(w, template, use) <==> (Completes(parts) ==> Steady(START.control, Digits, parts))
  {
    hide Render, Parse, Parts, Tokens, Steady, AllUnquoted, SameShape, IsWordClass, Declaring, Everywhere, Completes, Obeys;
    var parts := Parts(w, template, use);
    if Completes(parts) && !Steady(START.control, Digits, parts) {
      UnsteadyChangesShape(w, template, use);
      assert Renders(w, template, use, Declaring(Parse(w, template)), Everywhere(parts, "0"));
      assert Renders(w, template, use, Declaring(Parse(w, template)), Everywhere(parts, "a"));
    } else {
      forall ps, params, qs, params2 | Renders(w, template, use, ps, params) && Renders(w, template, use, qs, params2)
        ensures var a := Tokens(Render(w, template, ps, params).value);
                var b := Tokens(Render(w, template, qs, params2).value);
                (a.Some? <==> b.Some?) && (a.Some? ==> SameShape(a.value, b.value))
      {
        RenderingCompletesIff(w, template, use, ps, params);
        if Steady(START.control, Digits, parts) {
          ShapeIgnoresValues(w, template, use, ps, params, qs, params2);
        } else {
          RenderingCompletesIff(w, template, use, qs, params2);
        }
      }
    }
  }
}
