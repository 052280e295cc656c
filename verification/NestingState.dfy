/** The linter's nesting stack: what a line does to the blocks it is inside of, and how conditional
    directives save, restore and drop that stack.  Regular-expression results are part of the line. */
module NestingState {
  datatype Option<T> = None | Some(value: T)

  // ---- blocks and lines ----------------------------------------------------------------------

  datatype InlineAsm = NoAsm | InsideAsm | EndAsm | BlockAsm

  datatype Kind =
    | Plain
    | Namespace(name: string)
    | Class(name: string, isStruct: bool, access: string, isDerived: bool)

  datatype Block = Block(kind: Kind, seenOpenBrace: bool, openParentheses: int, inlineAsm: InlineAsm)

  type Stack = seq<Block>

  datatype Directive = If | Else | Endif | Other   // Else is #else or #elif

  datatype Token = OpenBrace(asm: bool) | CloseBrace | Terminator   // Terminator is ';' or ')'

  /** What is left of a line once its declarations are consumed. */
  datatype Rest = Rest(access: Option<string>, tokens: seq<Token>)

  datatype NamespaceDecl = NamespaceDecl(name: string, brace: bool)

  datatype ClassDecl = ClassDecl(name: string, isStruct: bool, rest: Rest)

  /** A line as the regular expressions see it: its directive, parentheses opened minus closed, whether it
      starts inline assembly, its leading namespace declarations, a class declaration after them, a bare
      colon, and the rest if that class declaration is not taken. */
  datatype Line = Line(directive: Directive, parens: int, asm: bool, namespaces: seq<NamespaceDecl>,
                       classDecl: Option<ClassDecl>, colon: bool, rest: Rest)

  // ---- what a line does to the stack ---------------------------------------------------------

  predicate SeenOpenBrace(stack: Stack) {
    |stack| == 0 || stack[|stack| - 1].seenOpenBrace
  }

  function Top(stack: Stack): Block
    requires |stack| > 0
  {
    stack[|stack| - 1]
  }

  function Replace(stack: Stack, b: Block): Stack
    requires |stack| > 0
  {
    stack[..|stack| - 1] + [b]
  }

  function AfterParentheses(b: Block, change: int, asm: bool): Block {
    var open := b.openParentheses + change;
    b.(openParentheses := open,
       inlineAsm :=
         if b.inlineAsm.NoAsm? || b.inlineAsm.EndAsm?
         then if change != 0 && open == 1 && asm then InsideAsm else NoAsm
         else if b.inlineAsm.InsideAsm? && open == 0 then EndAsm
         else b.inlineAsm)
  }

  function AfterNamespaces(stack: Stack, decls: seq<NamespaceDecl>): Stack {
    stack + seq(|decls|, i requires 0 <= i < |decls| => Block(Namespace(decls[i].name), decls[i].brace, 0, NoAsm))
  }

  function AfterToken(stack: Stack, token: Token): Stack {
    match token
    case OpenBrace(asm) =>
      if !SeenOpenBrace(stack) then Replace(stack, Top(stack).(seenOpenBrace := true))
      else stack + [Block(Plain, true, 0, if asm then BlockAsm else NoAsm)]
    case Terminator => if !SeenOpenBrace(stack) then stack[..|stack| - 1] else stack
    case CloseBrace => if |stack| > 0 then stack[..|stack| - 1] else stack
  }

  function AfterTokens(stack: Stack, tokens: seq<Token>): Stack {
    if |tokens| == 0 then stack
    else AfterToken(AfterTokens(stack, tokens[..|tokens| - 1]), tokens[|tokens| - 1])
  }

  /** A bare colon before the opening brace marks a derived class. */
  function AfterBegin(stack: Stack, colon: bool): Stack {
    if !SeenOpenBrace(stack) && Top(stack).kind.Class? && colon
    then Replace(stack, Top(stack).(kind := Top(stack).kind.(isDerived := true)))
    else stack
  }

  function AfterAccess(stack: Stack, access: Option<string>): Stack {
    if |stack| > 0 && Top(stack).kind.Class? && access.Some?
    then Replace(stack, Top(stack).(kind := Top(stack).kind.(access := access.value)))
    else stack
  }

  predicate TakesClass(stack: Stack, line: Line) {
    line.classDecl.Some? && (|stack| == 0 || Top(stack).openParentheses == 0)
  }

  function ClassBlock(c: ClassDecl): Block {
    Block(Class(c.name, c.isStruct, if c.isStruct then "public" else "private", false), false, 0, NoAsm)
  }

  /** The whole line, directives apart. */
  function Effect(stack: Stack, line: Line): Stack {
    var s1 := if |stack| > 0 then Replace(stack, AfterParentheses(Top(stack), line.parens, line.asm)) else stack;
    var s2 := AfterNamespaces(s1, line.namespaces);
    var taken := TakesClass(s2, line);
    var s3 := if taken then s2 + [ClassBlock(line.classDecl.value)] else s2;
    var rest := if taken then line.classDecl.value.rest else line.rest;
    AfterTokens(AfterAccess(AfterBegin(s3, line.colon), rest.access), rest.tokens)
  }

  // ---- conditional directives ----------------------------------------------------------------

  datatype PreprocessorInfo = PreprocessorInfo(stackBeforeIf: Stack, stackBeforeElse: Stack, seenElse: bool)

  datatype State = State(stack: Stack, pp: seq<PreprocessorInfo>)

  function Preprocess(s: State, d: Directive): State {
    var n := |s.pp|;
    match d
    case If => State(s.stack, s.pp + [PreprocessorInfo(s.stack, [], false)])
    case Else =>
      if n == 0 then s
      else
        var top := s.pp[n - 1];
        State(top.stackBeforeIf,
              if top.seenElse then s.pp
              else s.pp[..n - 1] + [PreprocessorInfo(top.stackBeforeIf, s.stack, true)])
    case Endif =>
      if n == 0 then s
      else State(if s.pp[n - 1].seenElse then s.pp[n - 1].stackBeforeElse else s.stack, s.pp[..n - 1])
    case Other => s
  }

  function Step(s: State, line: Line): State {
    var p := Preprocess(s, line.directive);
    State(Effect(p.stack, line), p.pp)
  }

  function Run(s: State, lines: seq<Line>): State {
    if |lines| == 0 then s else Step(Run(s, lines[..|lines| - 1]), lines[|lines| - 1])
  }

  lemma {:induction false} RunSplits(s: State, a: seq<Line>, b: seq<Line>)
    ensures Run(s, a + b) == Run(Run(s, a), b)
  {
    if |b| == 0 {
      assert a + b == a;
    } else {
      var m := |b| - 1;
      assert a + b == (a + b[..m]) + [b[m]] && b == b[..m] + [b[m]];
      RunSnoc(s, a + b[..m], b[m]);
      RunSnoc(Run(s, a), b[..m], b[m]);
      RunSplits(s, a, b[..m]);
    }
  }

  lemma {:induction false} RunSnoc(s: State, front: seq<Line>, line: Line)
    ensures Run(s, front + [line]) == Step(Run(s, front), line)
  {
    assert (front + [line])[..|front|] == front;
  }

  lemma RunOne(s: State, line: Line)
    ensures Run(s, [line]) == Step(s, line)
  {
    assert Run(s, [line][..0]) == s;
  }

  // ---- nesting of directives -----------------------------------------------------------------

  function Opens(d: Directive): int {
    match d case If => 1 case Endif => -1 case _ => 0
  }

  /** Conditionals opened and not yet closed by these lines. */
  function Nest(lines: seq<Line>): int {
    if |lines| == 0 then 0
    else Nest(lines[..|lines| - 1])
         + Opens(lines[|lines| - 1].directive)
  }

  /** No #endif closes a conditional from before. */
  predicate Inner(lines: seq<Line>) {
    |lines| > 0 ==> Inner(lines[..|lines| - 1]) && Nest(lines) >= 0
  }

  predicate WellNested(lines: seq<Line>) {
    Inner(lines) && Nest(lines) == 0
  }

  /** Every #else belongs to a conditional opened by these lines. */
  predicate OwnElses(lines: seq<Line>) {
    |lines| > 0 ==>
      var front := lines[..|lines| - 1];
      OwnElses(front) && (lines[|lines| - 1].directive.Else? ==> Nest(front) > 0)
  }

  lemma SavedStep(s: State, base: seq<PreprocessorInfo>, depth: nat, d: Directive)
    requires |s.pp| == |base| + depth && s.pp[..|base|] == base && depth + Opens(d) >= 0
    requires d.Else? && depth == 0 ==> |base| > 0 && base[|base| - 1].seenElse
    ensures var r := Preprocess(s, d).pp; |r| == |base| + depth + Opens(d) && r[..|base|] == base
  {
  }

  /** The stacks saved after one more line. */
  lemma StepSaves(s: State, line: Line)
    ensures Step(s, line).pp == Preprocess(s, line.directive).pp
  {
  }

  /** Such lines leave the saved stacks below alone; an #else of an outer conditional does so too once one
      was seen there. */
  lemma {:induction false} SavedStay(s: State, lines: seq<Line>)
    requires Inner(lines) && (OwnElses(lines) || (|s.pp| > 0 && s.pp[|s.pp| - 1].seenElse))
    ensures Nest(lines) >= 0
    ensures |Run(s, lines).pp| == |s.pp| + Nest(lines) && Run(s, lines).pp[..|s.pp|] == s.pp
  {
    if |lines| > 0 {
      var m := |lines| - 1;
      SavedStay(s, lines[..m]);
      SavedStep(Run(s, lines[..m]), s.pp, Nest(lines[..m]), lines[m].directive);
      StepSaves(Run(s, lines[..m]), lines[m]);
    }
  }

  lemma {:induction false} SavedKept(s: State, lines: seq<Line>)
    requires WellNested(lines) && (OwnElses(lines) || (|s.pp| > 0 && s.pp[|s.pp| - 1].seenElse))
    ensures Run(s, lines).pp == s.pp
  {
    SavedStay(s, lines);
    assert Run(s, lines).pp[..|s.pp|] == Run(s, lines).pp;
  }

  /** #endif drops the innermost saved stack and goes on with the stack before the first #else, if any. */
  lemma EndStep(s: State, end: Line, base: seq<PreprocessorInfo>, top: PreprocessorInfo)
    requires end.directive.Endif? && s.pp == base + [top]
    ensures Step(s, end) == State(Effect(if top.seenElse then top.stackBeforeElse else s.stack, end), base)
  {
  }

  /** The else branch of a conditional whose stack was `stack` before: what it leaves for #endif. */
  lemma {:induction false} ElseBranch(s: State, other: Line, b: seq<Line>, base: seq<PreprocessorInfo>,
                                      top: PreprocessorInfo)
    requires other.directive.Else? && WellNested(b) && s.pp == base + [top] && !top.seenElse
    ensures Run(Step(s, other), b).pp == base + [PreprocessorInfo(top.stackBeforeIf, s.stack, true)]
  {
    StepSaves(s, other);
    SavedKept(Step(s, other), b);
  }

  /** The conditional up to its first #else or #endif. */
  lemma {:induction false} IfBranch(s: State, cond: Line, a: seq<Line>)
    requires cond.directive.If? && WellNested(a) && OwnElses(a)
    ensures Run(Step(s, cond), a).pp == s.pp + [PreprocessorInfo(s.stack, [], false)]
  {
    StepSaves(s, cond);
    SavedKept(Step(s, cond), a);
  }

  /** Else branches are inert, in terms of the states in between. */
  lemma {:induction false} ElseStates(s: State, cond: Line, a: seq<Line>, other: Line, b: seq<Line>, end: Line)
    requires cond.directive.If? && other.directive.Else? && end.directive.Endif?
    requires WellNested(a) && OwnElses(a) && WellNested(b)
    ensures var mid := Run(Step(s, cond), a); Step(Run(Step(mid, other), b), end) == Step(mid, end)
  {
    var mid, top := Run(Step(s, cond), a), PreprocessorInfo(s.stack, [], false);
    IfBranch(s, cond, a);
    ElseBranch(mid, other, b, s.pp, top);
    EndStep(mid, end, s.pp, top);
    EndStep(Run(Step(mid, other), b), end, s.pp, PreprocessorInfo(s.stack, mid.stack, true));
  }

  lemma {:induction false} RunBranch(s: State, front: seq<Line>, line: Line, lines: seq<Line>)
    ensures Run(s, front + [line] + lines) == Run(Step(Run(s, front), line), lines)
  {
    RunSplits(s, front + [line], lines);
    RunSnoc(s, front, line);
  }

  /** Else branches are inert: whatever well-nested lines stand between #else and #endif, further #elif and
      nested conditionals included, both stacks end as if they were not there. */
  lemma {:induction false} ElseIsInert(s: State, cond: Line, a: seq<Line>, other: Line, b: seq<Line>, end: Line)
    requires cond.directive.If? && other.directive.Else? && end.directive.Endif?
    requires WellNested(a) && OwnElses(a) && WellNested(b)
    ensures Run(s, [cond] + a + [other] + b + [end]) == Run(s, [cond] + a + [end])
  {
    ElseStates(s, cond, a, other, b, end);
    RunOne(s, cond);
    RunSplits(s, [cond], a);
    RunBranch(s, [cond] + a, other, b);
    RunSnoc(s, [cond] + a + [other] + b, end);
    RunSnoc(s, [cond] + a, end);
  }

  /** The same anywhere in a file, with any lines around. */
  lemma {:induction false} ElseIsInertInFile(s: State, before: seq<Line>, cond: Line, a: seq<Line>, other: Line,
                                             b: seq<Line>, end: Line, after: seq<Line>)
    requires cond.directive.If? && other.directive.Else? && end.directive.Endif?
    requires WellNested(a) && OwnElses(a) && WellNested(b)
    ensures Run(s, before + ([cond] + a + [other] + b + [end]) + after) == Run(s, before + ([cond] + a + [end]) + after)
  {
    var long, short := [cond] + a + [other] + b + [end], [cond] + a + [end];
    RunSplits(s, before, long);
    RunSplits(s, before + long, after);
    RunSplits(s, before, short);
    RunSplits(s, before + short, after);
    ElseIsInert(Run(s, before), cond, a, other, b, end);
  }

  // ---- braces --------------------------------------------------------------------------------

  function Braces(tokens: seq<Token>): int {
    if |tokens| == 0 then 0
    else Braces(tokens[..|tokens| - 1])
         + match tokens[|tokens| - 1] case OpenBrace(_) => 1 case CloseBrace => -1 case Terminator => 0
  }

  /** No brace from before is closed. */
  predicate BracesInner(tokens: seq<Token>) {
    |tokens| > 0 ==> BracesInner(tokens[..|tokens| - 1]) && Braces(tokens) >= 0
  }

  /** Inside a block whose brace was seen, tokens only add blocks on top while no brace from before is closed. */
  lemma {:induction false} BlocksOnTop(stack: Stack, tokens: seq<Token>)
    requires SeenOpenBrace(stack) && BracesInner(tokens)
    ensures var r := AfterTokens(stack, tokens);
            Braces(tokens) >= 0 && |r| == |stack| + Braces(tokens) && r[..|stack|] == stack &&
            forall i :: |stack| <= i < |r| ==> r[i].seenOpenBrace
  {
    if |tokens| > 0 {
      BlocksOnTop(stack, tokens[..|tokens| - 1]);
    }
  }

  /** A line of code with balanced braces and no declaration leaves the stack as it was. */
  lemma BalancedLine(stack: Stack, line: Line)
    requires SeenOpenBrace(stack) && line.parens == 0 && line.namespaces == [] && line.classDecl.None?
    requires |stack| > 0 ==> Top(stack).inlineAsm.NoAsm? || Top(stack).inlineAsm.BlockAsm?
    requires line.rest.access.None? && BracesInner(line.rest.tokens) && Braces(line.rest.tokens) == 0
    ensures Effect(stack, line) == stack
  {
    BlocksOnTop(stack, line.rest.tokens);
    assert |stack| > 0 ==> Replace(stack, Top(stack)) == stack;
    assert AfterNamespaces(stack, []) == stack;
  }

  // ---- the object ----------------------------------------------------------------------------

  class NestingStack {
    var stack: Stack
    var ppStack: seq<PreprocessorInfo>

    constructor ()
      ensures Abs() == State([], [])
    {
      stack := [];
      ppStack := [];
    }

    ghost function Abs(): State
      reads this
    {
      State(stack, ppStack)
    }

    method UpdatePreprocessor(d: Directive)
      modifies this
      ensures Abs() == Preprocess(old(Abs()), d)
    {
      if d == If {
        ppStack := ppStack + [PreprocessorInfo(stack, [], false)];
      } else if d == Else {
        if |ppStack| > 0 {
          var n := |ppStack| - 1;
          if !ppStack[n].seenElse {
            ppStack := ppStack[n := ppStack[n].(seenElse := true, stackBeforeElse := stack)];
          }
          stack := ppStack[n].stackBeforeIf;
        }
      } else if d == Endif {
        if |ppStack| > 0 {
          var n := |ppStack| - 1;
          if ppStack[n].seenElse {
            stack := ppStack[n].stackBeforeElse;
          }
          ppStack := ppStack[..n];
        }
      }
    }

    method Update(line: Line)
      modifies this
      ensures Abs() == Step(old(Abs()), line)
    {
      UpdatePreprocessor(line.directive);
      CountParentheses(line);
      ConsumeNamespaces(line.namespaces);
      var rest := line.rest;
      if TakesClass(stack, line) {
        rest := line.classDecl.value.rest;
        stack := stack + [ClassBlock(line.classDecl.value)];
      }
      if !SeenOpenBrace(stack) {
        stack := AfterBegin(stack, line.colon);
      }
      stack := AfterAccess(stack, rest.access);
      ConsumeTokens(rest.tokens);
    }

    method ConsumeNamespaces(decls: seq<NamespaceDecl>)
      modifies this`stack
      ensures stack == AfterNamespaces(old(stack), decls)
    {
      for i := 0 to |decls|
        invariant stack == AfterNamespaces(old(stack), decls[..i])
      {
        stack := stack + [Block(Namespace(decls[i].name), decls[i].brace, 0, NoAsm)];
      }
      assert decls[..|decls|] == decls;
    }

    method CountParentheses(line: Line)
      modifies this`stack
      ensures stack == if |old(stack)| > 0
                       then Replace(old(stack), AfterParentheses(Top(old(stack)), line.parens, line.asm))
                       else old(stack)
    {
      if |stack| > 0 {
        var inner := Top(stack);
        inner := inner.(openParentheses := inner.openParentheses + line.parens);
        if inner.inlineAsm == NoAsm || inner.inlineAsm == EndAsm {
          if line.parens != 0 && inner.openParentheses == 1 && line.asm {
            inner := inner.(inlineAsm := InsideAsm);
          } else {
            inner := inner.(inlineAsm := NoAsm);
          }
        } else if inner.inlineAsm == InsideAsm && inner.openParentheses == 0 {
          inner := inner.(inlineAsm := EndAsm);
        }
        stack := Replace(stack, inner);
      }
    }

    method ConsumeTokens(tokens: seq<Token>)
      modifies this`stack
      ensures stack == AfterTokens(old(stack), tokens)
    {
      for i := 0 to |tokens|
        invariant stack == AfterTokens(old(stack), tokens[..i])
      {
        assert tokens[..i + 1][..i] == tokens[..i];
        match tokens[i]
        case OpenBrace(asm) =>
          if !SeenOpenBrace(stack) {
            stack := stack[|stack| - 1 := Top(stack).(seenOpenBrace := true)];
          } else {
            stack := stack + [Block(Plain, true, 0, if asm then BlockAsm else NoAsm)];
          }
        case Terminator =>
          if !SeenOpenBrace(stack) {
            stack := stack[..|stack| - 1];
          }
        case CloseBrace =>
          if |stack| > 0 {
            stack := stack[..|stack| - 1];
          }
      }
      assert tokens[..|tokens|] == tokens;
    }
  }
}
