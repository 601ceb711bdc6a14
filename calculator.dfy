/** The calculator demo: every submitted line is tokenized, evaluated and
    answered with one unattributed message "{input} = {answer}". */
module Calculator {
  import opened Tokens
  import opened Options
  import opened Messages
  import TK = Tokenizer
  import CIO = ConsoleIO
  import IL = InputLine

  /** The three ways `UserInputHandler` can answer: the value, or the
      message of the exception it catches. */
  datatype Answer = Result(value: int) | InvalidInput | DivisionByZero

  /** The answer to a line: `InvalidDataException` from the tokenizer,
      `DivideByZeroException` from evaluation, or the value. */
  function Evaluate(input: string): (a: Answer)
    ensures a.InvalidInput? <==> TK.Parse(TK.RemoveSpaces(input)).InvalidData?
  {
    match TK.Parse(TK.RemoveSpaces(input))
    case InvalidData => InvalidInput
    case Ok(t) =>
      var v := Eval(t);
      if v.Failed? then DivisionByZero else Result(v.n)
  }

  function AnswerText(a: Answer): string {
    match a
    case Result(v) => IntText(v)
    case InvalidInput => "Invalid Input"
    case DivisionByZero => "Division By Zero"
  }

  /** The message added for a line: the raw line, spaces and all, then
      " = " and the answer. */
  function MessageText(input: string): (r: string)
    ensures |r| > |input| + 3 && r[..|input|] == input && r[|input|..|input| + 3] == " = "
  {
    input + " = " + AnswerText(Evaluate(input))
  }

  /** A line is answered "Division By Zero" exactly when it parses and some
      division in its tree has a divisor that evaluates to 0; otherwise a
      line that parses is answered with its value. */
  lemma EvaluateCases(input: string)
    ensures var p := TK.Parse(TK.RemoveSpaces(input));
            && (Evaluate(input).DivisionByZero? <==> p.Ok? && HasZeroDivisor(p.token))
            && (Evaluate(input).Result? <==> p.Ok? && Eval(p.token).Value?)
            && (Evaluate(input).Result? ==> Eval(p.token) == Value(Evaluate(input).value))
  {
    var p := TK.Parse(TK.RemoveSpaces(input));
    if p.Ok? {
      EvalFailsIffZeroDivisor(p.token);
    }
  }

  /** Spaces never change the answer: the tokenizer sees the line with
      its spaces removed, and removing them again changes nothing. */
  lemma SpacesIgnored(input: string)
    ensures Evaluate(TK.RemoveSpaces(input)) == Evaluate(input)
  {
    TK.RemoveSpacesNoop(TK.RemoveSpaces(input));
  }

  /** The text of a value starts with a digit, or with '-' exactly when
      the value is negative. */
  lemma IntTextStart(n: int)
    ensures |IntText(n)| >= 1
    ensures n >= 0 ==> TK.IsDigit(IntText(n)[0])
    ensures n < 0 ==> IntText(n)[0] == '-'
  {
  }

  /** Two values with the same text are equal. */
  lemma IntTextInjective(x: int, y: int)
    requires IntText(x) == IntText(y)
    ensures x == y
  {
    IntTextStart(x);
    IntTextStart(y);
    if x >= 0 && y >= 0 {
      TK.DigitsValueOfNatText(x);
      TK.DigitsValueOfNatText(y);
    } else if x < 0 && y < 0 {
      assert NatText(-x) == IntText(x)[1..];
      assert NatText(-y) == IntText(y)[1..];
      TK.DigitsValueOfNatText(-x);
      TK.DigitsValueOfNatText(-y);
    }
  }

  /** A value is never shown as one of the two error texts. */
  lemma IntTextIsNoError(x: int)
    ensures IntText(x) != "Invalid Input" && IntText(x) != "Division By Zero"
  {
    IntTextStart(x);
    assert "Invalid Input"[0] == 'I' && "Division By Zero"[0] == 'D';
  }

  /** Different answers read differently. */
  lemma AnswerTextInjective(a: Answer, b: Answer)
    requires AnswerText(a) == AnswerText(b)
    ensures a == b
  {
    if a.Result? && b.Result? {
      IntTextInjective(a.value, b.value);
    } else if a.Result? {
      IntTextIsNoError(a.value);
    } else if b.Result? {
      IntTextIsNoError(b.value);
    }
  }

  /** The message for a line tells which answer it got. */
  lemma MessageNamesAnswer(input: string, a: Answer)
    requires MessageText(input) == input + " = " + AnswerText(a)
    ensures Evaluate(input) == a
  {
    var m := MessageText(input);
    assert AnswerText(Evaluate(input)) == m[|input| + 3..] == AnswerText(a);
    AnswerTextInjective(Evaluate(input), a);
  }

  /** A line of spaces is invalid input; so is a number directly followed
      by a parenthesis. */
  lemma BlankAndJuxtaposedAreInvalid()
    ensures Evaluate("  ") == InvalidInput
    ensures Evaluate("2(3)") == InvalidInput
  {
    TK.BlankInputRejected("  ");
    TK.JuxtapositionRejected("2(3)", 0);
    TK.RemoveSpacesNoop("2(3)");
  }

  /** "8-2-1" is answered 7: subtraction takes the whole rest of the line
      as its right operand. */
  lemma SubtractionAnswer()
    ensures MessageText("8-2-1") == "8-2-1 = 7"
  {
    TK.SubtractionAssociatesRight();
    TK.RemoveSpacesNoop("8-2-1");
    assert NatText(7) == "7";
  }

  /** "1/0" is a division of 1 by 0. */
  lemma OneOverZeroParses()
    ensures TK.Parse("1/0") == TK.Ok(Tree(Division(Number(1), Number(0))))
  {
    var s := "1/0";
    var t := Division(Number(1), Number(0));
    assert TK.NumberEnd(s, 0) == 1 && TK.NumberEnd(s, 2) == 3;
    assert s[0..1] == "1" && s[2..3] == "0";
    assert TK.DigitsValue("1") == 1 && TK.DigitsValue("0") == 0;
    assert TK.ValueSpec(s, 0, 0) == TK.Parsed(Number(1), 1, 0);
    assert TK.ValueSpec(s, 2, 0) == TK.Parsed(Number(0), 3, 0);
    assert TK.RecSpec(s, 3, 0, Some(t)) == TK.Parsed(t, 3, 0);
    assert TK.RecSpec(s, 1, 0, Some(Number(1))) == TK.Parsed(t, 3, 0);
  }

  /** "1/0" is answered "Division By Zero". */
  lemma DivisionByZeroAnswer()
    ensures Evaluate("1/0") == DivisionByZero
  {
    TK.RemoveSpacesNoop("1/0");
    OneOverZeroParses();
    assert Eval(Tree(Division(Number(1), Number(0)))) == Failed(DivideByZero);
  }

  /** The demo program: the console interface with its tokenizer. */
  class Calculator {
    const ui: CIO.ConsoleInterface
    const tokenizer: TK.Tokenizer

    /** `new Calculator()`: the base interface without a sender column. */
    constructor (width: int, height: int)
      requires width >= 2
      ensures ui.Inv() && ui.senderWidth == 0 && ui.messages == [] && fresh(ui) && fresh(tokenizer)
    {
      ui := new CIO.ConsoleInterface(0, width, height);
      tokenizer := new TK.Tokenizer();
    }

    /** The `try` block of `UserInputHandler` and its two `catch` clauses:
        set the tokenizer's input, tokenize and evaluate, and word the
        answer. */
    method Respond(input: string) returns (text: string)
      modifies tokenizer
      ensures text == MessageText(input)
      ensures tokenizer.input == input
    {
      tokenizer.SetInput(input);
      var r := tokenizer.Tokenize();
      ghost var a := Evaluate(input);
      match r {
        case InvalidData =>
          assert a == InvalidInput;
          text := input + " = " + "Invalid Input";
        case Ok(t) =>
          var v := Eval(t);
          if v.Failed? {
            assert a == DivisionByZero;
            text := input + " = " + "Division By Zero";
          } else {
            assert a == Result(v.n);
            text := input + " = " + IntText(v.n);
          }
      }
    }

    /** `UserInputHandler`: the answer is added as a message without
        sender, which redraws the interface. */
    method UserInputHandler(input: string, width: int, height: int)
      requires ui.Inv() && width >= ui.senderWidth + 4 && height >= 5
      modifies ui`messages, ui`messageOffset, ui`fullWidth, ui`fullHeight, ui`inputBuffer,
               ui`cursorPosition, ui`windowOffset, ui`screen, tokenizer
      ensures ui.messages == old(ui.messages) + [Message(MessageText(input), "")]
      ensures ui.messageOffset == IL.Bumped(old(ui.messageOffset))
      ensures ui.Input() == IL.Refresh(old(ui.Input()), width - 2)
      ensures ui.submitted == old(ui.submitted) && ui.exit == old(ui.exit)
      ensures ui.Shown(width, height)
      ensures tokenizer.input == input
    {
      var text := Respond(input);
      ui.AddMessage(text, None, width, height);
    }
  }
}
