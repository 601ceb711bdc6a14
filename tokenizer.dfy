/** The calculator's recursive-descent tokenizer. `+` and `-` take the whole
    rest of the expression as their right operand (so they associate to the
    right), `*` and `/` bind the next value and fold to the left, `(` opens a
    group that `)` closes, and a number is a maximal run of digits. */
module Tokenizer {
  import opened Tokens
  import opened Options

  /** Result of one parsing function: the tree built and the cursor and
      depth it leaves behind, or the `InvalidDataException` of the source. */
  datatype Step = Parsed(token: Token, pos: nat, depth: int) | Invalid

  /** Outcome of a tokenizer method, whose cursor and depth live in fields. */
  datatype Outcome = Ok(token: Token) | InvalidData

  predicate IsDigit(c: char) {
    '0' <= c <= '9'
  }

  /** The `Input` setter's sanitisation: every ' ' removed, nothing else. */
  function RemoveSpaces(s: string): (r: string)
    ensures ' ' !in r
    ensures |r| <= |s|
    ensures forall c :: c != ' ' ==> multiset(r)[c] == multiset(s)[c]
  {
    if s == [] then []
    else
      var r := RemoveSpaces(s[..|s| - 1]);
      assert s == s[..|s| - 1] + [s[|s| - 1]];
      if s[|s| - 1] == ' ' then r else r + [s[|s| - 1]]
  }

  // ---------------------------------------------------------------------
  // Specification of the parsing functions over the sanitised text

  /** End of the run of digits that starts at `pos`. */
  function NumberEnd(s: string, pos: nat): (e: nat)
    requires pos <= |s|
    ensures pos <= e <= |s|
    ensures forall i :: pos <= i < e ==> IsDigit(s[i])
    ensures e == |s| || !IsDigit(s[e])
    decreases |s| - pos
  {
    if pos < |s| && IsDigit(s[pos]) then NumberEnd(s, pos + 1) else pos
  }

  /** `int.Parse` of a run of decimal digits, without the 32-bit bound. */
  function DigitsValue(ds: string): nat
    requires forall i :: 0 <= i < |ds| ==> IsDigit(ds[i])
  {
    if ds == [] then 0
    else
      assert IsDigit(ds[|ds| - 1]);
      DigitsValue(ds[..|ds| - 1]) * 10 + (ds[|ds| - 1] as int - '0' as int)
  }

  /** `TokenizeValue`: a number, or a parenthesised group. */
  function ValueSpec(s: string, pos: nat, depth: int): (r: Step)
    requires pos <= |s|
    ensures r.Parsed? ==> pos < r.pos <= |s|
    decreases |s| - pos, 1
  {
    if pos >= |s| then Invalid
    else if IsDigit(s[pos]) then
      var e := NumberEnd(s, pos);
      Parsed(Number(DigitsValue(s[pos..e])), e, depth)
    else if s[pos] == '(' then ParentSpec(s, pos, depth)
    else Invalid
  }

  /** `TokenizeParent`: consume '(', go one level deeper and parse a value
      followed by the rest of the group. */
  function ParentSpec(s: string, pos: nat, depth: int): (r: Step)
    requires pos < |s|
    ensures r.Parsed? ==> pos < r.pos <= |s|
    decreases |s| - pos, 0
  {
    var v := ValueSpec(s, pos + 1, depth + 1);
    if v.Invalid? then Invalid
    else
      var r := RecSpec(s, v.pos, v.depth, Some(v.token));
      if r.Invalid? then Invalid else Parsed(ParentToken(r.token), r.pos, r.depth)
  }

  /** `TokenizeRec`: continue an expression whose left operand, if any, is
      `left`. Only the first remaining character is ever inspected. A '('
      after a complete operand is rejected with digits, so the source's
      `case '('` is never reached and falls to the default here. */
  function RecSpec(s: string, pos: nat, depth: int, left: Option<Token>): (r: Step)
    requires pos <= |s|
    ensures r.Parsed? ==> pos <= r.pos <= |s|
    decreases |s| - pos, 2
  {
    if pos == |s| then
      if left.None? || depth != 0 then Invalid else Parsed(left.value, pos, depth)
    else
      var c := s[pos];
      if (IsDigit(c) || c == '(') && left.None? then
        var v := ValueSpec(s, pos, depth);
        if v.Invalid? then Invalid else RecSpec(s, v.pos, v.depth, Some(v.token))
      else if IsDigit(c) || c == '(' then Invalid
      else if left.None? then Invalid
      else if c == '+' || c == '-' then
        var r := RecSpec(s, pos + 1, depth, None);
        if r.Invalid? then Invalid
        else if c == '+' then Parsed(Addition(left.value, r.token), r.pos, r.depth)
        else Parsed(Subtraction(left.value, r.token), r.pos, r.depth)
      else if c == '*' || c == '/' then
        var v := ValueSpec(s, pos + 1, depth);
        if v.Invalid? then Invalid
        else if c == '*' then RecSpec(s, v.pos, v.depth, Some(Multiplication(left.value, v.token)))
        else RecSpec(s, v.pos, v.depth, Some(Division(left.value, v.token)))
      else if c == ')' then
        if depth - 1 < 0 then Invalid else Parsed(left.value, pos + 1, depth - 1)
      else Invalid
  }

  /** `Tokenize` on sanitised text: a value, the rest of the expression, and
      the `Tree` root. */
  function Parse(s: string): (r: Outcome)
    ensures s == [] ==> r == InvalidData
  {
    var v := ValueSpec(s, 0, 0);
    if v.Invalid? then InvalidData
    else
      var r := RecSpec(s, v.pos, v.depth, Some(v.token));
      if r.Invalid? then InvalidData else Ok(Tree(r.token))
  }

  // ---------------------------------------------------------------------
  // The tokenizer object

  class Tokenizer {
    var input: string
    var sanitizedInput: string
    var progressCounter: int
    var depth: int

    ghost predicate Valid()
      reads this
    {
      0 <= progressCounter <= |sanitizedInput|
    }

    /** `new Tokenizer()`. */
    constructor ()
      ensures Valid() && input == "" && sanitizedInput == ""
      ensures progressCounter == 0 && depth == 0
    {
      input, sanitizedInput := "", "";
      progressCounter, depth := 0, 0;
    }

    /** The `Input` setter; the cursor is left alone until the next
        `Tokenize` resets it. */
    method SetInput(value: string)
      modifies this`input, this`sanitizedInput
      ensures input == value && sanitizedInput == RemoveSpaces(value)
    {
      input := value;
      sanitizedInput := RemoveSpaces(value);
    }

    method Reset()
      modifies this`progressCounter, this`depth
      ensures Valid() && progressCounter == 0 && depth == 0
    {
      progressCounter := 0;
      depth := 0;
    }

    method ConsumeChar()
      requires progressCounter < |sanitizedInput|
      modifies this`progressCounter
      ensures progressCounter == old(progressCounter) + 1
    {
      progressCounter := progressCounter + 1;
    }

    /** Rebuilds the tree of the current input from the start: the same
        `Input` always gives the same tree. */
    method Tokenize() returns (r: Outcome)
      modifies this`progressCounter, this`depth
      ensures r == Parse(sanitizedInput)
    {
      Reset();
      var v := TokenizeValue();
      if v.InvalidData? {
        return InvalidData;
      }
      var e := TokenizeRec(Some(v.token));
      if e.InvalidData? {
        return InvalidData;
      }
      return Ok(Tree(e.token));
    }

    method TokenizeRec(left: Option<Token>) returns (r: Outcome)
      requires Valid()
      modifies this`progressCounter, this`depth
      ensures Valid()
      ensures var spec := RecSpec(sanitizedInput, old(progressCounter), old(depth), left);
              (r.InvalidData? <==> spec.Invalid?)
              && (spec.Parsed? ==> r == Ok(spec.token) && progressCounter == spec.pos && depth == spec.depth)
      decreases |sanitizedInput| - progressCounter, 2
    {
      if progressCounter == |sanitizedInput| {
        if left.None? || depth != 0 {
          return InvalidData;
        }
        return Ok(left.value);
      }
      var c := sanitizedInput[progressCounter];
      if (IsDigit(c) || c == '(') && left.None? {
        var v := TokenizeValue();
        if v.InvalidData? {
          return InvalidData;
        }
        r := TokenizeRec(Some(v.token));
        return;
      } else if IsDigit(c) || c == '(' {
        return InvalidData;
      } else if left.None? {
        return InvalidData;
      }
      if c == '+' || c == '-' {
        ConsumeChar();
        var right := TokenizeRec(None);
        if right.InvalidData? {
          return InvalidData;
        }
        r := if c == '+' then Ok(Addition(left.value, right.token)) else Ok(Subtraction(left.value, right.token));
      } else if c == '*' || c == '/' {
        ConsumeChar();
        var right := TokenizeValue();
        if right.InvalidData? {
          return InvalidData;
        }
        var node := if c == '*' then Multiplication(left.value, right.token) else Division(left.value, right.token);
        r := TokenizeRec(Some(node));
      } else if c == ')' {
        ConsumeChar();
        depth := depth - 1;
        if depth < 0 {
          return InvalidData;
        }
        r := Ok(left.value);
      } else {
        r := InvalidData;
      }
    }

    method TokenizeValue() returns (r: Outcome)
      requires Valid()
      modifies this`progressCounter, this`depth
      ensures Valid()
      ensures var spec := ValueSpec(sanitizedInput, old(progressCounter), old(depth));
              (r.InvalidData? <==> spec.Invalid?)
              && (spec.Parsed? ==> r == Ok(spec.token) && progressCounter == spec.pos && depth == spec.depth)
      decreases |sanitizedInput| - progressCounter, 1
    {
      if progressCounter >= |sanitizedInput| {
        return InvalidData;
      }
      var c := sanitizedInput[progressCounter];
      if IsDigit(c) {
        var n := TokenizeNumber();
        r := Ok(n);
      } else if c == '(' {
        r := TokenizeParent();
      } else {
        ConsumeChar();
        r := InvalidData;
      }
    }

    /** Accumulates the run of digits one character at a time. */
    method TokenizeNumber() returns (t: Token)
      requires Valid() && progressCounter < |sanitizedInput| && IsDigit(sanitizedInput[progressCounter])
      modifies this`progressCounter
      ensures Valid()
      ensures progressCounter == NumberEnd(sanitizedInput, old(progressCounter))
      ensures t == Number(DigitsValue(sanitizedInput[old(progressCounter)..progressCounter]))
    {
      var start := progressCounter;
      var buffer := "";
      while progressCounter < |sanitizedInput| && IsDigit(sanitizedInput[progressCounter])
        invariant start <= progressCounter <= |sanitizedInput|
        invariant buffer == sanitizedInput[start..progressCounter]
        invariant NumberEnd(sanitizedInput, progressCounter) == NumberEnd(sanitizedInput, start)
        decreases |sanitizedInput| - progressCounter
      {
        buffer := buffer + [sanitizedInput[progressCounter]];
        ConsumeChar();
      }
      t := Number(DigitsValue(buffer));
    }

    method TokenizeParent() returns (r: Outcome)
      requires Valid() && progressCounter < |sanitizedInput|
      modifies this`progressCounter, this`depth
      ensures Valid()
      ensures var spec := ParentSpec(sanitizedInput, old(progressCounter), old(depth));
              (r.InvalidData? <==> spec.Invalid?)
              && (spec.Parsed? ==> r == Ok(spec.token) && progressCounter == spec.pos && depth == spec.depth)
      decreases |sanitizedInput| - progressCounter, 0
    {
      ConsumeChar();
      depth := depth + 1;
      var v := TokenizeValue();
      if v.InvalidData? {
        return InvalidData;
      }
      var e := TokenizeRec(Some(v.token));
      if e.InvalidData? {
        return InvalidData;
      }
      r := Ok(ParentToken(e.token));
    }
  }

  // ---------------------------------------------------------------------
  // What a successful parse says about the text

  /** The characters the grammar knows. */
  predicate InAlphabet(c: char) {
    IsDigit(c) || c == '+' || c == '-' || c == '*' || c == '/' || c == '(' || c == ')'
  }

  predicate AllInAlphabet(s: string, a: nat, b: nat)
    requires a <= b <= |s|
  {
    forall i :: a <= i < b ==> InAlphabet(s[i])
  }

  /** Opening minus closing parentheses in `s[a..b]`. */
  function Balance(s: string, a: nat, b: nat): int
    requires a <= b <= |s|
  {
    Count(s[a..b], '(') - Count(s[a..b], ')')
  }

  /** No prefix of `s[a..b]` closes more than `-m` groups it did not open. */
  predicate BalanceFloor(s: string, a: nat, b: nat, m: int)
    requires a <= b <= |s|
  {
    forall k :: a <= k <= b ==> Balance(s, a, k) >= m
  }

  /** A complete operand (a digit ending a number, or a closing ')')
      directly followed by the start of another operand. */
  predicate Juxtaposed(x: char, y: char) {
    ((IsDigit(x) || x == ')') && y == '(') || (x == ')' && IsDigit(y))
  }

  predicate NoJuxtaposition(s: string, a: nat, b: nat)
    requires a <= b <= |s|
  {
    forall i :: a <= i && i + 1 < b ==> !Juxtaposed(s[i], s[i + 1])
  }

  lemma BalanceSplit(s: string, a: nat, m: nat, b: nat)
    requires a <= m <= b <= |s|
    ensures Balance(s, a, b) == Balance(s, a, m) + Balance(s, m, b)
  {
    assert s[a..b] == s[a..m] + s[m..b];
    CountConcat(s[a..m], s[m..b], '(');
    CountConcat(s[a..m], s[m..b], ')');
  }

  lemma BalanceOfOne(s: string, a: nat)
    requires a < |s|
    ensures Balance(s, a, a + 1) == if s[a] == '(' then 1 else if s[a] == ')' then -1 else 0
  {
    var one := s[a..a + 1];
    assert one == [s[a]] && one[..0] == [];
    assert Count(one, '(') == Count([], '(') + (if s[a] == '(' then 1 else 0);
    assert Count(one, ')') == Count([], ')') + (if s[a] == ')' then 1 else 0);
  }

  /** A single character of the alphabet, as a region of the text. */
  lemma OneChar(s: string, a: nat)
    requires a < |s| && InAlphabet(s[a])
    ensures AllInAlphabet(s, a, a + 1) && NoJuxtaposition(s, a, a + 1)
    ensures Balance(s, a, a + 1) == if s[a] == '(' then 1 else if s[a] == ')' then -1 else 0
    ensures BalanceFloor(s, a, a + 1, if s[a] == ')' then -1 else 0)
  {
    BalanceOfOne(s, a);
    assert s[a..a] == [];
  }

  /** A run of digits: balanced at every prefix, and never juxtaposed. */
  lemma Digits(s: string, a: nat, b: nat)
    requires a <= b <= |s|
    requires forall i :: a <= i < b ==> IsDigit(s[i])
    ensures AllInAlphabet(s, a, b) && NoJuxtaposition(s, a, b)
    ensures Balance(s, a, b) == 0 && BalanceFloor(s, a, b, 0)
  {
    forall k | a <= k <= b
      ensures Balance(s, a, k) == 0
    {
      assert '(' !in s[a..k] && ')' !in s[a..k];
      CountAbsent(s[a..k], '(');
      CountAbsent(s[a..k], ')');
    }
  }

  /** Two adjacent regions make one: the alphabet, the absence of
      juxtaposition (given the seam), and the floor of the prefix balance. */
  lemma Join(s: string, a: nat, m: nat, b: nat, f1: int, g: int, f: int)
    requires a <= m <= b <= |s|
    requires AllInAlphabet(s, a, m) && AllInAlphabet(s, m, b)
    requires NoJuxtaposition(s, a, m) && NoJuxtaposition(s, m, b)
    requires a < m < b ==> !Juxtaposed(s[m - 1], s[m])
    requires BalanceFloor(s, a, m, f1) && BalanceFloor(s, m, b, g)
    requires f <= f1 && f <= Balance(s, a, m) + g
    ensures AllInAlphabet(s, a, b) && NoJuxtaposition(s, a, b) && BalanceFloor(s, a, b, f)
    ensures Balance(s, a, b) == Balance(s, a, m) + Balance(s, m, b)
  {
    BalanceSplit(s, a, m, b);
    forall k | a <= k <= b
      ensures Balance(s, a, k) >= f
    {
      if k > m {
        BalanceSplit(s, a, m, k);
      }
    }
  }

  /** What the facts lemmas promise of a parsed region `s[pos..end]`. */
  predicate Region(s: string, pos: nat, end: nat, f: int)
    requires pos <= end <= |s|
  {
    AllInAlphabet(s, pos, end) && NoJuxtaposition(s, pos, end) && BalanceFloor(s, pos, end, f)
  }

  /** A value spans alphabet characters with balanced parentheses, never
      closes a group it did not open, has no juxtaposed operands, and
      leaves the depth as it found it. */
  lemma {:induction false} ValueFacts(s: string, pos: nat, d: int)
    requires pos <= |s| && d >= 0
    ensures var r := ValueSpec(s, pos, d);
            r.Parsed? ==> r.depth == d && Region(s, pos, r.pos, 0) && Balance(s, pos, r.pos) == 0
    decreases |s| - pos, 1
  {
    if pos < |s| {
      if IsDigit(s[pos]) {
        Digits(s, pos, NumberEnd(s, pos));
      } else if s[pos] == '(' {
        ParentFacts(s, pos, d);
      }
    }
  }

  lemma {:induction false} ParentFacts(s: string, pos: nat, d: int)
    requires pos < |s| && s[pos] == '(' && d >= 0
    ensures var r := ParentSpec(s, pos, d);
            r.Parsed? ==> r.depth == d && Region(s, pos, r.pos, 0) && Balance(s, pos, r.pos) == 0
    decreases |s| - pos, 0
  {
    var v := ValueSpec(s, pos + 1, d + 1);
    ValueFacts(s, pos + 1, d + 1);
    if v.Parsed? {
      var r := RecSpec(s, v.pos, v.depth, Some(v.token));
      RecFacts(s, v.pos, v.depth, Some(v.token));
      if r.Parsed? {
        assert ParentSpec(s, pos, d) == Parsed(ParentToken(r.token), r.pos, r.depth);
        assert r.depth == d && Balance(s, v.pos, r.pos) == -1 && Region(s, v.pos, r.pos, -1);
        OneChar(s, pos);
        Join(s, pos, pos + 1, v.pos, 0, 0, 0);
        Join(s, pos, v.pos, r.pos, 0, -1, 0);
      }
    }
  }

  /** What `RecFacts` promises of a successful `RecSpec(s, pos, d, _)`. */
  predicate RecShape(s: string, pos: nat, d: int, r: Step)
    requires pos <= |s|
    requires r.Parsed? ==> pos <= r.pos <= |s|
  {
    r.Parsed? ==>
      ((r.pos == |s| && d == 0 && r.depth == 0 && Balance(s, pos, r.pos) == 0 && Region(s, pos, r.pos, 0))
       || (d >= 1 && r.depth == d - 1 && pos < r.pos && s[r.pos - 1] == ')'
           && Balance(s, pos, r.pos) == -1 && Region(s, pos, r.pos, -1)))
  }

  /** After a complete operand, the rest of an expression never starts with
      a digit or '('. */
  lemma AfterOperand(s: string, pos: nat, d: int, t: Token)
    requires pos < |s| && RecSpec(s, pos, d, Some(t)).Parsed?
    ensures !IsDigit(s[pos]) && s[pos] != '('
  {
  }

  /** The rest of an expression either runs to the end of the text at depth
      zero or stops just after the ')' that closes the current group. */
  lemma {:induction false} RecFacts(s: string, pos: nat, d: int, left: Option<Token>)
    requires pos <= |s| && d >= 0
    ensures RecShape(s, pos, d, RecSpec(s, pos, d, left))
    decreases |s| - pos, 3
  {
    if pos == |s| {
      assert s[pos..pos] == [];
      return;
    }
    var c := s[pos];
    if (IsDigit(c) || c == '(') && left.None? {
      OperandFacts(s, pos, d);
    } else if IsDigit(c) || c == '(' || left.None? {
    } else if c == '+' || c == '-' {
      RecFacts(s, pos + 1, d, None);
      var r := RecSpec(s, pos + 1, d, None);
      if r.Parsed? {
        OneChar(s, pos);
        Join(s, pos, pos + 1, r.pos, 0, if r.depth == d then 0 else -1, if r.depth == d then 0 else -1);
      }
    } else if c == '*' || c == '/' {
      FactorFacts(s, pos, d, left.value, c);
    } else if c == ')' {
      OneChar(s, pos);
    }
  }

  /** An operand followed by the rest of the expression. */
  lemma {:induction false} OperandFacts(s: string, pos: nat, d: int)
    requires pos < |s| && d >= 0 && (IsDigit(s[pos]) || s[pos] == '(')
    ensures var v := ValueSpec(s, pos, d);
            v.Parsed? ==> v.depth == d && RecShape(s, pos, d, RecSpec(s, v.pos, v.depth, Some(v.token)))
    decreases |s| - pos, 2
  {
    var v := ValueSpec(s, pos, d);
    ValueFacts(s, pos, d);
    if v.Parsed? {
      RecFacts(s, v.pos, v.depth, Some(v.token));
      var r := RecSpec(s, v.pos, v.depth, Some(v.token));
      if r.Parsed? {
        if v.pos < |s| {
          AfterOperand(s, v.pos, v.depth, v.token);
        }
        var f := if r.depth == d then 0 else -1;
        Join(s, pos, v.pos, r.pos, 0, f, f);
      }
    }
  }

  /** `*` or `/`, the value it binds, and the rest of the expression. */
  lemma {:induction false} FactorFacts(s: string, pos: nat, d: int, left: Token, c: char)
    requires pos < |s| && d >= 0 && s[pos] == c && (c == '*' || c == '/')
    ensures var v := ValueSpec(s, pos + 1, d);
            v.Parsed? ==>
              var node := if c == '*' then Multiplication(left, v.token) else Division(left, v.token);
              RecShape(s, pos, d, RecSpec(s, v.pos, v.depth, Some(node)))
    decreases |s| - pos, 2
  {
    var v := ValueSpec(s, pos + 1, d);
    ValueFacts(s, pos + 1, d);
    if v.Parsed? {
      var node := if c == '*' then Multiplication(left, v.token) else Division(left, v.token);
      RecFacts(s, v.pos, v.depth, Some(node));
      var r := RecSpec(s, v.pos, v.depth, Some(node));
      if r.Parsed? {
        if v.pos < |s| {
          AfterOperand(s, v.pos, v.depth, node);
        }
        var f := if r.depth == d then 0 else -1;
        OneChar(s, pos);
        Join(s, pos, pos + 1, v.pos, 0, 0, 0);
        Join(s, pos, v.pos, r.pos, 0, f, f);
      }
    }
  }

  /** Whatever `Tokenize` accepts uses only digits and `+ - * / ( )`, has
      as many ')' as '(', never closes a group before opening it (every
      prefix has at least as many '(' as ')'), and never puts an operand
      directly after a complete one. */
  lemma ParseAcceptsOnlyBalancedAlphabet(s: string)
    requires Parse(s).Ok?
    ensures forall i :: 0 <= i < |s| ==> InAlphabet(s[i])
    ensures Count(s, '(') == Count(s, ')')
    ensures forall k :: 0 <= k <= |s| ==> Balance(s, 0, k) >= 0
    ensures NoJuxtaposition(s, 0, |s|)
  {
    var v := ValueSpec(s, 0, 0);
    ValueFacts(s, 0, 0);
    var r := RecSpec(s, v.pos, v.depth, Some(v.token));
    RecFacts(s, v.pos, v.depth, Some(v.token));
    if v.pos < |s| {
      AfterOperand(s, v.pos, v.depth, v.token);
    }
    Join(s, 0, v.pos, r.pos, 0, 0, 0);
    assert s[0..|s|] == s;
  }

  /** An empty or all-space input is rejected. */
  lemma BlankInputRejected(input: string)
    requires forall i :: 0 <= i < |input| ==> input[i] == ' '
    ensures Parse(RemoveSpaces(input)) == InvalidData
  {
  }

  /** A digit or ')' directly followed by '(', or a ')' directly followed
      by a digit, anywhere in the text, makes `Tokenize` raise
      `InvalidDataException`. */
  lemma JuxtapositionRejected(s: string, i: nat)
    requires i + 1 < |s| && Juxtaposed(s[i], s[i + 1])
    ensures Parse(s) == InvalidData
  {
    if Parse(s).Ok? {
      ParseAcceptsOnlyBalancedAlphabet(s);
    }
  }

  /** A ')' that closes a group never opened is rejected, even when the
      counts of '(' and ')' agree. */
  lemma ClosingFirstRejected(s: string, k: nat)
    requires k <= |s| && Balance(s, 0, k) < 0
    ensures Parse(s) == InvalidData
  {
    if Parse(s).Ok? {
      ParseAcceptsOnlyBalancedAlphabet(s);
    }
  }

  /** "1)+(2" has one '(' and one ')', and is still rejected. */
  lemma ClosingFirstExample()
    ensures Parse("1)+(2") == InvalidData
  {
    assert "1)+(2"[0..2] == "1)";
    assert Count("1)", '(') == 0 && Count("1)", ')') == 1 by {
      assert "1)"[..1] == "1" && "1"[..0] == [];
    }
    ClosingFirstRejected("1)+(2", 2);
  }

  // ---------------------------------------------------------------------
  // Round trip: the text of a tree in the grammar's own shape parses back
  // to that tree

  /** An operand: a non-negative number or a parenthesised sum. */
  predicate IsAtom(t: Token)
    decreases t, 0
  {
    (t.Number? && t.value >= 0) || (t.ParentToken? && IsSum(t.entry))
  }

  /** A left-folded chain of `*` and `/` over operands. */
  predicate IsProduct(t: Token)
    decreases t, 1
  {
    ((t.Multiplication? || t.Division?) && IsProduct(t.left) && IsAtom(t.right)) || IsAtom(t)
  }

  /** A right-nested chain of `+` and `-` whose left operands are products. */
  predicate IsSum(t: Token)
    decreases t, 2
  {
    ((t.Addition? || t.Subtraction?) && IsProduct(t.left) && IsSum(t.right)) || IsProduct(t)
  }

  /** The text a user types for a tree, without spaces. */
  function Render(t: Token): string {
    match t
    case Number(v) => IntText(v)
    case ParentToken(e) => "(" + Render(e) + ")"
    case Tree(e) => Render(e)
    case _ => Render(t.left) + [Symbol(t)] + Render(t.right)
  }

  lemma {:induction false} RenderStart(t: Token)
    requires IsSum(t)
    ensures |Render(t)| > 0 && (IsDigit(Render(t)[0]) || Render(t)[0] == '(')
  {
    if t.IsBinary() {
      if t.Addition? || t.Subtraction? {
        assert !IsAtom(t);
        assert !IsProduct(t);
        assert IsProduct(t.left);
      } else {
        assert !IsAtom(t);
        assert IsProduct(t);
        assert IsProduct(t.left);
      }
      assert IsSum(t.left);
      RenderStart(t.left);
      assert Render(t) == Render(t.left) + ([Symbol(t)] + Render(t.right));
    } else {
      assert IsAtom(t);
      if t.Number? {
        assert Render(t) == NatText(t.value);
      } else {
        assert t.ParentToken?;
        assert Render(t) == "(" + Render(t.entry) + ")";
      }
    }
  }

  /** Text spelled as `l`, then `c`, then `r` between `pos` and `end`. */
  lemma Split3(s: string, pos: nat, end: nat, l: string, c: char, r: string)
    requires end == pos + |l| + 1 + |r| && end <= |s| && s[pos..end] == l + [c] + r
    ensures s[pos..pos + |l|] == l && s[pos + |l|] == c && s[pos + |l| + 1..end] == r
  {
    var x := l + [c] + r;
    var q := pos + |l|;
    assert s[pos..q] == s[pos..end][..|l|] && x[..|l|] == l;
    assert s[q] == s[pos..end][|l|] && x[|l|] == c;
    assert s[q + 1..end] == s[pos..end][|l| + 1..] && x[|l| + 1..] == r;
  }

  /** The first character of text spelled between `pos` and `end`. */
  lemma FirstChar(s: string, pos: nat, end: nat, x: string)
    requires end == pos + |x| && end <= |s| && s[pos..end] == x && x != []
    ensures s[pos] == x[0]
  {
    assert s[pos..end][0] == s[pos];
  }

  lemma {:induction false} RenderHasNoSpaces(t: Token)
    ensures ' ' !in Render(t)
  {
    match t
    case Number(v) =>
    case ParentToken(e) => RenderHasNoSpaces(e);
    case Tree(e) => RenderHasNoSpaces(e);
    case _ => RenderHasNoSpaces(t.left); RenderHasNoSpaces(t.right);
  }

  lemma {:induction false} RemoveSpacesNoop(s: string)
    requires ' ' !in s
    ensures RemoveSpaces(s) == s
  {
    if s != [] {
      RemoveSpacesNoop(s[..|s| - 1]);
      assert s == s[..|s| - 1] + [s[|s| - 1]];
    }
  }

  lemma {:induction false} NumberEndAt(s: string, pos: nat, e: nat)
    requires pos <= e <= |s|
    requires forall i :: pos <= i < e ==> IsDigit(s[i])
    requires e == |s| || !IsDigit(s[e])
    ensures NumberEnd(s, pos) == e
    decreases e - pos
  {
    if pos < e {
      NumberEndAt(s, pos + 1, e);
    }
  }

  /** `int.Parse` reads back the decimal text of a number. */
  lemma {:induction false} DigitsValueOfNatText(n: nat)
    ensures DigitsValue(NatText(n)) == n
    decreases n
  {
    if n >= 10 {
      DigitsValueOfNatText(n / 10);
      var t := NatText(n);
      assert t[..|t| - 1] == NatText(n / 10);
      var d := n % 10;
      assert DigitChar(d) as int - '0' as int == d;
    } else {
      assert DigitChar(n) as int - '0' as int == n;
    }
  }

  lemma NumberRoundTrip(s: string, pos: nat, d: int, n: nat, end: nat)
    requires end == pos + |NatText(n)| && end <= |s| && s[pos..end] == NatText(n)
    requires end == |s| || !IsDigit(s[end])
    ensures ValueSpec(s, pos, d) == Parsed(Number(n), end, d)
  {
    var x := NatText(n);
    assert forall i :: pos <= i < end ==> IsDigit(s[i]) by {
      forall i | pos <= i < end ensures IsDigit(s[i]) {
        assert s[i] == s[pos..end][i - pos] == x[i - pos];
      }
    }
    NumberEndAt(s, pos, end);
    DigitsValueOfNatText(n);
  }

  lemma {:induction false} AtomRoundTrip(s: string, pos: nat, d: int, a: Token, end: nat)
    requires IsAtom(a) && d >= 0
    requires end == pos + |Render(a)| && end <= |s| && s[pos..end] == Render(a)
    requires end == |s| || !IsDigit(s[end])
    ensures ValueSpec(s, pos, d) == Parsed(a, end, d)
    decreases a, 1
  {
    if a.Number? {
      assert Render(a) == NatText(a.value);
      NumberRoundTrip(s, pos, d, a.value, end);
    } else {
      ParentRoundTrip(s, pos, d, a.entry, end);
    }
  }

  lemma {:induction false} ParentRoundTrip(s: string, pos: nat, d: int, e: Token, end: nat)
    requires IsSum(e) && d >= 0
    requires end == pos + |Render(ParentToken(e))| && end <= |s| && s[pos..end] == Render(ParentToken(e))
    ensures ValueSpec(s, pos, d) == Parsed(ParentToken(e), end, d)
    decreases ParentToken(e), 0
  {
    ParentReading(s, pos, e, end);
    SumRoundTrip(s, pos + 1, d + 1, e, end - 1, end, d);
    ParentStep(s, pos, d, e, end);
  }

  /** The text of a group: '(', the sum, which starts with a digit or
      '(', and ')'. */
  lemma ParentReading(s: string, pos: nat, e: Token, end: nat)
    requires IsSum(e)
    requires end == pos + |Render(ParentToken(e))| && end <= |s| && s[pos..end] == Render(ParentToken(e))
    ensures pos + 1 < end - 1 && s[pos] == '(' && s[end - 1] == ')'
    ensures IsDigit(s[pos + 1]) || s[pos + 1] == '('
    ensures end - 1 == pos + 1 + |Render(e)| && s[pos + 1..end - 1] == Render(e)
  {
    var x := Render(e);
    assert Render(ParentToken(e)) == [] + ['('] + (x + [')']);
    Split3(s, pos, end, [], '(', x + [')']);
    assert x + [')'] == x + [')'] + [];
    Split3(s, pos + 1, end, x, ')', []);
    RenderStart(e);
    FirstChar(s, pos + 1, end - 1, x);
  }

  /** The '(' step of `ValueSpec`: a group whose contents parse as a whole
      expression at one level deeper. */
  lemma ParentStep(s: string, pos: nat, d: int, e: Token, q: nat)
    requires pos + 1 < |s| && s[pos] == '('
    requires IsDigit(s[pos + 1]) || s[pos + 1] == '('
    requires RecSpec(s, pos + 1, d + 1, None) == Parsed(e, q, d)
    ensures ValueSpec(s, pos, d) == Parsed(ParentToken(e), q, d)
  {
    var v := ValueSpec(s, pos + 1, d + 1);
    assert RecSpec(s, pos + 1, d + 1, None)
           == if v.Invalid? then Invalid else RecSpec(s, v.pos, v.depth, Some(v.token));
  }

  /** Parsing a product from the start leaves the same work as having it
      as the left operand already. */
  lemma {:induction false} ProductRoundTrip(s: string, pos: nat, d: int, p: Token, end: nat)
    requires IsProduct(p) && d >= 0
    requires end == pos + |Render(p)| && end <= |s| && s[pos..end] == Render(p)
    requires end == |s| || !IsDigit(s[end])
    ensures RecSpec(s, pos, d, None) == RecSpec(s, end, d, Some(p))
    decreases p, 2
  {
    if p.Multiplication? || p.Division? {
      assert !IsAtom(p);
      FactorRoundTrip(s, pos, d, p, end);
    } else {
      assert IsAtom(p) && IsSum(p);
      RenderStart(p);
      FirstChar(s, pos, end, Render(p));
      AtomRoundTrip(s, pos, d, p, end);
      AtomStep(s, pos, d, p, end);
    }
  }

  /** A leading operand of `RecSpec` is parsed by `ValueSpec`. */
  lemma AtomStep(s: string, pos: nat, d: int, a: Token, end: nat)
    requires pos < |s| && (IsDigit(s[pos]) || s[pos] == '(')
    requires ValueSpec(s, pos, d) == Parsed(a, end, d)
    ensures RecSpec(s, pos, d, None) == RecSpec(s, end, d, Some(a))
  {
  }

  /** One `*` / `/` step of `RecSpec`: the operand after the sign becomes
      the right child of the new left operand. */
  lemma FactorStep(s: string, q: nat, d: int, l: Token, p: Token, e: nat)
    requires (p.Multiplication? || p.Division?) && p.left == l
    requires q < |s| && s[q] == Symbol(p)
    requires ValueSpec(s, q + 1, d) == Parsed(p.right, e, d)
    ensures RecSpec(s, q, d, Some(l)) == RecSpec(s, e, d, Some(p))
  {
  }

  /** The `*` / `/` step of `ProductRoundTrip`. */
  lemma {:induction false} FactorRoundTrip(s: string, pos: nat, d: int, p: Token, end: nat)
    requires (p.Multiplication? || p.Division?) && IsProduct(p.left) && IsAtom(p.right) && d >= 0
    requires end == pos + |Render(p)| && end <= |s| && s[pos..end] == Render(p)
    requires end == |s| || !IsDigit(s[end])
    ensures RecSpec(s, pos, d, None) == RecSpec(s, end, d, Some(p))
    decreases p, 1
  {
    var q := pos + |Render(p.left)|;
    BinaryLeft(s, pos, d, p, end, q);
    AtomRoundTrip(s, q + 1, d, p.right, end);
    FactorStep(s, q, d, p.left, p, end);
  }

  /** The left operand and the sign of a binary node: parsing from `pos`
      reaches the sign with the left operand in hand. */
  lemma {:induction false} BinaryLeft(s: string, pos: nat, d: int, t: Token, end: nat, q: nat)
    requires t.IsBinary() && IsProduct(t.left) && d >= 0
    requires end == pos + |Render(t)| && end <= |s| && s[pos..end] == Render(t)
    requires q == pos + |Render(t.left)|
    ensures q < end && s[q] == Symbol(t)
    ensures end == q + 1 + |Render(t.right)| && s[q + 1..end] == Render(t.right)
    ensures RecSpec(s, pos, d, None) == RecSpec(s, q, d, Some(t.left))
    decreases t, 0
  {
    var l, c, r := Render(t.left), Symbol(t), Render(t.right);
    assert Render(t) == l + [c] + r;
    Split3(s, pos, end, l, c, r);
    assert !IsDigit(c);
    ProductRoundTrip(s, pos, d, t.left, q);
  }

  /** The parse of a sum ends at the end of the text, at depth 0, or just
      after the ')' that closes its group, one level up. */
  predicate Closes(s: string, end: nat, d: int, stop: nat, depth: int) {
    (end == |s| && d == 0 && stop == end && depth == 0)
    || (end < |s| && s[end] == ')' && d >= 1 && stop == end + 1 && depth == d - 1)
  }

  /** A complete operand followed by the end or by ')' is returned. */
  lemma CloseStep(s: string, end: nat, d: int, e: Token, stop: nat, depth: int)
    requires end <= |s| && Closes(s, end, d, stop, depth)
    ensures RecSpec(s, end, d, Some(e)) == Parsed(e, stop, depth)
  {
  }

  /** A sum followed by the end of the text (at depth 0) or by the ')'
      closing its group parses to itself. */
  lemma {:induction false} SumRoundTrip(s: string, pos: nat, d: int, e: Token, end: nat, stop: nat, depth: int)
    requires IsSum(e) && d >= 0
    requires end == pos + |Render(e)| && end <= |s| && s[pos..end] == Render(e)
    requires Closes(s, end, d, stop, depth)
    ensures RecSpec(s, pos, d, None) == Parsed(e, stop, depth)
    decreases e, 3
  {
    if e.Addition? || e.Subtraction? {
      assert !IsAtom(e) && !IsProduct(e);
      TermRoundTrip(s, pos, d, e, end, stop, depth);
    } else {
      ProductRoundTrip(s, pos, d, e, end);
      CloseStep(s, end, d, e, stop, depth);
    }
  }

  /** The `+` / `-` step of `SumRoundTrip`. */
  lemma {:induction false} TermRoundTrip(s: string, pos: nat, d: int, e: Token, end: nat, stop: nat, depth: int)
    requires (e.Addition? || e.Subtraction?) && IsProduct(e.left) && IsSum(e.right) && d >= 0
    requires end == pos + |Render(e)| && end <= |s| && s[pos..end] == Render(e)
    requires Closes(s, end, d, stop, depth)
    ensures RecSpec(s, pos, d, None) == Parsed(e, stop, depth)
    decreases e, 1
  {
    var q := pos + |Render(e.left)|;
    BinaryLeft(s, pos, d, e, end, q);
    SumRoundTrip(s, q + 1, d, e.right, end, stop, depth);
    TermStep(s, q, d, e, stop, depth);
  }

  /** One `+` / `-` step of `RecSpec`: the rest of the expression becomes
      the right child. */
  lemma TermStep(s: string, q: nat, d: int, e: Token, end: nat, depth: int)
    requires (e.Addition? || e.Subtraction?)
    requires q < |s| && s[q] == Symbol(e)
    requires RecSpec(s, q + 1, d, None) == Parsed(e.right, end, depth)
    ensures RecSpec(s, q, d, Some(e.left)) == Parsed(e, end, depth)
  {
  }

  /** Every tree in the grammar's shape survives printing and `Tokenize`. */
  lemma ParseRoundTrip(e: Token)
    requires IsSum(e)
    ensures RemoveSpaces(Render(e)) == Render(e)
    ensures Parse(Render(e)) == Ok(Tree(e))
  {
    var s := Render(e);
    RenderHasNoSpaces(e);
    RemoveSpacesNoop(s);
    RenderStart(e);
    assert s[0..|s|] == s;
    SumRoundTrip(s, 0, 0, e, |s|, |s|, 0);
  }

  /** `+` and `-` take the whole rest as their right operand: "8-2-1" is
      8-(2-1), so it evaluates to 7 rather than 5. */
  lemma SubtractionAssociatesRight()
    ensures Parse("8-2-1") == Ok(Tree(Subtraction(Number(8), Subtraction(Number(2), Number(1)))))
    ensures Eval(Tree(Subtraction(Number(8), Subtraction(Number(2), Number(1))))) == Value(7)
  {
    var t := Subtraction(Number(8), Subtraction(Number(2), Number(1)));
    assert NatText(8) == "8" && NatText(2) == "2" && NatText(1) == "1";
    assert IsAtom(Number(2)) && IsAtom(Number(1)) && IsSum(Number(1));
    assert IsSum(Subtraction(Number(2), Number(1)));
    assert IsProduct(Number(8)) && IsSum(t);
    assert Render(t) == "8-2-1";
    ParseRoundTrip(t);
  }

  /** `*` and `/` fold to the left: "8/2/2" is (8/2)/2. */
  lemma DivisionAssociatesLeft()
    ensures Parse("8/2/2") == Ok(Tree(Division(Division(Number(8), Number(2)), Number(2))))
  {
    var u := Division(Division(Number(8), Number(2)), Number(2));
    assert NatText(8) == "8" && NatText(2) == "2";
    assert IsAtom(Number(8)) && IsAtom(Number(2)) && IsProduct(Number(8));
    assert IsProduct(Division(Number(8), Number(2)));
    assert IsProduct(u) && IsSum(u);
    assert Render(u) == "8/2/2";
    ParseRoundTrip(u);
  }
}
