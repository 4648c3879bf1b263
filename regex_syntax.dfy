/** The operator-precedence (shunting-yard) parser that both `from_regex`
    implementations run, stated on syntax trees instead of automata.  The
    parser keeps a stack of operators and a stack of values; a value is pushed
    for every literal, operators are evaluated when a token of lower
    precedence, a `)` or the end of the pattern arrives, and concatenation is
    the implicit operator `+` pushed between two adjacent values.  The two
    implementations differ only in the value they return at the end. */
module RegexSyntax {
  import opened Automata
  import opened Languages

  /** The operators on the operator stack: `*`, the implicit `+`, `|` and `(`. */
  datatype Op = StarOp | CatOp | AltOp | LParen

  datatype ParseError =
    | MissingOperand(op: Op)  // `_eval` finds fewer operands than `op` needs
    | UnknownOperator         // `_eval` is handed an operator it does not evaluate
    | MissingLeftParen        // a `)` with no `(` left on the stack
    | MissingRightParen       // a `(` still on the stack at the end
    | StateNotFound           // (Python only) `states.index` of a state no rule mentions

  /** The parser between two characters: operator stack, value stack, and
      whether the last token produced a value (`is_last_dfa`). */
  datatype PState<V> = PState(ops: seq<Op>, vals: seq<V>, last: bool)

  /** The three loops that evaluate operators from the top of the stack. */
  datatype Until = UntilParen | UntilAlt | UntilLit

  /** `op` ends the loop: `)` evaluates down to `(`, `|` evaluates `*` and `+`,
      and a literal after a value evaluates `*`. */
  predicate Stops(u: Until, op: Op)
  {
    match u
    case UntilParen => op == LParen
    case UntilAlt => op != StarOp && op != CatOp
    case UntilLit => op != StarOp
  }

  // ------------------------------------------------------- the build check

  /** Every function of the parser takes the check `ok` that an
      implementation makes on each automaton `_eval` builds; the tree of an
      automaton that fails it is a `StateNotFound`.  C++ builds every
      automaton: its check is `NoCheck`. */
  predicate NoCheck(t: Re<char>)
  {
    true
  }

  /** Python's check: the trees whose automata Python's combinators build
      without `states.index` failing.  Every star, concatenation and
      alternation has an operand other than the empty group, the only tree
      whose automaton has no move from its start. */
  predicate Builds(re: Re<char>)
  {
    match re
    case Eps => true
    case Lit(_) => true
    case Cat(l, r) => Builds(l) && Builds(r) && (l != Eps || r != Eps)
    case Alt(l, r) => Builds(l) && Builds(r) && (l != Eps || r != Eps)
    case Star(e) => Builds(e) && e != Eps
  }

  /** The number of operands `op` takes from the value stack. */
  function Arity(op: Op): nat
  {
    if op == StarOp then 1 else 2
  }

  // ------------------------------------------------------------ the parser

  /** `_eval` on syntax trees: replace the operands on top of the value stack
      by the tree the operator builds from them, once that tree passes the
      check. */
  function EvalRe(ok: Re<char> -> bool, op: Op, vals: seq<Re<char>>): (r: Result<seq<Re<char>>, ParseError>)
    ensures (r.Err? && r.error != StateNotFound) <==> op == LParen || |vals| < Arity(op)
    ensures r.Err? && op != LParen ==> r.error == (if |vals| < Arity(op) then MissingOperand(op) else StateNotFound)
    ensures r.Ok? ==> |r.value| == |vals| - Arity(op) + 1
    ensures r.Ok? ==> r.value[..|r.value| - 1] == vals[..|r.value| - 1] && ok(r.value[|r.value| - 1])
  {
    var n := |vals|;
    match op
    case StarOp =>
      if n < 1 then Err(MissingOperand(op))
      else var t := Star(vals[n - 1]);
        if ok(t) then Ok(vals[..n - 1] + [t]) else Err(StateNotFound)
    case CatOp =>
      if n < 2 then Err(MissingOperand(op))
      else var t := Cat(vals[n - 2], vals[n - 1]);
        if ok(t) then Ok(vals[..n - 2] + [t]) else Err(StateNotFound)
    case AltOp =>
      if n < 2 then Err(MissingOperand(op))
      else var t := Alt(vals[n - 2], vals[n - 1]);
        if ok(t) then Ok(vals[..n - 2] + [t]) else Err(StateNotFound)
    case LParen => Err(UnknownOperator)
  }

  /** Evaluate operators from the top of the stack until one stops the loop
      or the stack is empty. */
  function Unwind(ok: Re<char> -> bool, u: Until, ops: seq<Op>, vals: seq<Re<char>>)
    : (r: Result<(seq<Op>, seq<Re<char>>), ParseError>)
    decreases |ops|
    ensures r.Ok? ==> |r.value.0| <= |ops| && r.value.0 == ops[..|r.value.0|]
    ensures r.Ok? && |r.value.0| > 0 ==> Stops(u, r.value.0[|r.value.0| - 1])
    ensures r.Ok? && |vals| > 0 ==> |r.value.1| > 0
    ensures r.Ok? && |ops| > 0 && !Stops(u, ops[|ops| - 1]) ==> |r.value.1| > 0
    ensures r.Err? ==> r.error.MissingOperand? || r.error == StateNotFound
  {
    if |ops| == 0 || Stops(u, ops[|ops| - 1]) then Ok((ops, vals))
    else match EvalRe(ok, ops[|ops| - 1], vals)
      case Err(e) => Err(e)
      case Ok(vs) => Unwind(ok, u, ops[..|ops| - 1], vs)
  }

  /** One character of the pattern. */
  function StepChar(ok: Re<char> -> bool, st: PState<Re<char>>, c: char): (r: Result<PState<Re<char>>, ParseError>)
    ensures r.Ok? ==> |r.value.vals| > 0 || |r.value.ops| > 0
    ensures r.Err? ==> c == ')' || c == '|' || (st.last && c !in "(*")
    ensures r.Err? ==> r.error == MissingLeftParen || r.error.MissingOperand? || r.error == StateNotFound
  {
    if c == '(' then
      Ok(PState((if st.last then st.ops + [CatOp] else st.ops) + [LParen], st.vals, false))
    else if c == ')' then
      var vals := if |st.ops| > 0 && st.ops[|st.ops| - 1] == LParen then st.vals + [Eps] else st.vals;
      GroupClosed(Unwind(ok, UntilParen, st.ops, vals), st.last)
    else if c == '|' then
      match Unwind(ok, UntilAlt, st.ops, st.vals)
      case Err(e) => Err(e)
      case Ok((ops, vs)) => Ok(PState(ops + [AltOp], vs, false))
    else if c == '*' then
      Ok(PState(st.ops + [StarOp], st.vals, st.last))
    else if st.last then
      match Unwind(ok, UntilLit, st.ops, st.vals)
      case Err(e) => Err(e)
      case Ok((ops, vs)) => Ok(PState(ops + [CatOp], vs + [Lit(c)], true))
    else
      Ok(PState(st.ops, st.vals + [Lit(c)], true))
  }

  /** What is left of an unwinding to `(` once that `(` is popped. */
  function GroupClosed(u: Result<(seq<Op>, seq<Re<char>>), ParseError>, last: bool): (r: Result<PState<Re<char>>, ParseError>)
    ensures u.Err? ==> r == Err(u.error)
    ensures r.Ok? <==> u.Ok? && |u.value.0| > 0 && u.value.0[|u.value.0| - 1] == LParen
    ensures r.Ok? ==> r.value.ops + [LParen] == u.value.0 && r.value.vals == u.value.1 && r.value.last == last
  {
    match u
    case Err(e) => Err(e)
    case Ok((ops, vs)) =>
      if |ops| > 0 && ops[|ops| - 1] == LParen then Ok(PState(ops[..|ops| - 1], vs, last))
      else Err(MissingLeftParen)
  }

  /** The main loop over the pattern; the first error ends it. */
  function Scan(ok: Re<char> -> bool, regex: seq<char>): (r: Result<PState<Re<char>>, ParseError>)
    ensures r.Ok? && |regex| > 0 ==> |r.value.vals| > 0 || |r.value.ops| > 0
    ensures r.Err? ==> r.error != MissingRightParen && r.error != UnknownOperator
  {
    if |regex| == 0 then Ok(PState([], [], false))
    else match Scan(ok, regex[..|regex| - 1])
      case Err(e) => Err(e)
      case Ok(st) => StepChar(ok, st, regex[|regex| - 1])
  }

  /** The final loop: evaluate what is left on the operator stack. */
  function Drain(ok: Re<char> -> bool, ops: seq<Op>, vals: seq<Re<char>>): (r: Result<seq<Re<char>>, ParseError>)
    decreases |ops|
    ensures r.Ok? && (|ops| > 0 || |vals| > 0) ==> |r.value| > 0
    ensures r.Err? ==> r.error == MissingRightParen || r.error.MissingOperand? || r.error == StateNotFound
  {
    if |ops| == 0 then Ok(vals)
    else if ops[|ops| - 1] == LParen then Err(MissingRightParen)
    else match EvalRe(ok, ops[|ops| - 1], vals)
      case Err(e) => Err(e)
      case Ok(vs) =>
        assert ops == ops[..|ops| - 1] + [ops[|ops| - 1]];
        Drain(ok, ops[..|ops| - 1], vs)
  }

  /** The value stack left when the whole pattern has been read. */
  function ParseStack(ok: Re<char> -> bool, regex: seq<char>): (r: Result<seq<Re<char>>, ParseError>)
    ensures r.Ok? && |regex| > 0 ==> |r.value| > 0
  {
    match Scan(ok, regex)
    case Err(e) => Err(e)
    case Ok(st) => Drain(ok, st.ops, st.vals)
  }

  /** `DFA::from_regex` in C++: the empty pattern is the empty word; otherwise
      the value on TOP of the stack (`v_stack.back()`), with no check. */
  function CppParse(regex: seq<char>): Result<Re<char>, ParseError>
  {
    if |regex| == 0 then Ok(Eps)
    else match ParseStack(NoCheck, regex)
      case Err(e) => Err(e)
      case Ok(vs) => Ok(vs[|vs| - 1])
  }

  /** `DFA.from_regex` in Python: the empty pattern is the empty word;
      otherwise the value at the BOTTOM of the stack (`dfa_s[0]`), each
      automaton along the way checked by its constructor. */
  function PyParse(regex: seq<char>): Result<Re<char>, ParseError>
  {
    if |regex| == 0 then Ok(Eps)
    else match ParseStack(Builds, regex)
      case Err(e) => Err(e)
      case Ok(vs) => Ok(vs[0])
  }

  // ------------------------------------------------------------- scanning

  /** One more character: the loop's step. */
  lemma ScanSnoc(ok: Re<char> -> bool, regex: seq<char>, i: nat)
    requires i < |regex|
    ensures Scan(ok, regex[..i + 1]) == match Scan(ok, regex[..i])
                                         case Err(e) => Err(e)
                                         case Ok(st) => StepChar(ok, st, regex[i])
  {
    assert regex[..i + 1][..i] == regex[..i];
  }

  /** The first error ends the scan: the rest of the pattern is not read. */
  lemma {:induction false} ScanErr(ok: Re<char> -> bool, regex: seq<char>, i: nat)
    requires i <= |regex| && Scan(ok, regex[..i]).Err?
    ensures Scan(ok, regex) == Scan(ok, regex[..i])
    decreases |regex|
  {
    if i == |regex| {
      assert regex[..i] == regex;
    } else {
      var pre := regex[..|regex| - 1];
      assert pre[..i] == regex[..i];
      ScanErr(ok, pre, i);
    }
  }

  /** The scan advances by one step of the parser. */
  lemma ScanNext(ok: Re<char> -> bool, p: seq<char>, i: nat, st: PState<Re<char>>, st': PState<Re<char>>)
    requires i < |p| && Scan(ok, p[..i]) == Ok(st) && StepChar(ok, st, p[i]) == Ok(st')
    ensures Scan(ok, p[..i + 1]) == Ok(st')
  {
    ScanSnoc(ok, p, i);
  }

  /** A character the parser refuses after a prefix: the scan fails there,
      whatever follows. */
  lemma ScanStopsAt(ok: Re<char> -> bool, p: seq<char>, i: nat, st: PState<Re<char>>, e: ParseError)
    requires i < |p| && Scan(ok, p[..i]) == Ok(st) && StepChar(ok, st, p[i]) == Err(e)
    ensures Scan(ok, p) == Err(e)
  {
    ScanSnoc(ok, p, i);
    ScanErr(ok, p, i + 1);
  }

  /** When the scan succeeds, the drain of its stacks decides the parse. */
  lemma Finish(ok: Re<char> -> bool, p: seq<char>, st: PState<Re<char>>, vs: seq<Re<char>>)
    requires |p| > 0 && Scan(ok, p) == Ok(st) && Drain(ok, st.ops, st.vals) == Ok(vs)
    ensures |vs| > 0 && ParseStack(ok, p) == Ok(vs)
  {
  }

  /** A failing scan, or a failing drain after it, fails the parse with the
      same error. */
  lemma FinishErr(ok: Re<char> -> bool, p: seq<char>, e: ParseError)
    requires |p| > 0
    requires Scan(ok, p) == Err(e) || (Scan(ok, p).Ok? && Drain(ok, Scan(ok, p).value.ops, Scan(ok, p).value.vals) == Err(e))
    ensures ParseStack(ok, p) == Err(e)
  {
  }

  // ---------------------------------------------- a check only adds failures

  /** The outcome `r` of a checked parser step is the outcome `plain` of the
      same step without a check, unless the check refused a tree. */
  predicate SameUnlessRefused<T(==)>(r: Result<T, ParseError>, plain: Result<T, ParseError>)
  {
    (r.Ok? || r.error != StateNotFound) ==> plain == r
  }

  lemma EvalChecked(ok: Re<char> -> bool, op: Op, vals: seq<Re<char>>)
    ensures SameUnlessRefused(EvalRe(ok, op, vals), EvalRe(NoCheck, op, vals))
  {
  }

  lemma {:induction false} UnwindChecked(ok: Re<char> -> bool, u: Until, ops: seq<Op>, vals: seq<Re<char>>)
    ensures SameUnlessRefused(Unwind(ok, u, ops, vals), Unwind(NoCheck, u, ops, vals))
    decreases |ops|
  {
    if |ops| > 0 && !Stops(u, ops[|ops| - 1]) {
      EvalChecked(ok, ops[|ops| - 1], vals);
      var e := EvalRe(ok, ops[|ops| - 1], vals);
      if e.Ok? {
        UnwindChecked(ok, u, ops[..|ops| - 1], e.value);
      }
    }
  }

  lemma StepChecked(ok: Re<char> -> bool, st: PState<Re<char>>, c: char)
    ensures SameUnlessRefused(StepChar(ok, st, c), StepChar(NoCheck, st, c))
  {
    if c == ')' {
      var vals := if |st.ops| > 0 && st.ops[|st.ops| - 1] == LParen then st.vals + [Eps] else st.vals;
      UnwindChecked(ok, UntilParen, st.ops, vals);
    } else if c == '|' {
      UnwindChecked(ok, UntilAlt, st.ops, st.vals);
    } else if c != '(' && c != '*' && st.last {
      UnwindChecked(ok, UntilLit, st.ops, st.vals);
    }
  }

  lemma {:induction false} ScanChecked(ok: Re<char> -> bool, p: seq<char>)
    ensures SameUnlessRefused(Scan(ok, p), Scan(NoCheck, p))
    decreases |p|
  {
    if |p| > 0 {
      var pre := p[..|p| - 1];
      ScanChecked(ok, pre);
      if Scan(ok, pre).Ok? {
        StepChecked(ok, Scan(ok, pre).value, p[|p| - 1]);
      }
    }
  }

  lemma {:induction false} DrainChecked(ok: Re<char> -> bool, ops: seq<Op>, vals: seq<Re<char>>)
    ensures SameUnlessRefused(Drain(ok, ops, vals), Drain(NoCheck, ops, vals))
    decreases |ops|
  {
    if |ops| > 0 && ops[|ops| - 1] != LParen {
      EvalChecked(ok, ops[|ops| - 1], vals);
      var e := EvalRe(ok, ops[|ops| - 1], vals);
      if e.Ok? {
        DrainChecked(ok, ops[..|ops| - 1], e.value);
      }
    }
  }

  /** A check changes a parse only by failing it with `StateNotFound`: a
      checked parse that succeeds, or fails with a parse error, leaves the
      same stack, or the same error, as the parse without a check. */
  lemma ParseChecked(ok: Re<char> -> bool, p: seq<char>)
    ensures SameUnlessRefused(ParseStack(ok, p), ParseStack(NoCheck, p))
  {
    ScanChecked(ok, p);
    if Scan(ok, p).Ok? {
      DrainChecked(ok, Scan(ok, p).value.ops, Scan(ok, p).value.vals);
    }
  }

  /** Python fails with a parse error exactly where C++ does: only a refused
      automaton sets the two apart. */
  lemma PyParseErr(p: seq<char>)
    ensures PyParse(p).Err? && PyParse(p).error != StateNotFound ==> CppParse(p) == PyParse(p)
    ensures CppParse(p).Err? ==> PyParse(p).Err?
  {
    ParseChecked(Builds, p);
  }

  // ------------------------------------------------------------- examples

  /** The scan of `(a)`, whatever the check: no operator is evaluated. */
  lemma SingleLiteralScan(ok: Re<char> -> bool, p: seq<char>)
    requires p == "(a)"
    ensures Scan(ok, p) == Ok(PState([], [Lit('a'), Eps], true))
  {
    var a := Lit('a');
    assert p[..0] == [];
    ScanSnoc(ok, p, 0);
    assert [] + [LParen] == [LParen];
    assert Scan(ok, p[..1]) == Ok(PState([LParen], [], false));
    ScanSnoc(ok, p, 1);
    assert [] + [a] == [a];
    assert Scan(ok, p[..2]) == Ok(PState([LParen], [a], true));
    ScanSnoc(ok, p, 2);
    assert [a] + [Eps] == [a, Eps] && [LParen][..0] == [];
    assert Scan(ok, p[..3]) == Ok(PState([], [a, Eps], true));
    assert p[..3] == p;
  }

  /** A group holding a single literal: `)` finds `(` on top of the operator
      stack and pushes the empty-word value, so C++ returns that value (the
      pattern matches only the empty word) and Python returns the literal. */
  lemma SingleLiteralGroup(p: seq<char>)
    requires p == "(a)"
    ensures CppParse(p) == Ok(Eps)
    ensures PyParse(p) == Ok(Lit('a'))
  {
    SingleLiteralScan(NoCheck, p);
    SingleLiteralScan(Builds, p);
  }

  /** The steps of `b(a|b)*b`, a pattern of the test suite. */
  lemma TestStep0(ok: Re<char> -> bool)
    ensures StepChar(ok, PState([], [], false), 'b') == Ok(PState([], [Lit('b')], true))
  {
    var b := Lit('b');
    assert [] + [b] == [b];
  }

  lemma TestStep1(ok: Re<char> -> bool)
    ensures StepChar(ok, PState([], [Lit('b')], true), '(') == Ok(PState([CatOp, LParen], [Lit('b')], false))
  {
    var C, L := CatOp, LParen;
    assert [] + [C] + [L] == [C, L];
  }

  lemma TestStep2(ok: Re<char> -> bool)
    ensures StepChar(ok, PState([CatOp, LParen], [Lit('b')], false), 'a') == Ok(PState([CatOp, LParen], [Lit('b'), Lit('a')], true))
  {
    var a, b := Lit('a'), Lit('b');
    assert [b] + [a] == [b, a];
  }

  lemma TestStep3(ok: Re<char> -> bool)
    ensures StepChar(ok, PState([CatOp, LParen], [Lit('b'), Lit('a')], true), '|') == Ok(PState([CatOp, LParen, AltOp], [Lit('b'), Lit('a')], false))
  {
    var C, L, A := CatOp, LParen, AltOp;
    assert [C, L] + [A] == [C, L, A];
  }

  lemma TestStep4(ok: Re<char> -> bool)
    ensures StepChar(ok, PState([CatOp, LParen, AltOp], [Lit('b'), Lit('a')], false), 'b') == Ok(PState([CatOp, LParen, AltOp], [Lit('b'), Lit('a'), Lit('b')], true))
  {
    var a, b := Lit('a'), Lit('b');
    assert [b, a] + [b] == [b, a, b];
  }

  lemma TestUnwind5(ok: Re<char> -> bool)
    requires ok(Alt(Lit('a'), Lit('b')))
    ensures Unwind(ok, UntilParen, [CatOp, LParen, AltOp], [Lit('b'), Lit('a'), Lit('b')]) == Ok(([CatOp, LParen], [Lit('b'), Alt(Lit('a'), Lit('b'))]))
  {
    var a, b := Lit('a'), Lit('b');
    var C, L, A := CatOp, LParen, AltOp;
    assert [b, a, b][..1] + [Alt(a, b)] == [b, Alt(a, b)] && [C, L, A][..2] == [C, L];
    assert EvalRe(ok, A, [b, a, b]) == Ok([b, Alt(a, b)]);
  }

  lemma TestStep5(ok: Re<char> -> bool)
    requires ok(Alt(Lit('a'), Lit('b')))
    ensures StepChar(ok, PState([CatOp, LParen, AltOp], [Lit('b'), Lit('a'), Lit('b')], true), ')') == Ok(PState([CatOp], [Lit('b'), Alt(Lit('a'), Lit('b'))], true))
  {
    TestUnwind5(ok);
    assert [CatOp, LParen][..1] == [CatOp];
  }

  lemma TestStep6(ok: Re<char> -> bool)
    ensures StepChar(ok, PState([CatOp], [Lit('b'), Alt(Lit('a'), Lit('b'))], true), '*') == Ok(PState([CatOp, StarOp], [Lit('b'), Alt(Lit('a'), Lit('b'))], true))
  {
    var C, S := CatOp, StarOp;
    assert [C] + [S] == [C, S];
  }

  lemma TestUnwind7(ok: Re<char> -> bool)
    requires ok(Star(Alt(Lit('a'), Lit('b'))))
    ensures Unwind(ok, UntilLit, [CatOp, StarOp], [Lit('b'), Alt(Lit('a'), Lit('b'))]) == Ok(([CatOp], [Lit('b'), Star(Alt(Lit('a'), Lit('b')))]))
  {
    var a, b := Lit('a'), Lit('b');
    var C, S := CatOp, StarOp;
    assert [b, Alt(a, b)][..1] + [Star(Alt(a, b))] == [b, Star(Alt(a, b))] && [C, S][..1] == [C];
    assert EvalRe(ok, S, [b, Alt(a, b)]) == Ok([b, Star(Alt(a, b))]);
  }

  lemma TestStep7(ok: Re<char> -> bool)
    requires ok(Star(Alt(Lit('a'), Lit('b'))))
    ensures StepChar(ok, PState([CatOp, StarOp], [Lit('b'), Alt(Lit('a'), Lit('b'))], true), 'b') == Ok(PState([CatOp, CatOp], [Lit('b'), Star(Alt(Lit('a'), Lit('b'))), Lit('b')], true))
  {
    var a, b := Lit('a'), Lit('b');
    var C := CatOp;
    TestUnwind7(ok);
    assert [C] + [C] == [C, C] && [b, Star(Alt(a, b))] + [b] == [b, Star(Alt(a, b)), b];
  }

  lemma TestScanFirst(ok: Re<char> -> bool, p: seq<char>)
    requires p == "b(a|b)*b"
    ensures Scan(ok, p[..4]) == Ok(PState([CatOp, LParen, AltOp], [Lit('b'), Lit('a')], false))
  {
    var a, b := Lit('a'), Lit('b');
    var C, L, A := CatOp, LParen, AltOp;
    assert p[..0] == [];
    TestStep0(ok);
    ScanNext(ok, p, 0, PState([], [], false), PState([], [b], true));
    TestStep1(ok);
    ScanNext(ok, p, 1, PState([], [b], true), PState([C, L], [b], false));
    TestStep2(ok);
    ScanNext(ok, p, 2, PState([C, L], [b], false), PState([C, L], [b, a], true));
    TestStep3(ok);
    ScanNext(ok, p, 3, PState([C, L], [b, a], true), PState([C, L, A], [b, a], false));
  }

  lemma TestScanFive(ok: Re<char> -> bool, p: seq<char>)
    requires p == "b(a|b)*b"
    ensures Scan(ok, p[..5]) == Ok(PState([CatOp, LParen, AltOp], [Lit('b'), Lit('a'), Lit('b')], true))
  {
    var a, b := Lit('a'), Lit('b');
    var C, L, A := CatOp, LParen, AltOp;
    TestScanFirst(ok, p);
    TestStep4(ok);
    assert p[4] == 'b';
    ScanNext(ok, p, 4, PState([C, L, A], [b, a], false), PState([C, L, A], [b, a, b], true));
  }

  lemma TestScanMiddle(ok: Re<char> -> bool, p: seq<char>)
    requires p == "b(a|b)*b"
    requires ok(Alt(Lit('a'), Lit('b')))
    ensures Scan(ok, p[..6]) == Ok(PState([CatOp], [Lit('b'), Alt(Lit('a'), Lit('b'))], true))
  {
    var a, b := Lit('a'), Lit('b');
    var C, L, A := CatOp, LParen, AltOp;
    TestScanFive(ok, p);
    TestStep5(ok);
    assert p[5] == ')';
    ScanNext(ok, p, 5, PState([C, L, A], [b, a, b], true), PState([C], [b, Alt(a, b)], true));
  }

  lemma TestScanSecond(ok: Re<char> -> bool, p: seq<char>)
    requires p == "b(a|b)*b"
    requires ok(Alt(Lit('a'), Lit('b'))) && ok(Star(Alt(Lit('a'), Lit('b'))))
    ensures Scan(ok, p[..8]) == Ok(PState([CatOp, CatOp], [Lit('b'), Star(Alt(Lit('a'), Lit('b'))), Lit('b')], true))
  {
    var a, b := Lit('a'), Lit('b');
    var C, S := CatOp, StarOp;
    TestScanMiddle(ok, p);
    TestStep6(ok);
    ScanNext(ok, p, 6, PState([C], [b, Alt(a, b)], true), PState([C, S], [b, Alt(a, b)], true));
    TestStep7(ok);
    ScanNext(ok, p, 7, PState([C, S], [b, Alt(a, b)], true), PState([C, C], [b, Star(Alt(a, b)), b], true));
  }

  lemma TestScan(ok: Re<char> -> bool, p: seq<char>)
    requires p == "b(a|b)*b"
    requires ok(Alt(Lit('a'), Lit('b'))) && ok(Star(Alt(Lit('a'), Lit('b'))))
    ensures Scan(ok, p) == Ok(PState([CatOp, CatOp], [Lit('b'), Star(Alt(Lit('a'), Lit('b'))), Lit('b')], true))
  {
    TestScanSecond(ok, p);
    assert p[..8] == p;
  }

  lemma TestDrain(ok: Re<char> -> bool)
    requires var b, sa := Lit('b'), Star(Alt(Lit('a'), Lit('b')));
             ok(Cat(sa, b)) && ok(Cat(b, Cat(sa, b)))
    ensures var b, sa := Lit('b'), Star(Alt(Lit('a'), Lit('b')));
            Drain(ok, [CatOp, CatOp], [b, sa, b]) == Ok([Cat(b, Cat(sa, b))])
  {
    var b, sa := Lit('b'), Star(Alt(Lit('a'), Lit('b')));
    var C := CatOp;
    assert [b, sa, b][..1] + [Cat(sa, b)] == [b, Cat(sa, b)] && [C, C][..1] == [C];
    assert EvalRe(ok, C, [b, sa, b]) == Ok([b, Cat(sa, b)]);
    assert [b, Cat(sa, b)][..0] + [Cat(b, Cat(sa, b))] == [Cat(b, Cat(sa, b))] && [C][..0] == [];
    assert EvalRe(ok, C, [b, Cat(sa, b)]) == Ok([Cat(b, Cat(sa, b))]);
  }

  /** The stack `b(a|b)*b` leaves when its check passes each built tree. */
  lemma TestParse(ok: Re<char> -> bool, p: seq<char>)
    requires p == "b(a|b)*b"
    requires var b, ab := Lit('b'), Alt(Lit('a'), Lit('b'));
             ok(ab) && ok(Star(ab)) && ok(Cat(Star(ab), b)) && ok(Cat(b, Cat(Star(ab), b)))
    ensures ParseStack(ok, p) == Ok([Cat(Lit('b'), Cat(Star(Alt(Lit('a'), Lit('b'))), Lit('b')))])
  {
    TestScan(ok, p);
    TestDrain(ok);
  }

  /** A pattern of the test suite parses with the intended precedence, and
      Python builds every automaton along it. */
  lemma TestPattern(p: seq<char>)
    requires p == "b(a|b)*b"
    ensures CppParse(p) == Ok(Cat(Lit('b'), Cat(Star(Alt(Lit('a'), Lit('b'))), Lit('b'))))
    ensures PyParse(p) == CppParse(p)
  {
    var b, ab := Lit('b'), Alt(Lit('a'), Lit('b'));
    TestParse(NoCheck, p);
    assert Builds(ab) && Builds(Star(ab)) && Builds(Cat(Star(ab), b)) && Builds(Cat(b, Cat(Star(ab), b)));
    TestParse(Builds, p);
  }
}
