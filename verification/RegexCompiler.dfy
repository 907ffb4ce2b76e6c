/**
  regcomp as it works: a parser whose place in the pattern, group counter and
  error move as it reads. Each method computes its function, and what comes
  out is a program regexec accepts.
  */
module RegexCompiler {
  import opened Common
  import opened RegexTree
  import opened RegexSyntax
  import opened RegexCompiled
  import RegexExec

  class Parser {
    const src: Source
    var p: nat
    var groups: nat
    var open: nat
    var err: Option<Error>

    constructor (src: Source)
      ensures this.src == src && Here() == State(0, 0, 0) && err == None
    {
      this.src := src;
      p, groups, open, err := 0, 0, 0, None;
    }

    function Here(): State
      reads this
    {
      State(p, groups, open)
    }

    /** The method did what its function says: the value and the place after it, or the error. */
    ghost predicate Says<T>(r: Result<T>, v: T)
      reads this
    {
      match r
      case Ok(x, st) => err == None && v == x && Here() == st
      case Bad(e) => err == Some(e)
    }

    /** The items of rx_insieme. */
    method ParseItem() returns (s: set<Byte>)
      requires err == None && Ch(src, p) != 0
      modifies this
      ensures Says(ReadItem(src, old(Here())), s)
    {
      s := {};
      if OpensClass(src, p) {
        var k := Ch(src, p + 1);
        var f := p + 2;
        while Ch(src, f) != 0 && !(Ch(src, f) == k && Ch(src, f + 1) == RBRACK)
          invariant f >= p + 2 && ClassEnd(src, k, p + 2) == ClassEnd(src, k, f)
          decreases |src.pat| - f
        {
          f := f + 1;
        }
        if Ch(src, f) == 0 {
          err := Some(EBrack);
        } else if k != COLON {
          err := Some(ECollate);
        } else if src.pat[p + 2..f] !in src.classes {
          err := Some(ECtype);
        } else {
          s := src.classes[src.pat[p + 2..f]];
          p := f + 2;
        }
      } else if OpensRange(src, p) {
        if Ch(src, p + 2) < Ch(src, p) {
          err := Some(ERange);
        } else {
          s := Between(Ch(src, p), Ch(src, p + 2));
          p := p + 3;
        }
      } else {
        s := {Ch(src, p)};
        p := p + 1;
      }
    }

    /** rx_insieme */
    method ParseSet() returns (op: Op)
      requires err == None
      modifies this
      ensures Says(ReadSet(src, old(Here())), op)
    {
      op := Empty;
      var negated := Ch(src, p) == CARET;
      if negated {
        p := p + 1;
      }
      ghost var start := Here();
      var acc: set<Byte>, first := {}, true;
      while Ch(src, p) != 0 && (Ch(src, p) != RBRACK || first)
        invariant err == None && ReadItems(src, start, true, {}) == ReadItems(src, Here(), first, acc)
        decreases |src.pat| - p
      {
        var s := ParseItem();
        if err.Some? {
          return;
        }
        acc, first := acc + Cased(s, src.icase), false;
      }
      if Ch(src, p) == 0 {
        err := Some(EBrack);
        return;
      }
      p := p + 1;
      op := Set(Finished(src, negated, acc));
    }

    method ParseNumber() returns (n: nat)
      requires err == None
      modifies this
      ensures Says(ReadNumber(src, old(Here()), 0), n)
    {
      n := 0;
      ghost var start := Here();
      while IsDigit(Ch(src, p))
        invariant err == None && ReadNumber(src, start, 0) == ReadNumber(src, Here(), n)
        decreases |src.pat| - p
      {
        n := n * 10 + (Ch(src, p) - 48);
        if n > RIP_MAX {
          err := Some(BadBr);
          return;
        }
        p := p + 1;
      }
    }

    /** rx_graffe */
    method ParseBraces() returns (c: Count)
      requires err == None
      modifies this
      ensures Says(ReadBraces(src, old(Here())), c)
    {
      c := Count(0, 0);
      if !IsDigit(Ch(src, p)) {
        err := Some(BadBr);
        return;
      }
      var a := ParseNumber();
      if err.Some? {
        return;
      }
      c := Count(a, a);
      if Ch(src, p) == COMMA {
        p := p + 1;
        c := Count(a, -1);
        if IsDigit(Ch(src, p)) {
          var b := ParseNumber();
          if err.Some? {
            return;
          }
          if b < a {
            err := Some(BadBr);
            return;
          }
          c := Count(a, b);
        }
      }
      if src.ere {
        if Ch(src, p) != RBRACE {
          err := Some(EBrace);
          return;
        }
        p := p + 1;
      } else {
        if !Quoted(src, p, RBRACE) {
          err := Some(EBrace);
          return;
        }
        p := p + 2;
      }
    }

    method ParseQuantifier() returns (q: Option<Count>)
      requires err == None
      modifies this
      ensures Says(ReadQuantifier(src, old(Here())), q)
    {
      var c := Ch(src, p);
      q := None;
      if c == STAR {
        q, p := Some(Count(0, -1)), p + 1;
      } else if src.ere && c == PLUS {
        q, p := Some(Count(1, -1)), p + 1;
      } else if src.ere && c == QUESTION {
        q, p := Some(Count(0, 1)), p + 1;
      } else if !src.ere && Quoted(src, p, PLUS) {
        q, p := Some(Count(1, -1)), p + 2;
      } else if !src.ere && Quoted(src, p, QUESTION) {
        q, p := Some(Count(0, 1)), p + 2;
      } else if (src.ere && c == LBRACE && IsDigit(Ch(src, p + 1))) || (!src.ere && Quoted(src, p, LBRACE)) {
        p := p + if src.ere then 1 else 2;
        var n := ParseBraces();
        q := Some(n);
      }
    }

    /** rx_quantifica */
    method ParseQuantifiers(atom: Op) returns (op: Op)
      requires err == None
      modifies this
      ensures Says(Quantify(src, old(Here()), atom), op)
    {
      op := atom;
      ghost var start := Here();
      while true
        invariant err == None && Quantify(src, start, atom) == Quantify(src, Here(), op)
        decreases |src.pat| - p
      {
        var q := ParseQuantifier();
        if err.Some? || q.None? {
          return;
        }
        if src.ere && (op.Bol? || op.Eol?) {
          err := Some(BadRpt);
          return;
        }
        op := Repeat(q.value.min, q.value.max, Node(op, None));
      }
    }

    /** The end of rx_atomo: the atoms that are the same in both syntaxes. */
    method ParseCommon() returns (op: Op)
      requires err == None
      modifies this
      ensures Says(CommonAtom(src, old(Here())), op)
    {
      op := Empty;
      if Ch(src, p) == DOT {
        op, p := Any, p + 1;
        return;
      }
      if Ch(src, p) == LBRACK {
        p := p + 1;
        op := ParseSet();
        return;
      }
      if Ch(src, p) == BACKSLASH {
        if Ch(src, p + 1) == 0 {
          err := Some(EEscape);
          return;
        }
        p := p + 1;
      }
      op := ParseLiteral();
    }

    method ParseLiteral() returns (op: Op)
      requires err == None
      modifies this
      ensures Says(Literal(src, old(Here())), op)
    {
      op := Char(if src.icase then ToLower(Ch(src, p)) else Ch(src, p));
      p := p + 1;
    }

    /** rx_atomo in extended syntax, but for groups. */
    method ParseExtended() returns (op: Op)
      requires err == None
      modifies this
      ensures Says(ExtendedAtom(src, old(Here())), op)
    {
      var c := Ch(src, p);
      op := Empty;
      if c == STAR || c == PLUS || c == QUESTION || c == LBRACE {
        if c == LBRACE && !IsDigit(Ch(src, p + 1)) {
          op := ParseLiteral();
        } else {
          err := Some(BadRpt);
        }
      } else if c == CARET {
        op, p := Bol, p + 1;
      } else if c == DOLLAR {
        op, p := Eol, p + 1;
      } else {
        op := ParseCommon();
      }
    }

    /** rx_atomo in basic syntax, but for groups. */
    method ParseBasic(start: bool) returns (op: Op)
      requires err == None
      modifies this
      ensures Says(BasicAtom(src, old(Here()), start), op)
    {
      var c := Ch(src, p);
      op := Empty;
      if c == CARET && start {
        op, p := Bol, p + 1;
      } else if c == DOLLAR && EndsBasic(src, p + 1) {
        op, p := Eol, p + 1;
      } else if c == STAR && start {
        op := ParseLiteral();
      } else if c == BACKSLASH && 49 <= Ch(src, p + 1) <= 57 {
        var k: nat := Ch(src, p + 1) - 48;
        if k > groups {
          err := Some(ESubreg);
        } else {
          op, p := Ref(k), p + 2;
        }
      } else {
        op := ParseCommon();
      }
    }

    /** rx_atomo where a sequence does not end. */
    method ParseAtom(start: bool) returns (op: Op)
      requires err == None && !AtEnd(src, Here())
      modifies this
      ensures Says(Atom(src, old(Here()), start), op)
      decreases |src.pat| - p, 0
    {
      op := Empty;
      if AtOpen(src, Here()) {
        groups := groups + 1;
        var k := groups;
        p := p + Sign(src);
        open := open + 1;
        var body := Node(Empty, None);
        if !AtClose(src, Here()) {
          body := ParseAlternatives();
        }
        if err.Some? {
          return;
        }
        if !AtClose(src, Here()) {
          err := Some(EParen);
          return;
        }
        p := p + Sign(src);
        open := open - 1;
        op := Group(k, body);
      } else if src.ere {
        op := ParseExtended();
      } else {
        op := ParseBasic(start);
      }
    }

    /** rx_sequenza */
    method ParseSequence() returns (n: Node)
      requires err == None
      modifies this
      ensures match Ops(src, old(Here()), true)
              case Ok(ops, st) => err == None && n == Link(ops) && Here() == st
              case Bad(e) => err == Some(e)
      decreases |src.pat| - p, 2
    {
      n := Node(Empty, None);
      var ops: seq<Op>, start := [], true;
      ghost var from := Here();
      assert After([], Ops(src, from, true)) == Ops(src, from, true) by { AfterNothing(Ops(src, from, true)); }
      while !AtEnd(src, Here())
        invariant err == None && p >= from.p && Ops(src, from, true) == After(ops, Ops(src, Here(), start))
        decreases |src.pat| - p
      {
        ghost var here := Here();
        var atom := ParseAtom(start);
        if err.Some? {
          return;
        }
        start := atom.Bol? && !src.ere;
        var op := ParseQuantifiers(atom);
        if err.Some? {
          return;
        }
        AfterOne(ops, op, Ops(src, Here(), start));
        ops := ops + [op];
      }
      assert ops + [] == ops;
      n := Link(ops);
    }

    /** The loop of rx_scelta over the branches after the first. */
    method ParseBranches() returns (bs: seq<Node>)
      requires err == None
      modifies this
      ensures Says(Branches(src, old(Here())), bs)
      decreases |src.pat| - p, 3
    {
      bs := [];
      ghost var from := Here();
      AfterNothing(Branches(src, from));
      while AtBar(src, Here())
        invariant err == None && p >= from.p && Branches(src, from) == After(bs, Branches(src, Here()))
        decreases |src.pat| - p
      {
        p := p + Sign(src);
        var b := ParseSequence();
        if err.Some? {
          return;
        }
        AfterOne(bs, b, Branches(src, Here()));
        bs := bs + [b];
      }
      assert bs + [] == bs;
    }

    /** rx_scelta */
    method ParseAlternatives() returns (n: Node)
      requires err == None
      modifies this
      ensures Says(Alternatives(src, old(Here())), n)
      decreases |src.pat| - p, 4
    {
      n := ParseSequence();
      if err.Some? || !AtBar(src, Here()) {
        return;
      }
      var rest := ParseBranches();
      n := Node(Choice([n] + rest), None);
    }
  }

  function After<T>(seen: seq<T>, r: Result<seq<T>>): Result<seq<T>> {
    match r
    case Ok(v, st) => Ok(seen + v, st)
    case Bad(e) => Bad(e)
  }

  lemma AfterNothing<T>(r: Result<seq<T>>)
    ensures After([], r) == r
  {
    if r.Ok? { assert [] + r.value == r.value; }
  }

  lemma AfterOne<T>(seen: seq<T>, x: T, r: Result<seq<T>>)
    ensures After(seen, After([x], r)) == After(seen + [x], r)
  {
    if r.Ok? { assert seen + ([x] + r.value) == seen + [x] + r.value; }
  }

  /** regcomp: a program regexec can run, or the error. */
  method Regcomp(src: Source, nosub: bool) returns (re: Option<RegexExec.Prog>, err: Option<Error>)
    ensures re.Some? <==> err.None?
    ensures match Compile(src)
            case Ok(n, st) => re == Some(RegexExec.Prog(n, st.groups, src.icase, src.newline, nosub))
            case Bad(e) => err == Some(e)
    ensures re.Some? ==> RegexExec.WellFormed(re.value) && (src.icase ==> SetsCaseClosed(re.value.root))
  {
    var ps := new Parser(src);
    var n := ps.ParseAlternatives();
    if ps.err.None? && Ch(src, ps.p) != 0 {
      ps.err := Some(EParen);
    }
    if ps.err.Some? {
      return None, ps.err;
    }
    CompiledGood(src);
    re, err := Some(RegexExec.Prog(n, ps.groups, src.icase, src.newline, nosub)), None;
  }
}
