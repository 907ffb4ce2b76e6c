/**
  The expression parser as it works: a cursor over the tokens, moved by
  mutually recursive methods with loops. Each computes its function.
  */
module BasicParser {

  import opened BasicExpr

  class Parser {
    const toks: seq<Token>
    const h: Host
    var pos: nat

    ghost predicate Valid()
      reads this
    {
      pos <= |toks|
    }

    /** The tokens not read yet. */
    function Left(): seq<Token>
      requires Valid()
      reads this
    {
      toks[pos..]
    }

    constructor (h: Host, toks: seq<Token>)
      ensures this.h == h && this.toks == toks && Valid() && Left() == toks
    {
      this.h, this.toks, pos := h, toks, 0;
    }

    /** lex_next: stays at the end. */
    method Next()
      requires Valid()
      modifies this
      ensures Valid() && Left() == if old(Left()) == [] then [] else old(Left())[1..]
    {
      if pos < |toks| {
        pos := pos + 1;
      }
    }

    /** parse_or down to parse_primary, by level. */
    method ParseLevel(k: nat) returns (v: Value)
      requires Valid() && k <= PRIMARY
      modifies this
      ensures Valid() && Parsed(v, Left()) == Parse(h, k, old(Left()))
      decreases |toks| - pos, 10 - k, 1
    {
      if k == PRIMARY {
        v := ParsePrimary();
      } else if k == NOT {
        v := ParseNot();
      } else if k == COMPARE {
        v := ParseCompare();
      } else {
        v := ParseChain(k);
      }
    }

    /** parse_not */
    method ParseNot() returns (v: Value)
      requires Valid()
      modifies this
      ensures Valid() && Parsed(v, Left()) == Parse(h, NOT, old(Left()))
      decreases |toks| - pos, 10 - NOT, 0
    {
      if Starts(Left(), Token.Not) {
        Next();
        v := ParseLevel(NOT);
        v := h.not(v);
      } else {
        v := ParseLevel(COMPARE);
      }
    }

    /** parse_compare */
    method ParseCompare() returns (v: Value)
      requires Valid()
      modifies this
      ensures Valid() && Parsed(v, Left()) == Parse(h, COMPARE, old(Left()))
      decreases |toks| - pos, 10 - COMPARE, 0
    {
      v := ParseLevel(COMPARE + 1);
      if OperAt(Left(), COMPARE) {
        var op := toks[pos].op;
        Next();
        var r := ParseLevel(COMPARE + 1);
        v := h.bin(op, v, r);
      }
    }

    /** parse_or, parse_and, parse_concat, parse_add, parse_mul, parse_pow: the left-associative levels. */
    method ParseChain(k: nat) returns (v: Value)
      requires Valid() && k < PRIMARY && k != NOT && k != COMPARE
      modifies this
      ensures Valid() && Parsed(v, Left()) == Parse(h, k, old(Left()))
      decreases |toks| - pos, 10 - k, 0
    {
      v := ParseLevel(k + 1);
      ghost var from, start := v, Left();
      while OperAt(Left(), k)
        invariant Valid() && pos >= old(pos) && Loop(h, k, from, start) == Loop(h, k, v, Left())
        decreases |toks| - pos
      {
        var op := toks[pos].op;
        Next();
        var r := ParseLevel(k + 1);
        v := h.bin(op, v, r);
      }
    }

    /** parse_primary */
    method ParsePrimary() returns (v: Value)
      requires Valid()
      modifies this
      ensures Valid() && Parsed(v, Left()) == Primary(h, old(Left()))
      decreases |toks| - pos, 1
    {
      if pos == |toks| {
        return Int(0);
      }
      var t := toks[pos];
      Next();
      if t.Literal? {
        v := t.v;
      } else if t == Open {
        v := ParseLevel(OR);
        if Starts(Left(), Close) {
          Next();
        }
      } else if t == Oper(Sub) {
        v := ParsePrimary();
        v := h.neg(v);
      } else if IsWord(t) {
        v := ParseName(Spelling(t));
      } else {
        v := Int(0);
      }
    }

    /** What follows a name: arguments, if there is a parenthesis. */
    method ParseName(n: string) returns (v: Value)
      requires Valid()
      modifies this
      ensures Valid() && Parsed(v, Left()) == Named(h, n, old(Left()))
      decreases |toks| - pos, 13
    {
      if !Starts(Left(), Open) {
        return h.name(n, false, []);
      }
      Next();
      var args := [];
      if !Starts(Left(), Close) {
        args := ParseArgs();
      }
      if Starts(Left(), Close) {
        Next();
      }
      v := h.name(n, true, args);
    }

    /** The loop over the arguments. */
    method ParseArgs() returns (args: seq<Value>)
      requires Valid()
      modifies this
      ensures Valid() && ParsedArgs(args, Left()) == Args(h, [], old(Left()))
      decreases |toks| - pos, 12
    {
      args := [];
      ghost var start := Left();
      var more := true;
      while more
        invariant Valid() && pos >= old(pos)
        invariant if more then Args(h, [], start) == Args(h, args, Left()) else Args(h, [], start) == ParsedArgs(args, Left())
        decreases more, |toks| - pos
      {
        var v := ParseLevel(OR);
        if |args| < MAX_ARGS {
          args := args + [v];
        }
        more := Starts(Left(), Comma);
        if more {
          Next();
        }
      }
    }
  }

  /** parse_primary after a name. */
  function Named(h: Host, n: string, ts: seq<Token>): Parsed {
    if !Starts(ts, Open) then Parsed(h.name(n, false, []), ts)
    else if Starts(ts[1..], Close) then Parsed(h.name(n, true, []), ts[2..])
    else
      var r := Args(h, [], ts[1..]);
      Parsed(h.name(n, true, r.vs), Skip(r.rest, Close))
  }
}
