/**
  What a regular expression means, independently of any search.

  `Derives` relates a start position and the captures there to an end position
  and the captures there, one node at a time; a repeat may take any number of
  turns between its bounds, empty ones included. `Lang` is the same without
  captures, for trees without back references: the text between the two
  positions is in the language of the tree.
  */
module RegexSemantics {
  import opened Common
  import opened RegexTree

  ghost predicate Derives(env: Env, n: Node, i: nat, c: Caps, j: nat, d: Caps)
    requires i <= |env.text|
    decreases n, 1, 0
  {
    match n.next
    case None => OpDerives(env, n.op, i, c, j, d)
    case Some(m) => exists x: nat, e: Caps | x <= |env.text| ::
      OpDerives(env, n.op, i, c, x, e) && Derives(env, m, x, e, j, d)
  }

  ghost predicate OpDerives(env: Env, op: Op, i: nat, c: Caps, j: nat, d: Caps)
    requires i <= |env.text|
    decreases op, 1, 0
  {
    match op
    case Group(g, b) => exists e :: Derives(env, b, i, OpenGroup(c, g, i), j, e) && d == CloseGroup(e, g, j)
    case Choice(bs) => exists x :: 0 <= x < |bs| && Derives(env, bs[x], i, c, j, d)
    case Repeat(min, max, b) =>
      exists count: nat :: min <= count && (max < 0 || count <= max) && TurnsDerive(env, b, count, i, c, j, d)
    case _ => StepEnd(env, op, c, i) == Some(j) && d == c
  }

  ghost predicate TurnsDerive(env: Env, b: Node, count: nat, i: nat, c: Caps, j: nat, d: Caps)
    requires i <= |env.text|
    decreases b, 2, count
  {
    if count == 0 then j == i && d == c
    else exists x: nat, e: Caps | x <= |env.text| ::
      Derives(env, b, i, c, x, e) && TurnsDerive(env, b, count - 1, x, e, j, d)
  }

  ghost predicate Lang(env: Env, n: Node, i: nat, j: nat)
    requires i <= |env.text|
    decreases n, 1, 0
  {
    match n.next
    case None => OpLang(env, n.op, i, j)
    case Some(m) => exists x: nat | x <= |env.text| :: OpLang(env, n.op, i, x) && Lang(env, m, x, j)
  }

  ghost predicate OpLang(env: Env, op: Op, i: nat, j: nat)
    requires i <= |env.text|
    decreases op, 1, 0
  {
    match op
    case Empty => j == i
    case Bol => AtBol(env, i) && j == i
    case Eol => AtEol(env, i) && j == i
    case Group(_, b) => Lang(env, b, i, j)
    case Choice(bs) => exists x :: 0 <= x < |bs| && Lang(env, bs[x], i, j)
    case Repeat(min, max, b) =>
      exists count: nat :: min <= count && (max < 0 || count <= max) && TurnsLang(env, b, count, i, j)
    case Ref(_) => false
    case _ => Takes(env, op, i) && j == i + 1
  }

  ghost predicate TurnsLang(env: Env, b: Node, count: nat, i: nat, j: nat)
    requires i <= |env.text|
    decreases b, 2, count
  {
    if count == 0 then j == i
    else exists x: nat | x <= |env.text| :: Lang(env, b, i, x) && TurnsLang(env, b, count - 1, x, j)
  }

  // ----- matches move forward inside the text -----

  lemma {:induction false} DerivesForward(env: Env, n: Node, i: nat, c: Caps, j: nat, d: Caps)
    requires i <= |env.text| && Derives(env, n, i, c, j, d)
    ensures i <= j <= |env.text|
    decreases n, 1, 0
  {
    match n.next
    case None => OpDerivesForward(env, n.op, i, c, j, d);
    case Some(m) =>
      var x: nat, e: Caps :| x <= |env.text| && OpDerives(env, n.op, i, c, x, e) && Derives(env, m, x, e, j, d);
      OpDerivesForward(env, n.op, i, c, x, e);
      DerivesForward(env, m, x, e, j, d);
  }

  lemma {:induction false} OpDerivesForward(env: Env, op: Op, i: nat, c: Caps, j: nat, d: Caps)
    requires i <= |env.text| && OpDerives(env, op, i, c, j, d)
    ensures i <= j <= |env.text|
    decreases op, 1, 0
  {
    match op
    case Group(g, b) =>
      var e :| Derives(env, b, i, OpenGroup(c, g, i), j, e) && d == CloseGroup(e, g, j);
      DerivesForward(env, b, i, OpenGroup(c, g, i), j, e);
    case Choice(bs) =>
      var x :| 0 <= x < |bs| && Derives(env, bs[x], i, c, j, d);
      DerivesForward(env, bs[x], i, c, j, d);
    case Repeat(min, max, b) =>
      var count: nat :| min <= count && (max < 0 || count <= max) && TurnsDerive(env, b, count, i, c, j, d);
      TurnsDeriveForward(env, b, count, i, c, j, d);
    case _ =>
  }

  lemma {:induction false} TurnsDeriveForward(env: Env, b: Node, count: nat, i: nat, c: Caps, j: nat, d: Caps)
    requires i <= |env.text| && TurnsDerive(env, b, count, i, c, j, d)
    ensures i <= j <= |env.text|
    decreases b, 2, count
  {
    if count > 0 {
      var x: nat, e: Caps :| x <= |env.text| && Derives(env, b, i, c, x, e) && TurnsDerive(env, b, count - 1, x, e, j, d);
      DerivesForward(env, b, i, c, x, e);
      TurnsDeriveForward(env, b, count - 1, x, e, j, d);
    }
  }

  // ----- without back references the captures do not matter -----

  lemma {:induction false} DerivesInLang(env: Env, n: Node, i: nat, c: Caps, j: nat, d: Caps)
    requires i <= |env.text| && NoRefs(n) && Derives(env, n, i, c, j, d)
    ensures Lang(env, n, i, j)
    decreases n, 1, 0
  {
    match n.next
    case None => OpDerivesInLang(env, n, i, c, j, d);
    case Some(m) =>
      var x: nat, e: Caps :| x <= |env.text| && OpDerives(env, n.op, i, c, x, e) && Derives(env, m, x, e, j, d);
      OpDerivesInLang(env, n, i, c, x, e);
      DerivesInLang(env, m, x, e, j, d);
  }

  lemma {:induction false} OpDerivesInLang(env: Env, n: Node, i: nat, c: Caps, j: nat, d: Caps)
    requires i <= |env.text| && NoRefs(n) && OpDerives(env, n.op, i, c, j, d)
    ensures OpLang(env, n.op, i, j)
    decreases n, 0, 0
  {
    match n.op
    case Group(g, b) =>
      var e :| Derives(env, b, i, OpenGroup(c, g, i), j, e) && d == CloseGroup(e, g, j);
      DerivesInLang(env, b, i, OpenGroup(c, g, i), j, e);
    case Choice(bs) =>
      var x :| 0 <= x < |bs| && Derives(env, bs[x], i, c, j, d);
      DerivesInLang(env, bs[x], i, c, j, d);
    case Repeat(min, max, b) =>
      var count: nat :| min <= count && (max < 0 || count <= max) && TurnsDerive(env, b, count, i, c, j, d);
      TurnsDeriveInLang(env, b, count, i, c, j, d);
    case _ =>
  }

  lemma {:induction false} TurnsDeriveInLang(env: Env, b: Node, count: nat, i: nat, c: Caps, j: nat, d: Caps)
    requires i <= |env.text| && NoRefs(b) && TurnsDerive(env, b, count, i, c, j, d)
    ensures TurnsLang(env, b, count, i, j)
    decreases b, 2, count
  {
    if count > 0 {
      var x: nat, e: Caps :| x <= |env.text| && Derives(env, b, i, c, x, e) && TurnsDerive(env, b, count - 1, x, e, j, d);
      DerivesInLang(env, b, i, c, x, e);
      TurnsDeriveInLang(env, b, count - 1, x, e, j, d);
    }
  }

  lemma {:induction false} LangDerives(env: Env, n: Node, i: nat, c: Caps, j: nat) returns (d: Caps)
    requires i <= |env.text| && Lang(env, n, i, j)
    ensures Derives(env, n, i, c, j, d)
    decreases n, 1, 0
  {
    if n.next.Some? {
      var x: nat :| x <= |env.text| && OpLang(env, n.op, i, x) && Lang(env, n.next.value, x, j);
      var e := OpLangDerives(env, n.op, i, c, x);
      d := LangDerives(env, n.next.value, x, e, j);
    } else {
      d := OpLangDerives(env, n.op, i, c, j);
    }
  }

  lemma {:induction false} OpLangDerives(env: Env, op: Op, i: nat, c: Caps, j: nat) returns (d: Caps)
    requires i <= |env.text| && OpLang(env, op, i, j)
    ensures OpDerives(env, op, i, c, j, d)
    decreases op, 1, 0
  {
    match op
    case Group(g, b) =>
      var e := LangDerives(env, b, i, OpenGroup(c, g, i), j);
      d := CloseGroup(e, g, j);
    case Choice(bs) =>
      var x :| 0 <= x < |bs| && Lang(env, bs[x], i, j);
      d := LangDerives(env, bs[x], i, c, j);
    case Repeat(min, max, b) =>
      var count: nat :| min <= count && (max < 0 || count <= max) && TurnsLang(env, b, count, i, j);
      d := TurnsLangDerive(env, b, count, i, c, j);
    case _ => d := c;
  }

  lemma {:induction false} TurnsLangDerive(env: Env, b: Node, count: nat, i: nat, c: Caps, j: nat) returns (d: Caps)
    requires i <= |env.text| && TurnsLang(env, b, count, i, j)
    ensures TurnsDerive(env, b, count, i, c, j, d)
    decreases b, 2, count
  {
    if count == 0 { return c; }
    var x: nat :| x <= |env.text| && Lang(env, b, i, x) && TurnsLang(env, b, count - 1, x, j);
    var e := LangDerives(env, b, i, c, x);
    d := TurnsLangDerive(env, b, count - 1, x, e, j);
  }
}
