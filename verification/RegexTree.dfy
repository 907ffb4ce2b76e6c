/**
  The compiled form of a POSIX regular expression and what one regexec call
  fixes: the text and the flags.

  A tree node is an operation together with the rest of its sequence (`dopo`
  in the C structure). Positions are offsets into the text; the terminating
  '\0' of a C string is not part of it.
  */
module RegexTree {
  import opened Common

  datatype Node = Node(op: Op, next: Option<Node>)

  datatype Op =
    | Empty                                         // RX_VUOTO
    | Char(c: Byte)                                 // RX_CAR
    | Any                                           // RX_QUALSIASI
    | Set(members: set<Byte>)                       // RX_INSIEME
    | Bol                                           // RX_INIZIO
    | Eol                                           // RX_FINE
    | Group(g: nat, body: Node)                     // RX_GRUPPO
    | Choice(branches: seq<Node>)                   // RX_SCELTA and its chain
    | Repeat(min: nat, max: int, body: Node)        // RX_RIPETI; max < 0: no limit
    | Ref(g: nat)                                   // RX_RIF

  /** What is fixed during one call of regexec. */
  datatype Env = Env(text: seq<Byte>, icase: bool, newline: bool, notBol: bool, notEol: bool)

  const NEWLINE: Byte := 10

  function ToLower(b: Byte): Byte {
    if 65 <= b <= 90 then b + 32 else b
  }

  function ToUpper(b: Byte): Byte {
    if 97 <= b <= 122 then b - 32 else b
  }

  /** The capture arrays `so` and `eo`; -1 stands for "not set". */
  datatype Caps = Caps(so: seq<int>, eo: seq<int>)

  /** rx_car_uguale */
  predicate SameChar(env: Env, a: Byte, b: Byte) {
    if env.icase then ToLower(a) == ToLower(b) else a == b
  }

  predicate SameText(env: Env, u: seq<Byte>, v: seq<Byte>) {
    |u| == |v| && forall i :: 0 <= i < |u| ==> SameChar(env, u[i], v[i])
  }

  /** The operations that take exactly one byte. */
  predicate TakesOne(op: Op) {
    op.Char? || op.Any? || op.Set?
  }

  predicate Takes(env: Env, op: Op, s: nat)
    requires TakesOne(op)
  {
    && s < |env.text|
    && match op
       case Char(c) => SameChar(env, env.text[s], c)
       case Any => !(env.text[s] == NEWLINE && env.newline)
       case Set(m) => env.text[s] in m
       case _ => false
  }

  predicate AtBol(env: Env, s: nat)
    requires s <= |env.text|
  {
    if s == 0 then !env.notBol else env.newline && env.text[s - 1] == NEWLINE
  }

  predicate AtEol(env: Env, s: nat)
    requires s <= |env.text|
  {
    if s == |env.text| then !env.notEol else env.newline && env.text[s] == NEWLINE
  }

  /** The text of a group that is set, again at `s`; the end of it, or None. */
  function RefEnd(env: Env, c: Caps, g: nat, s: nat): (r: Option<nat>)
    requires s <= |env.text|
    ensures r.Some? ==> s <= r.value <= |env.text|
  {
    if g < |c.so| && g < |c.eo| && 0 <= c.so[g] <= c.eo[g] <= |env.text|
       && s + (c.eo[g] - c.so[g]) <= |env.text|
       && SameText(env, env.text[s..s + (c.eo[g] - c.so[g])], env.text[c.so[g]..c.eo[g]])
    then Some(s + (c.eo[g] - c.so[g]))
    else None
  }

  /** The operations without a body: where `op` leads from `s`, or None. */
  function StepEnd(env: Env, op: Op, c: Caps, s: nat): (r: Option<nat>)
    requires s <= |env.text|
    ensures r.Some? ==> s <= r.value <= |env.text|
  {
    match op
    case Empty => Some(s)
    case Bol => if AtBol(env, s) then Some(s) else None
    case Eol => if AtEol(env, s) then Some(s) else None
    case Ref(g) => RefEnd(env, c, g, s)
    case Char(_) => if Takes(env, op, s) then Some(s + 1) else None
    case Any => if Takes(env, op, s) then Some(s + 1) else None
    case Set(_) => if Takes(env, op, s) then Some(s + 1) else None
    case _ => None
  }

  function OpenGroup(c: Caps, g: nat, s: nat): Caps {
    if g < |c.so| && g < |c.eo| then Caps(c.so[g := s], c.eo[g := -1]) else c
  }

  function CloseGroup(c: Caps, g: nat, s: nat): Caps {
    if g < |c.eo| then Caps(c.so, c.eo[g := s]) else c
  }

  /** What is recorded when a way reaches its end: the whole match ends at `s`. */
  function Finish(c: Caps, s: nat): Caps {
    CloseGroup(c, 0, s)
  }

  // ----- static properties of a tree -----

  /** Every group and back reference number is one of 1..ng, as the compiler gives them. */
  predicate NumbersIn(n: Node, ng: nat) {
    && (match n.op
        case Group(g, b) => 1 <= g <= ng && NumbersIn(b, ng)
        case Choice(bs) => forall i :: 0 <= i < |bs| ==> NumbersIn(bs[i], ng)
        case Repeat(_, _, b) => NumbersIn(b, ng)
        case Ref(g) => 1 <= g <= ng
        case _ => true)
    && (n.next.Some? ==> NumbersIn(n.next.value, ng))
  }

  predicate NoRefs(n: Node) {
    && (match n.op
        case Group(_, b) => NoRefs(b)
        case Choice(bs) => forall i :: 0 <= i < |bs| ==> NoRefs(bs[i])
        case Repeat(_, _, b) => NoRefs(b)
        case Ref(_) => false
        case _ => true)
    && (n.next.Some? ==> NoRefs(n.next.value))
  }

  /** The group numbers that occur in a tree. */
  function Groups(n: Node): set<nat> {
    (match n.op
     case Group(g, b) => {g} + Groups(b)
     case Choice(bs) => GroupsOf(bs)
     case Repeat(_, _, b) => Groups(b)
     case _ => {})
    + (if n.next.Some? then Groups(n.next.value) else {})
  }

  function GroupsOf(bs: seq<Node>): set<nat> {
    if bs == [] then {} else Groups(bs[0]) + GroupsOf(bs[1..])
  }

  /** The groups that back references of a tree refer to. */
  function Refs(n: Node): set<nat> {
    (match n.op
     case Group(_, b) => Refs(b)
     case Choice(bs) => RefsOf(bs)
     case Repeat(_, _, b) => Refs(b)
     case Ref(g) => {g}
     case _ => {})
    + (if n.next.Some? then Refs(n.next.value) else {})
  }

  function RefsOf(bs: seq<Node>): set<nat> {
    if bs == [] then {} else Refs(bs[0]) + RefsOf(bs[1..])
  }

  /** False only if the tree takes at least one byte wherever it matches. */
  predicate MayBeEmpty(n: Node) {
    && (match n.op
        case Char(_) => false
        case Any => false
        case Set(_) => false
        case Group(_, b) => MayBeEmpty(b)
        case Choice(bs) => exists i :: 0 <= i < |bs| && MayBeEmpty(bs[i])
        case Repeat(min, _, b) => min == 0 || MayBeEmpty(b)
        case _ => true)
    && (n.next.Some? ==> MayBeEmpty(n.next.value))
  }

  /** No empty turn of a repeat can set a group in `refs`. */
  predicate TurnsSafe(n: Node, refs: set<nat>) {
    && (match n.op
        case Group(_, b) => TurnsSafe(b, refs)
        case Choice(bs) => forall i :: 0 <= i < |bs| ==> TurnsSafe(bs[i], refs)
        case Repeat(_, _, b) => (!MayBeEmpty(b) || Groups(b) !! refs) && TurnsSafe(b, refs)
        case _ => true)
    && (n.next.Some? ==> TurnsSafe(n.next.value, refs))
  }

  /** No back reference depends on a group that an empty turn of a repeat could set. */
  predicate RefsSafe(root: Node) {
    TurnsSafe(root, Refs(root))
  }

  /** No group contains a group with its own number. */
  predicate NoReentry(n: Node) {
    && (match n.op
        case Group(g, b) => g !in Groups(b) && NoReentry(b)
        case Choice(bs) => forall i :: 0 <= i < |bs| ==> NoReentry(bs[i])
        case Repeat(_, _, b) => NoReentry(b)
        case _ => true)
    && (n.next.Some? ==> NoReentry(n.next.value))
  }

  /** With REG_ICASE every set holds both cases of a letter or neither. */
  predicate CaseClosed(m: set<Byte>) {
    forall a: Byte, b: Byte :: ToLower(a) == ToLower(b) && a in m ==> b in m
  }

  predicate SetsCaseClosed(n: Node) {
    && (match n.op
        case Set(m) => CaseClosed(m)
        case Group(_, b) => SetsCaseClosed(b)
        case Choice(bs) => forall i :: 0 <= i < |bs| ==> SetsCaseClosed(bs[i])
        case Repeat(_, _, b) => SetsCaseClosed(b)
        case _ => true)
    && (n.next.Some? ==> SetsCaseClosed(n.next.value))
  }
}
