/**
  Reading a reply: the questions are passed over, and the address is taken
  from the first A record of class IN, wherever it stands among the answers.
  */
module DnsAnswer {
  import opened Common
  import opened Dns

  const TYPE_A := 1
  const CLASS_IN := 1
  const HEADER := 12
  const OK := 0
  const NXDOMAIN := 3

  /** Found; -ENOENT; -EIO; or a datagram that is not the reply waited for. */
  datatype Outcome = Address(ip: seq<Byte>) | NoEntry | BadMessage | NotOurs

  function Word(m: seq<Byte>, o: nat): (n: nat)
    requires o + 2 <= |m|
    ensures n < 65536
  {
    var hi: int, lo: int := m[o], m[o + 1]; hi * 256 + lo
  }

  // ----- as functions -----

  /** The place after `count` questions. */
  function SkipQuestions(m: seq<Byte>, p: nat, count: nat): (r: Option<nat>)
    ensures r.Some? && count > 0 ==> p < r.value <= |m|
    ensures r.Some? && count == 0 ==> r.value == p
    decreases count
  {
    if count == 0 then Some(p)
    else
      var q := Skip(m, p);
      if q.None? || q.value + 4 > |m| then None else SkipQuestions(m, q.value + 4, count - 1)
  }

  /** One answer: it decides, or the next one is at `p`. */
  datatype Reading = Decided(r: Outcome) | Onward(p: nat)

  function AnswerAt(m: seq<Byte>, p: nat): Reading {
    var q := Skip(m, p);
    if q.None? || q.value + 10 > |m| then Decided(BadMessage)
    else
      var o := q.value;
      var size := Word(m, o + 8);
      if o + 10 + size > |m| then Decided(BadMessage)
      else if Word(m, o) == TYPE_A && Word(m, o + 2) == CLASS_IN && size == 4 then Decided(Address(m[o + 10..o + 14]))
      else Onward(o + 10 + size)
  }

  function FindAddress(m: seq<Byte>, p: nat, count: nat): Outcome
    decreases count
  {
    if count == 0 then NoEntry
    else
      match AnswerAt(m, p)
      case Decided(r) => r
      case Onward(q) => FindAddress(m, q, count - 1)
  }

  /** What dns_risolvi_entro makes of a datagram. */
  function Scan(m: seq<Byte>, id: nat): Outcome
    requires |m| >= HEADER
  {
    if Word(m, 0) != id || m[2] < 128 then NotOurs
    else if m[3] % 16 == NXDOMAIN then NoEntry
    else if m[3] % 16 != OK then BadMessage
    else
      var p := SkipQuestions(m, HEADER, Word(m, 4));
      if p.None? then BadMessage else FindAddress(m, p.value, Word(m, 6))
  }

  // ----- as it works -----

  /** The scan of a reply. It reads inside the message only and every turn moves on. */
  method Resolve(m: seq<Byte>, id: nat) returns (r: Outcome)
    requires |m| >= HEADER
    ensures r == Scan(m, id)
  {
    if Word(m, 0) != id {
      return NotOurs;
    }
    if m[2] / 128 == 0 {
      return NotOurs;
    }
    var rcode := m[3] % 16;
    if rcode == NXDOMAIN {
      return NoEntry;
    }
    if rcode != OK {
      return BadMessage;
    }
    var p: nat := HEADER;
    var questions := Word(m, 4);
    var k := 0;
    while k < questions
      invariant 0 <= k <= questions && SkipQuestions(m, HEADER, questions) == SkipQuestions(m, p, questions - k)
    {
      var q := SkipName(m, p);
      if q.None? || q.value + 4 > |m| {
        return BadMessage;
      }
      p := q.value + 4;
      k := k + 1;
    }
    var answers := Word(m, 6);
    if answers == 0 {
      return NoEntry;
    }
    r := ScanAnswers(m, p, answers);
  }

  method ScanAnswers(m: seq<Byte>, start: nat, answers: nat) returns (r: Outcome)
    ensures r == FindAddress(m, start, answers)
  {
    var p: nat, left := start, answers;
    while left > 0
      invariant FindAddress(m, start, answers) == FindAddress(m, p, left)
    {
      var x := ReadAnswer(m, p);
      if x.Decided? {
        return x.r;
      }
      p, left := x.p, left - 1;
    }
    r := NoEntry;
  }

  /** One turn of the loop over the answers. */
  method ReadAnswer(m: seq<Byte>, p: nat) returns (x: Reading)
    ensures x == AnswerAt(m, p)
  {
    var q := SkipName(m, p);
    if q.None? || q.value + 10 > |m| {
      return Decided(BadMessage);
    }
    var o := q.value;
    var kind, group, size := Word(m, o), Word(m, o + 2), Word(m, o + 8);
    if o + 10 + size > |m| {
      return Decided(BadMessage);
    }
    if kind == TYPE_A && group == CLASS_IN && size == 4 {
      return Decided(Address(m[o + 10..o + 14]));
    }
    x := Onward(o + 10 + size);
  }

  // ----- well-formed replies -----

  datatype Question = Question(name: Name, rest: seq<Byte>)

  /** NAME, TYPE, CLASS, TTL, RDATA. */
  datatype Record = Record(name: Name, kind: nat, group: nat, ttl: seq<Byte>, data: seq<Byte>)

  predicate GoodQuestion(q: Question) {
    GoodName(q.name) && |q.rest| == 4
  }

  predicate GoodRecord(x: Record) {
    GoodName(x.name) && x.kind < 65536 && x.group < 65536 && |x.ttl| == 4 && |x.data| < 65536
  }

  function WordBytes(n: nat): seq<Byte>
    requires n < 65536
  {
    [n / 256, n % 256]
  }

  function QuestionBytes(q: Question): seq<Byte>
    requires GoodQuestion(q)
  {
    NameBytes(q.name) + q.rest
  }

  /** What comes after the name. */
  function Fixed(x: Record): seq<Byte>
    requires GoodRecord(x)
  {
    WordBytes(x.kind) + WordBytes(x.group) + x.ttl + WordBytes(|x.data|) + x.data
  }

  function RecordBytes(x: Record): seq<Byte>
    requires GoodRecord(x)
  {
    NameBytes(x.name) + Fixed(x)
  }

  predicate AllQuestions(qs: seq<Question>) {
    forall i :: 0 <= i < |qs| ==> GoodQuestion(qs[i])
  }

  predicate AllRecords(xs: seq<Record>) {
    forall i :: 0 <= i < |xs| ==> GoodRecord(xs[i])
  }

  function QuestionsBytes(qs: seq<Question>): seq<Byte>
    requires AllQuestions(qs)
  {
    if qs == [] then [] else assert GoodQuestion(qs[0]); QuestionBytes(qs[0]) + QuestionsBytes(qs[1..])
  }

  function RecordsBytes(xs: seq<Record>): seq<Byte>
    requires AllRecords(xs)
  {
    if xs == [] then [] else assert GoodRecord(xs[0]); RecordBytes(xs[0]) + RecordsBytes(xs[1..])
  }

  predicate IsAddress(x: Record) {
    x.kind == TYPE_A && x.group == CLASS_IN && |x.data| == 4
  }

  /** The data of the first address record. */
  function FirstAddress(xs: seq<Record>): Outcome {
    if xs == [] then NoEntry else if IsAddress(xs[0]) then Address(xs[0].data) else FirstAddress(xs[1..])
  }

  lemma {:induction false} QuestionsPassed(m: seq<Byte>, p: nat, qs: seq<Question>)
    requires AllQuestions(qs) && At(m, p, QuestionsBytes(qs))
    ensures SkipQuestions(m, p, |qs|) == Some(p + |QuestionsBytes(qs)|)
    decreases qs
  {
    if qs != [] {
      assert GoodQuestion(qs[0]);
      AtSplit(m, p, QuestionBytes(qs[0]), QuestionsBytes(qs[1..]));
      AtSplit(m, p, NameBytes(qs[0].name), qs[0].rest);
      AtSlice(m, p + |NameBytes(qs[0].name)|, qs[0].rest);
      SkipPasses(m, p, qs[0].name);
      QuestionsPassed(m, p + |QuestionBytes(qs[0])|, qs[1..]);
    }
  }

  /** The fixed part and the data of a record, where they stand in the message. */
  lemma RecordAt(m: seq<Byte>, o: nat, x: Record)
    requires GoodRecord(x) && At(m, o, Fixed(x))
    ensures o + 10 + |x.data| <= |m| && Word(m, o) == x.kind && Word(m, o + 2) == x.group && Word(m, o + 8) == |x.data|
    ensures m[o + 10..o + 10 + |x.data|] == x.data
  {
    AtSplit(m, o, WordBytes(x.kind) + WordBytes(x.group) + x.ttl + WordBytes(|x.data|), x.data);
    AtSplit(m, o, WordBytes(x.kind) + WordBytes(x.group) + x.ttl, WordBytes(|x.data|));
    AtSplit(m, o, WordBytes(x.kind) + WordBytes(x.group), x.ttl);
    AtSplit(m, o, WordBytes(x.kind), WordBytes(x.group));
    AtSlice(m, o + 10, x.data);
    WordAt(m, o, x.kind);
    WordAt(m, o + 2, x.group);
    WordAt(m, o + 8, |x.data|);
  }

  lemma WordAt(m: seq<Byte>, o: nat, n: nat)
    requires n < 65536 && At(m, o, WordBytes(n))
    ensures o + 2 <= |m| && Word(m, o) == n
  {
    assert AtByte(m, o, WordBytes(n), 0) && AtByte(m, o, WordBytes(n), 1);
  }

  lemma RecordPassed(m: seq<Byte>, p: nat, x: Record)
    requires GoodRecord(x) && At(m, p, RecordBytes(x))
    ensures var o := p + |NameBytes(x.name)|;
            && Skip(m, p) == Some(o) && o + 10 + |x.data| == p + |RecordBytes(x)| <= |m|
            && Word(m, o) == x.kind && Word(m, o + 2) == x.group && Word(m, o + 8) == |x.data|
            && m[o + 10..o + 10 + |x.data|] == x.data
  {
    AtSplit(m, p, NameBytes(x.name), Fixed(x));
    SkipPasses(m, p, x.name);
    RecordAt(m, p + |NameBytes(x.name)|, x);
  }

  lemma FindStep(m: seq<Byte>, p: nat, o: nat, count: nat, x: Record)
    requires count > 0 && Skip(m, p) == Some(o) && o + 10 + |x.data| <= |m|
    requires Word(m, o) == x.kind && Word(m, o + 2) == x.group && Word(m, o + 8) == |x.data|
    requires m[o + 10..o + 10 + |x.data|] == x.data
    ensures FindAddress(m, p, count) == if IsAddress(x) then Address(x.data) else FindAddress(m, o + 10 + |x.data|, count - 1)
  {
  }

  lemma RecordRead(m: seq<Byte>, p: nat, x: Record, count: nat) returns (q: nat)
    requires count > 0 && GoodRecord(x) && At(m, p, RecordBytes(x))
    ensures q == p + |RecordBytes(x)|
    ensures FindAddress(m, p, count) == if IsAddress(x) then Address(x.data) else FindAddress(m, q, count - 1)
  {
    RecordPassed(m, p, x);
    q := p + |RecordBytes(x)|;
    FindStep(m, p, p + |NameBytes(x.name)|, count, x);
  }

  lemma {:induction false} AddressFound(m: seq<Byte>, p: nat, xs: seq<Record>)
    requires AllRecords(xs) && At(m, p, RecordsBytes(xs))
    ensures FindAddress(m, p, |xs|) == FirstAddress(xs)
    decreases xs
  {
    if xs != [] {
      assert GoodRecord(xs[0]);
      AtSplit(m, p, RecordBytes(xs[0]), RecordsBytes(xs[1..]));
      var q := RecordRead(m, p, xs[0], |xs|);
      AddressFound(m, q, xs[1..]);
    }
  }

  /**
    Every well-formed reply to our question, with any compressed names, any
    other records before the address and anything after the answers: the
    result is the data of the first address record, or that there is none.
    */
  lemma ReplyUnderstood(m: seq<Byte>, id: nat, qs: seq<Question>, xs: seq<Record>)
    requires |m| >= HEADER && Word(m, 0) == id && m[2] >= 128 && m[3] % 16 == OK
    requires Word(m, 4) == |qs| && Word(m, 6) == |xs| && AllQuestions(qs) && AllRecords(xs)
    requires At(m, HEADER, QuestionsBytes(qs) + RecordsBytes(xs))
    ensures Scan(m, id) == FirstAddress(xs)
  {
    var p := PartsRead(m, HEADER, qs, xs);
    ScanGoesOn(m, id, p);
  }

  /** The questions, then the answers. */
  lemma PartsRead(m: seq<Byte>, o: nat, qs: seq<Question>, xs: seq<Record>) returns (p: nat)
    requires AllQuestions(qs) && AllRecords(xs) && At(m, o, QuestionsBytes(qs) + RecordsBytes(xs))
    ensures SkipQuestions(m, o, |qs|) == Some(p) && FindAddress(m, p, |xs|) == FirstAddress(xs)
  {
    AtSplit(m, o, QuestionsBytes(qs), RecordsBytes(xs));
    p := o + |QuestionsBytes(qs)|;
    QuestionsPassed(m, o, qs);
    AddressFound(m, p, xs);
  }

  /** A reply without an error code, its questions passed over. */
  lemma ScanGoesOn(m: seq<Byte>, id: nat, p: nat)
    requires |m| >= HEADER && Word(m, 0) == id && m[2] >= 128 && m[3] % 16 == OK
    requires SkipQuestions(m, HEADER, Word(m, 4)) == Some(p)
    ensures Scan(m, id) == FindAddress(m, p, Word(m, 6))
  {
  }
}
