/**
  The other way round: what each outcome says about a datagram. Which ones are
  not ours, which are refused, and what stands in those that give an address.
  */
module DnsReplies {
  import opened Common
  import opened Dns
  import opened DnsAnswer

  /** The header, byte by byte: section 4.1.1 of RFC 1035. */
  predicate Ours(m: seq<Byte>, id: nat)
    requires |m| >= 12
  {
    var hi: int, lo: int := m[0], m[1];
    hi * 256 + lo == id && m[2] >= 128
  }

  /** RCODE: the low half of the fourth byte. */
  function Rcode(m: seq<Byte>): nat
    requires |m| >= 12
  {
    m[3] % 16
  }

  function Number(m: seq<Byte>, o: nat): nat
    requires o + 2 <= |m|
  {
    var hi: int, lo: int := m[o], m[o + 1]; hi * 256 + lo
  }

  /** So many questions stand in the message from `p` on. */
  ghost predicate Questions(m: seq<Byte>, p: nat, qs: seq<Question>, count: nat) {
    |qs| == count && AllQuestions(qs) && At(m, p, QuestionsBytes(qs))
  }

  /** These records stand there. */
  ghost predicate Records(m: seq<Byte>, p: nat, xs: seq<Record>) {
    AllRecords(xs) && At(m, p, RecordsBytes(xs))
  }

  ghost predicate NoAddress(xs: seq<Record>) {
    forall i :: 0 <= i < |xs| ==> !IsAddress(xs[i])
  }

  // ----- the questions -----

  lemma QuestionStands(m: seq<Byte>, p: nat, q: nat) returns (x: Question)
    requires Skip(m, p) == Some(q) && q + 4 <= |m|
    ensures GoodQuestion(x) && At(m, p, QuestionBytes(x)) && p + |QuestionBytes(x)| == q + 4
  {
    var n := SkipMeans(m, p);
    x := Question(n, m[q..q + 4]);
    forall i ensures AtByte(m, q, x.rest, i) {
      if 0 <= i < 4 { assert m[q + i] == m[q..q + 4][i]; }
    }
    AtJoin(m, p, NameBytes(n), x.rest);
  }

  lemma {:induction false} QuestionsStand(m: seq<Byte>, p: nat, count: nat, e: nat) returns (qs: seq<Question>)
    requires SkipQuestions(m, p, count) == Some(e) && p <= |m|
    ensures Questions(m, p, qs, count) && e == p + |QuestionsBytes(qs)| && e <= |m|
    decreases count
  {
    if count == 0 {
      qs := [];
      forall i ensures AtByte(m, p, [], i) {
      }
    } else {
      var q := Skip(m, p).value;
      var x := QuestionStands(m, p, q);
      var rest := QuestionsStand(m, q + 4, count - 1, e);
      qs := [x] + rest;
      assert qs[1..] == rest && AllQuestions(qs);
      AtJoin(m, p, QuestionBytes(x), QuestionsBytes(rest));
    }
  }

  // ----- the answers -----

  lemma WordStands(m: seq<Byte>, o: nat)
    requires o + 2 <= |m|
    ensures Word(m, o) < 65536 && At(m, o, WordBytes(Word(m, o)))
  {
    var part := WordBytes(Word(m, o));
    forall i ensures AtByte(m, o, part, i) {
    }
  }

  lemma SliceStands(m: seq<Byte>, o: nat, e: nat)
    requires o <= e <= |m|
    ensures At(m, o, m[o..e])
  {
    var part := m[o..e];
    forall i ensures AtByte(m, o, part, i) {
    }
  }

  /** The record whose fixed part begins at `o`. */
  function RecordOf(m: seq<Byte>, n: Name, o: nat): Record
    requires o + 10 <= |m| && o + 10 + Word(m, o + 8) <= |m|
  {
    Record(n, Word(m, o), Word(m, o + 2), m[o + 4..o + 8], m[o + 10..o + 10 + Word(m, o + 8)])
  }

  lemma FixedStands(m: seq<Byte>, n: Name, o: nat)
    requires GoodName(n) && o + 10 <= |m| && o + 10 + Word(m, o + 8) <= |m|
    ensures GoodRecord(RecordOf(m, n, o)) && At(m, o, Fixed(RecordOf(m, n, o)))
  {
    var x := RecordOf(m, n, o);
    WordStands(m, o);
    WordStands(m, o + 2);
    SliceStands(m, o + 4, o + 8);
    WordStands(m, o + 8);
    SliceStands(m, o + 10, o + 10 + |x.data|);
    AtJoin(m, o, WordBytes(x.kind), WordBytes(x.group));
    AtJoin(m, o, WordBytes(x.kind) + WordBytes(x.group), x.ttl);
    AtJoin(m, o, WordBytes(x.kind) + WordBytes(x.group) + x.ttl, WordBytes(|x.data|));
    AtJoin(m, o, WordBytes(x.kind) + WordBytes(x.group) + x.ttl + WordBytes(|x.data|), x.data);
  }

  /** Where an answer is read, a record stands. */
  lemma RecordStands(m: seq<Byte>, p: nat) returns (x: Record)
    requires AnswerAt(m, p) != Decided(BadMessage)
    ensures GoodRecord(x) && At(m, p, RecordBytes(x))
    ensures AnswerAt(m, p) == if IsAddress(x) then Decided(Address(x.data)) else Onward(p + |RecordBytes(x)|)
  {
    var o := Skip(m, p).value;
    var n := SkipMeans(m, p);
    x := RecordOf(m, n, o);
    FixedStands(m, n, o);
    AtJoin(m, p, NameBytes(n), Fixed(x));
  }

  lemma RecordsFirst(m: seq<Byte>, p: nat, x: Record, rest: seq<Record>)
    requires GoodRecord(x) && At(m, p, RecordBytes(x)) && Records(m, p + |RecordBytes(x)|, rest)
    ensures Records(m, p, [x] + rest) && RecordsBytes([x] + rest) == RecordBytes(x) + RecordsBytes(rest)
  {
    var xs := [x] + rest;
    assert xs[1..] == rest && AllRecords(xs);
    AtJoin(m, p, RecordBytes(x), RecordsBytes(rest));
  }

  lemma NoRecords(m: seq<Byte>, p: nat)
    requires p <= |m|
    ensures Records(m, p, [])
  {
    forall i ensures AtByte(m, p, [], i) {
    }
  }

  /** Records that are no address, one after the other from `p` to `q`. */
  ghost predicate Chain(m: seq<Byte>, p: nat, xs: seq<Record>, q: nat)
    decreases xs
  {
    if xs == [] then p == q
    else GoodRecord(xs[0]) && At(m, p, RecordBytes(xs[0])) && !IsAddress(xs[0]) && Chain(m, p + |RecordBytes(xs[0])|, xs[1..], q)
  }

  lemma NoAddressFirst(x: Record, rest: seq<Record>)
    ensures NoAddress([x] + rest) <==> !IsAddress(x) && NoAddress(rest)
  {
    var xs := [x] + rest;
    assert xs[0] == x && forall i :: 0 <= i < |rest| ==> rest[i] == xs[i + 1];
    assert forall i :: 1 <= i < |xs| ==> xs[i] == rest[i - 1];
  }

  lemma RecordsSplit(m: seq<Byte>, p: nat, xs: seq<Record>) returns (q: nat)
    requires Records(m, p, xs) && xs != []
    ensures GoodRecord(xs[0]) && At(m, p, RecordBytes(xs[0])) && q == p + |RecordBytes(xs[0])| && Records(m, q, xs[1..])
    ensures xs == [xs[0]] + xs[1..]
  {
    assert GoodRecord(xs[0]);
    AtSplit(m, p, RecordBytes(xs[0]), RecordsBytes(xs[1..]));
    q := p + |RecordBytes(xs[0])|;
  }

  lemma {:induction false} ChainStands(m: seq<Byte>, p: nat, xs: seq<Record>, q: nat)
    requires p <= |m| && Chain(m, p, xs, q)
    ensures Records(m, p, xs) && NoAddress(xs) && q == p + |RecordsBytes(xs)| && q <= |m|
    decreases xs
  {
    if xs == [] {
      NoRecords(m, p);
    } else {
      AtSlice(m, p, RecordBytes(xs[0]));
      ChainStands(m, p + |RecordBytes(xs[0])|, xs[1..], q);
      RecordsFirst(m, p, xs[0], xs[1..]);
      NoAddressFirst(xs[0], xs[1..]);
      assert xs == [xs[0]] + xs[1..];
    }
  }

  lemma {:induction false} StandingChain(m: seq<Byte>, p: nat, xs: seq<Record>)
    requires Records(m, p, xs) && NoAddress(xs)
    ensures Chain(m, p, xs, p + |RecordsBytes(xs)|)
    decreases xs
  {
    if xs != [] {
      var k := RecordsSplit(m, p, xs);
      NoAddressFirst(xs[0], xs[1..]);
      StandingChain(m, k, xs[1..]);
    }
  }

  /** The loop over the answers of a message, from a place on; it is not looked into where only its results count. */
  type Finder = (nat, nat) -> Outcome

  ghost predicate FindsAt(find: Finder, m: seq<Byte>, p: nat, count: nat) {
    find(p, count) == FindAddress(m, p, count)
  }

  ghost predicate Finds(find: Finder, m: seq<Byte>) {
    forall p, count {:trigger FindsAt(find, m, p, count)} :: FindsAt(find, m, p, count)
  }

  function Finding(m: seq<Byte>): Finder {
    (p: nat, count: nat) => FindAddress(m, p, count)
  }

  lemma FindingFinds(m: seq<Byte>)
    ensures Finds(Finding(m), m)
  {
    forall p, count ensures FindsAt(Finding(m), m, p, count) {
    }
  }

  lemma FindsPast(find: Finder, m: seq<Byte>, p: nat, x: Record, count: nat)
    requires Finds(find, m) && count > 0 && GoodRecord(x) && At(m, p, RecordBytes(x)) && !IsAddress(x)
    ensures find(p, count) == find(p + |RecordBytes(x)|, count - 1)
  {
    var k := RecordRead(m, p, x, count);
    assert FindsAt(find, m, p, count) && FindsAt(find, m, k, count - 1);
  }

  lemma {:induction false} ChainPassed(find: Finder, m: seq<Byte>, p: nat, xs: seq<Record>, q: nat, count: nat)
    requires Finds(find, m) && Chain(m, p, xs, q) && |xs| <= count
    ensures find(p, count) == find(q, count - |xs|)
    decreases xs
  {
    if xs != [] {
      FindsPast(find, m, p, xs[0], count);
      ChainPassed(find, m, p + |RecordBytes(xs[0])|, xs[1..], q, count - 1);
    }
  }

  lemma Standing(m: seq<Byte>, p: nat) returns (x: Record, q: nat)
    requires AnswerAt(m, p).Onward?
    ensures GoodRecord(x) && At(m, p, RecordBytes(x)) && !IsAddress(x) && q == p + |RecordBytes(x)| <= |m|
  {
    x := RecordStands(m, p);
    q := p + |RecordBytes(x)|;
    AtSlice(m, p, RecordBytes(x));
  }

  /** What the loop over the answers passes over before it is done: records that are no address. */
  lemma {:induction false} PassedChain(m: seq<Byte>, p: nat, count: nat) returns (xs: seq<Record>, q: nat)
    requires p <= |m|
    ensures Chain(m, p, xs, q) && |xs| <= count && (|xs| == count || AnswerAt(m, q).Decided?)
    decreases count
  {
    if count == 0 || AnswerAt(m, p).Decided? {
      xs, q := [], p;
    } else {
      var x, k := Standing(m, p);
      var rest;
      rest, q := PassedChain(m, k, count - 1);
      xs := [x] + rest;
      assert xs[0] == x && xs[1..] == rest;
    }
  }

  // ----- what each outcome means -----

  /** Fewer records than ANCOUNT says that are no address, then one that is. */
  ghost predicate Answers(m: seq<Byte>, p: nat, xs: seq<Record>, x: Record)
    requires |m| >= 12
  {
    && Records(m, p, xs) && NoAddress(xs) && |xs| < Number(m, 6)
    && GoodRecord(x) && At(m, p + |RecordsBytes(xs)|, RecordBytes(x)) && IsAddress(x)
  }

  /** As many as ANCOUNT says, and none of them an address. */
  ghost predicate AnswersNothing(m: seq<Byte>, p: nat, xs: seq<Record>)
    requires |m| >= 12
  {
    Records(m, p, xs) && NoAddress(xs) && |xs| == Number(m, 6)
  }

  lemma AddressStands(m: seq<Byte>, q: nat, ip: seq<Byte>) returns (x: Record)
    requires AnswerAt(m, q) == Decided(Address(ip))
    ensures GoodRecord(x) && At(m, q, RecordBytes(x)) && IsAddress(x) && x.data == ip
  {
    x := RecordStands(m, q);
  }

  lemma DecidedNow(m: seq<Byte>, q: nat, count: nat)
    requires count > 0 && AnswerAt(m, q).Decided?
    ensures FindAddress(m, q, count) == AnswerAt(m, q).r && !AnswerAt(m, q).r.NotOurs? && !AnswerAt(m, q).r.NoEntry?
  {
  }

  /** What the answers say, where they are found to say it. */
  lemma FoundStand(find: Finder, m: seq<Byte>, p: nat, r: Outcome) returns (xs: seq<Record>, x: Record)
    requires Finds(find, m) && |m| >= 12 && p <= |m| && r == find(p, Number(m, 6))
    ensures r != NotOurs
    ensures r.Address? ==> Answers(m, p, xs, x) && x.data == r.ip
    ensures r.NoEntry? ==> AnswersNothing(m, p, xs)
  {
    var count := Number(m, 6);
    var q;
    xs, q := PassedChain(m, p, count);
    ChainStands(m, p, xs, q);
    ChainPassed(find, m, p, xs, q, count);
    assert FindsAt(find, m, q, count - |xs|);
    x := Record(Name([], Zero), 0, 0, [], []);
    if |xs| < count {
      DecidedNow(m, q, count - |xs|);
      if AnswerAt(m, q).r.Address? { x := AddressStands(m, q, AnswerAt(m, q).r.ip); }
    }
  }

  lemma StandFound(find: Finder, m: seq<Byte>, p: nat, xs: seq<Record>, count: nat)
    requires Finds(find, m) && Records(m, p, xs) && NoAddress(xs) && |xs| <= count
    ensures find(p, count) == find(p + |RecordsBytes(xs)|, count - |xs|)
  {
    StandingChain(m, p, xs);
    ChainPassed(find, m, p, xs, p + |RecordsBytes(xs)|, count);
  }

  lemma AddressNow(find: Finder, m: seq<Byte>, p: nat, x: Record, count: nat)
    requires Finds(find, m) && count > 0 && GoodRecord(x) && At(m, p, RecordBytes(x)) && IsAddress(x)
    ensures find(p, count) == Address(x.data)
  {
    var k := RecordRead(m, p, x, count);
    assert FindsAt(find, m, p, count);
  }

  lemma AnswersFound(find: Finder, m: seq<Byte>, p: nat, xs: seq<Record>, x: Record)
    requires Finds(find, m) && |m| >= 12 && Answers(m, p, xs, x)
    ensures find(p, Number(m, 6)) == Address(x.data)
  {
    StandFound(find, m, p, xs, Number(m, 6));
    AddressNow(find, m, p + |RecordsBytes(xs)|, x, Number(m, 6) - |xs|);
  }

  lemma NothingFound(find: Finder, m: seq<Byte>, p: nat, xs: seq<Record>)
    requires Finds(find, m) && |m| >= 12 && AnswersNothing(m, p, xs)
    ensures find(p, Number(m, 6)) == NoEntry
  {
    StandFound(find, m, p, xs, Number(m, 6));
    assert FindsAt(find, m, p + |RecordsBytes(xs)|, 0);
  }

  // ----- the whole datagram -----

  /** The questions QDCOUNT counts stand after the header, and the answers begin after them. */
  ghost predicate Asked(m: seq<Byte>, qs: seq<Question>, p: nat)
    requires |m| >= 12
  {
    Questions(m, 12, qs, Number(m, 4)) && p == 12 + |QuestionsBytes(qs)|
  }

  ghost predicate GivesAddress(m: seq<Byte>, ip: seq<Byte>)
    requires |m| >= 12
  {
    exists qs, p: nat, xs, x :: Asked(m, qs, p) && Answers(m, p, xs, x) && x.data == ip
  }

  ghost predicate GivesNothing(m: seq<Byte>)
    requires |m| >= 12
  {
    exists qs, p: nat, xs :: Asked(m, qs, p) && AnswersNothing(m, p, xs)
  }

  lemma AskedPassed(m: seq<Byte>, qs: seq<Question>, p: nat)
    requires |m| >= 12 && Asked(m, qs, p)
    ensures SkipQuestions(m, 12, Number(m, 4)) == Some(p)
  {
    QuestionsPassed(m, 12, qs);
  }

  /** The scan of a reply without an error code goes on to the answers, if it gets there. */
  lemma ScanIs(find: Finder, m: seq<Byte>, id: nat)
    requires Finds(find, m) && |m| >= 12 && Ours(m, id) && Rcode(m) == 0
    ensures var e := SkipQuestions(m, 12, Number(m, 4));
            Scan(m, id) == if e.None? then BadMessage else find(e.value, Number(m, 6))
  {
    var e := SkipQuestions(m, 12, Number(m, 4));
    if e.Some? { assert FindsAt(find, m, e.value, Number(m, 6)); }
  }

  lemma Given(find: Finder, m: seq<Byte>, ip: seq<Byte>, e: Option<nat>, r: Outcome)
    requires Finds(find, m) && |m| >= 12 && e == SkipQuestions(m, 12, Number(m, 4))
    requires r == if e.None? then BadMessage else find(e.value, Number(m, 6))
    ensures GivesAddress(m, ip) ==> r == Address(ip)
    ensures GivesNothing(m) ==> r == NoEntry
  {
    if qs, p: nat, xs, x :| Asked(m, qs, p) && Answers(m, p, xs, x) && x.data == ip {
      AskedPassed(m, qs, p);
      AnswersFound(find, m, p, xs, x);
    }
    if qs, p: nat, xs :| Asked(m, qs, p) && AnswersNothing(m, p, xs) {
      AskedPassed(m, qs, p);
      NothingFound(find, m, p, xs);
    }
  }

  lemma Gives(find: Finder, m: seq<Byte>, e: Option<nat>, r: Outcome)
    requires Finds(find, m) && |m| >= 12 && e == SkipQuestions(m, 12, Number(m, 4))
    requires r == if e.None? then BadMessage else find(e.value, Number(m, 6))
    ensures r != NotOurs && (r.Address? ==> GivesAddress(m, r.ip)) && (r.NoEntry? ==> GivesNothing(m))
  {
    if e.Some? {
      var qs := QuestionsStand(m, 12, Number(m, 4), e.value);
      var xs, x := FoundStand(find, m, e.value, r);
      assert Asked(m, qs, e.value);
    }
  }

  lemma ReplyMeans(m: seq<Byte>, id: nat, ip: seq<Byte>)
    requires |m| >= 12 && Ours(m, id) && Rcode(m) == 0
    ensures Scan(m, id) != NotOurs
    ensures Scan(m, id) == Address(ip) <==> GivesAddress(m, ip)
    ensures Scan(m, id) == NoEntry <==> GivesNothing(m)
  {
    FindingFinds(m);
    ScanIs(Finding(m), m, id);
    Given(Finding(m), m, ip, SkipQuestions(m, 12, Number(m, 4)), Scan(m, id));
    Gives(Finding(m), m, SkipQuestions(m, 12, Number(m, 4)), Scan(m, id));
  }

  /**
    Every datagram of at least twelve bytes, by what stands in it. It is not
    ours if the id is another or it is no response. NXDOMAIN is no entry, any
    other error code a bad message. Otherwise an address is given exactly if
    the questions and then answers stand there, the first address among them
    is that one, and no more of them than are counted come before it; there is
    no entry exactly if all answers stand there and none is an address; and
    everything else is a bad message.
    */
  lemma ScanMeans(m: seq<Byte>, id: nat)
    requires |m| >= 12
    ensures Scan(m, id) == NotOurs <==> !Ours(m, id)
    ensures Ours(m, id) && Rcode(m) == 3 ==> Scan(m, id) == NoEntry
    ensures Ours(m, id) && Rcode(m) != 0 && Rcode(m) != 3 ==> Scan(m, id) == BadMessage
    ensures Ours(m, id) && Rcode(m) == 0 ==>
              && (forall ip :: Scan(m, id) == Address(ip) <==> GivesAddress(m, ip))
              && (Scan(m, id) == NoEntry <==> GivesNothing(m))
              && (Scan(m, id) == BadMessage <==> !GivesNothing(m) && forall ip :: !GivesAddress(m, ip))
  {
    if Ours(m, id) && Rcode(m) == 0 {
      forall ip ensures Scan(m, id) == Address(ip) <==> GivesAddress(m, ip) {
        ReplyMeans(m, id, ip);
      }
      ReplyMeans(m, id, []);
    }
  }

  /** A bad message without an error code: the questions and answers that are counted do not all stand in it. */
  lemma BadMeansBroken(m: seq<Byte>, id: nat, qs: seq<Question>, p: nat, xs: seq<Record>)
    requires |m| >= 12 && Ours(m, id) && Rcode(m) == 0 && Scan(m, id) == BadMessage
    ensures !(Asked(m, qs, p) && Records(m, p, xs) && |xs| == Number(m, 6))
  {
    if Asked(m, qs, p) && Records(m, p, xs) && |xs| == Number(m, 6) {
      AskedPassed(m, qs, p);
      AddressFound(m, p, xs);
      FirstNotBad(xs);
    }
  }

  lemma {:induction false} FirstNotBad(xs: seq<Record>)
    ensures FirstAddress(xs) != BadMessage
    decreases xs
  {
    if xs != [] { FirstNotBad(xs[1..]); }
  }
}
