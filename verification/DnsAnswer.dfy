/** The shim's answer parser (shim/getaddrinfo_shim.c:923-1000): it reads only inside the
    reply and ends on every byte string, and on a well-formed reply it finds the first
    4-byte A record, or that there is none. */
module DnsAnswer {
  import opened Bytes

  datatype Verdict = Hit(addr: seq<Byte>) | Miss | TempFail | Truncated

  // ---- the parser ----

  /** The offset past a name that starts at off: labels up to the root or a compression
      pointer, or just past the end of a reply that breaks off inside it. */
  function NameEnd(r: seq<Byte>, off: nat): (e: nat)
    ensures e > off
    decreases |r| - off
  {
    if off >= |r| || r[off] == 0 then off + 1
    else if r[off] >= 0xc0 then off + 2
    else NameEnd(r, off + r[off] + 1)
  }

  function AfterQuestions(r: seq<Byte>, off: nat, n: nat): nat
    decreases n
  {
    if n == 0 then off else AfterQuestions(r, NameEnd(r, off) + 4, n - 1)
  }

  function FirstAddress(r: seq<Byte>, off: nat, n: nat): Verdict
    decreases n
  {
    if n == 0 || off + 12 > |r| then Miss
    else
      var o := NameEnd(r, off);
      if o + 10 > |r| then TempFail
      else
        var rdlen := U16(r, o + 8);
        if o + 10 + rdlen > |r| then TempFail
        else if U16(r, o) == 1 && rdlen == 4 then Hit(r[o + 10..o + 14])
        else FirstAddress(r, o + 10 + rdlen, n - 1)
  }

  predicate Bit(b: Byte, mask: nat)
    requires mask > 0
  {
    b / mask % 2 == 1
  }

  /** k3sm_parse_a against a query whose id is (id0, id1). */
  function ParseA(r: seq<Byte>, id0: Byte, id1: Byte): Verdict {
    if |r| < 12 || r[0] != id0 || r[1] != id1 || !Bit(r[2], 0x80) then TempFail
    else if Bit(r[2], 0x02) then Truncated
    else if r[3] % 16 == 3 then Miss
    else if r[3] % 16 != 0 then TempFail
    else if U16(r, 6) < 1 then Miss
    else FirstAddress(r, AfterQuestions(r, 12, U16(r, 4)), U16(r, 6))
  }

  // ---- its loops ----

  method SkipName(r: seq<Byte>, off: nat) returns (e: nat)
    ensures e == NameEnd(r, off)
  {
    e := off;
    while e < |r| && r[e] != 0
      invariant NameEnd(r, off) == NameEnd(r, e)
      decreases |r| - e
    {
      if r[e] >= 0xc0 {
        return e + 2;
      }
      e := e + r[e] + 1;
    }
    e := e + 1;
  }

  /** k3sm_parse_a. Every read is proved inside the reply and every loop ends. */
  method ParseReply(r: seq<Byte>, id0: Byte, id1: Byte) returns (v: Verdict)
    ensures v == ParseA(r, id0, id1)
  {
    if |r| < 12 { return TempFail; }
    if r[0] != id0 || r[1] != id1 { return TempFail; }
    if !Bit(r[2], 0x80) { return TempFail; }
    if Bit(r[2], 0x02) { return Truncated; }
    var rcode := r[3] % 16;
    if rcode == 3 { return Miss; }
    if rcode != 0 { return TempFail; }
    var qdcount, ancount := U16(r, 4), U16(r, 6);
    if ancount < 1 { return Miss; }
    var off := SkipQuestions(r, qdcount);
    v := WalkAnswers(r, off, ancount);
  }

  method SkipQuestions(r: seq<Byte>, qdcount: nat) returns (off: nat)
    ensures off == AfterQuestions(r, 12, qdcount)
  {
    off := 12;
    for q := 0 to qdcount
      invariant AfterQuestions(r, 12, qdcount) == AfterQuestions(r, off, qdcount - q)
    {
      off := SkipName(r, off);
      off := off + 4;
    }
  }

  method WalkAnswers(r: seq<Byte>, start: nat, ancount: nat) returns (v: Verdict)
    ensures v == FirstAddress(r, start, ancount)
  {
    var off: nat, a: nat := start, 0;
    while a < ancount && off + 12 <= |r|
      invariant 0 <= a <= ancount && FirstAddress(r, start, ancount) == FirstAddress(r, off, ancount - a)
    {
      off := SkipName(r, off);
      if off + 10 > |r| { return TempFail; }
      var kind, rdlen := U16(r, off), U16(r, off + 8);
      off := off + 10;
      if off + rdlen > |r| { return TempFail; }
      if kind == 1 && rdlen == 4 { return Hit(r[off..off + 4]); }
      off := off + rdlen;
      a := a + 1;
    }
    v := Miss;
  }

  // ---- well-formed replies, section 4.1 of RFC 1035 ----

  /** Labels of 1 to 63 bytes, then the root or a two-byte pointer (section 4.1.4). */
  datatype Name = Root | Pointer(hi: Byte, lo: Byte) | Lab(lab: seq<Byte>, rest: Name)

  predicate NameOk(n: Name) {
    match n
    case Root => true
    case Pointer(hi, _) => hi >= 0xc0
    case Lab(l, rest) => 1 <= |l| <= 63 && NameOk(rest)
  }

  function NameBytes(n: Name): (b: seq<Byte>)
    requires NameOk(n)
    ensures |b| >= 1
  {
    match n
    case Root => [0]
    case Pointer(hi, lo) => [hi, lo]
    case Lab(l, rest) => [|l|] + l + NameBytes(rest)
  }

  datatype Question = Question(name: Name, kind: seq<Byte>)

  predicate QuestionOk(q: Question) { NameOk(q.name) && |q.kind| == 4 }

  function QuestionBytes(q: Question): seq<Byte>
    requires QuestionOk(q)
  {
    NameBytes(q.name) + q.kind
  }

  /** A resource record: name, type, class and time to live, data. */
  datatype Record = Record(name: Name, kind: nat, meta: seq<Byte>, data: seq<Byte>)

  predicate RecordOk(a: Record) { NameOk(a.name) && a.kind < 0x1_0000 && |a.meta| == 6 && |a.data| < 0x1_0000 }

  function RecordBytes(a: Record): (b: seq<Byte>)
    requires RecordOk(a)
    ensures |b| >= 11 + |a.data|
  {
    NameBytes(a.name) + ([Hi(a.kind), Lo(a.kind)] + a.meta + [Hi(|a.data|), Lo(|a.data|)] + a.data)
  }

  function Questions(qs: seq<Question>): seq<Byte>
    requires forall q <- qs :: QuestionOk(q)
  {
    if qs == [] then [] else QuestionBytes(qs[0]) + Questions(qs[1..])
  }

  function Records(rs: seq<Record>): seq<Byte>
    requires forall a <- rs :: RecordOk(a)
  {
    if rs == [] then [] else RecordBytes(rs[0]) + Records(rs[1..])
  }

  predicate IsAddress(a: Record) { a.kind == 1 && |a.data| == 4 }

  /** The first 4-byte A record, if any. */
  function FirstA(rs: seq<Record>): Verdict {
    if rs == [] then Miss else if IsAddress(rs[0]) then Hit(rs[0].data) else FirstA(rs[1..])
  }

  // ---- the parser reads well-formed replies ----

  lemma {:induction false} NameEndAt(r: seq<Byte>, off: nat, n: Name)
    requires NameOk(n) && At(r, off, NameBytes(n))
    ensures NameEnd(r, off) == off + |NameBytes(n)|
    decreases n
  {
    AtIndex(r, off, NameBytes(n), 0);
    match n
    case Root =>
    case Pointer(hi, lo) =>
    case Lab(l, rest) =>
      AtAppend(r, off, [|l|] + l, NameBytes(rest));
      NameEndAt(r, off + 1 + |l|, rest);
  }

  lemma {:induction false} QuestionsAt(r: seq<Byte>, off: nat, qs: seq<Question>)
    requires (forall q <- qs :: QuestionOk(q)) && At(r, off, Questions(qs))
    ensures AfterQuestions(r, off, |qs|) == off + |Questions(qs)|
    decreases |qs|
  {
    if qs != [] {
      var b := QuestionBytes(qs[0]);
      AtAppend(r, off, b, Questions(qs[1..]));
      AtAppend(r, off, NameBytes(qs[0].name), qs[0].kind);
      NameEndAt(r, off, qs[0].name);
      QuestionsAt(r, off + |b|, qs[1..]);
    }
  }

  /** One record where it stands: past its name, its type and length, and its data. */
  lemma {:induction false} RecordAt(r: seq<Byte>, off: nat, a: Record)
    requires RecordOk(a) && At(r, off, RecordBytes(a))
    ensures var o := NameEnd(r, off);
            && o + 10 + |a.data| == off + |RecordBytes(a)| <= |r|
            && U16(r, o) == a.kind && U16(r, o + 8) == |a.data| && r[o + 10..o + 10 + |a.data|] == a.data
  {
    NameEndAtRecord(r, off, a);
    var o := NameEnd(r, off);
    var fixed := [Hi(a.kind), Lo(a.kind)] + a.meta + [Hi(|a.data|), Lo(|a.data|)];
    AtAppend(r, off, NameBytes(a.name), fixed + a.data);
    AtAppend(r, o, fixed, a.data);
    AtIndex(r, o, fixed, 0);
    AtIndex(r, o, fixed, 1);
    AtIndex(r, o, fixed, 8);
    AtIndex(r, o, fixed, 9);
  }

  lemma {:induction false} NameEndAtRecord(r: seq<Byte>, off: nat, a: Record)
    requires RecordOk(a) && At(r, off, RecordBytes(a))
    ensures NameEnd(r, off) == off + |NameBytes(a.name)|
  {
    AtAppend(r, off, NameBytes(a.name), [Hi(a.kind), Lo(a.kind)] + a.meta + [Hi(|a.data|), Lo(|a.data|)] + a.data);
    NameEndAt(r, off, a.name);
  }

  /** The answer loop, with n records to go at off, ends with v. */
  predicate Reads(r: seq<Byte>, off: nat, n: nat, v: Verdict) { FirstAddress(r, off, n) == v }

  lemma {:induction false} RecordStep(r: seq<Byte>, off: nat, a: Record, n: nat, v: Verdict)
    requires RecordOk(a) && At(r, off, RecordBytes(a)) && off + 12 <= |r|
    requires Reads(r, off + |RecordBytes(a)|, n, v)
    ensures Reads(r, off, n + 1, if IsAddress(a) then Hit(a.data) else v)
  {
    RecordAt(r, off, a);
  }

  lemma RecordsLength(rs: seq<Record>)
    requires forall a <- rs :: RecordOk(a)
    ensures rs != [] ==> |Records(rs)| >= 11
  {
  }

  /** The guard of the answer loop stops early only on a last record of 11 bytes, which
      holds no address. */
  lemma {:induction false} ShortTail(rs: seq<Record>)
    requires (forall a <- rs :: RecordOk(a)) && rs != [] && |Records(rs)| < 12
    ensures FirstA(rs) == Miss
  {
    RecordsLength(rs[1..]);
    assert rs[1..] == [];
    assert FirstA([]) == Miss;
  }

  lemma {:induction false} RecordsSplit(r: seq<Byte>, off: nat, rs: seq<Record>)
    requires (forall a <- rs :: RecordOk(a)) && rs != [] && At(r, off, Records(rs))
    ensures At(r, off, RecordBytes(rs[0])) && At(r, off + |RecordBytes(rs[0])|, Records(rs[1..]))
  {
    AtAppend(r, off, RecordBytes(rs[0]), Records(rs[1..]));
  }

  lemma {:induction false} RecordsStop(r: seq<Byte>, off: nat, rs: seq<Record>)
    requires (forall a <- rs :: RecordOk(a)) && rs != [] && At(r, off, Records(rs)) && off + 12 > |r|
    ensures Reads(r, off, |rs|, FirstA(rs))
  {
    ShortTail(rs);
  }

  lemma {:induction false} RecordsAt(r: seq<Byte>, off: nat, rs: seq<Record>)
    requires (forall a <- rs :: RecordOk(a)) && At(r, off, Records(rs))
    ensures Reads(r, off, |rs|, FirstA(rs))
    decreases |rs|
  {
    if rs != [] {
      if off + 12 > |r| {
        RecordsStop(r, off, rs);
      } else {
        RecordsSplit(r, off, rs);
        RecordsAt(r, off + |RecordBytes(rs[0])|, rs[1..]);
        RecordStep(r, off, rs[0], |rs[1..]|, FirstA(rs[1..]));
      }
    }
  }

  /** A reply: id, flags, rcode and reserved bits, questions, answers, then the authority
      and additional counts and sections as they come. */
  datatype Message = Message(flags: Byte, codes: Byte, questions: seq<Question>, answers: seq<Record>,
                             counts: seq<Byte>, rest: seq<Byte>)

  predicate MessageOk(m: Message) {
    && |m.questions| < 0x1_0000 && |m.answers| < 0x1_0000 && |m.counts| == 4
    && (forall q <- m.questions :: QuestionOk(q)) && (forall a <- m.answers :: RecordOk(a))
  }

  function Header(m: Message, id0: Byte, id1: Byte): (b: seq<Byte>)
    requires MessageOk(m)
    ensures |b| == 12
  {
    [id0, id1, m.flags, m.codes] + [Hi(|m.questions|), Lo(|m.questions|), Hi(|m.answers|), Lo(|m.answers|)] + m.counts
  }

  function MessageBytes(m: Message, id0: Byte, id1: Byte): seq<Byte>
    requires MessageOk(m)
  {
    Header(m, id0, id1) + (Questions(m.questions) + (Records(m.answers) + m.rest))
  }

  lemma {:induction false} HeaderRead(m: Message, id0: Byte, id1: Byte)
    requires MessageOk(m)
    ensures var r := MessageBytes(m, id0, id1);
            && |r| >= 12 && r[0] == id0 && r[1] == id1 && r[2] == m.flags && r[3] == m.codes
            && U16(r, 4) == |m.questions| && U16(r, 6) == |m.answers|
  {
    var r := MessageBytes(m, id0, id1);
    assert forall i :: 0 <= i < 12 ==> r[i] == Header(m, id0, id1)[i];
  }

  /** The answer to a reply that carries the query's id, section by section: a reply flag,
      no truncation and rcode 0 give the first 4-byte A record or a miss, rcode 3 a miss,
      any other rcode a temporary failure, and a truncated one a refetch. */
  lemma {:induction false} ParsesWellFormed(m: Message, id0: Byte, id1: Byte)
    requires MessageOk(m)
    ensures ParseA(MessageBytes(m, id0, id1), id0, id1) ==
            if !Bit(m.flags, 0x80) then TempFail
            else if Bit(m.flags, 0x02) then Truncated
            else if m.codes % 16 == 3 then Miss
            else if m.codes % 16 != 0 then TempFail
            else FirstA(m.answers)
  {
    var r := MessageBytes(m, id0, id1);
    HeaderRead(m, id0, id1);
    SectionsAt(m, id0, id1);
    SectionsRead(r, m.questions, m.answers);
    ParseByHeader(r, id0, id1, m.flags, m.codes, |m.questions|, |m.answers|);
  }

  lemma {:induction false} ParseByHeader(r: seq<Byte>, id0: Byte, id1: Byte, flags: Byte, codes: Byte, nq: nat, na: nat)
    requires |r| >= 12 && r[0] == id0 && r[1] == id1 && r[2] == flags && r[3] == codes && U16(r, 4) == nq
             && U16(r, 6) == na
    ensures ParseA(r, id0, id1) ==
            if !Bit(flags, 0x80) then TempFail
            else if Bit(flags, 0x02) then Truncated
            else if codes % 16 == 3 then Miss
            else if codes % 16 != 0 then TempFail
            else FirstAddress(r, AfterQuestions(r, 12, nq), na)
  {
  }

  lemma {:induction false} SectionsRead(r: seq<Byte>, qs: seq<Question>, rs: seq<Record>)
    requires (forall q <- qs :: QuestionOk(q)) && (forall a <- rs :: RecordOk(a))
    requires At(r, 12, Questions(qs)) && At(r, 12 + |Questions(qs)|, Records(rs))
    ensures FirstAddress(r, AfterQuestions(r, 12, |qs|), |rs|) == FirstA(rs)
  {
    QuestionsAt(r, 12, qs);
    RecordsAt(r, 12 + |Questions(qs)|, rs);
  }

  lemma {:induction false} SectionsAt(m: Message, id0: Byte, id1: Byte)
    requires MessageOk(m)
    ensures var r := MessageBytes(m, id0, id1);
            At(r, 12, Questions(m.questions)) && At(r, 12 + |Questions(m.questions)|, Records(m.answers))
  {
    var r, q, a := MessageBytes(m, id0, id1), Questions(m.questions), Records(m.answers);
    assert At(r, 0, r);
    AtAppend(r, 0, Header(m, id0, id1), q + (a + m.rest));
    AtAppend(r, 12, q, a + m.rest);
    AtAppend(r, 12 + |q|, a, m.rest);
  }

  /** FirstA is what its name says. */
  lemma {:induction false} FirstAIsFirst(rs: seq<Record>)
    ensures match FirstA(rs)
            case Hit(addr) =>
              exists i :: 0 <= i < |rs| && IsAddress(rs[i]) && rs[i].data == addr
                          && forall j :: 0 <= j < i ==> !IsAddress(rs[j])
            case Miss => forall i :: 0 <= i < |rs| ==> !IsAddress(rs[i])
            case _ => false
    decreases |rs|
  {
    if rs != [] && !IsAddress(rs[0]) {
      FirstAIsFirst(rs[1..]);
      if FirstA(rs).Hit? {
        var i :| 0 <= i < |rs[1..]| && IsAddress(rs[1..][i]) && rs[1..][i].data == FirstA(rs).addr
                 && forall j :: 0 <= j < i ==> !IsAddress(rs[1..][j]);
        assert IsAddress(rs[i + 1]) && rs[i + 1].data == FirstA(rs).addr;
        forall j | 0 <= j < i + 1 ensures !IsAddress(rs[j]) {
          if j > 0 { assert rs[j] == rs[1..][j - 1]; }
        }
      } else {
        forall i | 0 <= i < |rs| ensures !IsAddress(rs[i]) {
          if i > 0 { assert rs[i] == rs[1..][i - 1]; }
        }
      }
    }
  }
}
