/** What the decoding loop of GreeterProxy::readyRead (src/greeter/greeterproxy.cpp) makes of
    a byte stream, however the stream is cut into chunks. */
module GreeterStream {
  import opened Prelude
  import opened WireFormat

  datatype Kind =
    | Capabilities | HostName | LastLogin | SessionDirs | LoginFailed | InformationMessage
    | SwitchToGreeter | ShowGreeter | UserActivateMessage | UserLoggedIn

  datatype Message = Message(kind: Kind, fields: seq<Field>)

  /** The daemon's numbering of its messages. */
  type Table = map<U32, Kind>

  function Shapes(kind: Kind): seq<Shape> {
    match kind
    case Capabilities => [NumberShape]
    case HostName => [SingleShape]
    case LastLogin => [SingleShape, SingleShape]
    case SessionDirs => [ManyShape, ManyShape]
    case LoginFailed => [SingleShape]
    case InformationMessage => [SingleShape]
    case SwitchToGreeter => []
    case ShowGreeter => []
    case UserActivateMessage => [SingleShape, SingleShape]
    case UserLoggedIn => [SingleShape, SingleShape]
  }

  /** One transaction: rolled back, or committed with what it consumed. */
  datatype Parsed = NeedMore | Bad(used: nat) | Unknown(used: nat) | Done(message: Message, used: nat)

  function Parse(table: Table, b: seq<Byte>): (p: Parsed)
    ensures !p.NeedMore? ==> 4 <= p.used <= |b|
  {
    if |b| < 4 then NeedMore
    else if NumberAt(b) !in table then Unknown(4)
    else
      var kind := table[NumberAt(b)];
      FieldsStable(b[4..], [], Shapes(kind));
      match ReadFields(b[4..], Shapes(kind))
      case Short => NeedMore
      case Corrupt(used) => Bad(4 + used)
      case Got(fields, used) => Done(Message(kind, fields), 4 + used)
  }

  datatype Outcome = Outcome(messages: seq<Message>, rest: seq<Byte>)

  /** What was decoded before, and what came after. */
  function Then(a: Outcome, b: Outcome): Outcome {
    Outcome(a.messages + b.messages, b.rest)
  }

  lemma {:induction false} ThenAssociates(a: Outcome, b: Outcome, c: Outcome)
    ensures Then(Then(a, b), c) == Then(a, Then(b, c))
  {
    assert a.messages + b.messages + c.messages == a.messages + (b.messages + c.messages);
  }

  /** One readyRead call on the buffered bytes `b`: it stops at the end of the data, at an
      incomplete message, and after an unknown tag or corrupt data. */
  function ReadyRead(table: Table, b: seq<Byte>): Outcome
    decreases |b|
  {
    match Parse(table, b)
    case NeedMore => Outcome([], b)
    case Bad(used) => Outcome([], b[used..])
    case Unknown(used) => Outcome([], b[used..])
    case Done(m, used) => Then(Outcome([m], []), ReadyRead(table, b[used..]))
  }

  /** Decoding the whole stream at once, without ever stopping early. */
  function DecodeAll(table: Table, b: seq<Byte>): Outcome
    decreases |b|
  {
    match Parse(table, b)
    case NeedMore => Outcome([], b)
    case Bad(used) => DecodeAll(table, b[used..])
    case Unknown(used) => DecodeAll(table, b[used..])
    case Done(m, used) => Then(Outcome([m], []), DecodeAll(table, b[used..]))
  }

  /** Every tag decoded is known and its fields are well formed. */
  predicate Clean(table: Table, b: seq<Byte>)
    decreases |b|
  {
    match Parse(table, b)
    case NeedMore => true
    case Bad(_) => false
    case Unknown(_) => false
    case Done(_, used) => Clean(table, b[used..])
  }

  /** The messages committed over a sequence of readyRead calls, one per arriving chunk. */
  function Feed(table: Table, chunks: seq<seq<Byte>>): Outcome {
    if chunks == [] then Outcome([], [])
    else
      var before := Feed(table, chunks[..|chunks| - 1]);
      Then(before, ReadyRead(table, before.rest + chunks[|chunks| - 1]))
  }

  function Concat(chunks: seq<seq<Byte>>): seq<Byte> {
    if chunks == [] then [] else Concat(chunks[..|chunks| - 1]) + chunks[|chunks| - 1]
  }

  // ----- one transaction --------------------------------------------------------

  /** More bytes never change a transaction that did not run out. */
  lemma {:induction false} ParseStable(table: Table, b: seq<Byte>, x: seq<Byte>)
    ensures !Parse(table, b).NeedMore? ==> Parse(table, b + x) == Parse(table, b)
  {
    if |b| >= 4 {
      assert NumberAt(b + x) == NumberAt(b);
      if NumberAt(b) in table {
        assert (b + x)[4..] == b[4..] + x;
        FieldsStable(b[4..], x, Shapes(table[NumberAt(b)]));
      }
    }
  }

  // ----- the whole stream -------------------------------------------------------

  lemma {:induction false} DropWithin<T>(b: seq<T>, x: seq<T>, k: nat)
    requires k <= |b|
    ensures (b + x)[k..] == b[k..] + x
  {
  }

  lemma {:induction false} DecodeOne(table: Table, b: seq<Byte>, p: Parsed, behind: seq<Byte>)
    requires Parse(table, b) == p && !p.NeedMore? && b[p.used..] == behind
    ensures DecodeAll(table, b) == if p.Done? then Then(Outcome([p.message], []), DecodeAll(table, behind))
                                   else DecodeAll(table, behind)
  {
  }

  /** Decoding can be interrupted anywhere and resumed on the leftover. */
  lemma {:induction false} DecodeResumes(table: Table, b: seq<Byte>, x: seq<Byte>)
    ensures DecodeAll(table, b + x) == Then(DecodeAll(table, b), DecodeAll(table, DecodeAll(table, b).rest + x))
    decreases |b|
  {
    var p := Parse(table, b);
    if p.NeedMore? {
      NothingThen(DecodeAll(table, b + x), b);
    } else {
      var behind := b[p.used..];
      var first := DecodeAll(table, behind);
      DecodeResumes(table, behind, x);
      ParseStable(table, b, x);
      DropWithin(b, x, p.used);
      DecodeOne(table, b + x, p, behind + x);
      DecodeOne(table, b, p, behind);
      if p.Done? {
        ThenAssociates(Outcome([p.message], []), first, DecodeAll(table, first.rest + x));
      }
    }
  }

  lemma {:induction false} NothingThen(o: Outcome, rest: seq<Byte>)
    ensures Then(Outcome([], rest), o) == o
  {
    assert [] + o.messages == o.messages;
  }

  /** What one readyRead leaves behind, decoded to the end, completes it. */
  lemma {:induction false} ReadyReadIsPrefix(table: Table, b: seq<Byte>)
    ensures DecodeAll(table, b) == Then(ReadyRead(table, b), DecodeAll(table, ReadyRead(table, b).rest))
    decreases |b|
  {
    var p := Parse(table, b);
    if p.Done? {
      var now := ReadyRead(table, b[p.used..]);
      ReadyReadIsPrefix(table, b[p.used..]);
      ThenAssociates(Outcome([p.message], []), now, DecodeAll(table, now.rest));
    } else {
      var rest := ReadyRead(table, b).rest;
      NothingThen(DecodeAll(table, rest), rest);
    }
  }

  lemma {:induction false} CleanNeverStopsEarly(table: Table, b: seq<Byte>)
    requires Clean(table, b)
    ensures ReadyRead(table, b) == DecodeAll(table, b)
    decreases |b|
  {
    var p := Parse(table, b);
    if p.Done? {
      CleanNeverStopsEarly(table, b[p.used..]);
    }
  }

  lemma {:induction false} CleanSplits(table: Table, b: seq<Byte>, x: seq<Byte>)
    requires Clean(table, b + x)
    ensures Clean(table, b) && Clean(table, DecodeAll(table, b).rest + x)
    decreases |b|
  {
    ParseStable(table, b, x);
    var p := Parse(table, b);
    if p.Done? {
      assert (b + x)[p.used..] == b[p.used..] + x;
      CleanSplits(table, b[p.used..], x);
    } else {
      assert p.NeedMore?;
    }
  }

  /** For any stream and any split, the messages committed so far are a prefix of those of
      the whole stream, and decoding the leftover yields exactly the missing ones. */
  lemma {:induction false} ChunkingGivesPrefix(table: Table, chunks: seq<seq<Byte>>)
    ensures DecodeAll(table, Concat(chunks)) == Then(Feed(table, chunks), DecodeAll(table, Feed(table, chunks).rest))
  {
    if chunks == [] {
      NothingThen(DecodeAll(table, []), []);
    } else {
      var prior, chunk := chunks[..|chunks| - 1], chunks[|chunks| - 1];
      var before := Feed(table, prior);
      var mid := DecodeAll(table, before.rest);
      var now := ReadyRead(table, before.rest + chunk);
      ChunkingGivesPrefix(table, prior);
      DecodeResumes(table, Concat(prior), chunk);
      DecodeResumes(table, before.rest, chunk);
      ThenAssociates(before, mid, DecodeAll(table, mid.rest + chunk));
      ReadyReadIsPrefix(table, before.rest + chunk);
      ThenAssociates(before, now, DecodeAll(table, now.rest));
    }
  }

  /** For a stream of known, well-formed messages the split does not matter at all: the
      messages and the leftover are those of decoding the whole stream at once. */
  lemma {:induction false} ChunkingDoesNotMatter(table: Table, chunks: seq<seq<Byte>>)
    requires Clean(table, Concat(chunks))
    ensures Feed(table, chunks) == DecodeAll(table, Concat(chunks))
  {
    if chunks != [] {
      var prior, chunk := chunks[..|chunks| - 1], chunks[|chunks| - 1];
      CleanSplits(table, Concat(prior), chunk);
      ChunkingDoesNotMatter(table, prior);
      CleanNeverStopsEarly(table, Feed(table, prior).rest + chunk);
      DecodeResumes(table, Concat(prior), chunk);
    }
  }

  // ----- when nothing is left behind ------------------------------------------------

  /** The bytes behind the first unknown tag or corrupt message, if there is one. */
  function Behind(table: Table, b: seq<Byte>): Option<seq<Byte>>
    decreases |b|
  {
    match Parse(table, b)
    case NeedMore => None
    case Bad(used) => Some(b[used..])
    case Unknown(used) => Some(b[used..])
    case Done(_, used) => Behind(table, b[used..])
  }

  lemma {:induction false} DecodingShortens(table: Table, b: seq<Byte>)
    ensures |DecodeAll(table, b).rest| <= |b|
    ensures DecodeAll(table, b) == Outcome([], b) <==> Parse(table, b).NeedMore?
    decreases |b|
  {
    var p := Parse(table, b);
    if !p.NeedMore? {
      DecodingShortens(table, b[p.used..]);
    }
  }

  /** Adding an outcome changes nothing exactly when it has no message and the same rest. */
  lemma {:induction false} ThenUnchanged(a: Outcome, b: Outcome)
    ensures Then(a, b) == a <==> b == Outcome([], a.rest)
  {
    assert a.messages + [] == a.messages;
  }

  /** One call decodes the whole buffer if and only if what lies behind the first unknown or
      corrupt message, if there is one, is not a whole message. */
  lemma {:induction false} ReadyReadIsWholeIff(table: Table, b: seq<Byte>)
    ensures ReadyRead(table, b) == DecodeAll(table, b)
            <==> (Behind(table, b).Some? ==> Parse(table, Behind(table, b).value).NeedMore?)
    decreases |b|
  {
    ReadyReadIsPrefix(table, b);
    ThenUnchanged(ReadyRead(table, b), DecodeAll(table, ReadyRead(table, b).rest));
    DecodingShortens(table, ReadyRead(table, b).rest);
    RestIsBehind(table, b);
  }

  lemma {:induction false} RestIsBehind(table: Table, b: seq<Byte>)
    ensures Behind(table, b).Some? ==> ReadyRead(table, b).rest == Behind(table, b).value
    ensures Behind(table, b).None? ==> Parse(table, ReadyRead(table, b).rest).NeedMore?
    decreases |b|
  {
    var p := Parse(table, b);
    if p.Done? {
      RestIsBehind(table, b[p.used..]);
    }
  }

  /** For any stream and any split, everything decodable was committed if and only if what lies
      behind the first unknown or corrupt message of the last call's buffer, if there is one, is
      not a whole message. */
  lemma {:induction false} NothingDelayedIff(table: Table, prior: seq<seq<Byte>>, chunk: seq<Byte>)
    ensures var b := Feed(table, prior).rest + chunk;
            Feed(table, prior + [chunk]) == DecodeAll(table, Concat(prior + [chunk]))
            <==> (Behind(table, b).Some? ==> Parse(table, Behind(table, b).value).NeedMore?)
  {
    var chunks := prior + [chunk];
    assert chunks[..|chunks| - 1] == prior;
    var fed := Feed(table, chunks);
    ChunkingGivesPrefix(table, chunks);
    ThenUnchanged(fed, DecodeAll(table, fed.rest));
    DecodingShortens(table, fed.rest);
    RestIsBehind(table, Feed(table, prior).rest + chunk);
  }

  // ----- round trip -----------------------------------------------------------

  predicate Sendable(table: Table, tag: U32, m: Message) {
    tag in table && table[tag] == m.kind && FieldsWritable(m.fields) && Fits(m.fields, Shapes(m.kind))
  }

  function Send(tag: U32, m: Message): seq<Byte>
    requires FieldsWritable(m.fields)
  {
    WriteNumber(tag) + WriteFields(m.fields)
  }

  predicate AllSendable(table: Table, tags: seq<U32>, ms: seq<Message>) {
    |tags| == |ms| && forall k :: 0 <= k < |ms| ==> Sendable(table, tags[k], ms[k])
  }

  function SendAll(table: Table, tags: seq<U32>, ms: seq<Message>): seq<Byte>
    requires AllSendable(table, tags, ms)
  {
    if ms == [] then [] else Send(tags[0], ms[0]) + SendAll(table, tags[1..], ms[1..])
  }

  lemma {:induction false} ParseSent(table: Table, tag: U32, m: Message)
    requires Sendable(table, tag, m)
    ensures Parse(table, Send(tag, m)) == Done(m, |Send(tag, m)|)
  {
    var b := Send(tag, m);
    NumberRoundTrip(tag);
    assert NumberAt(b) == NumberAt(WriteNumber(tag));
    assert b[4..] == WriteFields(m.fields);
    FieldsRoundTrip(m.fields, Shapes(m.kind));
  }

  lemma {:induction false} SentIsClean(table: Table, tags: seq<U32>, ms: seq<Message>)
    requires AllSendable(table, tags, ms)
    ensures Clean(table, SendAll(table, tags, ms)) && DecodeAll(table, SendAll(table, tags, ms)) == Outcome(ms, [])
    decreases |ms|
  {
    if ms != [] {
      var first, rest := Send(tags[0], ms[0]), SendAll(table, tags[1..], ms[1..]);
      ParseSent(table, tags[0], ms[0]);
      ParseStable(table, first, rest);
      assert (first + rest)[|first|..] == rest;
      SentIsClean(table, tags[1..], ms[1..]);
      assert [ms[0]] + ms[1..] == ms;
    }
  }

  /** However the socket delivers what the daemon sent, the greeter commits exactly the
      messages sent, in order, and keeps nothing back. */
  lemma {:induction false} DeliveredExactly(table: Table, tags: seq<U32>, ms: seq<Message>, chunks: seq<seq<Byte>>)
    requires AllSendable(table, tags, ms) && Concat(chunks) == SendAll(table, tags, ms)
    ensures Feed(table, chunks) == Outcome(ms, [])
  {
    SentIsClean(table, tags, ms);
    ChunkingDoesNotMatter(table, chunks);
  }

  /** An unknown tag makes readyRead return with complete messages still buffered; they wait
      for the next arrival. */
  lemma {:induction false} UnknownTagDelays(table: Table, tag: U32, tags: seq<U32>, ms: seq<Message>)
    requires AllSendable(table, tags, ms) && tag !in table
    ensures var b := WriteNumber(tag) + SendAll(table, tags, ms);
            && ReadyRead(table, b) == Outcome([], SendAll(table, tags, ms))
            && DecodeAll(table, b) == Outcome(ms, [])
            && Feed(table, [b, []]) == Outcome(ms, [])
  {
    var sent := SendAll(table, tags, ms);
    var b := WriteNumber(tag) + sent;
    NumberRoundTrip(tag);
    assert NumberAt(b) == NumberAt(WriteNumber(tag));
    assert b[4..] == sent;
    SentIsClean(table, tags, ms);
    CleanNeverStopsEarly(table, sent);
    assert [b, []][..1] == [b] && [b][..0] == [];
    assert [] + b == b && sent + [] == sent;
    NothingThen(Outcome([], sent), []);
    assert Feed(table, [b]) == Outcome([], sent);
    NothingThen(Outcome(ms, []), sent);
  }
}
