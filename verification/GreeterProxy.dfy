/** The transactional reader and the decoding loop of src/greeter/greeterproxy.cpp, with the
    two members that loop writes itself. */
module GreeterProxy {
  import opened WireFormat
  import opened GreeterStream

  datatype Status = Ok | ReadPastEnd | ReadCorruptData

  /** How a read of type `r` leaves value, position and status. */
  ghost predicate Leaves<T>(r: Read<T>, value: T, from: nat, pos: nat, status: Status) {
    match r
    case Got(v, used) => status == Ok && value == v && pos == from + used
    case Short => status == ReadPastEnd
    case Corrupt(used) => status == ReadCorruptData && pos == from + used
  }

  const EMPTY_TEXT := Text([])

  /** A QDataStream in a transaction on a buffered device. */
  class DataStream {
    var data: seq<Byte>
    var pos: nat
    var status: Status

    constructor (data: seq<Byte>)
      ensures this.data == data && Valid() && pos == 0 && status == Ok
    {
      this.data, pos, status := data, 0, Ok;
    }

    predicate Valid()
      reads this
    {
      pos <= |data|
    }

    method StartTransaction()
      modifies this`pos, this`status
      ensures Valid() && pos == 0 && status == Ok
    {
      pos, status := 0, Ok;
    }

    /** Reads fail silently once the transaction has failed. */
    method ReadQuint32() returns (n: U32)
      requires Valid()
      modifies this`pos, this`status
      ensures Valid()
      ensures old(status) != Ok ==> n == 0 && pos == old(pos) && status == old(status)
      ensures old(status) == Ok ==> Leaves(ReadNumber(data[old(pos)..]), n, old(pos), pos, status)
      ensures status != Ok ==> n == 0 && pos == old(pos)
    {
      if status != Ok {
        return 0;
      }
      if |data| - pos < 4 {
        status := ReadPastEnd;
        return 0;
      }
      n := NumberAt(data[pos..]);
      pos := pos + 4;
    }

    method ReadQString() returns (s: Str)
      requires Valid()
      modifies this`pos, this`status
      ensures Valid()
      ensures old(status) != Ok ==> s == EMPTY_TEXT && pos == old(pos) && status == old(status)
      ensures old(status) == Ok ==> Leaves(ReadStr(data[old(pos)..]), s, old(pos), pos, status)
      ensures old(status) == Ok && status != Ok ==> s == if |data| - old(pos) < 4 then EMPTY_TEXT else Null
    {
      ghost var ahead := data[pos..];
      var length: int := ReadQuint32();
      if length == NULL_LENGTH {
        s := Null;
      } else if length == 0 {
        s := EMPTY_TEXT;
        assert old(status) == Ok && |ahead| >= 4 ==> UnitsOf(ahead[4..4]) == [];
      } else if length % 2 == 1 {
        s := Null;
        status := ReadCorruptData;
      } else if |data| - pos < length {
        s := Null;
        status := ReadPastEnd;
      } else {
        assert data[pos..pos + length] == ahead[4..4 + length];
        s := Text(UnitsOf(data[pos..pos + length]));
        pos := pos + length;
      }
    }

    /** The next string of a list read `all` that began at `start` and got `ss` so far. */
    method ReadNext(ghost all: Read<seq<Str>>, ghost ss: seq<Str>, ghost start: nat, ghost n: nat) returns (s: Str)
      requires Valid() && status == Ok && start <= pos && n > 0
      requires Continues(all, ss, pos - start, data[pos..], n)
      modifies this`pos, this`status
      ensures Valid()
      ensures status == Ok ==> start <= pos && Continues(all, ss + [s], pos - start, data[pos..], n - 1)
      ensures status != Ok ==> !all.Got? && Leaves(all, [], start, pos, status)
    {
      ghost var before, ahead := pos, data[pos..];
      StrsStep(ahead, n, ss, pos - start);
      s := ReadQString();
      if status == Ok {
        assert ahead[pos - before..] == data[pos..];
      }
    }

    /** The strings of a list, stopping at the first that fails. */
    method ReadStrings(count: nat) returns (ss: seq<Str>)
      requires Valid() && status == Ok
      modifies this`pos, this`status
      ensures Valid() && Leaves(ReadStrs(data[old(pos)..], count), ss, old(pos), pos, status)
    {
      ghost var start, all := pos, ReadStrs(data[pos..], count);
      ss := [];
      ResumedNothing(all);
      for i := 0 to count
        invariant Valid() && status == Ok && start <= pos
        invariant Continues(all, ss, pos - start, data[pos..], count - i)
      {
        var s := ReadNext(all, ss, start, count - i);
        if status != Ok {
          return [];
        }
        ss := ss + [s];
      }
      NoneLeft(all, ss, pos - start, data[pos..]);
    }

    method ReadQStringList() returns (ss: seq<Str>)
      requires Valid()
      modifies this`pos, this`status
      ensures Valid()
      ensures old(status) != Ok ==> pos == old(pos) && status == old(status)
      ensures old(status) == Ok ==> Leaves(ReadMany(data[old(pos)..]), ss, old(pos), pos, status)
    {
      ghost var from := pos;
      var count := ReadQuint32();
      if status != Ok {
        return [];
      }
      assert data[from..][4..] == data[pos..];
      ss := ReadStrings(count);
    }

    method ReadOne(shape: Shape) returns (f: Field)
      requires Valid()
      modifies this`pos, this`status
      ensures Valid()
      ensures old(status) != Ok ==> pos == old(pos) && status == old(status)
      ensures old(status) == Ok ==> Leaves(ReadField(data[old(pos)..], shape), f, old(pos), pos, status)
    {
      match shape
      case NumberShape => var n := ReadQuint32(); f := Number(n);
      case SingleShape => var s := ReadQString(); f := Single(s);
      case ManyShape => var ss := ReadQStringList(); f := Many(ss);
    }

    method ReadTwo(first: Shape, second: Shape) returns (fields: seq<Field>)
      requires Valid()
      modifies this`pos, this`status
      ensures Valid()
      ensures old(status) != Ok ==> pos == old(pos) && status == old(status)
      ensures old(status) == Ok ==> Leaves(ReadFields(data[old(pos)..], [first, second]), fields, old(pos), pos, status)
    {
      ghost var from, ahead := pos, data[pos..];
      TwoFields(ahead, first, second);
      FieldStable(ahead, [], first);
      var f := ReadOne(first);
      assert pos >= from ==> ahead[pos - from..] == data[pos..];
      var g := ReadOne(second);
      fields := [f, g];
    }

    method CommitTransaction() returns (ok: bool)
      requires Valid()
      modifies this
      ensures ok <==> old(status) == Ok
      ensures data == if old(status) == ReadPastEnd then old(data) else old(data)[old(pos)..]
      ensures Valid() && pos == 0
    {
      ok := status == Ok;
      if status != ReadPastEnd {
        data := data[pos..];
      }
      pos := 0;
    }
  }

  /** A list read that already got `ss` in `used` bytes and goes on with `rest`. */
  function Resumed(ss: seq<Str>, used: nat, rest: Read<seq<Str>>): Read<seq<Str>> {
    match rest
    case Got(more, n) => Got(ss + more, used + n)
    case Short => Short
    case Corrupt(n) => Corrupt(used + n)
  }

  ghost predicate Continues(all: Read<seq<Str>>, ss: seq<Str>, used: nat, b: seq<Byte>, n: nat) {
    all == Resumed(ss, used, ReadStrs(b, n))
  }

  lemma {:induction false} NoneLeft(all: Read<seq<Str>>, ss: seq<Str>, used: nat, b: seq<Byte>)
    requires Continues(all, ss, used, b, 0)
    ensures all == Got(ss, used)
  {
    assert ss + [] == ss;
  }

  lemma {:induction false} ResumedNothing(r: Read<seq<Str>>)
    ensures Resumed([], 0, r) == r
  {
    if r.Got? {
      assert [] + r.value == r.value;
    }
  }

  /** One string of a list: it ends the list read or is added to it. */
  lemma {:induction false} StrsStep(b: seq<Byte>, count: nat, ss: seq<Str>, used: nat)
    requires count > 0
    ensures ReadStr(b).Got? ==>
              && ReadStr(b).used <= |b|
              && Resumed(ss, used, ReadStrs(b, count))
                 == Resumed(ss + [ReadStr(b).value], used + ReadStr(b).used, ReadStrs(b[ReadStr(b).used..], count - 1))
    ensures ReadStr(b).Short? ==> Resumed(ss, used, ReadStrs(b, count)) == Short
    ensures ReadStr(b).Corrupt? ==> Resumed(ss, used, ReadStrs(b, count)) == Corrupt(used + ReadStr(b).used)
  {
    StrStable(b, []);
    var r := ReadStr(b);
    if r.Got? {
      var rest := ReadStrs(b[r.used..], count - 1);
      if rest.Got? {
        assert ss + ([r.value] + rest.value) == ss + [r.value] + rest.value;
      }
    }
  }

  // ----- the members the loop writes ------------------------------------------------

  /** The tag the switch sees: an incomplete tag reads as 0. */
  function TagSeen(b: seq<Byte>): U32 {
    if |b| < 4 then 0 else NumberAt(b)
  }

  predicate AboutHost(table: Table, b: seq<Byte>) {
    TagSeen(b) in table && table[TagSeen(b)] == HostName
  }

  /** What a failed read of the host name leaves in m_hostName. */
  function BlankHost(b: seq<Byte>): Str {
    if |b| < 8 then EMPTY_TEXT else Null
  }

  predicate NamesHost(m: Message) {
    m.kind == HostName && |m.fields| == 1 && m.fields[0].Single?
  }

  function HostOf(m: Message, host: Str): Str {
    if NamesHost(m) then m.fields[0].s else host
  }

  /** m_hostName after one readyRead: the field is read straight into the member, so a
      transaction that fails still overwrites it. */
  function HostAfter(table: Table, b: seq<Byte>, host: Str): Str
    decreases |b|
  {
    if b == [] then host
    else match Parse(table, b)
      case Done(m, used) => HostAfter(table, b[used..], HostOf(m, host))
      case Unknown(_) => host
      case _ => if AboutHost(table, b) then BlankHost(b) else host
  }

  function Failures(ms: seq<Message>): nat {
    if ms == [] then 0 else Failures(ms[..|ms| - 1]) + if ms[|ms| - 1].kind == LoginFailed then 1 else 0
  }

  class Proxy {
    const table: Table
    const socket: DataStream
    var hostName: Str
    var failedAttempts: nat
    var delivered: seq<Message>

    constructor (table: Table, socket: DataStream)
      ensures this.table == table && this.socket == socket
      ensures hostName == Null && failedAttempts == 0 && delivered == []
    {
      this.table, this.socket := table, socket;
      hostName, failedAttempts, delivered := Null, 0, [];
    }

    /** The reads of one case of the switch, the host name straight into its member. */
    method ReadCase(kind: Kind) returns (fields: seq<Field>)
      requires socket.Valid()
      modifies socket`pos, socket`status, this`hostName
      ensures socket.Valid()
      ensures old(socket.status) != Ok ==> socket.pos == old(socket.pos) && socket.status == old(socket.status)
      ensures old(socket.status) == Ok ==>
                Leaves(ReadFields(socket.data[old(socket.pos)..], Shapes(kind)), fields, old(socket.pos), socket.pos,
                       socket.status)
      ensures kind != HostName ==> hostName == old(hostName)
      ensures kind == HostName && socket.status == Ok ==> fields == [Single(hostName)]
      ensures kind == HostName && socket.status != Ok ==>
                hostName == if old(socket.status) != Ok || |socket.data| - old(socket.pos) < 4 then EMPTY_TEXT else Null
    {
      ghost var from, data := socket.pos, socket.data;
      match kind
      case Capabilities =>
        var n := socket.ReadQuint32();
        fields := [Number(n)];
        OneField(data[from..], NumberShape);
      case HostName =>
        hostName := socket.ReadQString();
        fields := [Single(hostName)];
        OneField(data[from..], SingleShape);
      case LoginFailed =>
        var s := socket.ReadQString();
        fields := [Single(s)];
        OneField(data[from..], SingleShape);
      case InformationMessage =>
        var s := socket.ReadQString();
        fields := [Single(s)];
        OneField(data[from..], SingleShape);
      case SwitchToGreeter =>
        fields := [];
      case ShowGreeter =>
        fields := [];
      case LastLogin =>
        fields := socket.ReadTwo(SingleShape, SingleShape);
      case SessionDirs =>
        fields := socket.ReadTwo(ManyShape, ManyShape);
      case UserActivateMessage =>
        fields := socket.ReadTwo(SingleShape, SingleShape);
      case UserLoggedIn =>
        fields := socket.ReadTwo(SingleShape, SingleShape);
    }

    /** The transaction of one pass; `m` is the message if it was committed. */
    method ReadTransaction() returns (ok: bool, m: Message)
      requires socket.data != []
      modifies socket, this`hostName
      ensures var p := Parse(table, old(socket.data));
              && ok == p.Done? && (ok ==> m == p.message)
              && socket.data == (if p.NeedMore? then old(socket.data) else old(socket.data)[p.used..])
      ensures var p := Parse(table, old(socket.data));
              hostName == (if p.Done? then HostOf(p.message, old(hostName))
                           else HostAfter(table, old(socket.data), old(hostName)))
    {
      ghost var b := socket.data;
      assert b[0..] == b;
      m := Message(HostName, []);
      socket.StartTransaction();
      var tag := socket.ReadQuint32();
      if tag !in table {
        var _ := socket.CommitTransaction();
        return false, m;
      }
      var fields := ReadCase(table[tag]);
      ok := socket.CommitTransaction();
      m := Message(table[tag], fields);
    }

    /** One pass of the loop; `again` is false when readyRead returns. */
    method ReadMessage() returns (again: bool)
      requires socket.data != []
      modifies socket, this
      ensures var p := Parse(table, old(socket.data));
              && (again <==> p.Done?)
              && socket.data == (if p.NeedMore? then old(socket.data) else old(socket.data)[p.used..])
              && delivered == (if p.Done? then old(delivered) + [p.message] else old(delivered))
              && failedAttempts == old(failedAttempts) + (if p.Done? && p.message.kind == LoginFailed then 1 else 0)
              && hostName == (if p.Done? then HostOf(p.message, old(hostName))
                              else HostAfter(table, old(socket.data), old(hostName)))
    {
      var m;
      again, m := ReadTransaction();
      if again {
        delivered := delivered + [m];
        if m.kind == LoginFailed {
          failedAttempts := failedAttempts + 1;
        }
      }
    }

    method ReadyRead()
      modifies socket, this
      ensures var out := GreeterStream.ReadyRead(table, old(socket.data));
              delivered == old(delivered) + out.messages && socket.data == out.rest
      ensures hostName == HostAfter(table, old(socket.data), old(hostName))
      ensures failedAttempts + Failures(old(delivered)) == old(failedAttempts) + Failures(delivered)
    {
      ghost var b, host := socket.data, hostName;
      ghost var out := GreeterStream.ReadyRead(table, b);
      var again := true;
      while again && socket.data != []
        invariant again ==> Then(Outcome(old(delivered), []), out)
                            == Then(Outcome(delivered, []), GreeterStream.ReadyRead(table, socket.data))
        invariant again ==> HostAfter(table, b, host) == HostAfter(table, socket.data, hostName)
        invariant !again ==> Outcome(delivered, socket.data) == Then(Outcome(old(delivered), []), out)
                             && hostName == HostAfter(table, b, host)
        invariant failedAttempts + Failures(old(delivered)) == old(failedAttempts) + Failures(delivered)
        decreases again, |socket.data|
      {
        ghost var was, data := delivered, socket.data;
        ReadyReadStep(table, data, was);
        again := ReadMessage();
        assert again ==> delivered[..|delivered| - 1] == was;
      }
      if again {
        assert delivered + [] == delivered;
      }
    }
  }

  /** One pass of the loop on the outcome. */
  lemma {:induction false} ReadyReadStep(table: Table, b: seq<Byte>, was: seq<Message>)
    ensures var p := Parse(table, b);
            Then(Outcome(was, []), ReadyRead(table, b))
            == if p.Done? then Then(Outcome(was + [p.message], []), ReadyRead(table, b[p.used..]))
               else Outcome(was, if p.NeedMore? then b else b[p.used..])
  {
    var p := Parse(table, b);
    if p.Done? {
      ThenAssociates(Outcome(was, []), Outcome([p.message], []), ReadyRead(table, b[p.used..]));
    } else {
      assert was + [] == was;
    }
  }

  /** The reads of a message of one field. */
  function Alone(r: Read<Field>): Read<seq<Field>> {
    match r
    case Got(f, used) => Got([f], used)
    case Short => Short
    case Corrupt(used) => Corrupt(used)
  }

  /** The reads of a message of two fields. */
  function Both(b: seq<Byte>, first: Shape, second: Shape): Read<seq<Field>> {
    match ReadField(b, first)
    case Short => Short
    case Corrupt(used) => Corrupt(used)
    case Got(f, used) =>
      if used > |b| then Short
      else match ReadField(b[used..], second)
        case Short => Short
        case Corrupt(more) => Corrupt(used + more)
        case Got(g, more) => Got([f, g], used + more)
  }

  lemma {:induction false} OneField(b: seq<Byte>, shape: Shape)
    ensures ReadFields(b, [shape]) == Alone(ReadField(b, shape))
  {
    FieldStable(b, [], shape);
    var r := ReadField(b, shape);
    if r.Got? {
      assert [shape][1..] == [];
      assert [r.value] + [] == [r.value];
    }
  }

  lemma {:induction false} TwoFields(b: seq<Byte>, first: Shape, second: Shape)
    ensures ReadFields(b, [first, second]) == Both(b, first, second)
  {
    var r := ReadField(b, first);
    assert [first, second][1..] == [second];
    if r.Got? && r.used <= |b| {
      OneField(b[r.used..], second);
      var q := ReadField(b[r.used..], second);
      if q.Got? {
        assert [r.value] + [q.value] == [r.value, q.value];
      }
    }
  }

  // ----- what the host name shows over a whole stream --------------------------------

  /** The host name of the last HostName message. */
  function LastHost(host: Str, ms: seq<Message>): Str
    decreases |ms|
  {
    if ms == [] then host else LastHost(HostOf(ms[0], host), ms[1..])
  }

  /** The member while `rest` is buffered: blank when `rest` begins an incomplete host name. */
  function Shown(table: Table, host: Str, rest: seq<Byte>): Str {
    if rest != [] && AboutHost(table, rest) then BlankHost(rest) else host
  }

  function FeedHost(table: Table, chunks: seq<seq<Byte>>, host: Str): Str {
    if chunks == [] then host
    else
      var prior := chunks[..|chunks| - 1];
      HostAfter(table, Feed(table, prior).rest + chunks[|chunks| - 1], FeedHost(table, prior, host))
  }

  lemma {:induction false} LastHostAppends(host: Str, a: seq<Message>, b: seq<Message>)
    ensures LastHost(host, a + b) == LastHost(LastHost(host, a), b)
    decreases |a|
  {
    if a == [] {
      assert a + b == b;
    } else {
      assert (a + b)[1..] == a[1..] + b;
      LastHostAppends(HostOf(a[0], host), a[1..], b);
    }
  }

  lemma {:induction false} HostAfterOneRead(table: Table, b: seq<Byte>, host: Str)
    requires Clean(table, b)
    ensures var out := ReadyRead(table, b);
            HostAfter(table, b, host) == Shown(table, LastHost(host, out.messages), out.rest)
    decreases |b|
  {
    var p := Parse(table, b);
    if p.Done? {
      HostAfterOneRead(table, b[p.used..], HostOf(p.message, host));
      var out, more := ReadyRead(table, b), ReadyRead(table, b[p.used..]);
      assert out.messages[1..] == more.messages;
    }
  }

  lemma {:induction false} HostMessageHasOneText(table: Table, b: seq<Byte>)
    requires Parse(table, b).Done? && Parse(table, b).message.kind == HostName
    ensures |Parse(table, b).message.fields| == 1 && Parse(table, b).message.fields[0].Single?
  {
    OneField(b[4..], SingleShape);
  }

  /** A stream that begins with a whole HostName tag overwrites the member whatever it was. */
  lemma {:induction false} HostOverwritten(table: Table, b: seq<Byte>, host: Str, other: Str)
    requires |b| >= 4 && AboutHost(table, b)
    ensures HostAfter(table, b, host) == HostAfter(table, b, other)
  {
    if Parse(table, b).Done? {
      HostMessageHasOneText(table, b);
    }
  }

  predicate HasHost(ms: seq<Message>) {
    ms != [] && (NamesHost(ms[0]) || HasHost(ms[1..]))
  }

  /** Without a host name among the messages the member stays; with one it no longer matters
      what it was. */
  lemma {:induction false} LastHostDepends(ms: seq<Message>, host: Str, other: Str)
    ensures HasHost(ms) ==> LastHost(host, ms) == LastHost(other, ms)
    ensures !HasHost(ms) ==> LastHost(host, ms) == host
    decreases |ms|
  {
    if ms != [] {
      LastHostDepends(ms[1..], HostOf(ms[0], host), HostOf(ms[0], other));
    }
  }

  /** The buffered bytes begin an incomplete host name, or are a part of a tag that reads so. */
  predicate Partial(table: Table, rest: seq<Byte>) {
    rest != [] && AboutHost(table, rest)
  }

  /** The blank left by a part of a tag, numbered as if it were HostName, is still there: no host
      name has begun or arrived since. */
  predicate Stale(table: Table, chunks: seq<seq<Byte>>) {
    if chunks == [] then false
    else
      var prior := chunks[..|chunks| - 1];
      var before := Feed(table, prior);
      var out := ReadyRead(table, before.rest + chunks[|chunks| - 1]);
      && !Partial(table, out.rest) && !HasHost(out.messages)
      && (Stale(table, prior) || (Partial(table, before.rest) && |before.rest| < 4))
  }

  /** A whole HostName tag at the front leads to a host name or stays incomplete. */
  lemma {:induction false} BegunHostArrives(table: Table, b: seq<Byte>)
    requires Clean(table, b) && |b| >= 4 && AboutHost(table, b)
    ensures Partial(table, ReadyRead(table, b).rest) || HasHost(ReadyRead(table, b).messages)
  {
    var p := Parse(table, b);
    if p.Done? {
      HostMessageHasOneText(table, b);
      assert ReadyRead(table, b).messages[0] == p.message;
    }
  }

  /** What one call makes of the member as `prior` calls left it. */
  lemma {:induction false} HostStep(table: Table, host: Str, was: Str, before: Outcome, chunk: seq<Byte>)
    requires Clean(table, before.rest + chunk)
    ensures var b := before.rest + chunk;
            var out := ReadyRead(table, b);
            var fed := Then(before, out);
            && (Partial(table, out.rest) || HasHost(out.messages)
                ==> HostAfter(table, b, was) == Shown(table, LastHost(host, fed.messages), fed.rest))
            && (!Partial(table, out.rest) && !HasHost(out.messages) ==> HostAfter(table, b, was) == was)
            && (!Partial(table, out.rest) && !HasHost(out.messages)
                ==> Shown(table, LastHost(host, fed.messages), fed.rest) == LastHost(host, before.messages))
            && (Partial(table, before.rest) && |before.rest| >= 4 ==> Partial(table, out.rest) || HasHost(out.messages))
  {
    var b := before.rest + chunk;
    var out := ReadyRead(table, b);
    HostAfterOneRead(table, b, was);
    LastHostAppends(host, before.messages, out.messages);
    LastHostDepends(out.messages, was, LastHost(host, before.messages));
    LastHostDepends(out.messages, LastHost(host, before.messages), was);
    if Partial(table, before.rest) && |before.rest| >= 4 {
      assert NumberAt(b) == NumberAt(before.rest);
      BegunHostArrives(table, b);
    }
  }

  /** The member after every clean stream and every split: stale and blank, or the last host
      name committed, shown blank while the next is incomplete. */
  lemma {:induction false} HostNameExactly(table: Table, chunks: seq<seq<Byte>>, host: Str)
    requires Clean(table, Concat(chunks))
    ensures var fed := Feed(table, chunks);
            FeedHost(table, chunks, host)
            == if Stale(table, chunks) then EMPTY_TEXT else Shown(table, LastHost(host, fed.messages), fed.rest)
  {
    if chunks != [] {
      var prior, chunk := chunks[..|chunks| - 1], chunks[|chunks| - 1];
      CleanSplits(table, Concat(prior), chunk);
      ChunkingDoesNotMatter(table, prior);
      HostNameExactly(table, prior, host);
      HostStep(table, host, FeedHost(table, prior, host), Feed(table, prior), chunk);
    }
  }

  /** Some call before the last left a part of a tag buffered. */
  predicate TagSplit(table: Table, chunks: seq<seq<Byte>>) {
    if chunks == [] then false
    else
      var prior := chunks[..|chunks| - 1];
      TagSplit(table, prior) || 1 <= |Feed(table, prior).rest| <= 3
  }

  lemma {:induction false} StaleNeedsSplitTag(table: Table, chunks: seq<seq<Byte>>)
    requires Stale(table, chunks)
    ensures 0 in table && table[0] == HostName && TagSplit(table, chunks)
  {
    var prior := chunks[..|chunks| - 1];
    if Stale(table, prior) {
      StaleNeedsSplitTag(table, prior);
    }
  }

  /** Unless HostName is numbered 0 and some tag was split, the member follows the committed
      messages for every clean stream and every split, except that it is blank while a host
      name is incomplete. */
  lemma {:induction false} HostNameFollowsMessages(table: Table, chunks: seq<seq<Byte>>, host: Str)
    requires Clean(table, Concat(chunks))
    requires 0 in table && table[0] == HostName ==> !TagSplit(table, chunks)
    ensures var fed := Feed(table, chunks);
            FeedHost(table, chunks, host) == Shown(table, LastHost(host, fed.messages), fed.rest)
  {
    HostNameExactly(table, chunks, host);
    if Stale(table, chunks) {
      StaleNeedsSplitTag(table, chunks);
    }
  }

  /** When HostName is numbered 0, a split inside the tag of any other message blanks the
      host name for good, although every message arrives. */
  lemma {:induction false} SplitTagBlanksHostName(table: Table, tag: U32, m: Message, k: nat, host: Str)
    requires 0 in table && table[0] == HostName
    requires Sendable(table, tag, m) && m.kind != HostName && 1 <= k <= 3
    ensures var chunks := [Send(tag, m)[..k], Send(tag, m)[k..]];
            && Feed(table, chunks) == Outcome([m], [])
            && LastHost(host, [m]) == host
            && FeedHost(table, chunks, host) == EMPTY_TEXT
  {
    var b := Send(tag, m);
    assert b[..k] + b[k..] == b;
    HeadBlanks(table, b[..k], host);
    ReadWhole(table, tag, m, EMPTY_TEXT);
    SplitRead(table, b[..k], b[k..], m, host);
  }

  /** A first chunk that blanks the host name and a second that completes another message. */
  lemma {:induction false} SplitRead(table: Table, head: seq<Byte>, tail: seq<Byte>, m: Message, host: Str)
    requires m.kind != HostName
    requires ReadyRead(table, head) == Outcome([], head) && HostAfter(table, head, host) == EMPTY_TEXT
    requires ReadyRead(table, head + tail) == Outcome([m], [])
             && HostAfter(table, head + tail, EMPTY_TEXT) == EMPTY_TEXT
    ensures Feed(table, [head, tail]) == Outcome([m], []) && FeedHost(table, [head, tail], host) == EMPTY_TEXT
    ensures LastHost(host, [m]) == host
  {
    FeedTwo(table, head, tail, host);
    NothingThen(Outcome([m], []), head);
    assert [m][1..] == [];
  }

  lemma {:induction false} HeadBlanks(table: Table, head: seq<Byte>, host: Str)
    requires 0 in table && table[0] == HostName && 1 <= |head| <= 3
    ensures ReadyRead(table, head) == Outcome([], head) && HostAfter(table, head, host) == EMPTY_TEXT
  {
  }

  lemma {:induction false} ReadWhole(table: Table, tag: U32, m: Message, host: Str)
    requires Sendable(table, tag, m)
    ensures ReadyRead(table, Send(tag, m)) == Outcome([m], [])
    ensures HostAfter(table, Send(tag, m), host) == HostOf(m, host)
  {
    var b := Send(tag, m);
    ParseSent(table, tag, m);
    assert b[|b|..] == [];
    assert [m] + [] == [m];
  }

  /** Two chunks are two reads. */
  lemma {:induction false} FeedTwo(table: Table, head: seq<Byte>, tail: seq<Byte>, host: Str)
    ensures var first := ReadyRead(table, head);
            && Feed(table, [head, tail]) == Then(first, ReadyRead(table, first.rest + tail))
            && FeedHost(table, [head, tail], host) == HostAfter(table, first.rest + tail, HostAfter(table, head, host))
  {
    assert [head, tail][..1] == [head] && [head][..0] == [];
    NothingThen(ReadyRead(table, head), []);
    assert Feed(table, [head]) == ReadyRead(table, head)
           && FeedHost(table, [head], host) == HostAfter(table, head, host) by {
      assert Feed(table, []) == Outcome([], []) && [] + head == head;
      assert [head][0] == head;
    }
    assert [head, tail][1] == tail;
  }
}
