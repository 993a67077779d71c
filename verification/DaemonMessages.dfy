/** The messages a display daemon sends, each with its own fields, and their delivery to the
    greeter (src/greeter/greeterproxy.cpp). */
module DaemonMessages {
  import opened WireFormat
  import opened GreeterStream

  datatype DaemonMessage =
    | CapabilitiesSent(bits: U32)
    | HostNameSent(name: Str)
    | LastLoginSent(user: Str, session: Str)
    | SessionDirsSent(wayland: seq<Str>, x11: seq<Str>)
    | LoginFailedSent(user: Str)
    | InformationSent(text: Str)
    | SwitchToGreeterSent
    | ShowGreeterSent
    | UserActivateSent(user: Str, sessionId: Str)
    | UserLoggedInSent(user: Str, sessionId: Str)

  predicate ListWritable(ss: seq<Str>) {
    AllWritable(ss) && |ss| < 0x1_0000_0000
  }

  /** What fits the stream's 32-bit lengths. */
  predicate CanSend(m: DaemonMessage) {
    match m
    case CapabilitiesSent(_) => true
    case HostNameSent(name) => Writable(name)
    case LastLoginSent(user, session) => Writable(user) && Writable(session)
    case SessionDirsSent(wayland, x11) => ListWritable(wayland) && ListWritable(x11)
    case LoginFailedSent(user) => Writable(user)
    case InformationSent(text) => Writable(text)
    case SwitchToGreeterSent => true
    case ShowGreeterSent => true
    case UserActivateSent(user, sessionId) => Writable(user) && Writable(sessionId)
    case UserLoggedInSent(user, sessionId) => Writable(user) && Writable(sessionId)
  }

  function WriteList(ss: seq<Str>): seq<Byte>
    requires ListWritable(ss)
  {
    WriteNumber(|ss|) + WriteStrs(ss)
  }

  /** What the daemon streams after the tag. */
  function Body(m: DaemonMessage): seq<Byte>
    requires CanSend(m)
  {
    match m
    case CapabilitiesSent(bits) => WriteNumber(bits)
    case HostNameSent(name) => WriteStr(name)
    case LastLoginSent(user, session) => WriteStr(user) + WriteStr(session)
    case SessionDirsSent(wayland, x11) => WriteList(wayland) + WriteList(x11)
    case LoginFailedSent(user) => WriteStr(user)
    case InformationSent(text) => WriteStr(text)
    case SwitchToGreeterSent => []
    case ShowGreeterSent => []
    case UserActivateSent(user, sessionId) => WriteStr(user) + WriteStr(sessionId)
    case UserLoggedInSent(user, sessionId) => WriteStr(user) + WriteStr(sessionId)
  }

  function KindOf(m: DaemonMessage): Kind {
    match m
    case CapabilitiesSent(_) => Capabilities
    case HostNameSent(_) => HostName
    case LastLoginSent(_, _) => LastLogin
    case SessionDirsSent(_, _) => SessionDirs
    case LoginFailedSent(_) => LoginFailed
    case InformationSent(_) => InformationMessage
    case SwitchToGreeterSent => SwitchToGreeter
    case ShowGreeterSent => ShowGreeter
    case UserActivateSent(_, _) => UserActivateMessage
    case UserLoggedInSent(_, _) => UserLoggedIn
  }

  /** The message as the greeter sees it. */
  function Received(m: DaemonMessage): Message {
    Message(KindOf(m),
            match m
            case CapabilitiesSent(bits) => [Number(bits)]
            case HostNameSent(name) => [Single(name)]
            case LastLoginSent(user, session) => [Single(user), Single(session)]
            case SessionDirsSent(wayland, x11) => [Many(wayland), Many(x11)]
            case LoginFailedSent(user) => [Single(user)]
            case InformationSent(text) => [Single(text)]
            case SwitchToGreeterSent => []
            case ShowGreeterSent => []
            case UserActivateSent(user, sessionId) => [Single(user), Single(sessionId)]
            case UserLoggedInSent(user, sessionId) => [Single(user), Single(sessionId)])
  }

  lemma {:induction false} WriteOneField(f: Field)
    requires FieldWritable(f)
    ensures FieldsWritable([f]) && WriteFields([f]) == WriteField(f)
  {
    assert [f][1..] == [];
    assert WriteFields([]) == [];
    assert WriteField(f) + [] == WriteField(f);
  }

  lemma {:induction false} WriteTwoFields(f: Field, g: Field)
    requires FieldWritable(f) && FieldWritable(g)
    ensures FieldsWritable([f, g]) && WriteFields([f, g]) == WriteField(f) + WriteField(g)
  {
    assert [f, g][1..] == [g];
    WriteOneField(g);
  }

  /** The greeter's reads for a message fit what the daemon streams for it. */
  lemma {:induction false} BodyFits(m: DaemonMessage)
    requires CanSend(m)
    ensures FieldsWritable(Received(m).fields) && Fits(Received(m).fields, Shapes(KindOf(m)))
    ensures WriteFields(Received(m).fields) == Body(m)
  {
    match m
    case CapabilitiesSent(bits) => WriteOneField(Number(bits));
    case HostNameSent(name) => WriteOneField(Single(name));
    case LastLoginSent(user, session) => WriteTwoFields(Single(user), Single(session));
    case SessionDirsSent(wayland, x11) => WriteTwoFields(Many(wayland), Many(x11));
    case LoginFailedSent(user) => WriteOneField(Single(user));
    case InformationSent(text) => WriteOneField(Single(text));
    case SwitchToGreeterSent =>
    case ShowGreeterSent =>
    case UserActivateSent(user, sessionId) => WriteTwoFields(Single(user), Single(sessionId));
    case UserLoggedInSent(user, sessionId) => WriteTwoFields(Single(user), Single(sessionId));
  }

  /** The daemon numbers its kinds; the greeter's table is the inverse. */
  ghost predicate Numbered(table: Table, tag: Kind -> U32) {
    forall k: Kind :: tag(k) in table && table[tag(k)] == k
  }

  function Stream(tag: Kind -> U32, ms: seq<DaemonMessage>): seq<Byte>
    requires forall m :: m in ms ==> CanSend(m)
  {
    if ms == [] then [] else WriteNumber(tag(KindOf(ms[0]))) + Body(ms[0]) + Stream(tag, ms[1..])
  }

  function ReceivedAll(ms: seq<DaemonMessage>): seq<Message> {
    if ms == [] then [] else [Received(ms[0])] + ReceivedAll(ms[1..])
  }

  function Tags(tag: Kind -> U32, ms: seq<DaemonMessage>): seq<U32> {
    if ms == [] then [] else [tag(KindOf(ms[0]))] + Tags(tag, ms[1..])
  }

  lemma {:induction false} StreamIsSent(table: Table, tag: Kind -> U32, ms: seq<DaemonMessage>)
    requires Numbered(table, tag) && forall m :: m in ms ==> CanSend(m)
    ensures AllSendable(table, Tags(tag, ms), ReceivedAll(ms))
    ensures SendAll(table, Tags(tag, ms), ReceivedAll(ms)) == Stream(tag, ms)
  {
    if ms != [] {
      BodyFits(ms[0]);
      StreamIsSent(table, tag, ms[1..]);
      var tags, all := Tags(tag, ms), ReceivedAll(ms);
      assert tags[1..] == Tags(tag, ms[1..]) && all[1..] == ReceivedAll(ms[1..]);
      forall k | 0 <= k < |all|
        ensures Sendable(table, tags[k], all[k])
      {
        if k > 0 {
          assert tags[k] == tags[1..][k - 1] && all[k] == all[1..][k - 1];
        }
      }
    }
  }

  /** However the socket splits what the daemon streams, the greeter commits exactly the daemon's
      messages with their fields, in order, and keeps nothing back. */
  lemma {:induction false} DaemonIsHeard(table: Table, tag: Kind -> U32, ms: seq<DaemonMessage>, chunks: seq<seq<Byte>>)
    requires Numbered(table, tag) && (forall m :: m in ms ==> CanSend(m)) && Concat(chunks) == Stream(tag, ms)
    ensures Feed(table, chunks) == Outcome(ReceivedAll(ms), [])
  {
    StreamIsSent(table, tag, ms);
    DeliveredExactly(table, Tags(tag, ms), ReceivedAll(ms), chunks);
  }
}
