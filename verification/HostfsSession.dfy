/**
 * A hostfs connection end to end: the service's greeting and request loop over a byte stream, and
 * the client's view of it. What the file system does is a parameter; a query leaves the tree alone,
 * a mutation may change it.
 */
module HostfsSession {
  import opened Bytes
  import opened FsProtocol

  const PROTOCOL_VERSION: nat := 1
  const MAX_READ_FILE_LEN: nat := 1024 * 1024
  const EINVAL: int := 22
  const EROFS: int := 30

  datatype Request =
    | Hello(version: nat, mountName: string)
    | Ping
    | StatFs
    | GetMetadata(path: string)
    | ReadDir(path: string)
    | ReadFile(path: string, offset: nat, len: nat)
    | WriteFile(path: string, offset: nat, data: seq<Byte>, create: bool, truncate: bool)
    | SetLen(path: string, size: nat)
    | Mkdir(path: string, recursive: bool)
    | RemoveFile(path: string)
    | RemoveDir(path: string)
    | Rename(source: string, target: string)
    | Fsync(path: string)

  datatype FsError = FsError(osCode: Option<int>, message: string)

  datatype Response =
    | HelloReply(version: nat, mountName: string, readOnly: bool)
    | Pong
    | Stat(totalBytes: nat, availableBytes: nat)
    | Metadata(fields: seq<nat>)
    | Entries(names: seq<string>)
    | Data(data: seq<Byte>)
    | Written(count: nat)
    | Done
    | Error(error: FsError)

  predicate IsMutation(r: Request) {
    r.WriteFile? || r.SetLen? || r.Mkdir? || r.RemoveFile? || r.RemoveDir? || r.Rename?
  }

  /** The host file system below the mount root. */
  datatype FileSystem<!T> = FileSystem(
    query: (T, Request) -> Result<Response, FsError>,
    mutate: (T, Request) -> (T, Result<Response, FsError>))

  datatype Service = Service(mountName: string, readOnly: bool)

  const HELLO_TWICE := FsError(Some(EINVAL), "hello may only be sent once")
  const HELLO_FIRST := FsError(Some(EINVAL), "first hostfs message must be hello")
  const BAD_VERSION := FsError(Some(EINVAL), "unsupported hostfs protocol version")
  const BAD_MOUNT := FsError(Some(EINVAL), "hostfs mount name mismatch")
  const READ_ONLY := FsError(Some(EROFS), "hostfs mount is read-only")
  const READ_TOO_LONG := FsError(Some(EINVAL), "read length exceeds hostfs max read size")

  /** One request on a tree: the tree afterwards and the result. */
  function HandleRequest<T>(svc: Service, fs: FileSystem<T>, tree: T, r: Request): (T, Result<Response, FsError>) {
    if r.Hello? then (tree, Err(HELLO_TWICE))
    else if r.Ping? then (tree, Ok(Pong))
    else if IsMutation(r) then
      if svc.readOnly then (tree, Err(READ_ONLY)) else fs.mutate(tree, r)
    else if r.ReadFile? && r.len > MAX_READ_FILE_LEN then (tree, Err(READ_TOO_LONG))
    else (tree, fs.query(tree, r))
  }

  function Respond<T>(svc: Service, fs: FileSystem<T>, tree: T, r: Request): (T, Response) {
    var h := HandleRequest(svc, fs, tree, r);
    (h.0, if h.1.Ok? then h.1.value else Error(h.1.error))
  }

  /** The greeting: which error it earns, if any. */
  function GreetingError(svc: Service, r: Request): Option<FsError> {
    if !r.Hello? then Some(HELLO_FIRST)
    else if r.version != PROTOCOL_VERSION then Some(BAD_VERSION)
    else if r.mountName != svc.mountName then Some(BAD_MOUNT)
    else None
  }

  function Welcome(svc: Service): Response { HelloReply(PROTOCOL_VERSION, svc.mountName, svc.readOnly) }

  datatype Codecs = Codecs(requests: Codec<Request>, responses: Codec<Response>)

  /** How a connection ended: tree, bytes sent back, requests that ran, and whether it ended cleanly. */
  datatype Served<T> = Served(tree: T, output: seq<Byte>, handled: seq<Request>, clean: bool)

  /** The request loop on the bytes that follow the greeting. */
  function ServeLoop<T>(svc: Service, fs: FileSystem<T>, cs: Codecs, tree: T, input: seq<Byte>): Served<T>
    decreases |input|
  {
    match Receive(cs.requests, input)
    case Err(e) => Served(tree, [], [], e == UnexpectedEof)
    case Ok(got) =>
      var (next, response) := Respond(svc, fs, tree, got.0);
      if !Sendable(cs.responses, response) then Served(next, [], [got.0], false)
      else
        var rest := ServeLoop(svc, fs, cs, next, got.1);
        Served(rest.tree, Frame(cs.responses, response) + rest.output, [got.0] + rest.handled, rest.clean)
  }

  lemma {:induction false} ServeLoopStep<T>(svc: Service, fs: FileSystem<T>, cs: Codecs, tree: T, input: seq<Byte>)
    ensures ServeLoop(svc, fs, cs, tree, input) ==
            match Receive(cs.requests, input)
            case Err(e) => Served(tree, [], [], e == UnexpectedEof)
            case Ok(got) =>
              var (next, response) := Respond(svc, fs, tree, got.0);
              if !Sendable(cs.responses, response) then Served(next, [], [got.0], false)
              else
                var rest := ServeLoop(svc, fs, cs, next, got.1);
                Served(rest.tree, Frame(cs.responses, response) + rest.output, [got.0] + rest.handled, rest.clean)
  {
  }

  /** A whole connection. */
  function Serve<T>(svc: Service, fs: FileSystem<T>, cs: Codecs, tree: T, input: seq<Byte>): Served<T> {
    match Receive(cs.requests, input)
    case Err(_) => Served(tree, [], [], false)
    case Ok(got) =>
      match GreetingError(svc, got.0)
      case Some(e) =>
        if Sendable(cs.responses, Error(e)) then Served(tree, Frame(cs.responses, Error(e)), [], true)
        else Served(tree, [], [], false)
      case None =>
        if !Sendable(cs.responses, Welcome(svc)) then Served(tree, [], [], false)
        else
          var rest := ServeLoop(svc, fs, cs, tree, got.1);
          rest.(output := Frame(cs.responses, Welcome(svc)) + rest.output)
  }

  /** Serve one connection, changing the tree as it goes. */
  method ServeConn<T>(svc: Service, fs: FileSystem<T>, cs: Codecs, start: T, reader: ByteStream, writer: ByteStream)
    returns (tree: T, handled: seq<Request>, clean: bool)
    requires reader != writer
    modifies reader, writer
    ensures var spec := Serve(svc, fs, cs, start, old(reader.bytes));
            && tree == spec.tree && handled == spec.handled && clean == spec.clean
            && writer.bytes == old(writer.bytes) + spec.output
  {
    hide Receive, Frame, ServeLoop, Sendable, GreetingError;
    tree, handled := start, [];
    ghost var before := writer.bytes;
    var first := RecvMsg(reader, cs.requests);
    if first.Err? { return tree, handled, false; }
    var refusal := GreetingError(svc, first.value);
    if refusal.Some? {
      var ok := SendMsg(writer, cs.responses, Error(refusal.value));
      return tree, handled, ok;
    }
    var ok := SendMsg(writer, cs.responses, Welcome(svc));
    if !ok { return tree, handled, false; }
    tree, handled, clean := ServeRequests(svc, fs, cs, start, reader, writer);
    ghost var rest := ServeLoop(svc, fs, cs, start, Receive(cs.requests, old(reader.bytes)).value.1);
    assert before + Frame(cs.responses, Welcome(svc)) + rest.output ==
           before + (Frame(cs.responses, Welcome(svc)) + rest.output);
  }

  method ServeRequests<T>(svc: Service, fs: FileSystem<T>, cs: Codecs, start: T, reader: ByteStream, writer: ByteStream)
    returns (tree: T, handled: seq<Request>, clean: bool)
    requires reader != writer
    modifies reader, writer
    ensures var spec := ServeLoop(svc, fs, cs, start, old(reader.bytes));
            && tree == spec.tree && handled == spec.handled && clean == spec.clean
            && writer.bytes == old(writer.bytes) + spec.output
  {
    hide Receive, Frame, ServeLoop, Sendable, Respond;
    tree, handled := start, [];
    ghost var spec := ServeLoop(svc, fs, cs, start, reader.bytes);
    ghost var rest := spec;
    assert writer.bytes + rest.output == old(writer.bytes) + spec.output;
    while true
      invariant rest == ServeLoop(svc, fs, cs, tree, reader.bytes)
      invariant rest.tree == spec.tree && rest.clean == spec.clean
      invariant handled + rest.handled == spec.handled
      invariant writer.bytes + rest.output == old(writer.bytes) + spec.output
      decreases |reader.bytes|
    {
      ServeLoopStep(svc, fs, cs, tree, reader.bytes);
      var request := RecvMsg(reader, cs.requests);
      if request.Err? {
        assert handled + [] == handled && writer.bytes + [] == writer.bytes;
        return tree, handled, request.error == UnexpectedEof;
      }
      var (next, response) := Respond(svc, fs, tree, request.value);
      tree := next;
      ghost var outBefore := writer.bytes;
      var ok := SendMsg(writer, cs.responses, response);
      if !ok {
        assert writer.bytes + [] == writer.bytes;
        return tree, handled + [request.value], false;
      }
      rest := ServeLoop(svc, fs, cs, tree, reader.bytes);
      assert handled + ([request.value] + rest.handled) == handled + [request.value] + rest.handled;
      assert outBefore + (Frame(cs.responses, response) + rest.output) == writer.bytes + rest.output;
      handled := handled + [request.value];
    }
  }

  //// Safety of every connection, whatever the bytes

  /** A read-only service never changes the tree. */
  lemma {:induction false} ReadOnlyLoop<T>(svc: Service, fs: FileSystem<T>, cs: Codecs, tree: T, input: seq<Byte>)
    requires svc.readOnly
    ensures ServeLoop(svc, fs, cs, tree, input).tree == tree
    decreases |input|
  {
    var got := Receive(cs.requests, input);
    if got.Ok? {
      ReadOnlyLoop(svc, fs, cs, Respond(svc, fs, tree, got.value.0).0, got.value.1);
    }
  }

  lemma {:induction false} ReadOnlyNeverChanges<T>(
    svc: Service, fs: FileSystem<T>, cs: Codecs, tree: T, input: seq<Byte>)
    requires svc.readOnly
    ensures Serve(svc, fs, cs, tree, input).tree == tree
  {
    var got := Receive(cs.requests, input);
    if got.Ok? {
      ReadOnlyLoop(svc, fs, cs, tree, got.value.1);
    }
  }

  /** Nothing runs and nothing changes unless the first message is a matching Hello. */
  lemma {:induction false} NothingBeforeHello<T>(svc: Service, fs: FileSystem<T>, cs: Codecs, tree: T, input: seq<Byte>)
    ensures var s := Serve(svc, fs, cs, tree, input);
            s.handled != [] || s.tree != tree ==>
              && Receive(cs.requests, input).Ok?
              && Receive(cs.requests, input).value.0 == Hello(PROTOCOL_VERSION, svc.mountName)
  {
  }

  //// Requests and replies match up

  /** The replies to a list of requests, each on the tree the previous ones left. */
  function Replies<T>(svc: Service, fs: FileSystem<T>, tree: T, rs: seq<Request>): (out: seq<Response>)
    ensures |out| == |rs|
  {
    if rs == [] then []
    else [Respond(svc, fs, tree, rs[0]).1] + Replies(svc, fs, Respond(svc, fs, tree, rs[0]).0, rs[1..])
  }

  function TreeAfter<T>(svc: Service, fs: FileSystem<T>, tree: T, rs: seq<Request>): T {
    if rs == [] then tree else TreeAfter(svc, fs, Respond(svc, fs, tree, rs[0]).0, rs[1..])
  }

  /** The k-th reply is the response to the k-th request on the tree left by the requests before it. */
  lemma {:induction false} ReplyAnswersRequest<T>(svc: Service, fs: FileSystem<T>, tree: T, rs: seq<Request>, k: nat)
    requires k < |rs|
    ensures Replies(svc, fs, tree, rs)[k] == Respond(svc, fs, TreeAfter(svc, fs, tree, rs[..k]), rs[k]).1
    decreases k
  {
    if k > 0 {
      ReplyAnswersRequest(svc, fs, Respond(svc, fs, tree, rs[0]).0, rs[1..], k - 1);
      assert rs[..k][1..] == rs[1..][..k - 1];
    }
  }

  lemma {:induction false} LoopAnswersAll<T>(svc: Service, fs: FileSystem<T>, cs: Codecs, tree: T, rs: seq<Request>)
    requires Lossless(cs.requests) && AllSendable(cs.requests, rs)
    requires AllSendable(cs.responses, Replies(svc, fs, tree, rs))
    ensures ServeLoop(svc, fs, cs, tree, Frames(cs.requests, rs)) ==
            Served(TreeAfter(svc, fs, tree, rs), Frames(cs.responses, Replies(svc, fs, tree, rs)), rs, true)
    decreases |rs|
  {
    if rs != [] {
      var (next, response) := Respond(svc, fs, tree, rs[0]);
      var out := Replies(svc, fs, tree, rs);
      assert out[0] == response && out[1..] == Replies(svc, fs, next, rs[1..]);
      ReceiveFrame(cs.requests, rs[0], Frames(cs.requests, rs[1..]));
      LoopAnswersAll(svc, fs, cs, next, rs[1..]);
      assert rs == [rs[0]] + rs[1..];
    }
  }

  /**
   * A client that greets correctly and has sent the first `k` of its requests can decode exactly the
   * welcome and `k` replies, the same ones however many requests it sends afterwards.
   */
  lemma {:induction false} ConversationMatches<T>(
    svc: Service, fs: FileSystem<T>, cs: Codecs, tree: T, rs: seq<Request>, k: nat)
    requires Lossless(cs.requests) && Lossless(cs.responses) && k <= |rs|
    requires var hello := Hello(PROTOCOL_VERSION, svc.mountName);
             && AllSendable(cs.requests, [hello] + rs)
             && AllSendable(cs.responses, [Welcome(svc)] + Replies(svc, fs, tree, rs))
    ensures AllSendable(cs.requests, [Hello(PROTOCOL_VERSION, svc.mountName)] + rs[..k])
    ensures var hello := Hello(PROTOCOL_VERSION, svc.mountName);
            var s := Serve(svc, fs, cs, tree, Frames(cs.requests, [hello] + rs[..k]));
            && s.clean && s.handled == rs[..k] && s.tree == TreeAfter(svc, fs, tree, rs[..k])
            && ReceiveAll(cs.responses, s.output) == ([Welcome(svc)] + Replies(svc, fs, tree, rs)[..k], UnexpectedEof)
  {
    var hello := Hello(PROTOCOL_VERSION, svc.mountName);
    var sent := rs[..k];
    var out := [Welcome(svc)] + Replies(svc, fs, tree, sent);
    RepliesPrefix(svc, fs, tree, rs, k);
    SendablePrefix(cs.requests, hello, rs, k);
    SendablePrefix(cs.responses, Welcome(svc), Replies(svc, fs, tree, rs), k);
    assert ([hello] + sent)[1..] == sent && out[1..] == Replies(svc, fs, tree, sent);
    ReceiveFrame(cs.requests, hello, Frames(cs.requests, sent));
    LoopAnswersAll(svc, fs, cs, tree, sent);
    var s := Serve(svc, fs, cs, tree, Frames(cs.requests, [hello] + sent));
    assert s.output == Frames(cs.responses, out);
    var n := TruncatedStream(cs.responses, out, |s.output|);
    assert s.output[..|s.output|] == s.output && out[..n] == out;
  }

  lemma {:induction false} SendablePrefix<M>(c: Codec<M>, first: M, ms: seq<M>, k: nat)
    requires k <= |ms| && AllSendable(c, [first] + ms)
    ensures Sendable(c, first) && AllSendable(c, ms[..k]) && AllSendable(c, [first] + ms[..k])
  {
    assert ([first] + ms)[0] == first;
    assert forall i :: 0 <= i < |ms| ==> ([first] + ms)[i + 1] == ms[i];
  }

  lemma {:induction false} RepliesPrefix<T>(svc: Service, fs: FileSystem<T>, tree: T, rs: seq<Request>, k: nat)
    requires k <= |rs|
    ensures Replies(svc, fs, tree, rs[..k]) == Replies(svc, fs, tree, rs)[..k]
    decreases k
  {
    if k > 0 {
      RepliesPrefix(svc, fs, Respond(svc, fs, tree, rs[0]).0, rs[1..], k - 1);
      assert rs[..k][1..] == rs[1..][..k - 1];
    }
  }

  //// What each request comes to

  /** The response that carries a result. */
  function Answer(r: Result<Response, FsError>): Response { if r.Ok? then r.value else Error(r.error) }

  /** The requests that change the tree. */
  predicate Changes(r: Request) {
    match r
    case WriteFile(_, _, _, _, _) => true
    case SetLen(_, _) => true
    case Mkdir(_, _) => true
    case RemoveFile(_) => true
    case RemoveDir(_) => true
    case Rename(_, _) => true
    case _ => false
  }

  /** Tree and reply that the service owes to one request on one tree. */
  ghost predicate Owed<T>(svc: Service, fs: FileSystem<T>, tree: T, r: Request, after: T, reply: Response) {
    match r
    case Hello(_, _) => after == tree && reply.Error? && reply.error.osCode == Some(22)
    case Ping => after == tree && reply == Pong
    case ReadFile(_, _, len) =>
      && after == tree
      && if len > 0x10_0000 then reply.Error? && reply.error.osCode == Some(22) else reply == Answer(fs.query(tree, r))
    case _ =>
      if !Changes(r) then after == tree && reply == Answer(fs.query(tree, r))
      else if svc.readOnly then after == tree && reply.Error? && reply.error.osCode == Some(30)
      else after == fs.mutate(tree, r).0 && reply == Answer(fs.mutate(tree, r).1)
  }

  lemma {:induction false} RespondMeans<T>(svc: Service, fs: FileSystem<T>, tree: T, r: Request)
    ensures Owed(svc, fs, tree, r, Respond(svc, fs, tree, r).0, Respond(svc, fs, tree, r).1)
  {
  }

  /** The trees through which a list of requests leads, one more than there are requests. */
  ghost predicate Course<T>(svc: Service, fs: FileSystem<T>, rs: seq<Request>, trees: seq<T>, replies: seq<Response>) {
    && |trees| == |rs| + 1 && |replies| == |rs|
    && forall k :: 0 <= k < |rs| ==> Owed(svc, fs, trees[k], rs[k], trees[k + 1], replies[k])
  }

  ghost function Trees<T>(svc: Service, fs: FileSystem<T>, tree: T, rs: seq<Request>): (ts: seq<T>)
    ensures |ts| == |rs| + 1 && ts[0] == tree && ts[|rs|] == TreeAfter(svc, fs, tree, rs)
  {
    if rs == [] then [tree] else [tree] + Trees(svc, fs, Respond(svc, fs, tree, rs[0]).0, rs[1..])
  }

  lemma {:induction false} CourseOf<T>(svc: Service, fs: FileSystem<T>, tree: T, rs: seq<Request>)
    ensures Course(svc, fs, rs, Trees(svc, fs, tree, rs), Replies(svc, fs, tree, rs))
  {
    if rs != [] {
      var next := Respond(svc, fs, tree, rs[0]).0;
      var ts, us := Trees(svc, fs, tree, rs), Trees(svc, fs, next, rs[1..]);
      var out, rest := Replies(svc, fs, tree, rs), Replies(svc, fs, next, rs[1..]);
      CourseOf(svc, fs, next, rs[1..]);
      RespondMeans(svc, fs, tree, rs[0]);
      hide Respond, Owed;
      forall k | 0 <= k < |rs|
        ensures Owed(svc, fs, ts[k], rs[k], ts[k + 1], out[k])
      {
        if k > 0 {
          assert ts[k] == us[k - 1] && ts[k + 1] == us[k] && out[k] == rest[k - 1] && rs[k] == rs[1..][k - 1];
          assert Owed(svc, fs, us[k - 1], rs[1..][k - 1], us[k - 1 + 1], rest[k - 1]);
        } else {
          assert ts[1] == us[0] == next;
        }
      }
    }
  }

  /** The changes of a list of requests, one after the other. */
  function Changed<T>(fs: FileSystem<T>, tree: T, rs: seq<Request>): T {
    if rs == [] then tree else fs.mutate(Changed(fs, tree, rs[..|rs| - 1]), rs[|rs| - 1]).0
  }

  /** On a course of changing requests on a writable mount each tree is the fold of the changes so far. */
  lemma {:induction false} CourseOfChanges<T>(
    svc: Service, fs: FileSystem<T>, rs: seq<Request>, trees: seq<T>, replies: seq<Response>, k: nat)
    requires !svc.readOnly && Course(svc, fs, rs, trees, replies) && k <= |rs|
    requires forall i :: 0 <= i < |rs| ==> Changes(rs[i])
    ensures trees[k] == Changed(fs, trees[0], rs[..k])
    ensures k < |rs| ==> replies[k] == Answer(fs.mutate(Changed(fs, trees[0], rs[..k]), rs[k]).1)
  {
    if k > 0 {
      CourseOfChanges(svc, fs, rs, trees, replies, k - 1);
      assert rs[..k][..k - 1] == rs[..k - 1];
      assert Owed(svc, fs, trees[k - 1], rs[k - 1], trees[k - 1 + 1], replies[k - 1]);
    }
    if k < |rs| { assert Owed(svc, fs, trees[k], rs[k], trees[k + 1], replies[k]); }
  }

  /**
   * Over the wire: after a matching greeting, any list of requests gives the welcome and one reply
   * each, and every reply and every tree is the one owed to its request on the tree before it.
   */
  lemma {:induction false} ServesWhatIsOwed<T>(svc: Service, fs: FileSystem<T>, cs: Codecs, tree: T, rs: seq<Request>)
    returns (trees: seq<T>, replies: seq<Response>)
    requires Lossless(cs.requests) && Lossless(cs.responses)
    requires AllSendable(cs.requests, [Hello(1, svc.mountName)] + rs)
    requires AllSendable(cs.responses, [HelloReply(1, svc.mountName, svc.readOnly)] + Replies(svc, fs, tree, rs))
    ensures Course(svc, fs, rs, trees, replies) && trees[0] == tree
    ensures var s := Serve(svc, fs, cs, tree, Frames(cs.requests, [Hello(1, svc.mountName)] + rs));
            && s.clean && s.handled == rs && s.tree == trees[|rs|]
            && ReceiveAll(cs.responses, s.output)
               == ([HelloReply(1, svc.mountName, svc.readOnly)] + replies, UnexpectedEof)
  {
    trees, replies := Trees(svc, fs, tree, rs), Replies(svc, fs, tree, rs);
    CourseOf(svc, fs, tree, rs);
    hide Course, Serve, Replies, Trees;
    ConversationMatches(svc, fs, cs, tree, rs, |rs|);
    assert rs[..|rs|] == rs && replies[..|rs|] == replies;
  }

  /** So on a writable mount a list of changes leaves the tree with all of them made, in order. */
  lemma {:induction false} ChangesAreMade<T>(svc: Service, fs: FileSystem<T>, cs: Codecs, tree: T, rs: seq<Request>)
    requires Lossless(cs.requests) && Lossless(cs.responses) && !svc.readOnly
    requires forall i :: 0 <= i < |rs| ==> Changes(rs[i])
    requires AllSendable(cs.requests, [Hello(1, svc.mountName)] + rs)
    requires AllSendable(cs.responses, [HelloReply(1, svc.mountName, svc.readOnly)] + Replies(svc, fs, tree, rs))
    ensures Serve(svc, fs, cs, tree, Frames(cs.requests, [Hello(1, svc.mountName)] + rs)).tree == Changed(fs, tree, rs)
  {
    var trees, replies := ServesWhatIsOwed(svc, fs, cs, tree, rs);
    hide Serve, Course;
    CourseOfChanges(svc, fs, rs, trees, replies, |rs|);
    assert rs[..|rs|] == rs;
  }

  /** The greeting that is refused, and with what; any other first message ends the connection too. */
  lemma {:induction false} BadGreeting<T>(
    svc: Service, fs: FileSystem<T>, cs: Codecs, tree: T, first: Request, rest: seq<Byte>)
    requires Lossless(cs.requests) && Lossless(cs.responses) && Sendable(cs.requests, first)
    requires forall e :: e in {HELLO_FIRST, BAD_VERSION, BAD_MOUNT} ==> Sendable(cs.responses, Error(e))
    requires first != Hello(1, svc.mountName)
    ensures var s := Serve(svc, fs, cs, tree, Frame(cs.requests, first) + rest);
            var got := Receive(cs.responses, s.output);
            && s.clean && s.handled == [] && s.tree == tree
            && got.Ok? && got.value.1 == [] && got.value.0.Error? && got.value.0.error.osCode == Some(22)
  {
    ReceiveFrame(cs.requests, first, rest);
    var e := GreetingError(svc, first).value;
    ReceiveFrame(cs.responses, Error(e), []);
    assert Frame(cs.responses, Error(e)) + [] == Frame(cs.responses, Error(e));
  }

  //// The client's reading of a response

  datatype ClientError = Transport | Proxy(error: FsError) | Unexpected

  function DecodeResponse(r: Response): Result<Response, ClientError> {
    if r.Error? then Err(Proxy(r.error)) else Ok(r)
  }

  /** What `connect` makes of the answer to its greeting. */
  function ConnectResult(mountName: string, r: Response): Result<Response, ClientError> {
    match DecodeResponse(r)
    case Err(e) => Err(e)
    case Ok(h) =>
      if !h.HelloReply? || h.mountName != mountName || h.version != PROTOCOL_VERSION then Err(Unexpected) else Ok(h)
  }

  /** The client accepts exactly a greeting of version 1 for its own mount. */
  lemma {:induction false} ConnectMeans(mountName: string, r: Response)
    ensures ConnectResult(mountName, r).Ok? <==> r.HelloReply? && r.version == 1 && r.mountName == mountName
    ensures ConnectResult(mountName, r).Ok? ==> ConnectResult(mountName, r).value == r
    ensures r.Error? ==> ConnectResult(mountName, r) == Err(Proxy(r.error)) && DecodeResponse(r) == Err(Proxy(r.error))
    ensures !r.Error? ==> DecodeResponse(r) == Ok(r)
  {
  }

  /** Send one request and read one reply from what the server has sent. */
  method SendRequest(cs: Codecs, toServer: ByteStream, fromServer: ByteStream, r: Request)
    returns (res: Result<Response, ClientError>)
    requires toServer != fromServer
    modifies toServer, fromServer
    ensures !Sendable(cs.requests, r) ==> res == Err(Transport) && toServer.bytes == old(toServer.bytes)
    ensures Sendable(cs.requests, r) ==> toServer.bytes == old(toServer.bytes) + Frame(cs.requests, r)
    ensures Sendable(cs.requests, r) ==>
              match Receive(cs.responses, old(fromServer.bytes))
              case Err(_) => res == Err(Transport)
              case Ok(got) => res == DecodeResponse(got.0) && fromServer.bytes == got.1
  {
    var ok := SendMsg(toServer, cs.requests, r);
    if !ok { return Err(Transport); }
    var response := RecvMsg(fromServer, cs.responses);
    if response.Err? { return Err(Transport); }
    res := DecodeResponse(response.value);
  }

  /** Connecting succeeds exactly when the client names the mount that the service serves. */
  lemma {:induction false} ConnectSucceedsIffMountMatches<T>(
    svc: Service, fs: FileSystem<T>, cs: Codecs, tree: T, mountName: string)
    requires Lossless(cs.requests) && Lossless(cs.responses)
    requires Sendable(cs.requests, Hello(PROTOCOL_VERSION, mountName))
    requires Sendable(cs.responses, Welcome(svc)) && Sendable(cs.responses, Error(BAD_MOUNT))
    ensures var s := Serve(svc, fs, cs, tree, Frame(cs.requests, Hello(PROTOCOL_VERSION, mountName)));
            var got := Receive(cs.responses, s.output);
            && got.Ok? && s.handled == [] && s.tree == tree
            && (ConnectResult(mountName, got.value.0).Ok? <==> mountName == svc.mountName)
            && (mountName != svc.mountName ==> ConnectResult(mountName, got.value.0) == Err(Proxy(BAD_MOUNT)))
  {
    var hello := Hello(PROTOCOL_VERSION, mountName);
    assert Frame(cs.requests, hello) + [] == Frame(cs.requests, hello);
    ReceiveFrame(cs.requests, hello, []);
    var s := Serve(svc, fs, cs, tree, Frame(cs.requests, hello));
    var reply := if mountName == svc.mountName then Welcome(svc) else Error(BAD_MOUNT);
    assert s.output == Frame(cs.responses, reply) + [];
    ReceiveFrame(cs.responses, reply, []);
  }
}
