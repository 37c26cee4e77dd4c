/** One WebSocket connection (`handle_socket`): the opening messages, then one
    turn per received message. The only state is the current directory; what
    the session sends is recorded, in order, in an outbox. */
module Sessions {
  import opened Wrappers
  import opened Strings
  import opened Paths
  import opened Sanitizer
  import opened Commands

  /** A message sent to the client. */
  datatype WebSocketResponse = Output(text: string) | CwdUpdate(dir: Path)

  /** What one receive yields. */
  datatype Incoming =
    | Text(text: string)
    | Pong
    | Close
    | Unsupported      // binary, ping and raw frames
    | TransportError   // the receive itself failed

  /** A received message together with the collaborators as they are while it
      is handled (the file system and the installed programs may change
      between turns). */
  datatype Event = Event(msg: Incoming, world: World)

  const Welcome: string := "Welcome to the Rust Web Terminal Backend!\r\n"

  /** The directory used when the process's working directory is unavailable. */
  const FallbackDir: Path := "/"

  /** A session's observable state: its directory, everything sent so far,
      and whether the receive loop is still running. */
  datatype SessionState = SessionState(dir: Path, outbox: seq<WebSocketResponse>, open: bool)

  /** What one text turn sends: the cleaned response if the raw response is
      not empty, then the new directory if it differs from the old one. */
  function Emitted(response: string, dir: Path, newDir: Path): seq<WebSocketResponse> {
    (if response != [] then [Output(CleanOutput(response))] else [])
    + (if !SamePath(newDir, dir) then [CwdUpdate(newDir)] else [])
  }

  /** The state after the opening: the welcome text, then the starting directory. */
  function Opening(startDir: Option<Path>): SessionState {
    var dir := startDir.GetOr(FallbackDir);
    SessionState(dir, [Output(CleanOutput(Welcome)), CwdUpdate(dir)], true)
  }

  /** The effect of a text message whose command gave reply `r`: the directory
      is replaced only when the new one is a different path. */
  function TextTurn(s: SessionState, r: Reply): SessionState {
    SessionState(if SamePath(r.newCwd, s.dir) then s.dir else r.newCwd,
                 s.outbox + Emitted(r.response, s.dir, r.newCwd), s.open)
  }

  /** One turn of the receive loop. */
  function Next(s: SessionState, e: Event): SessionState {
    if !s.open then s
    else
      match e.msg
      case Text(t) => TextTurn(s, Dispatch(Trim(t), s.dir, e.world))
      case Pong => s
      case Unsupported => s
      case Close => s.(open := false)
      case TransportError => s.(open := false)
  }

  /** The receive loop over a sequence of messages: it stops at the end of the
      stream or once the session is closed. */
  function Replay(s: SessionState, events: seq<Event>): SessionState
    decreases |events|
  {
    if events == [] || !s.open then s else Replay(Next(s, events[0]), events[1..])
  }

  /** The directory named by the last `CwdUpdate` sent, if any. */
  function LastCwdUpdate(outbox: seq<WebSocketResponse>): Option<Path> {
    if outbox == [] then None
    else if outbox[|outbox| - 1].CwdUpdate? then Some(outbox[|outbox| - 1].dir)
    else LastCwdUpdate(outbox[..|outbox| - 1])
  }

  /** An `Output` carries non-empty text that the terminal can render. */
  predicate Deliverable(m: WebSocketResponse) {
    m.Output? ==> m.text != [] && AllAllowed(m.text)
  }

  /** The client's view agrees with the session: the last directory update it
      received names the session's directory, and every output it received is
      non-empty, clean text. */
  predicate InSync(s: SessionState) {
    LastCwdUpdate(s.outbox) == Some(s.dir)
    && forall i :: 0 <= i < |s.outbox| ==> Deliverable(s.outbox[i])
  }

  lemma {:induction false} LastCwdUpdateAppend(a: seq<WebSocketResponse>, b: seq<WebSocketResponse>)
    ensures LastCwdUpdate(a + b) == if LastCwdUpdate(b).Some? then LastCwdUpdate(b) else LastCwdUpdate(a)
  {
    if b == [] {
      assert a + b == a;
    } else {
      assert (a + b)[..|a + b| - 1] == a + b[..|b| - 1];
      LastCwdUpdateAppend(a, b[..|b| - 1]);
    }
  }

  /** The opening leaves the client in sync. */
  lemma OpeningInSync(startDir: Option<Path>)
    ensures InSync(Opening(startDir))
  {
    var s := Opening(startDir);
    assert IsAllowed(Welcome[0]);
    EdgeSurvives(Welcome);
    assert s.outbox[..1] == [Output(CleanOutput(Welcome))];
  }

  /** A text turn keeps the client in sync, provided a non-empty response
      does not clean to nothing. */
  lemma TextTurnPreservesInSync(s: SessionState, r: Reply)
    requires InSync(s)
    requires r.response != [] ==> CleanOutput(r.response) != []
    ensures InSync(TextTurn(s, r))
  {
    var sent := Emitted(r.response, s.dir, r.newCwd);
    LastCwdUpdateAppend(s.outbox, sent);
    if SamePath(r.newCwd, s.dir) {
      assert LastCwdUpdate(sent) == None;
    } else {
      assert sent[|sent| - 1] == CwdUpdate(r.newCwd);
    }
    assert forall i :: 0 <= i < |sent| ==> Deliverable(sent[i]);
    var t := TextTurn(s, r);
    forall i | 0 <= i < |t.outbox| ensures Deliverable(t.outbox[i]) {
      if i >= |s.outbox| {
        assert t.outbox[i] == sent[i - |s.outbox|];
      }
    }
  }

  /** Every turn keeps the client in sync. */
  lemma NextPreservesInSync(s: SessionState, e: Event)
    requires InSync(s)
    ensures InSync(Next(s, e))
  {
    if s.open && e.msg.Text? {
      RepliesSurviveCleaning(Trim(e.msg.text), s.dir, e.world);
      TextTurnPreservesInSync(s, Dispatch(Trim(e.msg.text), s.dir, e.world));
    }
  }

  /** Any run of the receive loop keeps the client in sync. */
  lemma {:induction false} ReplayPreservesInSync(s: SessionState, events: seq<Event>)
    requires InSync(s)
    ensures InSync(Replay(s, events))
    decreases |events|
  {
    if events != [] && s.open {
      NextPreservesInSync(s, events[0]);
      ReplayPreservesInSync(Next(s, events[0]), events[1..]);
    }
  }

  /** Close and transport errors end the loop; pongs and other kinds of
      message change nothing and send nothing. */
  lemma ControlMessages(s: SessionState, w: World)
    requires s.open
    ensures Next(s, Event(Close, w)) == s.(open := false)
    ensures Next(s, Event(TransportError, w)) == s.(open := false)
    ensures Next(s, Event(Pong, w)) == s && Next(s, Event(Unsupported, w)) == s
  {
  }

  /** Nothing received after a close or an error is handled. */
  lemma {:induction false} ReplayStopsAtClose(s: SessionState, events: seq<Event>, k: nat)
    requires k < |events| && (events[k].msg.Close? || events[k].msg.TransportError?)
    ensures Replay(s, events) == Replay(s, events[..k + 1])
    ensures !Replay(s, events).open
    decreases k
  {
    if s.open {
      assert events[..k + 1][0] == events[0];
      if k == 0 {
        assert Replay(Next(s, events[0]), events[1..]) == Next(s, events[0]);
        assert events[..1][1..] == [];
      } else {
        assert events[..k + 1][1..] == events[1..][..k];
        ReplayStopsAtClose(Next(s, events[0]), events[1..], k - 1);
      }
    }
  }

  /** A text turn whose reply is empty and names the same path changes nothing. */
  lemma SilentTurn(s: SessionState, r: Reply)
    requires r.response == [] && SamePath(r.newCwd, s.dir)
    ensures TextTurn(s, r) == s
  {
    assert s.outbox + [] == s.outbox;
  }

  /** A `cd` to where the session already is (component-wise) sends nothing
      and changes nothing. */
  lemma CdToCurrentDirectoryIsSilent(s: SessionState, t: string, v: string, target: string, rest: seq<string>, w: World)
    requires s.open
    requires w.split(Trim(t)) == Some([v, target] + rest) && Lower(v) == "cd"
    requires w.canonicalize(Resolve(s.dir, target)).Some?
    requires var c := w.canonicalize(Resolve(s.dir, target)).value;
      w.isDir(c) && SamePath(c, s.dir)
    ensures Next(s, Event(Text(t), w)) == s
  {
    var r := Dispatch(Trim(t), s.dir, w);
    CdWithArgument(Trim(t), v, target, rest, s.dir, w);
    TurnWithReply(s, t, w, r);
    SilentTurn(s, r);
  }

  /** A text turn whose command stays where the session is sends the cleaned
      response, if there is one, and nothing else. */
  lemma StayingTurn(s: SessionState, response: string)
    ensures TextTurn(s, Reply(response, s.dir))
            == s.(outbox := s.outbox + if response != [] then [Output(CleanOutput(response))] else [])
  {
  }

  /** A `pwd` turn sends the directory and a line end, and nothing else,
      whatever arguments follow the word. */
  lemma PwdTurn(s: SessionState, t: string, v: string, args: seq<string>, w: World)
    requires s.open
    requires w.split(Trim(t)) == Some([v] + args) && Lower(v) == "pwd"
    ensures Next(s, Event(Text(t), w)) == s.(outbox := s.outbox + [Output(CleanOutput(s.dir + "\r\n"))])
  {
    PwdReply(Trim(t), v, args, s.dir, w);
    TurnWithReply(s, t, w, Reply(s.dir + "\r\n", s.dir));
    StayingTurn(s, s.dir + "\r\n");
  }

  lemma TurnWithReply(s: SessionState, t: string, w: World, r: Reply)
    requires s.open && Dispatch(Trim(t), s.dir, w) == r
    ensures Next(s, Event(Text(t), w)) == TextTurn(s, r)
  {
  }

  /** A successful listing is cleaned by `ls` and again before sending; the
      client gets it cleaned once, and the directory stays. */
  lemma ListingSentOnce(s: SessionState, t: string, v: string, args: seq<string>, w: World, stdout: string)
    requires s.open
    requires w.split(Trim(t)) == Some([v] + args) && Lower(v) == "ls"
    requires w.run(Invocation("ls", s.dir, args)) == Success(stdout) && CleanOutput(stdout) != []
    ensures Next(s, Event(Text(t), w)) == s.(outbox := s.outbox + [Output(CleanOutput(stdout))])
  {
    ProgramReply(Trim(t), v, args, s.dir, w);
    TurnWithReply(s, t, w, Reply(CleanOutput(stdout), s.dir));
    StayingTurn(s, CleanOutput(stdout));
    CleanOutputIdempotent(stdout);
  }

  /** `help` reaches the client with every ESC of its colour codes removed. */
  lemma HelpSentWithoutEscape(s: SessionState, t: string, v: string, args: seq<string>, w: World)
    requires s.open
    requires w.split(Trim(t)) == Some([v] + args) && Lower(v) == "help"
    ensures var n := Next(s, Event(Text(t), w));
      n.dir == s.dir && n.outbox == s.outbox + [Output(CleanOutput(HelpText))]
      && Escape in HelpText && Escape !in n.outbox[|n.outbox| - 1].text
  {
    HelpReply(Trim(t), v, args, s.dir, w);
    TurnWithReply(s, t, w, Reply(HelpText, s.dir));
    StayingTurn(s, HelpText);
    HelpLosesEscape();
  }

  lemma EmittedParts(before: seq<WebSocketResponse>, response: string, dir: Path, newDir: Path)
    ensures before + Emitted(response, dir, newDir)
            == before + Emitted(response, dir, dir) + (if !SamePath(newDir, dir) then [CwdUpdate(newDir)] else [])
  {
  }

  /** One connection's session. */
  class Session {
    var currentDir: Path
    var outbox: seq<WebSocketResponse>
    var open: bool

    function State(): SessionState
      reads this
    {
      SessionState(currentDir, outbox, open)
    }

    ghost predicate Valid()
      reads this
    {
      InSync(State())
    }

    /** The opening: start in the process's working directory (or the root
        when it is unavailable), send the welcome text, then that directory. */
    constructor(startDir: Option<Path>)
      ensures State() == Opening(startDir) && Valid()
    {
      currentDir := startDir.GetOr(FallbackDir);
      outbox := [Output(CleanOutput(Welcome))];
      outbox := outbox + [CwdUpdate(currentDir)];
      open := true;
      OpeningInSync(startDir);
    }

    /** One pass of the receive loop. */
    method Turn(e: Event)
      requires open && Valid()
      modifies this
      ensures State() == Next(old(State()), e) && Valid()
    {
      match e.msg {
        case Text(t) =>
          var response, newCwd := ProcessCommand(Trim(t), currentDir, e.world);
          Deliver(response, newCwd);
        case Pong =>
        case Close =>
          open := false;
        case Unsupported =>
        case TransportError =>
          open := false;
      }
      NextPreservesInSync(old(State()), e);
    }

    /** Sends what a command produced, in order: its cleaned response if the
        raw response is not empty, then the new directory if it is a
        different path, which also becomes the session's directory. */
    method Deliver(response: string, newCwd: Path)
      modifies this
      ensures State() == TextTurn(old(State()), Reply(response, newCwd))
    {
      ghost var before := outbox;
      ghost var dir := currentDir;
      if response != [] {
        outbox := outbox + [Output(CleanOutput(response))];
      }
      assert outbox == before + Emitted(response, dir, dir);
      if !SamePath(newCwd, currentDir) {
        currentDir := newCwd;
        outbox := outbox + [CwdUpdate(currentDir)];
      }
      EmittedParts(before, response, dir, newCwd);
    }

    /** The receive loop: handle messages until the stream ends or the
        session is closed. */
    method Serve(events: seq<Event>)
      requires Valid()
      modifies this
      ensures State() == Replay(old(State()), events) && Valid()
    {
      var i := 0;
      while i < |events| && open
        invariant 0 <= i <= |events|
        invariant Valid()
        invariant Replay(old(State()), events) == Replay(State(), events[i..])
      {
        assert events[i..][1..] == events[i + 1..];
        Turn(events[i]);
        i := i + 1;
      }
    }
  }
}
