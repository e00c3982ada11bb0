/** One session channel (internal/sshd/connector.go, handleSessionCh and SessionV2): a loop that
    answers requests beside a single worker that serves one of them, joined by four channels. */
module Session {
  import opened Limiter

  const EXEC_CAPACITY: nat := 1
  const RESIZE_CAPACITY: nat := 8
  const UINT16: nat := 0x1_0000

  datatype Size = Size(width: nat, height: nat)

  /** A channel request; `parses` tells whether its payload unmarshals. */
  datatype Request =
    | PtyReq(parses: bool, size: Size)
    | WindowChange(parses: bool, size: Size)
    | Env(parses: bool)
    | Shell
    | Exec(parses: bool, command: string)
    | Subsystem(parses: bool, name: string)
    | Unknown

  datatype Kind = ShellKind | ExecKind | SftpKind

  /** The loop takes a request, acts on it (which may block), and replies. */
  datatype Loop =
    | Selecting
    | Acting(req: Request)
    | Replying(req: Request, ok: bool)
    | Waiting
    | Returned
    | Panicked

  datatype Worker = Choosing | Serving(kind: Kind) | Finished

  datatype Answer = Answer(req: Request, ok: bool)

  datatype Event =
    | Receive(req: Request)
    | Act
    | Reply
    | RequestsClosed
    | SeeDone
    | ParentCancel
    | PickShell
    | PickExec
    | PickSftp
    | GiveUp
    | StreamStarts
    | HandlerReturns
    | NextSize
    | Return

  /** `streaming` tells whether the shell's stream was ever started: only a started stream asks for
      terminal sizes. `received`, `answers`, `invoked`, `served`, `accepted` and `taken` record history;
      `served` holds the command handed to the exec handler. */
  datatype State = State(
    loop: Loop,
    worker: Worker,
    parentDone: bool,
    shellClosed: bool,
    sftpClosed: bool,
    streaming: bool,
    exec: seq<string>,
    resize: seq<Size>,
    received: seq<Request>,
    answers: seq<Answer>,
    invoked: seq<Kind>,
    served: seq<string>,
    accepted: seq<Size>,
    taken: seq<Size>
  )

  const INITIAL: State := State(Selecting, Choosing, false, false, false, false, [], [], [], [], [], [], [], [])

  predicate IsSize(req: Request) { (req.PtyReq? || req.WindowChange?) && req.parses }

  predicate IsSftp(req: Request) { req.Subsystem? && req.parses && req.name == "sftp" }

  /** A send into a full channel blocks the loop. */
  predicate CanAct(s: State, req: Request) {
    && (IsSize(req) ==> |s.resize| < RESIZE_CAPACITY)
    && (req.Exec? && req.parses ==> |s.exec| < EXEC_CAPACITY)
  }

  predicate Enabled(s: State, e: Event) {
    match e
    case Receive(_) => s.loop.Selecting?
    case Act => s.loop.Acting? && CanAct(s, s.loop.req)
    case Reply => s.loop.Replying?
    case RequestsClosed => s.loop.Selecting?
    case SeeDone => s.loop.Selecting? && (s.parentDone || s.worker.Finished?)
    case ParentCancel => true
    case PickShell => s.worker.Choosing? && s.shellClosed
    case PickExec => s.worker.Choosing? && s.exec != []
    case PickSftp => s.worker.Choosing? && s.sftpClosed
    case GiveUp => s.worker.Choosing?
    case HandlerReturns => s.worker.Serving?
    case StreamStarts => s.worker == Serving(ShellKind) && !s.streaming
    case NextSize => s.streaming && s.resize != []
    case Return => s.loop.Waiting? && s.worker.Finished?
  }

  /** What the loop does with a request it has taken. */
  function ActOn(s: State, req: Request): State
    requires CanAct(s, req)
  {
    match req
    case PtyReq(true, size) =>
      s.(resize := s.resize + [size], accepted := s.accepted + [size], loop := Replying(req, true))
    case WindowChange(true, size) =>
      s.(resize := s.resize + [size], accepted := s.accepted + [size], loop := Replying(req, true))
    case Env(true) => s.(loop := Replying(req, true))
    case Shell =>
      if s.shellClosed then s.(loop := Replying(req, false))
      else s.(shellClosed := true, loop := Replying(req, true))
    case Exec(true, command) => s.(exec := s.exec + [command], loop := Replying(req, true))
    case Subsystem(true, name) =>
      if name != "sftp" then s.(loop := Replying(req, false))
      else if s.sftpClosed then s.(loop := Panicked)
      else s.(sftpClosed := true, loop := Replying(req, true))
    case _ => s.(loop := Replying(req, false))
  }

  /** One step; the worker gives up on cancellation or on its two-second timer, and the shell's
      handler may return without having started its stream. An event that is not enabled changes
      nothing. */
  function Step(s: State, e: Event): State {
    if !Enabled(s, e) then s else
    match e
    case Receive(req) => s.(loop := Acting(req), received := s.received + [req])
    case Act => ActOn(s, s.loop.req)
    case Reply => s.(loop := Selecting, answers := s.answers + [Answer(s.loop.req, s.loop.ok)])
    case RequestsClosed => s.(loop := Waiting)
    case SeeDone => s.(loop := Waiting)
    case ParentCancel => s.(parentDone := true)
    case PickShell => s.(worker := Serving(ShellKind), invoked := s.invoked + [ShellKind])
    case PickExec =>
      s.(worker := Serving(ExecKind), invoked := s.invoked + [ExecKind],
         served := s.served + [s.exec[0]], exec := s.exec[1..])
    case PickSftp => s.(worker := Serving(SftpKind), invoked := s.invoked + [SftpKind])
    case GiveUp => s.(worker := Finished)
    case StreamStarts => s.(streaming := true)
    case HandlerReturns => s.(worker := Finished)
    case NextSize => s.(resize := s.resize[1..], taken := s.taken + [s.resize[0]])
    case Return => s.(loop := Returned)
  }

  function Pick(kind: Kind): Event {
    match kind
    case ShellKind => PickShell
    case ExecKind => PickExec
    case SftpKind => PickSftp
  }

  function Run(s: State, es: seq<Event>): State {
    if es == [] then s else Step(Run(s, es[..|es| - 1]), es[|es| - 1])
  }

  /** The terminal size that the shell's queue hands out: 16 bits of each dimension. */
  function Truncated(size: Size): Size { Size(size.width % UINT16, size.height % UINT16) }

  /** The session's variables, with the steps of the loop and of the size queue that branch. */
  class SessionV2 {
    var loop: Loop
    var worker: Worker
    var parentDone: bool
    var shellClosed: bool
    var sftpClosed: bool
    var streaming: bool
    var exec: seq<string>
    var resize: seq<Size>
    ghost var received: seq<Request>
    ghost var answers: seq<Answer>
    ghost var invoked: seq<Kind>
    ghost var served: seq<string>
    ghost var accepted: seq<Size>
    ghost var taken: seq<Size>

    ghost function View(): State
      reads this
    {
      State(loop, worker, parentDone, shellClosed, sftpClosed, streaming, exec, resize,
            received, answers, invoked, served, accepted, taken)
    }

    /** What every run keeps holds of the session. */
    ghost predicate Valid()
      reads this
    {
      Inv(View())
    }

    constructor ()
      ensures Valid() && View() == INITIAL
    {
      loop, worker, parentDone, shellClosed, sftpClosed, streaming := Selecting, Choosing, false, false, false, false;
      exec, resize, received, answers, invoked, served, accepted, taken := [], [], [], [], [], [], [], [];
    }

    /** Act on the request in hand; not enabled while a send would block. */
    method HandleRequest()
      requires Valid() && Enabled(View(), Act)
      modifies this
      ensures Valid() && View() == Step(old(View()), Act)
    {
      hide Inv;
      InvStep(View(), Act);
      var req := loop.req;
      match req {
        case PtyReq(parses, size) => HandleSize(parses, size);
        case WindowChange(parses, size) => HandleSize(parses, size);
        case Env(parses) => loop := Replying(req, parses);
        case Unknown => loop := Replying(req, false);
        case _ => HandleStart();
      }
    }

    method HandleSize(parses: bool, size: Size)
      requires Enabled(View(), Act) && (loop.req == PtyReq(parses, size) || loop.req == WindowChange(parses, size))
      modifies this
      ensures View() == Step(old(View()), Act)
    {
      if parses {
        resize, accepted := resize + [size], accepted + [size];
      }
      loop := Replying(loop.req, parses);
    }

    method HandleStart()
      requires Enabled(View(), Act) && (loop.req.Shell? || loop.req.Exec? || loop.req.Subsystem?)
      modifies this
      ensures View() == Step(old(View()), Act)
    {
      var req := loop.req;
      var ok := false;
      match req {
        case Shell =>
          if !shellClosed {
            shellClosed, ok := true, true;
          }
        case Exec(parses, command) =>
          if parses {
            exec, ok := exec + [command], true;
          }
        case Subsystem(parses, name) =>
          if parses && name == "sftp" {
            if sftpClosed {
              loop := Panicked;
              return;
            }
            sftpClosed, ok := true, true;
          }
      }
      loop := Replying(req, ok);
    }

    method SendReply()
      requires Valid() && loop.Replying?
      modifies this
      ensures Valid() && View() == Step(old(View()), Reply)
    {
      hide Inv;
      InvStep(View(), Reply);
      answers := answers + [Answer(loop.req, loop.ok)];
      loop := Selecting;
    }

    /** The worker takes what the loop has offered of this kind, and invokes its handler; `command`
        is what it hands to the exec handler. */
    method PickHandler(kind: Kind) returns (command: Option<string>)
      requires Valid() && Enabled(View(), Pick(kind))
      modifies this
      ensures Valid() && View() == Step(old(View()), Pick(kind))
      ensures command == if kind.ExecKind? then Some(old(exec)[0]) else None
    {
      hide Inv;
      InvStep(View(), Pick(kind));
      worker := Serving(kind);
      invoked := invoked + [kind];
      command := None;
      if kind.ExecKind? {
        command := Some(exec[0]);
        served := served + [exec[0]];
        exec := exec[1..];
      }
    }

    /** The shell's stream asks for the next terminal size. */
    method TakeSize() returns (size: Size)
      requires Valid() && Enabled(View(), NextSize)
      modifies this
      ensures Valid() && View() == Step(old(View()), NextSize)
      ensures size == Truncated(old(resize)[0])
      ensures old(resize)[0].width < 65536 && old(resize)[0].height < 65536 ==> size == old(resize)[0]
    {
      hide Inv;
      InvStep(View(), NextSize);
      size := Size(resize[0].width % UINT16, resize[0].height % UINT16);
      taken := taken + [resize[0]];
      resize := resize[1..];
    }
  }

  // ---------- what every run keeps ----------

  /** The request being handled, or none. */
  function InHand(s: State): seq<Request> {
    match s.loop
    case Acting(req) => [req]
    case Replying(req, _) => [req]
    case _ => []
  }

  function Requests(answers: seq<Answer>): (r: seq<Request>)
    ensures |r| == |answers|
  {
    seq(|answers|, k requires 0 <= k < |answers| => answers[k].req)
  }

  /** A well-formed request to start a handler of this kind. */
  predicate Starts(req: Request, kind: Kind) {
    match kind
    case ShellKind => req.Shell?
    case ExecKind => req.Exec? && req.parses
    case SftpKind => IsSftp(req)
  }

  /** How many requests to start a handler of this kind have been granted. */
  function Granted(answers: seq<Answer>, kind: Kind): nat {
    if answers == [] then 0
    else
      var last := answers[|answers| - 1];
      Granted(answers[..|answers| - 1], kind) + One(last.ok && Starts(last.req, kind))
  }

  /** How many of the requests are well-formed requests to start a handler of this kind. */
  function Asked(reqs: seq<Request>, kind: Kind): nat {
    if reqs == [] then 0 else Asked(reqs[..|reqs| - 1], kind) + One(Starts(reqs[|reqs| - 1], kind))
  }

  /** One more if the loop is about to grant such a request. */
  function Granting(s: State, kind: Kind): nat {
    Granted(s.answers, kind) + One(s.loop.Replying? && s.loop.ok && Starts(s.loop.req, kind))
  }

  function One(b: bool): nat { if b then 1 else 0 }

  ghost predicate AnswersInOrder(s: State) {
    if s.loop.Panicked? then exists req :: IsSftp(req) && s.received == Requests(s.answers) + [req]
    else s.received == Requests(s.answers) + InHand(s)
  }

  ghost predicate WorkerOnce(s: State) {
    && (s.worker.Choosing? ==> s.invoked == [])
    && (s.worker.Serving? ==> s.invoked == [s.worker.kind])
    && |s.invoked| <= 1
    && (s.streaming ==> s.invoked == [ShellKind])
    && (s.loop.Returned? ==> s.worker.Finished?)
  }

  /** The channels that start a handler record exactly the start requests granted. */
  ghost predicate StartsRecorded(s: State) {
    && Granting(s, ShellKind) == One(s.shellClosed)
    && Granting(s, SftpKind) == One(s.sftpClosed)
    && Granting(s, ExecKind) == |s.exec| + One(ExecKind in s.invoked)
    && (ShellKind in s.invoked ==> s.shellClosed)
    && (SftpKind in s.invoked ==> s.sftpClosed)
    && |s.exec| <= EXEC_CAPACITY
    && (s.loop.Panicked? ==> s.sftpClosed)
  }

  /** Every exec and sftp request answered was granted, and of the shell requests the first. */
  ghost predicate AsksGranted(s: State) {
    && Granted(s.answers, ExecKind) == Asked(Requests(s.answers), ExecKind)
    && Granted(s.answers, SftpKind) == Asked(Requests(s.answers), SftpKind)
    && Granted(s.answers, ShellKind) == One(0 < Asked(Requests(s.answers), ShellKind))
    && (s.loop.Replying? && (Starts(s.loop.req, ExecKind) || IsSftp(s.loop.req)) ==> s.loop.ok)
    && (s.loop.Replying? && s.loop.req.Shell? ==> (s.loop.ok <==> Granted(s.answers, ShellKind) == 0))
  }

  /** A well-formed sftp request is never refused: it is granted, or it panics. */
  ghost predicate SftpNeverRefused(s: State) {
    && (forall k :: 0 <= k < |s.answers| && IsSftp(s.answers[k].req) ==> s.answers[k].ok)
    && (s.loop.Replying? && IsSftp(s.loop.req) ==> s.loop.ok)
  }

  ghost predicate SizesInOrder(s: State) {
    s.accepted == s.taken + s.resize && |s.resize| <= RESIZE_CAPACITY
  }

  /** The sizes among the granted answers, in order. */
  function SizesOf(answers: seq<Answer>): seq<Size> {
    if answers == [] then []
    else
      var last := answers[|answers| - 1];
      SizesOf(answers[..|answers| - 1]) + (if last.ok && IsSize(last.req) then [last.req.size] else [])
  }

  ghost predicate SizesGranted(s: State) {
    s.accepted == SizesOf(s.answers)
                  + (if s.loop.Replying? && s.loop.ok && IsSize(s.loop.req) then [s.loop.req.size] else [])
    && (s.loop.Replying? && IsSize(s.loop.req) ==> s.loop.ok)
  }

  /** The commands among the granted answers, in order. */
  function CommandsOf(answers: seq<Answer>): seq<string> {
    if answers == [] then []
    else
      var last := answers[|answers| - 1];
      CommandsOf(answers[..|answers| - 1]) + (if last.ok && Starts(last.req, ExecKind) then [last.req.command] else [])
  }

  /** The command whose request is about to be granted. */
  function CommandInReply(s: State): seq<string> {
    if s.loop.Replying? && s.loop.ok && Starts(s.loop.req, ExecKind) then [s.loop.req.command] else []
  }

  ghost predicate CommandsInOrder(s: State) {
    && s.served + s.exec == CommandsOf(s.answers) + CommandInReply(s)
    && |s.served| == One(ExecKind in s.invoked)
  }

  /** What the answer to a request should be, after those that came before. */
  predicate Deserved(earlier: seq<Request>, req: Request) {
    match req
    case PtyReq(parses, _) => parses
    case WindowChange(parses, _) => parses
    case Env(parses) => parses
    case Shell => Shell !in earlier
    case Exec(parses, _) => parses
    case Subsystem(parses, name) => parses && name == "sftp"
    case Unknown => false
  }

  ghost predicate AnswersRight(s: State) {
    && (forall k :: 0 <= k < |s.answers| ==>
          (s.answers[k].ok <==> Deserved(Requests(s.answers)[..k], s.answers[k].req)))
    && (s.loop.Replying? ==> (s.loop.ok <==> Deserved(Requests(s.answers), s.loop.req)))
    && (s.shellClosed <==> Shell in Requests(s.answers) || (s.loop.Replying? && s.loop.req.Shell?))
  }

  ghost predicate Inv(s: State) {
    AnswersInOrder(s) && WorkerOnce(s) && StartsRecorded(s) && SftpNeverRefused(s)
    && SizesInOrder(s) && SizesGranted(s) && AsksGranted(s)
    && CommandsInOrder(s) && AnswersRight(s)
  }

  lemma AppendedAnswer(answers: seq<Answer>, a: Answer)
    ensures forall kind :: Granted(answers + [a], kind) == Granted(answers, kind) + One(a.ok && Starts(a.req, kind))
    ensures Requests(answers + [a]) == Requests(answers) + [a.req]
    ensures forall kind :: Asked(Requests(answers) + [a.req], kind)
                           == Asked(Requests(answers), kind) + One(Starts(a.req, kind))
    ensures CommandsOf(answers + [a])
            == CommandsOf(answers) + (if a.ok && Starts(a.req, ExecKind) then [a.req.command] else [])
    ensures SizesOf(answers + [a]) == SizesOf(answers) + (if a.ok && IsSize(a.req) then [a.req.size] else [])
  {
    assert (answers + [a])[..|answers|] == answers;
    assert (Requests(answers) + [a.req])[..|answers|] == Requests(answers);
  }

  /** How acting on a request leaves the loop. */
  lemma ActLoop(s: State, req: Request)
    requires CanAct(s, req)
    ensures var t := ActOn(s, req);
            && (t.loop.Panicked? <==> IsSftp(req) && s.sftpClosed)
            && (!t.loop.Panicked? ==> t.loop.Replying? && t.loop.req == req)
            && (IsSize(req) ==> t.loop == Replying(req, true))
            && (IsSftp(req) && t.loop.Replying? ==> t.loop.ok)
  {
  }

  lemma ActSizes(s: State, req: Request)
    requires CanAct(s, req)
    ensures var t := ActOn(s, req);
            && (IsSize(req) ==> t.resize == s.resize + [req.size] && t.accepted == s.accepted + [req.size])
            && (!IsSize(req) ==> t.resize == s.resize && t.accepted == s.accepted)
  {
  }

  lemma ActHistory(s: State, req: Request)
    requires CanAct(s, req)
    ensures var t := ActOn(s, req);
            && t.worker == s.worker && t.invoked == s.invoked && t.taken == s.taken && t.streaming == s.streaming
            && t.parentDone == s.parentDone && t.received == s.received && t.answers == s.answers && t.served == s.served
  {
  }

  /** What acting on a request touches, and what it leaves alone. */
  lemma ActFrame(s: State, req: Request)
    requires CanAct(s, req)
    ensures var t := ActOn(s, req);
            && t.worker == s.worker && t.invoked == s.invoked && t.taken == s.taken && t.streaming == s.streaming
            && t.parentDone == s.parentDone && t.received == s.received && t.answers == s.answers && t.served == s.served
            && (t.loop.Panicked? <==> IsSftp(req) && s.sftpClosed)
            && (!t.loop.Panicked? ==> t.loop.Replying? && t.loop.req == req)
            && (IsSize(req) ==> t.loop == Replying(req, true))
            && (IsSize(req) ==> t.resize == s.resize + [req.size] && t.accepted == s.accepted + [req.size])
            && (!IsSize(req) ==> t.resize == s.resize && t.accepted == s.accepted)
            && (IsSftp(req) && t.loop.Replying? ==> t.loop.ok)
  {
    hide ActOn;
    ActLoop(s, req);
    ActSizes(s, req);
    ActHistory(s, req);
  }

  /** What acting does to the channels that start a handler. */
  lemma ActStarts(s: State, req: Request)
    requires CanAct(s, req)
    ensures var t := ActOn(s, req);
            var grants := t.loop.Replying? && t.loop.ok;
            && One(t.shellClosed) == One(s.shellClosed) + One(grants && req.Shell?)
            && (t.loop.Panicked? ==> t.sftpClosed)
            && One(t.sftpClosed) == One(s.sftpClosed) + One(grants && IsSftp(req))
            && |t.exec| == |s.exec| + One(grants && Starts(req, ExecKind))
            && (Starts(req, ExecKind) || IsSftp(req) ==> t.loop.Panicked? || grants)
            && (req.Shell? ==> (grants <==> !s.shellClosed))
            && |t.exec| <= if req.Exec? && req.parses then EXEC_CAPACITY else |s.exec|
  {
  }

  /** What acting answers, and what it does to the channel of commands. */
  lemma ActAnswers(s: State, req: Request, earlier: seq<Request>)
    requires CanAct(s, req) && (s.shellClosed <==> Shell in earlier)
    ensures var t := ActOn(s, req);
            && (t.loop.Replying? ==> (t.loop.ok <==> Deserved(earlier, req)))
            && (t.shellClosed <==> s.shellClosed || req.Shell?)
            && t.exec == s.exec + CommandInReply(t)
  {
    assert s.exec + [] == s.exec;
  }

  lemma CommandsAct(s: State)
    requires CommandsInOrder(s) && AnswersRight(s) && Enabled(s, Act)
    ensures CommandsInOrder(Step(s, Act))
  {
    hide ActOn, CommandsOf, Requests, Deserved;
    var all := CommandsOf(s.answers);
    ActFrame(s, s.loop.req);
    ActAnswers(s, s.loop.req, Requests(s.answers));
    assert all + [] == all;
    assert s.served + (s.exec + CommandInReply(Step(s, Act))) == s.served + s.exec + CommandInReply(Step(s, Act));
  }

  lemma CommandsReply(s: State)
    requires CommandsInOrder(s) && Enabled(s, Reply)
    ensures CommandsInOrder(Step(s, Reply))
  {
    hide ActOn, CommandsOf, Requests;
    AppendedAnswer(s.answers, Answer(s.loop.req, s.loop.ok));
    var more := CommandsOf(s.answers + [Answer(s.loop.req, s.loop.ok)]);
    assert more + [] == more;
  }

  lemma CommandsPick(s: State)
    requires CommandsInOrder(s) && WorkerOnce(s) && Enabled(s, PickExec)
    ensures CommandsInOrder(Step(s, PickExec))
  {
    hide ActOn, CommandsOf;
    assert s.served == [];
    assert s.exec == [s.exec[0]] + s.exec[1..];
  }

  lemma CommandsStep(s: State, e: Event)
    requires CommandsInOrder(s) && WorkerOnce(s) && AnswersRight(s)
    ensures CommandsInOrder(Step(s, e))
  {
    hide ActOn, CommandsOf, AnswersRight;
    match e {
      case Act => if Enabled(s, e) { CommandsAct(s); }
      case Reply => if Enabled(s, e) { CommandsReply(s); }
      case PickExec => if Enabled(s, e) { CommandsPick(s); }
      case _ => CommandsFrame(s, e);
    }
  }

  lemma CommandsFrame(s: State, e: Event)
    requires CommandsInOrder(s) && !e.Act? && !e.Reply? && !e.PickExec?
    ensures CommandsInOrder(Step(s, e))
  {
    hide ActOn, CommandsOf;
    var all := CommandsOf(s.answers);
    assert all + [] == all;
    assert ExecKind !in [ShellKind] && ExecKind !in [SftpKind];
  }

  lemma RightReply(s: State)
    requires AnswersRight(s) && Enabled(s, Reply)
    ensures AnswersRight(Step(s, Reply))
  {
    hide ActOn, Deserved, Requests;
    var a := Answer(s.loop.req, s.loop.ok);
    var reqs := Requests(s.answers);
    AppendedAnswer(s.answers, a);
    forall k | 0 <= k < |s.answers| + 1
      ensures (s.answers + [a])[k].ok <==> Deserved((reqs + [a.req])[..k], (s.answers + [a])[k].req)
    {
      assert (reqs + [a.req])[..k] == reqs[..k];
      assert reqs[..|reqs|] == reqs;
    }
  }

  lemma RightStep(s: State, e: Event)
    requires AnswersRight(s)
    ensures AnswersRight(Step(s, e))
  {
    hide ActOn, Deserved, Requests;
    if !e.Act? && !e.Reply? {
      LoopFrame(s, e);
    } else if Enabled(s, e) {
      if e.Act? {
        ActFrame(s, s.loop.req);
        ActAnswers(s, s.loop.req, Requests(s.answers));
      } else {
        RightReply(s);
      }
    }
  }

  lemma AnswersStep(s: State, e: Event)
    requires AnswersInOrder(s)
    ensures AnswersInOrder(Step(s, e))
  {
    hide ActOn, Requests;
    if Enabled(s, e) {
      match e {
        case Act => ActFrame(s, s.loop.req);
        case Reply => AppendedAnswer(s.answers, Answer(s.loop.req, s.loop.ok));
        case _ =>
      }
    }
  }

  lemma WorkerStep(s: State, e: Event)
    requires WorkerOnce(s)
    ensures WorkerOnce(Step(s, e))
  {
    hide ActOn;
    if Enabled(s, e) && e.Act? {
      ActFrame(s, s.loop.req);
    }
  }

  lemma ActKeepsStarts(s: State)
    requires StartsRecorded(s) && Enabled(s, Act)
    ensures StartsRecorded(Step(s, Act))
  {
    hide ActOn, Granted;
    ActFrame(s, s.loop.req);
    ActStarts(s, s.loop.req);
  }

  lemma PickKeepsStarts(s: State, e: Event)
    requires WorkerOnce(s) && StartsRecorded(s) && (e.PickShell? || e.PickExec? || e.PickSftp?)
    ensures StartsRecorded(Step(s, e))
  {
    hide ActOn, Granted;
  }

  lemma ReplyKeepsStarts(s: State)
    requires StartsRecorded(s) && Enabled(s, Reply)
    ensures StartsRecorded(Step(s, Reply))
  {
    hide ActOn, Granted;
    AppendedAnswer(s.answers, Answer(s.loop.req, s.loop.ok));
  }

  lemma StartsStep(s: State, e: Event)
    requires WorkerOnce(s) && StartsRecorded(s)
    ensures StartsRecorded(Step(s, e))
  {
    hide ActOn, Granted;
    match e {
      case Act => if Enabled(s, e) { ActKeepsStarts(s); }
      case Reply => if Enabled(s, e) { ReplyKeepsStarts(s); }
      case PickShell => PickKeepsStarts(s, e);
      case PickExec => PickKeepsStarts(s, e);
      case PickSftp => PickKeepsStarts(s, e);
      case _ =>
    }
  }

  lemma AsksAct(s: State)
    requires StartsRecorded(s) && AsksGranted(s) && Enabled(s, Act)
    ensures AsksGranted(Step(s, Act))
  {
    hide ActOn, Granted, Asked, Requests;
    ActFrame(s, s.loop.req);
    ActStarts(s, s.loop.req);
  }

  lemma AsksReply(s: State)
    requires AsksGranted(s) && Enabled(s, Reply)
    ensures AsksGranted(Step(s, Reply))
  {
    hide ActOn, Granted, Asked, Requests;
    AppendedAnswer(s.answers, Answer(s.loop.req, s.loop.ok));
  }

  lemma AsksStep(s: State, e: Event)
    requires StartsRecorded(s) && AsksGranted(s)
    ensures AsksGranted(Step(s, e))
  {
    hide StartsRecorded;
    if !e.Act? && !e.Reply? {
      LoopFrame(s, e);
    } else if Enabled(s, e) {
      if e.Act? { AsksAct(s); } else { AsksReply(s); }
    }
  }

  /** Other events leave the answers alone, and a reply under way. */
  lemma LoopFrame(s: State, e: Event)
    requires !e.Act? && !e.Reply?
    ensures var t := Step(s, e);
            && t.answers == s.answers && t.shellClosed == s.shellClosed
            && (t.loop.Replying? <==> s.loop.Replying?) && (s.loop.Replying? ==> t.loop == s.loop)
  {
    hide ActOn;
  }

  lemma SftpStep(s: State, e: Event)
    requires SftpNeverRefused(s)
    ensures SftpNeverRefused(Step(s, e))
  {
    hide ActOn;
    if Enabled(s, e) && e.Act? {
      ActFrame(s, s.loop.req);
    }
  }

  lemma SizesStep(s: State, e: Event)
    requires SizesInOrder(s)
    ensures SizesInOrder(Step(s, e))
  {
    hide ActOn;
    if Enabled(s, e) {
      match e {
        case Act =>
          ActFrame(s, s.loop.req);
          if IsSize(s.loop.req) {
            assert s.accepted + [s.loop.req.size] == s.taken + (s.resize + [s.loop.req.size]);
          }
        case NextSize => assert s.resize == [s.resize[0]] + s.resize[1..];
        case _ =>
      }
    }
  }

  lemma SizesGrantedStep(s: State, e: Event)
    requires SizesGranted(s)
    ensures SizesGranted(Step(s, e))
  {
    hide ActOn, SizesOf;
    if Enabled(s, e) {
      match e {
        case Act =>
          ActFrame(s, s.loop.req);
          assert SizesOf(s.answers) + [] == SizesOf(s.answers);
        case Reply =>
          AppendedAnswer(s.answers, Answer(s.loop.req, s.loop.ok));
          var granted := SizesOf(s.answers + [Answer(s.loop.req, s.loop.ok)]);
          assert granted + [] == granted;
        case _ =>
      }
    }
  }

  lemma InvStep(s: State, e: Event)
    requires Inv(s)
    ensures Inv(Step(s, e))
  {
    hide Step, AnswersInOrder, WorkerOnce, StartsRecorded, SftpNeverRefused, SizesInOrder, SizesGranted, AsksGranted,
         CommandsInOrder, AnswersRight;
    AnswersStep(s, e);
    WorkerStep(s, e);
    StartsStep(s, e);
    SftpStep(s, e);
    SizesStep(s, e);
    SizesGrantedStep(s, e);
    AsksStep(s, e);
    CommandsStep(s, e);
    RightStep(s, e);
  }

  lemma {:induction false} RunInv(es: seq<Event>)
    ensures Inv(Run(INITIAL, es))
  {
    hide Step;
    if es != [] {
      RunInv(es[..|es| - 1]);
      InvStep(Run(INITIAL, es[..|es| - 1]), es[|es| - 1]);
    }
  }

  // ---------- what holds of every session ----------

  lemma {:induction false} GrantedWitness(answers: seq<Answer>, kind: Kind) returns (k: nat)
    requires 0 < Granted(answers, kind)
    ensures k < |answers| && answers[k].ok && Starts(answers[k].req, kind)
  {
    k := |answers| - 1;
    if !(answers[k].ok && Starts(answers[k].req, kind)) {
      k := GrantedWitness(answers[..|answers| - 1], kind);
    }
  }

  lemma {:induction false} GrantedAt(answers: seq<Answer>, kind: Kind, k: nat)
    requires k < |answers| && answers[k].ok && Starts(answers[k].req, kind)
    ensures 0 < Granted(answers, kind)
  {
    if k < |answers| - 1 { GrantedAt(answers[..|answers| - 1], kind, k); }
  }

  lemma InvokedWasGranted(s: State, kind: Kind)
    requires StartsRecorded(s) && kind in s.invoked
    ensures 0 < Granting(s, kind)
  {
    hide Granted;
    match kind {
      case ShellKind => assert Granting(s, ShellKind) == One(s.shellClosed);
      case ExecKind => assert Granting(s, ExecKind) >= One(ExecKind in s.invoked);
      case SftpKind => assert Granting(s, SftpKind) == One(s.sftpClosed);
    }
  }

  /** At most one handler is ever invoked, and one of its kind was asked for. */
  lemma AtMostOneHandler(es: seq<Event>)
    ensures var s := Run(INITIAL, es);
            && |s.invoked| <= 1
            && (forall kind :: kind in s.invoked ==> exists k :: 0 <= k < |s.received| && Starts(s.received[k], kind))
  {
    hide Step, Granted;
    RunInv(es);
    var s := Run(INITIAL, es);
    forall kind | kind in s.invoked ensures exists k :: 0 <= k < |s.received| && Starts(s.received[k], kind) {
      InvokedWasGranted(s, kind);
      if 0 < Granted(s.answers, kind) {
        var k := GrantedWitness(s.answers, kind);
        assert s.received[k] == s.answers[k].req;
      } else {
        assert s.received[|s.answers|] == s.loop.req;
      }
    }
  }

  /** The handler of a kind is the next to be invoked, if the worker so chooses, exactly when the worker
      has made no choice yet and a request of that kind has been granted. */
  lemma HandlerCanBeInvokedIff(es: seq<Event>, kind: Kind)
    requires Run(INITIAL, es).invoked == []
    ensures var s := Run(INITIAL, es);
            (exists e :: Step(s, e).invoked == [kind] && Step(s, e).worker == Serving(kind)) <==>
            s.worker.Choosing? && 0 < Granting(s, kind)
  {
    hide Granted, Run;
    RunInv(es);
    var s := Run(INITIAL, es);
    OnlyPicksInvoke(s, kind);
    if s.worker.Choosing? && 0 < Granting(s, kind) {
      PickInvokes(s, kind);
      assert Step(s, Pick(kind)).invoked == [kind];
    }
  }

  lemma OnlyPicksInvoke(s: State, kind: Kind)
    requires s.invoked == [] && StartsRecorded(s)
    ensures forall e :: Step(s, e).invoked == [kind] ==> s.worker.Choosing? && 0 < Granting(s, kind)
  {
    hide Granting, ActOn;
    forall e | Step(s, e).invoked == [kind] ensures s.worker.Choosing? && 0 < Granting(s, kind) {
      if e.Act? && Enabled(s, e) { ActHistory(s, s.loop.req); }
      assert Step(s, e).invoked[0] == kind;
      assert e == Pick(kind) && Enabled(s, e);
      assert ExecKind !in s.invoked;
    }
  }

  lemma PickInvokes(s: State, kind: Kind)
    requires s.worker.Choosing? && s.invoked == [] && StartsRecorded(s) && 0 < Granting(s, kind)
    ensures Step(s, Pick(kind)).invoked == [kind] && Step(s, Pick(kind)).worker == Serving(kind)
  {
    hide Granting, ActOn;
    assert ExecKind !in s.invoked;
    match kind {
      case ShellKind => assert s.shellClosed;
      case ExecKind => assert s.exec != [];
      case SftpKind => assert s.sftpClosed;
    }
  }

  /** Requests are answered in the order in which they came, each exactly once; only the one in
      hand is still open. At most one shell request is granted. */
  lemma EveryRequestAnsweredOnce(es: seq<Event>)
    ensures var s := Run(INITIAL, es);
            && Requests(s.answers) <= s.received && |s.received| <= |s.answers| + 1
            && (s.loop.Selecting? || s.loop.Waiting? || s.loop.Returned? ==> Requests(s.answers) == s.received)
            && Granted(s.answers, ShellKind) <= 1
  {
    RunInv(es);
  }

  /** Every answer is the one the request deserves: payloads that do not parse, unknown requests and
      unknown subsystems are refused, of the shell requests all but the first, and nothing else. */
  lemma AnswersAreDeserved(es: seq<Event>, k: nat)
    requires k < |Run(INITIAL, es).answers|
    ensures var s := Run(INITIAL, es);
            k < |s.received| && s.answers[k].req == s.received[k] && (s.answers[k].ok <==> Deserved(s.received[..k], s.received[k]))
  {
    RunInv(es);
    var s := Run(INITIAL, es);
    assert s.received[..k] == Requests(s.answers)[..k];
  }

  /** The commands are a lossless queue: the one handed to the exec handler, followed by the one that
      is still held, are those of the granted exec requests in order. */
  lemma CommandsAreQueued(es: seq<Event>)
    ensures var s := Run(INITIAL, es);
            && s.served + s.exec == CommandsOf(s.answers) + CommandInReply(s)
            && (if s.invoked == [ExecKind] then |s.served| == 1 else s.served == []) && |s.exec| <= 1
  {
    hide CommandsOf;
    RunInv(es);
    var s := Run(INITIAL, es);
    if |s.invoked| == 1 { assert s.invoked == [s.invoked[0]]; }
  }

  /** A size that fits 16 bits in each dimension reaches the shell as it was sent. */
  lemma SmallSizesAreKept(size: Size)
    requires size.width < 65536 && size.height < 65536
    ensures Truncated(size) == size
  {
  }

  lemma ActKeepsWorker(s: State)
    requires Enabled(s, Act)
    ensures var t := Step(s, Act);
            && t.worker == s.worker && t.invoked == s.invoked && t.parentDone == s.parentDone
            && (t.loop.Replying? || t.loop.Panicked?)
  {
    hide ActOn, CanAct;
    ActHistory(s, s.loop.req);
    ActLoop(s, s.loop.req);
  }

  lemma ReturnsStep(s: State, e: Event)
    requires WorkerOnce(s)
    ensures var t := Step(s, e);
            t.worker.Finished? && t.invoked != [] ==> e == HandlerReturns || (s.worker.Finished? && s.invoked != [])
  {
    hide ActOn;
    if e.Act? && Enabled(s, e) { ActHistory(s, s.loop.req); }
  }

  /** The session returns only after its worker has finished, and a worker that has invoked a handler
      finishes only when that handler returns. */
  lemma {:induction false} ReturnsAfterWorker(es: seq<Event>)
    ensures var s := Run(INITIAL, es);
            && (s.loop.Returned? ==> s.worker.Finished?)
            && (s.worker.Finished? && s.invoked != [] ==> HandlerReturns in es)
  {
    hide Step, Inv, WorkerOnce;
    RunInv(es);
    OnceByInv(Run(INITIAL, es));
    if es != [] {
      var before, e := es[..|es| - 1], es[|es| - 1];
      assert es == before + [e];
      RunInv(before);
      OnceByInv(Run(INITIAL, before));
      ReturnsAfterWorker(before);
      ReturnsStep(Run(INITIAL, before), e);
    }
  }

  lemma OnceByInv(s: State)
    requires Inv(s)
    ensures WorkerOnce(s) && (s.loop.Returned? ==> s.worker.Finished?)
  {
  }

  /** The loop panics exactly when it acts on a second well-formed sftp request. */
  lemma PanicsIffSecondSftp(es: seq<Event>)
    requires Enabled(Run(INITIAL, es), Act)
    ensures var s := Run(INITIAL, es);
            Step(s, Act).loop.Panicked? <==>
            IsSftp(s.loop.req) && exists k :: 0 <= k < |s.received| - 1 && IsSftp(s.received[k])
  {
    hide Granted, ActOn, SizesInOrder, SizesGranted, CommandsInOrder, AnswersRight, AsksGranted, WorkerOnce;
    RunInv(es);
    var s := Run(INITIAL, es);
    ActLoop(s, s.loop.req);
    if s.sftpClosed {
      var k := GrantedWitness(s.answers, SftpKind);
      assert s.received[k] == s.answers[k].req;
    }
    if k :| 0 <= k < |s.received| - 1 && IsSftp(s.received[k]) {
      assert s.received[k] == s.answers[k].req;
      GrantedAt(s.answers, SftpKind, k);
    }
  }

  /** Two sftp requests make such a run. */
  lemma TwoSftpRequestsPanic()
    ensures var sftp := Subsystem(true, "sftp");
            Run(INITIAL, TakeAndAnswer(sftp) + [Receive(sftp), Act]).loop == Panicked
  {
    var sftp := Subsystem(true, "sftp");
    RunConcat(INITIAL, TakeAndAnswer(sftp), [Receive(sftp), Act]);
    RunThree(INITIAL, Receive(sftp), Act, Reply);
    RunTwo(Run(INITIAL, TakeAndAnswer(sftp)), Receive(sftp), Act);
  }

  /** The terminal sizes are a lossless queue: those the shell has taken, followed by the at most
      eight that are buffered, are the sizes of the granted requests in order. */
  lemma SizesAreQueued(es: seq<Event>)
    ensures var s := Run(INITIAL, es);
            && |s.resize| <= RESIZE_CAPACITY
            && (!s.loop.Replying? ==> s.taken + s.resize == SizesOf(s.answers))
            && SizesOf(s.answers) <= s.taken + s.resize
            && |s.taken + s.resize| <= |SizesOf(s.answers)| + 1
  {
    RunInv(es);
  }

  /** The start requests granted and never served are exactly those still held in the channels. */
  lemma GrantedStartsAreServedOrHeld(es: seq<Event>)
    ensures var s := Run(INITIAL, es);
            Granting(s, ShellKind) + Granting(s, ExecKind) + Granting(s, SftpKind)
            == |s.invoked| + |s.exec| + One(s.shellClosed && ShellKind !in s.invoked)
               + One(s.sftpClosed && SftpKind !in s.invoked)
  {
    RunInv(es);
    ServedOrHeld(Run(INITIAL, es));
  }

  lemma ServedOrHeld(s: State)
    requires WorkerOnce(s) && StartsRecorded(s)
    ensures Granting(s, ShellKind) + Granting(s, ExecKind) + Granting(s, SftpKind)
            == |s.invoked| + |s.exec| + One(s.shellClosed && ShellKind !in s.invoked)
               + One(s.sftpClosed && SftpKind !in s.invoked)
  {
    if |s.invoked| == 1 {
      var kind := s.invoked[0];
      assert s.invoked == [kind];
      assert forall other :: other in s.invoked <==> other == kind;
    }
  }

  function GrantedStarts(answers: seq<Answer>): nat {
    Granted(answers, ShellKind) + Granted(answers, ExecKind) + Granted(answers, SftpKind)
  }

  /** Section 6.5 of RFC 4254 is kept, in that at most one start request is granted, exactly when
      the requests answered ask for at most one start, counting each well-formed exec request,
      and shell and sftp once each. */
  lemma OneStartIffOneAsked(es: seq<Event>)
    ensures var answers := Run(INITIAL, es).answers;
            var reqs := Requests(answers);
            GrantedStarts(answers) <= 1 <==>
            Asked(reqs, ExecKind) + One(0 < Asked(reqs, ShellKind)) + One(0 < Asked(reqs, SftpKind)) <= 1
  {
    hide Granted, Asked, Requests;
    RunInv(es);
    var s := Run(INITIAL, es);
    assert Granted(s.answers, SftpKind) <= Granting(s, SftpKind) <= 1;
  }

  /** A request to start a handler that the loop grants when it acts on it. */
  predicate Grantable(s: State, req: Request) {
    (req.Shell? && !s.shellClosed) || (req.Exec? && req.parses) || (IsSftp(req) && !s.sftpClosed)
  }

  function GrantingStarts(s: State): nat {
    Granting(s, ShellKind) + Granting(s, ExecKind) + Granting(s, SftpKind)
  }

  lemma GrantsOneMore(s: State)
    requires Enabled(s, Act)
    ensures GrantingStarts(Step(s, Act)) == GrantingStarts(s) + One(Grantable(s, s.loop.req))
  {
    hide Granted, ActOn;
    ActFrame(s, s.loop.req);
    ActStarts(s, s.loop.req);
  }

  lemma SomeStartGranted(s: State)
    requires StartsRecorded(s)
    ensures 0 < GrantingStarts(s) <==> s.shellClosed || s.sftpClosed || s.exec != [] || s.invoked != []
  {
    hide Granting;
    if s.invoked != [] {
      var kind := s.invoked[0];
      assert kind in s.invoked;
      InvokedWasGranted(s, kind);
      assert kind == ShellKind || kind == ExecKind || kind == SftpKind;
    }
    if s.exec == [] && s.invoked == [] {
      assert ExecKind !in s.invoked && Granting(s, ExecKind) == 0;
    }
  }

  /** Acting on a request grants one more start beside an earlier one if and only if the request is
      grantable and a channel that starts a handler is closed or filled, or a handler was invoked. */
  lemma SecondStartGrantedIff(es: seq<Event>)
    requires Enabled(Run(INITIAL, es), Act)
    ensures var s := Run(INITIAL, es);
            0 < GrantingStarts(s) < GrantingStarts(Step(s, Act)) <==>
            Grantable(s, s.loop.req) && (s.shellClosed || s.sftpClosed || s.exec != [] || s.invoked != [])
  {
    hide GrantingStarts, Grantable, Step;
    RunInv(es);
    GrantsOneMore(Run(INITIAL, es));
    SomeStartGranted(Run(INITIAL, es));
  }

  function TakeAndAnswer(req: Request): seq<Event> { [Receive(req), Act, Reply] }

  lemma RunOne(s: State, e: Event)
    ensures Run(s, [e]) == Step(s, e)
  {
    assert [e][..0] == [] && Run(s, []) == s;
  }

  lemma RunTwo(s: State, e1: Event, e2: Event)
    ensures Run(s, [e1, e2]) == Step(Step(s, e1), e2)
  {
    assert [e1][..0] == [] && [e1, e2][..1] == [e1];
    assert Run(s, []) == s && Run(s, [e1]) == Step(s, e1);
  }

  lemma RunThree(s: State, e1: Event, e2: Event, e3: Event)
    ensures Run(s, [e1, e2, e3]) == Step(Step(Step(s, e1), e2), e3)
  {
    assert [e1][..0] == [] && [e1, e2][..1] == [e1] && [e1, e2, e3][..2] == [e1, e2];
    assert Run(s, []) == s && Run(s, [e1]) == Step(s, e1);
    assert Run(s, [e1, e2]) == Step(Step(s, e1), e2);
  }

  lemma {:induction false} RunConcat(s: State, es: seq<Event>, fs: seq<Event>)
    ensures Run(s, es + fs) == Run(Run(s, es), fs)
  {
    if fs == [] {
      assert es + fs == es;
    } else {
      RunConcat(s, es, fs[..|fs| - 1]);
      assert (es + fs)[..|es + fs| - 1] == es + fs[..|fs| - 1];
    }
  }

  /** An exec request and then a shell request, both granted. */
  lemma TwoStartsCanBeGranted(command: string)
    ensures Run(INITIAL, TakeAndAnswer(Exec(true, command)) + TakeAndAnswer(Shell)).answers
            == [Answer(Exec(true, command), true), Answer(Shell, true)]
  {
    RunConcat(INITIAL, TakeAndAnswer(Exec(true, command)), TakeAndAnswer(Shell));
    RunThree(INITIAL, Receive(Exec(true, command)), Act, Reply);
    RunThree(Run(INITIAL, TakeAndAnswer(Exec(true, command))), Receive(Shell), Act, Reply);
  }

  // ---------- when the loop blocks for good ----------

  /** The request in hand needs room in a channel from which nothing will ever be taken: for a size
      no stream was started and none can be any more, because no shell is being served and none
      can be chosen; for a command the worker has made its choice. */
  predicate Stuck(s: State) {
    && s.loop.Acting? && !CanAct(s, s.loop.req)
    && (IsSize(s.loop.req) ==> !s.streaming && s.worker != Serving(ShellKind) && !(s.worker.Choosing? && s.shellClosed))
    && (s.loop.req.Exec? ==> !s.worker.Choosing?)
  }

  lemma StuckStep(s: State, e: Event)
    requires Stuck(s)
    ensures Stuck(Step(s, e)) && Step(s, e).loop == s.loop
  {
    hide ActOn;
  }

  lemma {:induction false} StuckForever(s: State, es: seq<Event>)
    requires Stuck(s)
    ensures Stuck(Run(s, es)) && Run(s, es).loop == s.loop
  {
    hide Step, Stuck;
    if es != [] {
      StuckForever(s, es[..|es| - 1]);
      StuckStep(Run(s, es[..|es| - 1]), es[|es| - 1]);
    }
  }

  /** A request in hand can still be dealt with if and only if the loop is not stuck; not even
      cancellation frees a stuck loop. */
  lemma ProgressIffNotStuck(es: seq<Event>)
    requires Run(INITIAL, es).loop.Acting?
    ensures (exists fs :: Run(Run(INITIAL, es), fs).loop != Run(INITIAL, es).loop) <==> !Stuck(Run(INITIAL, es))
  {
    var s := Run(INITIAL, es);
    if Stuck(s) {
      forall fs ensures Run(s, fs).loop == s.loop { StuckForever(s, fs); }
    } else {
      RunInv(es);
      var fs := Unblock(s);
      assert Run(s, fs).loop != s.loop;
    }
  }

  lemma ActMovesOn(s: State)
    requires Enabled(s, Act)
    ensures Step(s, Act).loop != s.loop
    ensures Step(s, Act).loop.Replying? || (Step(s, Act).loop.Panicked? && IsSftp(s.loop.req) && s.sftpClosed)
  {
  }

  /** Taking a terminal size makes room for another. */
  lemma MakeRoomForSize(s: State) returns (e: Event)
    requires SizesInOrder(s) && s.loop.Acting? && IsSize(s.loop.req) && !Stuck(s)
    ensures var t := Step(Step(Step(s, e), StreamStarts), NextSize);
            t.loop == s.loop && t.sftpClosed == s.sftpClosed && CanAct(t, s.loop.req) && e != RequestsClosed
  {
    hide ActOn;
    e := if s.worker.Choosing? && s.shellClosed then PickShell else ParentCancel;
  }

  /** So does the worker's taking the command make room for another. */
  lemma MakeRoomForExec(s: State) returns (e: Event)
    requires StartsRecorded(s) && s.loop.Acting? && !IsSize(s.loop.req) && !Stuck(s)
    ensures var t := Step(Step(s, ParentCancel), e);
            t.loop == s.loop && t.sftpClosed == s.sftpClosed && CanAct(t, s.loop.req) && e != RequestsClosed
  {
    hide ActOn, Granted;
    e := if s.worker.Choosing? then PickExec else ParentCancel;
  }

  lemma Unblock(s: State) returns (fs: seq<Event>)
    requires SizesInOrder(s) && StartsRecorded(s) && s.loop.Acting? && !Stuck(s)
    ensures Run(s, fs).loop != s.loop && RequestsClosed !in fs
    ensures Run(s, fs).loop.Replying? || (IsSftp(s.loop.req) && s.sftpClosed)
  {
    hide Step, ActOn, Stuck, CanAct;
    if IsSize(s.loop.req) {
      var e := MakeRoomForSize(s);
      fs := [e] + [StreamStarts, NextSize, Act];
      RunConcat(s, [e], [StreamStarts, NextSize, Act]);
      RunOne(s, e);
      RunThree(Step(s, e), StreamStarts, NextSize, Act);
      ActMovesOn(Step(Step(Step(s, e), StreamStarts), NextSize));
    } else {
      var e := MakeRoomForExec(s);
      fs := [ParentCancel, e, Act];
      RunThree(s, ParentCancel, e, Act);
      ActMovesOn(Step(Step(s, ParentCancel), e));
    }
  }

  // ---------- when the session can still return ----------

  /** The loop has panicked, or is bound to. */
  predicate Doomed(s: State) {
    s.loop.Panicked? || (s.loop.Acting? && IsSftp(s.loop.req) && s.sftpClosed)
  }

  lemma DoomedStep(s: State, e: Event)
    requires Doomed(s)
    ensures Doomed(Step(s, e))
  {
  }

  lemma {:induction false} DoomedForever(s: State, es: seq<Event>)
    requires Doomed(s)
    ensures Doomed(Run(s, es))
  {
    hide Step, Doomed;
    if es != [] {
      DoomedForever(s, es[..|es| - 1]);
      DoomedStep(Run(s, es[..|es| - 1]), es[|es| - 1]);
    }
  }

  /** A loop that waits for its worker returns once the worker has given up or its handler is done. */
  lemma WaitingReturns(s: State)
    requires s.loop.Waiting?
    ensures Run(s, [GiveUp, HandlerReturns, Return]).loop.Returned?
  {
    RunThree(s, GiveUp, HandlerReturns, Return);
  }

  /** A loop between requests ends when the client closes the channel, and also on cancellation. */
  lemma SelectingReturns(s: State)
    requires s.loop.Selecting?
    ensures Run(s, [RequestsClosed] + [GiveUp, HandlerReturns, Return]).loop.Returned?
    ensures Run(s, [ParentCancel, SeeDone] + [GiveUp, HandlerReturns, Return]).loop.Returned?
  {
    RunOne(s, RequestsClosed);
    RunConcat(s, [RequestsClosed], [GiveUp, HandlerReturns, Return]);
    WaitingReturns(Run(s, [RequestsClosed]));
    RunTwo(s, ParentCancel, SeeDone);
    RunConcat(s, [ParentCancel, SeeDone], [GiveUp, HandlerReturns, Return]);
    WaitingReturns(Run(s, [ParentCancel, SeeDone]));
  }

  /** A loop between requests ends by itself once its worker is done. */
  lemma SelectingSeesWorker(s: State)
    requires s.loop.Selecting? && s.worker.Finished?
    ensures Run(s, [SeeDone, Return]).loop.Returned?
  {
    RunTwo(s, SeeDone, Return);
  }

  lemma EndsStep(s: State, e: Event)
    requires !s.parentDone && (s.loop.Waiting? || s.loop.Returned? ==> s.worker.Finished?)
    requires e != RequestsClosed && e != ParentCancel
    ensures var t := Step(s, e);
            !t.parentDone && (t.loop.Waiting? || t.loop.Returned? ==> t.worker.Finished?)
  {
    hide ActOn;
    if e.Act? && Enabled(s, e) { ActKeepsWorker(s); }
  }

  /** Until the channel is closed or the connection cancelled, the loop ends only when its worker is
      done. */
  lemma {:induction false} EndsForAReason(es: seq<Event>)
    requires RequestsClosed !in es && ParentCancel !in es
    ensures var s := Run(INITIAL, es);
            !s.parentDone && (s.loop.Waiting? || s.loop.Returned? ==> s.worker.Finished?)
  {
    hide Step;
    if es != [] {
      var before, e := es[..|es| - 1], es[|es| - 1];
      assert es == before + [e];
      EndsForAReason(before);
      EndsStep(Run(INITIAL, before), e);
    }
  }

  lemma ReplyingReturns(s: State) returns (fs: seq<Event>)
    requires s.loop.Replying?
    ensures Run(s, fs).loop.Returned? && RequestsClosed !in fs
  {
    var end := [ParentCancel, SeeDone] + [GiveUp, HandlerReturns, Return];
    fs := [Reply] + end;
    RunOne(s, Reply);
    RunConcat(s, [Reply], end);
    SelectingReturns(Run(s, [Reply]));
  }

  lemma FindReturn(s: State) returns (fs: seq<Event>)
    requires SizesInOrder(s) && StartsRecorded(s) && !Stuck(s) && !Doomed(s)
    ensures Run(s, fs).loop.Returned? && RequestsClosed !in fs
  {
    hide Step, Run, SizesInOrder, StartsRecorded, Stuck;
    match s.loop {
      case Selecting =>
        fs := [ParentCancel, SeeDone] + [GiveUp, HandlerReturns, Return];
        SelectingReturns(s);
      case Acting(_) =>
        fs := Unblock(s);
        var gs := ReplyingReturns(Run(s, fs));
        RunConcat(s, fs, gs);
        fs := fs + gs;
      case Replying(_, _) => fs := ReplyingReturns(s);
      case Waiting =>
        fs := [GiveUp, HandlerReturns, Return];
        WaitingReturns(s);
      case Returned =>
        fs := [];
        NoEvents(s);
    }
  }

  lemma NoEvents(s: State)
    ensures Run(s, []) == s
  {
  }

  /** In every reachable state the session can still return, even if the client never closes the
      channel, exactly when its loop is not stuck and a second sftp request has not doomed it. */
  lemma CanReturnIff(es: seq<Event>)
    ensures var s := Run(INITIAL, es);
            && ((exists fs :: Run(s, fs).loop.Returned?) <==> !Stuck(s) && !Doomed(s))
            && ((exists fs :: RequestsClosed !in fs && Run(s, fs).loop.Returned?) <==> !Stuck(s) && !Doomed(s))
  {
    hide Step;
    var s := Run(INITIAL, es);
    RunInv(es);
    if Stuck(s) {
      forall fs ensures !Run(s, fs).loop.Returned? { StuckForever(s, fs); }
    } else if Doomed(s) {
      forall fs ensures !Run(s, fs).loop.Returned? { DoomedForever(s, fs); }
    } else {
      var fs := FindReturn(s);
      assert RequestsClosed !in fs && Run(s, fs).loop.Returned?;
    }
  }

  // ---------- runs that get stuck ----------

  /** `n` pty requests, each answered. */
  function Ptys(size: Size, n: nat): seq<Event> {
    if n == 0 then [] else Ptys(size, n - 1) + TakeAndAnswer(PtyReq(true, size))
  }

  /** Nothing but `n` sizes has been taken in. */
  predicate OnlySizes(s: State, n: nat) {
    && s.loop.Selecting? && s.worker.Choosing? && !s.shellClosed && !s.streaming && |s.resize| == n
  }

  lemma OneMoreSize(s: State, size: Size, n: nat)
    requires OnlySizes(s, n) && n < RESIZE_CAPACITY
    ensures OnlySizes(Run(s, TakeAndAnswer(PtyReq(true, size))), n + 1)
  {
    RunThree(s, Receive(PtyReq(true, size)), Act, Reply);
  }

  lemma {:induction false} PtysFill(size: Size, n: nat)
    requires n <= RESIZE_CAPACITY
    ensures OnlySizes(Run(INITIAL, Ptys(size, n)), n)
  {
    hide Step;
    if n > 0 {
      PtysFill(size, n - 1);
      OneMoreSize(Run(INITIAL, Ptys(size, n - 1)), size, n - 1);
      RunConcat(INITIAL, Ptys(size, n - 1), TakeAndAnswer(PtyReq(true, size)));
    }
  }

  /** Nine pty requests and no shell: the ninth blocks the loop for good. */
  lemma NinthSizeIsStuck(size: Size)
    ensures Stuck(Run(INITIAL, Ptys(size, RESIZE_CAPACITY) + [Receive(PtyReq(true, size))]))
  {
    PtysFill(size, RESIZE_CAPACITY);
    RunConcat(INITIAL, Ptys(size, RESIZE_CAPACITY), [Receive(PtyReq(true, size))]);
    RunOne(Run(INITIAL, Ptys(size, RESIZE_CAPACITY)), Receive(PtyReq(true, size)));
  }

  /** Eight sizes, a shell, and a ninth size in hand. */
  function ShellAndNinthSize(size: Size): seq<Event> {
    Ptys(size, RESIZE_CAPACITY) + TakeAndAnswer(Shell) + [Receive(WindowChange(true, size))]
  }

  lemma ShellIsGranted(s: State, size: Size)
    requires OnlySizes(s, RESIZE_CAPACITY)
    ensures var t := Run(s, TakeAndAnswer(Shell) + [Receive(WindowChange(true, size))]);
            && t.loop == Acting(WindowChange(true, size)) && t.worker.Choosing? && t.shellClosed && !t.streaming
            && |t.resize| == RESIZE_CAPACITY
  {
    RunConcat(s, TakeAndAnswer(Shell), [Receive(WindowChange(true, size))]);
    RunThree(s, Receive(Shell), Act, Reply);
    RunOne(Run(s, TakeAndAnswer(Shell)), Receive(WindowChange(true, size)));
  }

  lemma StuckOnceShellFails(s: State, size: Size)
    requires s.loop == Acting(WindowChange(true, size)) && s.worker.Choosing? && s.shellClosed && !s.streaming
    requires |s.resize| == RESIZE_CAPACITY
    ensures !Stuck(s) && !Stuck(Step(s, PickShell)) && Stuck(Step(Step(s, PickShell), HandlerReturns))
  {
    hide ActOn;
  }

  /** A ninth size blocks the loop for good as soon as the shell's handler returns without having
      started its stream; until then it does not. */
  lemma FailedShellIsStuck(size: Size)
    ensures !Stuck(Run(INITIAL, ShellAndNinthSize(size)))
    ensures !Stuck(Run(INITIAL, ShellAndNinthSize(size) + [PickShell]))
    ensures Stuck(Run(INITIAL, ShellAndNinthSize(size) + [PickShell, HandlerReturns]))
  {
    hide Step, Run, Stuck;
    var s := Run(INITIAL, ShellAndNinthSize(size));
    PtysFill(size, RESIZE_CAPACITY);
    RunConcat(INITIAL, Ptys(size, RESIZE_CAPACITY), TakeAndAnswer(Shell) + [Receive(WindowChange(true, size))]);
    assert ShellAndNinthSize(size)
        == Ptys(size, RESIZE_CAPACITY) + (TakeAndAnswer(Shell) + [Receive(WindowChange(true, size))]);
    ShellIsGranted(Run(INITIAL, Ptys(size, RESIZE_CAPACITY)), size);
    StuckOnceShellFails(s, size);
    RunConcat(INITIAL, ShellAndNinthSize(size), [PickShell]);
    RunOne(s, PickShell);
    RunConcat(INITIAL, ShellAndNinthSize(size), [PickShell, HandlerReturns]);
    RunTwo(s, PickShell, HandlerReturns);
  }
}
