/** run_iter: the ping-pong latency loop. Each iteration may post and await
    a receive, may time-stamp and post a send (signaled or not), and awaits
    the send completion when the send was signaled. The verbs calls are the
    Fabric's answers; what the loop does with them is modelled exactly. */
module Driver {
  import opened Common

  /** ctx->wr.send_flags: IBV_SEND_SIGNALED and IBV_SEND_INLINE. */
  datatype Flags = Flags(signaled: bool, inline: bool)

  /** What awaiting a completion yields: ibv_poll_cq returned a negative
      count, or a work completion with a success or error status. */
  datatype Poll = PollFailed | Completion(success: bool)

  /** The verbs calls. Receives and sends are numbered from 0 in the order
      they are posted; the event entries say whether ibv_get_cq_event
      returned the expected CQ and ibv_req_notify_cq re-armed it. */
  datatype Fabric = Fabric(
    postRecv: nat -> bool,
    recvEvent: nat -> bool,
    recvPoll: nat -> Poll,
    postSend: nat -> bool,
    sendEvent: nat -> bool,
    sendPoll: nat -> Poll,
    clock: nat -> Cycles)

  /** Every call succeeds. */
  ghost predicate Reliable(f: Fabric) {
    forall n: nat ::
      && f.postRecv(n) && f.recvEvent(n) && f.recvPoll(n) == Completion(true)
      && f.postSend(n) && f.sendEvent(n) && f.sendPoll(n) == Completion(true)
  }

  /** Busy polling (no use_event) retries ibv_poll_cq while it returns
      fewer than one completion, so when it returns at all it returns with
      a work completion: a busy-polled answer is never PollFailed. */
  ghost predicate BusyPollsReturn(f: Fabric) {
    forall n: nat :: f.recvPoll(n).Completion? && f.sendPoll(n).Completion?
  }

  /** The user parameters run_iter reads, and its size argument. isClient
      is "servername is set". */
  datatype Params = Params(
    iters: int, txDepth: int, signalComp: bool, isClient: bool, useEvent: bool,
    useMcg: bool, inlineSize: int, conn: Conn, gidIndex: int, size: int)

  /** The UD clamp at the top of run_iter: a UD message above 2048 bytes
      becomes 2048 bytes, or 1024 when a GID index is in use. */
  function UdSize(conn: Conn, gidIndex: int, size: int): (r: int)
    ensures conn != UD || size <= 2048 ==> r == size
    ensures conn == UD && size > 2048 ==> r == (if gidIndex < 0 then 2048 else 1024)
    ensures conn == UD ==> r <= 2048
  {
    if conn == UD && size > 2048 then (if gidIndex < 0 then 2048 else 1024) else size
  }

  function SendSize(p: Params): int {
    UdSize(p.conn, p.gidIndex, p.size)
  }

  /** The inline rule: IBV_SEND_INLINE unless the message is longer than
      the inline limit or empty. */
  function Inline(size: int, inlineSize: int): (b: bool)
    ensures size > 0 ==> (b <==> size <= inlineSize)
    ensures size == 0 ==> !b
  {
    !(size > inlineSize || size == 0)
  }

  /** The flags between signaled sends. */
  function BaseFlags(p: Params): Flags {
    Flags(false, Inline(SendSize(p), p.inlineSize))
  }

  /** The loop's variables: scnt and rcnt count the sends and receives
      begun, ccnt the iterations since the last signaled send, poll a
      pending send completion; trace records what has been done. */
  datatype State = State(scnt: nat, rcnt: nat, ccnt: nat, poll: bool, flags: Flags, trace: seq<Event>)

  /** Received(r): receive r was posted and its completion arrived with
      success. Stamped(k): tstamp[k] was written. Sent(k, fl): send k was
      posted with flags fl. Polled(k): the completion of send k arrived. */
  datatype Event = Received(r: nat) | Stamped(k: nat) | Sent(k: nat, flags: Flags) | Polled(k: nat)

  /** A run stops with code 0 or with the failing call's exit code. */
  datatype Outcome = Outcome(code: int, st: State)

  /** A pending poll belongs to a send that was made. */
  predicate Valid(s: State) {
    s.poll ==> s.scnt >= 1
  }

  function Init(p: Params): State {
    State(0, 0, 0, false, BaseFlags(p), [])
  }

  predicate Continues(p: Params, s: State) {
    s.scnt < p.iters || s.rcnt < p.iters
  }

  function Remaining(p: Params, s: State): nat {
    (if s.scnt < p.iters then p.iters - s.scnt else 0)
    + (if s.rcnt < p.iters then p.iters - s.rcnt else 0)
  }

  /** The exit code of awaiting a completion: 1 when the completion event
      cannot be taken or the CQ re-armed, 12 when polling fails, 13 for a
      completion with an error status, 0 otherwise. */
  function AwaitCode(useEvent: bool, eventOk: bool, poll: Poll): (c: int)
    ensures c == 0 <==> (!useEvent || eventOk) && poll == Completion(true)
    ensures c in {0, 1, 12, 13}
    ensures c == 1 ==> useEvent
    ensures c == 12 <==> (!useEvent || eventOk) && poll.PollFailed?
  {
    if useEvent && !eventOk then 1
    else match poll
      case PollFailed => 12
      case Completion(ok) => if ok then 0 else 13
  }

  /** The receive rule: a receive is due while fewer than iters have been
      made, except that the client makes none before its first send. */
  predicate WantsRecv(p: Params, s: State) {
    s.rcnt < p.iters && !(s.scnt < 1 && p.isClient)
  }

  function RecvPhase(p: Params, f: Fabric, s: State): Outcome {
    var r := s.rcnt;
    var s1 := s.(rcnt := r + 1);
    if !f.postRecv(r) then Outcome(15, s1)
    else
      var c := AwaitCode(p.useEvent, f.recvEvent(r), f.recvPoll(r));
      if c != 0 then Outcome(c, s1)
      else Outcome(0, s1.(trace := s1.trace + [Received(r)]))
  }

  /** The selective-signaling rule. */
  predicate SignalNow(p: Params, s: State) {
    s.ccnt == p.txDepth - 2 || p.signalComp || s.scnt == p.iters - 1
  }

  function SendPhase(p: Params, f: Fabric, s: State): Outcome {
    var k := s.scnt;
    var s1 :=
      if SignalNow(p, s)
      then s.(ccnt := 0, poll := true, flags := Flags(true, Inline(SendSize(p), p.inlineSize)))
      else s;
    var s2 := s1.(scnt := k + 1, trace := s1.trace + [Stamped(k)]);
    if !f.postSend(k) then Outcome(11, s2)
    else Outcome(0, s2.(trace := s2.trace + [Sent(k, s2.flags)]))
  }

  function PollPhase(p: Params, f: Fabric, s: State): Outcome
    requires s.scnt >= 1
  {
    var k := s.scnt - 1;
    var c := AwaitCode(p.useEvent, f.sendEvent(k), f.sendPoll(k));
    if c != 0 then Outcome(c, s)
    else Outcome(0, s.(poll := false, flags := BaseFlags(p), trace := s.trace + [Polled(k)]))
  }

  /** The end of a pass: await the signaled send's completion, then count
      the iteration. */
  function AwaitSend(p: Params, f: Fabric, s: State): (o: Outcome)
    requires Valid(s)
    ensures Valid(o.st)
    ensures o.code == 0 ==> o.st.scnt == s.scnt && o.st.rcnt == s.rcnt
  {
    var o3 := if s.poll then PollPhase(p, f, s) else Outcome(0, s);
    if o3.code != 0 then o3
    else Outcome(0, o3.st.(ccnt := o3.st.ccnt + 1))
  }

  /** The rest of a pass once the receive is done: send when sends remain. */
  function SendAndAwait(p: Params, f: Fabric, s: State): (o: Outcome)
    requires Valid(s)
    ensures Valid(o.st)
    ensures o.code == 0 ==> o.st.rcnt == s.rcnt && o.st.scnt == if s.scnt < p.iters then s.scnt + 1 else s.scnt
  {
    var o2 := if s.scnt < p.iters then SendPhase(p, f, s) else Outcome(0, s);
    if o2.code != 0 then o2 else AwaitSend(p, f, o2.st)
  }

  /** One pass of the while loop of run_iter. */
  function Iterate(p: Params, f: Fabric, s: State): (o: Outcome)
    requires Valid(s) && Continues(p, s)
    ensures Valid(o.st)
    ensures o.code == 0 ==> Remaining(p, o.st) < Remaining(p, s)
  {
    var o1 := if WantsRecv(p, s) then RecvPhase(p, f, s) else Outcome(0, s);
    if o1.code != 0 then o1 else SendAndAwait(p, f, o1.st)
  }

  /** The loop until both counters reach iters or a call fails. */
  function Run(p: Params, f: Fabric, s: State): (o: Outcome)
    requires Valid(s)
    decreases Remaining(p, s)
  {
    if !Continues(p, s) then Outcome(0, s)
    else
      var o := Iterate(p, f, s);
      if o.code != 0 then o else Run(p, f, o.st)
  }

  /** A run that ends without an error code ends because both counters
      reached iters. */
  lemma {:induction false} RunFinishes(p: Params, f: Fabric, s: State)
    requires Valid(s)
    ensures Run(p, f, s).code == 0 ==> !Continues(p, Run(p, f, s).st)
    decreases Remaining(p, s)
  {
    if Continues(p, s) {
      var o := Iterate(p, f, s);
      if o.code == 0 {
        RunFinishes(p, f, o.st);
      }
    }
  }

  // ---------------------------------------------------------------------
  // The failure-free run in closed form
  // ---------------------------------------------------------------------

  /** Iterations a failure-free run makes: one per send, and for the
      client one more for its last receive. */
  function Iterations(p: Params): nat {
    if p.iters <= 0 then 0 else if p.isClient then p.iters + 1 else p.iters
  }

  /** ccnt at the start of iteration k, by the loop's update rule: reset
      by a signaled send, then incremented at the end of every iteration. */
  function CcntAt(p: Params, k: nat): nat
    decreases k, 0
  {
    if k == 0 then 0 else (if SignaledAt(p, k - 1) then 0 else CcntAt(p, k - 1)) + 1
  }

  /** Whether iteration k makes a signaled send, by the loop's rule. */
  predicate SignaledAt(p: Params, k: nat)
    decreases k, 1
  {
    k < p.iters && (CcntAt(p, k) == p.txDepth - 2 || p.signalComp || k == p.iters - 1)
  }

  /** The signaling rule in closed form: with signal_comp every send; else
      the last send, and every (tx_depth - 2)-th send after the first (the
      first send itself when tx_depth is 2). */
  predicate ShouldSignal(p: Params, k: nat) {
    var d := p.txDepth - 2;
    p.signalComp || k == p.iters - 1 || (d > 0 && k > 0 && k % d == 0) || (d == 0 && k == 0)
  }

  lemma ModStep(a: nat, d: nat)
    requires d > 0
    ensures (a + 1) % d == if a % d == d - 1 then 0 else a % d + 1
  {
    var q := a / d;
    assert a == q * d + a % d;
    if a % d == d - 1 {
      assert a + 1 == (q + 1) * d + 0;
      ModUnique(a + 1, d, q + 1, 0);
    } else {
      ModUnique(a + 1, d, q, a % d + 1);
    }
  }

  /** ccnt before each send, in closed form. */
  lemma {:induction false} CcntClosedForm(p: Params, k: nat)
    requires k < p.iters
    ensures var d := p.txDepth - 2;
      CcntAt(p, k) == if p.signalComp then (if k == 0 then 0 else 1)
                      else if d > 0 && k > 0 then (k - 1) % d + 1
                      else k
  {
    if k > 0 {
      CcntClosedForm(p, k - 1);
      var d := p.txDepth - 2;
      var c := CcntAt(p, k - 1);
      assert CcntAt(p, k) == (if SignaledAt(p, k - 1) then 0 else c) + 1;
      assert SignaledAt(p, k - 1) <==> c == d || p.signalComp;
      if p.signalComp {
        assert CcntAt(p, k) == 1;
      } else if d > 0 && k > 1 {
        var r := (k - 2) % d;
        assert c == r + 1;
        ModStep(k - 2, d);
        assert (k - 1) % d == if r == d - 1 then 0 else r + 1;
        assert CcntAt(p, k) == (k - 1) % d + 1;
      } else if d > 0 {
        assert c == 0 && k == 1;
        ModUnique(0, d, 0, 0);
        assert CcntAt(p, k) == (k - 1) % d + 1;
      } else {
        assert c == k - 1;
        assert CcntAt(p, k) == k;
      }
    }
  }

  /** The loop's signaling rule and the closed form agree on every send. */
  lemma SignalClosedForm(p: Params, k: nat)
    requires k < p.iters
    ensures SignaledAt(p, k) == ShouldSignal(p, k)
  {
    CcntClosedForm(p, k);
    var d := p.txDepth - 2;
    if !p.signalComp && d > 0 && k > 0 {
      ModStep(k - 1, d);
    }
  }

  /** With tx_depth >= 3, among any tx_depth - 1 consecutive sends one is
      signaled: at most tx_depth - 2 sends in a row are unsignaled. */
  lemma SignalWindow(p: Params, j: nat)
    requires p.txDepth >= 3 && j + (p.txDepth - 2) < p.iters
    ensures exists i :: j <= i <= j + (p.txDepth - 2) && ShouldSignal(p, i)
  {
    var d := p.txDepth - 2;
    var q := j / d;
    var i := (q + 1) * d;
    assert j == q * d + j % d;
    assert i == q * d + d;
    ModUnique(i, d, q + 1, 0);
    assert ShouldSignal(p, i);
  }

  function FlagsAt(p: Params, k: nat): Flags {
    Flags(ShouldSignal(p, k), Inline(SendSize(p), p.inlineSize))
  }

  /** Send k: the time stamp, the post, and the completion when signaled. */
  function SendBlock(p: Params, k: nat): seq<Event> {
    [Stamped(k), Sent(k, FlagsAt(p, k))] + (if ShouldSignal(p, k) then [Polled(k)] else [])
  }

  /** Iteration k of a failure-free run: the server receives k and answers
      with send k; the client sends k first and receives k - 1 before it,
      with a final iteration that only receives. */
  function Block(p: Params, k: nat): seq<Event> {
    if p.isClient then
      (if k >= 1 then [Received(k - 1)] else []) + (if k < p.iters then SendBlock(p, k) else [])
    else [Received(k)] + SendBlock(p, k)
  }

  /** Iterations 0 to k - 1. */
  function Blocks(p: Params, k: nat): seq<Event> {
    if k == 0 then [] else Blocks(p, k - 1) + Block(p, k - 1)
  }

  /** Everything a failure-free run does, in order. */
  function Expected(p: Params): seq<Event> {
    Blocks(p, Iterations(p))
  }

  predicate IsPrefix<T(==)>(a: seq<T>, b: seq<T>) {
    |a| <= |b| && b[..|a|] == a
  }

  lemma PrefixTrans<T>(a: seq<T>, b: seq<T>, c: seq<T>)
    requires IsPrefix(a, b) && IsPrefix(b, c)
    ensures IsPrefix(a, c)
  {
    assert c[..|a|] == c[..|b|][..|a|];
  }

  lemma {:induction false} BlocksGrow(p: Params, a: nat, b: nat)
    requires a <= b
    ensures IsPrefix(Blocks(p, a), Blocks(p, b))
  {
    if a < b {
      BlocksGrow(p, a, b - 1);
      assert Blocks(p, b) == Blocks(p, b - 1) + Block(p, b - 1);
    }
  }

  /** The loop's variables at the start of iteration k of a failure-free
      run. */
  function StateAt(p: Params, k: nat): State {
    State(if p.iters >= 0 && k > p.iters then p.iters else k,
          if p.isClient && k > 0 then k - 1 else k,
          CcntAt(p, k), false, BaseFlags(p), Blocks(p, k))
  }

  /** The send and poll phases of an iteration that sends: on success
      the send's block has been done; on failure a proper prefix of it. */
  lemma SendAndPoll(p: Params, f: Fabric, s: State)
    requires s.scnt < p.iters && !s.poll && s.flags == BaseFlags(p) && s.ccnt == CcntAt(p, s.scnt)
    ensures var k := s.scnt;
      var o := SendAndAwait(p, f, s);
      && (o.code == 0 ==> o.st == s.(scnt := k + 1, ccnt := (if SignaledAt(p, k) then 0 else CcntAt(p, k)) + 1,
                                     trace := s.trace + SendBlock(p, k)))
      && (o.code != 0 ==> IsPrefix(s.trace, o.st.trace) && IsPrefix(o.st.trace, s.trace + SendBlock(p, k))
                          && |o.st.trace| < |s.trace + SendBlock(p, k)|)
      && (Reliable(f) ==> o.code == 0)
      && o.code in {0, 1, 11, 12, 13}
  {
    var k := s.scnt;
    SignalClosedForm(p, k);
    assert SignalNow(p, s) == SignaledAt(p, k);
    if Reliable(f) {
      assert f.postSend(k) && f.sendEvent(k) && f.sendPoll(k) == Completion(true);
    }
  }

  /** An iteration that receives and then sends. */
  lemma RecvAndSend(p: Params, f: Fabric, s: State)
    requires WantsRecv(p, s) && s.scnt < p.iters && !s.poll && s.flags == BaseFlags(p) && s.ccnt == CcntAt(p, s.scnt)
    ensures Valid(s) && Continues(p, s)
    ensures var k := s.scnt;
      var o := Iterate(p, f, s);
      var b := [Received(s.rcnt)] + SendBlock(p, k);
      && (o.code == 0 ==> o.st == s.(scnt := k + 1, rcnt := s.rcnt + 1,
                                     ccnt := (if SignaledAt(p, k) then 0 else CcntAt(p, k)) + 1,
                                     trace := s.trace + b))
      && (o.code != 0 ==> IsPrefix(s.trace, o.st.trace) && IsPrefix(o.st.trace, s.trace + b)
                          && |o.st.trace| < |s.trace + b|)
      && (Reliable(f) ==> o.code == 0)
      && o.code in {0, 1, 11, 12, 13, 15}
  {
    var o1 := RecvPhase(p, f, s);
    if Reliable(f) {
      assert f.postRecv(s.rcnt) && f.recvEvent(s.rcnt) && f.recvPoll(s.rcnt) == Completion(true);
    }
    if o1.code == 0 {
      SendAndPoll(p, f, o1.st);
      assert s.trace + ([Received(s.rcnt)] + SendBlock(p, s.scnt)) == (s.trace + [Received(s.rcnt)]) + SendBlock(p, s.scnt);
    }
  }

  /** What iteration k does from its expected state: a failure-free
      iteration reaches the next expected state; a failing one stops
      inside the iteration's block, having done a proper prefix of it. */
  ghost predicate StepsAt(p: Params, f: Fabric, k: nat, o: Outcome) {
    && (o.code == 0 ==> o.st == StateAt(p, k + 1))
    && (o.code != 0 ==> IsPrefix(Blocks(p, k), o.st.trace) && IsPrefix(o.st.trace, Blocks(p, k + 1))
                        && |o.st.trace| < |Blocks(p, k + 1)|)
    && (Reliable(f) ==> o.code == 0)
    && o.code in {0, 1, 11, 12, 13, 15}
  }

  lemma IterateAt(p: Params, f: Fabric, k: nat)
    requires p.iters >= 1 && k < Iterations(p)
    ensures Valid(StateAt(p, k)) && Continues(p, StateAt(p, k))
    ensures StepsAt(p, f, k, Iterate(p, f, StateAt(p, k)))
  {
    if p.isClient {
      ClientIteration(p, f, k);
    } else {
      ServerIteration(p, f, k);
    }
  }

  lemma ServerIteration(p: Params, f: Fabric, k: nat)
    requires !p.isClient && k < p.iters
    ensures StepsAt(p, f, k, Iterate(p, f, StateAt(p, k)))
  {
    var s := StateAt(p, k);
    assert Blocks(p, k + 1) == Blocks(p, k) + Block(p, k);
    assert CcntAt(p, k + 1) == (if SignaledAt(p, k) then 0 else CcntAt(p, k)) + 1;
    RecvAndSend(p, f, s);
  }

  lemma ClientIteration(p: Params, f: Fabric, k: nat)
    requires p.isClient && 1 <= p.iters && k <= p.iters
    ensures StepsAt(p, f, k, Iterate(p, f, StateAt(p, k)))
  {
    if k == 0 {
      ClientFirst(p, f);
    } else if k < p.iters {
      ClientMiddle(p, f, k);
    } else {
      ClientLast(p, f);
    }
  }

  /** The client's first iteration sends without receiving. */
  lemma ClientFirst(p: Params, f: Fabric)
    requires p.isClient && 1 <= p.iters
    ensures StepsAt(p, f, 0, Iterate(p, f, StateAt(p, 0)))
  {
    var s := StateAt(p, 0);
    SendAndPoll(p, f, s);
    assert CcntAt(p, 1) == (if SignaledAt(p, 0) then 0 else CcntAt(p, 0)) + 1;
    assert Blocks(p, 1) == [] + Block(p, 0);
    assert Block(p, 0) == SendBlock(p, 0);
    assert [] + SendBlock(p, 0) == SendBlock(p, 0);
  }

  /** A middle iteration of the client receives k - 1, then sends k. */
  lemma ClientMiddle(p: Params, f: Fabric, k: nat)
    requires p.isClient && 1 <= k < p.iters
    ensures StepsAt(p, f, k, Iterate(p, f, StateAt(p, k)))
  {
    var s := StateAt(p, k);
    assert Blocks(p, k + 1) == Blocks(p, k) + Block(p, k);
    assert Block(p, k) == [Received(k - 1)] + SendBlock(p, k);
    assert CcntAt(p, k + 1) == (if SignaledAt(p, k) then 0 else CcntAt(p, k)) + 1;
    RecvAndSend(p, f, s);
  }

  /** The client's last iteration only receives. */
  lemma ClientLast(p: Params, f: Fabric)
    requires p.isClient && 1 <= p.iters
    ensures StepsAt(p, f, p.iters, Iterate(p, f, StateAt(p, p.iters)))
  {
    var k := p.iters;
    var s := StateAt(p, k);
    var t := Blocks(p, k);
    assert Blocks(p, k + 1) == t + Block(p, k);
    assert Block(p, k) == [Received(k - 1)];
    assert CcntAt(p, k + 1) == CcntAt(p, k) + 1;
    if Reliable(f) {
      assert f.postRecv(s.rcnt) && f.recvEvent(s.rcnt) && f.recvPoll(s.rcnt) == Completion(true);
    }
  }

  /** What a run from the expected state of iteration k does: it extends
      the trace so far, stays within the expected trace, and completes it
      exactly when no call fails. */
  ghost predicate ExtendsFrom(p: Params, f: Fabric, k: nat, o: Outcome) {
    && IsPrefix(Blocks(p, k), o.st.trace) && IsPrefix(o.st.trace, Expected(p))
    && (o.code == 0 ==> o.st == StateAt(p, Iterations(p)))
    && (o.code != 0 ==> |o.st.trace| < |Expected(p)|)
    && (Reliable(f) ==> o.code == 0)
    && o.code in {0, 1, 11, 12, 13, 15}
  }

  /** A run that fails in iteration k stops there. */
  lemma RunFails(p: Params, f: Fabric, k: nat)
    requires p.iters >= 1 && k < Iterations(p)
    requires Iterate(p, f, StateAt(p, k)).code != 0
    ensures ExtendsFrom(p, f, k, Iterate(p, f, StateAt(p, k)))
  {
    IterateAt(p, f, k);
    BlocksGrow(p, k + 1, Iterations(p));
    PrefixTrans(Iterate(p, f, StateAt(p, k)).st.trace, Blocks(p, k + 1), Expected(p));
  }

  /** From the expected state of iteration k the run only extends the
      expected trace. */
  lemma {:induction false} RunFrom(p: Params, f: Fabric, k: nat)
    requires p.iters >= 1 && k <= Iterations(p)
    ensures Valid(StateAt(p, k))
    ensures ExtendsFrom(p, f, k, Run(p, f, StateAt(p, k)))
    decreases Iterations(p) - k
  {
    var s := StateAt(p, k);
    if k == Iterations(p) {
      assert !Continues(p, s);
      assert Run(p, f, s) == Outcome(0, s);
    } else {
      IterateAt(p, f, k);
      var o := Iterate(p, f, s);
      assert Run(p, f, s) == if o.code != 0 then o else Run(p, f, o.st);
      if o.code == 0 {
        RunFrom(p, f, k + 1);
        BlocksGrow(p, k, k + 1);
        PrefixTrans(Blocks(p, k), Blocks(p, k + 1), Run(p, f, o.st).st.trace);
      } else {
        RunFails(p, f, k);
      }
    }
  }

  /** run_iter against its specification: whatever the fabric answers,
      what the loop does is a prefix of the failure-free run, the run is
      complete exactly when the code is 0, both counters then equal
      iters, a fabric whose calls all succeed gives 0, and every other
      code is that of the failing call. */
  lemma RunSpec(p: Params, f: Fabric)
    ensures var o := Run(p, f, Init(p));
      && IsPrefix(o.st.trace, Expected(p))
      && (o.code == 0 <==> o.st.trace == Expected(p))
      && (o.code == 0 ==> o.st.scnt == o.st.rcnt == (if p.iters < 0 then 0 else p.iters))
      && (Reliable(f) ==> o.code == 0)
      && o.code in {0, 1, 11, 12, 13, 15}
      && (!p.useEvent && BusyPollsReturn(f) ==> o.code in {0, 11, 13, 15})
  {
    if p.iters >= 1 {
      assert Init(p) == StateAt(p, 0);
      RunFrom(p, f, 0);
    }
    if !p.useEvent && BusyPollsReturn(f) {
      BusyRunCodes(p, f, Init(p));
    }
  }

  /** Without use_event the codes 1 (event calls) and 12 (a failed poll)
      cannot occur: a failing run ends with 11, 13 or 15. */
  lemma {:induction false} BusyRunCodes(p: Params, f: Fabric, s: State)
    requires Valid(s) && !p.useEvent && BusyPollsReturn(f)
    ensures Run(p, f, s).code in {0, 11, 13, 15}
    decreases Remaining(p, s)
  {
    if Continues(p, s) {
      assert f.recvPoll(s.rcnt).Completion?;
      assert f.sendPoll(s.scnt).Completion?;
      if s.scnt >= 1 {
        assert f.sendPoll(s.scnt - 1).Completion?;
      }
      var o := Iterate(p, f, s);
      if o.code == 0 {
        BusyRunCodes(p, f, o.st);
      }
    }
  }

  // ---------------------------------------------------------------------
  // Properties of the failure-free run
  // ---------------------------------------------------------------------

  /** Every time stamp is taken immediately before its send is posted. */
  ghost predicate StampBeforeSend(p: Params, e: seq<Event>) {
    && (forall i, j {:trigger e[i], e[j]} :: 0 <= i && j == i + 1 && j < |e| && e[i].Stamped? ==>
          e[j] == Sent(e[i].k, FlagsAt(p, e[i].k)))
    && (|e| > 0 ==> !e[|e| - 1].Stamped?)
  }

  /** Two neighbouring events agree on signaling: a send is followed by
      the poll of its completion exactly when it is signaled, and a poll
      comes only right after the signaled send it belongs to. */
  predicate Neighbours(x: Event, y: Event) {
    && (x.Sent? ==> (x.flags.signaled <==> y == Polled(x.k)))
    && (y.Polled? ==> x.Sent? && x.k == y.k && x.flags.signaled)
  }

  /** A send is signaled exactly when the next thing done is awaiting its
      completion; nothing else awaits a send completion, and no signaled
      send is left unpolled at the end. */
  ghost predicate PollAfterSignaled(e: seq<Event>) {
    && (forall i, j {:trigger e[i], e[j]} :: 0 <= i && j == i + 1 && j < |e| ==> Neighbours(e[i], e[j]))
    && (|e| > 0 ==> !e[0].Polled? && !(e[|e| - 1].Sent? && e[|e| - 1].flags.signaled))
  }

  /** The ping-pong order: the server answers receive k with send k; the
      client starts with send 0 and answers receive k - 1 with send k. */
  ghost predicate RecvBeforeSend(p: Params, e: seq<Event>) {
    && (forall i, j {:trigger e[i], e[j]} :: 0 <= i && j == i + 1 && j < |e| && e[j].Stamped? ==>
          !(p.isClient && e[j].k == 0) && e[i] == Received(if p.isClient then e[j].k - 1 else e[j].k))
    && (|e| > 0 && e[0].Stamped? ==> p.isClient && e[0].k == 0)
  }

  /** The events of one send, element by element. */
  lemma SendBlockShape(p: Params, k: nat)
    ensures var s := SendBlock(p, k);
      && 2 <= |s| <= 3 && s[0] == Stamped(k) && s[1] == Sent(k, FlagsAt(p, k))
      && (|s| == 3 ==> s[2] == Polled(k))
  {
  }

  lemma SendBlockStamp(p: Params, k: nat)
    ensures StampBeforeSend(p, SendBlock(p, k))
  {
    SendBlockShape(p, k);
  }

  lemma BlockStampBeforeSend(p: Params, j: nat)
    requires j < Iterations(p)
    ensures StampBeforeSend(p, Block(p, j))
  {
    SendBlockStamp(p, j);
    var r: seq<Event> := if p.isClient then (if j >= 1 then [Received(j - 1)] else []) else [Received(j)];
    var t: seq<Event> := if p.isClient && j >= p.iters then [] else SendBlock(p, j);
    assert Block(p, j) == r + t;
    StampBeforeSendConcat(p, r, t);
  }

  /** A stamp is never the last event of a part, so it keeps its send. */
  lemma StampBeforeSendConcat(p: Params, a: seq<Event>, b: seq<Event>)
    requires StampBeforeSend(p, a) && StampBeforeSend(p, b)
    ensures StampBeforeSend(p, a + b)
  {
    var e := a + b;
    forall i, j | 0 <= i && j == i + 1 && j < |e| && e[i].Stamped?
      ensures e[j] == Sent(e[i].k, FlagsAt(p, e[i].k))
    {
      if i >= |a| {
        assert e[i] == b[i - |a|] && e[j] == b[j - |a|];
      } else {
        assert e[i] == a[i] && e[j] == a[j];
      }
    }
    if b == [] {
      assert e == a;
    } else {
      assert e[|e| - 1] == b[|b| - 1];
    }
  }

  lemma {:induction false} BlocksStampBeforeSend(p: Params, n: nat)
    requires n <= Iterations(p)
    ensures StampBeforeSend(p, Blocks(p, n))
  {
    if n > 0 {
      var a, b := Blocks(p, n - 1), Block(p, n - 1);
      BlocksStampBeforeSend(p, n - 1);
      BlockStampBeforeSend(p, n - 1);
      StampBeforeSendConcat(p, a, b);
      assert Blocks(p, n) == a + b;
    }
  }

  /** The events of one failure-free iteration, written out. */
  lemma BlockShape(p: Params, j: nat)
    requires j < Iterations(p)
    ensures var b := Block(p, j);
      var sb := [Stamped(j), Sent(j, FlagsAt(p, j))] + (if ShouldSignal(p, j) then [Polled(j)] else []);
      if !p.isClient then b == [Received(j)] + sb
      else if j == 0 then b == sb
      else if j < p.iters then b == [Received(j - 1)] + sb
      else b == [Received(j - 1)]
  {
  }

  lemma BlockPollAfterSignaled(p: Params, j: nat)
    requires j < Iterations(p)
    ensures var b := Block(p, j); PollAfterSignaled(b) && |b| > 0
  {
    BlockShape(p, j);
  }

  /** Pairing survives concatenation: the last event of the first part is
      no signaled send and the first of the second no poll. */
  lemma PollAfterSignaledConcat(a: seq<Event>, b: seq<Event>)
    requires PollAfterSignaled(a) && PollAfterSignaled(b) && |b| > 0
    ensures PollAfterSignaled(a + b)
  {
    var e := a + b;
    forall i, j | 0 <= i && j == i + 1 && j < |e|
      ensures Neighbours(e[i], e[j])
    {
      if i >= |a| {
        assert e[i] == b[i - |a|] && e[j] == b[j - |a|];
      } else if j < |a| {
        assert e[i] == a[i] && e[j] == a[j];
      } else {
        assert e[i] == a[|a| - 1] && e[j] == b[0];
      }
    }
    assert e[|e| - 1] == b[|b| - 1];
    if a != [] {
      assert e[0] == a[0];
    }
  }

  lemma {:induction false} BlocksPollAfterSignaled(p: Params, n: nat)
    requires n <= Iterations(p)
    ensures PollAfterSignaled(Blocks(p, n))
  {
    if n > 0 {
      var a, b := Blocks(p, n - 1), Block(p, n - 1);
      BlocksPollAfterSignaled(p, n - 1);
      BlockPollAfterSignaled(p, n - 1);
      PollAfterSignaledConcat(a, b);
      assert Blocks(p, n) == a + b;
    }
  }

  /** A receive followed by the send that answers it. */
  lemma RecvThenSend(p: Params, r: nat, k: nat)
    requires !(p.isClient && k == 0) && r == (if p.isClient then k - 1 else k)
    ensures RecvBeforeSend(p, [Received(r)] + SendBlock(p, k))
  {
    SendBlockShape(p, k);
    var s := SendBlock(p, k);
    var e := [Received(r)] + s;
    forall i, j {:trigger e[i], e[j]} | 0 <= i && j == i + 1 && j < |e| && e[j].Stamped?
      ensures !(p.isClient && e[j].k == 0) && e[i] == Received(if p.isClient then e[j].k - 1 else e[j].k)
    {
      assert e[j] == s[j - 1];
    }
  }

  lemma BlockRecvBeforeSend(p: Params, j: nat)
    requires j < Iterations(p)
    ensures var b := Block(p, j);
      && RecvBeforeSend(p, b)
      && (|b| > 0 && b[0].Stamped? ==> p.isClient && j == 0)
  {
    SendBlockShape(p, j);
    if !p.isClient || (j >= 1 && j < p.iters) {
      RecvThenSend(p, if p.isClient then j - 1 else j, j);
    } else if j == 0 {
      var s := SendBlock(p, j);
      assert Block(p, j) == s;
      forall i, k {:trigger s[i], s[k]} | 0 <= i && k == i + 1 && k < |s| && s[k].Stamped?
        ensures false
      {
      }
    }
  }

  /** Ordering survives concatenation unless the client's first send lands
      after other events. */
  lemma RecvBeforeSendConcat(p: Params, a: seq<Event>, b: seq<Event>)
    requires RecvBeforeSend(p, a) && RecvBeforeSend(p, b)
    requires |b| > 0 && b[0].Stamped? ==> a == []
    ensures RecvBeforeSend(p, a + b)
  {
    var e := a + b;
    forall i, j {:trigger e[i], e[j]} | 0 <= i && j == i + 1 && j < |e| && e[j].Stamped?
      ensures !(p.isClient && e[j].k == 0) && e[i] == Received(if p.isClient then e[j].k - 1 else e[j].k)
    {
      if i >= |a| {
        assert e[i] == b[i - |a|] && e[j] == b[j - |a|];
      } else if j < |a| {
        assert e[i] == a[i] && e[j] == a[j];
      } else {
        assert false;
      }
    }
    if a == [] {
      assert e == b;
    } else {
      assert e[0] == a[0];
    }
  }

  lemma {:induction false} BlocksRecvBeforeSend(p: Params, n: nat)
    requires n <= Iterations(p)
    ensures RecvBeforeSend(p, Blocks(p, n))
  {
    if n > 0 {
      BlocksRecvBeforeSend(p, n - 1);
      BlockRecvBeforeSend(p, n - 1);
      RecvBeforeSendConcat(p, Blocks(p, n - 1), Block(p, n - 1));
    }
  }

  /** The indices of the time stamps taken, in order. */
  function Stamps(e: seq<Event>): (r: seq<nat>)
    ensures |r| <= |e|
  {
    if e == [] then []
    else (if e[0].Stamped? then [e[0].k] else []) + Stamps(e[1..])
  }

  lemma {:induction false} StampsConcat(a: seq<Event>, b: seq<Event>)
    ensures Stamps(a + b) == Stamps(a) + Stamps(b)
  {
    if a == [] {
      assert a + b == b;
    } else {
      assert (a + b)[0] == a[0];
      assert (a + b)[1..] == a[1..] + b;
      StampsConcat(a[1..], b);
    }
  }

  lemma BlockStamps(p: Params, j: nat)
    requires j < Iterations(p)
    ensures Stamps(Block(p, j)) == if j < p.iters then [j] else []
  {
    BlockShape(p, j);
    var sb := [Stamped(j), Sent(j, FlagsAt(p, j))] + (if ShouldSignal(p, j) then [Polled(j)] else []);
    assert Stamps(sb) == [j] by {
      var tail := if ShouldSignal(p, j) then [Polled(j)] else [];
      assert Stamps(tail) == [] by {
        if tail != [] {
          assert tail[1..] == [];
        }
      }
      assert sb[1..][1..] == tail;
      assert Stamps(sb[1..]) == [];
    }
    if p.isClient && j >= 1 {
      assert ([Received(j - 1)] + sb)[1..] == sb;
    } else if !p.isClient {
      assert ([Received(j)] + sb)[1..] == sb;
    }
  }

  /** 0, 1, ..., n - 1. */
  function Upto(n: nat): (r: seq<nat>)
    ensures |r| == n && forall i :: 0 <= i < n ==> r[i] == i
  {
    if n == 0 then [] else Upto(n - 1) + [n - 1]
  }

  /** tstamp[k] is written exactly once for each send k, in the order of
      the sends, and never otherwise. */
  lemma {:induction false} BlocksStampOnce(p: Params, n: nat)
    requires n <= Iterations(p)
    ensures Stamps(Blocks(p, n)) == Upto(if p.iters <= 0 then 0 else if n < p.iters then n else p.iters)
  {
    if n > 0 {
      var a, b := Blocks(p, n - 1), Block(p, n - 1);
      BlocksStampOnce(p, n - 1);
      BlockStamps(p, n - 1);
      StampsConcat(a, b);
      assert Blocks(p, n) == a + b;
      if n - 1 >= p.iters {
        assert Stamps(a) + [] == Stamps(a);
      }
    }
  }

  /** The failure-free run has the order, pairing and signaling that the
      source intends, and stamps each tstamp entry exactly once. */
  lemma ExpectedProperties(p: Params)
    ensures StampBeforeSend(p, Expected(p))
    ensures PollAfterSignaled(Expected(p))
    ensures RecvBeforeSend(p, Expected(p))
    ensures Stamps(Expected(p)) == Upto(if p.iters < 0 then 0 else p.iters)
  {
    BlocksStampBeforeSend(p, Iterations(p));
    BlocksPollAfterSignaled(p, Iterations(p));
    BlocksRecvBeforeSend(p, Iterations(p));
    BlocksStampOnce(p, Iterations(p));
  }

  // ---------------------------------------------------------------------
  // The loop itself
  // ---------------------------------------------------------------------

  /** The work-request fields of the pingpong context that run_iter sets:
      the send and receive scatter entries (as offsets into the buffer),
      the send flags and the UD addressing. size is ctx->size, the size the
      buffer was allocated for. */
  class Context {
    const size: int
    var sendOffset: int
    var sendLength: int
    var recvOffset: int
    var recvLength: int
    var sendFlags: Flags
    var remoteQpn: int
    var remoteQkey: int

    constructor(size: int)
      ensures this.size == size
      ensures sendOffset == 0 && sendLength == 0 && recvOffset == 0 && recvLength == 0
      ensures sendFlags == Flags(false, false) && remoteQpn == 0 && remoteQkey == 0
    {
      this.size := size;
      sendOffset, sendLength, recvOffset, recvLength := 0, 0, 0, 0;
      sendFlags := Flags(false, false);
      remoteQpn, remoteQkey := 0, 0;
    }

    /** run_iter. The returned code and the trace of what was done are
        those of Run from the initial state, so every property proved of
        Run holds of the loop; tstamp[k] holds the clock read just before
        send k for every send begun, and nothing else in tstamp changes. */
    method RunIter(p: Params, f: Fabric, remQpn: int, tstamp: array<Cycles>)
      returns (code: int, ghost trace: seq<Event>)
      requires tstamp.Length >= p.iters
      modifies this, tstamp
      ensures var o := Run(p, f, Init(p));
        && code == o.code && trace == o.st.trace && sendFlags == o.st.flags
        && (forall k :: 0 <= k < tstamp.Length ==>
              tstamp[k] == if k < o.st.scnt then f.clock(k) else old(tstamp[k]))
      ensures code == 0 ==> forall k :: 0 <= k < p.iters ==> tstamp[k] == f.clock(k)
      ensures sendOffset == (if p.conn == UD then GrhRoom else 0) && sendLength == SendSize(p)
      ensures recvOffset == 0 && recvLength == (if p.conn == UD then size + GrhRoom else size)
      ensures p.conn == UD ==> remoteQpn == (if p.useMcg then 0xffffff else remQpn) && remoteQkey == 0x11111111
      ensures p.conn != UD ==> remoteQpn == old(remoteQpn) && remoteQkey == old(remoteQkey)
    {
      var size := UdSize(p.conn, p.gidIndex, p.size);
      SetWorkRequests(p, size, remQpn);
      sendFlags := Flags(false, Inline(size, p.inlineSize));
      code, trace := PingPong(p, f, size, tstamp);
    }

    /** The while loop of run_iter: passes until both counters reach iters
        or a call fails; on success every send has its timestamp. */
    method PingPong(p: Params, f: Fabric, size: int, tstamp: array<Cycles>)
      returns (code: int, ghost trace: seq<Event>)
      requires size == SendSize(p) && sendFlags == BaseFlags(p)
      requires tstamp.Length >= p.iters
      modifies `sendFlags, tstamp
      ensures var o := Run(p, f, Init(p));
        && code == o.code && trace == o.st.trace && sendFlags == o.st.flags
        && (forall k :: 0 <= k < tstamp.Length ==>
              tstamp[k] == if k < o.st.scnt then f.clock(k) else old(tstamp[k]))
      ensures code == 0 ==> forall k :: 0 <= k < p.iters ==> tstamp[k] == f.clock(k)
    {
      code, trace := Passes(p, f, size, tstamp);
      RunFinishes(p, f, Init(p));
    }

    /** The loop itself, pass by pass, as Run describes it. */
    method Passes(p: Params, f: Fabric, size: int, tstamp: array<Cycles>)
      returns (code: int, ghost trace: seq<Event>)
      requires size == SendSize(p) && sendFlags == BaseFlags(p)
      requires tstamp.Length >= p.iters
      modifies `sendFlags, tstamp
      ensures var o := Run(p, f, Init(p));
        && code == o.code && trace == o.st.trace && sendFlags == o.st.flags
        && (forall k :: 0 <= k < tstamp.Length ==>
              tstamp[k] == if k < o.st.scnt then f.clock(k) else old(tstamp[k]))
    {
      var scnt: nat, rcnt: nat, ccnt: nat, poll := 0, 0, 0, false;
      trace := [];
      ghost var final := Run(p, f, Init(p));
      while scnt < p.iters || rcnt < p.iters
        invariant scnt == 0 || scnt <= p.iters
        invariant Valid(State(scnt, rcnt, ccnt, poll, sendFlags, trace))
        invariant final == Run(p, f, State(scnt, rcnt, ccnt, poll, sendFlags, trace))
        invariant forall k :: 0 <= k < tstamp.Length ==>
          tstamp[k] == if k < scnt then f.clock(k) else old(tstamp[k])
        decreases Remaining(p, State(scnt, rcnt, ccnt, poll, sendFlags, trace))
      {
        ghost var st := State(scnt, rcnt, ccnt, poll, sendFlags, trace);
        assert Run(p, f, st) == var o := Iterate(p, f, st); if o.code != 0 then o else Run(p, f, o.st);
        code, scnt, rcnt, ccnt, poll, trace := Pass(p, f, size, scnt, rcnt, ccnt, poll, trace, tstamp);
        if code != 0 {
          return;
        }
      }
      code := 0;
    }

    /** The scatter entries and UD addressing run_iter sets before its
        loop: the send starts after the 40-byte GRH room in UD. */
    method SetWorkRequests(p: Params, size: int, remQpn: int)
      modifies `sendOffset, `sendLength, `recvOffset, `recvLength, `remoteQpn, `remoteQkey
      ensures sendOffset == (if p.conn == UD then GrhRoom else 0) && sendLength == size
      ensures recvOffset == 0 && recvLength == (if p.conn == UD then this.size + GrhRoom else this.size)
      ensures p.conn == UD ==> remoteQpn == (if p.useMcg then 0xffffff else remQpn) && remoteQkey == 0x11111111
      ensures p.conn != UD ==> remoteQpn == old(remoteQpn) && remoteQkey == old(remoteQkey)
    {
      sendOffset := if p.conn == UD then GrhRoom else 0;
      sendLength := size;
      if p.conn == UD {
        remoteQkey := 0x11111111;
        remoteQpn := if p.useMcg then 0xffffff else remQpn;
      }
      recvOffset := 0;
      recvLength := if p.conn == UD then this.size + GrhRoom else this.size;
    }

    /** One pass of the while loop of run_iter: the receive when one is
        due, then the rest of the pass; each failing call ends the pass
        with its exit code. */
    method Pass(p: Params, f: Fabric, size: int, scnt: nat, rcnt: nat, ccnt: nat, poll: bool,
                ghost trace: seq<Event>, tstamp: array<Cycles>)
      returns (code: int, scnt': nat, rcnt': nat, ccnt': nat, poll': bool, ghost trace': seq<Event>)
      requires size == SendSize(p)
      requires scnt < p.iters ==> scnt < tstamp.Length
      requires Valid(State(scnt, rcnt, ccnt, poll, sendFlags, trace))
      requires Continues(p, State(scnt, rcnt, ccnt, poll, sendFlags, trace))
      modifies `sendFlags, tstamp
      ensures Iterate(p, f, State(scnt, rcnt, ccnt, poll, old(sendFlags), trace))
        == Outcome(code, State(scnt', rcnt', ccnt', poll', sendFlags, trace'))
      ensures forall k :: 0 <= k < tstamp.Length ==>
        tstamp[k] == if k == scnt < scnt' then f.clock(k) else old(tstamp[k])
      ensures scnt' == scnt || scnt' == scnt + 1 <= p.iters
    {
      var r, t := rcnt, trace;
      if rcnt < p.iters && !(scnt < 1 && p.isClient) {
        r := rcnt + 1;
        if !f.postRecv(rcnt) {
          code := 15;
        } else {
          code := AwaitCode(p.useEvent, f.recvEvent(rcnt), f.recvPoll(rcnt));
        }
        if code != 0 {
          return code, scnt, r, ccnt, poll, t;
        }
        t := t + [Received(rcnt)];
      }
      code, scnt', ccnt', poll', trace' := SendAndWait(p, f, size, scnt, r, ccnt, poll, t, tstamp);
      rcnt' := r;
    }

    /** The send when sends remain, with the selective-signaling and inline
        rules, then the wait for a signaled send's completion. */
    method SendAndWait(p: Params, f: Fabric, size: int, scnt: nat, rcnt: nat, ccnt: nat, poll: bool,
                       ghost trace: seq<Event>, tstamp: array<Cycles>)
      returns (code: int, scnt': nat, ccnt': nat, poll': bool, ghost trace': seq<Event>)
      requires size == SendSize(p)
      requires scnt < p.iters ==> scnt < tstamp.Length
      requires Valid(State(scnt, rcnt, ccnt, poll, sendFlags, trace))
      modifies `sendFlags, tstamp
      ensures SendAndAwait(p, f, State(scnt, rcnt, ccnt, poll, old(sendFlags), trace))
        == Outcome(code, State(scnt', rcnt, ccnt', poll', sendFlags, trace'))
      ensures forall k :: 0 <= k < tstamp.Length ==>
        tstamp[k] == if k == scnt < scnt' then f.clock(k) else old(tstamp[k])
      ensures scnt' == scnt || scnt' == scnt + 1 <= p.iters
    {
      ghost var goal := SendAndAwait(p, f, State(scnt, rcnt, ccnt, poll, sendFlags, trace));
      scnt', ccnt', poll', trace' := scnt, ccnt, poll, trace;
      if scnt' < p.iters {
        if ccnt' == p.txDepth - 2 || p.signalComp || scnt' == p.iters - 1 {
          ccnt' := 0;
          poll' := true;
          sendFlags := Flags(true, Inline(size, p.inlineSize));
        }
        tstamp[scnt'] := f.clock(scnt');
        scnt' := scnt' + 1;
        trace' := trace' + [Stamped(scnt' - 1)];
        if !f.postSend(scnt' - 1) {
          return 11, scnt', ccnt', poll', trace';
        }
        trace' := trace' + [Sent(scnt' - 1, sendFlags)];
      }
      assert goal == AwaitSend(p, f, State(scnt', rcnt, ccnt', poll', sendFlags, trace'));
      if poll' {
        code := AwaitCode(p.useEvent, f.sendEvent(scnt' - 1), f.sendPoll(scnt' - 1));
        if code != 0 {
          return;
        }
        poll' := false;
        sendFlags := Flags(false, Inline(size, p.inlineSize));
        trace' := trace' + [Polled(scnt' - 1)];
      }
      ccnt' := ccnt' + 1;
      code := 0;
    }
  }
}
