/** pp_open_port: the out-of-band handshake that gives each side the other's
    destination. The verbs queries, the TCP connection, read(), write() and
    pp_connect_ctx are the outside world; the model follows which of them
    is called, in which order, with which bytes, and what is returned. */
module Handshake {
  import opened Common
  import opened Keys
  import opened Setup

  /** servername set: client; otherwise server. */
  datatype Role = Client | Server

  /** A step of the handshake that completed. */
  datatype Step =
    | Connected                    // the TCP connection is up
    | Sent(msg: seq<char>)         // write() sent all of msg
    | Received(msg: seq<char>)     // read() returned msg and pp_read_keys accepted it
    | QpConnected                  // pp_connect_ctx returned 0

  /** What the world answers to pp_open_port. */
  datatype World = World(
    localLid: nat,                 // pp_get_local_lid (0 when the port query fails)
    gid: Option<seq<nat>>,         // ibv_query_gid: the port's GID, or failure
    sockfd: int,                   // pp_client_connect / pp_server_connect
    writeOk: nat -> bool,          // whether the n-th write() sends all its bytes
    incoming: nat -> seq<char>,    // the bytes the n-th read() returns
    connectRc: int)                // what pp_connect_ctx returns

  /** The C types of the answers: a uint16_t LID and 16 GID bytes. */
  predicate WellTyped(w: World) {
    && w.localLid < U16
    && (w.gid.Some? ==> |w.gid.value| == 16 && forall i :: 0 <= i < 16 ==> w.gid.value[i] < U8)
  }

  /** The local QP number (24 bits), the lrand48() draw, the MR's rkey
      (32 bits), the buffer address and the message size. */
  datatype Local = Local(qpn: nat, rand: nat, rkey: nat, buf: nat, size: nat)

  predicate LocalTyped(l: Local) {
    l.qpn < U24 && l.rkey < U32 && l.buf < U64
  }

  /** The token both sides write at the end: "done" and its NUL. */
  const DoneMsg: seq<char> := "done" + [NUL]

  /** The record layout: GID fields exactly when a GID index is given. */
  function UsesGid(gidIndex: int): bool { gidIndex >= 0 }

  /** my_dest: the PSN is the draw masked to 24 bits, the remote address
      is the buffer address plus the context size, the GID is the queried one (left
      empty when gid_index is -1, where the record does not carry it). */
  function MyDest(gidIndex: int, l: Local, w: World): (d: Dest)
    requires WellTyped(w) && LocalTyped(l)
    requires gidIndex != -1 ==> w.gid.Some?
    ensures Encodable(d, UsesGid(gidIndex))
    ensures d.psn == l.rand % U24 && d.vaddr == (l.buf + l.size) % U64
  {
    Dest(w.localLid, l.qpn, PsnMask(l.rand), l.rkey, (l.buf + l.size) % U64,
         if gidIndex != -1 then w.gid.value else [])
  }

  /** One exchange of records: the client writes before it reads, the
      server reads before it writes. */
  function Exchanged(role: Role, out: seq<char>, got: seq<char>): (b: seq<Step>)
    ensures |b| == 2 && Sent(out) in b && Received(got) in b
    ensures b[0] == Sent(out) <==> role == Client
  {
    match role
    case Client => [Sent(out), Received(got)]
    case Server => [Received(got), Sent(out)]
  }

  /** Every step in order when nothing fails: the exchange is repeated
      after pp_connect_ctx, and both sides end by writing the done token. */
  function Plan(role: Role, out: seq<char>, in0: seq<char>, in1: seq<char>): (p: seq<Step>)
    ensures |p| == 7 && p[0] == Connected && p[3] == QpConnected && p[6] == Sent(DoneMsg)
  {
    [Connected] + Exchanged(role, out, in0) + [QpConnected] + Exchanged(role, out, in1) + [Sent(DoneMsg)]
  }

  lemma PrefixOfConcat<T>(a: seq<T>, b: seq<T>, c: seq<T>, k: nat)
    requires k <= |b|
    ensures (a + b + c)[..|a| + k] == a + b[..k]
  {
  }

  /** The local checks pass: a nonzero LID in the LID layout, a GID
      whenever a GID index is given. */
  predicate LocalOk(gidIndex: int, w: World) {
    (gidIndex < 0 ==> w.localLid != 0) && (gidIndex != -1 ==> w.gid.Some?)
  }

  /** Everything pp_open_port depends on answers favourably. */
  predicate Succeeds(gidIndex: int, prev: Dest, w: World) {
    LocalOk(gidIndex, w) && Talks(UsesGid(gidIndex), prev, w)
  }

  /** One pp_client_exch_dest / pp_server_exch_dest: -1 as soon as the
      write or the read fails. nWrites and nReads count the calls made
      on the socket so far. */
  method Exchange(role: Role, withGid: bool, out: seq<char>, rem: Dest, w: World, nWrites: nat, nReads: nat)
    returns (ok: bool, rem': Dest, steps: seq<Step>)
    ensures var got := Decode(withGid, rem, w.incoming(nReads));
      && (ok <==> w.writeOk(nWrites) && got.Ok?)
      && (ok ==> rem' == got.value)
      && |steps| <= 2
      && steps == Exchanged(role, out, w.incoming(nReads))[..|steps|]
      && (ok <==> |steps| == 2)
  {
    rem' := rem;
    if role.Client? {
      if !w.writeOk(nWrites) {
        return false, rem', [];
      }
      var status, r := ReadKeys(withGid, rem, w.incoming(nReads));
      if status != 0 {
        return false, rem', [Sent(out)];
      }
      return true, r, [Sent(out), Received(w.incoming(nReads))];
    } else {
      var status, r := ReadKeys(withGid, rem, w.incoming(nReads));
      if status != 0 {
        return false, rem', [];
      }
      if !w.writeOk(nWrites) {
        return false, r, [Received(w.incoming(nReads))];
      }
      return true, r, [Received(w.incoming(nReads)), Sent(out)];
    }
  }

  /** The exchanges are possible: the socket connects, every write
      completes, both records are accepted and pp_connect_ctx returns 0. */
  predicate Talks(withGid: bool, prev: Dest, w: World) {
    && w.sockfd >= 0
    && w.writeOk(0) && w.writeOk(1) && w.writeOk(2)
    && Decode(withGid, prev, w.incoming(0)).Ok?
    && Decode(withGid, Decode(withGid, prev, w.incoming(0)).value, w.incoming(1)).Ok?
    && w.connectRc == 0
  }

  /** What pp_open_port returns when the handshake stops after `done`
      completed steps: the negative descriptor when the connection fails
      (no step), pp_connect_ctx's code when it fails (after the first
      exchange), 1 when the done token cannot be written (after the second
      exchange), and -1 when an exchange fails. */
  function FailCode(done: nat, w: World): int {
    if done == 0 then w.sockfd
    else if done == 3 then w.connectRc
    else if done == 6 then 1
    else -1
  }

  /** The first half of what pp_open_port does once my_dest is known:
      connect, exchange, pp_connect_ctx. On success the trace ends with
      the QP connected. */
  method FirstRound(role: Role, withGid: bool, my: Dest, prev: Dest, w: World)
    returns (rc: int, rem: Dest, trace: seq<Step>)
    requires Encodable(my, withGid)
    ensures var got := Decode(withGid, prev, w.incoming(0));
      rc == 0 <==> w.sockfd >= 0 && w.writeOk(0) && got.Ok? && w.connectRc == 0
    ensures rc == 0 ==> rem == Decode(withGid, prev, w.incoming(0)).value
    ensures rc == 0 ==> trace == [Connected] + Exchanged(role, Record(my, withGid), w.incoming(0)) + [QpConnected]
    ensures rc != 0 ==> |trace| <= 3 && rc == FailCode(|trace|, w)
    ensures rc != 0 ==> trace == Plan(role, Record(my, withGid), w.incoming(0), w.incoming(1))[..|trace|]
  {
    rem, trace := prev, [];
    var out := Record(my, withGid);
    ghost var x0, x1 := Exchanged(role, out, w.incoming(0)), Exchanged(role, out, w.incoming(1));
    ghost var p := Plan(role, out, w.incoming(0), w.incoming(1));
    if w.sockfd < 0 {
      return w.sockfd, rem, trace;
    }
    trace := [Connected];
    var ok, steps;
    ok, rem, steps := Exchange(role, withGid, out, rem, w, 0, 0);
    PrefixOfConcat([Connected], x0, [QpConnected] + x1 + [Sent(DoneMsg)], |steps|);
    assert p == [Connected] + x0 + ([QpConnected] + x1 + [Sent(DoneMsg)]);
    trace := trace + steps;
    if !ok {
      return -1, rem, trace;
    }
    if w.connectRc != 0 {
      return w.connectRc, rem, trace;
    }
    trace := trace + [QpConnected];
    rc := 0;
  }

  /** The second half: exchange again, then write the done token. code is
      0 on success, -1 when the exchange fails and 1 when the done token
      cannot be written. */
  method SecondRound(role: Role, withGid: bool, my: Dest, rem0: Dest, w: World)
    returns (code: int, rem: Dest, steps: seq<Step>)
    requires Encodable(my, withGid)
    ensures var got := Decode(withGid, rem0, w.incoming(1));
      code == 0 <==> w.writeOk(1) && got.Ok? && w.writeOk(2)
    ensures code == 0 ==> rem == Decode(withGid, rem0, w.incoming(1)).value
    ensures |steps| <= 3 && (code == 0 <==> |steps| == 3)
    ensures code != 0 ==> code == (if |steps| == 2 then 1 else -1)
    ensures steps == (Exchanged(role, Record(my, withGid), w.incoming(1)) + [Sent(DoneMsg)])[..|steps|]
  {
    ghost var x1 := Exchanged(role, Record(my, withGid), w.incoming(1));
    var ok;
    ok, rem, steps := Exchange(role, withGid, Record(my, withGid), rem0, w, 1, 1);
    assert (x1 + [Sent(DoneMsg)])[..|steps|] == x1[..|steps|];
    if !ok {
      return -1, rem, steps;
    }
    if !w.writeOk(2) {
      return 1, rem, steps;
    }
    steps := steps + [Sent(DoneMsg)];
    code := 0;
  }

  /** The plan cut after the first round and k steps of the second. */
  lemma PlanPrefix(role: Role, out: seq<char>, in0: seq<char>, in1: seq<char>, k: nat)
    requires k <= 3
    ensures Plan(role, out, in0, in1)[..4 + k]
         == [Connected] + Exchanged(role, out, in0) + [QpConnected]
            + (Exchanged(role, out, in1) + [Sent(DoneMsg)])[..k]
  {
    var first := [Connected] + Exchanged(role, out, in0) + [QpConnected];
    var second := Exchanged(role, out, in1) + [Sent(DoneMsg)];
    assert Plan(role, out, in0, in1) == first + second;
    PrefixOfConcat(first, second, [], k);
    assert first + second + [] == first + second;
  }

  /** The part of pp_open_port that runs once my_dest is known: connect,
      exchange, pp_connect_ctx, exchange again, write the done token. */
  method Converse(role: Role, withGid: bool, my: Dest, prev: Dest, w: World)
    returns (rc: int, rem: Dest, trace: seq<Step>)
    requires Encodable(my, withGid)
    ensures rc == 0 <==> Talks(withGid, prev, w)
    ensures rc == 0 ==> rem == Decode(withGid, Decode(withGid, prev, w.incoming(0)).value, w.incoming(1)).value
    ensures |trace| <= 7 && (rc == 0 <==> |trace| == 7)
    ensures rc != 0 ==> rc == FailCode(|trace|, w)
    ensures trace == Plan(role, Record(my, withGid), w.incoming(0), w.incoming(1))[..|trace|]
  {
    rc, rem, trace := FirstRound(role, withGid, my, prev, w);
    if rc != 0 {
      return;
    }
    var steps;
    rc, rem, steps := SecondRound(role, withGid, my, rem, w);
    PlanPrefix(role, Record(my, withGid), w.incoming(0), w.incoming(1), |steps|);
    trace := trace + steps;
  }

  /** pp_open_port. rc is 0 on success, -1 when the local LID is 0 in the
      LID layout, the GID query fails or an exchange fails, the negative
      descriptor when the connection fails, pp_connect_ctx's code when it
      fails, and 1 when the done token cannot be written. The completed
      steps are always a prefix of the plan: the first failure ends the
      handshake. */
  method OpenPort(role: Role, gidIndex: int, l: Local, prev: Dest, w: World)
    returns (rc: int, rem: Dest, trace: seq<Step>)
    requires WellTyped(w) && LocalTyped(l)
    ensures rc == 0 <==> Succeeds(gidIndex, prev, w)
    ensures rc == 0 ==>
      trace == Plan(role, Record(MyDest(gidIndex, l, w), UsesGid(gidIndex)), w.incoming(0), w.incoming(1))
    ensures rc == 0 ==> rem == Decode(UsesGid(gidIndex), Decode(UsesGid(gidIndex), prev, w.incoming(0)).value, w.incoming(1)).value
    ensures rc != 0 ==> |trace| < 7
    ensures !LocalOk(gidIndex, w) ==> rc == -1 && trace == []
    ensures LocalOk(gidIndex, w) && rc != 0 ==> rc == FailCode(|trace|, w)
    ensures LocalOk(gidIndex, w) ==>
      trace == Plan(role, Record(MyDest(gidIndex, l, w), UsesGid(gidIndex)), w.incoming(0), w.incoming(1))[..|trace|]
  {
    rem, trace := prev, [];
    if gidIndex < 0 && w.localLid == 0 {
      return -1, rem, trace;
    }
    if gidIndex != -1 && w.gid.None? {
      return -1, rem, trace;
    }
    var my := MyDest(gidIndex, l, w);
    rc, rem, trace := Converse(role, UsesGid(gidIndex), my, prev, w);
  }

  /** At every position where one side sends its record, the other side
      reads one, and the other way round: the two sides never both wait
      to read, and the bytes one side sends are the bytes the other reads. */
  lemma RolesMirror(a: seq<char>, b: seq<char>)
    ensures var c := Plan(Client, a, b, b);
      var s := Plan(Server, b, a, a);
      forall k :: 0 <= k < 6 ==>
        (c[k].Sent? ==> s[k] == Received(c[k].msg)) && (s[k].Sent? ==> c[k] == Received(s[k].msg))
  {
  }

  /** A peer that answers with its own pp_write_keys record in both rounds
      completes the handshake, and the destination read is the peer's (in
      the LID layout with the GID the caller's destination held). */
  lemma FaithfulPeer(gidIndex: int, prev: Dest, peer: Dest, w: World)
    requires Encodable(peer, UsesGid(gidIndex))
    requires LocalOk(gidIndex, w)
    requires w.sockfd >= 0 && w.connectRc == 0
    requires w.writeOk(0) && w.writeOk(1) && w.writeOk(2)
    requires w.incoming(0) == Record(peer, UsesGid(gidIndex)) == w.incoming(1)
    ensures Succeeds(gidIndex, prev, w)
    ensures var withGid := UsesGid(gidIndex);
      Decode(withGid, Decode(withGid, prev, w.incoming(0)).value, w.incoming(1)).value
        == if withGid then peer else peer.(gid := prev.gid)
  {
    var withGid := UsesGid(gidIndex);
    RoundTrip(peer, prev, withGid);
    var mid := Decode(withGid, prev, w.incoming(0)).value;
    RoundTrip(peer, mid, withGid);
  }
}
