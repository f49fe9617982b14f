/** main of send_lat: the option switch with its range checks and exit
    codes, the message size the context is built for, and the sizes the
    run goes through (one, or every power of two with --all). The option
    letters arrive already split by getopt_long and their numbers already
    converted by strtol; what main does with them is modelled. */
module Options {
  import opened Common
  import opened Driver
  import opened Setup

  /** A long stored into an int field: the low 32 bits, read as two's
      complement. */
  function ToInt(v: int): (r: int)
    ensures -(U32 / 2) <= r < U32 / 2
    ensures (v - r) % U32 == 0
    ensures -(U32 / 2) <= v < U32 / 2 ==> r == v
  {
    var m := v % U32;
    if m >= U32 / 2 then m - U32 else m
  }

  /** One option as getopt_long returns it; a number is the value strtol
      gave for its argument. Unknown stands for '?' and every character
      the switch has no case for. */
  datatype Opt =
    | Port(v: int) | Connection(name: string) | Events | Mcg | Mtu(v: int)
    | Signal | All | Version | IbDev(name: string) | IbPort(v: int)
    | Size(v: int) | GidIndex(v: int) | TxDepth(v: int) | InlineSize(v: int)
    | Iters(v: int) | ReportCycles | ReportHistogram | ReportUnsorted
    | CpuFreq | QpTimeout(v: int) | Sl(v: int) | Unknown

  /** Everything the switch writes: the TCP port, the user parameters,
      the report options, the -F flag, the service level and the server
      name (None on the server). use_event and use_mcg count their
      options. */
  datatype Config = Config(
    port: int, conn: Conn, useEvent: nat, useMcg: nat, mtu: int,
    signalComp: bool, all: bool, ibDevName: Option<string>, ibPort: int,
    size: int, gidIndex: int, txDepth: int, inlineSize: int, iters: int,
    cycles: bool, histogram: bool, unsorted: bool, noCpuFreqFail: bool,
    qpTimeout: int, sl: int, servername: Option<string>)

  /** MAX_INLINE: the largest inline size accepted. */
  const MaxInline: int := 400

  /** The values main starts from. */
  const Default: Config := Config(
    18515, RC, 0, 0, 0, false, false, None, 1, 2, -1, 50, MaxInline, 1000,
    false, false, false, false, 14, 0, None)

  /** Either parsing goes on with a configuration, or main returns. */
  datatype Parsed = Proceed(cfg: Config) | Exit(code: int)

  /** -c: "UC" and "UD" select those transports; any other name leaves
      the transport as it was (RC unless an earlier -c changed it). */
  function Transport(conn: Conn, name: string): (r: Conn)
    ensures r != conn ==> (r == UC && name == "UC") || (r == UD && name == "UD")
    ensures name == "UC" ==> r == UC
    ensures name == "UD" ==> r == UD
  {
    if name == "UC" then UC else if name == "UD" then UD else conn
  }

  /** One case of the switch: the field is stored (narrowed to int), then
      checked; a value out of range makes main print the usage and return
      the case's code. */
  function Apply(c: Config, o: Opt): Parsed {
    match o
    case Port(v) =>
      var port := ToInt(v);
      if port < 0 || port > 65535 then Exit(1) else Proceed(c.(port := port))
    case Connection(name) => Proceed(c.(conn := Transport(c.conn, name)))
    case Events => Proceed(c.(useEvent := c.useEvent + 1))
    case Mcg => Proceed(c.(useMcg := c.useMcg + 1))
    case Mtu(v) => Proceed(c.(mtu := ToInt(v)))
    case Signal => Proceed(c.(signalComp := true))
    case All => Proceed(c.(all := true))
    case Version => Exit(0)
    case IbDev(name) => Proceed(c.(ibDevName := Some(name)))
    case IbPort(v) =>
      var p := ToInt(v);
      if p < 0 then Exit(2) else Proceed(c.(ibPort := p))
    case Size(v) =>
      var s := ToInt(v);
      if s < 1 then Exit(3) else Proceed(c.(size := s))
    case GidIndex(v) =>
      var g := ToInt(v);
      if g > 63 then Exit(1) else Proceed(c.(gidIndex := g))
    case TxDepth(v) =>
      var t := ToInt(v);
      if t < 1 then Exit(4) else Proceed(c.(txDepth := t))
    case InlineSize(v) =>
      var n := ToInt(v);
      if n > MaxInline then Exit(19) else Proceed(c.(inlineSize := n))
    case Iters(v) =>
      var n := ToInt(v);
      if n < 2 then Exit(5) else Proceed(c.(iters := n))
    case ReportCycles => Proceed(c.(cycles := true))
    case ReportHistogram => Proceed(c.(histogram := true))
    case ReportUnsorted => Proceed(c.(unsorted := true))
    case CpuFreq => Proceed(c.(noCpuFreqFail := true))
    case QpTimeout(v) => Proceed(c.(qpTimeout := ToInt(v)))
    case Sl(v) =>
      var s := ToInt(v);
      if s > 15 then Exit(6) else Proceed(c.(sl := s))
    case Unknown => Exit(7)
  }

  /** The option loop from configuration c. */
  function ParseFrom(c: Config, opts: seq<Opt>): Parsed
    decreases |opts|
  {
    if opts == [] then Proceed(c)
    else match Apply(c, opts[0])
      case Exit(k) => Exit(k)
      case Proceed(c') => ParseFrom(c', opts[1..])
  }

  /** The whole command line: the options, then the operands left over.
      One operand is the server to connect to; more than one is an error. */
  function ParseArgs(opts: seq<Opt>, operands: seq<string>): Parsed {
    match ParseFrom(Default, opts)
    case Exit(k) => Exit(k)
    case Proceed(c) =>
      if |operands| == 0 then Proceed(c)
      else if |operands| == 1 then Proceed(c.(servername := Some(operands[0])))
      else Exit(6)
  }

  /** The parsing loop of main, over the options getopt_long hands out. */
  method ParseOptions(opts: seq<Opt>, operands: seq<string>) returns (r: Parsed)
    ensures r == ParseArgs(opts, operands)
    ensures r.Proceed? ==> InRange(r.cfg)
    ensures r.Exit? ==> r.code in {0, 1, 2, 3, 4, 5, 6, 7, 19}
  {
    var c := Default;
    var i := 0;
    DefaultInRange();
    while i < |opts|
      invariant 0 <= i <= |opts|
      invariant ParseFrom(Default, opts) == ParseFrom(c, opts[i..])
      invariant InRange(c)
    {
      assert opts[i..][1..] == opts[i + 1..];
      ApplyKeepsRange(c, opts[i]);
      match Apply(c, opts[i])
      case Exit(k) =>
        ApplyCodes(c, opts[i]);
        return Exit(k);
      case Proceed(c') =>
        c := c';
      i := i + 1;
    }
    if |operands| == 1 {
      r := Proceed(c.(servername := Some(operands[0])));
    } else if |operands| > 1 {
      r := Exit(6);
    } else {
      r := Proceed(c);
    }
  }

  // ---------------------------------------------------------------------
  // What parsing guarantees
  // ---------------------------------------------------------------------

  /** Every value the switch checks is within its range. */
  predicate InRange(c: Config) {
    && 0 <= c.port <= 65535 && c.ibPort >= 0 && c.size >= 1
    && c.gidIndex <= 63 && c.txDepth >= 1 && c.inlineSize <= MaxInline
    && c.iters >= 2 && c.sl <= 15
  }

  /** The check an option meets on its own: the code main returns for it,
      or None when it is accepted. It depends on nothing parsed before. */
  function Verdict(o: Opt): (k: Option<int>)
    ensures k.Some? ==> k.value in {0, 1, 2, 3, 4, 5, 6, 7, 19}
  {
    match o
    case Port(v) => if 0 <= ToInt(v) <= 65535 then None else Some(1)
    case Version => Some(0)
    case IbPort(v) => if ToInt(v) >= 0 then None else Some(2)
    case Size(v) => if ToInt(v) >= 1 then None else Some(3)
    case GidIndex(v) => if ToInt(v) <= 63 then None else Some(1)
    case TxDepth(v) => if ToInt(v) >= 1 then None else Some(4)
    case InlineSize(v) => if ToInt(v) <= MaxInline then None else Some(19)
    case Iters(v) => if ToInt(v) >= 2 then None else Some(5)
    case Sl(v) => if ToInt(v) <= 15 then None else Some(6)
    case Unknown => Some(7)
    case _ => None
  }

  /** The switch stops exactly on the options the checks reject, with
      their codes. */
  lemma ApplyCodes(c: Config, o: Opt)
    ensures Apply(c, o).Exit? <==> Verdict(o).Some?
    ensures Apply(c, o).Exit? ==> Apply(c, o).code == Verdict(o).value
  {
  }

  /** The defaults pass every check. */
  lemma DefaultInRange()
    ensures InRange(Default)
  {
  }

  /** An accepted option keeps every checked value in range. */
  lemma ApplyKeepsRange(c: Config, o: Opt)
    requires InRange(c)
    ensures Apply(c, o).Proceed? ==> InRange(Apply(c, o).cfg)
  {
    match o
    case Port(v) =>
    case IbPort(v) =>
    case Size(v) =>
    case GidIndex(v) =>
    case TxDepth(v) =>
    case InlineSize(v) =>
    case Iters(v) =>
    case Sl(v) =>
    case _ =>
  }

  /** Parsing ends with the code of the first rejected option, and goes on
      only when no option is rejected. */
  lemma {:induction false} FirstRejected(c: Config, opts: seq<Opt>)
    ensures ParseFrom(c, opts).Proceed? <==> forall i :: 0 <= i < |opts| ==> Verdict(opts[i]).None?
    ensures forall i :: (0 <= i < |opts| && Verdict(opts[i]).Some? &&
                         (forall j :: 0 <= j < i ==> Verdict(opts[j]).None?)) ==>
      ParseFrom(c, opts) == Exit(Verdict(opts[i]).value)
    decreases |opts|
  {
    if opts != [] {
      ApplyCodes(c, opts[0]);
      match Apply(c, opts[0])
      case Exit(k) =>
      case Proceed(c') =>
        FirstRejected(c', opts[1..]);
        forall i | 0 <= i < |opts| && Verdict(opts[i]).Some? &&
            (forall j :: 0 <= j < i ==> Verdict(opts[j]).None?)
          ensures ParseFrom(c, opts) == Exit(Verdict(opts[i]).value)
        {
          assert opts[1..][i - 1] == opts[i];
          forall j | 0 <= j < i - 1
            ensures Verdict(opts[1..][j]).None?
          {
            assert opts[1..][j] == opts[j + 1];
          }
        }
        forall i | 0 <= i < |opts[1..]|
          ensures opts[1..][i] == opts[i + 1]
        {
        }
    }
  }

  /** Whatever the options, a configuration main goes on with is in range. */
  lemma {:induction false} ParsedInRange(c: Config, opts: seq<Opt>)
    requires InRange(c)
    ensures ParseFrom(c, opts).Proceed? ==> InRange(ParseFrom(c, opts).cfg)
    decreases |opts|
  {
    if opts != [] {
      ApplyKeepsRange(c, opts[0]);
      if Apply(c, opts[0]).Proceed? {
        ParsedInRange(Apply(c, opts[0]).cfg, opts[1..]);
      }
    }
  }

  /** The later of two options for the same field wins. */
  lemma LastSizeWins(a: int, b: int)
    requires 1 <= ToInt(a) && 1 <= ToInt(b)
    ensures ParseFrom(Default, [Size(a), Size(b)]) == Proceed(Default.(size := ToInt(b)))
  {
    var c := Default.(size := ToInt(a));
    assert [Size(a), Size(b)][1..] == [Size(b)];
    assert [Size(b)][1..] == [];
    assert ParseFrom(c, [Size(b)]) == ParseFrom(c.(size := ToInt(b)), []);
  }

  // ---------------------------------------------------------------------
  // Message sizes
  // ---------------------------------------------------------------------

  /** --all runs every size up to 2^23 bytes. */
  const AllSize: int := 0x80_0000

  /** The size the context is created for: 2^23 with --all, at most 2048
      bytes in UD and at most 1024 in UD over RDMA over Ethernet. */
  function ContextSize(c: Config): (s: int)
    ensures c.conn == UD ==> s <= 2048
    ensures c.conn == UD && c.gidIndex > -1 ==> s <= 1024
    ensures c.all && c.conn != UD ==> s == AllSize
    ensures !c.all && c.conn != UD ==> s == c.size
    ensures c.conn == UD && s != (if c.all then AllSize else c.size) ==>
      s == (if c.gidIndex > -1 then 1024 else 2048)
    ensures c.size >= 1 ==> s >= 1
  {
    var s0 := if c.all then AllSize else c.size;
    var s1 := if c.conn == UD && s0 > 2048 then 2048 else s0;
    if c.conn == UD && c.gidIndex > -1 && s1 > 1024 then 1024 else s1
  }

  /** size_max_pow: 2^24 is never reached; 2^12 in UD, 2^11 in UD over
      RDMA over Ethernet. */
  function MaxPow(c: Config): nat {
    if c.conn == UD then (if c.gidIndex < 0 then 12 else 11) else 24
  }

  /** The sizes of --all: 1 << i for i from 1 below size_max_pow. */
  function Schedule(c: Config): (s: seq<int>)
    ensures |s| == MaxPow(c) - 1
  {
    seq(MaxPow(c) - 1, i requires 0 <= i < MaxPow(c) - 1 => Pow2(i + 1))
  }

  /** The schedule starts at 2 bytes, doubles at each step and ends at
      exactly the context's size, so every message fits the buffer and
      run_iter's own UD clamp never changes one. */
  lemma ScheduleFitsContext(c: Config)
    requires c.all
    ensures Schedule(c)[0] == 2
    ensures forall i :: 0 < i < |Schedule(c)| ==> Schedule(c)[i] == 2 * Schedule(c)[i - 1]
    ensures Schedule(c)[|Schedule(c)| - 1] == ContextSize(c)
    ensures forall i :: 0 <= i < |Schedule(c)| ==>
      2 <= Schedule(c)[i] <= ContextSize(c) && UdSize(c.conn, c.gidIndex, Schedule(c)[i]) == Schedule(c)[i]
  {
    var s := Schedule(c);
    var n := |s|;
    LastPow(c);
    Pow2Monotone(n);
    forall i | 0 < i < n
      ensures s[i] == 2 * s[i - 1]
    {
      assert s[i] == Pow2(i + 1) && s[i - 1] == Pow2(i);
    }
    forall i | 0 <= i < n
      ensures 2 <= s[i] <= ContextSize(c) && UdSize(c.conn, c.gidIndex, s[i]) == s[i]
    {
      assert s[i] == Pow2(i + 1);
    }
  }

  /** The last power of --all is the context's size. */
  lemma LastPow(c: Config)
    requires c.all
    ensures Pow2(MaxPow(c) - 1) == ContextSize(c)
  {
    assert Pow2(5) == 32;
    Pow2Add(5, 5);
    assert Pow2(11) == 2 * Pow2(10) == 2048;
    assert Pow2(12) == 2 * Pow2(11);
    Pow2Add(11, 12);
  }

  /** 2 <= 2^i <= 2^n for every i from 1 to n. */
  lemma {:induction false} Pow2Monotone(n: nat)
    ensures forall i :: 1 <= i <= n ==> 2 <= Pow2(i) <= Pow2(n)
  {
    if n > 0 {
      Pow2Monotone(n - 1);
    }
  }

  /** The sizes main runs: the schedule with --all, else the context size. */
  function Planned(c: Config): (s: seq<int>)
    ensures |s| >= 1
  {
    if c.all then Schedule(c) else [ContextSize(c)]
  }

  /** The end of main: run_iter for each planned size; the first that
      fails ends main with 17 under --all and 18 otherwise. ran counts the
      sizes run_iter was started for. */
  method RunSizes(c: Config, runIter: int -> bool) returns (code: int, ran: nat)
    ensures code == 0 <==> forall i :: 0 <= i < |Planned(c)| ==> runIter(Planned(c)[i])
    ensures code == 0 ==> ran == |Planned(c)|
    ensures code != 0 ==> code == (if c.all then 17 else 18)
    ensures code != 0 ==> 1 <= ran <= |Planned(c)| && !runIter(Planned(c)[ran - 1])
    ensures forall i :: 0 <= i < ran - 1 ==> runIter(Planned(c)[i])
  {
    if c.all {
      var i := 1;
      ghost var s := Schedule(c);
      while i < MaxPow(c)
        invariant 1 <= i <= MaxPow(c) || (MaxPow(c) <= 1 && i == 1)
        invariant forall j :: 0 <= j < i - 1 ==> runIter(s[j])
      {
        var size := Pow2(i);
        if !runIter(size) {
          assert Planned(c)[i - 1] == size;
          return 17, i;
        }
        i := i + 1;
      }
      return 0, i - 1;
    } else {
      assert Planned(c) == [ContextSize(c)];
      if !runIter(ContextSize(c)) {
        assert !runIter(Planned(c)[0]);
        return 18, 1;
      }
      return 0, 1;
    }
  }
}
