/** The configuration arithmetic of pp_init_ctx, pp_connect_ctx and
    pp_open_port: the default MTU, the path MTU enumeration, the work
    buffer layout, the receive length, the initial receives and the 24-bit
    packet sequence number. The verbs calls themselves are not modelled;
    where their success matters they are parameters. */
module Setup {
  import opened Common

  // ---------------------------------------------------------------------
  // MTU
  // ---------------------------------------------------------------------

  /** The vendor part id whose ports get the 1024-byte default MTU. */
  const Vendor23108: int := 23108

  /** pp_init_ctx: a user MTU of 0 means "not given"; the device then
      decides, 1024 bytes for part 23108 or when a GID index is in use
      (RDMA over Ethernet), 2048 bytes otherwise. */
  function DefaultMtu(mtu: int, vendorPartId: int, gidIndex: int): (r: int)
    ensures mtu != 0 ==> r == mtu
    ensures mtu == 0 ==> PathMtuOf(r) != Unset
    ensures mtu == 0 ==> (r == 1024 <==> vendorPartId == Vendor23108 || gidIndex > -1)
    ensures mtu == 0 ==> (r == 2048 <==> !(vendorPartId == Vendor23108 || gidIndex > -1))
  {
    if mtu != 0 then mtu
    else if vendorPartId == Vendor23108 || gidIndex > -1 then 1024
    else 2048
  }

  /** attr.path_mtu: the five verbs MTU values, or the zero the attribute
      was cleared to when the MTU is none of them. */
  datatype PathMtu = Unset | Mtu256 | Mtu512 | Mtu1024 | Mtu2048 | Mtu4096

  /** The numeric value of enum ibv_mtu (IBV_MTU_256 is 1, ...). */
  function Code(m: PathMtu): (c: nat)
    ensures c <= 5 && (c == 0 <==> m == Unset)
  {
    match m
    case Unset => 0
    case Mtu256 => 1
    case Mtu512 => 2
    case Mtu1024 => 3
    case Mtu2048 => 4
    case Mtu4096 => 5
  }

  function Pow2(k: nat): (p: nat)
    ensures p >= 1
  {
    if k == 0 then 1 else 2 * Pow2(k - 1)
  }

  /** The bytes an enumerated MTU stands for: 128 << code. */
  function Bytes(m: PathMtu): (n: nat)
    requires m != Unset
  {
    128 * Pow2(Code(m))
  }

  /** The switch of pp_connect_ctx (RC and UC only). */
  function PathMtuOf(mtu: int): (m: PathMtu)
    ensures m != Unset ==> Bytes(m) == mtu
    ensures m == Unset <==> mtu !in {256, 512, 1024, 2048, 4096}
  {
    if mtu == 256 then Mtu256
    else if mtu == 512 then Mtu512
    else if mtu == 1024 then Mtu1024
    else if mtu == 2048 then Mtu2048
    else if mtu == 4096 then Mtu4096
    else Unset
  }

  /** Every enumerated MTU is the image of its own byte count. */
  lemma PathMtuRoundTrip(m: PathMtu)
    requires m != Unset
    ensures PathMtuOf(Bytes(m)) == m
  {
    assert Pow2(1) == 2 && Pow2(2) == 4 && Pow2(3) == 8;
    assert Pow2(4) == 16 && Pow2(5) == 32;
  }

  // ---------------------------------------------------------------------
  // The work buffer
  // ---------------------------------------------------------------------

  /** recv_list.length: the message, and in UD the GRH in front of it. */
  function RecvLength(conn: Conn, size: int): (n: int)
    ensures conn == UD ==> n == size + GrhRoom
    ensures conn != UD ==> n == size
  {
    if conn == UD then size + GrhRoom else size
  }

  /** The length memalign'd, cleared and registered as the MR, and the
      offsets of post_buf and poll_buf inside it. */
  datatype Layout = Layout(length: int, post: int, poll: int)

  function BufferLayout(conn: Conn, size: int): (l: Layout)
    ensures l.length == 2 * RecvLength(conn, size)
    ensures l.post == size - 1 && l.poll - l.post == size
    ensures size >= 1 ==> 0 <= l.post < l.poll < l.length
  {
    Layout(if conn == UD then (size + GrhRoom) * 2 else size * 2, size - 1, 2 * size - 1)
  }

  /** The scatter entries run_iter sets up stay inside the registered
      region: the receive entry at the start, the send entry at the GRH
      room in UD or at the start otherwise, for any message no longer than
      the context's size; in UD a sent message and its GRH fit one receive. */
  lemma EntriesInsideRegion(conn: Conn, ctxSize: int, msgSize: int)
    requires 0 <= msgSize <= ctxSize
    ensures RecvLength(conn, ctxSize) <= BufferLayout(conn, ctxSize).length
    ensures (if conn == UD then GrhRoom else 0) + msgSize <= BufferLayout(conn, ctxSize).length
    ensures conn == UD ==> GrhRoom + msgSize <= RecvLength(conn, ctxSize)
  {
  }

  // ---------------------------------------------------------------------
  // Initial receives
  // ---------------------------------------------------------------------

  /** C's tx_depth / 2, which truncates toward zero. */
  function Half(t: int): (h: int)
    ensures t >= 0 ==> 0 <= h && 2 * h <= t <= 2 * h + 1
    ensures t < 0 ==> h <= 0 && 2 * h - 1 <= t <= 2 * h
  {
    if t >= 0 then t / 2 else -((-t) / 2)
  }

  /** The end of pp_connect_ctx: tx_depth / 2 receives are posted before
      the run; the first one the verbs call refuses ends it with 14. */
  method PostInitialReceives(txDepth: int, postRecv: nat -> bool) returns (code: int, posted: nat)
    ensures code == 0 || code == 14
    ensures code == 0 <==> forall i :: 0 <= i < Half(txDepth) ==> postRecv(i)
    ensures code == 0 ==> posted == (if txDepth >= 0 then Half(txDepth) else 0)
    ensures code == 14 ==> posted < Half(txDepth) && !postRecv(posted)
    ensures forall i :: 0 <= i < posted ==> postRecv(i)
  {
    var i := 0;
    while i < Half(txDepth)
      invariant 0 <= i && (txDepth >= 0 ==> i <= Half(txDepth)) && (txDepth < 0 ==> i == 0)
      invariant forall j :: 0 <= j < i ==> postRecv(j)
    {
      if !postRecv(i) {
        return 14, i;
      }
      i := i + 1;
    }
    return 0, i;
  }

  // ---------------------------------------------------------------------
  // The packet sequence number
  // ---------------------------------------------------------------------

  /** a & b on non-negative integers, bit by bit from the lowest. */
  function BitAnd(a: nat, b: nat): (r: nat)
    ensures r <= a && r <= b
    decreases a
  {
    if a == 0 || b == 0 then 0 else 2 * BitAnd(a / 2, b / 2) + (a % 2) * (b % 2)
  }

  /** Keeping the low k bits is taking the remainder by 2^k. */
  lemma {:induction false} MaskLowBits(r: nat, k: nat)
    ensures BitAnd(r, Pow2(k) - 1) == r % Pow2(k)
  {
    if k > 0 && r > 0 {
      MaskLowBits(r / 2, k - 1);
      MaskStep(r, Pow2(k - 1));
    } else if k == 0 {
      assert Pow2(k) - 1 == 0;
      ModUnique(r, 1, r, 0);
    } else {
      assert BitAnd(r, Pow2(k) - 1) == 0;
      ModUnique(r, Pow2(k), 0, 0);
    }
  }

  /** One more bit of mask keeps one more bit of r. */
  lemma MaskStep(r: nat, m: nat)
    requires r > 0 && m > 0
    requires BitAnd(r / 2, m - 1) == (r / 2) % m
    ensures BitAnd(r, 2 * m - 1) == r % (2 * m)
  {
    ModUnique(2 * m - 1, 2, m - 1, 1);
    assert BitAnd(r, 2 * m - 1) == 2 * BitAnd(r / 2, m - 1) + r % 2;
    HalfMod(r, m);
  }

  /** The low bit, then the rest: r % 2m from (r / 2) % m. */
  lemma HalfMod(r: nat, m: nat)
    requires m > 0
    ensures 2 * ((r / 2) % m) + r % 2 == r % (2 * m)
  {
    var h := r / 2;
    var q, u := h / m, h % m;
    assert h == q * m + u;
    assert r == 2 * h + r % 2;
    assert 2 * (q * m) == q * (2 * m);
    ModUnique(r, 2 * m, q, 2 * u + r % 2);
  }

  /** pp_open_port: the PSN is the random draw masked with 0xffffff, so
      it is the draw's low 24 bits and fits the 24-bit PSN field. */
  function PsnMask(draw: nat): (psn: nat)
    ensures psn == draw % U24 && psn < U24
  {
    MaskLowBits(draw, 24);
    Pow2Of24();
    BitAnd(draw, 0xff_ffff)
  }

  lemma Pow2Of24()
    ensures Pow2(24) == U24
  {
    assert Pow2(6) == 64;
    Pow2Add(6, 6);
    Pow2Add(12, 12);
  }

  lemma {:induction false} Pow2Add(a: nat, b: nat)
    ensures Pow2(a + b) == Pow2(a) * Pow2(b)
  {
    if b > 0 {
      Pow2Add(a, b - 1);
    }
  }
}
