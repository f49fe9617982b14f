/** The out-of-band connection record: pp_write_keys prints the local
    destination (LID, QPN, PSN, RKEY, VADDR and, in the GID layout, the 16
    GID bytes) as fixed-width colon-separated hex, NUL included; pp_read_keys
    parses the peer's record back, with sscanf in the LID layout and with a
    strpbrk/strtol scanner in the GID layout. */
module Keys {
  import opened Common
  import opened Hex

  /** struct pingpong_dest. The int fields are kept as their 32-bit patterns. */
  datatype Dest = Dest(lid: nat, qpn: nat, psn: nat, rkey: nat, vaddr: nat, gid: seq<nat>)

  /** The templates whose sizeof is KEY_MSG_SIZE and KEY_MSG_SIZE_GID. */
  const KeyTemplate: string := "0000:000000:000000:00000000:0000000000000000"
  const KeyTemplateGid: string :=
    KeyTemplate + ":00:00:00:00:00:00:00:00:00:00:00:00:00:00:00:00"

  /** sizeof a string literal counts its terminating NUL. */
  const KeyMsgSize: nat := |KeyTemplate| + 1
  const KeyMsgSizeGid: nat := |KeyTemplateGid| + 1

  /** Field widths of KEY_PRINT_FMT ("%04x:%06x:%06x:%08x:%016Lx") and of
      KEY_PRINT_FMT_GID, which appends sixteen ":%02x". */
  const KeyWidths: seq<nat> := [4, 6, 6, 8, 16]
  const GidWidths: seq<nat> := KeyWidths + [2, 2, 2, 2, 2, 2, 2, 2, 2, 2, 2, 2, 2, 2, 2, 2]

  function Widths(withGid: bool): seq<nat> {
    if withGid then GidWidths else KeyWidths
  }

  /** What the C types of the fields guarantee: a 16-bit LID, 24-bit QPN and
      PSN, 32-bit RKEY, 64-bit VADDR and 16 GID bytes. */
  predicate Encodable(d: Dest, withGid: bool) {
    && d.lid < U16 && d.qpn < U24 && d.psn < U24 && d.rkey < U32 && d.vaddr < U64
    && (withGid ==> |d.gid| == 16 && forall i :: 0 <= i < 16 ==> d.gid[i] < U8)
  }

  /** The printed values, in the order of the format. */
  function FieldValues(d: Dest, withGid: bool): seq<nat> {
    [d.lid, d.qpn, d.psn, d.rkey, d.vaddr] + (if withGid then d.gid else [])
  }

  predicate FitWidths(vs: seq<nat>, ws: seq<nat>) {
    |vs| == |ws| && forall i :: 0 <= i < |vs| ==> vs[i] < Pow16(ws[i])
  }

  lemma FieldsFit(d: Dest, withGid: bool)
    requires Encodable(d, withGid)
    ensures FitWidths(FieldValues(d, withGid), Widths(withGid))
  {
    Pow16Values();
    var vs, ws := FieldValues(d, withGid), Widths(withGid);
    forall i | 0 <= i < |vs| ensures vs[i] < Pow16(ws[i]) {
      if i >= 5 {
        assert vs[i] == d.gid[i - 5] && ws[i] == 2;
      }
    }
  }

  /** Each value printed with "%0<w>x", the fields separated by ':'. */
  function Join(vs: seq<nat>, ws: seq<nat>): (s: string)
    requires |vs| > 0 && FitWidths(vs, ws)
    ensures NUL !in s
  {
    if |vs| == 1 then Fixed(vs[0], ws[0])
    else Fixed(vs[0], ws[0]) + ":" + Join(vs[1..], ws[1..])
  }

  function SumWidths(ws: seq<nat>): nat {
    if ws == [] then 0 else ws[0] + SumWidths(ws[1..])
  }

  lemma {:induction false} SumWidthsConcat(a: seq<nat>, b: seq<nat>)
    ensures SumWidths(a + b) == SumWidths(a) + SumWidths(b)
  {
    if a != [] {
      assert (a + b)[0] == a[0];
      assert (a + b)[1..] == a[1..] + b;
      SumWidthsConcat(a[1..], b);
    } else {
      assert a + b == b;
    }
  }

  /** A join is as long as its fields and the ':' between them. */
  lemma {:induction false} JoinLength(vs: seq<nat>, ws: seq<nat>)
    requires |vs| > 0 && FitWidths(vs, ws)
    ensures |Join(vs, ws)| == SumWidths(ws) + |ws| - 1
  {
    if |vs| > 1 {
      JoinLength(vs[1..], ws[1..]);
    } else {
      assert ws[1..] == [];
    }
  }

  /** The text sprintf produces with KEY_PRINT_FMT or KEY_PRINT_FMT_GID. */
  function Format(d: Dest, withGid: bool): (s: string)
    requires Encodable(d, withGid)
    ensures NUL !in s
  {
    FieldsFit(d, withGid);
    Join(FieldValues(d, withGid), Widths(withGid))
  }

  /** The bytes pp_write_keys passes to write(): the formatted record with
      its terminating NUL, sizeof msg bytes in all. */
  function Record(d: Dest, withGid: bool): seq<char>
    requires Encodable(d, withGid)
  {
    Format(d, withGid) + [NUL]
  }

  lemma GidWidthsSum()
    ensures SumWidths(KeyWidths) == 40 && SumWidths(GidWidths) == 72
  {
    var eight: seq<nat> := [2, 2, 2, 2, 2, 2, 2, 2];
    assert SumWidths(KeyWidths) == 40;
    assert SumWidths(eight) == 16;
    assert GidWidths == KeyWidths + eight + eight;
    SumWidthsConcat(KeyWidths, eight);
    SumWidthsConcat(KeyWidths + eight, eight);
  }

  /** The record is sizeof the template long: the template's characters
      and the terminating NUL, which is its only NUL. */
  lemma RecordLength(d: Dest, withGid: bool)
    requires Encodable(d, withGid)
    ensures var t := if withGid then KeyTemplateGid else KeyTemplate;
      && |Record(d, withGid)| == |t| + 1 == (if withGid then KeyMsgSizeGid else KeyMsgSize)
      && Record(d, withGid)[|t|] == NUL
      && NUL !in Record(d, withGid)[..|t|]
  {
    var f := Format(d, withGid);
    FieldsFit(d, withGid);
    JoinLength(FieldValues(d, withGid), Widths(withGid));
    GidWidthsSum();
    assert |f| == (if withGid then 92 else 44);
    assert Record(d, withGid)[..|f|] == f;
  }

  /** The C string held in a buffer: everything before its first NUL. */
  function CString(msg: seq<char>): (s: seq<char>)
    ensures |s| <= |msg| && s == msg[..|s|] && NUL !in s
    ensures |s| < |msg| ==> msg[|s|] == NUL
  {
    if msg == [] || msg[0] == NUL then [] else [msg[0]] + CString(msg[1..])
  }

  lemma {:induction false} CStringOfTerminated(s: seq<char>, tail: seq<char>)
    requires NUL !in s
    ensures CString(s + [NUL] + tail) == s
  {
    if s != [] {
      assert (s + [NUL] + tail)[1..] == s[1..] + [NUL] + tail;
      CStringOfTerminated(s[1..], tail);
    }
  }

  // ---------------------------------------------------------------------
  // LID layout: sscanf(msg, KEY_PRINT_FMT, ...)
  // ---------------------------------------------------------------------

  /** The values sscanf converts, in order: each "%<w>x" takes at most w
      hex digits and at least one, and each ':' of the format must match
      the next character; conversion stops at the first mismatch. */
  function ScanFields(s: string, ws: seq<nat>): (vs: seq<nat>)
    ensures |vs| <= |ws|
    ensures forall i :: 0 <= i < |vs| ==> vs[i] < Pow16(ws[i])
  {
    if ws == [] then []
    else
      var n := HexRun(s, ws[0]);
      Pow16Monotone(n, ws[0]);
      if n == 0 then []
      else if |ws| == 1 || n == |s| || s[n] != ':' then [Value(s[..n])]
      else [Value(s[..n])] + ScanFields(s[n + 1..], ws[1..])
  }

  /** sscanf's return value: EOF (-1) on an empty string, otherwise the
      number of conversions made. */
  function Sscanf(s: string): int {
    if s == [] then -1 else |ScanFields(s, KeyWidths)|
  }

  lemma {:induction false} ScanJoin(vs: seq<nat>, ws: seq<nat>)
    requires |vs| > 0 && FitWidths(vs, ws)
    requires forall i :: 0 <= i < |ws| ==> ws[i] > 0
    ensures ScanFields(Join(vs, ws), ws) == vs
  {
    var a := Fixed(vs[0], ws[0]);
    var s := Join(vs, ws);
    if |vs| == 1 {
      HexRunOfDigits(a, [], ws[0]);
      assert a + [] == a;
      assert s[..ws[0]] == a;
    } else {
      var rest := Join(vs[1..], ws[1..]);
      assert s == a + (":" + rest);
      HexRunOfDigits(a, ":" + rest, ws[0]);
      assert s[..ws[0]] == a;
      assert s[ws[0]] == ':';
      assert s[ws[0] + 1..] == rest;
      ScanJoin(vs[1..], ws[1..]);
    }
    ValueOfFixed(vs[0], ws[0]);
  }

  /** Why pp_read_keys fails: read() returned fewer bytes than a record
      (ShortRead), sscanf converted fewer than five fields (Unparsed), or a
      record the scanners cannot walk within its buffers: no NUL, or in the
      GID layout a field that is missing or too long (Malformed). */
  datatype ReadError = ShortRead | Unparsed | Malformed

  /** The LID-layout branch of pp_read_keys: the record replaces the five
      key fields of the destination and leaves its GID as it was. A
      message without a NUL, where sscanf would read past msg, is
      rejected as Malformed. */
  function DecodeKeys(prev: Dest, msg: seq<char>): Result<Dest, ReadError> {
    if |msg| != KeyMsgSize then Err(ShortRead)
    else if NUL !in msg then Err(Malformed)
    else
      var s := CString(msg);
      var vs := ScanFields(s, KeyWidths);
      if Sscanf(s) != 5 then Err(Unparsed)
      else Ok(prev.(lid := vs[0], qpn := vs[1], psn := vs[2], rkey := vs[3], vaddr := vs[4]))
  }

  // ---------------------------------------------------------------------
  // GID layout: strpbrk / memcpy into char tmp[20] / strtol
  // ---------------------------------------------------------------------

  /** char tmp[20] holds a field of at most 19 characters and its NUL. */
  const TmpCapacity: nat := 19

  /** strpbrk(s, ":") as an offset into s. */
  function FindColon(s: string): (r: Option<nat>)
    ensures r.Some? ==> r.value < |s|
  {
    if s == [] then None
    else if s[0] == ':' then Some(0)
    else match FindColon(s[1..])
      case None => None
      case Some(t) => Some(t + 1)
  }

  /** The offset strpbrk returns is that of the first ':', and it returns
      NULL exactly when there is none. */
  lemma {:induction false} FindColonFirst(s: string)
    ensures FindColon(s).Some? ==> s[FindColon(s).value] == ':' && ':' !in s[..FindColon(s).value]
    ensures FindColon(s).None? <==> ':' !in s
  {
    if s != [] && s[0] != ':' {
      FindColonFirst(s[1..]);
      match FindColon(s[1..]) {
        case None =>
        case Some(t) => assert s[..t + 1] == [s[0]] + s[1..][..t];
      }
    }
  }

  /** The fields of s when `separators` more ':' are still to be found:
      each field up to the next ':' is what memcpy copies into tmp, and
      what follows the last ':' is what strcpy copies. Err wherever the C
      code would step outside its buffers: no further ':' (strpbrk returns
      NULL) or a field longer than tmp can hold. */
  function SplitFields(s: string, separators: nat): (r: Result<seq<string>, ReadError>)
    ensures r.Ok? ==> |r.value| == separators + 1
    ensures r.Err? ==> r.error == Malformed
  {
    if separators == 0 then
      if |s| > TmpCapacity then Err(Malformed) else Ok([s])
    else match FindColon(s)
      case None => Err(Malformed)
      case Some(t) =>
        if t > TmpCapacity then Err(Malformed)
        else match SplitFields(s[t + 1..], separators - 1)
          case Err(e) => Err(e)
          case Ok(rest) => Ok([s[..t]] + rest)
  }

  /** strtol(tmp, NULL, 16) of each field, before any range limit. */
  function Values(fields: seq<string>): (vs: seq<nat>)
    ensures |vs| == |fields|
  {
    if fields == [] then [] else [LeadingValue(fields[0])] + Values(fields[1..])
  }

  /** The values the GID-layout scanner reads from the C string s. */
  function GidFields(s: string, separators: nat): (r: Result<seq<nat>, ReadError>)
    ensures r.Ok? ==> |r.value| == separators + 1
  {
    match SplitFields(s, separators)
    case Err(e) => Err(e)
    case Ok(fields) => Ok(Values(fields))
  }

  /** strtol/strtoll clamp at LONG_MAX; strtoull at ULLONG_MAX. */
  function Strtol(v: nat): nat { if v > LongMax then LongMax else v }
  function Strtoull(v: nat): nat { if v > ULongLongMax then ULongLongMax else v }

  /** The 21 raw field values stored the way the scanner's casts store
      them: (int) and (unsigned) keep 32 bits, (unsigned char) keeps 8. */
  function GidDest(raw: seq<nat>): (d: Dest)
    requires |raw| == 21
    ensures d.lid < U32 && d.qpn < U32 && d.psn < U32 && d.rkey < U32 && d.vaddr <= ULongLongMax
    ensures |d.gid| == 16 && forall i :: 0 <= i < 16 ==> d.gid[i] < U8
  {
    Dest(Strtol(raw[0]) % U32, Strtol(raw[1]) % U32, Strtol(raw[2]) % U32,
         Strtol(raw[3]) % U32, Strtoull(raw[4]),
         seq(16, i requires 0 <= i < 16 => Strtol(raw[5 + i]) % U8))
  }

  /** The GID-layout branch of pp_read_keys, returning Malformed where the
      code as written has undefined behaviour (see GidReadStatusAsWritten). */
  function DecodeGid(msg: seq<char>): Result<Dest, ReadError> {
    if |msg| != KeyMsgSizeGid then Err(ShortRead)
    else if NUL !in msg then Err(Malformed)
    else match GidFields(CString(msg), 20)
      case Err(e) => Err(e)
      case Ok(raw) => Ok(GidDest(raw))
  }

  /** pp_read_keys on the bytes one read() returned. */
  function Decode(withGid: bool, prev: Dest, msg: seq<char>): Result<Dest, ReadError> {
    if withGid then DecodeGid(msg) else DecodeKeys(prev, msg)
  }

  /** One scanner step: a short field without ':' and its ':' split off
      ahead of the fields of what follows. */
  lemma SplitStep(a: string, rest: string, k: nat, tail: seq<string>)
    requires AllHex(a) && |a| <= TmpCapacity
    requires SplitFields(rest, k) == Ok(tail)
    ensures SplitFields(a + ":" + rest, k + 1) == Ok([a] + tail)
  {
    FindColonAfter(a, rest);
    var s := a + ":" + rest;
    assert s[..|a|] == a;
    assert s[|a| + 1..] == rest;
  }

  lemma FitWidthsTail(vs: seq<nat>, ws: seq<nat>)
    requires |vs| > 0 && FitWidths(vs, ws)
    ensures FitWidths(vs[1..], ws[1..])
  {
    forall i | 0 <= i < |vs| - 1 ensures vs[1..][i] < Pow16(ws[1..][i]) {
      assert vs[1..][i] == vs[i + 1] && ws[1..][i] == ws[i + 1];
    }
  }

  /** The text "%0<w>x" prints for each value. */
  function Printed(vs: seq<nat>, ws: seq<nat>): (ps: seq<string>)
    requires FitWidths(vs, ws)
    ensures |ps| == |vs|
  {
    if vs == [] then []
    else
      FitWidthsTail(vs, ws);
      [Fixed(vs[0], ws[0])] + Printed(vs[1..], ws[1..])
  }

  /** Splitting a joined record gives back the printed fields. */
  lemma {:induction false} SplitJoin(vs: seq<nat>, ws: seq<nat>)
    requires |vs| > 0 && FitWidths(vs, ws)
    requires forall i :: 0 <= i < |ws| ==> ws[i] <= TmpCapacity
    ensures SplitFields(Join(vs, ws), |vs| - 1) == Ok(Printed(vs, ws))
  {
    FitWidthsTail(vs, ws);
    var a := Fixed(vs[0], ws[0]);
    if |vs| > 1 {
      JoinCons(vs, ws);
      SplitJoin(vs[1..], ws[1..]);
      SplitStep(a, Join(vs[1..], ws[1..]), |vs| - 2, Printed(vs[1..], ws[1..]));
    } else {
      assert Join(vs, ws) == a && |a| <= TmpCapacity;
      assert Printed(vs, ws) == [a] + Printed(vs[1..], ws[1..]) == [a];
    }
  }

  /** The first field, its ':' and the rest, both printed and joined. */
  lemma JoinCons(vs: seq<nat>, ws: seq<nat>)
    requires |vs| > 1 && FitWidths(vs, ws) && FitWidths(vs[1..], ws[1..])
    ensures Join(vs, ws) == Fixed(vs[0], ws[0]) + ":" + Join(vs[1..], ws[1..])
    ensures Printed(vs, ws) == [Fixed(vs[0], ws[0])] + Printed(vs[1..], ws[1..])
  {
  }

  /** strtol of each printed field gives back its value. */
  lemma {:induction false} ValuesPrinted(vs: seq<nat>, ws: seq<nat>)
    requires FitWidths(vs, ws)
    ensures Values(Printed(vs, ws)) == vs
  {
    if vs != [] {
      FitWidthsTail(vs, ws);
      LeadingValueOfFixed(vs[0], ws[0]);
      ValuesPrinted(vs[1..], ws[1..]);
      assert [vs[0]] + vs[1..] == vs;
    }
  }

  lemma GidJoin(vs: seq<nat>, ws: seq<nat>)
    requires |vs| > 0 && FitWidths(vs, ws)
    requires forall i :: 0 <= i < |ws| ==> ws[i] <= TmpCapacity
    ensures GidFields(Join(vs, ws), |vs| - 1) == Ok(vs)
  {
    SplitJoin(vs, ws);
    ValuesPrinted(vs, ws);
  }

  /** strpbrk finds the ':' that ends a run of hex digits. */
  lemma {:induction false} FindColonAfter(a: string, rest: string)
    requires AllHex(a)
    ensures FindColon(a + ":" + rest) == Some(|a|)
  {
    if a != [] {
      assert (a + ":" + rest)[1..] == a[1..] + ":" + rest;
      FindColonAfter(a[1..], rest);
    }
  }

  /** Decoding what pp_write_keys sent restores the sender's destination:
      all of it in the GID layout, the five key fields (keeping the
      receiver's GID) in the LID layout. */
  lemma RoundTrip(d: Dest, prev: Dest, withGid: bool)
    requires Encodable(d, withGid)
    ensures Decode(withGid, prev, Record(d, withGid))
         == Ok(if withGid then d else d.(gid := prev.gid))
  {
    if withGid {
      RoundTripGid(d);
    } else {
      RoundTripKeys(d, prev);
    }
  }

  lemma RoundTripKeys(d: Dest, prev: Dest)
    requires Encodable(d, false)
    ensures DecodeKeys(prev, Record(d, false)) == Ok(d.(gid := prev.gid))
  {
    var vs, ws := FieldValues(d, false), Widths(false);
    FieldsFit(d, false);
    var s := Format(d, false);
    RecordLength(d, false);
    CStringOfTerminated(s, []);
    assert s + [NUL] + [] == Record(d, false);
    ScanJoin(vs, ws);
  }

  lemma RoundTripGid(d: Dest)
    requires Encodable(d, true)
    ensures DecodeGid(Record(d, true)) == Ok(d)
  {
    var vs, ws := FieldValues(d, true), Widths(true);
    FieldsFit(d, true);
    var s := Format(d, true);
    assert s == Join(vs, ws);
    RecordLength(d, true);
    CStringOfTerminated(s, []);
    assert s + [NUL] + [] == Record(d, true);
    assert Record(d, true)[|s|] == NUL;
    assert forall i :: 0 <= i < |ws| ==> ws[i] <= TmpCapacity;
    GidJoin(vs, ws);
    GidDestOfFields(d);
  }

  /** The scanner's casts keep every field of an encodable destination. */
  lemma GidDestOfFields(d: Dest)
    requires Encodable(d, true)
    ensures GidDest(FieldValues(d, true)) == d
  {
    var vs := FieldValues(d, true);
    var g := GidDest(vs);
    forall i | 0 <= i < 16 ensures g.gid[i] == d.gid[i] {
      assert vs[5 + i] == d.gid[i];
    }
  }

  /** Whatever the LID-layout reader accepts fits the writer's widths: the
      decoded LID, QPN, PSN, RKEY and VADDR can be printed back unchanged. */
  lemma DecodedKeysFit(prev: Dest, msg: seq<char>)
    requires DecodeKeys(prev, msg).Ok?
    ensures var d := DecodeKeys(prev, msg).value;
      d.lid < U16 && d.qpn < U24 && d.psn < U24 && d.rkey < U32 && d.vaddr < U64
  {
    Pow16Values();
  }

  /** A LID-layout record needs its separators: without any ':' before the
      first NUL, sscanf converts at most one field and the read fails. */
  lemma DecodeKeysNeedsSeparators(prev: Dest, msg: seq<char>)
    requires ':' !in CString(msg)
    ensures DecodeKeys(prev, msg).Err?
  {
    var s := CString(msg);
    var n := HexRun(s, 4);
    if n > 0 && n < |s| {
      assert s[n] in s;
    }
  }

  /** A GID-layout record is accepted only if read() returned all of it and
      its C string splits into 21 fields by ':', each short enough for tmp. */
  lemma DecodeGidAccepts(msg: seq<char>)
    requires DecodeGid(msg).Ok?
    ensures |msg| == KeyMsgSizeGid && NUL in msg
    ensures GidFields(CString(msg), 20).Ok?
  {
  }

  // ---------------------------------------------------------------------
  // The GID branch as written returns success after any full read.
  // ---------------------------------------------------------------------

  /** pp_read_keys's return value in the GID layout as the code is written:
      -1 on a short read and 0 after any full read, whatever the bytes. */
  function GidReadStatusAsWritten(msg: seq<char>): (status: int)
    ensures status == 0 <==> |msg| == KeyMsgSizeGid
  {
    if |msg| != KeyMsgSizeGid then -1 else 0
  }

  /** A full-length, NUL-terminated record with no ':' at all: the code as
      written reports success, but its first strpbrk returns NULL and the
      length term - pstr it copies is undefined; DecodeGid rejects it. */
  lemma GarbledGidRecordAccepted()
    ensures var msg := seq(KeyMsgSizeGid - 1, _ => 'f') + [NUL];
      && GidReadStatusAsWritten(msg) == 0
      && FindColon(CString(msg)) == None
      && DecodeGid(msg) == Err(Malformed)
  {
    var msg := seq(KeyMsgSizeGid - 1, _ => 'f') + [NUL];
    var body := seq(KeyMsgSizeGid - 1, _ => 'f');
    assert msg == body + [NUL] + [];
    CStringOfTerminated(body, []);
    assert msg[|msg| - 1] == NUL;
    assert ':' !in body;
    FindColonFirst(body);
  }

  // ---------------------------------------------------------------------
  // pp_read_keys, imperatively
  // ---------------------------------------------------------------------

  /** pp_read_keys on the bytes one read() of sizeof msg bytes returned:
      status 0 and the decoded destination, or -1. */
  method ReadKeys(withGid: bool, prev: Dest, msg: seq<char>) returns (status: int, rem: Dest)
    ensures status == 0 || status == -1
    ensures status == 0 <==> Decode(withGid, prev, msg).Ok?
    ensures status == 0 ==> rem == Decode(withGid, prev, msg).value
  {
    rem := prev;
    if withGid {
      status, rem := ReadGidKeys(prev, msg);
      return;
    }
    if |msg| != KeyMsgSize || NUL !in msg {
      return -1, rem;
    }
    var s := CString(msg);
    var parsed := Sscanf(s);
    if parsed != 5 {
      return -1, rem;
    }
    var vs := ScanFields(s, KeyWidths);
    rem := prev.(lid := vs[0], qpn := vs[1], psn := vs[2], rkey := vs[3], vaddr := vs[4]);
    return 0, rem;
  }

  /** The GID layout of pp_read_keys. The strpbrk / memcpy step that the
      source spells out for the five key fields and then loops over for
      fifteen GID bytes is one loop of twenty steps here (SplitGid),
      followed by the strcpy of the last byte; the steps that would leave
      the buffers return -1 instead. The strtol of each field, which the
      source applies right after its copy, is applied to all the copied
      fields at the end. */
  method ReadGidKeys(prev: Dest, msg: seq<char>) returns (status: int, rem: Dest)
    ensures status == 0 || status == -1
    ensures status == 0 <==> DecodeGid(msg).Ok?
    ensures status == 0 ==> rem == DecodeGid(msg).value
  {
    rem := prev;
    if |msg| != KeyMsgSizeGid || NUL !in msg {
      return -1, rem;
    }
    var fields := SplitGid(CString(msg));
    if fields.Err? {
      return -1, rem;
    }
    rem := GidDest(Values(fields.value));
    status := 0;
  }

  /** The strpbrk/memcpy walk over the 21 ':'-separated fields: the
      contents tmp receives at each step, and finally what strcpy copies. */
  method SplitGid(s: string) returns (fields: Result<seq<string>, ReadError>)
    ensures fields == SplitFields(s, 20)
  {
    // rest is what pstr points at
    var rest := s;
    var parts: seq<string> := [];
    var i := 0;
    ghost var left: nat := 20;  // separators still to be found
    AfterNothing(SplitFields(s, 20));
    while i < 20
      invariant 0 <= i <= 20 && |parts| == i && left == 20 - i
      invariant SplitFields(s, 20) == After(parts, SplitFields(rest, left))
    {
      var term := FindColon(rest);
      if term.None? || term.value > TmpCapacity {
        ScannerFails(rest, left, parts);
        return Err(Malformed);
      }
      var tmp := rest[..term.value];
      ScannerStep(rest, term.value, left, parts);
      parts := parts + [tmp];
      rest := rest[term.value + 1..];
      i, left := i + 1, left - 1;
    }
    ScannerEnd(rest, parts);
    if |rest| > TmpCapacity {
      return Err(Malformed);
    }
    fields := Ok(parts + [rest]);
  }

  /** The fields split so far ahead of those still to come. */
  function After(done: seq<string>, r: Result<seq<string>, ReadError>): Result<seq<string>, ReadError> {
    match r
    case Err(e) => Err(e)
    case Ok(rest) => Ok(done + rest)
  }

  lemma AfterNothing(r: Result<seq<string>, ReadError>)
    ensures After([], r) == r
  {
    if r.Ok? {
      assert [] + r.value == r.value;
    }
  }

  /** A step whose strpbrk finds no ':', or a field too long for tmp,
      fails the read. */
  lemma ScannerFails(rest: string, k: nat, done: seq<string>)
    requires k > 0 && (FindColon(rest).None? || FindColon(rest).value > TmpCapacity)
    ensures After(done, SplitFields(rest, k)) == Err(Malformed)
  {
  }

  /** The last field is what remains, if tmp can hold it. */
  lemma ScannerEnd(rest: string, done: seq<string>)
    ensures After(done, SplitFields(rest, 0))
         == if |rest| > TmpCapacity then Err(Malformed) else Ok(done + [rest])
  {
  }

  /** How one scanner step advances: the field before the ':' at offset t
      moves from what remains to what is split off. */
  lemma ScannerStep(rest: string, t: nat, k: nat, done: seq<string>)
    requires k > 0 && FindColon(rest) == Some(t) && t <= TmpCapacity
    ensures After(done, SplitFields(rest, k))
         == After(done + [rest[..t]], SplitFields(rest[t + 1..], k - 1))
  {
    match SplitFields(rest[t + 1..], k - 1) {
      case Ok(tail) =>
        assert done + ([rest[..t]] + tail) == done + [rest[..t]] + tail;
      case Err(_) =>
    }
  }
}
