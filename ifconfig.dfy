/**
 * Decoding of the interface table that the Linux `SIOCGIFCONF` ioctl writes into a byte buffer
 * (an array of `struct ifreq`, see netdevice(7)), and the dotted-decimal form of an IPv4 address.
 * The ioctl itself is not modelled: the buffer and the byte count it reports are inputs.
 */
module Ifconfig {
  import opened Wrappers
  import opened Decimal
  import opened Text

  type Byte = b: int | 0 <= b < 256

  /** The buffer has room for `MaxPossible * 32` bytes. */
  const MaxPossible: nat := 128
  const AllBytes: nat := MaxPossible * 32
  /** Size of one `struct ifreq` record on a 64-bit kernel. */
  const RecordSize: nat := 40
  /** `IFNAMSIZ`: the name field at the start of a record. */
  const NameSize: nat := 16
  /** The IPv4 address (`sin_addr` of `ifr_addr`) sits at bytes 20..23 of a record. */
  const AddrStart: nat := 20
  const AddrEnd: nat := 24

  /** One decoded record: the interface name and its raw address bytes. */
  datatype Iface = Iface(name: seq<Byte>, addr: seq<Byte>)

  /** Python's `s[i:j]` for `0 <= i <= j`: indices past the end are clamped to the length. */
  function Slice(s: seq<Byte>, i: nat, j: nat): (r: seq<Byte>)
    requires i <= j
    ensures j <= |s| ==> r == s[i..j]
    ensures |r| == (if j <= |s| then j - i else if i <= |s| then |s| - i else 0)
    ensures j > |s| ==> r == s[(if i <= |s| then i else |s|)..]
  {
    var lo := if i < |s| then i else |s|;
    var hi := if j < |s| then j else |s|;
    s[lo..hi]
  }

  /** The record starting at byte `i`: its name cut at the first NUL, and bytes 20..23. */
  function RecordAt(buf: seq<Byte>, i: nat): (r: Iface)
    ensures |r.name| <= NameSize && |r.addr| <= AddrEnd - AddrStart
    ensures i + AddrEnd <= |buf| ==> r.addr == buf[i + AddrStart..i + AddrEnd]
  {
    Iface(Split(Slice(buf, i, i + NameSize), [0])[0], Slice(buf, i + AddrStart, i + AddrEnd))
  }

  /** How many offsets `0, 40, 80, ...` lie below `outbytes`. */
  function NumRecords(outbytes: int): (r: nat)
    ensures outbytes <= RecordSize * r
    ensures r == 0 || RecordSize * (r - 1) < outbytes
  {
    if outbytes <= 0 then 0 else (outbytes + RecordSize - 1) / RecordSize
  }

  /** There is one record per offset `RecordSize * k` below `outbytes`, i.e. ceil(outbytes / 40). */
  lemma NumRecordsCounts(outbytes: int, k: nat)
    ensures k < NumRecords(outbytes) <==> RecordSize * k < outbytes
  {
  }

  /** The records at offsets `0, 40, 80, ...` below `outbytes`, in buffer order. */
  function ParseRecords(buf: seq<Byte>, outbytes: int): (r: seq<Iface>)
    ensures forall k :: 0 <= k < |r| ==> RecordSize * k < outbytes && r[k] == RecordAt(buf, RecordSize * k)
    ensures outbytes <= RecordSize * |r|
  {
    seq(NumRecords(outbytes), k requires 0 <= k => RecordAt(buf, RecordSize * k))
  }

  /** The record loop of `all_interfaces`, after the ioctl has filled `namestr` with `outbytes` bytes. */
  method AllInterfaces(namestr: seq<Byte>, outbytes: int) returns (lst: seq<Iface>)
    ensures |lst| == NumRecords(outbytes)
    ensures forall k :: 0 <= k < |lst| ==> lst[k] == RecordAt(namestr, RecordSize * k)
    ensures lst == ParseRecords(namestr, outbytes)
  {
    lst := [];
    var i := 0;
    while i < outbytes
      invariant i == RecordSize * |lst|
      invariant lst == [] || RecordSize * (|lst| - 1) < outbytes
      invariant forall k :: 0 <= k < |lst| ==> lst[k] == RecordAt(namestr, RecordSize * k)
    {
      lst := lst + [RecordAt(namestr, i)];
      i := i + RecordSize;
    }
    NumRecordsExit(outbytes, |lst|);
  }

  lemma NumRecordsExit(outbytes: int, n: nat)
    requires RecordSize * n >= outbytes
    requires n == 0 || RecordSize * (n - 1) < outbytes
    ensures n == NumRecords(outbytes)
  {
  }

  /** A parsed name is the name field up to its first NUL: at most 16 bytes, none of them NUL. */
  lemma RecordName(buf: seq<Byte>, i: nat)
    ensures var field := Slice(buf, i, i + NameSize);
      var name := RecordAt(buf, i).name;
      |name| <= |field| <= NameSize && name == field[..|name|] && 0 !in name &&
      (|name| == |field| || field[|name|] == 0)
  {
    var field := Slice(buf, i, i + NameSize);
    SplitFirst(field, [0]);
    SplitPiecesFree(field, [0]);
    var name := RecordAt(buf, i).name;
    assert Free(name, [0]);
    forall j | 0 <= j < |name| ensures name[j] != 0 {
      assert !StartsWith(name[j..], [0]);
    }
    if |name| < |field| {
      assert StartsWith(field[|name|..], [0]);
    }
  }

  /** A parsed address is bytes 20..23 of its record; it is shorter than 4 bytes only when the
      record runs past the end of the buffer. */
  lemma RecordAddr(buf: seq<Byte>, i: nat)
    ensures i + AddrEnd <= |buf| ==> RecordAt(buf, i).addr == buf[i + AddrStart..i + AddrEnd]
    ensures |RecordAt(buf, i).addr| == 4 <==> i + AddrEnd <= |buf|
  {
  }

  /** The 4096-byte buffer holds 102 whole records (4080 bytes) and 16 bytes of a 103rd, not 128. */
  lemma WholeRecordsInBuffer()
    ensures AllBytes / RecordSize == 102 && AllBytes % RecordSize == 16
    ensures NumRecords(AllBytes - AllBytes % RecordSize) == 102
  {
  }

  /** With the 4096-byte buffer and a byte count that is a whole number of records (as the kernel
      reports), every parsed address has exactly 4 bytes. */
  lemma FullBufferAddrs(buf: seq<Byte>, outbytes: int)
    requires |buf| == AllBytes
    requires 0 <= outbytes <= AllBytes && outbytes % RecordSize == 0
    ensures forall k :: 0 <= k < |ParseRecords(buf, outbytes)| ==> |ParseRecords(buf, outbytes)[k].addr| == 4
  {
  }

  /** `format_ip`: the first four bytes in dotted decimal; `None` (an `IndexError`) for fewer. */
  function FormatIp(addr: seq<Byte>): (r: Option<string>)
    ensures r.Some? <==> |addr| >= 4
  {
    if |addr| < 4 then None
    else Some(NatToString(addr[0]) + "." + NatToString(addr[1]) + "." +
              NatToString(addr[2]) + "." + NatToString(addr[3]))
  }

  /** A formatted address is between "0.0.0.0" and "255.255.255.255" long: 7 to 15 characters. */
  lemma FormatIpLength(addr: seq<Byte>)
    requires |addr| >= 4
    ensures 7 <= |FormatIp(addr).value| <= 15
  {
    ByteWidth(addr[0]);
    ByteWidth(addr[1]);
    ByteWidth(addr[2]);
    ByteWidth(addr[3]);
  }

  /** A decimal field of a dotted quad. */
  function ParseOctet(s: string): Option<Byte> {
    if |s| >= 1 && IsDigits(s) && DigitsValue(s) < 256 then Some(DigitsValue(s)) else None
  }

  /** Reads a dotted quad back into four bytes. */
  function ParseIp(s: string): Option<seq<Byte>> {
    var f := Split(s, ".");
    if |f| != 4 then None
    else match (ParseOctet(f[0]), ParseOctet(f[1]), ParseOctet(f[2]), ParseOctet(f[3]))
      case (Some(a), Some(b), Some(c), Some(d)) => Some([a, b, c, d])
      case _ => None
  }

  lemma DecimalHasNoDot(n: nat)
    ensures forall j :: 0 <= j < |NatToString(n)| ==> NatToString(n)[j] != '.'
  {
  }

  /** `format_ip` yields exactly four dot-separated fields, field k being `str` of byte k. */
  lemma {:induction false} FormatIpFields(addr: seq<Byte>)
    requires |addr| >= 4
    ensures Split(FormatIp(addr).value, ".") ==
      [NatToString(addr[0]), NatToString(addr[1]), NatToString(addr[2]), NatToString(addr[3])]
  {
    var d0, d1, d2, d3 := NatToString(addr[0]), NatToString(addr[1]), NatToString(addr[2]), NatToString(addr[3]);
    DecimalHasNoDot(addr[0]);
    DecimalHasNoDot(addr[1]);
    DecimalHasNoDot(addr[2]);
    DecimalHasNoDot(addr[3]);
    assert FormatIp(addr).value == d0 + "." + (d1 + "." + (d2 + "." + d3));
    SplitAppendElem(d0, '.', d1 + "." + (d2 + "." + d3));
    SplitAppendElem(d1, '.', d2 + "." + d3);
    SplitAppendElem(d2, '.', d3);
    forall j | 0 <= j < |d3| ensures !StartsWith(d3[j..], ".") {
      assert d3[j..][0] == d3[j];
    }
    SplitOfFree(d3, ".");
  }

  lemma ParseOctetOfByte(b: Byte)
    ensures ParseOctet(NatToString(b)) == Some(b)
  {
    NatToStringRoundTrip(b);
  }

  /** Reading the dotted quad back gives the four bytes that were formatted. */
  lemma FormatIpRoundTrip(addr: seq<Byte>)
    requires |addr| >= 4
    ensures ParseIp(FormatIp(addr).value) == Some(addr[..4])
  {
    FormatIpFields(addr);
    ParseOctetOfByte(addr[0]);
    ParseOctetOfByte(addr[1]);
    ParseOctetOfByte(addr[2]);
    ParseOctetOfByte(addr[3]);
    assert addr[..4] == [addr[0], addr[1], addr[2], addr[3]];
  }

  /** The loopback address `'\x7f\x00\x00\x01'` formats as "127.0.0.1". */
  lemma FormatIpLoopback()
    ensures FormatIp([127, 0, 0, 1]) == Some("127.0.0.1")
  {
    assert DigitChar(0) == '0' && DigitChar(1) == '1' && DigitChar(2) == '2' && DigitChar(7) == '7';
    assert NatToString(1) == "1" && NatToString(0) == "0";
    assert NatToString(12) == NatToString(1) + [DigitChar(2)] == "12";
    assert NatToString(127) == NatToString(12) + [DigitChar(7)] == "127";
    var addr: seq<Byte> := [127, 0, 0, 1];
    assert FormatIp(addr).value == "127" + "." + "0" + "." + "0" + "." + "1" == "127.0.0.1";
  }

  /** The loop of `get_interface_dict` from a dictionary `acc`: stores each name's formatted address,
      later records overwriting earlier ones; `None` once an address is too short to format. */
  function DictFold(acc: map<seq<Byte>, string>, ifaces: seq<Iface>): (r: Option<map<seq<Byte>, string>>)
    ensures r.Some? ==> acc.Keys <= r.value.Keys
    decreases |ifaces|
  {
    if ifaces == [] then Some(acc)
    else match FormatIp(ifaces[0].addr)
      case None => None
      case Some(ip) => DictFold(acc[ifaces[0].name := ip], ifaces[1..])
  }

  /** The dictionary `get_interface_dict` builds from the parsed records. */
  function InterfaceDict(ifaces: seq<Iface>): (r: Option<map<seq<Byte>, string>>)
    ensures r.Some? <==> forall k :: 0 <= k < |ifaces| ==> |ifaces[k].addr| >= 4
    ensures r.Some? ==> r.value.Keys == Names(ifaces)
  {
    DictFoldDefined(map[], ifaces);
    var d := DictFold(map[], ifaces);
    if d.Some? then DictFoldKeys(map[], ifaces); d else d
  }

  /** `k` is the last record carrying its name. */
  predicate IsLastOccurrence(ifaces: seq<Iface>, k: nat)
    requires k < |ifaces|
  {
    forall j :: k < j < |ifaces| ==> ifaces[j].name != ifaces[k].name
  }

  /** The fold succeeds exactly when every address has at least 4 bytes. */
  lemma {:induction false} DictFoldDefined(acc: map<seq<Byte>, string>, ifaces: seq<Iface>)
    ensures DictFold(acc, ifaces).Some? <==> forall k :: 0 <= k < |ifaces| ==> |ifaces[k].addr| >= 4
    decreases |ifaces|
  {
    if ifaces != [] && |ifaces[0].addr| >= 4 {
      var rest := ifaces[1..];
      DictFoldDefined(acc[ifaces[0].name := FormatIp(ifaces[0].addr).value], rest);
      assert forall k :: 1 <= k < |ifaces| ==> ifaces[k] == rest[k - 1];
    }
  }

  function Names(ifaces: seq<Iface>): set<seq<Byte>> {
    set k | 0 <= k < |ifaces| :: ifaces[k].name
  }

  lemma NamesCons(ifaces: seq<Iface>)
    requires ifaces != []
    ensures Names(ifaces) == {ifaces[0].name} + Names(ifaces[1..])
  {
  }

  /** The keys of the result are the keys already present plus every parsed name. */
  lemma {:induction false} DictFoldKeys(acc: map<seq<Byte>, string>, ifaces: seq<Iface>)
    requires DictFold(acc, ifaces).Some?
    ensures DictFold(acc, ifaces).value.Keys == acc.Keys + Names(ifaces)
    decreases |ifaces|
  {
    if ifaces != [] {
      DictFoldKeys(acc[ifaces[0].name := FormatIp(ifaces[0].addr).value], ifaces[1..]);
      NamesCons(ifaces);
    }
  }

  /** A name that occurs more than once maps to the address of its last occurrence. */
  lemma {:induction false} DictFoldLast(acc: map<seq<Byte>, string>, ifaces: seq<Iface>, k: nat)
    requires DictFold(acc, ifaces).Some?
    requires k < |ifaces| && IsLastOccurrence(ifaces, k)
    ensures ifaces[k].name in DictFold(acc, ifaces).value
    ensures Some(DictFold(acc, ifaces).value[ifaces[k].name]) == FormatIp(ifaces[k].addr)
    decreases |ifaces|
  {
    var acc' := acc[ifaces[0].name := FormatIp(ifaces[0].addr).value];
    var rest := ifaces[1..];
    if k == 0 {
      forall j | 0 <= j < |rest| ensures rest[j].name != ifaces[0].name {
        assert rest[j] == ifaces[j + 1];
      }
      DictFoldUntouched(acc', rest, ifaces[0].name);
    } else {
      assert rest[k - 1] == ifaces[k];
      assert IsLastOccurrence(rest, k - 1) by {
        forall j | k - 1 < j < |rest| ensures rest[j].name != rest[k - 1].name {
          assert rest[j] == ifaces[j + 1];
        }
      }
      DictFoldLast(acc', rest, k - 1);
    }
  }

  /** A key that no record names keeps the value it had. */
  lemma {:induction false} DictFoldUntouched(acc: map<seq<Byte>, string>, ifaces: seq<Iface>, n: seq<Byte>)
    requires DictFold(acc, ifaces).Some?
    requires n in acc && forall j :: 0 <= j < |ifaces| ==> ifaces[j].name != n
    ensures n in DictFold(acc, ifaces).value && DictFold(acc, ifaces).value[n] == acc[n]
    decreases |ifaces|
  {
    if ifaces != [] {
      var rest := ifaces[1..];
      forall j | 0 <= j < |rest| ensures rest[j].name != n {
        assert rest[j] == ifaces[j + 1];
      }
      DictFoldUntouched(acc[ifaces[0].name := FormatIp(ifaces[0].addr).value], rest, n);
    }
  }

  /** `get_interface_dict`, given what the ioctl returned. `None` stands for the `IndexError` that
      `format_ip` raises on an address cut short by the end of the buffer. */
  method GetInterfaceDict(namestr: seq<Byte>, outbytes: int) returns (d: Option<map<seq<Byte>, string>>)
    ensures d == InterfaceDict(ParseRecords(namestr, outbytes))
    ensures var ifaces := ParseRecords(namestr, outbytes);
      (d.Some? <==> forall k :: 0 <= k < |ifaces| ==> |ifaces[k].addr| == 4) &&
      (d.Some? ==> d.value.Keys == Names(ifaces)) &&
      (d.Some? ==> forall k :: 0 <= k < |ifaces| && IsLastOccurrence(ifaces, k) ==>
         d.value[ifaces[k].name] == FormatIp(ifaces[k].addr).value)
  {
    var ifaces := AllInterfaces(namestr, outbytes);
    var ifaceDict: map<seq<Byte>, string> := map[];
    var i := 0;
    while i < |ifaces|
      invariant 0 <= i <= |ifaces|
      invariant DictFold(ifaceDict, ifaces[i..]) == InterfaceDict(ifaces)
    {
      assert ifaces[i..][1..] == ifaces[i + 1..];
      var ip := FormatIp(ifaces[i].addr);
      if ip.None? {
        d := None;
        InterfaceDictSpec(ifaces);
        return;
      }
      ifaceDict := ifaceDict[ifaces[i].name := ip.value];
      i := i + 1;
    }
    assert ifaces[i..] == [];
    d := Some(ifaceDict);
    InterfaceDictSpec(ifaces);
  }

  /** What `get_interface_dict` promises about its loop: defined when every address has 4 bytes,
      keyed by exactly the parsed names, each name holding its last record's address. */
  lemma InterfaceDictSpec(ifaces: seq<Iface>)
    requires forall k :: 0 <= k < |ifaces| ==> |ifaces[k].addr| <= 4
    ensures var d := InterfaceDict(ifaces);
      (d.Some? <==> forall k :: 0 <= k < |ifaces| ==> |ifaces[k].addr| == 4) &&
      (d.Some? ==> d.value.Keys == Names(ifaces)) &&
      (d.Some? ==> forall k :: 0 <= k < |ifaces| && IsLastOccurrence(ifaces, k) ==>
         d.value[ifaces[k].name] == FormatIp(ifaces[k].addr).value)
  {
    DictFoldDefined(map[], ifaces);
    if InterfaceDict(ifaces).Some? {
      DictFoldKeys(map[], ifaces);
      forall k | 0 <= k < |ifaces| && IsLastOccurrence(ifaces, k)
        ensures InterfaceDict(ifaces).value[ifaces[k].name] == FormatIp(ifaces[k].addr).value
      {
        DictFoldLast(map[], ifaces, k);
      }
    }
  }
}
