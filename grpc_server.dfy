/** The collector's gRPC endpoint (`internal/server/grpc_server.go`): protobuf messages
    converted to records and written in one batch through the repository contract, behind
    an interceptor that admits only callers whose `x-real-ip` lies in the trusted subnet.
    Addresses are IPv4 only. */
module GrpcServer {
  import opened Wrappers
  import opened Models
  import opened Strings
  import opened DbErrors
  import opened Repository
  import opened GrpcClient

  /** The gRPC status codes the endpoint answers with. */
  datatype Code = OK | InvalidArgument | PermissionDenied | Internal

  // ---------------------------------------------------------------------------------------
  // UpdateMetrics

  /** The record for one message; a type other than gauge or counter has none. */
  function FromProto(p: PbMetric): (r: Option<Metrics>)
    ensures r.Some? <==> p.mtype == GAUGE || p.mtype == COUNTER
    ensures p.mtype == GAUGE ==> r == Some(GaugeRecord(p.id, p.value))
    ensures p.mtype == COUNTER ==> r == Some(CounterRecord(p.id, p.delta))
  {
    match p.mtype
    case GAUGE => Some(GaugeRecord(p.id, p.value))
    case COUNTER => Some(CounterRecord(p.id, p.delta))
    case UnknownPbType(_) => None
  }

  /** The records of a request: all of them, in order, or none when any message has an
      unknown type. */
  function FromProtoList(ps: seq<PbMetric>): (r: Option<seq<Metrics>>)
    ensures r.Some? <==> forall i :: 0 <= i < |ps| ==> FromProto(ps[i]).Some?
    ensures r.Some? ==> |r.value| == |ps| && forall i :: 0 <= i < |ps| ==> FromProto(ps[i]) == Some(r.value[i])
  {
    if ps == [] then Some([])
    else
      var init := FromProtoList(ps[..|ps| - 1]);
      var last := FromProto(ps[|ps| - 1]);
      if init.Some? && last.Some? then Some(init.value + [last.value]) else None
  }

  /** A record with a gauge value or a counter delta goes through the client's conversion
      and back through the server's unchanged. */
  predicate Transmissible(m: Metrics)
  {
    (m.mtype == GaugeType && m.delta.None? && m.value.Some?)
    || (m.mtype == CounterType && m.delta.Some? && m.value.None?)
  }

  lemma WireRoundTrip(ms: seq<Metrics>)
    requires forall i :: 0 <= i < |ms| ==> Transmissible(ms[i])
    ensures FromProtoList(ProtoList(ms)) == Some(ms)
  {
    ProtoListOfTransmissible(ms);
    var pl := ProtoList(ms);
    forall i | 0 <= i < |pl|
      ensures FromProto(pl[i]) == Some(ms[i])
    {
      assert pl[i] == ToProto(ms[i]).value;
    }
    var r := FromProtoList(pl);
    assert r.Some? && |r.value| == |ms|;
    assert forall i :: 0 <= i < |ms| ==> r.value[i] == ms[i];
    assert r.value == ms;
  }

  /** Records that all go on the wire give one message each, in order. */
  lemma {:induction false} ProtoListOfTransmissible(ms: seq<Metrics>)
    requires forall i :: 0 <= i < |ms| ==> Transmissible(ms[i])
    ensures |ProtoList(ms)| == |ms|
    ensures forall i :: 0 <= i < |ms| ==> ToProto(ms[i]).Some? && ProtoList(ms)[i] == ToProto(ms[i]).value
  {
    if ms != [] {
      var init := ms[..|ms| - 1];
      assert forall i :: 0 <= i < |init| ==> init[i] == ms[i];
      ProtoListOfTransmissible(init);
      assert ToProto(ms[|ms| - 1]).Some?;
    }
  }

  // ---------------------------------------------------------------------------------------
  // The trusted subnet

  /** The leading bits of a 32-bit address. */
  function Pow2(n: nat): (r: nat)
    ensures r > 0
  {
    if n == 0 then 1 else 2 * Pow2(n - 1)
  }

  /** A dotted-quad field: decimal, no leading zero, at most 255. */
  predicate ValidOctet(p: string)
  {
    1 <= |p| <= 3 && AllDigits(p) && (|p| == 1 || p[0] != '0') && DigitsValue(p) <= 255
  }

  /** The 32-bit value of four octets, most significant first. */
  function IPv4Value(o: seq<nat>): (v: nat)
    requires |o| == 4
  {
    ((o[0] * 256 + o[1]) * 256 + o[2]) * 256 + o[3]
  }

  /** Four valid fields and the address they denote. */
  function QuadValue(f: seq<string>): (r: Option<seq<nat>>)
    ensures r.Some? <==> |f| == 4 && ValidOctet(f[0]) && ValidOctet(f[1]) && ValidOctet(f[2]) && ValidOctet(f[3])
    ensures r.Some? ==> |r.value| == 4 && r.value[0] <= 255 && r.value[1] <= 255 && r.value[2] <= 255 && r.value[3] <= 255
  {
    if |f| == 4 && ValidOctet(f[0]) && ValidOctet(f[1]) && ValidOctet(f[2]) && ValidOctet(f[3]) then
      Some([DigitsValue(f[0]), DigitsValue(f[1]), DigitsValue(f[2]), DigitsValue(f[3])])
    else None
  }

  /** `netip.ParseAddr` restricted to IPv4: four valid fields separated by dots. */
  function ParseIPv4(s: string): (r: Option<seq<nat>>)
    ensures r.Some? ==> |r.value| == 4 && r.value[0] <= 255 && r.value[1] <= 255 && r.value[2] <= 255 && r.value[3] <= 255
  {
    QuadValue(Split(s, '.'))
  }

  /** Two pieces of text with a dot between them. */
  function Dot(p: string, rest: string): string
  {
    p + "." + rest
  }

  /** The canonical text of an address. */
  function FormatIPv4(o: seq<nat>): string
    requires |o| == 4
  {
    Dot(Digits(o[0]), Dot(Digits(o[1]), Dot(Digits(o[2]), Digits(o[3]))))
  }

  lemma {:induction false} OctetDigits(n: nat)
    requires n <= 255
    ensures ValidOctet(Digits(n)) && DigitsValue(Digits(n)) == n && '.' !in Digits(n)
  {
    DigitsShape(n);
    if n >= 10 {
      assert |Digits(n / 10)| <= 2 by {
        if n / 10 >= 10 {
          assert Digits(n / 10) == Digits(n / 100) + [DigitChar(n / 10 % 10)];
        }
      }
    }
    var d := Digits(n);
    assert forall i :: 0 <= i < |d| ==> IsDigit(d[i]);
  }

  lemma {:induction false} SplitAfter(p: string, rest: string)
    requires '.' !in p
    ensures Split(Dot(p, rest), '.') == [p] + Split(rest, '.')
  {
    var s := Dot(p, rest);
    IndexOfFirst(s, p);
    assert s[..|p|] == p;
    assert s[|p| + 1..] == rest;
  }

  lemma {:induction false} IndexOfFirst(s: string, p: string)
    requires '.' !in p && |p| < |s| && s[..|p|] == p && s[|p|] == '.'
    ensures IndexOf(s, '.') == |p|
    decreases |p|
  {
    if p != [] {
      assert s[0] == p[0];
      IndexOfFirst(s[1..], p[1..]);
    }
  }

  /** Four dot-free fields joined with dots split back into themselves. */
  lemma {:induction false} SplitQuad(a: string, b: string, c: string, d: string)
    requires '.' !in a && '.' !in b && '.' !in c && '.' !in d
    ensures var r := Split(Dot(a, Dot(b, Dot(c, d))), '.');
      |r| == 4 && r[0] == a && r[1] == b && r[2] == c && r[3] == d
  {
    var rest := Dot(b, Dot(c, d));
    SplitTriple(b, c, d);
    SplitCons(a, rest, [b, c, d]);
  }

  lemma {:induction false} SplitTriple(b: string, c: string, d: string)
    requires '.' !in b && '.' !in c && '.' !in d
    ensures Split(Dot(b, Dot(c, d)), '.') == [b, c, d]
  {
    SplitPair(c, d);
    SplitCons(b, Dot(c, d), [c, d]);
    assert [b] + [c, d] == [b, c, d];
  }

  lemma {:induction false} SplitPair(c: string, d: string)
    requires '.' !in c && '.' !in d
    ensures Split(Dot(c, d), '.') == [c, d]
  {
    SplitWhole(d);
    SplitCons(c, d, [d]);
    assert [c] + [d] == [c, d];
  }

  /** A dot-free field in front of text adds that field in front of its split. */
  lemma {:induction false} SplitCons(p: string, rest: string, tail: seq<string>)
    requires '.' !in p && Split(rest, '.') == tail
    ensures Split(Dot(p, rest), '.') == [p] + tail
  {
    SplitAfter(p, rest);
  }

  /** Text without a dot is a single field. */
  lemma {:induction false} SplitWhole(s: string)
    requires '.' !in s
    ensures Split(s, '.') == [s]
  {
    IndexOfNone(s);
  }

  /** Every address written in dotted-quad form parses back to itself. */
  lemma {:induction false} ParseFormatIPv4(o: seq<nat>)
    requires |o| == 4 && o[0] <= 255 && o[1] <= 255 && o[2] <= 255 && o[3] <= 255
    ensures ParseIPv4(FormatIPv4(o)) == Some(o)
  {
    var a, b, c, d := Digits(o[0]), Digits(o[1]), Digits(o[2]), Digits(o[3]);
    OctetDigits(o[0]);
    OctetDigits(o[1]);
    OctetDigits(o[2]);
    OctetDigits(o[3]);
    var s := FormatIPv4(o);
    assert s == Dot(a, Dot(b, Dot(c, d)));
    SplitQuad(a, b, c, d);
    QuadOfFields(o, Split(s, '.'));
  }

  lemma {:induction false} QuadOfFields(o: seq<nat>, f: seq<string>)
    requires |o| == 4 && |f| == 4
    requires ValidOctet(f[0]) && ValidOctet(f[1]) && ValidOctet(f[2]) && ValidOctet(f[3])
    requires DigitsValue(f[0]) == o[0] && DigitsValue(f[1]) == o[1] && DigitsValue(f[2]) == o[2] && DigitsValue(f[3]) == o[3]
    ensures QuadValue(f) == Some(o)
  {
    assert [o[0], o[1], o[2], o[3]] == o;
  }

  lemma {:induction false} IndexOfNone(s: string)
    requires '.' !in s
    ensures IndexOf(s, '.') == |s|
    decreases |s|
  {
    if s != [] {
      IndexOfNone(s[1..]);
    }
  }

  /** A subnet in CIDR notation: an address and a prefix length. */
  datatype Subnet = Subnet(network: seq<nat>, prefixLen: nat)

  /** `net.ParseCIDR` restricted to IPv4: the text before the first `/` is an address and
      the rest a decimal prefix length of at most 32; leading zeros are allowed there. */
  function ParseCIDR(s: string): (r: Option<Subnet>)
    ensures r.Some? ==> |r.value.network| == 4 && r.value.prefixLen <= 32
    ensures r.Some? ==> '/' in s
  {
    var i := IndexOf(s, '/');
    if i == |s| then None
    else
      var addr, mask := s[..i], s[i + 1..];
      var ip := ParseIPv4(addr);
      if ip.None? || mask == [] || !AllDigits(mask) || DigitsValue(mask) > 32 then None
      else Some(Subnet(ip.value, DigitsValue(mask)))
  }

  /** `IPNet.Contains`: the first `prefixLen` bits of the two addresses agree, which is what
      masking both with the subnet mask compares. */
  predicate Contains(net: Subnet, ip: seq<nat>)
    requires |net.network| == 4 && |ip| == 4 && net.prefixLen <= 32
  {
    IPv4Value(net.network) / Pow2(32 - net.prefixLen) == IPv4Value(ip) / Pow2(32 - net.prefixLen)
  }

  /** `isIPInTrustedSubnet`: false when either text does not parse. */
  function InTrustedSubnet(ipText: string, trustedSubnet: string): (r: bool)
    ensures r ==> ParseIPv4(ipText).Some? && ParseCIDR(trustedSubnet).Some?
    ensures ParseIPv4(ipText).Some? && ParseCIDR(trustedSubnet).Some? ==>
      (r <==> Contains(ParseCIDR(trustedSubnet).value, ParseIPv4(ipText).value))
  {
    var ip := ParseIPv4(ipText);
    var net := ParseCIDR(trustedSubnet);
    ip.Some? && net.Some? && Contains(net.value, ip.value)
  }

  lemma IPv4Bound(o: seq<nat>)
    requires |o| == 4 && o[0] <= 255 && o[1] <= 255 && o[2] <= 255 && o[3] <= 255
    ensures IPv4Value(o) < Pow2(32)
  {
    assert Pow2(8) == 256;
    assert Pow2(16) == 65536 by { Pow2Add(8, 8); }
    assert Pow2(32) == 4294967296 by { Pow2Add(16, 16); }
    assert o[0] * 256 + o[1] <= 65535;
    assert (o[0] * 256 + o[1]) * 256 + o[2] <= 16777215;
  }

  lemma {:induction false} Pow2Add(a: nat, b: nat)
    ensures Pow2(a + b) == Pow2(a) * Pow2(b)
    decreases a
  {
    if a > 0 {
      Pow2Add(a - 1, b);
    }
  }

  lemma DivSmall(x: nat, p: nat)
    requires x < p
    ensures x / p == 0
  {
  }

  /** A `/0` subnet admits every address and a `/32` subnet exactly its own. */
  lemma PrefixLengthExtremes(net: Subnet, ip: seq<nat>)
    requires |net.network| == 4 && |ip| == 4
    requires forall k :: 0 <= k < 4 ==> net.network[k] <= 255 && ip[k] <= 255
    ensures net.prefixLen == 0 ==> Contains(net, ip)
    ensures net.prefixLen == 32 ==> (Contains(net, ip) <==> IPv4Value(net.network) == IPv4Value(ip))
  {
    if net.prefixLen == 0 {
      IPv4Bound(net.network);
      IPv4Bound(ip);
      DivSmall(IPv4Value(net.network), Pow2(32));
      DivSmall(IPv4Value(ip), Pow2(32));
    } else if net.prefixLen == 32 {
      assert Pow2(0) == 1;
    }
  }

  /** Different addresses have different values, so `/32` means one host. */
  lemma IPv4ValueInjective(a: seq<nat>, b: seq<nat>)
    requires |a| == 4 && |b| == 4
    requires forall k :: 0 <= k < 4 ==> a[k] <= 255 && b[k] <= 255
    requires IPv4Value(a) == IPv4Value(b)
    ensures a == b
  {
    var a1, b1 := a[0] * 256 + a[1], b[0] * 256 + b[1];
    var a2, b2 := a1 * 256 + a[2], b1 * 256 + b[2];
    Base256Digit(a2, a[3]);
    Base256Digit(b2, b[3]);
    Base256Digit(a1, a[2]);
    Base256Digit(b1, b[2]);
    Base256Digit(a[0], a[1]);
    Base256Digit(b[0], b[1]);
    assert a == [a[0], a[1], a[2], a[3]] && b == [b[0], b[1], b[2], b[3]];
  }

  /** The last base-256 digit and the rest of a number are determined by it. */
  lemma Base256Digit(hi: nat, lo: nat)
    requires lo < 256
    ensures (hi * 256 + lo) % 256 == lo && (hi * 256 + lo) / 256 == hi
  {
  }

  // ---------------------------------------------------------------------------------------
  // The server

  /** Incoming metadata: lower-case keys to their values. */
  type Metadata = map<string, seq<string>>

  const RealIPKey := "x-real-ip"

  /** The interceptor's decision: `None` calls the handler. */
  function Admission(trustedSubnet: string, md: Option<Metadata>): (r: Option<string>)
    ensures trustedSubnet == "" ==> r.None?
    ensures md.None? && trustedSubnet != "" ==> r.Some?
    ensures r.None? <==> (trustedSubnet == "" ||
      (md.Some? && RealIPKey in md.value && |md.value[RealIPKey]| > 0 && InTrustedSubnet(md.value[RealIPKey][0], trustedSubnet)))
  {
    if trustedSubnet == "" then None
    else if md.None? then Some("no metadata found")
    else if RealIPKey !in md.value || |md.value[RealIPKey]| == 0 then Some("x-real-ip header not found")
    else if !InTrustedSubnet(md.value[RealIPKey][0], trustedSubnet) then Some("client IP not in trusted subnet")
    else None
  }

  /** Only the first `x-real-ip` value is looked at: further values, trusted or not, change
      nothing. */
  lemma FirstRealIPDecides(trustedSubnet: string, md: Metadata, ip: string, more: seq<string>)
    ensures Admission(trustedSubnet, Some(md[RealIPKey := [ip] + more])) == Admission(trustedSubnet, Some(md[RealIPKey := [ip]]))
  {
    assert ([ip] + more)[0] == ip;
  }

  /** The agent's own calls pass the interceptor exactly when its address is in the subnet:
      the client sends its address, or "unknown", which never parses. */
  lemma AgentCallAdmission(trustedSubnet: string, localIP: string, ms: seq<PbMetric>)
    requires trustedSubnet != ""
    ensures var call := RpcCall(RealIPHeader(localIP), ms);
      Admission(trustedSubnet, Some(map[RealIPKey := [call.realIP]])).None? <==> localIP != "" && InTrustedSubnet(localIP, trustedSubnet)
  {
    if localIP == "" {
      assert Split("unknown", '.') == ["unknown"] by { IndexOfNone("unknown"); }
    }
  }

  class GRPCServer {
    const storage: MetricsRepo
    const trustedSubnet: string

    constructor (storage: MetricsRepo, trustedSubnet: string)
      ensures this.storage == storage && this.trustedSubnet == trustedSubnet
    {
      this.storage := storage;
      this.trustedSubnet := trustedSubnet;
    }

    /** `UpdateMetrics`: an unknown type rejects the whole request before storage is
        touched; otherwise one batch write, whose failure is `Internal`. `fault` is the
        storage failure, if any. */
    method UpdateMetrics(req: seq<PbMetric>, fault: Option<DbError>) returns (code: Code)
      modifies storage
      ensures FromProtoList(req).None? ==> code == InvalidArgument && storage.State() == old(storage.State())
      ensures FromProtoList(req).Some? ==>
        var (e, s) := BatchOutcome(old(storage.State()), FromProtoList(req).value, storage.sqlBacked, fault);
        storage.State() == s && (code == OK <==> e.None?) && (code != OK ==> code == Internal)
    {
      var ms: seq<Metrics> := [];
      var i := 0;
      while i < |req|
        invariant 0 <= i <= |req|
        invariant FromProtoList(req[..i]) == Some(ms)
      {
        assert req[..i + 1][..i] == req[..i];
        var m := FromProto(req[i]);
        if m.None? {
          return InvalidArgument;
        }
        ms := ms + [m.value];
        i := i + 1;
      }
      assert req[..i] == req;
      var err := storage.BatchUpdate(ms, fault);
      if err.Some? {
        return Internal;
      }
      return OK;
    }

    /** A call through `trustedSubnetInterceptor` into `UpdateMetrics`: a denied call never
        reaches storage. */
    method InterceptUpdateMetrics(md: Option<Metadata>, req: seq<PbMetric>, fault: Option<DbError>) returns (code: Code)
      modifies storage
      ensures Admission(trustedSubnet, md).Some? ==> code == PermissionDenied && storage.State() == old(storage.State())
      ensures Admission(trustedSubnet, md).None? && FromProtoList(req).None? ==> code == InvalidArgument && storage.State() == old(storage.State())
      ensures Admission(trustedSubnet, md).None? && FromProtoList(req).Some? ==>
        var (e, s) := BatchOutcome(old(storage.State()), FromProtoList(req).value, storage.sqlBacked, fault);
        storage.State() == s && (code == OK <==> e.None?)
    {
      if Admission(trustedSubnet, md).Some? {
        return PermissionDenied;
      }
      code := UpdateMetrics(req, fault);
    }
  }
}
