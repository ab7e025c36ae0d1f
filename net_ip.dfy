/** What the mDNS responder uses of Go's net.IP: a byte slice of length 4
    (IPv4) or 16 (IPv6, or IPv4 written in the IPv4-in-IPv6 form). */
module NetIP {
  import opened Wrappers

  type Byte = x: int | 0 <= x < 256

  datatype IP = IP(raw: seq<Byte>)

  /** The twelve-byte prefix of an IPv4 address in IPv6 form (::ffff:a.b.c.d). */
  const V4InV6Prefix: seq<Byte> := [0, 0, 0, 0, 0, 0, 0, 0, 0, 0, 255, 255]

  /** ::1 */
  const IPv6Loopback: seq<Byte> := [0, 0, 0, 0, 0, 0, 0, 0, 0, 0, 0, 0, 0, 0, 0, 1]

  /** net.IPv4(a, b, c, d) builds the 16-byte form. */
  function IPv4(a: Byte, b: Byte, c: Byte, d: Byte): IP {
    IP(V4InV6Prefix + [a, b, c, d])
  }

  /** net.IP.To4: the four octets of an IPv4 address, None for anything else. */
  function To4(ip: IP): (r: Option<seq<Byte>>)
    ensures r.Some? ==> |r.value| == 4
  {
    if |ip.raw| == 4 then Some(ip.raw)
    else if |ip.raw| == 16 && ip.raw[..12] == V4InV6Prefix then Some(ip.raw[12..])
    else None
  }

  /** net.IP.IsLoopback: 127.0.0.0/8 for IPv4, ::1 otherwise. */
  predicate IsLoopback(ip: IP) {
    match To4(ip)
    case Some(v4) => v4[0] == 127
    case None => ip.raw == IPv6Loopback
  }
}
