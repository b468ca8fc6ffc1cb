/** IP and socket addresses (`std::net`, `util/endpoint.rs`). */
module Net {
  import opened Codec

  type u128 = x: int | 0 <= x < 0x1_0000_0000_0000_0000_0000_0000_0000_0000

  datatype Ip = V4(v4: u32) | V6(v6: u128)

  /** Flow and scope belong to IPv6 socket addresses; `SocketAddr::new` sets both to zero. */
  datatype SocketAddr = SocketAddr(ip: Ip, port: u16, flow: u32, scope: u32)

  const LOCALHOST: Ip := V4(0x7F00_0001)

  function NewAddr(ip: Ip, port: u16): SocketAddr {
    SocketAddr(ip, port, 0, 0)
  }

  /** IPv4-mapped IPv6 addresses (`::ffff:a.b.c.d`) become IPv4. */
  function Normalize(ip: Ip): Ip {
    match ip
    case V4(_) => ip
    case V6(bits) => if bits / 0x1_0000_0000 == 0xFFFF then V4(bits % 0x1_0000_0000) else ip
  }

  /** `::ffff:a.b.c.d`. */
  function Mapped(v4: u32): Ip {
    V6(0xFFFF * 0x1_0000_0000 + v4)
  }

  /** The same address, or an IPv4 address and its mapped form. */
  predicate SameHost(a: Ip, b: Ip) {
    a == b || (a.V4? && b == Mapped(a.v4)) || (b.V4? && a == Mapped(b.v4))
  }

  lemma NormalizeExactly(a: Ip, b: Ip)
    ensures Normalize(a) == Normalize(b) <==> SameHost(a, b)
  {
  }
}
