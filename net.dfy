/** Network value types from `std::net` and `http`, reduced to what the connector reads. */
module Net {
  import opened Wrappers

  newtype u16 = x: int | 0 <= x < 0x1_0000
  newtype u32 = x: int | 0 <= x < 0x1_0000_0000
  newtype u128 = x: int | 0 <= x < 0x1_0000_0000_0000_0000_0000_0000_0000_0000

  /** `std::net::IpAddr`: an IPv4 or IPv6 address, as its numeric value. */
  datatype IpAddr = V4(v4: u32) | V6(v6: u128)

  /** `::`, the IPv6 unspecified (any) address. */
  const Ipv6Unspecified: IpAddr := V6(0)

  /** `std::net::SocketAddr`: an address and a port. */
  datatype SocketAddr = SocketAddr(ip: IpAddr, port: u16)
  {
    /** `SocketAddr::set_port`, on a value. */
    function WithPort(p: u16): (a: SocketAddr)
      ensures a.ip == ip && a.port == p
    {
      this.(port := p)
    }
  }

  /** The parts of an `http::Uri` the connector reads: `host()` and `port_u16()`. */
  datatype Uri = Uri(host: Option<string>, port: Option<u16>)
}
