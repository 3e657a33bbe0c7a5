/** Addresses. */
module Net {
  import opened Bytes

  datatype Ip = V4(octets: seq<byte>) | V6(octets: seq<byte>)
  datatype SocketAddr = SocketAddr(ip: Ip, port: u16)

  predicate ValidIp(ip: Ip) {
    |ip.octets| == if ip.V4? then 4 else 16
  }
}
