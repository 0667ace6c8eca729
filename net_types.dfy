/**
 * The address values of Go's `net` package as the installer and the network
 * test use them. Their textual parsers (net.ParseIP, net.ParseCIDR,
 * ip.ParseIPandMask, ip.Range's text form, name resolution) are not modelled:
 * every operation that needs one takes it as a function parameter.
 */
module NetTypes {

  /** net.IP: the address bytes; the empty sequence is Go's nil IP. */
  type IP = seq<bv8>

  /** net.IPMask */
  type Mask = seq<bv8>

  /** The nil IP, which prints as "<nil>" and compares equal to nothing parsed. */
  const NilIP: IP := []

  /** net.IPNet: an address and its mask. */
  datatype IPNet = IPNet(ip: IP, mask: Mask)

  /** The zero value of net.IPNet: nil address, nil mask. */
  const ZeroIPNet: IPNet := IPNet(NilIP, [])

  /** What net.ParseCIDR returns on success: the address written and the network it lies in. */
  datatype CIDR = CIDR(ip: IP, network: IPNet)

  /** ip.Range: the first and last address of a pool. */
  datatype IPRange = IPRange(first: IP, last: IP)

  /** Go's `m[k]` on a map: the stored value, or the zero value when the key is missing. */
  function Get<K, V>(m: map<K, V>, k: K, zero: V): V
  {
    if k in m then m[k] else zero
  }
}
