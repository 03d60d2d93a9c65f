/** Connect targets, and what the address catalogue (src/modules/telegram/catalog.rs) is assumed to say of them. */
module Hosts {
  import opened Bytes
  import opened Init

  /** A target as the SOCKS request carries it; the source keeps its text instead. */
  datatype Host = V4(addr: seq<byte>) | Domain(name: seq<byte>) | V6(addr: seq<byte>)

  const COLON: byte := 58

  /** The source's test for IPv6: a colon in the text. */
  predicate IsIpv6(h: Host) {
    match h
    case V4(_) => false
    case V6(_) => true
    case Domain(name) => COLON in name
  }

  /** Address parsing and the static tables. A domain name may itself spell an address. */
  datatype Catalog = Catalog(
    isTelegram: Host -> bool,
    parse6: Host -> Option<seq<byte>>,
    ipToDc: Host -> Option<Entry>)
  {
    ghost predicate Valid() {
      && (forall h :: parse6(h).Some? ==> IsIpv6(h))
      && (forall h :: ipToDc(h).Some? ==> ipToDc(h).value.Valid() && !IsIpv6(h))
      && (forall a: seq<byte> :: parse6(V6(a)) == Some(a))
    }
  }
}
