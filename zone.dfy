/**
 * The static zone the responder serves (dnsserver/dumbdns.py:32-35, 59-78):
 * record data, resource records, the QTYPE mnemonic table the code consults,
 * and the configured zone itself.
 */
module Zones {
  import opened Wrappers
  import opened Octets
  import opened DomainNames

  /** Record data, one constructor per dnslib class the zone uses (the class name is the record's type name). */
  datatype RData =
    | A(address: string)
    | AAAA(address6: seq<byte>)
    | MX(exchange: string, preference: nat)
    | NS(target: string)
    | SOA(mname: string, rname: string, serial: nat, refresh: nat, retry: nat, expire: nat, minimum: nat)

  /** `rdata.__class__.__name__` (dumbdns.py:104). */
  function TypeName(r: RData): string {
    match r
    case A(_) => "A"
    case AAAA(_) => "AAAA"
    case MX(_, _) => "MX"
    case NS(_) => "NS"
    case SOA(_, _, _, _, _, _, _) => "SOA"
  }

  /** `getattr(QTYPE, TypeName(r))`: the numeric type of the record. */
  function TypeCode(r: RData): nat {
    match r
    case A(_) => 1
    case AAAA(_) => 28
    case MX(_, _) => 15
    case NS(_) => 2
    case SOA(_, _, _, _, _, _, _) => 6
  }

  /**
   * dnslib's QTYPE table, numeric code to mnemonic, as this model assumes it: code 255,
   * a query for all records, is named "*". `QTYPE[code]` raises for a code not in it (None here).
   */
  function QTypeName(code: nat): (r: Option<string>)
    ensures r == Some("*") <==> code == 255
    ensures r.Some? ==> r.value != ""
  {
    match code
    case 1 => Some("A")
    case 2 => Some("NS")
    case 5 => Some("CNAME")
    case 6 => Some("SOA")
    case 12 => Some("PTR")
    case 15 => Some("MX")
    case 16 => Some("TXT")
    case 17 => Some("RP")
    case 18 => Some("AFSDB")
    case 24 => Some("SIG")
    case 25 => Some("KEY")
    case 28 => Some("AAAA")
    case 29 => Some("LOC")
    case 33 => Some("SRV")
    case 35 => Some("NAPTR")
    case 36 => Some("KX")
    case 37 => Some("CERT")
    case 39 => Some("DNAME")
    case 41 => Some("OPT")
    case 42 => Some("APL")
    case 43 => Some("DS")
    case 44 => Some("SSHFP")
    case 45 => Some("IPSECKEY")
    case 46 => Some("RRSIG")
    case 47 => Some("NSEC")
    case 48 => Some("DNSKEY")
    case 49 => Some("DHCID")
    case 50 => Some("NSEC3")
    case 51 => Some("NSEC3PARAM")
    case 52 => Some("TLSA")
    case 55 => Some("HIP")
    case 99 => Some("SPF")
    case 249 => Some("TKEY")
    case 250 => Some("TSIG")
    case 251 => Some("IXFR")
    case 252 => Some("AXFR")
    case 255 => Some("*")
    case 32768 => Some("TA")
    case 32769 => Some("DLV")
    case _ => None
  }

  /** The forward and reverse QTYPE lookups agree on every record class of the zone. */
  lemma TypeCodeNamesType(r: RData)
    ensures QTypeName(TypeCode(r)) == Some(TypeName(r))
    ensures TypeName(r) != "*"
  {
  }

  /** A resource record as the reply carries it: owner, type, class, TTL and data. */
  datatype RR = RR(rname: string, rtype: nat, rclass: nat, ttl: nat, rdata: RData)

  /** One item of the `records` dictionary: an owner name and its records in stored order. */
  datatype Entry = Entry(owner: string, rrs: seq<RData>)

  /**
   * The zone: apex `D`, the served address `IP`, `TTL`, `soa_record`, `ns_records`
   * and `records` (a dictionary, kept here as its items, in the order of the literal).
   */
  datatype Zone = Zone(apex: string, ip: string, ttl: nat, soa: RData, ns: seq<RData>, records: seq<Entry>)

  /** Dictionary keys are distinct. */
  predicate DistinctOwners(records: seq<Entry>) {
    forall i, j :: 0 <= i < j < |records| ==> records[i].owner != records[j].owner
  }

  /** The dictionary the items make up. */
  function RecordMap(records: seq<Entry>): (m: map<string, seq<RData>>)
    ensures m.Keys == set i | 0 <= i < |records| :: records[i].owner
  {
    if records == [] then map[]
    else
      var last := records[|records| - 1];
      var m := RecordMap(records[..|records| - 1])[last.owner := last.rrs];
      assert forall i :: 0 <= i < |records| - 1 ==> records[..|records| - 1][i] == records[i];
      m
  }

  /** With distinct owners, the dictionary maps each item's owner to that item's records. */
  lemma {:induction false} RecordMapAt(records: seq<Entry>, i: nat)
    requires DistinctOwners(records) && i < |records|
    ensures RecordMap(records)[records[i].owner] == records[i].rrs
  {
    if i < |records| - 1 {
      RecordMapAt(records[..|records| - 1], i);
    }
  }

  // The configured zone (dumbdns.py:33-35, 59-78), built from the settings `domain`, `IP` and `TTL`.

  const Domain: string := "example.com."
  const IP: string := "1.2.3.4"
  const TTL: nat := 300

  /** `soa_record` (dumbdns.py:61-71) for apex `d`. */
  function SoaFor(d: string): RData {
    SOA(Sub(d, "ns1"), Sub(d, "spam"), 201506013, 7200, 10800, 259200, 7200)
  }

  /** `ns_records` (dumbdns.py:73) for apex `d`. */
  function NsFor(d: string): seq<RData> {
    [NS(Sub(d, "ns1")), NS(Sub(d, "ns2"))]
  }

  /** `records` (dumbdns.py:74-78) for apex `d` and address `ip`. */
  function RecordsFor(d: string, ip: string): seq<Entry> {
    [ Entry(d, [A(ip), AAAA(seq(16, _ => 0 as byte)), MX(Sub(d, "mail"), 10), SoaFor(d)] + NsFor(d)),
      Entry(Sub(d, "ns1"), [A(ip)]),
      Entry(Sub(d, "ns2"), [A(ip)]) ]
  }

  /** The zone the settings describe. */
  function ZoneFor(d: string, ip: string, ttl: nat): Zone {
    Zone(d, ip, ttl, SoaFor(d), NsFor(d), RecordsFor(d, ip))
  }

  const Configured: Zone := ZoneFor(Domain, IP, TTL)

  /** The dictionary's keys are distinct for every apex. */
  lemma DistinctOwnersFor(d: string, ip: string)
    ensures DistinctOwners(RecordsFor(d, ip))
  {
    assert Sub(d, "ns1")[2] != Sub(d, "ns2")[2];
  }

  /**
   * For a lower-case apex the zone is well formed: distinct owners, every owner inside the
   * zone, and an A record (glue) for each name server.
   */
  lemma ZoneForWellFormed(d: string, ip: string)
    requires IsLower(d)
    ensures DistinctOwners(RecordsFor(d, ip))
    ensures forall i :: 0 <= i < |RecordsFor(d, ip)| ==> InZone(d, Lower(RecordsFor(d, ip)[i].owner))
    ensures forall r :: r in NsFor(d) ==>
      r.NS? && r.target in RecordMap(RecordsFor(d, ip)) && A(ip) in RecordMap(RecordsFor(d, ip))[r.target]
  {
    var records := RecordsFor(d, ip);
    DistinctOwnersFor(d, ip);
    SubInZone(d, "ns1");
    SubInZone(d, "ns2");
    LowerOfLower(d);
    RecordMapAt(records, 1);
    RecordMapAt(records, 2);
  }

  /** The configured apex is lower case, as the setting's comment demands. */
  lemma ConfiguredApexLower()
    ensures IsLower(Domain)
  {
  }
}
