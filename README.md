# dumbdns: a verified model of the responder's protocol core

This project models the protocol logic of `dnsserver/dumbdns.py`, a small authoritative DNS
responder for one static zone (`example.com.`, address `1.2.3.4`, TTL 300). It covers three parts:

- **Zone and names** (`zone.dfy`, `names.dfy`). The zone holds the `soa_record`, the `ns_records` and the
  `records` dictionary. Owner names are built by `DomainName` attribute access (`D.ns1` is
  `ns1.example.com.`). The zone test lower-cases the query name. It then accepts the apex itself, or a name
  ending in `.` followed by the apex.
- **The resolver `dns_response`** (`resolver.dfy`). `Resolve` is a pure function. It gives the outcome for
  any zone and any request: raise, no reply, or the exact reply message. `DnsResponse` builds a `DnsReply`
  object with `add_answer` / `add_ar` / `add_auth` / `set_rcode` inside the same nested loops as the source.
  It is proved to produce exactly `Resolve`'s message. The lemmas then state the branch rules.
- **Transport framing and the request pipeline** (`framing.dfy`, `handler.dfy`).
  - `bytes.strip()` is modelled as a pure function.
  - UDP `get_data` applies `strip` and nothing else.
  - TCP `get_data` checks the 2-byte big-endian length prefix (section 4.2.2 of RFC 1035).
  - TCP `send_data` adds that prefix.
  - `Handle` is the parse → resolve → pack → send control flow of `handle`. Its contract says when a reply
    is sent and which bytes are sent.

Points where the code's behaviour is easy to misread:
- The SOA authority record and the NS additional records are added only for types other than A and AAAA
  (lines 108-111 sit inside the `else:` of line 100). So A replies carry one answer and nothing else.
- The record lookup at line 102 compares owners with the query name as received. It is case-sensitive,
  although the zone test at line 88 is not.
- UDP `get_data` strips whitespace at both ends of the datagram (`bytes.strip()`).
- `QTYPE[qtype]` (line 85) runs before the zone test. A numeric type that dnslib's table does not know
  raises, and `handle` drops the request as a bad packet. Out-of-zone names are affected too.

## Model

| member | source | states |
|---|---|---|
| `DomainNames.Lower` | dnsserver/dumbdns.py:88 | `qn.lower()` on ASCII text: keeps the length and leaves no capital |
| `DomainNames.Sub` | dnsserver/dumbdns.py:55-57 | `DomainName(domain).item` is `item`, a dot, then the domain, so it ends in `.domain` |
| `DomainNames.EndsWith` | dnsserver/dumbdns.py:88 | `str.endswith`: the suffix is no longer than the string and equals its tail |
| `DomainNames.InZone` | dnsserver/dumbdns.py:88 | the zone test on an already lower-cased name: the apex itself, or ending in `.` followed by the apex |
| `DomainNames.LowerSpec` | dnsserver/dumbdns.py:88 | lower-casing keeps the length, changes only capitals and leaves no capital |
| `DomainNames.LowerConcat` | dnsserver/dumbdns.py:88 | lower-casing distributes over concatenation of name parts |
| `DomainNames.LowerOfLower` | dnsserver/dumbdns.py:33 | a name already in lower case (as the apex must be) is unchanged by lower-casing |
| `DomainNames.InZoneIff` | dnsserver/dumbdns.py:88 | the zone test holds iff the name is the apex or `item.apex` for some item, so a sibling such as `notexample.com.` fails |
| `DomainNames.SubInZone` | dnsserver/dumbdns.py:55-59 | every `DomainName` attribute name built on a lower-case apex passes the zone test, whatever the case of the item |
| `Zones.TypeName` | dnsserver/dumbdns.py:104 | `rdata.__class__.__name__` for the five record classes of the zone |
| `Zones.TypeCode` | dnsserver/dumbdns.py:106 | `getattr(QTYPE, rqt)`: the numeric type of each record class |
| `Zones.QTypeName` | dnsserver/dumbdns.py:85 | `QTYPE[qtype]` under the assumed table: only code 255 is named `*`, every known code has a non-empty name, and an unknown code raises (None) |
| `Zones.TypeCodeNamesType` | dnsserver/dumbdns.py:104-106 | the record's class name and `getattr(QTYPE, name)` agree with the forward QTYPE table, and no class is named `*` |
| `Zones.RecordMap` | dnsserver/dumbdns.py:74-78 | the dictionary built from the items has exactly the items' owners as keys |
| `Zones.RecordMapAt` | dnsserver/dumbdns.py:74-78 | with distinct owners, the dictionary maps each owner to its stored record list |
| `Zones.SoaFor` | dnsserver/dumbdns.py:61-71 | `soa_record`: primary `ns1.` and mailbox `spam.` under the apex, serial 201506013, refresh 7200, retry 10800, expire 259200, minimum 7200 |
| `Zones.NsFor` | dnsserver/dumbdns.py:73 | `ns_records`: NS `ns1.` then NS `ns2.` under the apex |
| `Zones.RecordsFor` | dnsserver/dumbdns.py:74-78 | the `records` items, listed in the order of the literal (with distinct owners the answers do not depend on the order, see `Resolver.TableAnswersIsLookup`): the apex with A, AAAA `::`, MX `mail.`, the SOA and both NS; `ns1.` and `ns2.` with an A record each |
| `Zones.ZoneFor` | dnsserver/dumbdns.py:32-35 | the zone the settings `domain`, `IP` and `TTL` describe |
| `Zones.DistinctOwnersFor` | dnsserver/dumbdns.py:74-78 | the three owners of the dictionary (apex, `ns1`, `ns2`) are distinct for every apex |
| `Zones.ZoneForWellFormed` | dnsserver/dumbdns.py:59-78 | for a lower-case apex every owner is inside the zone and each name server of `ns_records` has an A record for the served address |
| `Zones.ConfiguredApexLower` | dnsserver/dumbdns.py:33 | the configured apex `example.com.` is lower case, as its setting demands |
| `Resolver.ReplyHeader` | dnsserver/dumbdns.py:89 | the reply header: the request's id, QR, AA, RA and (by dnslib's default) RD set, opcode 0, TC clear, rcode 0 |
| `Resolver.Select` | dnsserver/dumbdns.py:103-106 | the answers the inner loop appends for one stored list; characterised by `Resolver.SelectInStoredOrder` and `Resolver.SelectBound` |
| `Resolver.SelectBound` | dnsserver/dumbdns.py:103-106 | the inner loop appends at most one answer per stored record |
| `Resolver.TableAnswers` | dnsserver/dumbdns.py:101-106 | the answers the outer loop appends while walking the dictionary items, comparing owners with the query name as received |
| `Resolver.NsAdditional` | dnsserver/dumbdns.py:108-109 | the additional section: every entry of `ns_records`, in order, owned by the apex with type NS and the zone TTL |
| `Resolver.SoaAuthority` | dnsserver/dumbdns.py:111 | the authority section: the SOA record owned by the apex with the zone TTL |
| `Resolver.Resolve` | dnsserver/dumbdns.py:80-121 | the value `dns_response` returns, or that it raises; a reply is only ever returned for a known type and an in-zone name |
| `Resolver.DnsReply.constructor` | dnsserver/dumbdns.py:89 | a new reply holds the given header and question and three empty sections |
| `Resolver.DnsReply.AddAnswer` | dnsserver/dumbdns.py:93 | appends one record to the answer section and changes nothing else |
| `Resolver.DnsReply.AddAr` | dnsserver/dumbdns.py:109 | appends one record to the additional section and changes nothing else |
| `Resolver.DnsReply.AddAuth` | dnsserver/dumbdns.py:111 | appends one record to the authority section and changes nothing else |
| `Resolver.DnsReply.SetRcode` | dnsserver/dumbdns.py:97 | sets the response code and changes nothing else |
| `Resolver.AddSelected` | dnsserver/dumbdns.py:103-106 | appends exactly the selected answers for one stored record list and changes nothing else |
| `Resolver.AddTableAnswers` | dnsserver/dumbdns.py:101-106 | appends exactly the answers of the whole dictionary walk and changes nothing else |
| `Resolver.DnsResponse` | dnsserver/dumbdns.py:80-121 | raises, returns None, or returns a fresh reply exactly as `Resolve` says |
| `Resolver.WantedIndices` | dnsserver/dumbdns.py:103-105 | the positions of the stored records the requested type name (or `*`) selects, strictly increasing |
| `Resolver.SelectInStoredOrder` | dnsserver/dumbdns.py:103-106 | the inner loop's answers are exactly the wanted records in stored order, each owned by the query name with the zone TTL and the record's own type code |
| `Resolver.SelectAll` | dnsserver/dumbdns.py:105-106 | for `*` every stored record is answered, in order |
| `Resolver.SelectConcat` | dnsserver/dumbdns.py:103-106 | selection over two runs of records is the selection of each, concatenated |
| `Resolver.SelectNoneWanted` | dnsserver/dumbdns.py:103-106 | when no stored record has the wanted type there are no answers |
| `Resolver.TableAnswersAbsent` | dnsserver/dumbdns.py:101-102 | an owner that is no key of the dictionary yields no answers |
| `Resolver.TableAnswersIsLookup` | dnsserver/dumbdns.py:101-106 | scanning all items and comparing owners (case-sensitively) equals a dictionary lookup followed by selection |
| `Resolver.ResolveRaisedIff` | dnsserver/dumbdns.py:84-85 | the resolver raises exactly when the numeric type is not in the QTYPE table |
| `Resolver.ResolveNoReplyIff` | dnsserver/dumbdns.py:88 | no reply exactly when the lower-cased name is neither the apex nor `item.apex` (for a known type) |
| `Resolver.SiblingIgnored` | dnsserver/dumbdns.py:88 | a lower-case name that is the apex behind a prefix not ending in a dot gets no reply |
| `Resolver.SiblingDomainIgnored` | dnsserver/dumbdns.py:88 | `notexample.com.` shares the suffix without the dot boundary and gets no reply |
| `Resolver.ForeignDomainIgnored` | dnsserver/dumbdns.py:113-117 | `other.org.` gets no reply |
| `Resolver.SubdomainAnyCaseAccepted` | dnsserver/dumbdns.py:88 | `item.X` gets a reply whenever `X` lower-cases to the apex, whatever the case of either part |
| `Resolver.MixedCaseAccepted` | dnsserver/dumbdns.py:88 | `Foo.EXAMPLE.com.` passes the case-insensitive zone test and gets a reply |
| `Resolver.ResolveReplyHeader` | dnsserver/dumbdns.py:89 | every reply echoes the id and question and sets QR, AA and RA, and RD through dnslib's header default (opcode 0, no TC); rcode is 3 for AAAA, 0 otherwise |
| `Resolver.ResolveTypeA` | dnsserver/dumbdns.py:92-93 | an in-zone A query gets one answer (query name, type A, served address, zone TTL), rcode 0, and no authority or additional records, whatever the record table holds |
| `Resolver.ResolveTypeAAAA` | dnsserver/dumbdns.py:96-97 | an in-zone AAAA query gets NXDOMAIN with all three sections empty |
| `Resolver.ResolveOtherType` | dnsserver/dumbdns.py:100-111 | other types: the answers are the wanted records stored under the exact query name, in order, and rcode stays 0 even when there are none; authority is the apex SOA; additional is every NS record, in order, owned by the apex |
| `Resolver.AdditionalFor` | dnsserver/dumbdns.py:108-109 | the additional section is the two NS records `ns1` and `ns2`, owned by the apex, with the zone TTL |
| `Resolver.ApexAddressQueries` | dnsserver/dumbdns.py:92-97 | for the apex, an A query answers the served address with the zone TTL and nothing else, and an AAAA query gets NXDOMAIN with empty sections |
| `Resolver.SelectApexLayoutMX` | dnsserver/dumbdns.py:103-106 | in a list laid out as the apex's (A, AAAA, MX, SOA, NS, NS) an MX query selects the third record only |
| `Resolver.ApexMX` | dnsserver/dumbdns.py:100-111 | an MX query for the apex answers its mail exchanger `mail.` + apex, with the SOA as authority and both NS records as additional |
| `Resolver.ApexWildcard` | dnsserver/dumbdns.py:101-106 | under the assumed QTYPE table that names 255 `*`, a code-255 query for the apex returns its six stored records in stored order, each with its own type code |
| `Resolver.AnyNamedSelectsNothing` | dnsserver/dumbdns.py:101-106 | under a QTYPE table that names 255 `ANY`, the test of line 105 selects no stored record, so the answer section is empty |
| `Resolver.ApexRespelledFindsNothing` | dnsserver/dumbdns.py:88-102 | a query of any known type other than A and AAAA for another spelling of the apex passes the case-insensitive zone test but finds no records; the reply still has rcode 0, the SOA and both NS records |
| `Resolver.ConfiguredLookupIsCaseSensitive` | dnsserver/dumbdns.py:102 | in the configured zone `EXAMPLE.COM. MX` gets a reply with no answers |
| `Framing.StripLeft` | dnsserver/dumbdns.py:161 | removes exactly the longest prefix of whitespace bytes |
| `Framing.StripRight` | dnsserver/dumbdns.py:161 | removes exactly the longest suffix of whitespace bytes |
| `Framing.Strip` | dnsserver/dumbdns.py:176 | `bytes.strip()`: never longer than its input |
| `Framing.StripNoEdge` | dnsserver/dumbdns.py:176 | what `strip` keeps has no whitespace byte at either end |
| `Framing.StripIsTrimmedSlice` | dnsserver/dumbdns.py:176 | `strip` returns the slice of the input that starts after the leading whitespace and is followed only by whitespace |
| `Framing.StripNoEdgeSpace` | dnsserver/dumbdns.py:176 | a buffer with no whitespace at its ends is unchanged by `strip` |
| `Framing.StripIdempotent` | dnsserver/dumbdns.py:161 | stripping twice is stripping once |
| `Framing.UnpackU16` | dnsserver/dumbdns.py:162 | `struct.unpack('>H', b)` succeeds iff `b` has exactly two bytes, and gives a value up to 65535 |
| `Framing.PackU16` | dnsserver/dumbdns.py:170 | `struct.pack('>H', n)` succeeds iff `n <= 65535`, and gives two bytes |
| `Framing.UnpackPackU16` | dnsserver/dumbdns.py:170 | `struct.pack('>H', n)` succeeds for `n <= 65535`, and unpacking gives `n` back |
| `Framing.PackUnpackU16` | dnsserver/dumbdns.py:162 | unpacking two bytes and packing the result gives the two bytes back |
| `Framing.UdpGetData` | dnsserver/dumbdns.py:175-176 | UDP `get_data` never raises; it returns the stripped datagram, no longer than what arrived |
| `Framing.UdpLeadingIdByteStripped` | dnsserver/dumbdns.py:176 | as written, a datagram whose first byte (the id's high byte) is whitespace loses that byte |
| `Framing.TcpGetData` | dnsserver/dumbdns.py:160-167 | TCP `get_data`: what it accepts is the stripped input after its first two bytes, at least two bytes shorter than the input |
| `Framing.TcpSendData` | dnsserver/dumbdns.py:169-171 | TCP `send_data` succeeds iff the message fits in 16 bits; the frame is two bytes longer and ends with the message |
| `Framing.TcpGetDataCases` | dnsserver/dumbdns.py:160-167 | TCP `get_data` returns `d[2:]` iff the stripped `d` has at least 2 bytes and its big-endian prefix equals `len(d) - 2`; it raises the matching error for each other case |
| `Framing.TcpSendDataShape` | dnsserver/dumbdns.py:169-171 | TCP `send_data` succeeds iff the message fits in 16 bits; the frame is the big-endian length followed by the message |
| `Framing.TcpRoundTrip` | dnsserver/dumbdns.py:160-171 | a frame with no whitespace at its ends decodes to the message it carries |
| `Framing.TcpGetDataInverse` | dnsserver/dumbdns.py:160-171 | whatever TCP `get_data` accepts is the stripped input, and re-framing the result gives it back |
| `Framing.TcpGetDataBound` | dnsserver/dumbdns.py:161 | one `recv(8192)` yields at most 8190 bytes of accepted message |
| `Framing.TcpTrailingSpaceRefused` | dnsserver/dumbdns.py:161-167 | as written, a framed message shorter than 2304 bytes whose last byte is whitespace is refused |
| `Framing.TcpLengthPrefixStripped` | dnsserver/dumbdns.py:161-167 | as written, no 2304-byte message comes back intact: `strip` removes the length's high byte 0x09 |
| `Framing.TcpZeroMessageRefused` | dnsserver/dumbdns.py:161-167 | as written, 2304 zero bytes are refused outright: after `strip` the declared length reads 0 |
| `Framing.TcpGetDataUnstripped` | dnsserver/dumbdns.py:162-167 | the intended reader: accepts iff the declared length equals the payload length, and returns the payload |
| `Framing.TcpRoundTripUnstripped` | dnsserver/dumbdns.py:160-171 | without `strip`, every message up to 65535 bytes survives framing and reading |
| `Framing.TcpUnstrippedInverse` | dnsserver/dumbdns.py:160-171 | without `strip`, an accepted buffer is exactly the framing of the returned payload |
| `Handler.GetData` | dnsserver/dumbdns.py:137 | `self.get_data()` of the transport: never raises over UDP, and returns no more bytes than arrived |
| `Handler.Received` | dnsserver/dumbdns.py:137-138 | the request `DNSRecord.parse(self.get_data())` gives, when reading and parsing both succeed |
| `Handler.SendData` | dnsserver/dumbdns.py:148 | the bytes `self.send_data(...)` writes: fails only over TCP for a message over 65535 bytes, and always ends with the message |
| `Handler.Handle` | dnsserver/dumbdns.py:133-156 | sends at most one buffer, and only when reading, parsing and resolving succeed and a reply is returned; the buffer is the framed packed reply, which has the request's id; every failure sends nothing |
| `Handler.TcpOversizedReplyDropped` | dnsserver/dumbdns.py:170 | over TCP a packed reply longer than 65535 bytes cannot be framed, so it is dropped |

## Left out

- Logging and timestamps in `handle` (lines 134-135, 141, 149, 152, 156). The three log outcomes are
  kept as the cases of `Handler.Outcome`.
- Sockets (`recv`, `sendall`, `sendto`), threads and `startServer` (lines 182-218): binding, privilege drop
  and the shutdown loop. These are I/O and concurrency. The model starts from the bytes that one `recv`
  returned and ends at the bytes handed to the socket.
- `dnsserver/run-dnsserver.py` (daemonisation, PID file) is not part of this model. It is OS process plumbing.
- `dnsserver/test_client.py` is not part of this model. It is a network client script.
- dnslib's wire parser and packer (`DNSRecord.parse`, `.pack`) are foreign code. `Handle` takes them as
  parameters: the parser may fail (`Option`), and the packer is assumed not to raise.
- dnslib's `QTYPE` table is foreign too, and the code does not say which dnslib release it targets.
  `Zones.QTypeName` assumes a table where code 255 is named `*` and an unknown code raises. A release that
  names 255 `ANY` makes the `*` branch of line 105 dead (`Resolver.AnyNamedSelectsNothing`). A release that
  returns the code as text instead of raising gives an unknown type an empty answer with SOA and NS.
- `Resolver.ApexWildcard`: holds only under the assumed table that names code 255 `*`.
- The reply header's flags come from dnslib's `DNSHeader` defaults, which are foreign code. The model sets
  RD, as dnslib does for a header built without a bitmap, and leaves opcode and TC at zero.
- `DomainNames.Lower`: models `str.lower()` on ASCII letters only. Non-ASCII case mappings are not
  modelled, because DNS names reach this code as ASCII text.
- The iteration order of `records.items()` (Python before 3.7 does not keep insertion order) is modelled as
  the order of the literal. Owners are distinct, so the answers do not depend on it (`Resolver.TableAnswersIsLookup`).
- Question names are the strings that dnslib's `str(qname)` gives. Label escaping and the `DNSLabel` type are not modelled.
- `TcpGetData` models the bytes of a single `recv(8192)` call. How TCP splits a stream across reads is I/O
  and is not modelled.
- The abstract `BaseRequestHandler.get_data` / `send_data` (lines 127-131) only raise
  `NotImplementedError`. They are replaced by the two transports of `Handler.Transport`.

## Findings

| source | as written | input that shows it | evidently intended | confidence | as-written member | corrected member |
|---|---|---|---|---|---|---|
| dnsserver/dumbdns.py:161 | TCP `get_data` calls `bytes.strip()` on the binary frame before checking the 2-byte length, so whitespace-valued bytes at either end are removed | a message under 2304 bytes whose last byte is 0x20 (frame `00 01 20` is refused), or a 2304-byte message: the length's high byte 0x09 is stripped, so none comes back intact, and 2304 zero bytes are refused outright | check the declared length against the bytes as received, unstripped | not executed; high | `Framing.TcpTrailingSpaceRefused` | `Framing.TcpGetDataUnstripped` |

The corrected reader is proved to invert `send_data` for every message of up to 65535 bytes
(`Framing.TcpRoundTripUnstripped`, `Framing.TcpUnstrippedInverse`). `Handler.Handle` uses it to state
that a client can read a TCP reply back. The server's own read path in `Handle` keeps the code as written.
The same `strip` at line 176 cuts a UDP datagram that ends in a whitespace byte. It also removes the
first byte of any query whose transaction id has a high byte of 0x09-0x0d or 0x20
(`Framing.UdpLeadingIdByteStripped`), so dnslib then parses a shifted packet. `Framing.UdpGetData`
models this as written.
