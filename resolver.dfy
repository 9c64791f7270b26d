/**
 * The query resolver `dns_response` (dnsserver/dumbdns.py:80-121).
 *
 * `Resolve` states what a call returns for a question against a zone;
 * `DnsResponse` builds the reply object step by step as the Python code does
 * and is proved to produce exactly that value.
 */
module Resolver {
  import opened DomainNames
  import opened Zones

  /** The question of a request: name as received (with trailing dot), numeric type and class. */
  datatype Question = Question(qname: string, qtype: nat, qclass: nat)

  /** A parsed request: the transaction id and its question. */
  datatype Request = Request(id: nat, q: Question)

  /**
   * Header fields of a reply. `DNSHeader(id=…, qr=1, aa=1, ra=1)` sets RD through dnslib's
   * default for a header built without a bitmap; opcode, TC and the rcode stay at zero.
   */
  datatype Header = Header(id: nat, qr: bool, opcode: nat, aa: bool, tc: bool, rd: bool, ra: bool, rcode: nat)

  /** A DNS message: header, question, and the answer, authority and additional sections. */
  datatype Message = Message(header: Header, q: Question, rr: seq<RR>, auth: seq<RR>, ar: seq<RR>)

  /** What `dns_response` does: raises, returns None, or returns a reply. */
  datatype Resolution<M> = Raised | NoReply | Reply(msg: M)

  const NoError: nat := 0
  const NXDomain: nat := 3

  /** The header of line 89. */
  function ReplyHeader(id: nat): Header {
    Header(id, true, 0, true, false, true, true, NoError)
  }

  /** `qt in ['*', rqt]` (dumbdns.py:105). */
  predicate Wanted(qt: string, r: RData) {
    qt == "*" || qt == TypeName(r)
  }

  /** The answer record of line 106 for stored data `r`. */
  function Answer(qname: string, ttl: nat, r: RData): RR {
    RR(qname, TypeCode(r), 1, ttl, r)
  }

  /** Answers the inner loop (dumbdns.py:103-106) appends for the stored records `rrs`. */
  function Select(rrs: seq<RData>, qname: string, qt: string, ttl: nat): seq<RR> {
    if rrs == [] then []
    else
      var r := rrs[|rrs| - 1];
      Select(rrs[..|rrs| - 1], qname, qt, ttl) + (if Wanted(qt, r) then [Answer(qname, ttl, r)] else [])
  }

  /** Answers the outer loop (dumbdns.py:101-106) appends while it walks the dictionary items. */
  function TableAnswers(records: seq<Entry>, qname: string, qt: string, ttl: nat): seq<RR> {
    if records == [] then []
    else
      var e := records[|records| - 1];
      TableAnswers(records[..|records| - 1], qname, qt, ttl)
        + (if e.owner == qname then Select(e.rrs, qname, qt, ttl) else [])
  }

  /** The additional section of lines 108-109: every NS record, owned by the apex. */
  function NsAdditional(z: Zone): seq<RR> {
    seq(|z.ns|, k requires 0 <= k < |z.ns| => RR(z.apex, 2, 1, z.ttl, z.ns[k]))
  }

  /** The authority section of line 111: the SOA record, owned by the apex. */
  function SoaAuthority(z: Zone): seq<RR> {
    [RR(z.apex, 6, 1, z.ttl, z.soa)]
  }

  /** The value `dns_response(request)` returns for zone `z` (or that it raises). */
  function Resolve(z: Zone, req: Request): (r: Resolution<Message>)
    ensures r.Reply? ==> QTypeName(req.q.qtype).Some? && InZone(z.apex, Lower(req.q.qname))
  {
    var qn := req.q.qname;
    var qtype := req.q.qtype;
    if QTypeName(qtype).None? then Raised
    else if !InZone(z.apex, Lower(qn)) then NoReply
    else
      var h := ReplyHeader(req.id);
      if qtype == 1 then Reply(Message(h, req.q, [RR(qn, 1, 1, z.ttl, A(z.ip))], [], []))
      else if qtype == 28 then Reply(Message(h.(rcode := NXDomain), req.q, [], [], []))
      else Reply(Message(h, req.q, TableAnswers(z.records, qn, QTypeName(qtype).value, z.ttl), SoaAuthority(z), NsAdditional(z)))
  }

  // ---------------------------------------------------------------------------
  // The reply object and the imperative resolver.

  /** The `DNSRecord` reply that `dns_response` fills in. */
  class DnsReply {
    var header: Header
    var q: Question
    var rr: seq<RR>
    var auth: seq<RR>
    var ar: seq<RR>

    constructor (header: Header, q: Question)
      ensures this.header == header && this.q == q && rr == [] && auth == [] && ar == []
    {
      this.header := header;
      this.q := q;
      rr, auth, ar := [], [], [];
    }

    /** The message this object currently holds. */
    function Value(): Message
      reads this
    {
      Message(header, q, rr, auth, ar)
    }

    /** `add_answer` (dumbdns.py:93, 106). */
    method AddAnswer(r: RR)
      modifies this
      ensures Value() == old(Value()).(rr := old(rr) + [r])
    {
      rr := rr + [r];
    }

    /** `add_ar` (dumbdns.py:109). */
    method AddAr(r: RR)
      modifies this
      ensures Value() == old(Value()).(ar := old(ar) + [r])
    {
      ar := ar + [r];
    }

    /** `add_auth` (dumbdns.py:111). */
    method AddAuth(r: RR)
      modifies this
      ensures Value() == old(Value()).(auth := old(auth) + [r])
    {
      auth := auth + [r];
    }

    /** `header.set_rcode` (dumbdns.py:97). */
    method SetRcode(rcode: nat)
      modifies this
      ensures Value() == old(Value()).(header := old(header).(rcode := rcode))
    {
      header := header.(rcode := rcode);
    }
  }

  /** The inner loop of dumbdns.py:103-106: appends an answer for each wanted record of `rrs`. */
  method AddSelected(reply: DnsReply, rrs: seq<RData>, qname: string, qt: string, ttl: nat)
    modifies reply
    ensures reply.Value() == old(reply.Value()).(rr := old(reply.rr) + Select(rrs, qname, qt, ttl))
  {
    var j := 0;
    while j < |rrs|
      invariant 0 <= j <= |rrs|
      invariant reply.header == old(reply.header) && reply.q == old(reply.q)
      invariant reply.auth == old(reply.auth) && reply.ar == old(reply.ar)
      invariant reply.rr == old(reply.rr) + Select(rrs[..j], qname, qt, ttl)
    {
      var rdata := rrs[j];
      var rqt := TypeName(rdata);
      ghost var before := reply.rr;
      if qt == "*" || qt == rqt {
        reply.AddAnswer(RR(qname, TypeCode(rdata), 1, ttl, rdata));
      }
      assert reply.rr == before + (if Wanted(qt, rdata) then [Answer(qname, ttl, rdata)] else []);
      assert rrs[..j + 1][..j] == rrs[..j];
      j := j + 1;
    }
    assert rrs[..j] == rrs;
  }

  /** The outer loop of dumbdns.py:101-106: walks the dictionary items and answers from the one owned by `qname`. */
  method AddTableAnswers(reply: DnsReply, records: seq<Entry>, qname: string, qt: string, ttl: nat)
    modifies reply
    ensures reply.Value() == old(reply.Value()).(rr := old(reply.rr) + TableAnswers(records, qname, qt, ttl))
  {
    var i := 0;
    while i < |records|
      invariant 0 <= i <= |records|
      invariant reply.header == old(reply.header) && reply.q == old(reply.q)
      invariant reply.auth == old(reply.auth) && reply.ar == old(reply.ar)
      invariant reply.rr == old(reply.rr) + TableAnswers(records[..i], qname, qt, ttl)
    {
      var e := records[i];
      ghost var before := reply.rr;
      if e.owner == qname {
        AddSelected(reply, e.rrs, qname, qt, ttl);
      }
      ghost var added := if e.owner == qname then Select(e.rrs, qname, qt, ttl) else [];
      assert reply.rr == before + added;
      TableAnswersStep(records, i, qname, qt, ttl);
      AppendAssoc(old(reply.rr), TableAnswers(records[..i], qname, qt, ttl), added);
      i := i + 1;
    }
    assert records[..i] == records;
  }

  lemma AppendAssoc<T>(a: seq<T>, b: seq<T>, c: seq<T>)
    ensures (a + b) + c == a + (b + c)
  {
  }

  /** One more item of the walk adds the answers of that item. */
  lemma TableAnswersStep(records: seq<Entry>, i: nat, qname: string, qt: string, ttl: nat)
    requires i < |records|
    ensures TableAnswers(records[..i + 1], qname, qt, ttl) == TableAnswers(records[..i], qname, qt, ttl)
      + (if records[i].owner == qname then Select(records[i].rrs, qname, qt, ttl) else [])
  {
    assert records[..i + 1][..i] == records[..i];
  }

  /** `dns_response` (dumbdns.py:80-121): builds the reply object in place, as the source does. */
  method DnsResponse(z: Zone, request: Request) returns (res: Resolution<DnsReply>)
    ensures res.Raised? <==> Resolve(z, request).Raised?
    ensures res.NoReply? <==> Resolve(z, request).NoReply?
    ensures res.Reply? ==> fresh(res.msg) && Resolve(z, request) == Reply(res.msg.Value())
  {
    var qname := request.q.qname;
    var qtype := request.q.qtype;
    var qtName := QTypeName(qtype);
    if qtName.None? {
      return Raised;
    }
    var qt := qtName.value;
    if !InZone(z.apex, Lower(qname)) {
      return NoReply;
    }
    var reply := new DnsReply(ReplyHeader(request.id), request.q);
    if qtype == 1 {
      reply.AddAnswer(RR(qname, 1, 1, z.ttl, A(z.ip)));
      assert reply.Value().rr == [RR(qname, 1, 1, z.ttl, A(z.ip))];
    } else if qtype == 28 {
      reply.SetRcode(NXDomain);
    } else {
      AddTableAnswers(reply, z.records, qname, qt, z.ttl);
      for k := 0 to |z.ns|
        invariant reply.Value() == Message(ReplyHeader(request.id), request.q,
          TableAnswers(z.records, qname, qt, z.ttl), [], NsAdditional(z)[..k])
      {
        reply.AddAr(RR(z.apex, 2, 1, z.ttl, z.ns[k]));
        assert NsAdditional(z)[..k + 1] == NsAdditional(z)[..k] + [RR(z.apex, 2, 1, z.ttl, z.ns[k])];
      }
      assert NsAdditional(z)[..|z.ns|] == NsAdditional(z);
      reply.AddAuth(RR(z.apex, 6, 1, z.ttl, z.soa));
      assert reply.Value().auth == SoaAuthority(z);
    }
    return Reply(reply);
  }

  // ---------------------------------------------------------------------------
  // What the answers are.

  /** Positions in `rrs` of the records a query of type name `qt` wants, in increasing order. */
  function WantedIndices(rrs: seq<RData>, qt: string): (idx: seq<nat>)
    ensures forall k :: 0 <= k < |idx| ==> idx[k] < |rrs|
    ensures forall k, l :: 0 <= k < l < |idx| ==> idx[k] < idx[l]
    ensures forall i :: 0 <= i < |rrs| ==> (i in idx <==> Wanted(qt, rrs[i]))
  {
    if rrs == [] then []
    else
      var n := |rrs| - 1;
      var idx := WantedIndices(rrs[..n], qt);
      assert forall i :: 0 <= i < n ==> rrs[..n][i] == rrs[i];
      idx + if Wanted(qt, rrs[n]) then [n] else []
  }

  /**
   * The inner loop keeps exactly the wanted records, in stored order, each re-owned by
   * the query name with the zone's TTL and the record's own type.
   */
  lemma {:induction false} SelectInStoredOrder(rrs: seq<RData>, qname: string, qt: string, ttl: nat)
    ensures var out, idx := Select(rrs, qname, qt, ttl), WantedIndices(rrs, qt);
      |out| == |idx| && forall k :: 0 <= k < |idx| ==> out[k] == Answer(qname, ttl, rrs[idx[k]])
  {
    if rrs != [] {
      var n := |rrs| - 1;
      var p := rrs[..n];
      SelectInStoredOrder(p, qname, qt, ttl);
      var idx := WantedIndices(p, qt);
      forall k | 0 <= k < |idx| ensures p[idx[k]] == rrs[idx[k]] {
      }
    }
  }

  /** The inner loop appends at most one answer per stored record. */
  lemma {:induction false} SelectBound(rrs: seq<RData>, qname: string, qt: string, ttl: nat)
    ensures |Select(rrs, qname, qt, ttl)| <= |rrs|
  {
    if rrs != [] {
      SelectBound(rrs[..|rrs| - 1], qname, qt, ttl);
    }
  }

  /** For the type "*" every stored record is an answer, in stored order. */
  lemma {:induction false} SelectAll(rrs: seq<RData>, qname: string, ttl: nat)
    ensures Select(rrs, qname, "*", ttl) == seq(|rrs|, k requires 0 <= k < |rrs| => Answer(qname, ttl, rrs[k]))
  {
    if rrs != [] {
      var n := |rrs| - 1;
      SelectAll(rrs[..n], qname, ttl);
    }
  }

  /** Selection distributes over concatenation of the stored records. */
  lemma {:induction false} SelectConcat(a: seq<RData>, b: seq<RData>, qname: string, qt: string, ttl: nat)
    ensures Select(a + b, qname, qt, ttl) == Select(a, qname, qt, ttl) + Select(b, qname, qt, ttl)
  {
    if b == [] {
      assert a + b == a;
    } else {
      var n := |b| - 1;
      assert (a + b)[..|a + b| - 1] == a + b[..n];
      SelectConcat(a, b[..n], qname, qt, ttl);
    }
  }

  /** When no stored record is wanted there are no answers. */
  lemma {:induction false} SelectNoneWanted(rrs: seq<RData>, qname: string, qt: string, ttl: nat)
    requires forall i :: 0 <= i < |rrs| ==> !Wanted(qt, rrs[i])
    ensures Select(rrs, qname, qt, ttl) == []
  {
    if rrs != [] {
      SelectNoneWanted(rrs[..|rrs| - 1], qname, qt, ttl);
    }
  }

  /** An owner that is not a key of the dictionary contributes no answers. */
  lemma {:induction false} TableAnswersAbsent(records: seq<Entry>, qname: string, qt: string, ttl: nat)
    requires qname !in RecordMap(records)
    ensures TableAnswers(records, qname, qt, ttl) == []
  {
    if records != [] {
      var n := |records| - 1;
      assert forall i :: 0 <= i < n ==> records[..n][i] == records[i];
      TableAnswersAbsent(records[..n], qname, qt, ttl);
    }
  }

  /**
   * Walking every dictionary item and comparing owners is a dictionary lookup: the
   * answers are those selected from `records[qname]`, or none if there is no such key.
   */
  lemma {:induction false} TableAnswersIsLookup(records: seq<Entry>, qname: string, qt: string, ttl: nat)
    requires DistinctOwners(records)
    ensures TableAnswers(records, qname, qt, ttl) ==
      if qname in RecordMap(records) then Select(RecordMap(records)[qname], qname, qt, ttl) else []
  {
    if records != [] {
      var n := |records| - 1;
      var prefix := records[..n];
      assert forall i :: 0 <= i < n ==> prefix[i] == records[i];
      assert DistinctOwners(prefix);
      if records[n].owner == qname {
        TableAnswersAbsent(prefix, qname, qt, ttl);
      } else {
        TableAnswersIsLookup(prefix, qname, qt, ttl);
      }
    }
  }

  // ---------------------------------------------------------------------------
  // Properties of `dns_response`.

  /** `QTYPE[qtype]` (line 85) raises exactly for a code outside the table, before the zone is consulted. */
  lemma ResolveRaisedIff(z: Zone, req: Request)
    ensures Resolve(z, req).Raised? <==> QTypeName(req.q.qtype).None?
  {
  }

  /**
   * No reply exactly when the lower-cased name is neither the apex nor `item.apex` for
   * any item (dumbdns.py:88, 113-117), for a type the table knows.
   */
  lemma ResolveNoReplyIff(z: Zone, req: Request)
    ensures Resolve(z, req).NoReply? <==>
      QTypeName(req.q.qtype).Some? &&
      !(Lower(req.q.qname) == z.apex || exists item :: Lower(req.q.qname) == Sub(z.apex, item))
  {
    InZoneIff(z.apex, Lower(req.q.qname));
  }

  /**
   * The zone test respects the label boundary: a lower-case name that is the apex with a
   * prefix not ending in a dot gets no reply.
   */
  lemma SiblingIgnored(z: Zone, req: Request, prefix: string)
    requires IsLower(z.apex) && IsLower(prefix) && prefix != [] && prefix[|prefix| - 1] != '.'
    requires req.q.qname == prefix + z.apex && QTypeName(req.q.qtype).Some?
    ensures Resolve(z, req) == NoReply
  {
    var name := req.q.qname;
    assert IsLower(name);
    LowerOfLower(name);
    assert name[|name| - |"." + z.apex|] == prefix[|prefix| - 1];
  }

  /** `notexample.com.` shares the configured apex as a suffix but gets no reply. */
  lemma SiblingDomainIgnored(id: nat)
    ensures Resolve(Configured, Request(id, Question("notexample.com.", 1, 1))) == NoReply
  {
    assert "notexample.com." == "not" + Domain;
    SiblingIgnored(Configured, Request(id, Question("notexample.com.", 1, 1)), "not");
  }

  /** A name outside the zone gets no reply. */
  lemma ForeignDomainIgnored(id: nat)
    ensures Resolve(Configured, Request(id, Question("other.org.", 1, 1))) == NoReply
  {
    assert |Lower("other.org.")| < |Domain|;
  }

  /** The zone test ignores case: any item under any spelling of the apex is accepted. */
  lemma SubdomainAnyCaseAccepted(z: Zone, req: Request, spelled: string, item: string)
    requires IsLower(z.apex) && Lower(spelled) == z.apex
    requires req.q.qname == Sub(spelled, item) && QTypeName(req.q.qtype).Some?
    ensures Resolve(z, req).Reply?
  {
    LowerConcat(item + ".", spelled);
    LowerConcat(item, ".");
    assert Lower(req.q.qname) == Sub(z.apex, Lower(item));
    InZoneIff(z.apex, Lower(req.q.qname));
  }

  /** `Foo.EXAMPLE.com.` passes the zone test of the configured zone. */
  lemma MixedCaseAccepted(id: nat)
    ensures Resolve(Configured, Request(id, Question("Foo.EXAMPLE.com.", 1, 1))).Reply?
  {
    assert Lower("EXAMPLE.com.") == Domain;
    assert "Foo.EXAMPLE.com." == Sub("EXAMPLE.com.", "Foo");
    SubdomainAnyCaseAccepted(Configured, Request(id, Question("Foo.EXAMPLE.com.", 1, 1)), "EXAMPLE.com.", "Foo");
  }

  /**
   * Every reply echoes the request id and question and carries QR, AA and RA, with
   * RD (dnslib's default), with opcode 0 and no TC; the code is NXDOMAIN for AAAA and NOERROR otherwise.
   */
  lemma ResolveReplyHeader(z: Zone, req: Request)
    requires Resolve(z, req).Reply?
    ensures var m := Resolve(z, req).msg;
      && m.header.id == req.id && m.q == req.q
      && m.header.qr && m.header.aa && m.header.ra
      && m.header.opcode == 0 && !m.header.tc && m.header.rd
      && m.header.rcode == (if req.q.qtype == 28 then NXDomain else NoError)
  {
  }

  /**
   * An A query for an in-zone name gets exactly one answer, the served address owned by the
   * name as received, whatever the table stores; no authority, no additional records.
   */
  lemma ResolveTypeA(z: Zone, req: Request)
    requires req.q.qtype == 1 && InZone(z.apex, Lower(req.q.qname))
    ensures Resolve(z, req) == Reply(Message(ReplyHeader(req.id), req.q, [RR(req.q.qname, 1, 1, z.ttl, A(z.ip))], [], []))
    ensures forall records :: Resolve(z.(records := records), req) == Resolve(z, req)
  {
  }

  /** An AAAA query for an in-zone name gets NXDOMAIN and three empty sections. */
  lemma ResolveTypeAAAA(z: Zone, req: Request)
    requires req.q.qtype == 28 && InZone(z.apex, Lower(req.q.qname))
    ensures Resolve(z, req) == Reply(Message(ReplyHeader(req.id).(rcode := NXDomain), req.q, [], [], []))
  {
  }

  /**
   * Any other known type: the answers are the wanted records stored under an owner equal,
   * case for case, to the query name, in stored order, re-owned by that name with the
   * zone's TTL; the code stays NOERROR even when there are none; the authority section is
   * the SOA and the additional section the NS records, in order, all owned by the apex.
   */
  lemma ResolveOtherType(z: Zone, req: Request)
    requires DistinctOwners(z.records)
    requires QTypeName(req.q.qtype).Some? && req.q.qtype != 1 && req.q.qtype != 28
    requires InZone(z.apex, Lower(req.q.qname))
    ensures Resolve(z, req).Reply?
    ensures var m, qn, qt := Resolve(z, req).msg, req.q.qname, QTypeName(req.q.qtype).value;
      var stored := if qn in RecordMap(z.records) then RecordMap(z.records)[qn] else [];
      var idx := WantedIndices(stored, qt);
      && m.header.rcode == NoError
      && |m.rr| == |idx|
      && (forall k :: 0 <= k < |idx| ==> m.rr[k] == RR(qn, TypeCode(stored[idx[k]]), 1, z.ttl, stored[idx[k]]))
      && m.auth == [RR(z.apex, 6, 1, z.ttl, z.soa)]
      && |m.ar| == |z.ns| && (forall k :: 0 <= k < |z.ns| ==> m.ar[k] == RR(z.apex, 2, 1, z.ttl, z.ns[k]))
  {
    var qn, qt := req.q.qname, QTypeName(req.q.qtype).value;
    TableAnswersIsLookup(z.records, qn, qt, z.ttl);
    var stored := if qn in RecordMap(z.records) then RecordMap(z.records)[qn] else [];
    SelectInStoredOrder(stored, qn, qt, z.ttl);
  }

  /**
   * Under a QTYPE table that names code 255 `ANY` instead of `*`, the test of line 105
   * selects no stored record, so such a query's answer section would be empty.
   */
  lemma {:induction false} AnyNamedSelectsNothing(records: seq<Entry>, qname: string, ttl: nat)
    ensures TableAnswers(records, qname, "ANY", ttl) == []
  {
    if records != [] {
      var n := |records| - 1;
      AnyNamedSelectsNothing(records[..n], qname, ttl);
      var rrs := records[n].rrs;
      forall i | 0 <= i < |rrs| ensures !Wanted("ANY", rrs[i]) {
        TypeCodeNamesType(rrs[i]);
      }
      SelectNoneWanted(rrs, qname, "ANY", ttl);
    }
  }

  /** The additional section of the configured zone: its two name servers, owned by the apex. */
  lemma AdditionalFor(d: string, ip: string, ttl: nat)
    ensures NsAdditional(ZoneFor(d, ip, ttl)) ==
      [RR(d, 2, 1, ttl, NS(Sub(d, "ns1"))), RR(d, 2, 1, ttl, NS(Sub(d, "ns2")))]
  {
  }

  /** A and AAAA queries for the apex of the configured zone. */
  lemma ApexAddressQueries(d: string, ip: string, ttl: nat, id: nat)
    requires IsLower(d)
    ensures Resolve(ZoneFor(d, ip, ttl), Request(id, Question(d, 1, 1))) ==
      Reply(Message(ReplyHeader(id), Question(d, 1, 1), [RR(d, 1, 1, ttl, A(ip))], [], []))
    ensures Resolve(ZoneFor(d, ip, ttl), Request(id, Question(d, 28, 1))) ==
      Reply(Message(ReplyHeader(id).(rcode := NXDomain), Question(d, 28, 1), [], [], []))
  {
    LowerOfLower(d);
  }

  /** In a list laid out as the apex's (A, AAAA, MX, SOA, NS, NS) an MX query selects the third record only. */
  lemma SelectApexLayoutMX(rrs: seq<RData>, qname: string, ttl: nat)
    requires |rrs| == 6 && rrs[0].A? && rrs[1].AAAA? && rrs[2].MX? && rrs[3].SOA? && rrs[4].NS? && rrs[5].NS?
    ensures Select(rrs, qname, "MX", ttl) == [Answer(qname, ttl, rrs[2])]
  {
    assert rrs == rrs[..2] + [rrs[2]] + rrs[3..];
    SelectConcat(rrs[..2] + [rrs[2]], rrs[3..], qname, "MX", ttl);
    SelectConcat(rrs[..2], [rrs[2]], qname, "MX", ttl);
    SelectNoneWanted(rrs[..2], qname, "MX", ttl);
    SelectNoneWanted(rrs[3..], qname, "MX", ttl);
    assert [rrs[2]][..0] == [];
  }

  /** An MX query for the apex finds its mail exchanger, with the SOA and both NS records. */
  lemma ApexMX(d: string, ip: string, ttl: nat, id: nat)
    requires IsLower(d)
    ensures Resolve(ZoneFor(d, ip, ttl), Request(id, Question(d, 15, 1))) ==
      Reply(Message(ReplyHeader(id), Question(d, 15, 1),
        [RR(d, 15, 1, ttl, MX(Sub(d, "mail"), 10))],
        [RR(d, 6, 1, ttl, SoaFor(d))],
        [RR(d, 2, 1, ttl, NS(Sub(d, "ns1"))), RR(d, 2, 1, ttl, NS(Sub(d, "ns2")))]))
  {
    var records := RecordsFor(d, ip);
    LowerOfLower(d);
    AdditionalFor(d, ip, ttl);
    DistinctOwnersFor(d, ip);
    TableAnswersIsLookup(records, d, "MX", ttl);
    RecordMapAt(records, 0);
    SelectApexLayoutMX(records[0].rrs, d, ttl);
  }

  /** A query for all records ("*", code 255) at the apex returns its six stored records in stored order. */
  lemma ApexWildcard(d: string, ip: string, ttl: nat)
    ensures var rrs := RecordsFor(d, ip)[0].rrs;
      var out := TableAnswers(RecordsFor(d, ip), d, QTypeName(255).value, ttl);
      |out| == 6 && forall k :: 0 <= k < 6 ==> out[k] == RR(d, TypeCode(rrs[k]), 1, ttl, rrs[k])
  {
    var records := RecordsFor(d, ip);
    DistinctOwnersFor(d, ip);
    TableAnswersIsLookup(records, d, "*", ttl);
    RecordMapAt(records, 0);
    SelectAll(records[0].rrs, d, ttl);
  }

  /**
   * Owner comparison is case-sensitive: a query of any known type other than A and AAAA for
   * another spelling of the apex passes the zone test but finds no stored records, and still
   * gets NOERROR with the SOA and NS records.
   */
  lemma ApexRespelledFindsNothing(d: string, ip: string, ttl: nat, id: nat, name: string, qtype: nat)
    requires IsLower(d) && Lower(name) == d && name != d
    requires QTypeName(qtype).Some? && qtype != 1 && qtype != 28
    ensures Resolve(ZoneFor(d, ip, ttl), Request(id, Question(name, qtype, 1))) ==
      Reply(Message(ReplyHeader(id), Question(name, qtype, 1), [],
        [RR(d, 6, 1, ttl, SoaFor(d))],
        [RR(d, 2, 1, ttl, NS(Sub(d, "ns1"))), RR(d, 2, 1, ttl, NS(Sub(d, "ns2")))]))
  {
    var records := RecordsFor(d, ip);
    LowerSpec(name);
    AdditionalFor(d, ip, ttl);
    forall i | 0 <= i < |records| ensures records[i].owner != name {
      assert i > 0 ==> |records[i].owner| != |name|;
    }
    TableAnswersAbsent(records, name, QTypeName(qtype).value, ttl);
  }

  /** In the configured zone, `EXAMPLE.COM. MX` finds no records. */
  lemma ConfiguredLookupIsCaseSensitive(id: nat)
    ensures Resolve(Configured, Request(id, Question("EXAMPLE.COM.", 15, 1))).msg.rr == []
  {
    assert Lower("EXAMPLE.COM.") == Domain;
    ApexRespelledFindsNothing(Domain, IP, TTL, id, "EXAMPLE.COM.", 15);
  }
}
