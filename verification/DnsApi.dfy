/** The DNS records that every DNS provider is asked for (providers/providerapi/dns.go). */
module DnsApi {

  datatype RecordType = A | CNAME | TXT | Unknown(name: string)

  datatype Record = Record(name: string, kind: RecordType, value: string, tag: string)

  /** The TXT value a request adds or removes: the ownership tag, or the value of a TXT record itself. */
  function Marker(r: Record): string {
    if r.kind == TXT then r.value else r.tag
  }

  /** What becomes of one API call: answered or not, and if not, whether it took effect all the same. */
  datatype Answer = Answer(ok: bool, applied: bool) {
    predicate Acts() { ok || applied }
  }

  /** How the calls of one request are answered, by their number. */
  type Api = nat -> Answer

  ghost predicate AlwaysAnswers(api: Api) {
    forall i :: api(i).ok
  }

  /** A request for a record to exist, or to be removed. */
  datatype Request = Request(remove: bool, record: Record, api: Api)

  /** Ramify's own traffic: A records under some owner's tag, and TXT challenges that do not pose as a tag. */
  predicate Ours(q: Request, tags: set<string>) {
    || (q.record.kind == A && q.record.tag in tags)
    || (q.record.kind == TXT && q.record.value !in tags)
  }
}
