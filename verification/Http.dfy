/** Header fields, bytes and the foreign services the proxy relies on. */
module Http {

  datatype Option<+T> = None | Some(value: T)

  newtype Byte = b: int | 0 <= b < 256
  type Bytes = seq<Byte>

  /** http.Header with canonical names; an absent name reads as nil, written [] here. */
  type Headers = map<string, seq<string>>

  /** Indexing a header map. */
  function Values(h: Headers, name: string): seq<string> {
    if name in h then h[name] else []
  }

  /** http.Header.Get: the first value, or the empty string. */
  function First(h: Headers, name: string): string {
    var vs := Values(h, name);
    if vs == [] then "" else vs[0]
  }

  /** Instants and durations are nanoseconds; time.Time{} is ZERO_TIME. */
  const SECOND: int := 1_000_000_000
  const ZERO_TIME: int := 0

  const OK: int := 200
  const NOT_MODIFIED: int := 304
  const TOO_MANY_REQUESTS: int := 429

  /** Calls into code that is not modelled: date parsing and formatting, the
      rendering of an age in seconds, and the content hash. */
  datatype Platform = Platform(
    parseTime: string -> Option<int>,
    formatTime: int -> string,
    formatSeconds: int -> string,
    hash: Bytes -> string
  )

  /** The Date field as the proxy reads it. */
  function DateOf(p: Platform, h: Headers): Option<int> {
    p.parseTime(First(h, "Date"))
  }

  ghost predicate Injective(hash: Bytes -> string) {
    forall a, b :: hash(a) == hash(b) ==> a == b
  }

  /** The hop-by-hop fields of section 7.6.1 of RFC 9110 that are never forwarded or stored. */
  const HOP_BY_HOP: set<string> := {
    "Connection", "Proxy-Connection", "Keep-Alive", "Te", "Trailer", "Transfer-Encoding",
    "Upgrade", "Proxy-Authenticate", "Proxy-Authentication-Info", "Proxy-Authorization"
  }

  function RemoveHopByHop(h: Headers): (r: Headers)
    ensures r.Keys !! HOP_BY_HOP
    ensures forall k :: k in r ==> k in h && r[k] == h[k]
    ensures forall k :: k in h && k !in HOP_BY_HOP ==> k in r
  {
    h - HOP_BY_HOP
  }

  /** Exactly these fields go, and the others stay as they are. */
  lemma StripsExactly(h: Headers, k: string)
    ensures Values(RemoveHopByHop(h), k) ==
            if k == "Connection" || k == "Proxy-Connection" || k == "Keep-Alive" || k == "Te" || k == "Trailer"
               || k == "Transfer-Encoding" || k == "Upgrade" || k == "Proxy-Authenticate"
               || k == "Proxy-Authentication-Info" || k == "Proxy-Authorization"
            then [] else Values(h, k)
  {
  }
}
