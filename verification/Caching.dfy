/** Which responses may be stored: section 3 of RFC 9111. */
module Caching {
  import opened Http
  import opened CacheControl
  import opened Freshness

  datatype Verdict = Verdict(cacheable: bool, explicit: bool)

  /** One of the guards before the one about Authorization applies. Range and Content-Range are looked up in the
      response. */
  predicate Decided(status: int, h: Headers, cc: Reading) {
    status != OK || !cc.ok || "Range" in h || "Content-Range" in h || cc.directives.noStore || cc.directives.private_
  }

  /** The guards of IsCacheable, in order; barred is the one about Authorization. */
  function Guards(p: Platform, status: int, h: Headers, isPrivate: bool, barred: bool): Verdict {
    var cc := Read(Values(h, "Cache-Control"));
    if status != OK then Verdict(false, true)
    else if !cc.ok then Verdict(false, true)
    else if "Range" in h || "Content-Range" in h then Verdict(false, true)
    else if cc.directives.noStore then Verdict(false, true)
    else if cc.directives.private_ then Verdict(isPrivate, true)
    else if !isPrivate && barred then Verdict(false, true)
    else if cc.directives.public || cc.directives.maxAge != 0 || cc.directives.sMaxAge != 0 then Verdict(true, true)
    else if "Expires" in h then Verdict(true, true)
    else if First(h, "Etag") != "" then Verdict(true, true)
    else if First(h, "Last-Modified") != "" && p.parseTime(First(h, "Last-Modified")).Some? then Verdict(true, true)
    else Verdict(false, false)
  }

  /** An Authorization field bars a response from a shared cache unless a directive lets it in. The program looks
      for the field in the response. */
  predicate Barred(h: Headers) {
    var cc := Read(Values(h, "Cache-Control")).directives;
    "Authorization" in h && !cc.mustRevalidate && !cc.public && cc.sMaxAge == 0
  }

  /** Section 3.5 of RFC 9111: the field is the request's, and s-maxage lets the response in whatever it says. */
  predicate RfcBarred(req: Headers, h: Headers) {
    var cc := Read(Values(h, "Cache-Control")).directives;
    "Authorization" in req && !cc.mustRevalidate && !cc.public && Stated(Heeded(h), SMaxAge).None?
  }

  function IsCacheable(p: Platform, status: int, h: Headers, isPrivate: bool): Verdict {
    Guards(p, status, h, isPrivate, Barred(h))
  }

  /** The verdict follows section 3.5 exactly when something else decides, the cache is private, or the response
      carries the request's credentials on to the check. */
  lemma CredentialsHonoured(p: Platform, status: int, h: Headers, isPrivate: bool, req: Headers)
    ensures IsCacheable(p, status, h, isPrivate) == Guards(p, status, h, isPrivate, RfcBarred(req, h))
            <==> Decided(status, h, Read(Values(h, "Cache-Control"))) || isPrivate || (Barred(h) <==> RfcBarred(req, h))
  {
    hide CacheControl.Read;
  }

  /** Only an explicit refusal keeps a response out of the store. */
  predicate Refused(p: Platform, status: int, h: Headers, isPrivate: bool) {
    IsCacheable(p, status, h, isPrivate) == Verdict(false, true)
  }

  /** What the response says about Authorization lets it into a shared cache. */
  predicate LetIn(es: seq<string>) {
    Bare(es, "must-revalidate") || Bare(es, "public") || Amount(es, "s-maxage") != 0
  }

  /** The refusals, over the text of the fields: a status other than 200, a bad number, a partial answer, a bare
      no-store, private in a shared cache, or credentials in a shared cache that nothing lets in. */
  lemma RefusedExactly(p: Platform, status: int, h: Headers, isPrivate: bool)
    ensures var lines := Values(h, "Cache-Control");
            var es := Counting(lines);
            Refused(p, status, h, isPrivate) <==>
              || status != 200 || !AllCount(lines) || "Range" in h || "Content-Range" in h
              || Bare(es, "no-store")
              || (!isPrivate && (FirstSaying(es, "private").Some? || ("Authorization" in h && !LetIn(es))))
  {
    hide CacheControl.Read, Counting, AllCount, Bare, FirstSaying, Amount;
    ReadMeans(Values(h, "Cache-Control"));
  }

  /** The permissions: not refused, and private, public, a lifetime, Expires, an entity tag or a readable date. */
  lemma PermittedExactly(p: Platform, status: int, h: Headers, isPrivate: bool)
    ensures var es := Counting(Values(h, "Cache-Control"));
            IsCacheable(p, status, h, isPrivate) == Verdict(true, true) <==>
              && !Refused(p, status, h, isPrivate)
              && (|| FirstSaying(es, "private").Some? || Bare(es, "public")
                  || Amount(es, "max-age") != 0 || Amount(es, "s-maxage") != 0
                  || "Expires" in h || First(h, "Etag") != ""
                  || (First(h, "Last-Modified") != "" && p.parseTime(First(h, "Last-Modified")).Some?))
  {
    hide CacheControl.Read, Counting, AllCount, Bare, FirstSaying, Amount;
    ReadMeans(Values(h, "Cache-Control"));
  }

  lemma OnlyOkIsKept(p: Platform, status: int, h: Headers, isPrivate: bool)
    requires !Refused(p, status, h, isPrivate)
    ensures status == OK
  {
  }

  /** Stored without permission means no lifetime, hence never fresh once it has been received. */
  lemma UnpermittedIsNeverFresh(p: Platform, status: int, h: Headers, isPrivate: bool, created: int, now: int)
    requires IsCacheable(p, status, h, isPrivate) == Verdict(false, false)
    requires created <= now
    ensures Lifetime(p, h, Read(Values(h, "Cache-Control")).directives) == 0
    ensures !IsFresh(p, h, Read(Values(h, "Cache-Control")).directives, created, now)
  {
    hide CacheControl.Read;
    AgeNotNegative(created, now);
  }
}
