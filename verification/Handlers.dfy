/** The handler's own 304: a 200 that the client already has is not sent again. */
module Handlers {
  import opened Http
  import opened Text
  import opened Revalidation
  import opened System
  import opened Provenance
  import opened Runs
  import Etag
  import Theorems

  /** The first line from position i on that the tag does not simply differ from. */
  function Decisive(etag: string, lines: seq<string>, i: nat): (n: nat)
    requires i <= |lines|
    ensures i <= n <= |lines|
    ensures forall j :: i <= j < n ==> Etag.EtagsMatch(etag, lines[j]).Different?
    ensures n < |lines| ==> !Etag.EtagsMatch(etag, lines[n]).Different?
    decreases |lines| - i
  {
    if i == |lines| || !Etag.EtagsMatch(etag, lines[i]).Different? then i else Decisive(etag, lines, i + 1)
  }

  function Settled(etag: string, lines: seq<string>): Etag.Comparison {
    var n := Decisive(etag, lines, 0);
    if n < |lines| then Etag.EtagsMatch(etag, lines[n]) else Etag.Different
  }

  predicate DatesMatch(req: Headers, resp: Headers) {
    First(resp, "Last-Modified") != "" && First(resp, "Last-Modified") == First(req, "If-Modified-Since")
  }

  function OwnMatch(req: Headers, resp: Headers): Etag.Comparison {
    var etag := First(resp, "Etag");
    var byTag := if etag == "" then Etag.Different else Settled(etag, Values(req, "If-None-Match"));
    if !byTag.Different? then byTag else if DatesMatch(req, resp) then Etag.Same else Etag.Different
  }

  method MatchesOriginalQuery(req: Headers, resp: Headers) returns (r: Etag.Comparison)
    ensures r == OwnMatch(req, resp)
  {
    hide Etag.EtagsMatch;
    var etag := First(resp, "Etag");
    if etag != "" {
      var lines := Values(req, "If-None-Match");
      for i := 0 to |lines|
        invariant Decisive(etag, lines, i) == Decisive(etag, lines, 0)
      {
        r := Etag.EtagsMatch(etag, lines[i]);
        if !r.Different? {
          return;
        }
      }
    }
    var lastModified := First(resp, "Last-Modified");
    r := if lastModified != "" && lastModified == First(req, "If-Modified-Since") then Etag.Same else Etag.Different;
  }

  /** With a well-formed tag, a match is a weak match with one of the client's lines or an equal date, and the
      comparison fails exactly on a line of less than two characters that comes before any match with a strong tag. */
  lemma OwnMatchMeans(req: Headers, resp: Headers)
    requires var etag := First(resp, "Etag"); etag == "" || Etag.WellFormed(etag)
    ensures var etag, lines := First(resp, "Etag"), Values(req, "If-None-Match");
            && (OwnMatch(req, resp).Panics? <==> etag != "" && !Etag.IsWeak(etag) && Stumbles(etag, lines))
            && (OwnMatch(req, resp).Same? <==>
                  && !OwnMatch(req, resp).Panics?
                  && ((etag != "" && LineMatch(etag, req)) || DatesMatch(req, resp)))
  {
    hide Etag.EtagsMatch, Etag.WeakEqual;
    var etag, lines := First(resp, "Etag"), Values(req, "If-None-Match");
    if etag != "" {
      forall i | 0 <= i < |lines|
        ensures LineOk(etag, lines[i])
      {
        LineMeans(etag, lines[i]);
      }
      SettledStumbles(etag, lines);
    }
  }

  /** What comparing a well-formed tag with one line gives. */
  predicate LineOk(etag: string, line: string) {
    && (Etag.EtagsMatch(etag, line).Panics? <==> !Etag.IsWeak(etag) && |line| < 2)
    && (Etag.EtagsMatch(etag, line).Same? <==> Etag.WeakEqual(etag, line))
  }

  lemma LineMeans(etag: string, line: string)
    requires Etag.WellFormed(etag)
    ensures LineOk(etag, line)
  {
    Etag.PanicsExactlyWhen(etag, line);
    if !Etag.EtagsMatch(etag, line).Panics? {
      Etag.ComparisonIsWeak(etag, line);
      assert etag == "W/" + line ==> Etag.Opaque(etag) == line;
    }
  }

  /** A line too short to compare comes before any match. */
  ghost predicate Stumbles(etag: string, lines: seq<string>) {
    exists n :: 0 <= n < |lines| && |lines[n]| < 2 && forall i :: 0 <= i < n ==> !Etag.WeakEqual(etag, lines[i])
  }

  lemma SettledStumbles(etag: string, lines: seq<string>)
    requires forall i :: 0 <= i < |lines| ==> LineOk(etag, lines[i])
    ensures Settled(etag, lines).Panics? <==> !Etag.IsWeak(etag) && Stumbles(etag, lines)
  {
    hide Etag.EtagsMatch, Etag.WeakEqual, Decisive;
    if !Etag.IsWeak(etag) && Stumbles(etag, lines) {
      var n :| 0 <= n < |lines| && |lines[n]| < 2 && forall i :: 0 <= i < n ==> !Etag.WeakEqual(etag, lines[i]);
      assert LineOk(etag, lines[n]);
    }
  }

  /** `If-None-Match: *` and a strong stored tag bring the handler down. */
  lemma StarPanics()
    ensures OwnMatch(map["If-None-Match" := ["*"]], map["Etag" := ["\"v\""]]).Panics?
  {
    Etag.MissingTagPanics();
    assert Decisive("\"v\"", ["*"], 0) == 0;
  }

  /* ---- Lines are not lists ---- */

  ghost predicate LineMatch(etag: string, req: Headers) {
    exists line :: line in Values(req, "If-None-Match") && Etag.WeakEqual(etag, line)
  }

  /** Every well-formed tag the client lists also stands alone on a line. */
  ghost predicate EachAlone(req: Headers) {
    forall t :: t in ClientTags(req) && Etag.WellFormed(t) ==> LineMatch(t, req)
  }

  /** Every line that is a well-formed tag is one of the tags listed: no open quote swallows it. */
  ghost predicate LinesListed(req: Headers) {
    forall line :: line in Values(req, "If-None-Match") && Etag.WellFormed(line) ==> NamesTag(ClientTags(req), line)
  }

  /** The handler compares whole lines. That is the comparison with the listed tags, for every well-formed tag, exactly
      when each listed tag stands alone on a line and no open quote swallows a line. */
  lemma LinesAreTags(req: Headers)
    ensures (forall etag :: Etag.WellFormed(etag) ==> (LineMatch(etag, req) <==> NamesTag(ClientTags(req), etag)))
            <==> EachAlone(req) && LinesListed(req)
  {
    hide ClientTags, Etag.EtagsMatch;
    if EachAlone(req) && LinesListed(req) {
      forall etag | Etag.WellFormed(etag)
        ensures LineMatch(etag, req) <==> NamesTag(ClientTags(req), etag)
      {
        if LineMatch(etag, req) {
          var line :| line in Values(req, "If-None-Match") && Etag.WeakEqual(etag, line);
          assert NamesTag(ClientTags(req), line);
        }
        if NamesTag(ClientTags(req), etag) {
          var t :| t in ClientTags(req) && Etag.WeakEqual(etag, t);
          assert LineMatch(t, req);
        }
      }
    } else if LinesListed(req) {
      var t :| t in ClientTags(req) && Etag.WellFormed(t) && !LineMatch(t, req);
      assert NamesTag(ClientTags(req), t);
    } else {
      var line :| line in Values(req, "If-None-Match") && Etag.WellFormed(line) && !NamesTag(ClientTags(req), line);
      assert LineMatch(line, req);
    }
  }

  /** Lines that close their quotes swallow nothing. */
  lemma {:induction false} ClosedLinesAreListed(lines: seq<string>, line: string)
    requires forall i :: 0 <= i < |lines| ==> !Etag.EndsQuoted(lines[i], false)
    requires line in lines && Etag.WellFormed(line)
    ensures line in Etag.Tags(Join(lines, ", "))
  {
    hide Etag.Tags, Etag.EndsQuoted, Etag.WellFormed;
    var rest := lines[1..];
    assert lines == [lines[0]] + rest;
    if line == lines[0] {
      Etag.WellFormedIsOneTag(line);
    } else {
      ClosedLinesAreListed(rest, line);
    }
    if rest != [] {
      Etag.TagsOfPair(lines[0], Join(rest, ", "));
    }
  }

  lemma ClosedLinesSwallowNothing(req: Headers)
    requires forall line :: line in Values(req, "If-None-Match") ==> !Etag.EndsQuoted(line, false)
    ensures LinesListed(req)
  {
    hide Etag.Tags, Etag.EndsQuoted, Etag.WellFormed;
    forall line | line in Values(req, "If-None-Match") && Etag.WellFormed(line)
      ensures NamesTag(ClientTags(req), line)
    {
      ClosedLinesAreListed(Values(req, "If-None-Match"), line);
      assert Etag.WeakEqual(line, line);
    }
  }

  lemma ShortTag(t: string)
    requires |t| == 3 && t[0] == '"' && t[1] != '"' && t[2] == '"'
    ensures Etag.WellFormed(t)
  {
    assert !Etag.IsWeak(t) by { assert "W/"[0] == 'W'; }
  }

  /** A client that lists two tags on a line and has the second gets the whole body again. */
  lemma ListedTagIsMissed()
    ensures var req: Headers := map["If-None-Match" := ["\"a\", \"v\""]];
            && NamesTag(ClientTags(req), "\"v\"")
            && OwnMatch(req, map["Etag" := ["\"v\""]]).Different?
  {
    hide Etag.Tags;
    var line := "\"a\", \"v\"";
    var req: Headers := map["If-None-Match" := [line]];
    var a, v := "\"a\"", "\"v\"";
    ShortTag(a);
    ShortTag(v);
    Etag.CombinedTags([a, v], []);
    assert [a, v][1..] == [v];
    assert Join([a, v], ", ") == a + ", " + v == line;
    assert v in ClientTags(req) && Etag.WeakEqual(v, v);
    assert line[0] == '"' && v[0] == '"';
    assert Etag.EtagsMatch(v, line).Different?;
  }

  /** What Forward sends for what Do returned, when it sends anything. */
  function Forwarded(req: Headers, resp: Response): Option<int> {
    if resp.status != OK then Some(resp.status)
    else
      match OwnMatch(req, resp.headers)
      case Same => Some(NOT_MODIFIED)
      case Different => Some(resp.status)
      case Panics => None
  }

  /** Forward turns a 200 into a 304 exactly if it is the client's own, and leaves every other status alone. */
  lemma ForwardedExactly(req: Headers, resp: Response)
    requires var etag := First(resp.headers, "Etag"); etag == "" || Etag.WellFormed(etag)
    ensures resp.status != 200 ==> Forwarded(req, resp) == Some(resp.status)
    ensures resp.status == 200 ==>
              var etag := First(resp.headers, "Etag");
              var panics := etag != "" && !Etag.IsWeak(etag) && Stumbles(etag, Values(req, "If-None-Match"));
              var own := (etag != "" && LineMatch(etag, req)) || DatesMatch(req, resp.headers);
              Forwarded(req, resp) == if panics then None else if own then Some(304) else Some(200)
  {
    hide OwnMatch, LineMatch, Stumbles, DatesMatch, Etag.WellFormed;
    OwnMatchMeans(req, resp.headers);
  }

  /** In every run, a 304 that reaches the client answers a condition the client itself made: it names one of the
      client's tags, or without a tag repeats the client's date, never only what the cache added. */
  lemma EveryNotModifiedIsOwn(c: Config, actions: seq<Action>, i: nat)
    requires Sane(c) && IsRun(c, actions) && i < |After(c, actions).replies|
    requires ConditionalOnly(After(c, actions).log) && TagDiscipline(After(c, actions).log)
    requires DateDiscipline(After(c, actions).log)
    requires var reply := After(c, actions).replies[i];
             && Forwarded(reply.original, reply.resp) == Some(NOT_MODIFIED)
             && (First(reply.resp.headers, "Etag") == "" || Etag.WellFormed(First(reply.resp.headers, "Etag")))
    ensures var reply := After(c, actions).replies[i];
            var etag := First(reply.resp.headers, "Etag");
            && Conditional(reply.original)
            && (reply.resp.status == NOT_MODIFIED && etag != "" ==> NamesTag(ClientTags(reply.original), etag))
            && (reply.resp.status == NOT_MODIFIED && RepeatsDate(reply.resp.headers) ==>
                  DatesMatch(reply.original, reply.resp.headers))
            && (reply.resp.status != NOT_MODIFIED ==>
                  reply.resp.status == OK
                  && ((etag != "" && LineMatch(etag, reply.original))
                      || DatesMatch(reply.original, reply.resp.headers)))
  {
    hide IsRun, After, OwnMatch, Etag.WeakEqual, Etag.WellFormed, ConditionalOnly, TagDiscipline, DateDiscipline,
         ClientTags;
    var reply := After(c, actions).replies[i];
    Theorems.NoStray304(c, actions, i);
    if reply.resp.status == NOT_MODIFIED {
      if First(reply.resp.headers, "Etag") != "" {
        Theorems.NotModifiedIsOwn(c, actions, i);
      } else if RepeatsDate(reply.resp.headers) {
        Theorems.NotModifiedRepeatsOwn(c, actions, i);
      }
    } else {
      OwnMatchMeans(reply.original, reply.resp.headers);
    }
  }
}
